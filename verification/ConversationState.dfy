/** What the bounded conversation store (internal/conversationstore/store_memory.go) holds, and what each of its
    calls means for that: expiry, byte accounting and the order of eviction. */
module ConversationState {
  import opened Wrappers
  import Strings

  type RawMessage = string

  /** A stored snapshot. Times are integers, and 0 is the zero time. */
  datatype Stored = Stored(id: string, items: seq<RawMessage>, storedAt: int, expiresAt: int)

  const ZERO_TIME := 0

  /** Non-positive bounds are disabled. */
  datatype Config = Config(ttl: int, maxEntries: int, maxBytes: int, cleanupInterval: int)

  datatype State = State(items: map<string, Stored>, sizes: map<string, nat>, lastCleanup: int)

  const EMPTY := State(map[], map[], ZERO_TIME)

  datatype Error = IdRequired | NotSerializable | OverBudget | AlreadyExists | NotFound | WouldOutgrowBudget

  datatype Reply = Done | Found(conversation: Stored) | Failed(error: Error)

  /** A snapshot handed in may be nil; `size` is its serialized size, if it can be serialized. */
  datatype Call =
    | Create(snapshot: Option<Stored>, size: Option<nat>)
    | Get(id: string)
    | Update(snapshot: Option<Stored>, size: Option<nat>)
    | AppendItems(id: string, more: seq<RawMessage>)
    | Delete(id: string)

  // ---------------------------------------------------------------- sums over the size table

  ghost function Sum(m: map<string, nat>): nat {
    if m == map[] then 0 else
      var k :| k in m;
      m[k] + Sum(m - {k})
  }

  lemma {:induction false} SumRemove(m: map<string, nat>, k: string)
    requires k in m
    ensures Sum(m) == m[k] + Sum(m - {k})
    decreases |m|
  {
    var j :| j in m && Sum(m) == m[j] + Sum(m - {j});
    if j != k {
      SumRemove(m - {j}, k);
      SumRemove(m - {k}, j);
      assert m - {j} - {k} == m - {k} - {j};
    }
  }

  lemma SumPut(m: map<string, nat>, k: string, size: nat)
    ensures Sum(m[k := size]) == Sum(m - {k}) + size
  {
    SumRemove(m[k := size], k);
    assert m[k := size] - {k} == m - {k};
  }

  lemma {:induction false} SumOfPart(part: map<string, nat>, m: map<string, nat>)
    requires forall k :: k in part ==> k in m && m[k] == part[k]
    ensures Sum(part) <= Sum(m)
    decreases |m|
  {
    if part != map[] {
      var k :| k in part;
      SumRemove(part, k);
      SumRemove(m, k);
      SumOfPart(part - {k}, m - {k});
    }
  }

  // ---------------------------------------------------------------- expiry

  predicate Expired(c: Stored, now: int) {
    c.expiresAt != ZERO_TIME && c.expiresAt <= now
  }

  function Prepared(c: Stored, now: int, ttl: int): Stored {
    var stamped := if c.storedAt == ZERO_TIME then c.(storedAt := now) else c;
    if ttl > 0 && stamped.expiresAt == ZERO_TIME then stamped.(expiresAt := stamped.storedAt + ttl) else stamped
  }

  /** The state without its expired entries. */
  function Purged(s: State, now: int): State {
    s.(items := map id | id in s.items && !Expired(s.items[id], now) :: s.items[id],
       sizes := map id | id in s.sizes && id in s.items && !Expired(s.items[id], now) :: s.sizes[id])
  }

  /** The throttled sweep. */
  function Cleaned(cfg: Config, s: State, now: int): State {
    if cfg.ttl <= 0 then s
    else if cfg.cleanupInterval > 0 && s.lastCleanup != ZERO_TIME && now - s.lastCleanup < cfg.cleanupInterval then s
    else Purged(s, now).(lastCleanup := now)
  }

  /** A sweep leaves nothing expired. It comes with the first call, then when the interval has passed, and never without
      a TTL. */
  lemma SweepIsThrottled(cfg: Config, s: State, now: int)
    ensures var swept := Cleaned(cfg, s, now);
            if cfg.ttl > 0 && (s.lastCleanup == 0 || now - s.lastCleanup >= cfg.cleanupInterval
              || cfg.cleanupInterval <= 0)
            then swept.lastCleanup == now
                 && forall id :: id in swept.items <==> id in s.items && !(0 != s.items[id].expiresAt <= now)
            else swept == s
  {
  }

  // ---------------------------------------------------------------- eviction

  function Removed(s: State, ids: set<string>): State {
    s.(items := s.items - ids, sizes := s.sizes - ids)
  }

  function Put(s: State, id: string, c: Stored, size: nat): State {
    s.(items := s.items[id := c], sizes := s.sizes[id := size])
  }

  ghost predicate WithinCaps(cfg: Config, s: State) {
    && (cfg.maxEntries <= 0 || |s.items| <= cfg.maxEntries)
    && (cfg.maxBytes <= 0 || Sum(s.sizes) <= cfg.maxBytes)
  }

  /** Eviction order: by StoredAt, then by id. */
  predicate Before(items: map<string, Stored>, a: string, b: string)
    requires a in items && b in items
  {
    items[a].storedAt < items[b].storedAt || (items[a].storedAt == items[b].storedAt && Strings.Less(a, b))
  }

  lemma BeforeIsStrictOrder(items: map<string, Stored>, a: string, b: string, c: string)
    requires a in items && b in items && c in items
    ensures !Before(items, a, a)
    ensures a != b ==> Before(items, a, b) || Before(items, b, a)
    ensures Before(items, a, b) && Before(items, b, c) ==> Before(items, a, c)
  {
    Strings.LessIrreflexive(a);
    Strings.LessTotal(a, b);
    if Strings.Less(a, b) && Strings.Less(b, c) {
      Strings.LessTransitive(a, b, c);
    }
  }

  ghost predicate IsFirst(items: map<string, Stored>, ids: set<string>, first: string)
    requires ids <= items.Keys
  {
    first in ids && forall id :: id in ids && id != first ==> Before(items, first, id)
  }

  lemma {:induction false} FirstExists(items: map<string, Stored>, ids: set<string>) returns (first: string)
    requires ids <= items.Keys && ids != {}
    ensures IsFirst(items, ids, first)
    decreases |ids|
  {
    var id :| id in ids;
    if ids == {id} {
      first := id;
    } else {
      var rest := FirstExists(items, ids - {id});
      BeforeIsStrictOrder(items, id, rest, rest);
      first := if Before(items, id, rest) then id else rest;
      forall other | other in ids && other != first ensures Before(items, first, other) {
        if other != id && other != rest {
          BeforeIsStrictOrder(items, id, rest, other);
        }
      }
    }
  }

  lemma SomeFirst(items: map<string, Stored>, ids: set<string>)
    requires ids <= items.Keys && ids != {}
    ensures exists first :: IsFirst(items, ids, first)
  {
    var first := FirstExists(items, ids);
  }

  lemma FirstIsUnique(items: map<string, Stored>, ids: set<string>, a: string, b: string)
    requires ids <= items.Keys && IsFirst(items, ids, a) && IsFirst(items, ids, b)
    ensures a == b
  {
    BeforeIsStrictOrder(items, a, b, a);
  }

  /** The ids in eviction order. */
  ghost function InOrder(items: map<string, Stored>, ids: set<string>): (order: seq<string>)
    requires ids <= items.Keys
    decreases |ids|
  {
    if ids == {} then [] else
      var w := FirstWitness(items, ids);
      [w] + InOrder(items, ids - {w})
  }

  ghost function FirstWitness(items: map<string, Stored>, ids: set<string>): (first: string)
    requires ids <= items.Keys && ids != {}
    ensures IsFirst(items, ids, first)
  {
    SomeFirst(items, ids);
    var first :| IsFirst(items, ids, first);
    first
  }

  ghost predicate Lists(items: map<string, Stored>, ids: set<string>, order: seq<string>) {
    && (forall k :: 0 <= k < |order| ==> order[k] in ids)
    && (forall id :: id in ids ==> id in order)
    && (forall j, k :: 0 <= j < k < |order| ==>
        order[j] in items && order[k] in items && Before(items, order[j], order[k]))
    && (forall j, k :: 0 <= j < k < |order| ==> order[j] != order[k])
  }

  lemma ListsFirst(items: map<string, Stored>, ids: set<string>, first: string, rest: seq<string>)
    requires ids <= items.Keys && IsFirst(items, ids, first) && Lists(items, ids - {first}, rest)
    ensures Lists(items, ids, [first] + rest)
  {
    var order := [first] + rest;
    assert order[0] == first && forall k :: 1 <= k < |order| ==> order[k] == rest[k - 1];
    forall id | id in ids ensures id in order {
      assert id != first ==> id in rest;
    }
  }

  lemma {:induction false} InOrderLists(items: map<string, Stored>, ids: set<string>)
    requires ids <= items.Keys
    ensures Lists(items, ids, InOrder(items, ids))
    decreases |ids|
  {
    if ids != {} {
      var first := FirstWitness(items, ids);
      InOrderLists(items, ids - {first});
      ListsFirst(items, ids, first, InOrder(items, ids - {first}));
    }
  }

  ghost function Caps(cfg: Config): State -> bool {
    s => WithinCaps(cfg, s)
  }

  /** How many of `order` must go, from the front, before the rest fits. */
  ghost function Excess(fits: State -> bool, s: State, order: seq<string>): nat
    decreases |order|
  {
    if order == [] || fits(s) then 0 else 1 + Excess(fits, Removed(s, {order[0]}), order[1..])
  }

  function Elements(ids: seq<string>): set<string> {
    set id | id in ids
  }

  /** The state after its bounds are enforced for the entry just written. */
  ghost function Enforced(cfg: Config, s: State, protect: string): State {
    var order := InOrder(s.items, s.items.Keys - {protect});
    var n := Excess(Caps(cfg), s, order);
    if n <= |order| then Removed(s, Elements(order[..n])) else s
  }

  lemma RemovedFirst(s: State, order: seq<string>, m: nat)
    requires order != [] && m <= |order| - 1
    ensures Removed(Removed(s, {order[0]}), Elements(order[1..][..m])) == Removed(s, Elements(order[..m + 1]))
  {
    assert order[..m + 1] == [order[0]] + order[1..][..m];
    assert Elements(order[..m + 1]) == {order[0]} + Elements(order[1..][..m]);
  }

  lemma RemovedNone(s: State, order: seq<string>)
    ensures Removed(s, Elements(order[..0])) == s
  {
    assert Elements(order[..0]) == {};
  }

  lemma {:induction false} ExcessIsAPrefix(fits: State -> bool, s: State, order: seq<string>)
    ensures Excess(fits, s, order) <= |order|
    ensures Excess(fits, s, order) < |order| ==> fits(Removed(s, Elements(order[..Excess(fits, s, order)])))
    decreases |order|
  {
    RemovedNone(s, order);
    if order != [] && !fits(s) {
      var rest := Removed(s, {order[0]});
      ExcessIsAPrefix(fits, rest, order[1..]);
      RemovedFirst(s, order, Excess(fits, rest, order[1..]));
    }
  }

  lemma {:induction false} NoShorterPrefix(fits: State -> bool, s: State, order: seq<string>, m: nat)
    requires m < Excess(fits, s, order) <= |order|
    ensures !fits(Removed(s, Elements(order[..m])))
    decreases |order|
  {
    RemovedNone(s, order);
    if m > 0 {
      NoShorterPrefix(fits, Removed(s, {order[0]}), order[1..], m - 1);
      RemovedFirst(s, order, m - 1);
    }
  }

  /** The accounting that every call keeps. */
  ghost predicate Accounted(cfg: Config, s: State) {
    && s.items.Keys == s.sizes.Keys
    && (cfg.maxBytes > 0 ==> forall id :: id in s.sizes ==> s.sizes[id] <= cfg.maxBytes)
  }

  lemma OnlyProtectedIsWithinCaps(cfg: Config, s: State, protect: string)
    requires Accounted(cfg, s) && s.items.Keys == {protect}
    ensures WithinCaps(cfg, s)
  {
    SumRemove(s.sizes, protect);
    assert s.sizes - {protect} == map[];
    assert |s.items| == |s.items.Keys|;
  }

  lemma EnforcedIsWithinCaps(cfg: Config, s: State, protect: string)
    requires Accounted(cfg, s) && protect in s.items
    ensures var order := InOrder(s.items, s.items.Keys - {protect});
            var t := Enforced(cfg, s, protect);
      && Excess(Caps(cfg), s, order) <= |order|
      && t == Removed(s, Elements(order[..Excess(Caps(cfg), s, order)]))
      && Accounted(cfg, t) && WithinCaps(cfg, t)
      && protect in t.items && t.items[protect] == s.items[protect]
  {
    var order := InOrder(s.items, s.items.Keys - {protect});
    var n := Excess(Caps(cfg), s, order);
    var t := Enforced(cfg, s, protect);
    InOrderLists(s.items, s.items.Keys - {protect});
    ExcessIsAPrefix(Caps(cfg), s, order);
    assert protect !in Elements(order[..n]);
    if n == |order| {
      assert order[..n] == order;
      assert Elements(order) == s.items.Keys - {protect};
      assert t.items.Keys == {protect};
      OnlyProtectedIsWithinCaps(cfg, t, protect);
    }
  }

  lemma PrefixPrecedes(items: map<string, Stored>, ids: set<string>, n: nat, gone: string, kept: string)
    requires ids <= items.Keys && n <= |InOrder(items, ids)|
    requires gone in InOrder(items, ids)[..n] && kept in ids && kept !in InOrder(items, ids)[..n]
    ensures gone in items && Before(items, gone, kept)
  {
    var order := InOrder(items, ids);
    InOrderLists(items, ids);
    var i :| 0 <= i < n && order[i] == gone;
    var j :| 0 <= j < |order| && order[j] == kept;
    assert forall x :: 0 <= x < n ==> order[..n][x] == order[x];
    assert j >= n;
  }

  /** A write evicts exactly the shortest prefix of the other entries, in (StoredAt, id) order, that restores both caps:
      the entry just written stays, no survivor but it precedes an evicted entry, and evicting fewer is not enough. */
  lemma WriteEvictsShortestPrefix(cfg: Config, s: State, protect: string)
    requires Accounted(cfg, s) && protect in s.items
    ensures var order := InOrder(s.items, s.items.Keys - {protect});
            var n := Excess(Caps(cfg), s, order);
            var t := Enforced(cfg, s, protect);
      && n <= |order|
      && t == Removed(s, Elements(order[..n]))
      && Accounted(cfg, t) && WithinCaps(cfg, t)
      && protect in t.items && t.items[protect] == s.items[protect]
      && (forall m :: 0 <= m < n ==> !WithinCaps(cfg, Removed(s, Elements(order[..m]))))
      && (forall gone, kept | gone in s.items && gone !in t.items && kept in t.items && kept != protect
            :: Before(s.items, gone, kept))
  {
    var order := InOrder(s.items, s.items.Keys - {protect});
    var n := Excess(Caps(cfg), s, order);
    var t := Enforced(cfg, s, protect);
    EnforcedIsWithinCaps(cfg, s, protect);
    forall m | 0 <= m < n ensures !WithinCaps(cfg, Removed(s, Elements(order[..m]))) {
      NoShorterPrefix(Caps(cfg), s, order, m);
    }
    forall gone, kept | gone in s.items && gone !in t.items && kept in t.items && kept != protect
      ensures Before(s.items, gone, kept)
    {
      PrefixPrecedes(s.items, s.items.Keys - {protect}, n, gone, kept);
    }
  }

  /** Whatever a write evicts was stored before all that stays, or at the same time under an id that sorts before. */
  lemma EvictionIsOldestFirst(cfg: Config, s: State, protect: string, gone: string, kept: string)
    requires Accounted(cfg, s) && protect in s.items && gone in s.items && gone !in Enforced(cfg, s, protect).items
    requires kept in Enforced(cfg, s, protect).items && kept != protect
    ensures kept in s.items && gone != protect
    ensures s.items[gone].storedAt <= s.items[kept].storedAt
    ensures s.items[gone].storedAt == s.items[kept].storedAt ==> Strings.Less(gone, kept)
  {
    var ids := s.items.Keys - {protect};
    EnforcedIsWithinCaps(cfg, s, protect);
    PrefixPrecedes(s.items, ids, Excess(Caps(cfg), s, InOrder(s.items, ids)), gone, kept);
  }

  // ---------------------------------------------------------------- the calls

  /** What a call leaves and answers before bounds are enforced, with the id it has written, if any. */
  function Attempt(cfg: Config, s: State, call: Call, now: int): (State, Reply, Option<string>) {
    match call
    case Create(snapshot, size) => AttemptCreate(cfg, s, snapshot, size, now)
    case Get(id) =>
      var t := Cleaned(cfg, s, now);
      if id !in t.items then (t, Failed(NotFound), None)
      else if Expired(t.items[id], now) then (Removed(t, {id}), Failed(NotFound), None)
      else (t, Found(t.items[id]), None)
    case Update(snapshot, size) => AttemptUpdate(cfg, s, snapshot, size, now)
    case AppendItems(id, more) => if more == [] then (s, Done, None) else AttemptAppend(cfg, s, id, more, now)
    case Delete(id) =>
      var t := Cleaned(cfg, s, now);
      if id !in t.items then (t, Failed(NotFound), None)
      else (Removed(t, {id}), if Expired(t.items[id], now) then Failed(NotFound) else Done, None)
  }

  /** What Create and Update reject before they look at the store. */
  function Rejection(cfg: Config, snapshot: Option<Stored>, size: Option<nat>): Option<Error> {
    if snapshot.None? || snapshot.value.id == "" then Some(IdRequired)
    else if size.None? then Some(NotSerializable)
    else if cfg.maxBytes > 0 && size.value > cfg.maxBytes then Some(OverBudget)
    else None
  }

  function AttemptCreate(cfg: Config, s: State, snapshot: Option<Stored>, size: Option<nat>, now: int)
    : (State, Reply, Option<string>)
  {
    var rejection := Rejection(cfg, snapshot, size);
    if rejection.Some? then (s, Failed(rejection.value), None) else
      var id, c, t := snapshot.value.id, Prepared(snapshot.value, now, cfg.ttl), Cleaned(cfg, s, now);
      if Expired(c, now) then (t, Done, None)
      else if id in t.items && !Expired(t.items[id], now) then (t, Failed(AlreadyExists), None)
      else (Put(t, id, c, size.value), Done, Some(id))
  }

  function AttemptUpdate(cfg: Config, s: State, snapshot: Option<Stored>, size: Option<nat>, now: int)
    : (State, Reply, Option<string>)
  {
    var rejection := Rejection(cfg, snapshot, size);
    if rejection.Some? then (s, Failed(rejection.value), None) else
      var id, t := snapshot.value.id, Cleaned(cfg, s, now);
      if id !in t.items then (t, Failed(NotFound), None)
      else if Expired(t.items[id], now) then (Removed(t, {id}), Failed(NotFound), None)
      else
        var c := Prepared(Inherited(snapshot.value, t.items[id]), now, cfg.ttl);
        if Expired(c, now) then (Removed(t, {id}), Failed(NotFound), None)
        else (Put(t, id, c, size.value), Done, Some(id))
  }

  function AttemptAppend(cfg: Config, s: State, id: string, more: seq<RawMessage>, now: int)
    : (State, Reply, Option<string>)
  {
    var t := Cleaned(cfg, s, now);
    if id !in t.items then (t, Failed(NotFound), None)
    else if Expired(t.items[id], now) then (Removed(t, {id}), Failed(NotFound), None)
    else
      var grown := SizeOf(t, id) + Length(more);
      if cfg.maxBytes > 0 && grown > cfg.maxBytes then (t, Failed(WouldOutgrowBudget), None)
      else (Put(t, id, t.items[id].(items := t.items[id].items + more), grown), Done, Some(id))
  }

  function SizeOf(s: State, id: string): nat {
    if id in s.sizes then s.sizes[id] else 0
  }

  /** A whole call: the attempt, and the bounds enforced for what it has written. */
  ghost function Step(cfg: Config, s: State, call: Call, now: int): (State, Reply) {
    var (t, reply, written) := Attempt(cfg, s, call, now);
    (if written.Some? then Enforced(cfg, t, written.value) else t, reply)
  }

  /** An updated snapshot keeps the times it leaves zero. */
  function Inherited(c: Stored, existing: Stored): Stored {
    var d := if c.storedAt == ZERO_TIME then c.(storedAt := existing.storedAt) else c;
    if d.expiresAt == ZERO_TIME then d.(expiresAt := existing.expiresAt) else d
  }

  function Length(items: seq<RawMessage>): nat {
    if items == [] then 0 else Length(items[..|items| - 1]) + |items[|items| - 1]|
  }
}

/** Throttled expiry in the conversation store (internal/conversationstore/store_memory.go) against a reference store
    that drops every expired entry on every call: exactly when callers can tell them apart. */
module ConversationExpiry {
  import opened Wrappers
  import opened ConversationState
  import opened ConversationRuns

  // ---------------------------------------------------------------- the reference store

  /** The reference store: it drops every expired entry at the start of every call. */
  ghost function EagerStep(cfg: Config, s: State, call: Call, now: int): (State, Reply) {
    Step(cfg, Purged(s, now), call, now)
  }

  ghost function EagerRun(cfg: Config, s: State, calls: seq<Timed>): (State, seq<Reply>)
    decreases |calls|
  {
    if calls == [] then (s, []) else
      var (t, reply) := EagerStep(cfg, s, calls[0].call, calls[0].now);
      var (u, replies) := EagerRun(cfg, t, calls[1..]);
      (u, [reply] + replies)
  }

  ghost predicate SameContent(a: State, b: State) {
    a.items == b.items && a.sizes == b.sizes
  }

  /** The eager store holds exactly what the lazy one holds unexpired at time `t`. */
  ghost predicate Mirrors(lazy: State, eager: State, t: int) {
    lazy.items.Keys == lazy.sizes.Keys && SameContent(Purged(lazy, t), eager)
  }

  lemma MirrorsLater(lazy: State, eager: State, t: int, now: int)
    requires Mirrors(lazy, eager, t) && t <= now
    ensures Mirrors(lazy, Purged(eager, now), now)
  {
    assert Purged(eager, now).items == Purged(lazy, now).items;
    assert Purged(eager, now).sizes == Purged(lazy, now).sizes;
  }

  lemma MirrorsCleaned(cfg: Config, lazy: State, eager: State, now: int)
    requires Mirrors(lazy, eager, now)
    ensures Mirrors(Cleaned(cfg, lazy, now), Cleaned(cfg, eager, now), now)
    ensures SameContent(Cleaned(cfg, eager, now), eager)
  {
    assert Purged(eager, now).items == eager.items && Purged(eager, now).sizes == eager.sizes;
    assert Purged(Purged(lazy, now), now).items == Purged(lazy, now).items;
    assert Purged(Purged(lazy, now), now).sizes == Purged(lazy, now).sizes;
  }

  lemma MirrorsRemoved(lazy: State, eager: State, now: int, id: string)
    requires Mirrors(lazy, eager, now)
    ensures Mirrors(Removed(lazy, {id}), Removed(eager, {id}), now)
    ensures id in lazy.items && Expired(lazy.items[id], now) ==> Mirrors(Removed(lazy, {id}), eager, now)
  {
    var l, e := Purged(Removed(lazy, {id}), now), Removed(eager, {id});
    assert l.items == e.items && l.sizes == e.sizes;
    if id in lazy.items && Expired(lazy.items[id], now) {
      assert e.items == eager.items && e.sizes == eager.sizes;
    }
  }

  lemma MirrorsPut(lazy: State, eager: State, now: int, id: string, c: Stored, size: nat)
    requires Mirrors(lazy, eager, now) && !Expired(c, now)
    ensures Mirrors(Put(lazy, id, c, size), Put(eager, id, c, size), now)
  {
    var l, e := Purged(Put(lazy, id, c, size), now), Put(eager, id, c, size);
    assert l.items == e.items && l.sizes == e.sizes;
  }

  lemma MirrorsLookup(lazy: State, eager: State, now: int, id: string)
    requires Mirrors(lazy, eager, now)
    ensures id in eager.items <==> id in lazy.items && !Expired(lazy.items[id], now)
    ensures id in eager.items ==> eager.items[id] == lazy.items[id] && SizeOf(eager, id) == SizeOf(lazy, id)
  {
  }

  lemma CreateMirrors(cfg: Config, lazy: State, eager: State, call: Call, now: int)
    requires Mirrors(lazy, eager, now) && call.Create?
    ensures var (l, replyL, writtenL) := Attempt(cfg, lazy, call, now);
            var (e, replyE, writtenE) := Attempt(cfg, eager, call, now);
            replyL == replyE && writtenL == writtenE && Mirrors(l, e, now)
  {
    var l, e := Cleaned(cfg, lazy, now), Cleaned(cfg, eager, now);
    MirrorsCleaned(cfg, lazy, eager, now);
    if Rejection(cfg, call.snapshot, call.size).None? {
      var id, c := call.snapshot.value.id, Prepared(call.snapshot.value, now, cfg.ttl);
      MirrorsLookup(l, e, now, id);
      if !Expired(c, now) {
        MirrorsPut(l, e, now, id, c, call.size.value);
      }
    }
  }

  lemma UpdateMirrors(cfg: Config, lazy: State, eager: State, call: Call, now: int)
    requires Mirrors(lazy, eager, now) && call.Update?
    ensures var (l, replyL, writtenL) := Attempt(cfg, lazy, call, now);
            var (e, replyE, writtenE) := Attempt(cfg, eager, call, now);
            replyL == replyE && writtenL == writtenE && Mirrors(l, e, now)
  {
    var l, e := Cleaned(cfg, lazy, now), Cleaned(cfg, eager, now);
    MirrorsCleaned(cfg, lazy, eager, now);
    if Rejection(cfg, call.snapshot, call.size).None? {
      var id := call.snapshot.value.id;
      MirrorsLookup(l, e, now, id);
      MirrorsRemoved(l, e, now, id);
      if id in e.items {
        var c := Prepared(Inherited(call.snapshot.value, l.items[id]), now, cfg.ttl);
        if !Expired(c, now) {
          MirrorsPut(l, e, now, id, c, call.size.value);
        }
      }
    }
  }

  lemma AppendMirrors(cfg: Config, lazy: State, eager: State, id: string, more: seq<RawMessage>, now: int)
    requires Mirrors(lazy, eager, now)
    ensures var (l, replyL, writtenL) := Attempt(cfg, lazy, AppendItems(id, more), now);
            var (e, replyE, writtenE) := Attempt(cfg, eager, AppendItems(id, more), now);
            replyL == replyE && writtenL == writtenE && Mirrors(l, e, now)
  {
    var l, e := Cleaned(cfg, lazy, now), Cleaned(cfg, eager, now);
    MirrorsCleaned(cfg, lazy, eager, now);
    MirrorsLookup(l, e, now, id);
    MirrorsRemoved(l, e, now, id);
    if id in e.items {
      MirrorsPut(l, e, now, id, l.items[id].(items := l.items[id].items + more), SizeOf(l, id) + Length(more));
    }
  }

  lemma AttemptMirrors(cfg: Config, lazy: State, eager: State, call: Call, now: int)
    requires Mirrors(lazy, eager, now)
    ensures var (l, replyL, writtenL) := Attempt(cfg, lazy, call, now);
            var (e, replyE, writtenE) := Attempt(cfg, eager, call, now);
            replyL == replyE && writtenL == writtenE && Mirrors(l, e, now)
  {
    var l, e := Cleaned(cfg, lazy, now), Cleaned(cfg, eager, now);
    MirrorsCleaned(cfg, lazy, eager, now);
    match call
    case Create(_, _) => CreateMirrors(cfg, lazy, eager, call, now);
    case Get(id) =>
      MirrorsLookup(l, e, now, id);
      MirrorsRemoved(l, e, now, id);
    case Update(_, _) => UpdateMirrors(cfg, lazy, eager, call, now);
    case AppendItems(id, more) => AppendMirrors(cfg, lazy, eager, id, more, now);
    case Delete(id) =>
      MirrorsLookup(l, e, now, id);
      MirrorsRemoved(l, e, now, id);
  }

  // ---------------------------------------------------------------- what one write leaves

  /** The written entry, and every other one from `id` on in eviction order. */
  function From(s: State, protect: string, id: string): State
    requires id in s.items
  {
    Removed(s, set other | other in s.items && other != protect && Before(s.items, other, id))
  }

  lemma FromIsAPrefix(s: State, protect: string, j: nat)
    requires j < |InOrder(s.items, s.items.Keys - {protect})|
    ensures var order := InOrder(s.items, s.items.Keys - {protect});
            order[j] in s.items && Removed(s, Elements(order[..j])) == From(s, protect, order[j])
  {
    var ids := s.items.Keys - {protect};
    var order := InOrder(s.items, ids);
    InOrderLists(s.items, ids);
    var earlier := set other | other in s.items && other != protect && Before(s.items, other, order[j]);
    forall other ensures other in Elements(order[..j]) <==> other in earlier {
      if other in earlier {
        assert other in ids && other in order;
        var k :| 0 <= k < |order| && order[k] == other;
        BeforeIsStrictOrder(s.items, other, order[j], other);
        assert k < j;
        assert order[..j][k] == other;
      }
    }
  }

  lemma PartFits(cfg: Config, part: State, whole: State)
    requires WithinCaps(cfg, whole)
    requires part.items.Keys <= whole.items.Keys
    requires forall id :: id in part.sizes ==> id in whole.sizes && whole.sizes[id] == part.sizes[id]
    ensures WithinCaps(cfg, part)
  {
    SumOfPart(part.sizes, whole.sizes);
    CardinalityOfPart(part.items.Keys, whole.items.Keys);
    assert |part.items| == |part.items.Keys| && |whole.items| == |whole.items.Keys|;
  }

  /** An entry survives a write exactly if it, everything after it in eviction order and the written entry fit. */
  lemma SurvivesIff(cfg: Config, s: State, protect: string, id: string)
    requires Accounted(cfg, s) && protect in s.items && id in s.items && id != protect
    ensures id in Enforced(cfg, s, protect).items <==> WithinCaps(cfg, From(s, protect, id))
  {
    var ids := s.items.Keys - {protect};
    var order := InOrder(s.items, ids);
    var n := Excess(Caps(cfg), s, order);
    WriteEvictsShortestPrefix(cfg, s, protect);
    InOrderLists(s.items, ids);
    assert id in order;
    var j :| 0 <= j < |order| && order[j] == id;
    FromIsAPrefix(s, protect, j);
    if j < n {
      assert order[..n][j] == id;
    } else {
      LaterPrefix(s, order, n, j);
      PartFits(cfg, From(s, protect, id), Enforced(cfg, s, protect));
      assert forall k :: 0 <= k < n ==> order[k] != id;
    }
  }

  lemma LaterPrefix(s: State, order: seq<string>, n: nat, j: nat)
    requires n <= j <= |order| && s.items.Keys == s.sizes.Keys
    ensures Removed(s, Elements(order[..j])).items.Keys <= Removed(s, Elements(order[..n])).items.Keys
    ensures Removed(s, Elements(order[..j])).sizes.Keys <= Removed(s, Elements(order[..n])).sizes.Keys
  {
    assert order[..n] <= order[..j];
    assert forall id :: id in order[..n] ==> id in order[..j];
  }

  // ---------------------------------------------------------------- one write in the two stores

  /** The first entry in eviction order, beside the written one, that the store still keeps. */
  ghost predicate FirstKept(cfg: Config, s: State, protect: string, id: string) {
    && id in s.items && id != protect && WithinCaps(cfg, From(s, protect, id))
    && forall other :: other in s.items && other != protect && Before(s.items, other, id) ==>
         !WithinCaps(cfg, From(s, protect, other))
  }

  /** From the first entry that the eager store keeps on, the lazy store has room for everything, expired or not. */
  ghost predicate SparesLive(cfg: Config, lazy: State, eager: State, protect: string) {
    forall id :: FirstKept(cfg, eager, protect, id) ==> id in lazy.items && WithinCaps(cfg, From(lazy, protect, id))
  }

  lemma MirrorsFrom(lazy: State, eager: State, now: int, protect: string, id: string)
    requires Mirrors(lazy, eager, now) && id in eager.items
    ensures id in lazy.items && From(eager, protect, id).items.Keys <= From(lazy, protect, id).items.Keys
    ensures forall k :: k in From(eager, protect, id).sizes ==>
              k in From(lazy, protect, id).sizes
                && From(lazy, protect, id).sizes[k] == From(eager, protect, id).sizes[k]
  {
    assert forall k :: k in eager.items ==> k in lazy.items && eager.items[k] == lazy.items[k];
  }

  /** The lazy store evicts every live entry that the eager one does. */
  lemma LazyEvictsNoFewer(cfg: Config, lazy: State, eager: State, now: int, protect: string, id: string)
    requires Mirrors(lazy, eager, now) && Accounted(cfg, lazy) && Accounted(cfg, eager) && protect in eager.items
    requires id in eager.items && id in Enforced(cfg, lazy, protect).items
    ensures id in Enforced(cfg, eager, protect).items
  {
    WriteEvictsShortestPrefix(cfg, eager, protect);
    if id != protect {
      SurvivesIff(cfg, lazy, protect, id);
      SurvivesIff(cfg, eager, protect, id);
      MirrorsFrom(lazy, eager, now, protect, id);
      PartFits(cfg, From(eager, protect, id), From(lazy, protect, id));
    }
  }

  lemma SomeFirstKept(cfg: Config, s: State, protect: string, id: string) returns (first: string)
    requires id in s.items && id != protect && WithinCaps(cfg, From(s, protect, id))
    ensures FirstKept(cfg, s, protect, first)
    ensures first == id || Before(s.items, first, id)
  {
    var kept := set k | k in s.items && k != protect && WithinCaps(cfg, From(s, protect, k));
    assert id in kept;
    first := FirstExists(s.items, kept);
    forall other | other in s.items && other != protect && Before(s.items, other, first)
      ensures !WithinCaps(cfg, From(s, protect, other))
    {
      BeforeIsStrictOrder(s.items, first, other, first);
    }
  }

  lemma FromShrinks(s: State, protect: string, a: string, b: string)
    requires a in s.items && b in s.items && Before(s.items, a, b)
    ensures From(s, protect, b).items.Keys <= From(s, protect, a).items.Keys
    ensures From(s, protect, b).sizes.Keys <= From(s, protect, a).sizes.Keys
  {
    forall other | other in s.items && Before(s.items, other, a) ensures Before(s.items, other, b) {
      BeforeIsStrictOrder(s.items, other, a, b);
    }
  }

  /** If the lazy store has that room, it keeps every entry the eager one keeps. */
  lemma SparedEntriesStay(cfg: Config, lazy: State, eager: State, now: int, protect: string, id: string)
    requires Mirrors(lazy, eager, now) && Accounted(cfg, lazy) && Accounted(cfg, eager) && protect in eager.items
    requires SparesLive(cfg, lazy, eager, protect) && id in Enforced(cfg, eager, protect).items
    ensures id in Enforced(cfg, lazy, protect).items
  {
    WriteEvictsShortestPrefix(cfg, eager, protect);
    WriteEvictsShortestPrefix(cfg, lazy, protect);
    if id != protect {
      assert id in eager.items && id in lazy.items;
      SurvivesIff(cfg, eager, protect, id);
      SurvivesIff(cfg, lazy, protect, id);
      var first := SomeFirstKept(cfg, eager, protect, id);
      if first != id {
        assert Before(lazy.items, first, id);
        FromShrinks(lazy, protect, first, id);
        PartFits(cfg, From(lazy, protect, id), From(lazy, protect, first));
      }
    }
  }

  /** What is left of an entry kept in a part of the state is what it was. */
  lemma EnforcedIsPart(cfg: Config, s: State, protect: string)
    requires Accounted(cfg, s) && protect in s.items
    ensures var t := Enforced(cfg, s, protect);
      && t.items.Keys == t.sizes.Keys && t.items.Keys <= s.items.Keys
      && forall id :: id in t.items ==> t.items[id] == s.items[id] && t.sizes[id] == s.sizes[id]
  {
    WriteEvictsShortestPrefix(cfg, s, protect);
  }

  lemma MirrorsIfSameLive(lazy: State, eager: State, l: State, e: State, now: int)
    requires Mirrors(lazy, eager, now)
    requires l.items.Keys == l.sizes.Keys && l.items.Keys <= lazy.items.Keys
    requires forall id :: id in l.items ==> l.items[id] == lazy.items[id] && l.sizes[id] == lazy.sizes[id]
    requires e.items.Keys == e.sizes.Keys && e.items.Keys <= eager.items.Keys
    requires forall id :: id in e.items ==> e.items[id] == eager.items[id] && e.sizes[id] == eager.sizes[id]
    ensures Mirrors(l, e, now) <==> forall id :: id in eager.items ==> (id in l.items <==> id in e.items)
  {
    var p := Purged(l, now);
    if forall id :: id in eager.items ==> (id in l.items <==> id in e.items) {
      assert p.items == e.items && p.sizes == e.sizes;
    }
    if Mirrors(l, e, now) {
      forall id | id in eager.items ensures id in l.items <==> id in e.items {
        assert id in p.items <==> id in e.items;
      }
    }
  }

  /** After a write the eager store still holds exactly the lazy one's unexpired entries if and only if the lazy one had
      room for all it holds from the first entry the eager one keeps. */
  lemma WriteMirrorsIff(cfg: Config, lazy: State, eager: State, now: int, protect: string)
    requires Mirrors(lazy, eager, now) && Accounted(cfg, lazy) && Accounted(cfg, eager) && protect in eager.items
    ensures Mirrors(Enforced(cfg, lazy, protect), Enforced(cfg, eager, protect), now) <==>
            SparesLive(cfg, lazy, eager, protect)
  {
    var l, e := Enforced(cfg, lazy, protect), Enforced(cfg, eager, protect);
    assert protect in lazy.items;
    EnforcedIsPart(cfg, lazy, protect);
    EnforcedIsPart(cfg, eager, protect);
    MirrorsIfSameLive(lazy, eager, l, e, now);
    forall id | id in eager.items && id in l.items ensures id in e.items {
      LazyEvictsNoFewer(cfg, lazy, eager, now, protect, id);
    }
    if SparesLive(cfg, lazy, eager, protect) {
      forall id | id in e.items ensures id in l.items {
        SparedEntriesStay(cfg, lazy, eager, now, protect, id);
      }
    }
    if Mirrors(l, e, now) {
      forall id | FirstKept(cfg, eager, protect, id)
        ensures id in lazy.items && WithinCaps(cfg, From(lazy, protect, id))
      {
        SurvivesIff(cfg, eager, protect, id);
        assert id in lazy.items;
        SurvivesIff(cfg, lazy, protect, id);
      }
    }
  }

  // ---------------------------------------------------------------- whole runs

  /** The call writes nothing, or the lazy store has room for what the eager one keeps. */
  ghost predicate CallSparesLive(cfg: Config, lazy: State, eager: State, call: Call, now: int) {
    var (l, _, written) := Attempt(cfg, lazy, call, now);
    var e := Attempt(cfg, Purged(eager, now), call, now).0;
    written.Some? ==> SparesLive(cfg, l, e, written.value)
  }

  /** Every write of the run, made to both stores, has that room. */
  ghost predicate RunSparesLive(cfg: Config, lazy: State, eager: State, calls: seq<Timed>)
    decreases |calls|
  {
    calls == [] ||
    (CallSparesLive(cfg, lazy, eager, calls[0].call, calls[0].now) &&
     RunSparesLive(cfg, Step(cfg, lazy, calls[0].call, calls[0].now).0,
       EagerStep(cfg, eager, calls[0].call, calls[0].now).0,
                   calls[1..]))
  }

  lemma PurgedIsBounded(cfg: Config, s: State, now: int)
    requires Bounded(cfg, s)
    ensures Bounded(cfg, Purged(s, now))
  {
    PartIsBounded(cfg, s, Purged(s, now));
  }

  /** One call gets the same reply from both stores, and they still mirror each other exactly if it spares the live. */
  lemma StepMirrorsIff(cfg: Config, lazy: State, eager: State, t: int, call: Call, now: int)
    requires Mirrors(lazy, eager, t) && t <= now && Bounded(cfg, lazy) && Bounded(cfg, eager)
    ensures Step(cfg, lazy, call, now).1 == EagerStep(cfg, eager, call, now).1
    ensures Mirrors(Step(cfg, lazy, call, now).0, EagerStep(cfg, eager, call, now).0, now) <==>
            CallSparesLive(cfg, lazy, eager, call, now)
    ensures Bounded(cfg, Step(cfg, lazy, call, now).0) && Bounded(cfg, EagerStep(cfg, eager, call, now).0)
  {
    var purged := Purged(eager, now);
    PurgedIsBounded(cfg, eager, now);
    StepIsBounded(cfg, lazy, call, now);
    StepIsBounded(cfg, purged, call, now);
    MirrorsLater(lazy, eager, t, now);
    AttemptMirrors(cfg, lazy, purged, call, now);
    AttemptIsSound(cfg, lazy, call, now);
    AttemptIsSound(cfg, purged, call, now);
    var (l, _, written) := Attempt(cfg, lazy, call, now);
    var (e, _, _) := Attempt(cfg, purged, call, now);
    if written.Some? {
      WriteMirrorsIff(cfg, l, e, now, written.value);
    }
  }

  lemma {:induction false} RunMirrors(cfg: Config, lazy: State, eager: State, t: int, calls: seq<Timed>)
    requires Mirrors(lazy, eager, t) && Bounded(cfg, lazy) && Bounded(cfg, eager)
    requires Nondecreasing(calls) && RunSparesLive(cfg, lazy, eager, calls) && (calls != [] ==> t <= calls[0].now)
    ensures Run(cfg, lazy, calls).1 == EagerRun(cfg, eager, calls).1
    decreases |calls|
  {
    if calls != [] {
      StepMirrorsIff(cfg, lazy, eager, t, calls[0].call, calls[0].now);
      assert calls[1..] != [] ==> calls[0].now <= calls[1].now == calls[1..][0].now;
      RunMirrors(cfg, Step(cfg, lazy, calls[0].call, calls[0].now).0,
        EagerStep(cfg, eager, calls[0].call, calls[0].now).0,
                 calls[0].now, calls[1..]);
    }
  }

  /** The first `k` calls, and then a Get of `id` at the same time as the last of them. */
  function Probed(calls: seq<Timed>, k: nat, id: string): seq<Timed>
    requires 1 <= k <= |calls|
  {
    calls[..k] + [Timed(Get(id), calls[k - 1].now)]
  }

  lemma ProbedAfterFirst(calls: seq<Timed>, k: nat, id: string)
    requires 1 < k <= |calls|
    ensures Probed(calls, k, id) != [] && Probed(calls, k, id)[0] == calls[0]
    ensures Probed(calls, k, id)[1..] == Probed(calls[1..], k - 1, id)
  {
    assert calls[1..][k - 2] == calls[k - 1];
    assert calls[..k][1..] == calls[1..][..k - 1];
    assert Probed(calls, k, id)[1..] == calls[..k][1..] + [Timed(Get(id), calls[k - 1].now)];
  }

  lemma {:induction false} ProbedSparesLive(cfg: Config, lazy: State, eager: State, calls: seq<Timed>, k: nat,
                                            id: string)
    requires 1 <= k <= |calls| && RunSparesLive(cfg, lazy, eager, calls)
    ensures RunSparesLive(cfg, lazy, eager, Probed(calls, k, id))
    decreases k
  {
    var l, e := Step(cfg, lazy, calls[0].call, calls[0].now).0, EagerStep(cfg, eager, calls[0].call, calls[0].now).0;
    var probed := Probed(calls, k, id);
    if k > 1 {
      ProbedAfterFirst(calls, k, id);
      ProbedSparesLive(cfg, l, e, calls[1..], k - 1, id);
    } else {
      assert probed == [calls[0], Timed(Get(id), calls[0].now)];
      assert probed[1..][1..] == [];
    }
  }

  lemma ProbedNondecreasing(calls: seq<Timed>, k: nat, id: string)
    requires 1 <= k <= |calls| && Nondecreasing(calls)
    ensures Nondecreasing(Probed(calls, k, id))
  {
  }

  /** Once the stores differ, some Get shows it. */
  lemma GetTellsApart(cfg: Config, lazy: State, eager: State, before: State, beforeEager: State, now: int,
                      protect: string)
    returns (id: string)
    requires Mirrors(before, beforeEager, now) && Accounted(cfg, before) && Accounted(cfg, beforeEager)
    requires protect in beforeEager.items
    requires lazy == Enforced(cfg, before, protect) && eager == Enforced(cfg, beforeEager, protect)
    requires !Mirrors(lazy, eager, now)
    ensures Step(cfg, lazy, Get(id), now).1 != EagerStep(cfg, eager, Get(id), now).1
  {
    assert protect in before.items;
    EnforcedIsPart(cfg, before, protect);
    EnforcedIsPart(cfg, beforeEager, protect);
    MirrorsIfSameLive(before, beforeEager, lazy, eager, now);
    id :| id in beforeEager.items && !(id in lazy.items <==> id in eager.items);
    if id in lazy.items {
      LazyEvictsNoFewer(cfg, before, beforeEager, now, protect, id);
    }
    assert id in eager.items && !Expired(eager.items[id], now) && id !in lazy.items;
    assert id in Cleaned(cfg, Purged(eager, now), now).items;
    assert id !in Cleaned(cfg, lazy, now).items;
  }

  lemma CallTellsApart(cfg: Config, lazy: State, eager: State, t: int, call: Call, now: int) returns (id: string)
    requires Mirrors(lazy, eager, t) && t <= now && Bounded(cfg, lazy) && Bounded(cfg, eager)
    requires !CallSparesLive(cfg, lazy, eager, call, now)
    ensures Step(cfg, Step(cfg, lazy, call, now).0, Get(id), now).1 !=
            EagerStep(cfg, EagerStep(cfg, eager, call, now).0, Get(id), now).1
  {
    var purged := Purged(eager, now);
    PurgedIsBounded(cfg, eager, now);
    MirrorsLater(lazy, eager, t, now);
    AttemptMirrors(cfg, lazy, purged, call, now);
    AttemptIsSound(cfg, lazy, call, now);
    AttemptIsSound(cfg, purged, call, now);
    var (l, _, written) := Attempt(cfg, lazy, call, now);
    var (e, _, _) := Attempt(cfg, purged, call, now);
    StepMirrorsIff(cfg, lazy, eager, t, call, now);
    id := GetTellsApart(cfg, Step(cfg, lazy, call, now).0, EagerStep(cfg, eager, call, now).0, l, e, now,
      written.value);
  }

  /** The replies to a run: the first, and those to the rest. */
  lemma RepliesUnfold(cfg: Config, s: State, calls: seq<Timed>)
    requires calls != []
    ensures Run(cfg, s, calls).1 ==
            [Step(cfg, s, calls[0].call, calls[0].now).1]
              + Run(cfg, Step(cfg, s, calls[0].call, calls[0].now).0, calls[1..]).1
    ensures EagerRun(cfg, s, calls).1 ==
            [EagerStep(cfg, s, calls[0].call, calls[0].now).1]
            + EagerRun(cfg, EagerStep(cfg, s, calls[0].call, calls[0].now).0, calls[1..]).1
  {
  }

  lemma LaterRepliesDiffer(cfg: Config, lazy: State, eager: State, calls: seq<Timed>)
    requires calls != []
    requires Run(cfg, Step(cfg, lazy, calls[0].call, calls[0].now).0, calls[1..]).1 !=
             EagerRun(cfg, EagerStep(cfg, eager, calls[0].call, calls[0].now).0, calls[1..]).1
    ensures Run(cfg, lazy, calls).1 != EagerRun(cfg, eager, calls).1
  {
    RepliesUnfold(cfg, lazy, calls);
    RepliesUnfold(cfg, eager, calls);
    assert Run(cfg, lazy, calls).1[1..] == Run(cfg, Step(cfg, lazy, calls[0].call, calls[0].now).0, calls[1..]).1;
  }

  lemma OneReplyDiffers(cfg: Config, lazy: State, eager: State, get: Timed)
    requires Step(cfg, lazy, get.call, get.now).1 != EagerStep(cfg, eager, get.call, get.now).1
    ensures Run(cfg, lazy, [get]).1 != EagerRun(cfg, eager, [get]).1
  {
    RepliesUnfold(cfg, lazy, [get]);
    RepliesUnfold(cfg, eager, [get]);
    assert Run(cfg, lazy, [get]).1[0] != EagerRun(cfg, eager, [get]).1[0];
  }

  lemma FirstCallTellsApart(cfg: Config, lazy: State, eager: State, t: int, calls: seq<Timed>) returns (id: string)
    requires Mirrors(lazy, eager, t) && Bounded(cfg, lazy) && Bounded(cfg, eager)
    requires calls != [] && t <= calls[0].now && !CallSparesLive(cfg, lazy, eager, calls[0].call, calls[0].now)
    ensures Run(cfg, lazy, Probed(calls, 1, id)).1 != EagerRun(cfg, eager, Probed(calls, 1, id)).1
  {
    var call, now := calls[0].call, calls[0].now;
    id := CallTellsApart(cfg, lazy, eager, t, call, now);
    OneReplyDiffers(cfg, Step(cfg, lazy, call, now).0, EagerStep(cfg, eager, call, now).0, Timed(Get(id), now));
    assert Probed(calls, 1, id)[1..] == [Timed(Get(id), now)];
    LaterRepliesDiffer(cfg, lazy, eager, Probed(calls, 1, id));
  }

  lemma {:induction false} RunTellsApart(cfg: Config, lazy: State, eager: State, t: int, calls: seq<Timed>)
    returns (k: nat, id: string)
    requires Mirrors(lazy, eager, t) && Bounded(cfg, lazy) && Bounded(cfg, eager)
    requires Nondecreasing(calls) && !RunSparesLive(cfg, lazy, eager, calls) && t <= calls[0].now
    ensures 1 <= k <= |calls|
    ensures Run(cfg, lazy, Probed(calls, k, id)).1 != EagerRun(cfg, eager, Probed(calls, k, id)).1
    decreases |calls|
  {
    var call, now := calls[0].call, calls[0].now;
    var l, e := Step(cfg, lazy, call, now).0, EagerStep(cfg, eager, call, now).0;
    if CallSparesLive(cfg, lazy, eager, call, now) {
      StepMirrorsIff(cfg, lazy, eager, t, call, now);
      assert now <= calls[1].now == calls[1..][0].now;
      k, id := RunTellsApart(cfg, l, e, now, calls[1..]);
      k := k + 1;
      ProbedAfterFirst(calls, k, id);
      LaterRepliesDiffer(cfg, lazy, eager, Probed(calls, k, id));
    } else {
      id := FirstCallTellsApart(cfg, lazy, eager, t, calls);
      k := 1;
    }
  }

  lemma EmptyMirrorsEmpty(cfg: Config, t: int)
    ensures Mirrors(EMPTY, EMPTY, t) && Bounded(cfg, EMPTY)
  {
    assert Purged(EMPTY, t).items == map[] && Purged(EMPTY, t).sizes == map[];
  }

  /** For any caps and any cleanup interval, no Get during or after a run of calls can tell the store from the one that
      expires eagerly, if and only if every write leaves the live entries that the eager store would leave. */
  lemma LazyExpiryRefinesEager(cfg: Config, calls: seq<Timed>)
    requires Nondecreasing(calls)
    ensures RunSparesLive(cfg, EMPTY, EMPTY, calls) <==>
            forall k: nat, id :: 1 <= k <= |calls| ==>
              Run(cfg, EMPTY, Probed(calls, k, id)).1 == EagerRun(cfg, EMPTY, Probed(calls, k, id)).1
    ensures RunSparesLive(cfg, EMPTY, EMPTY, calls) ==> Run(cfg, EMPTY, calls).1 == EagerRun(cfg, EMPTY, calls).1
  {
    var t := if calls == [] then 0 else calls[0].now;
    EmptyMirrorsEmpty(cfg, t);
    if RunSparesLive(cfg, EMPTY, EMPTY, calls) {
      RunMirrors(cfg, EMPTY, EMPTY, t, calls);
      forall k: nat, id | 1 <= k <= |calls|
        ensures Run(cfg, EMPTY, Probed(calls, k, id)).1 == EagerRun(cfg, EMPTY, Probed(calls, k, id)).1
      {
        ProbedSparesLive(cfg, EMPTY, EMPTY, calls, k, id);
        ProbedNondecreasing(calls, k, id);
        RunMirrors(cfg, EMPTY, EMPTY, t, Probed(calls, k, id));
      }
    } else {
      var k, id := RunTellsApart(cfg, EMPTY, EMPTY, t, calls);
    }
  }

  // ---------------------------------------------------------------- the runs the gateway makes

  /** The call gives its entry the expiry that goes with its age: left to the store, or StoredAt plus the TTL. Times are
      not before the zero time. */
  predicate AgesEvenly(cfg: Config, timed: Timed) {
    && timed.now > ZERO_TIME
    && match timed.call
       case Create(Some(c), _) =>
         && c.storedAt >= ZERO_TIME
         && (c.expiresAt == ZERO_TIME || (c.storedAt > ZERO_TIME && c.expiresAt == Expiry(cfg, c.storedAt)))
       case Update(Some(c), _) =>
         || (c.storedAt == ZERO_TIME && c.expiresAt == ZERO_TIME)
         || (c.storedAt > ZERO_TIME && c.expiresAt == Expiry(cfg, c.storedAt))
       case _ => true
  }

  /** When the store lets an entry of this age expire; never without a TTL. */
  function Expiry(cfg: Config, storedAt: int): int {
    if cfg.ttl > 0 then storedAt + cfg.ttl else ZERO_TIME
  }

  ghost predicate AllAged(cfg: Config, s: State) {
    forall id :: id in s.items ==>
      s.items[id].storedAt > ZERO_TIME && s.items[id].expiresAt == Expiry(cfg, s.items[id].storedAt)
  }

  lemma CreateKeepsAges(cfg: Config, s: State, snapshot: Option<Stored>, size: Option<nat>, now: int)
    requires AllAged(cfg, s) && AgesEvenly(cfg, Timed(Create(snapshot, size), now))
    ensures AllAged(cfg, AttemptCreate(cfg, s, snapshot, size, now).0)
  {
  }

  lemma UpdateKeepsAges(cfg: Config, s: State, snapshot: Option<Stored>, size: Option<nat>, now: int)
    requires AllAged(cfg, s) && AgesEvenly(cfg, Timed(Update(snapshot, size), now))
    ensures AllAged(cfg, AttemptUpdate(cfg, s, snapshot, size, now).0)
  {
  }

  lemma AttemptKeepsAges(cfg: Config, s: State, call: Call, now: int)
    requires AllAged(cfg, s) && AgesEvenly(cfg, Timed(call, now))
    ensures AllAged(cfg, Attempt(cfg, s, call, now).0)
  {
    assert AllAged(cfg, Cleaned(cfg, s, now));
    match call
    case Create(snapshot, size) => CreateKeepsAges(cfg, s, snapshot, size, now);
    case Update(snapshot, size) => UpdateKeepsAges(cfg, s, snapshot, size, now);
    case _ =>
  }

  lemma StepKeepsAges(cfg: Config, s: State, call: Call, now: int)
    requires AllAged(cfg, s) && AgesEvenly(cfg, Timed(call, now)) && Bounded(cfg, s)
    ensures AllAged(cfg, Step(cfg, s, call, now).0)
  {
    AttemptKeepsAges(cfg, s, call, now);
    AttemptIsSound(cfg, s, call, now);
    var (t, _, written) := Attempt(cfg, s, call, now);
    if written.Some? {
      EnforcedIsPart(cfg, t, written.value);
    }
  }

  /** Expired entries then come before all live ones in eviction order. */
  lemma ExpiredGoFirst(cfg: Config, lazy: State, eager: State, now: int, protect: string)
    requires Mirrors(lazy, eager, now) && AllAged(cfg, lazy) && protect in eager.items
    ensures SparesLive(cfg, lazy, eager, protect)
  {
    forall id | FirstKept(cfg, eager, protect, id)
      ensures id in lazy.items && WithinCaps(cfg, From(lazy, protect, id)) {
      MirrorsFrom(lazy, eager, now, protect, id);
      forall other | other in From(lazy, protect, id).items ensures other in From(eager, protect, id).items {
        assert Expired(lazy.items[other], now) ==> Before(lazy.items, other, id);
        assert other in eager.items;
      }
      PartFits(cfg, From(lazy, protect, id), From(eager, protect, id));
    }
  }

  lemma AgedCallSparesLive(cfg: Config, lazy: State, eager: State, t: int, call: Call, now: int)
    requires Mirrors(lazy, eager, t) && t <= now && Bounded(cfg, lazy) && Bounded(cfg, eager)
    requires AllAged(cfg, lazy) && AgesEvenly(cfg, Timed(call, now))
    ensures CallSparesLive(cfg, lazy, eager, call, now)
  {
    PurgedIsBounded(cfg, eager, now);
    MirrorsLater(lazy, eager, t, now);
    AttemptMirrors(cfg, lazy, Purged(eager, now), call, now);
    AttemptIsSound(cfg, Purged(eager, now), call, now);
    AttemptKeepsAges(cfg, lazy, call, now);
    var (l, _, written) := Attempt(cfg, lazy, call, now);
    if written.Some? {
      ExpiredGoFirst(cfg, l, Attempt(cfg, Purged(eager, now), call, now).0, now, written.value);
    }
  }

  lemma {:induction false} AgedRunSparesLive(cfg: Config, lazy: State, eager: State, t: int, calls: seq<Timed>)
    requires Mirrors(lazy, eager, t) && Bounded(cfg, lazy) && Bounded(cfg, eager) && AllAged(cfg, lazy)
    requires Nondecreasing(calls) && (calls != [] ==> t <= calls[0].now)
    requires forall k :: 0 <= k < |calls| ==> AgesEvenly(cfg, calls[k])
    ensures RunSparesLive(cfg, lazy, eager, calls)
    decreases |calls|
  {
    if calls != [] {
      var call, now := calls[0].call, calls[0].now;
      assert AgesEvenly(cfg, calls[0]) && calls[0] == Timed(call, now);
      AgedCallSparesLive(cfg, lazy, eager, t, call, now);
      StepMirrorsIff(cfg, lazy, eager, t, call, now);
      StepKeepsAges(cfg, lazy, call, now);
      assert calls[1..] != [] ==> now <= calls[1].now == calls[1..][0].now;
      AgedRunSparesLive(cfg, Step(cfg, lazy, call, now).0, EagerStep(cfg, eager, call, now).0, now, calls[1..]);
    }
  }

  /** Entries whose expiry is left to the store, or goes with their age, never let callers tell: with any caps, every
      reply equals that of the store that expires eagerly. */
  lemma AgedRunsRefineEager(cfg: Config, calls: seq<Timed>)
    requires Nondecreasing(calls) && forall k :: 0 <= k < |calls| ==> AgesEvenly(cfg, calls[k])
    ensures Run(cfg, EMPTY, calls).1 == EagerRun(cfg, EMPTY, calls).1
    ensures RunSparesLive(cfg, EMPTY, EMPTY, calls)
  {
    var t := if calls == [] then 0 else calls[0].now;
    EmptyMirrorsEmpty(cfg, t);
    AgedRunSparesLive(cfg, EMPTY, EMPTY, t, calls);
    LazyExpiryRefinesEager(cfg, calls);
  }

  lemma {:induction false} UncappedSparesLive(cfg: Config, lazy: State, eager: State, t: int, calls: seq<Timed>)
    requires cfg.maxEntries <= 0 && cfg.maxBytes <= 0
    requires Mirrors(lazy, eager, t) && Nondecreasing(calls) && (calls != [] ==> t <= calls[0].now)
    ensures RunSparesLive(cfg, lazy, eager, calls)
    decreases |calls|
  {
    if calls != [] {
      var call, now := calls[0].call, calls[0].now;
      assert Bounded(cfg, lazy) && Bounded(cfg, eager);
      PurgedIsBounded(cfg, eager, now);
      MirrorsLater(lazy, eager, t, now);
      AttemptMirrors(cfg, lazy, Purged(eager, now), call, now);
      StepMirrorsIff(cfg, lazy, eager, t, call, now);
      assert calls[1..] != [] ==> now <= calls[1].now == calls[1..][0].now;
      UncappedSparesLive(cfg, Step(cfg, lazy, call, now).0, EagerStep(cfg, eager, call, now).0, now, calls[1..]);
    }
  }

  /** With both caps disabled no run can tell. */
  lemma UncappedLazyExpiryRefinesEager(cfg: Config, calls: seq<Timed>)
    requires cfg.maxEntries <= 0 && cfg.maxBytes <= 0 && Nondecreasing(calls)
    ensures Run(cfg, EMPTY, calls).1 == EagerRun(cfg, EMPTY, calls).1
  {
    var t := if calls == [] then 0 else calls[0].now;
    EmptyMirrorsEmpty(cfg, t);
    UncappedSparesLive(cfg, EMPTY, EMPTY, t, calls);
    LazyExpiryRefinesEager(cfg, calls);
  }

  // ---------------------------------------------------------------- a run that shows it

  /** Two entries at most; entries live for 100 unless they say otherwise, and are swept every 100. */
  const SMALL := Config(100, 2, 0, 100)

  const OLD := Stored("a", [], 1, 101)
  const SHORT := Stored("b", [], 2, 5)
  const FRESH := Stored("c", [], 6, 106)

  const CREATE_OLD := Timed(Create(Some(Stored("a", [], 0, 0)), Some(1)), 1)
  const CREATE_SHORT := Timed(Create(Some(Stored("b", [], 0, 5)), Some(1)), 2)
  const CREATE_FRESH := Timed(Create(Some(Stored("c", [], 0, 0)), Some(1)), 6)
  const GET_OLD := Timed(Get("a"), 6)

  const ONE := State(map["a" := OLD], map["a" := 1], 1)
  const TWO := State(map["a" := OLD, "b" := SHORT], map["a" := 1, "b" := 1], 1)

  lemma StepWithinCaps(cfg: Config, s: State, call: Call, now: int)
    requires WithinCaps(cfg, Attempt(cfg, s, call, now).0)
    ensures Step(cfg, s, call, now) == (Attempt(cfg, s, call, now).0, Attempt(cfg, s, call, now).1)
  {
    var (t, _, written) := Attempt(cfg, s, call, now);
    if written.Some? {
      EnforcedIdle(cfg, t, written.value);
    }
  }

  lemma OneStored()
    ensures Step(SMALL, EMPTY, CREATE_OLD.call, 1) == (ONE, Done)
    ensures EagerStep(SMALL, EMPTY, CREATE_OLD.call, 1) == (ONE, Done)
  {
    assert Purged(EMPTY, 1) == EMPTY;
    assert Attempt(SMALL, EMPTY, CREATE_OLD.call, 1).0 == ONE;
    assert |ONE.items.Keys| == 1 && |ONE.items| == |ONE.items.Keys|;
    StepWithinCaps(SMALL, EMPTY, CREATE_OLD.call, 1);
  }

  lemma TwoStored()
    ensures Step(SMALL, ONE, CREATE_SHORT.call, 2) == (TWO, Done)
    ensures EagerStep(SMALL, ONE, CREATE_SHORT.call, 2) == (TWO, Done)
  {
    assert Purged(ONE, 2).items == ONE.items && Purged(ONE, 2).sizes == ONE.sizes;
    assert Attempt(SMALL, ONE, CREATE_SHORT.call, 2).0 == TWO;
    assert TWO.items.Keys == {"a", "b"} && |TWO.items| == |TWO.items.Keys|;
    StepWithinCaps(SMALL, ONE, CREATE_SHORT.call, 2);
  }

  const THREE := State(map["a" := OLD, "b" := SHORT, "c" := FRESH], map["a" := 1, "b" := 1, "c" := 1], 1)

  lemma FreshAttempt()
    ensures Attempt(SMALL, TWO, CREATE_FRESH.call, 6) == (THREE, Done, Some("c"))
  {
  }

  lemma NoRoomFromOld()
    ensures !WithinCaps(SMALL, From(THREE, "c", "a"))
  {
    var from := From(THREE, "c", "a");
    assert !Before(THREE.items, "b", "a") && !Before(THREE.items, "a", "a") by {
      BeforeIsStrictOrder(THREE.items, "a", "a", "a");
    }
    assert from.items.Keys == {"a", "b", "c"};
    assert |from.items| == |from.items.Keys|;
  }

  lemma LazyLosesOld()
    ensures "a" !in Step(SMALL, TWO, CREATE_FRESH.call, 6).0.items
  {
    FreshAttempt();
    NoRoomFromOld();
    SurvivesIff(SMALL, THREE, "c", "a");
  }

  lemma EagerKeepsOld()
    ensures "a" in EagerStep(SMALL, TWO, CREATE_FRESH.call, 6).0.items
    ensures EagerStep(SMALL, TWO, CREATE_FRESH.call, 6).0.items["a"] == OLD
  {
    var purged := Purged(TWO, 6);
    var t := Put(purged, "c", FRESH, 1);
    assert purged.items == map["a" := OLD];
    assert Attempt(SMALL, purged, CREATE_FRESH.call, 6) == (t, Done, Some("c"));
    assert t.items.Keys == {"a", "c"} && |t.items| == |t.items.Keys|;
    StepWithinCaps(SMALL, purged, CREATE_FRESH.call, 6);
  }

  lemma GetDiffers(cfg: Config, l: State, e: State, id: string, now: int)
    requires id !in l.items && id in e.items && !Expired(e.items[id], now)
    ensures Step(cfg, l, Get(id), now).1 != EagerStep(cfg, e, Get(id), now).1
  {
  }

  lemma DifferAtTheEnd(cfg: Config, s: State, a: Timed, b: Timed, c: Timed, get: Timed)
    requires EagerStep(cfg, s, a.call, a.now).0 == Step(cfg, s, a.call, a.now).0
    requires var t := Step(cfg, s, a.call, a.now).0;
      && EagerStep(cfg, t, b.call, b.now).0 == Step(cfg, t, b.call, b.now).0
      && var u := Step(cfg, t, b.call, b.now).0;
         Run(cfg, Step(cfg, u, c.call, c.now).0, [get]).1 != EagerRun(cfg, EagerStep(cfg, u, c.call, c.now).0, [get]).1
    ensures Run(cfg, s, [a, b, c, get]).1 != EagerRun(cfg, s, [a, b, c, get]).1
  {
    var t := Step(cfg, s, a.call, a.now).0;
    var u := Step(cfg, t, b.call, b.now).0;
    assert [c, get][1..] == [get] && [b, c, get][1..] == [c, get] && [a, b, c, get][1..] == [b, c, get];
    LaterRepliesDiffer(cfg, u, u, [c, get]);
    LaterRepliesDiffer(cfg, t, t, [b, c, get]);
    LaterRepliesDiffer(cfg, s, s, [a, b, c, get]);
  }

  /** An entry with a short expiry of its own stays in the lazy store when it has expired, and takes the place of an
      older live one, whose Get then fails. */
  lemma MixedExpiryIsSeen()
    ensures var calls := [CREATE_OLD, CREATE_SHORT, CREATE_FRESH, GET_OLD];
            Run(SMALL, EMPTY, calls).1 != EagerRun(SMALL, EMPTY, calls).1
  {
    OneStored();
    TwoStored();
    LazyLosesOld();
    EagerKeepsOld();
    var l, e := Step(SMALL, TWO, CREATE_FRESH.call, 6).0, EagerStep(SMALL, TWO, CREATE_FRESH.call, 6).0;
    GetDiffers(SMALL, l, e, "a", 6);
    OneReplyDiffers(SMALL, l, e, GET_OLD);
    DifferAtTheEnd(SMALL, EMPTY, CREATE_OLD, CREATE_SHORT, CREATE_FRESH, GET_OLD);
  }
}

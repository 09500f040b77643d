/** What callers of the conversation store (internal/conversationstore/store_memory.go) can rely on, told by a journal
    of the calls and their replies: a plain map from id to snapshot. */
module ConversationJournal {
  import opened Wrappers
  import opened ConversationState
  import opened ConversationRuns

  /** A snapshot, and its size in bytes. */
  datatype Page = Page(snapshot: Stored, size: nat)

  type Book = map<string, Page>

  // ---------------------------------------------------------------- the journal

  function Bytes(more: seq<RawMessage>): nat {
    if more == [] then 0 else |more[0]| + Bytes(more[1..])
  }

  predicate Live(c: Stored, now: int) {
    c.expiresAt == 0 || now < c.expiresAt
  }

  function FirstNonZero(a: int, b: int): int {
    if a != 0 then a else b
  }

  /** The snapshot with these times where it leaves its own zero, the present where both are, and the TTL from then. */
  function Timestamped(cfg: Config, c: Stored, storedAt: int, expiresAt: int, now: int): Stored {
    var stored := FirstNonZero(FirstNonZero(c.storedAt, storedAt), now);
    var expires := FirstNonZero(c.expiresAt, expiresAt);
    Stored(c.id, c.items, stored, if expires == 0 && cfg.ttl > 0 then stored + cfg.ttl else expires)
  }

  /** The journal after a call that got this reply: a create or update that was done puts its snapshot in, an append
      adds to it, and what was deleted or is not found is out. A snapshot that arrives expired is not stored. */
  function Journaled(cfg: Config, book: Book, call: Call, reply: Reply, now: int): Book {
    match (call, reply)
    case (Create(Some(c), Some(size)), Done) =>
      var stamped := Timestamped(cfg, c, 0, 0, now);
      if Live(stamped, now) then book[c.id := Page(stamped, size)] else book
    case (Update(Some(c), Some(size)), Done) =>
      if c.id !in book then book else
        var was := book[c.id].snapshot;
        book[c.id := Page(Timestamped(cfg, c, was.storedAt, was.expiresAt, now), size)]
    case (AppendItems(id, more), Done) =>
      if id !in book then book else
        var Page(was, size) := book[id];
        book[id := Page(Stored(was.id, was.items + more, was.storedAt, was.expiresAt), size + Bytes(more))]
    case (Delete(id), Done) => book - {id}
    case (Get(id), Failed(NotFound)) => book - {id}
    case (Update(Some(c), _), Failed(NotFound)) => book - {c.id}
    case (AppendItems(id, _), Failed(NotFound)) => book - {id}
    case (Delete(id), Failed(NotFound)) => book - {id}
    case _ => book
  }

  /** What Create and Update ask of a snapshot before anything else. */
  function Refused(cfg: Config, snapshot: Option<Stored>, size: Option<nat>): Option<Error> {
    match (snapshot, size)
    case (None, _) => Some(IdRequired)
    case (Some(c), None) => Some(if c.id == "" then IdRequired else NotSerializable)
    case (Some(c), Some(n)) =>
      if c.id == "" then Some(IdRequired)
      else if 0 < cfg.maxBytes < n then Some(OverBudget)
      else None
  }

  /** The id a call is about. */
  function About(call: Call): string {
    match call
    case Create(Some(c), _) => c.id
    case Update(Some(c), _) => c.id
    case AppendItems(id, _) => id
    case Get(id) => id
    case Delete(id) => id
    case _ => ""
  }

  /** The reply to a call, by the journal and whether the store still has the conversation it is about. */
  function Answer(cfg: Config, book: Book, held: bool, call: Call, now: int): Reply
    requires held ==> About(call) in book
  {
    match call
    case Create(snapshot, size) =>
      if Refused(cfg, snapshot, size).Some? then Failed(Refused(cfg, snapshot, size).value)
      else if Live(Timestamped(cfg, snapshot.value, 0, 0, now), now) && held then Failed(AlreadyExists)
      else Done
    case Get(id) => if held then Found(book[id].snapshot) else Failed(NotFound)
    case Update(snapshot, size) =>
      if Refused(cfg, snapshot, size).Some? then Failed(Refused(cfg, snapshot, size).value)
      else if !held then Failed(NotFound)
      else
        var was := book[snapshot.value.id].snapshot;
        if Live(Timestamped(cfg, snapshot.value, was.storedAt, was.expiresAt, now), now) then Done
        else Failed(NotFound)
    case AppendItems(id, more) =>
      if more == [] then Done
      else if !held then Failed(NotFound)
      else if 0 < cfg.maxBytes < book[id].size + Bytes(more) then Failed(WouldOutgrowBudget)
      else Done
    case Delete(id) => if held then Done else Failed(NotFound)
  }

  // ---------------------------------------------------------------- one call

  /** Whatever the store has is in the journal. */
  ghost predicate Keeps(s: State, book: Book) {
    forall id :: id in s.items ==>
      id in book && id in s.sizes && book[id] == Page(s.items[id], s.sizes[id])
  }

  predicate Held(s: State, id: string, now: int) {
    id in s.items && Live(s.items[id], now)
  }

  lemma {:induction false} BytesOneMore(more: seq<RawMessage>, last: RawMessage)
    ensures Bytes(more + [last]) == Bytes(more) + |last|
  {
    if more == [] {
      assert [] + [last] == [last];
    } else {
      BytesOneMore(more[1..], last);
      assert (more + [last])[1..] == more[1..] + [last];
    }
  }

  lemma {:induction false} BytesIsLength(more: seq<RawMessage>)
    ensures Bytes(more) == Length(more)
  {
    if more != [] {
      BytesIsLength(more[..|more| - 1]);
      BytesOneMore(more[..|more| - 1], more[|more| - 1]);
      assert more[..|more| - 1] + [more[|more| - 1]] == more;
    }
  }

  lemma CleanedKeeps(cfg: Config, s: State, book: Book, id: string, now: int)
    requires Keeps(s, book)
    ensures Keeps(Cleaned(cfg, s, now), book)
    ensures Held(Cleaned(cfg, s, now), id, now) <==> Held(s, id, now)
  {
  }

  lemma EnforcedKeeps(cfg: Config, s: State, book: Book, protect: string)
    requires Keeps(s, book)
    ensures Keeps(Enforced(cfg, s, protect), book)
  {
  }

  lemma CreateFollows(cfg: Config, s: State, book: Book, snapshot: Option<Stored>, size: Option<nat>, now: int)
    requires Keeps(s, book)
    ensures var call := Create(snapshot, size);
            var (t, reply, _) := Attempt(cfg, s, call, now);
      && reply == Answer(cfg, book, Held(s, About(call), now), call, now)
      && Keeps(t, Journaled(cfg, book, call, reply, now))
  {
    CleanedKeeps(cfg, s, book, About(Create(snapshot, size)), now);
  }

  lemma UpdateFollows(cfg: Config, s: State, book: Book, snapshot: Option<Stored>, size: Option<nat>, now: int)
    requires Keeps(s, book)
    ensures var call := Update(snapshot, size);
            var (t, reply, _) := Attempt(cfg, s, call, now);
      && reply == Answer(cfg, book, Held(s, About(call), now), call, now)
      && Keeps(t, Journaled(cfg, book, call, reply, now))
  {
    CleanedKeeps(cfg, s, book, About(Update(snapshot, size)), now);
  }

  lemma AppendFollows(cfg: Config, s: State, book: Book, id: string, more: seq<RawMessage>, now: int)
    requires Keeps(s, book)
    ensures var call := AppendItems(id, more);
            var (t, reply, _) := Attempt(cfg, s, call, now);
      && reply == Answer(cfg, book, Held(s, id, now), call, now)
      && Keeps(t, Journaled(cfg, book, call, reply, now))
  {
    CleanedKeeps(cfg, s, book, id, now);
    BytesIsLength(more);
    if more == [] && id in book {
      assert book[id].snapshot.items + more == book[id].snapshot.items;
    }
  }

  lemma OthersFollow(cfg: Config, s: State, book: Book, call: Call, now: int)
    requires Keeps(s, book) && (call.Get? || call.Delete?)
    ensures var (t, reply, _) := Attempt(cfg, s, call, now);
      && reply == Answer(cfg, book, Held(s, About(call), now), call, now)
      && Keeps(t, Journaled(cfg, book, call, reply, now))
  {
    CleanedKeeps(cfg, s, book, About(call), now);
  }

  /** For any bounds, TTL and clock: every call is answered as the journal says, given whether the store still has the
      conversation, and what the store has afterwards is in the journal. */
  lemma StepFollowsJournal(cfg: Config, s: State, book: Book, call: Call, now: int)
    requires Keeps(s, book)
    ensures var (t, reply) := Step(cfg, s, call, now);
      && reply == Answer(cfg, book, Held(s, About(call), now), call, now)
      && Keeps(t, Journaled(cfg, book, call, reply, now))
  {
    match call
    case Create(snapshot, size) => CreateFollows(cfg, s, book, snapshot, size, now);
    case Update(snapshot, size) => UpdateFollows(cfg, s, book, snapshot, size, now);
    case AppendItems(id, more) => AppendFollows(cfg, s, book, id, more, now);
    case _ => OthersFollow(cfg, s, book, call, now);
    var (t, reply, written) := Attempt(cfg, s, call, now);
    if written.Some? {
      EnforcedKeeps(cfg, t, Journaled(cfg, book, call, reply, now), written.value);
    }
  }

  // ---------------------------------------------------------------- whole runs

  /** The journal of these calls and replies. */
  function JournalOf(cfg: Config, book: Book, calls: seq<Timed>, replies: seq<Reply>): Book
    requires |calls| == |replies|
    decreases |calls|
  {
    if calls == [] then book
    else JournalOf(cfg, Journaled(cfg, book, calls[0].call, replies[0], calls[0].now), calls[1..], replies[1..])
  }

  lemma {:induction false} RunFollowsJournal(cfg: Config, s: State, book: Book, calls: seq<Timed>)
    requires Keeps(s, book)
    ensures var (t, replies) := Run(cfg, s, calls);
            |replies| == |calls| && Keeps(t, JournalOf(cfg, book, calls, replies))
    decreases |calls|
  {
    if calls != [] {
      var (t, reply) := Step(cfg, s, calls[0].call, calls[0].now);
      var rest := Run(cfg, t, calls[1..]).1;
      StepFollowsJournal(cfg, s, book, calls[0].call, calls[0].now);
      RunFollowsJournal(cfg, t, Journaled(cfg, book, calls[0].call, reply, calls[0].now), calls[1..]);
      assert ([reply] + rest)[1..] == rest;
    }
  }

  lemma {:induction false} RunOneMore(cfg: Config, s: State, calls: seq<Timed>, next: Timed)
    ensures Run(cfg, s, calls + [next]).1 ==
            Run(cfg, s, calls).1 + [Step(cfg, Run(cfg, s, calls).0, next.call, next.now).1]
    decreases |calls|
  {
    if calls == [] {
      assert [] + [next] == [next];
      assert [next][1..] == [];
    } else {
      var t := Step(cfg, s, calls[0].call, calls[0].now).0;
      RunOneMore(cfg, t, calls[1..], next);
      assert (calls + [next])[1..] == calls[1..] + [next];
    }
  }

  /** After any run, with any bounds, TTL and clock, a Get finds nothing but what the journal has: the snapshot last put
      in, with the items appended since. */
  lemma GetFindsTheJournal(cfg: Config, calls: seq<Timed>, id: string, now: int)
    ensures |Run(cfg, EMPTY, calls).1| == |calls| < |Run(cfg, EMPTY, calls + [Timed(Get(id), now)]).1|
    ensures var book := JournalOf(cfg, map[], calls, Run(cfg, EMPTY, calls).1);
            var reply := Run(cfg, EMPTY, calls + [Timed(Get(id), now)]).1[|calls|];
            reply == Failed(NotFound)
              || (id in book && reply == Found(book[id].snapshot) && Live(book[id].snapshot, now))
  {
    RunFollowsJournal(cfg, EMPTY, map[], calls);
    RunOneMore(cfg, EMPTY, calls, Timed(Get(id), now));
    StepFollowsJournal(cfg, Run(cfg, EMPTY, calls).0, JournalOf(cfg, map[], calls, Run(cfg, EMPTY, calls).1),
                       Get(id), now);
  }

  /** The call is a create of this id that was done. */
  predicate Creates(call: Call, reply: Reply, id: string) {
    call.Create? && call.snapshot.Some? && call.snapshot.value.id == id && reply.Done?
  }

  lemma {:induction false} StaysOut(cfg: Config, book: Book, calls: seq<Timed>, replies: seq<Reply>, id: string)
    requires |calls| == |replies| && id !in book
    requires forall k :: 0 <= k < |calls| ==> !Creates(calls[k].call, replies[k], id)
    ensures id !in JournalOf(cfg, book, calls, replies)
    decreases |calls|
  {
    if calls != [] {
      assert !Creates(calls[0].call, replies[0], id);
      forall k | 0 <= k < |calls[1..]| ensures !Creates(calls[1..][k].call, replies[1..][k], id) {
        assert !Creates(calls[k + 1].call, replies[k + 1], id);
      }
      StaysOut(cfg, Journaled(cfg, book, calls[0].call, replies[0], calls[0].now), calls[1..], replies[1..], id);
    }
  }

  lemma {:induction false} JournalConcat(cfg: Config, book: Book, a: seq<Timed>, ra: seq<Reply>, b: seq<Timed>,
                                         rb: seq<Reply>)
    requires |a| == |ra| && |b| == |rb|
    ensures JournalOf(cfg, book, a + b, ra + rb) == JournalOf(cfg, JournalOf(cfg, book, a, ra), b, rb)
    decreases |a|
  {
    if a == [] {
      assert a + b == b && ra + rb == rb;
    } else {
      JournalConcat(cfg, Journaled(cfg, book, a[0].call, ra[0], a[0].now), a[1..], ra[1..], b, rb);
      assert (a + b)[1..] == a[1..] + b && (ra + rb)[1..] == ra[1..] + rb;
    }
  }

  /** With any bounds, TTL and clock: once a Delete was done, no Get finds the conversation until it is created again.
      */
  lemma DeletedIsGone(cfg: Config, calls: seq<Timed>, k: nat, id: string, now: int)
    requires k < |calls| && calls[k].call == Delete(id)
    requires |Run(cfg, EMPTY, calls).1| == |calls| && Run(cfg, EMPTY, calls).1[k] == Done
    requires forall j :: k < j < |calls| ==> !Creates(calls[j].call, Run(cfg, EMPTY, calls).1[j], id)
    ensures |Run(cfg, EMPTY, calls + [Timed(Get(id), now)]).1| > |calls|
    ensures Run(cfg, EMPTY, calls + [Timed(Get(id), now)]).1[|calls|] == Failed(NotFound)
  {
    var replies := Run(cfg, EMPTY, calls).1;
    var before := JournalOf(cfg, map[], calls[..k], replies[..k]);
    var rest, answers := calls[k..], replies[k..];
    JournalConcat(cfg, map[], calls[..k], replies[..k], rest, answers);
    assert calls[..k] + rest == calls && replies[..k] + answers == replies;
    forall j | 0 <= j < |rest[1..]| ensures !Creates(rest[1..][j].call, answers[1..][j], id) {
      assert !Creates(calls[k + 1 + j].call, replies[k + 1 + j], id);
    }
    StaysOut(cfg, Journaled(cfg, before, rest[0].call, answers[0], rest[0].now), rest[1..], answers[1..], id);
    GetFindsTheJournal(cfg, calls, id, now);
  }

  /** The call writes a conversation: what it leaves is kept, unless it arrives expired. */
  predicate Writes(cfg: Config, call: Call, now: int) {
    match call
    case Create(Some(c), _) => Live(Timestamped(cfg, c, 0, 0, now), now)
    case Update(_, _) => true
    case AppendItems(_, more) => more != []
    case _ => false
  }

  lemma DoneAttemptHolds(cfg: Config, s: State, call: Call, now: int)
    requires Writes(cfg, call, now) && Attempt(cfg, s, call, now).1 == Done
    ensures var (t, _, written) := Attempt(cfg, s, call, now);
            written == Some(About(call)) && Held(t, About(call), now)
  {
  }

  lemma WrittenStays(cfg: Config, s: State, call: Call, now: int)
    requires Bounded(cfg, s) && Writes(cfg, call, now) && Step(cfg, s, call, now).1 == Done
    ensures Held(Step(cfg, s, call, now).0, About(call), now)
  {
    AttemptIsSound(cfg, s, call, now);
    DoneAttemptHolds(cfg, s, call, now);
    EnforcedIsWithinCaps(cfg, Attempt(cfg, s, call, now).0, About(call));
  }

  lemma HeldIsFound(cfg: Config, s: State, id: string, now: int)
    requires Held(s, id, now)
    ensures Step(cfg, s, Get(id), now).1 == Found(s.items[id])
  {
  }

  /** With any bounds, TTL and clock: a Get right after a write that was done finds the conversation. */
  lemma WrittenIsFound(cfg: Config, calls: seq<Timed>, call: Call, now: int)
    requires Writes(cfg, call, now)
    requires Step(cfg, Run(cfg, EMPTY, calls).0, call, now).1 == Done
    ensures var t := Step(cfg, Run(cfg, EMPTY, calls).0, call, now).0;
            Step(cfg, t, Get(About(call)), now).1.Found?
  {
    StoreStaysBounded(cfg, calls);
    WrittenStays(cfg, Run(cfg, EMPTY, calls).0, call, now);
    HeldIsFound(cfg, Step(cfg, Run(cfg, EMPTY, calls).0, call, now).0, About(call), now);
  }

  // ---------------------------------------------------------------- without bounds the journal is the store

  /** The store has what is alive in the journal. */
  ghost predicate Holds(s: State, book: Book, now: int) {
    forall id :: id in book && Live(book[id].snapshot, now) ==> id in s.items
  }

  lemma CleanedHolds(cfg: Config, s: State, book: Book, now: int)
    requires Keeps(s, book) && Holds(s, book, now)
    ensures Holds(Cleaned(cfg, s, now), book, now)
  {
  }

  predicate Unbounded(cfg: Config) {
    cfg.maxEntries <= 0 && cfg.maxBytes <= 0
  }

  lemma CreateHolds(cfg: Config, s: State, book: Book, snapshot: Option<Stored>, size: Option<nat>, now: int)
    requires Keeps(s, book) && Holds(s, book, now)
    ensures var (t, reply, _) := Attempt(cfg, s, Create(snapshot, size), now);
            Holds(t, Journaled(cfg, book, Create(snapshot, size), reply, now), now)
  {
    CleanedHolds(cfg, s, book, now);
  }

  lemma UpdateHolds(cfg: Config, s: State, book: Book, snapshot: Option<Stored>, size: Option<nat>, now: int)
    requires Keeps(s, book) && Holds(s, book, now)
    ensures var (t, reply, _) := Attempt(cfg, s, Update(snapshot, size), now);
            Holds(t, Journaled(cfg, book, Update(snapshot, size), reply, now), now)
  {
    CleanedHolds(cfg, s, book, now);
  }

  lemma AttemptHolds(cfg: Config, s: State, book: Book, call: Call, now: int)
    requires Keeps(s, book) && Holds(s, book, now)
    ensures var (t, reply, _) := Attempt(cfg, s, call, now); Holds(t, Journaled(cfg, book, call, reply, now), now)
  {
    CleanedHolds(cfg, s, book, now);
    match call
    case Create(snapshot, size) => CreateHolds(cfg, s, book, snapshot, size, now);
    case Update(snapshot, size) => UpdateHolds(cfg, s, book, snapshot, size, now);
    case _ =>
  }

  /** Without bounds a call is answered by the journal alone. */
  lemma StepIsJournal(cfg: Config, s: State, book: Book, call: Call, now: int)
    requires Unbounded(cfg) && Keeps(s, book) && Holds(s, book, now)
    ensures var held := About(call) in book && Live(book[About(call)].snapshot, now);
            var (t, reply) := Step(cfg, s, call, now);
      && reply == Answer(cfg, book, held, call, now)
      && Keeps(t, Journaled(cfg, book, call, reply, now)) && Holds(t, Journaled(cfg, book, call, reply, now), now)
  {
    StepFollowsJournal(cfg, s, book, call, now);
    AttemptHolds(cfg, s, book, call, now);
    var (t, _, written) := Attempt(cfg, s, call, now);
    if written.Some? {
      EnforcedIdle(cfg, t, written.value);
    }
  }

  /** The replies of a plain map, which forgets nothing but what is deleted or expired. */
  function PlainReplies(cfg: Config, book: Book, calls: seq<Timed>): seq<Reply>
    decreases |calls|
  {
    if calls == [] then [] else
      var Timed(call, now) := calls[0];
      var held := About(call) in book && Live(book[About(call)].snapshot, now);
      var reply := Answer(cfg, book, held, call, now);
      [reply] + PlainReplies(cfg, Journaled(cfg, book, call, reply, now), calls[1..])
  }

  /** No conversation is ever given an expiry. */
  predicate NothingExpires(cfg: Config, calls: seq<Timed>) {
    cfg.ttl <= 0 && forall k :: 0 <= k < |calls| ==> GivesNoExpiry(calls[k].call)
  }

  predicate GivesNoExpiry(call: Call) {
    (call.Create? || call.Update?) && call.snapshot.Some? ==> call.snapshot.value.expiresAt == 0
  }

  predicate ClockAdvances(calls: seq<Timed>, from: int) {
    forall k :: 0 <= k < |calls| ==> from <= calls[k].now && forall j :: 0 <= j < k ==> calls[j].now <= calls[k].now
  }

  ghost predicate Lasting(book: Book) {
    forall id :: id in book ==> book[id].snapshot.expiresAt == 0
  }

  lemma RestAdvances(cfg: Config, book: Book, calls: seq<Timed>, from: int, reply: Reply)
    requires calls != [] && (ClockAdvances(calls, from) || (NothingExpires(cfg, calls) && Lasting(book)))
    ensures ClockAdvances(calls[1..], calls[0].now)
            || (NothingExpires(cfg, calls[1..])
                && Lasting(Journaled(cfg, book, calls[0].call, reply, calls[0].now)))
  {
    if ClockAdvances(calls, from) {
      assert forall k :: 0 <= k < |calls[1..]| ==> calls[1..][k] == calls[k + 1];
    } else {
      assert GivesNoExpiry(calls[0].call);
      forall k | 0 <= k < |calls[1..]| ensures GivesNoExpiry(calls[1..][k].call) {
        assert calls[1..][k] == calls[k + 1];
      }
    }
  }

  lemma {:induction false} RunIsPlain(cfg: Config, s: State, book: Book, calls: seq<Timed>, from: int)
    requires Unbounded(cfg) && Keeps(s, book) && Holds(s, book, from)
    requires ClockAdvances(calls, from) || (NothingExpires(cfg, calls) && Lasting(book))
    ensures Run(cfg, s, calls).1 == PlainReplies(cfg, book, calls)
    decreases |calls|
  {
    if calls != [] {
      var Timed(call, now) := calls[0];
      assert Holds(s, book, now);
      StepIsJournal(cfg, s, book, call, now);
      var (t, reply) := Step(cfg, s, call, now);
      RestAdvances(cfg, book, calls, from, reply);
      RunIsPlain(cfg, t, Journaled(cfg, book, call, reply, now), calls[1..], now);
    }
  }

  /** Without bounds, every reply of every run is that of the plain map: with any TTL and expiries if the clock does not
      go back, and whatever the clock does if nothing expires. */
  lemma UnboundedStoreIsAPlainMap(cfg: Config, calls: seq<Timed>)
    requires cfg.maxEntries <= 0 && cfg.maxBytes <= 0
    requires Nondecreasing(calls) || NothingExpires(cfg, calls)
    ensures Run(cfg, EMPTY, calls).1 == PlainReplies(cfg, map[], calls)
  {
    RunIsPlain(cfg, EMPTY, map[], calls, if calls == [] then 0 else calls[0].now);
  }
}

/** Runs of the bounded conversation store: the accounting and the caps hold after every call. */
module ConversationRuns {
  import opened Wrappers
  import opened ConversationState

  datatype Timed = Timed(call: Call, now: int)

  /** The clock does not go back. */
  ghost predicate Nondecreasing(calls: seq<Timed>) {
    forall i, j :: 0 <= i < j < |calls| ==> calls[i].now <= calls[j].now
  }

  // ---------------------------------------------------------------- accounting and caps

  ghost predicate Bounded(cfg: Config, s: State) {
    Accounted(cfg, s) && WithinCaps(cfg, s)
  }

  lemma PartIsBounded(cfg: Config, s: State, part: State)
    requires Bounded(cfg, s)
    requires part.items.Keys == part.sizes.Keys && part.items.Keys <= s.items.Keys
    requires forall id :: id in part.sizes ==> part.sizes[id] == s.sizes[id]
    ensures Bounded(cfg, part)
  {
    SumOfPart(part.sizes, s.sizes);
    CardinalityOfPart(part.items.Keys, s.items.Keys);
    assert |part.items| == |part.items.Keys| && |s.items| == |s.items.Keys|;
  }

  lemma {:induction false} CardinalityOfPart(part: set<string>, whole: set<string>)
    requires part <= whole
    ensures |part| <= |whole|
    decreases |part|
  {
    if part != {} {
      var x :| x in part;
      CardinalityOfPart(part - {x}, whole - {x});
    }
  }

  lemma CleanedIsBounded(cfg: Config, s: State, now: int)
    requires Bounded(cfg, s)
    ensures Bounded(cfg, Cleaned(cfg, s, now))
  {
    PartIsBounded(cfg, s, Cleaned(cfg, s, now));
  }

  lemma RemovedIsBounded(cfg: Config, s: State, ids: set<string>)
    requires Bounded(cfg, s)
    ensures Bounded(cfg, Removed(s, ids))
  {
    PartIsBounded(cfg, s, Removed(s, ids));
  }

  lemma PutIsAccounted(cfg: Config, s: State, id: string, c: Stored, size: nat)
    requires Bounded(cfg, s) && (cfg.maxBytes > 0 ==> size <= cfg.maxBytes)
    ensures Accounted(cfg, Put(s, id, c, size)) && id in Put(s, id, c, size).items
  {
  }

  /** An attempt leaves an accounted state: within the caps, unless it has written an entry. */
  ghost predicate Sound(cfg: Config, attempt: (State, Reply, Option<string>)) {
    && Accounted(cfg, attempt.0)
    && (attempt.2.None? ==> WithinCaps(cfg, attempt.0))
    && (attempt.2.Some? ==> attempt.2.value in attempt.0.items)
  }

  lemma CreateIsSound(cfg: Config, s: State, snapshot: Option<Stored>, size: Option<nat>, now: int)
    requires Bounded(cfg, s)
    ensures Sound(cfg, AttemptCreate(cfg, s, snapshot, size, now))
  {
    CleanedIsBounded(cfg, s, now);
    if Rejection(cfg, snapshot, size).None? {
      PutIsAccounted(cfg, Cleaned(cfg, s, now), snapshot.value.id, Prepared(snapshot.value, now, cfg.ttl), size.value);
    }
  }

  lemma UpdateIsSound(cfg: Config, s: State, snapshot: Option<Stored>, size: Option<nat>, now: int)
    requires Bounded(cfg, s)
    ensures Sound(cfg, AttemptUpdate(cfg, s, snapshot, size, now))
  {
    var t := Cleaned(cfg, s, now);
    CleanedIsBounded(cfg, s, now);
    if Rejection(cfg, snapshot, size).None? {
      var id := snapshot.value.id;
      RemovedIsBounded(cfg, t, {id});
      if id in t.items {
        PutIsAccounted(cfg, t, id, Prepared(Inherited(snapshot.value, t.items[id]), now, cfg.ttl), size.value);
      }
    }
  }

  lemma AppendIsSound(cfg: Config, s: State, id: string, more: seq<RawMessage>, now: int)
    requires Bounded(cfg, s)
    ensures Sound(cfg, AttemptAppend(cfg, s, id, more, now))
  {
    var t := Cleaned(cfg, s, now);
    CleanedIsBounded(cfg, s, now);
    RemovedIsBounded(cfg, t, {id});
    if id in t.items && !(cfg.maxBytes > 0 && SizeOf(t, id) + Length(more) > cfg.maxBytes) {
      PutIsAccounted(cfg, t, id, t.items[id].(items := t.items[id].items + more), SizeOf(t, id) + Length(more));
    }
  }

  lemma AttemptIsSound(cfg: Config, s: State, call: Call, now: int)
    requires Bounded(cfg, s)
    ensures Sound(cfg, Attempt(cfg, s, call, now))
  {
    var t := Cleaned(cfg, s, now);
    match call
    case Create(snapshot, size) => CreateIsSound(cfg, s, snapshot, size, now);
    case Update(snapshot, size) => UpdateIsSound(cfg, s, snapshot, size, now);
    case AppendItems(id, more) => AppendIsSound(cfg, s, id, more, now);
    case Get(id) =>
      CleanedIsBounded(cfg, s, now);
      RemovedIsBounded(cfg, t, {id});
    case Delete(id) =>
      CleanedIsBounded(cfg, s, now);
      RemovedIsBounded(cfg, t, {id});
  }

  /** Every call keeps the size table in step with the items, every size within the byte cap, and both caps. */
  lemma StepIsBounded(cfg: Config, s: State, call: Call, now: int)
    requires Bounded(cfg, s)
    ensures Bounded(cfg, Step(cfg, s, call, now).0)
  {
    var (t, _, written) := Attempt(cfg, s, call, now);
    AttemptIsSound(cfg, s, call, now);
    if written.Some? {
      WriteEvictsShortestPrefix(cfg, t, written.value);
    }
  }

  /** A state within its caps loses nothing. */
  lemma EnforcedIdle(cfg: Config, s: State, protect: string)
    requires WithinCaps(cfg, s)
    ensures Enforced(cfg, s, protect) == s
  {
    var order := InOrder(s.items, s.items.Keys - {protect});
    assert Caps(cfg)(s);
    assert Excess(Caps(cfg), s, order) == 0;
    RemovedNone(s, order);
  }

  /** Nothing is evicted unless a positive cap is exceeded. */
  lemma EvictsOnlyOverCaps(cfg: Config, s: State, protect: string)
    requires cfg.maxEntries > 0 ==> |s.items| <= cfg.maxEntries
    requires cfg.maxBytes > 0 ==> Sum(s.sizes) <= cfg.maxBytes
    ensures Enforced(cfg, s, protect) == s
  {
    EnforcedIdle(cfg, s, protect);
  }

  /** The state and the replies of a run. */
  ghost function Run(cfg: Config, s: State, calls: seq<Timed>): (State, seq<Reply>)
    decreases |calls|
  {
    if calls == [] then (s, []) else
      var (t, reply) := Step(cfg, s, calls[0].call, calls[0].now);
      var (u, replies) := Run(cfg, t, calls[1..]);
      (u, [reply] + replies)
  }

  lemma {:induction false} RunIsBounded(cfg: Config, s: State, calls: seq<Timed>)
    requires Bounded(cfg, s)
    ensures Bounded(cfg, Run(cfg, s, calls).0)
    decreases |calls|
  {
    if calls != [] {
      StepIsBounded(cfg, s, calls[0].call, calls[0].now);
      RunIsBounded(cfg, Step(cfg, s, calls[0].call, calls[0].now).0, calls[1..]);
    }
  }

  /** After any calls on a new store, at any times, the accounting is exact and both caps hold. */
  lemma StoreStaysBounded(cfg: Config, calls: seq<Timed>)
    ensures Bounded(cfg, Run(cfg, EMPTY, calls).0)
    ensures var s := Run(cfg, EMPTY, calls).0;
      && s.sizes.Keys == s.items.Keys
      && (cfg.maxEntries > 0 ==> |s.items| <= cfg.maxEntries) && (cfg.maxBytes > 0 ==> Sum(s.sizes) <= cfg.maxBytes)
  {
    RunIsBounded(cfg, EMPTY, calls);
  }
}

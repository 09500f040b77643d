/** Which Write calls of the audit logger (internal/auditlog/logger.go) are accepted, and when the loop hands over what
    it has received. */
module AuditWrites {
  import opened Wrappers
  import opened AuditLog

  // ---------------------------------------------------------------- an entry is dropped only for a reason

  /** The call has given its entry up, or is about to return without having sent it. */
  predicate Dropped(pc: WriterPc) {
    pc == Finishing(false) || pc == WriteReturned(false)
  }

  /** The i-th Write call runs, and either the logger is closed, or the call finds the channel full. */
  predicate MustDrop(cap: nat, s: State, i: nat) {
    i < |s.writers| && !Dropped(s.writers[i].pc)
    && (s.closed || (s.writers[i].pc.Sending? && |s.channel| == cap))
  }

  lemma {:induction false} PrefixIsAdmissible(cap: nat, s: State, schedule: seq<Step>, k: nat)
    requires Admissible(cap, s, schedule) && k <= |schedule|
    ensures Admissible(cap, s, schedule[..k])
    decreases k
  {
    if k > 0 {
      PrefixIsAdmissible(cap, Apply(cap, s, schedule[0]), schedule[1..], k - 1);
      assert schedule[..k][1..] == schedule[1..][..k - 1];
    }
  }

  lemma DropStep(cap: nat, s: State, step: Step, i: nat)
    requires cap > 0 && |s.channel| <= cap && Enabled(s, step)
    requires i < |s.writers| ==> !Dropped(s.writers[i].pc)
    requires i < |Apply(cap, s, step).writers| && Dropped(Apply(cap, s, step).writers[i].pc)
    ensures MustDrop(cap, s, i)
  {
  }

  lemma {:induction false} DropFollowsCause(cap: nat, s: State, schedule: seq<Step>, i: nat) returns (k: nat)
    requires cap > 0 && Invariant(cap, s) && Admissible(cap, s, schedule)
    requires i < |s.writers| ==> !Dropped(s.writers[i].pc)
    requires i < |Execute(cap, s, schedule).writers| && Dropped(Execute(cap, s, schedule).writers[i].pc)
    ensures k < |schedule| && Admissible(cap, s, schedule[..k])
    ensures MustDrop(cap, Execute(cap, s, schedule[..k]), i)
    decreases |schedule|
  {
    var t := Apply(cap, s, schedule[0]);
    if i < |t.writers| && Dropped(t.writers[i].pc) {
      DropStep(cap, s, schedule[0], i);
      k := 0;
    } else {
      StepKeepsInvariant(cap, s, schedule[0]);
      var j := DropFollowsCause(cap, t, schedule[1..], i);
      k := j + 1;
      PrefixIsAdmissible(cap, s, schedule, k);
      assert schedule[..k][1..] == schedule[1..][..j];
    }
  }

  /** In every interleaving, a call whose entry was not sent met, after it began, a closed logger, or at its turn to
      send a full channel. */
  lemma DropsHaveACause(configured: int, schedule: seq<Step>, i: nat)
    requires Admissible(BufferSize(configured), INITIAL, schedule)
    requires i < |Reach(BufferSize(configured), schedule).writers|
    requires Dropped(Reach(BufferSize(configured), schedule).writers[i].pc)
    ensures exists k: nat :: k < |schedule| && Admissible(BufferSize(configured), INITIAL, schedule[..k])
                             && MustDrop(BufferSize(configured), Reach(BufferSize(configured), schedule[..k]), i)
  {
    var k := DropFollowsCause(BufferSize(configured), INITIAL, schedule, i);
  }

  // ---------------------------------------------------------------- and otherwise it is accepted

  lemma {:induction false} SentStaysSent(cap: nat, s: State, schedule: seq<Step>, i: nat)
    requires i < |s.writers| && HasSent(s.writers[i].pc) && Admissible(cap, s, schedule)
    ensures var t := Execute(cap, s, schedule); i < |t.writers| && HasSent(t.writers[i].pc)
    decreases |schedule|
  {
    if schedule != [] {
      SentStaysSent(cap, Apply(cap, s, schedule[0]), schedule[1..], i);
    }
  }

  lemma {:induction false} AcceptedOnlyGrows(cap: nat, s: State, schedule: seq<Step>)
    requires Admissible(cap, s, schedule)
    ensures s.accepted <= Execute(cap, s, schedule).accepted
    decreases |schedule|
  {
    if schedule != [] {
      AcceptedOnlyGrows(cap, Apply(cap, s, schedule[0]), schedule[1..]);
    }
  }

  /** A call whose turn to send finds room gets its entry in, behind all that was accepted before it, whatever happens
      afterwards. */
  lemma RoomMeansAccepted(cap: nat, s: State, i: nat, rest: seq<Step>)
    requires i < |s.writers| && s.writers[i].pc.Sending? && |s.channel| < cap
    requires Admissible(cap, s, [StepWriter(i)] + rest)
    ensures var t := Execute(cap, s, [StepWriter(i)] + rest);
      && i < |t.writers| && HasSent(t.writers[i].pc)
      && s.accepted + [s.writers[i].entry] <= t.accepted
  {
    var t := Apply(cap, s, StepWriter(i));
    assert ([StepWriter(i)] + rest)[1..] == rest;
    SentStaysSent(cap, t, rest, i);
    AcceptedOnlyGrows(cap, t, rest);
  }

  /** The state with one more call, which has returned. */
  function WithReturned(s: State, entry: Entry, sent: bool): State {
    s.(writers := s.writers + [Writer(entry, WriteReturned(sent))])
  }

  lemma OneStepFirst(cap: nat, s: State, step: Step, rest: seq<Step>)
    requires Enabled(s, step)
    ensures Admissible(cap, s, [step] + rest) <==> Admissible(cap, Apply(cap, s, step), rest)
    ensures Admissible(cap, s, [step] + rest) ==>
            Execute(cap, s, [step] + rest) == Execute(cap, Apply(cap, s, step), rest)
  {
    assert ([step] + rest)[1..] == rest;
  }

  /** The steps of the i-th call, from wherever it stands. */
  function Turns(i: nat, n: nat): seq<Step> {
    if n == 0 then [] else [StepWriter(i)] + Turns(i, n - 1)
  }

  lemma Registers(cap: nat, s: State, i: nat)
    requires i < |s.writers| && s.writers[i].pc.FirstCheck? && !s.closed
    ensures var t := s.(writers := s.writers[i := s.writers[i].(pc := Sending)], writes := s.writes + 1);
            forall rest: seq<Step> :: Admissible(cap, t, rest) ==>
              Admissible(cap, s, Turns(i, 3) + rest) && Execute(cap, s, Turns(i, 3) + rest) == Execute(cap, t, rest)
  {
    var s1 := Apply(cap, s, StepWriter(i));
    var s2 := Apply(cap, s1, StepWriter(i));
    var t := Apply(cap, s2, StepWriter(i));
    assert t == s.(writers := s.writers[i := s.writers[i].(pc := Sending)], writes := s.writes + 1);
    forall rest: seq<Step> | Admissible(cap, t, rest)
      ensures Admissible(cap, s, Turns(i, 3) + rest) && Execute(cap, s, Turns(i, 3) + rest) == Execute(cap, t, rest)
    {
      OneStepFirst(cap, s2, StepWriter(i), rest);
      OneStepFirst(cap, s1, StepWriter(i), [StepWriter(i)] + rest);
      OneStepFirst(cap, s, StepWriter(i), [StepWriter(i)] + ([StepWriter(i)] + rest));
      ThreeTurns(i, rest);
    }
  }

  lemma ThreeTurns(i: nat, rest: seq<Step>)
    ensures Turns(i, 3) + rest == [StepWriter(i)] + ([StepWriter(i)] + ([StepWriter(i)] + rest))
  {
    assert Turns(i, 1) == [StepWriter(i)] + Turns(i, 0);
    assert Turns(i, 3) == [StepWriter(i)] + Turns(i, 2) && Turns(i, 2) == [StepWriter(i)] + Turns(i, 1);
  }

  lemma SendsAndReturns(cap: nat, s: State, i: nat)
    requires i < |s.writers| && s.writers[i].pc.Sending? && s.writes > 0
    ensures Admissible(cap, s, Turns(i, 2))
    ensures var e := s.writers[i].entry;
            var t := s.(writers := s.writers[i := Writer(e, WriteReturned(|s.channel| < cap))], writes := s.writes - 1);
            Execute(cap, s, Turns(i, 2)) ==
              if |s.channel| < cap
              then t.(channel := s.channel + [e], accepted := s.accepted + [e], senders := s.senders + [i])
              else t
  {
    var s1 := Apply(cap, s, StepWriter(i));
    OneStepFirst(cap, s1, StepWriter(i), []);
    OneStepFirst(cap, s, StepWriter(i), Turns(i, 1));
    assert Turns(i, 1) == [StepWriter(i)] + Turns(i, 0) && Turns(i, 2) == [StepWriter(i)] + Turns(i, 1);
    assert s1.writers[i].entry == s.writers[i].entry;
  }

  /** A call that nothing disturbs, with an open logger, takes five steps and leaves the logger as it was, but for its
      entry at the end of the channel if that has room. */
  lemma UndisturbedWrite(cap: nat, s: State, entry: Entry)
    requires !s.closed
    ensures var i := |s.writers|;
            var schedule := [BeginWrite(Some(entry))] + (Turns(i, 3) + Turns(i, 2));
            var t := WithReturned(s, entry, |s.channel| < cap);
      && Admissible(cap, s, schedule)
      && Execute(cap, s, schedule) ==
         if |s.channel| < cap
         then t.(channel := s.channel + [entry], accepted := s.accepted + [entry], senders := s.senders + [i])
         else t
  {
    var i := |s.writers|;
    var s1 := Apply(cap, s, BeginWrite(Some(entry)));
    var s2 := s1.(writers := s1.writers[i := s1.writers[i].(pc := Sending)], writes := s1.writes + 1);
    Registers(cap, s1, i);
    SendsAndReturns(cap, s2, i);
    OneStepFirst(cap, s, BeginWrite(Some(entry)), Turns(i, 3) + Turns(i, 2));
    assert s2.writers[i := Writer(entry, WriteReturned(|s.channel| < cap))] ==
           s.writers + [Writer(entry, WriteReturned(|s.channel| < cap))];
  }

  /** A call that begins when the logger is closed never registers, in any interleaving: Close need not wait for it. */
  lemma {:induction false} LateCallNeverRegisters(cap: nat, s: State, schedule: seq<Step>, i: nat)
    requires s.closed && i < |s.writers| && (s.writers[i].pc.FirstCheck? || s.writers[i].pc == WriteReturned(false))
    requires Admissible(cap, s, schedule)
    ensures var t := Execute(cap, s, schedule);
      i < |t.writers| && (t.writers[i].pc.FirstCheck? || t.writers[i].pc == WriteReturned(false))
    decreases |schedule|
  {
    if schedule != [] {
      LateCallNeverRegisters(cap, Apply(cap, s, schedule[0]), schedule[1..], i);
    }
  }

  /** A nil entry is no call. */
  lemma NilWriteDoesNothing(cap: nat, s: State)
    ensures Apply(cap, s, BeginWrite(None)) == s
  {
  }

  // ---------------------------------------------------------------- when batches are handed over

  /** After a tick everything the loop has received is flushed. */
  lemma TickFlushesAll(configured: int, schedule: seq<Step>)
    requires Admissible(BufferSize(configured), INITIAL, schedule)
    requires Reach(BufferSize(configured), schedule).loop.Selecting?
    ensures var s := Reach(BufferSize(configured), schedule);
            var t := Apply(BufferSize(configured), s, LoopTick);
            t.batch == [] && t.channel == s.channel && t.accepted == Concat(t.flushed) + t.channel
  {
    var s := Reach(BufferSize(configured), schedule);
    ReachKeepsInvariant(BufferSize(configured), schedule);
    StepKeepsLedger(BufferSize(configured), s, LoopTick);
    var t := Apply(BufferSize(configured), s, LoopTick);
    assert Concat(t.flushed) + [] == Concat(t.flushed);
  }

  ghost predicate AllFull(batches: seq<seq<Entry>>) {
    forall k :: 0 <= k < |batches| ==> |batches[k]| == 100
  }

  lemma {:induction false} OnlyFullBatches(cap: nat, s: State, schedule: seq<Step>)
    requires cap > 0 && Invariant(cap, s) && AllFull(s.flushed) && Admissible(cap, s, schedule)
    requires LoopTick !in schedule && !Execute(cap, s, schedule).loop.Exited?
    ensures AllFull(Execute(cap, s, schedule).flushed)
    decreases |schedule|
  {
    if schedule != [] {
      var t := Apply(cap, s, schedule[0]);
      StepKeepsInvariant(cap, s, schedule[0]);
      if t.loop.Exited? {
        ExitedStays(cap, t, schedule[1..]);
      } else {
        FullStep(cap, s, schedule[0]);
        OnlyFullBatches(cap, t, schedule[1..]);
      }
    }
  }

  lemma FullStep(cap: nat, s: State, step: Step)
    requires BatchSizes(cap, s) && AllFull(s.flushed) && Enabled(s, step)
    requires !step.LoopTick? && !step.DrainComplete?
    ensures AllFull(Apply(cap, s, step).flushed)
  {
  }

  lemma {:induction false} ExitedStays(cap: nat, s: State, schedule: seq<Step>)
    requires s.loop.Exited? && Admissible(cap, s, schedule)
    ensures Execute(cap, s, schedule).loop.Exited?
    decreases |schedule|
  {
    if schedule != [] {
      ExitedStays(cap, Apply(cap, s, schedule[0]), schedule[1..]);
    }
  }

  /** Without ticks, and until the loop has drained the channel, every batch handed over has exactly 100 entries, and
      fewer than 100 wait while the loop selects. */
  lemma BatchesFillWithoutTicks(configured: int, schedule: seq<Step>)
    requires Admissible(BufferSize(configured), INITIAL, schedule) && LoopTick !in schedule
    requires !Reach(BufferSize(configured), schedule).loop.Exited?
    ensures var s := Reach(BufferSize(configured), schedule);
            AllFull(s.flushed) && (s.loop.Selecting? ==> |s.batch| < 100)
  {
    ReachKeepsInvariant(BufferSize(configured), schedule);
    OnlyFullBatches(BufferSize(configured), INITIAL, schedule);
  }
}

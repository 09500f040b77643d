/** The audit logger's shutdown protocol (internal/auditlog/logger.go) as an interleaving
    step system: any number of Write calls, any number of Close calls and one flush loop share
    a bounded channel, an atomic flag, a wait counter and a `done` signal.

    A schedule is a sequence of atomic steps; every theorem quantifies over all schedules. */
module AuditLog {
  import opened Wrappers

  const BATCH_FLUSH_THRESHOLD: nat := 100
  const DEFAULT_BUFFER_SIZE: nat := 1000

  type Entry = int

  /** The channel capacity NewLogger picks for a configured buffer size. */
  function BufferSize(configured: int): (size: nat)
    ensures size > 0
    ensures configured > 0 ==> size == configured
  {
    if configured <= 0 then DEFAULT_BUFFER_SIZE else configured
  }

  /** Where a Write call stands. `Finishing` and `WriteReturned` remember whether it sent. */
  datatype WriterPc =
    | FirstCheck
    | Registering
    | SecondCheck
    | Sending
    | Finishing(sent: bool)
    | WriteReturned(sent: bool)

  datatype Writer = Writer(entry: Entry, pc: WriterPc)

  /** Where a Close call stands. `CloseReturned` remembers whether it was the first. */
  datatype CloserPc =
    | Swapping
    | AwaitingWrites
    | SignallingDone
    | AwaitingLoop
    | CloseReturned(first: bool)

  datatype LoopPc = Selecting | Draining | Exited

  /** `accepted`, `senders`, `flushed` and `doneCloses` are history: the entries put on the channel
      with the Write calls that put them there, the batches handed to flushBatch, and how often
      `done` was closed. */
  datatype State = State(
    closed: bool,
    writes: nat,
    done: bool,
    channel: seq<Entry>,
    loop: LoopPc,
    batch: seq<Entry>,
    writers: seq<Writer>,
    closers: seq<CloserPc>,
    accepted: seq<Entry>,
    senders: seq<nat>,
    flushed: seq<seq<Entry>>,
    doneCloses: nat
  )

  const INITIAL := State(false, 0, false, [], Selecting, [], [], [], [], [], [], 0)

  datatype Step =
    | BeginWrite(entry: Option<Entry>)
    | StepWriter(writer: nat)
    | BeginClose
    | StepCloser(closer: nat)
    | LoopReceive
    | LoopTick
    | LoopSeesDone
    | DrainReceive
    | DrainComplete

  predicate Enabled(s: State, step: Step) {
    match step
    case BeginWrite(_) => true
    case StepWriter(i) => i < |s.writers| && !s.writers[i].pc.WriteReturned?
    case BeginClose => true
    case StepCloser(i) =>
      i < |s.closers| &&
      (match s.closers[i]
       case Swapping => true
       case AwaitingWrites => s.writes == 0
       case SignallingDone => true
       case AwaitingLoop => s.loop.Exited?
       case CloseReturned(_) => false)
    case LoopReceive => s.loop.Selecting? && s.channel != []
    case LoopTick => s.loop.Selecting?
    case LoopSeesDone => s.loop.Selecting? && s.done
    case DrainReceive => s.loop.Draining? && s.channel != []
    case DrainComplete => s.loop.Draining? && s.channel == []
  }

  /** The effect of one atomic step with channel capacity `cap`. */
  function Apply(cap: nat, s: State, step: Step): State
    requires Enabled(s, step)
  {
    match step
    case BeginWrite(None) => s
    case BeginWrite(Some(e)) => s.(writers := s.writers + [Writer(e, FirstCheck)])
    case StepWriter(i) => ApplyWriter(cap, s, i)
    case BeginClose => s.(closers := s.closers + [Swapping])
    case StepCloser(i) => ApplyCloser(s, i)
    case LoopReceive =>
      var batch := s.batch + [s.channel[0]];
      if |batch| >= BATCH_FLUSH_THRESHOLD
      then s.(channel := s.channel[1..], batch := [], flushed := s.flushed + [batch])
      else s.(channel := s.channel[1..], batch := batch)
    case LoopTick => FlushNonEmpty(s)
    case LoopSeesDone => s.(loop := Draining)
    case DrainReceive => s.(channel := s.channel[1..], batch := s.batch + [s.channel[0]])
    case DrainComplete => FlushNonEmpty(s).(loop := Exited)
  }

  function FlushNonEmpty(s: State): State {
    if |s.batch| > 0 then s.(batch := [], flushed := s.flushed + [s.batch]) else s
  }

  function Move(s: State, i: nat, pc: WriterPc): State
    requires i < |s.writers|
  {
    s.(writers := s.writers[i := s.writers[i].(pc := pc)])
  }

  function ApplyWriter(cap: nat, s: State, i: nat): State
    requires Enabled(s, StepWriter(i))
  {
    match s.writers[i].pc
    case FirstCheck => Move(s, i, if s.closed then WriteReturned(false) else Registering)
    case Registering => Move(s, i, SecondCheck).(writes := s.writes + 1)
    case SecondCheck => Move(s, i, if s.closed then Finishing(false) else Sending)
    case Sending =>
      if |s.channel| < cap then
        Move(s, i, Finishing(true)).(
          channel := s.channel + [s.writers[i].entry],
          accepted := s.accepted + [s.writers[i].entry],
          senders := s.senders + [i])
      else
        Move(s, i, Finishing(false))
    case Finishing(sent) => Move(s, i, WriteReturned(sent)).(writes := if s.writes > 0 then s.writes - 1 else 0)
    case WriteReturned(_) => s
  }

  function ApplyCloser(s: State, i: nat): State
    requires Enabled(s, StepCloser(i))
  {
    match s.closers[i]
    case Swapping =>
      s.(closed := true, closers := s.closers[i := if s.closed then CloseReturned(false) else AwaitingWrites])
    case AwaitingWrites => s.(closers := s.closers[i := SignallingDone])
    case SignallingDone =>
      s.(done := true, doneCloses := s.doneCloses + 1, closers := s.closers[i := AwaitingLoop])
    case AwaitingLoop => s.(closers := s.closers[i := CloseReturned(true)])
    case CloseReturned(_) => s
  }

  /** Whether every step of the schedule is enabled when its turn comes. */
  predicate Admissible(cap: nat, s: State, schedule: seq<Step>)
    decreases |schedule|
  {
    schedule == [] ||
    (Enabled(s, schedule[0]) && Admissible(cap, Apply(cap, s, schedule[0]), schedule[1..]))
  }

  function Execute(cap: nat, s: State, schedule: seq<Step>): State
    requires Admissible(cap, s, schedule)
    decreases |schedule|
  {
    if schedule == [] then s else Execute(cap, Apply(cap, s, schedule[0]), schedule[1..])
  }

  // ---------------------------------------------------------------- the inductive invariant

  function Total(writers: seq<Writer>, weight: Writer -> nat): nat {
    if writers == [] then 0 else Total(writers[..|writers| - 1], weight) + weight(writers[|writers| - 1])
  }

  /** A Write call between its Add(1) and its deferred Done(). */
  function Registered(w: Writer): nat {
    if w.pc.SecondCheck? || w.pc.Sending? || w.pc.Finishing? then 1 else 0
  }

  function Concat(batches: seq<seq<Entry>>): seq<Entry> {
    if batches == [] then [] else Concat(batches[..|batches| - 1]) + batches[|batches| - 1]
  }

  predicate Leads(pc: CloserPc) {
    pc.AwaitingWrites? || pc.SignallingDone? || pc.AwaitingLoop? || pc == CloseReturned(true)
  }

  predicate HasSent(pc: WriterPc) {
    (pc.Finishing? || pc.WriteReturned?) && pc.sent
  }

  /** Nothing accepted is lost, duplicated or reordered. */
  ghost predicate Ledger(s: State) {
    s.accepted == Concat(s.flushed) + s.batch + s.channel
  }

  /** Every accepted entry is owed to exactly one Write call that sent, in the order of the sends. */
  ghost predicate Owed(writers: seq<Writer>, accepted: seq<Entry>, senders: seq<nat>) {
    && |senders| == |accepted|
    && (forall k :: 0 <= k < |senders| ==> OwedBy(writers, senders[k], accepted[k]))
    && (forall j, k :: 0 <= j < k < |senders| ==> senders[j] != senders[k])
    && (forall i :: 0 <= i < |writers| && HasSent(writers[i].pc) ==> i in senders)
  }

  predicate OwedBy(writers: seq<Writer>, i: nat, e: Entry) {
    i < |writers| && HasSent(writers[i].pc) && writers[i].entry == e
  }

  /** One Close call leads; the phases of the leader, the flag, the signal and the loop agree. */
  ghost predicate Phases(s: State) {
    && s.writes == Total(s.writers, Registered)
    && (s.closed <==> exists i :: 0 <= i < |s.closers| && Leads(s.closers[i]))
    && (forall i, j :: 0 <= i < |s.closers| && 0 <= j < |s.closers| && Leads(s.closers[i]) && Leads(s.closers[j]) ==>
        i == j)
    && (s.done <==>
        exists i :: 0 <= i < |s.closers| && (s.closers[i].AwaitingLoop? || s.closers[i] == CloseReturned(true)))
    && ((exists i :: 0 <= i < |s.closers| && Leads(s.closers[i]) && !s.closers[i].AwaitingWrites?) ==>
          forall w :: 0 <= w < |s.writers| ==> !s.writers[w].pc.Sending?)
    && (!s.loop.Selecting? ==> s.done)
    && (forall i :: 0 <= i < |s.closers| && s.closers[i] == CloseReturned(true) ==> s.loop.Exited?)
    && (s.loop.Exited? ==> s.channel == [] && s.batch == [])
    && s.doneCloses == (if s.done then 1 else 0)
  }

  /** How large the batches get: 100, but for the last one, which also takes the drained channel. */
  ghost predicate BatchSizes(cap: nat, s: State) {
    && |s.channel| <= cap
    && (s.loop.Selecting? ==> |s.batch| < BATCH_FLUSH_THRESHOLD)
    && (s.loop.Draining? ==> |s.batch| + |s.channel| < BATCH_FLUSH_THRESHOLD + cap)
    && (forall k :: 0 <= k < |s.flushed| ==> 1 <= |s.flushed[k]|)
    && (forall k :: 0 <= k < |s.flushed| && (k < |s.flushed| - 1 || !s.loop.Exited?) ==>
        |s.flushed[k]| <= BATCH_FLUSH_THRESHOLD)
    && (s.loop.Exited? && s.flushed != [] ==> |s.flushed[|s.flushed| - 1]| < BATCH_FLUSH_THRESHOLD + cap)
  }

  ghost predicate Invariant(cap: nat, s: State) {
    Ledger(s) && Owed(s.writers, s.accepted, s.senders) && Phases(s) && BatchSizes(cap, s)
  }

  lemma {:induction false} TotalUpdate(writers: seq<Writer>, i: nat, w: Writer, weight: Writer -> nat)
    requires i < |writers|
    ensures Total(writers[i := w], weight) + weight(writers[i]) == Total(writers, weight) + weight(w)
    decreases |writers|
  {
    var n := |writers| - 1;
    var updated := writers[i := w];
    if i < n {
      TotalUpdate(writers[..n], i, w, weight);
      assert updated[..n] == writers[..n][i := w];
    } else {
      assert updated[..n] == writers[..n];
    }
  }

  lemma TotalAppend(writers: seq<Writer>, w: Writer, weight: Writer -> nat)
    ensures Total(writers + [w], weight) == Total(writers, weight) + weight(w)
  {
    assert (writers + [w])[..|writers|] == writers;
  }

  lemma {:induction false} TotalZero(writers: seq<Writer>, i: nat, weight: Writer -> nat)
    requires i < |writers|
    ensures weight(writers[i]) <= Total(writers, weight)
    decreases |writers|
  {
    var n := |writers| - 1;
    if i < n {
      TotalZero(writers[..n], i, weight);
    }
  }

  lemma {:induction false} TotalWitness(writers: seq<Writer>, weight: Writer -> nat) returns (i: nat)
    requires Total(writers, weight) > 0
    ensures i < |writers| && weight(writers[i]) > 0
    decreases |writers|
  {
    var n := |writers| - 1;
    if weight(writers[n]) > 0 {
      i := n;
    } else {
      i := TotalWitness(writers[..n], weight);
    }
  }

  lemma ConcatAppend(batches: seq<seq<Entry>>, b: seq<Entry>)
    ensures Concat(batches + [b]) == Concat(batches) + b
  {
    assert (batches + [b])[..|batches|] == batches;
  }

  lemma WriterKeepsPhases(cap: nat, s: State, i: nat)
    requires Phases(s) && Enabled(s, StepWriter(i))
    ensures Phases(ApplyWriter(cap, s, i))
  {
    var t := ApplyWriter(cap, s, i);
    WriterKeepsCount(cap, s, i);
    WriterKeepsQuiet(cap, s, i);
    assert t.closers == s.closers && t.closed == s.closed && t.done == s.done && t.loop == s.loop && t.batch == s.batch;
  }

  lemma WriterKeepsCount(cap: nat, s: State, i: nat)
    requires s.writes == Total(s.writers, Registered) && Enabled(s, StepWriter(i))
    ensures ApplyWriter(cap, s, i).writes == Total(ApplyWriter(cap, s, i).writers, Registered)
  {
    TotalUpdate(s.writers, i, ApplyWriter(cap, s, i).writers[i], Registered);
    TotalZero(s.writers, i, Registered);
  }

  /** Once no Write call is about to send, and the flag is set, none will be. */
  lemma WriterKeepsQuiet(cap: nat, s: State, i: nat)
    requires Enabled(s, StepWriter(i))
    ensures s.closed && (forall w :: 0 <= w < |s.writers| ==> !s.writers[w].pc.Sending?) ==>
              ApplyWriter(cap, s, i).channel == s.channel
              && forall w :: 0 <= w < |ApplyWriter(cap, s, i).writers| ==>
                 !ApplyWriter(cap, s, i).writers[w].pc.Sending?
  {
  }

  /** A move that neither sends nor forgets a send changes nobody's debt. */
  lemma MoveKeepsOwed(writers: seq<Writer>, next: seq<Writer>, accepted: seq<Entry>, senders: seq<nat>)
    requires Owed(writers, accepted, senders)
    requires |writers| <= |next|
    requires forall w :: 0 <= w < |writers| ==>
      next[w].entry == writers[w].entry && (HasSent(next[w].pc) <==> HasSent(writers[w].pc))
    requires forall w :: |writers| <= w < |next| ==> !HasSent(next[w].pc)
    ensures Owed(next, accepted, senders)
  {
    forall k | 0 <= k < |senders| ensures OwedBy(next, senders[k], accepted[k]) {
      assert OwedBy(writers, senders[k], accepted[k]);
    }
  }

  lemma SendKeepsOwed(writers: seq<Writer>, i: nat, accepted: seq<Entry>, senders: seq<nat>)
    requires i < |writers| && !HasSent(writers[i].pc) && Owed(writers, accepted, senders)
    ensures Owed(writers[i := writers[i].(pc := Finishing(true))], accepted + [writers[i].entry], senders + [i])
  {
    var next := writers[i := writers[i].(pc := Finishing(true))];
    forall k | 0 <= k < |senders| ensures senders[k] != i && OwedBy(next, senders[k], accepted[k]) {
      assert OwedBy(writers, senders[k], accepted[k]);
    }
    assert (senders + [i])[|senders|] == i;
    forall w | 0 <= w < |next| && HasSent(next[w].pc) ensures w in senders + [i] {
      assert w == i || HasSent(writers[w].pc);
    }
  }

  lemma StepKeepsOwed(cap: nat, s: State, step: Step)
    requires Owed(s.writers, s.accepted, s.senders) && Enabled(s, step)
    ensures var t := Apply(cap, s, step); Owed(t.writers, t.accepted, t.senders)
  {
    var t := Apply(cap, s, step);
    if step.StepWriter? && s.writers[step.writer].pc.Sending? && |s.channel| < cap {
      SendKeepsOwed(s.writers, step.writer, s.accepted, s.senders);
    } else {
      MoveKeepsOwed(s.writers, t.writers, s.accepted, s.senders);
    }
  }

  lemma CloserKeepsPhases(s: State, i: nat)
    requires Phases(s) && Enabled(s, StepCloser(i))
    ensures Phases(ApplyCloser(s, i))
  {
    var t := ApplyCloser(s, i);
    assert forall j :: 0 <= j < |s.closers| && j != i ==> t.closers[j] == s.closers[j];
    match s.closers[i]
    case Swapping =>
      if s.closed {
        var l :| 0 <= l < |s.closers| && Leads(s.closers[l]);
        assert Leads(t.closers[l]);
      } else {
        assert Leads(t.closers[i]);
      }
    case AwaitingWrites =>
      forall w | 0 <= w < |s.writers| ensures !s.writers[w].pc.Sending? {
        TotalZero(s.writers, w, Registered);
      }
      assert Leads(t.closers[i]);
    case SignallingDone =>
      assert Leads(t.closers[i]) && t.closers[i].AwaitingLoop?;
    case AwaitingLoop =>
      assert Leads(t.closers[i]) && t.closers[i] == CloseReturned(true);
    case CloseReturned(_) =>
  }

  lemma FlushKeepsLedger(s: State)
    requires Ledger(s)
    ensures Ledger(FlushNonEmpty(s))
  {
    ConcatAppend(s.flushed, s.batch);
    assert Concat(s.flushed) + s.batch + [] == Concat(s.flushed) + s.batch;
  }

  /** Moving the head of the channel to the end of the batch keeps the order. */
  lemma ReceiveKeepsLedger(s: State)
    requires Ledger(s) && s.channel != []
    ensures Ledger(s.(channel := s.channel[1..], batch := s.batch + [s.channel[0]]))
  {
    assert s.batch + s.channel == s.batch + [s.channel[0]] + s.channel[1..];
    assert Concat(s.flushed) + (s.batch + s.channel) == Concat(s.flushed) + s.batch + s.channel;
  }

  lemma StepKeepsLedger(cap: nat, s: State, step: Step)
    requires Ledger(s) && Enabled(s, step)
    ensures Ledger(Apply(cap, s, step))
  {
    match step
    case LoopReceive =>
      ReceiveKeepsLedger(s);
      FlushKeepsLedger(s.(channel := s.channel[1..], batch := s.batch + [s.channel[0]]));
    case DrainReceive =>
      ReceiveKeepsLedger(s);
    case LoopTick =>
      FlushKeepsLedger(s);
    case DrainComplete =>
      FlushKeepsLedger(s);
    case StepWriter(i) =>
      var e := s.writers[i].entry;
      assert Concat(s.flushed) + s.batch + (s.channel + [e]) == Concat(s.flushed) + s.batch + s.channel + [e];
    case _ =>
  }

  lemma BeginKeepsPhases(cap: nat, s: State, step: Step)
    requires Phases(s) && (step.BeginWrite? || step.BeginClose?)
    ensures Phases(Apply(cap, s, step))
  {
    var t := Apply(cap, s, step);
    if step.BeginWrite? {
      if step.entry.Some? {
        TotalAppend(s.writers, Writer(step.entry.value, FirstCheck), Registered);
      }
    } else {
      BeginCloseKeepsPhases(cap, s);
    }
  }

  lemma BeginCloseKeepsPhases(cap: nat, s: State)
    requires Phases(s)
    ensures Phases(Apply(cap, s, BeginClose))
  {
    var t := Apply(cap, s, BeginClose);
    assert t.closers == s.closers + [Swapping];
    assert forall i :: 0 <= i < |s.closers| ==> t.closers[i] == s.closers[i];
  }

  lemma LoopKeepsPhases(cap: nat, s: State, step: Step)
    requires Phases(s) && Enabled(s, step)
    requires step.LoopReceive? || step.LoopTick? || step.LoopSeesDone? || step.DrainReceive? || step.DrainComplete?
    ensures Phases(Apply(cap, s, step))
  {
    var t := Apply(cap, s, step);
    assert t.closers == s.closers && t.writers == s.writers;
  }

  lemma StepKeepsBatchSizes(cap: nat, s: State, step: Step)
    requires cap > 0 && Invariant(cap, s) && Enabled(s, step)
    ensures BatchSizes(cap, Apply(cap, s, step))
  {
    if step.StepWriter? || step.StepCloser? || step.BeginWrite? || step.BeginClose? {
      OthersKeepBatchSizes(cap, s, step);
    } else {
      LoopKeepsBatchSizes(cap, s, step);
    }
  }

  lemma OthersKeepBatchSizes(cap: nat, s: State, step: Step)
    requires BatchSizes(cap, s) && Phases(s) && Enabled(s, step)
    requires step.StepWriter? || step.StepCloser? || step.BeginWrite? || step.BeginClose?
    ensures BatchSizes(cap, Apply(cap, s, step))
  {
  }

  lemma LoopKeepsBatchSizes(cap: nat, s: State, step: Step)
    requires cap > 0 && BatchSizes(cap, s) && Phases(s) && Enabled(s, step)
    requires step.LoopReceive? || step.LoopTick? || step.LoopSeesDone? || step.DrainReceive? || step.DrainComplete?
    ensures BatchSizes(cap, Apply(cap, s, step))
  {
  }

  /** Every step of every participant keeps the invariant. */
  lemma StepKeepsInvariant(cap: nat, s: State, step: Step)
    requires cap > 0 && Invariant(cap, s) && Enabled(s, step)
    ensures Invariant(cap, Apply(cap, s, step))
  {
    StepKeepsBatchSizes(cap, s, step);
    StepKeepsLedger(cap, s, step);
    StepKeepsOwed(cap, s, step);
    match step
    case StepWriter(i) => WriterKeepsPhases(cap, s, i);
    case StepCloser(i) => CloserKeepsPhases(s, i);
    case BeginWrite(_) => BeginKeepsPhases(cap, s, step);
    case BeginClose => BeginKeepsPhases(cap, s, step);
    case _ => LoopKeepsPhases(cap, s, step);
  }

  lemma {:induction false} ScheduleKeepsInvariant(cap: nat, s: State, schedule: seq<Step>)
    requires cap > 0 && Invariant(cap, s) && Admissible(cap, s, schedule)
    ensures Invariant(cap, Execute(cap, s, schedule))
    decreases |schedule|
  {
    if schedule != [] {
      StepKeepsInvariant(cap, s, schedule[0]);
      ScheduleKeepsInvariant(cap, Apply(cap, s, schedule[0]), schedule[1..]);
    }
  }

  /** The state a schedule leads to from the freshly started logger. */
  function Reach(cap: nat, schedule: seq<Step>): State
    requires Admissible(cap, INITIAL, schedule)
  {
    Execute(cap, INITIAL, schedule)
  }

  lemma ReachKeepsInvariant(cap: nat, schedule: seq<Step>)
    requires cap > 0 && Admissible(cap, INITIAL, schedule)
    ensures Invariant(cap, Reach(cap, schedule))
  {
    ScheduleKeepsInvariant(cap, INITIAL, schedule);
  }

  // ---------------------------------------------------------------- the theorems

  /** In every interleaving, what was accepted is what flushBatch got, then the loop's batch, then the channel. */
  lemma AcceptedIsAccountedFor(configured: int, schedule: seq<Step>)
    requires Admissible(BufferSize(configured), INITIAL, schedule)
    ensures var s := Reach(BufferSize(configured), schedule);
            s.accepted == Concat(s.flushed) + s.batch + s.channel
  {
    ReachKeepsInvariant(BufferSize(configured), schedule);
  }

  /** When the first Close has returned, every accepted entry went to flushBatch exactly once and in order:
      the batches, joined, are the entries of the Write calls that sent, each call once, in sending order. */
  lemma ShutdownIsLossless(configured: int, schedule: seq<Step>)
    requires Admissible(BufferSize(configured), INITIAL, schedule)
    requires CloseReturned(true) in Reach(BufferSize(configured), schedule).closers
    ensures var s := Reach(BufferSize(configured), schedule);
            && Concat(s.flushed) == s.accepted && s.channel == [] && s.batch == []
            && Owed(s.writers, Concat(s.flushed), s.senders)
            && s.doneCloses == 1
            && forall w :: 0 <= w < |s.writers| ==> !s.writers[w].pc.Sending?
  {
    ReachKeepsInvariant(BufferSize(configured), schedule);
    var s := Reach(BufferSize(configured), schedule);
    assert s.accepted == Concat(s.flushed) + [] + [];
  }

  /** `done` is closed at most once, and is closed exactly when it reads closed. */
  lemma DoneClosesAtMostOnce(configured: int, schedule: seq<Step>)
    requires Admissible(BufferSize(configured), INITIAL, schedule)
    ensures var s := Reach(BufferSize(configured), schedule); s.doneCloses == (if s.done then 1 else 0)
  {
    ReachKeepsInvariant(BufferSize(configured), schedule);
  }

  /** Batches are nonempty and hold at most 100 entries, but for the last one of a finished loop. */
  lemma BatchesAreBounded(configured: int, schedule: seq<Step>, k: nat)
    requires Admissible(BufferSize(configured), INITIAL, schedule)
    requires k < |Reach(BufferSize(configured), schedule).flushed|
    ensures var s := Reach(BufferSize(configured), schedule);
            && 1 <= |s.flushed[k]|
            && |s.flushed[k]| <= (if k == |s.flushed| - 1 && s.loop.Exited?
                                  then BATCH_FLUSH_THRESHOLD - 1 + BufferSize(configured)
                                  else BATCH_FLUSH_THRESHOLD)
  {
    ReachKeepsInvariant(BufferSize(configured), schedule);
  }

  /** Nothing is sent once `done` is closed, whatever still runs or starts later. */
  lemma {:induction false} NothingAcceptedAfterDone(cap: nat, s: State, schedule: seq<Step>)
    requires cap > 0 && Invariant(cap, s) && s.done && Admissible(cap, s, schedule)
    ensures var t := Execute(cap, s, schedule); t.done && t.accepted == s.accepted
    decreases |schedule|
  {
    if schedule != [] {
      StepKeepsInvariant(cap, s, schedule[0]);
      NothingAcceptedAfterDone(cap, Apply(cap, s, schedule[0]), schedule[1..]);
    }
  }

  /** Everything accepted has been handed to flushBatch. */
  ghost predicate Flushed(s: State) {
    Concat(s.flushed) == s.accepted
  }

  lemma LedgerFlushed(s: State)
    requires Ledger(s)
    ensures Flushed(s) <==> s.channel == [] && s.batch == []
  {
    assert |s.accepted| == |Concat(s.flushed)| + |s.batch| + |s.channel|;
    if s.channel == [] && s.batch == [] {
      assert s.accepted == Concat(s.flushed) + [] + [];
    }
  }

  // ---------------------------------------------------------------- shutdown can always finish

  /** The steps a registered Write call still has to take once `closed` is set. */
  function Remaining(w: Writer): nat {
    match w.pc
    case SecondCheck => 2
    case Sending => 2
    case Finishing(_) => 1
    case _ => 0
  }

  function LeaderRank(pc: CloserPc): nat {
    match pc
    case AwaitingWrites => 3
    case SignallingDone => 2
    case AwaitingLoop => 1
    case _ => 0
  }

  function LoopRank(pc: LoopPc): nat {
    match pc
    case Selecting => 2
    case Draining => 1
    case Exited => 0
  }

  /** The next step that brings a started shutdown closer to its end. */
  lemma ShutdownStep(cap: nat, s: State, leader: nat) returns (step: Step)
    requires cap > 0 && Invariant(cap, s)
    requires leader < |s.closers| && Leads(s.closers[leader]) && s.closers[leader] != CloseReturned(true)
    ensures Enabled(s, step)
    ensures var t := Apply(cap, s, step);
      && |t.writers| == |s.writers| && |t.closers| == |s.closers| && Leads(t.closers[leader])
      && (LeaderRank(t.closers[leader]) < LeaderRank(s.closers[leader])
          || (LeaderRank(t.closers[leader]) == LeaderRank(s.closers[leader]) &&
              (Total(t.writers, Remaining) < Total(s.writers, Remaining)
               || (t.writers == s.writers &&
                   (LoopRank(t.loop) < LoopRank(s.loop) || (t.loop == s.loop && |t.channel| < |s.channel|))))))
  {
    match s.closers[leader]
    case AwaitingWrites =>
      if s.writes == 0 {
        step := StepCloser(leader);
      } else {
        var w := TotalWitness(s.writers, Registered);
        step := StepWriter(w);
        TotalUpdate(s.writers, w, Apply(cap, s, step).writers[w], Remaining);
      }
    case SignallingDone =>
      step := StepCloser(leader);
    case AwaitingLoop =>
      step := if s.loop.Exited? then StepCloser(leader)
              else if s.loop.Selecting? then LoopSeesDone
              else if s.channel != [] then DrainReceive else DrainComplete;
    case _ =>
  }

  /** No lost wake-up: from every reachable state with a shutdown under way, the calls already made and
      the loop alone can bring the first Close to its return. */
  lemma {:induction false} ShutdownCanFinish(cap: nat, s: State, leader: nat) returns (schedule: seq<Step>)
    requires cap > 0 && Invariant(cap, s)
    requires leader < |s.closers| && Leads(s.closers[leader])
    ensures Admissible(cap, s, schedule)
    ensures forall k :: 0 <= k < |schedule| ==> !schedule[k].BeginWrite? && !schedule[k].BeginClose?
    ensures var t := Execute(cap, s, schedule);
            leader < |t.closers| && t.closers[leader] == CloseReturned(true) && Concat(t.flushed) == t.accepted
    decreases LeaderRank(s.closers[leader]), Total(s.writers, Remaining), LoopRank(s.loop), |s.channel|
  {
    if s.closers[leader] == CloseReturned(true) {
      schedule := [];
      LedgerFlushed(s);
    } else {
      var step := ShutdownStep(cap, s, leader);
      StepKeepsInvariant(cap, s, step);
      var rest := ShutdownCanFinish(cap, Apply(cap, s, step), leader);
      schedule := [step] + rest;
      assert schedule[1..] == rest;
    }
  }

  /** A step other than a new call or a tick: there are only so many of them. */
  predicate Productive(step: Step) {
    !step.BeginWrite? && !step.BeginClose? && !step.LoopTick?
  }

  function Count(p: Step -> bool, schedule: seq<Step>): nat {
    if schedule == [] then 0 else (if p(schedule[0]) then 1 else 0) + Count(p, schedule[1..])
  }

  predicate IsNewCall(step: Step) {
    step.BeginWrite? || step.BeginClose?
  }

  /** The steps a Write call can still take, and one for the entry it may put on the channel. */
  function WriterWork(w: Writer): nat {
    match w.pc
    case FirstCheck => 6
    case Registering => 5
    case SecondCheck => 4
    case Sending => 3
    case Finishing(_) => 1
    case WriteReturned(_) => 0
  }

  function CloserWork(pc: CloserPc): nat {
    match pc
    case Swapping => 4
    case AwaitingWrites => 3
    case SignallingDone => 2
    case AwaitingLoop => 1
    case CloseReturned(_) => 0
  }

  function ClosersWork(closers: seq<CloserPc>): nat {
    if closers == [] then 0 else ClosersWork(closers[..|closers| - 1]) + CloserWork(closers[|closers| - 1])
  }

  /** The steps, other than ticks, that the calls already made and the loop can still take. */
  function Work(s: State): nat {
    Total(s.writers, WriterWork) + ClosersWork(s.closers) + LoopRank(s.loop) + |s.channel|
  }

  lemma {:induction false} ClosersWorkUpdate(closers: seq<CloserPc>, i: nat, pc: CloserPc)
    requires i < |closers|
    ensures ClosersWork(closers[i := pc]) + CloserWork(closers[i]) == ClosersWork(closers) + CloserWork(pc)
    decreases |closers|
  {
    var n := |closers| - 1;
    if i < n {
      ClosersWorkUpdate(closers[..n], i, pc);
      assert closers[i := pc][..n] == closers[..n][i := pc];
    } else {
      assert closers[i := pc][..n] == closers[..n];
    }
  }

  lemma WorkOfNewCall(cap: nat, s: State, step: Step)
    requires IsNewCall(step)
    ensures Work(Apply(cap, s, step)) <= Work(s) + 6
  {
    match step
    case BeginWrite(Some(e)) => TotalAppend(s.writers, Writer(e, FirstCheck), WriterWork);
    case BeginWrite(None) =>
    case BeginClose => assert (s.closers + [Swapping])[..|s.closers|] == s.closers;
  }

  /** Every step but a new call and a tick uses some of the work up. */
  lemma WorkShrinks(cap: nat, s: State, step: Step)
    requires Enabled(s, step) && Productive(step)
    ensures Work(Apply(cap, s, step)) < Work(s)
  {
    match step
    case StepWriter(i) => WriterWorkShrinks(cap, s, i);
    case StepCloser(i) => CloserWorkShrinks(s, i);
    case _ =>
  }

  lemma WriterWorkShrinks(cap: nat, s: State, i: nat)
    requires Enabled(s, StepWriter(i))
    ensures Work(ApplyWriter(cap, s, i)) < Work(s)
  {
    TotalUpdate(s.writers, i, ApplyWriter(cap, s, i).writers[i], WriterWork);
  }

  lemma CloserWorkShrinks(s: State, i: nat)
    requires Enabled(s, StepCloser(i))
    ensures Work(ApplyCloser(s, i)) < Work(s)
  {
    ClosersWorkUpdate(s.closers, i, ApplyCloser(s, i).closers[i]);
  }

  lemma {:induction false} WorkIsSpent(cap: nat, s: State, schedule: seq<Step>)
    requires Admissible(cap, s, schedule)
    ensures Count(Productive, schedule) + Work(Execute(cap, s, schedule)) <= Work(s) + 6 * Count(IsNewCall, schedule)
    decreases |schedule|
  {
    if schedule != [] {
      var step := schedule[0];
      WorkIsSpent(cap, Apply(cap, s, step), schedule[1..]);
      if Productive(step) {
        WorkShrinks(cap, s, step);
      } else if IsNewCall(step) {
        WorkOfNewCall(cap, s, step);
      }
    }
  }

  lemma {:induction false} LeaderStays(cap: nat, s: State, leader: nat, schedule: seq<Step>)
    requires leader < |s.closers| && Leads(s.closers[leader]) && Admissible(cap, s, schedule)
    ensures var t := Execute(cap, s, schedule); leader < |t.closers| && Leads(t.closers[leader])
    decreases |schedule|
  {
    if schedule != [] {
      LeaderStays(cap, Apply(cap, s, schedule[0]), leader, schedule[1..]);
    }
  }

  /** Every schedule finishes a shutdown under way. However the steps are ordered, a bounded number of them are not
      ticks, six for each new call; and as long as the first Close has not returned, one that is neither can be taken.
      So when none is left, or that number is reached, it has returned and everything accepted is flushed. */
  lemma EveryScheduleFinishes(cap: nat, s: State, leader: nat, schedule: seq<Step>)
    requires cap > 0 && Invariant(cap, s)
    requires leader < |s.closers| && Leads(s.closers[leader]) && Admissible(cap, s, schedule)
    ensures Count(Productive, schedule) <= Work(s) + 6 * Count(IsNewCall, schedule)
    ensures var t := Execute(cap, s, schedule);
      && leader < |t.closers|
      && (t.closers[leader] != CloseReturned(true) ==>
            && (exists step :: Productive(step) && Enabled(t, step))
            && Count(Productive, schedule) < Work(s) + 6 * Count(IsNewCall, schedule))
      && (t.closers[leader] == CloseReturned(true) ==> Flushed(t))
  {
    var t := Execute(cap, s, schedule);
    WorkIsSpent(cap, s, schedule);
    LeaderStays(cap, s, leader, schedule);
    ScheduleKeepsInvariant(cap, s, schedule);
    if t.closers[leader] == CloseReturned(true) {
      LedgerFlushed(t);
    } else {
      var step := ShutdownStep(cap, t, leader);
      WorkShrinks(cap, t, step);
    }
  }

  // ---------------------------------------------------------------- which Close calls wait

  /** The schedule runs up to the return of the i-th Close call: its last step is the one that returns. */
  ghost predicate ReturnsAtEnd(cap: nat, s: State, i: nat, schedule: seq<Step>) {
    && Admissible(cap, s, schedule) && schedule != [] && schedule[|schedule| - 1] == StepCloser(i)
    && var t := Execute(cap, s, schedule); i < |t.closers| && t.closers[i].CloseReturned?
  }

  /** In every schedule from its swap of the flag on, the call returns with everything accepted flushed. */
  ghost predicate FlushedWheneverItReturns(cap: nat, s: State, i: nat) {
    forall rest: seq<Step> :: ReturnsAtEnd(cap, s, i, [StepCloser(i)] + rest) ==>
      Flushed(Execute(cap, s, [StepCloser(i)] + rest))
  }

  lemma {:induction false} ReturnedTakesNoStep(cap: nat, s: State, i: nat, schedule: seq<Step>)
    requires i < |s.closers| && s.closers[i].CloseReturned? && Admissible(cap, s, schedule)
    ensures StepCloser(i) !in schedule
    decreases |schedule|
  {
    if schedule != [] {
      ReturnedTakesNoStep(cap, Apply(cap, s, schedule[0]), i, schedule[1..]);
    }
  }

  lemma LeaderReturnsFlushed(cap: nat, s: State, i: nat, rest: seq<Step>)
    requires cap > 0 && Invariant(cap, s) && i < |s.closers| && s.closers[i].Swapping? && !s.closed
    requires ReturnsAtEnd(cap, s, i, [StepCloser(i)] + rest)
    ensures Flushed(Execute(cap, s, [StepCloser(i)] + rest))
  {
    var t := Apply(cap, s, StepCloser(i));
    assert ([StepCloser(i)] + rest)[1..] == rest;
    StepKeepsInvariant(cap, s, StepCloser(i));
    LeaderStays(cap, t, i, rest);
    ScheduleKeepsInvariant(cap, t, rest);
    LedgerFlushed(Execute(cap, t, rest));
  }

  lemma LaterReturnsAtOnce(cap: nat, s: State, i: nat, rest: seq<Step>)
    requires i < |s.closers| && s.closers[i].Swapping? && s.closed
    requires ReturnsAtEnd(cap, s, i, [StepCloser(i)] + rest)
    ensures rest == []
  {
    assert ([StepCloser(i)] + rest)[1..] == rest;
    assert rest != [] ==> ([StepCloser(i)] + rest)[|rest|] == rest[|rest| - 1];
    ReturnedTakesNoStep(cap, Apply(cap, s, StepCloser(i)), i, rest);
  }

  lemma SwapAlone(cap: nat, s: State, i: nat)
    requires i < |s.closers| && s.closers[i].Swapping?
    ensures Admissible(cap, s, [StepCloser(i)] + [])
            && Execute(cap, s, [StepCloser(i)] + []) == Apply(cap, s, StepCloser(i))
  {
    assert [StepCloser(i)] + [] == [StepCloser(i)];
    assert [StepCloser(i)][1..] == [];
  }

  /** A Close call returns with everything accepted flushed, in every schedule, if and only if it is the first to swap
      the flag, or nothing is buffered when it swaps. */
  lemma CloseWaitsIff(configured: int, past: seq<Step>, i: nat)
    requires Admissible(BufferSize(configured), INITIAL, past)
    requires i < |Reach(BufferSize(configured), past).closers|
             && Reach(BufferSize(configured), past).closers[i].Swapping?
    ensures var s := Reach(BufferSize(configured), past);
      FlushedWheneverItReturns(BufferSize(configured), s, i) <==> (!s.closed || (s.channel == [] && s.batch == []))
  {
    var cap := BufferSize(configured);
    var s := Reach(cap, past);
    ReachKeepsInvariant(cap, past);
    StepKeepsInvariant(cap, s, StepCloser(i));
    LedgerFlushed(Apply(cap, s, StepCloser(i)));
    SwapAlone(cap, s, i);
    if !s.closed {
      forall rest: seq<Step> | ReturnsAtEnd(cap, s, i, [StepCloser(i)] + rest)
        ensures Flushed(Execute(cap, s, [StepCloser(i)] + rest))
      {
        LeaderReturnsFlushed(cap, s, i, rest);
      }
    } else {
      assert ReturnsAtEnd(cap, s, i, [StepCloser(i)] + []);
      forall rest: seq<Step> | ReturnsAtEnd(cap, s, i, [StepCloser(i)] + rest) ensures rest == [] {
        LaterReturnsAtOnce(cap, s, i, rest);
      }
    }
  }

  /** Only the first Close waits: a Close that overlaps it returns while an accepted entry is still buffered. */
  lemma LaterCloseDoesNotWait()
    ensures var schedule := [BeginWrite(Some(7)), StepWriter(0), StepWriter(0), StepWriter(0), StepWriter(0),
                             BeginClose, StepCloser(0), BeginClose, StepCloser(1)];
            && Admissible(1, INITIAL, schedule)
            && var s := Reach(1, schedule);
               s.closers[1] == CloseReturned(false) && s.accepted == [7] && s.flushed == []
  {
    var s1 := Apply(1, INITIAL, BeginWrite(Some(7)));
    var s2 := Apply(1, s1, StepWriter(0));
    var s3 := Apply(1, s2, StepWriter(0));
    var s4 := Apply(1, s3, StepWriter(0));
    var s5 := Apply(1, s4, StepWriter(0));
    var s6 := Apply(1, s5, BeginClose);
    var s7 := Apply(1, s6, StepCloser(0));
    var s8 := Apply(1, s7, BeginClose);
    assert s5.accepted == [7];
    assert s8.closers == [AwaitingWrites, Swapping];
    assert Execute(1, s8, [StepCloser(1)]) == Apply(1, s8, StepCloser(1));
    assert Execute(1, s6, [StepCloser(0), BeginClose, StepCloser(1)]) == Execute(1, s7, [BeginClose, StepCloser(1)]);
  }
}

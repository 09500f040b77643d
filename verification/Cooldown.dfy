/** Cooldowns of failing credentials (internal/providers/cooldown.go): exponential backoff, failures that arrive
    together, and terminal states. Times and durations are integers; every call is given the clock reading it makes. */
module Cooldown {
  import opened Wrappers

  datatype Key = Key(providerName: string, keyIndex: int, model: string, scope: string)

  /** lastFailure is none for Go's zero time. */
  datatype Entry = Entry(until: int, failures: nat, lastFailure: Option<int>, terminal: bool)

  /** The base cooldown of the configuration is not here: no method reads it. */
  datatype Config = Config(maxCooldown: int, backoffFactor: real, antiHerdWindow: int)

  datatype Status = Inactive | Cooling(until: int, terminal: bool)

  datatype Snapshot = Snapshot(key: Key, terminal: bool, until: int, failures: nat)

  type Entries = map<Key, Entry>

  const YEAR := 365 * 24 * 3600 * 1_000_000_000

  predicate Live(e: Entry, now: int) {
    e.terminal || now < e.until
  }

  // ---------------------------------------------------------------- backoff

  function Power(factor: real, n: nat): real {
    if n == 0 then 1.0 else Power(factor, n - 1) * factor
  }

  /** Go's conversion of a float to an integer. */
  function Truncate(x: real): int {
    if x >= 0.0 then x.Floor else -((-x).Floor)
  }

  /** The duration grown this many times, up to the cap. */
  function Grown(c: Config, duration: int, times: nat): real {
    var grown := duration as real * Power(c.backoffFactor, times);
    if grown > c.maxCooldown as real then c.maxCooldown as real else grown
  }

  /** The cooldown that the n-th counted failure sets. */
  function Backoff(c: Config, n: nat, duration: int): real {
    if c.backoffFactor > 0.0 && n > 1 then Grown(c, duration, n - 1) else duration as real
  }

  lemma {:induction false} PowerGrows(factor: real, m: nat, n: nat)
    requires factor >= 1.0 && m <= n
    ensures 1.0 <= Power(factor, m) <= Power(factor, n)
    decreases n
  {
    if m < n {
      PowerGrows(factor, m, n - 1);
      assert Power(factor, n - 1) * factor >= Power(factor, n - 1) * 1.0;
    } else if n > 0 {
      PowerGrows(factor, n - 1, n - 1);
      assert Power(factor, n - 1) * factor >= Power(factor, n - 1) * 1.0;
    }
  }

  /** With a factor of at least one, more failures never mean a shorter cooldown, once the cap is in force. */
  lemma BackoffGrows(c: Config, m: nat, n: nat, duration: int)
    requires c.backoffFactor >= 1.0 && 1 < m <= n && duration >= 0
    ensures Backoff(c, m, duration) <= Backoff(c, n, duration)
  {
    PowerGrows(c.backoffFactor, m - 1, n - 1);
    assert duration as real * Power(c.backoffFactor, m - 1) <= duration as real * Power(c.backoffFactor, n - 1);
  }

  // ---------------------------------------------------------------- one call

  /** The failure comes too soon after the last counted one to count. */
  predicate InHerd(c: Config, e: Entry, now: int) {
    e.lastFailure.Some? && now - e.lastFailure.value < c.antiHerdWindow
  }

  function FailedEntry(c: Config, e: Entry, duration: int, now: int): Entry {
    if e.terminal then e
    else if InHerd(c, e, now) then e.(until := if now > e.until then now + duration else e.until)
    else Entry(now + Truncate(Backoff(c, e.failures + 1, duration)), e.failures + 1, Some(now), false)
  }

  const NEW_ENTRY := Entry(0, 0, None, false)

  function EntryAt(entries: Entries, key: Key): Entry {
    if key in entries then entries[key] else NEW_ENTRY
  }

  datatype Call =
    | Check(key: Key)
    | RecordFailure(key: Key, duration: int)
    | MarkTerminal(key: Key)
    | Reset(key: Key)
    | ActiveCount
    | TakeSnapshot

  function LiveOnly(entries: Entries, now: int): Entries {
    map key | key in entries && Live(entries[key], now) :: entries[key]
  }

  /** Without the dead entries, but for these keys. */
  ghost function LiveOr(entries: Entries, left: set<Key>, now: int): Entries {
    map key | key in entries && (key in left || Live(entries[key], now)) :: entries[key]
  }

  ghost function LiveKeys(entries: Entries, keys: set<Key>, now: int): set<Key> {
    set key | key in keys && key in entries && Live(entries[key], now)
  }

  lemma OneKeyLess(entries: Entries, left: set<Key>, key: Key, now: int)
    requires key in left && left <= entries.Keys
    ensures Live(entries[key], now) ==> LiveOr(entries, left - {key}, now) == LiveOr(entries, left, now)
    ensures !Live(entries[key], now) ==> LiveOr(entries, left - {key}, now) == LiveOr(entries, left, now) - {key}
    ensures |LiveKeys(entries, entries.Keys - (left - {key}), now)| ==
            |LiveKeys(entries, entries.Keys - left, now)| + if Live(entries[key], now) then 1 else 0
  {
    var before := LiveKeys(entries, entries.Keys - left, now);
    var after := LiveKeys(entries, entries.Keys - (left - {key}), now);
    assert after == if Live(entries[key], now) then before + {key} else before;
  }

  /** The entries after a call at this time. */
  function After(c: Config, entries: Entries, call: Call, now: int): Entries {
    match call
    case Check(key) => if key in entries && !Live(entries[key], now) then entries - {key} else entries
    case RecordFailure(key, duration) => entries[key := FailedEntry(c, EntryAt(entries, key), duration, now)]
    case MarkTerminal(key) => entries[key := Entry(now + YEAR, 0, None, true)]
    case Reset(key) => entries - {key}
    case ActiveCount => LiveOnly(entries, now)
    case TakeSnapshot => entries
  }

  class CooldownTracker {
    const config: Config
    var entries: Entries

    constructor (config: Config)
      ensures this.config == config && entries == map[]
    {
      this.config := config;
      entries := map[];
    }

    /** Cooling exactly if the entry is terminal or its time has not come. */
    method Check(key: Key, now: int) returns (status: Status)
      modifies this
      ensures entries == After(config, old(entries), Call.Check(key), now)
      ensures status.Cooling? <==> key in old(entries) && Live(old(entries)[key], now)
      ensures status.Cooling? ==> status == Cooling(old(entries)[key].until, old(entries)[key].terminal)
    {
      if key !in entries {
        return Inactive;
      }
      var e := entries[key];
      if e.terminal {
        return Cooling(e.until, true);
      }
      if now < e.until {
        return Cooling(e.until, false);
      }
      entries := entries - {key};
      return Inactive;
    }

    method RecordFailure(key: Key, duration: int, now: int) returns (status: Status)
      modifies this
      ensures entries == After(config, old(entries), Call.RecordFailure(key, duration), now)
      ensures status == Cooling(entries[key].until, entries[key].terminal)
    {
      var e := if key in entries then entries[key] else NEW_ENTRY;
      entries := entries[key := e];
      if e.terminal {
        return Cooling(e.until, true);
      }
      if e.lastFailure.Some? && now - e.lastFailure.value < config.antiHerdWindow {
        if now > e.until {
          e := e.(until := now + duration);
          entries := entries[key := e];
        }
        return Cooling(e.until, false);
      }
      e := e.(failures := e.failures + 1, lastFailure := Some(now));
      var computed := Grow(duration, e.failures);
      e := e.(until := now + Truncate(computed));
      entries := entries[key := e];
      return Cooling(e.until, false);
    }

    /** The multiplication loop of RecordFailure. */
    method Grow(duration: int, failures: nat) returns (computed: real)
      ensures computed == Backoff(config, failures, duration)
    {
      computed := duration as real;
      if config.backoffFactor > 0.0 && failures > 1 {
        for i := 1 to failures
          invariant computed == duration as real * Power(config.backoffFactor, i - 1)
        {
          computed := computed * config.backoffFactor;
        }
        if computed > config.maxCooldown as real {
          computed := config.maxCooldown as real;
        }
      }
    }

    method MarkTerminal(key: Key, now: int)
      modifies this
      ensures entries == After(config, old(entries), Call.MarkTerminal(key), now)
    {
      entries := entries[key := Entry(now + YEAR, 0, None, true)];
    }

    method Reset(key: Key, now: int)
      modifies this
      ensures entries == After(config, old(entries), Call.Reset(key), now)
    {
      entries := entries - {key};
    }

    /** Counts the live entries and drops the others. */
    method ActiveCount(now: int) returns (count: nat)
      modifies this
      ensures entries == After(config, old(entries), Call.ActiveCount, now)
      ensures count == |entries|
    {
      count := 0;
      var left := entries.Keys;
      ghost var before := entries;
      while left != {}
        invariant left <= before.Keys && entries == LiveOr(before, left, now)
        invariant count == |LiveKeys(before, before.Keys - left, now)|
        decreases |left|
      {
        var key :| key in left;
        OneKeyLess(before, left, key, now);
        left := left - {key};
        if entries[key].terminal || now < entries[key].until {
          count := count + 1;
        } else {
          entries := entries - {key};
        }
      }
      assert entries.Keys == LiveKeys(before, before.Keys - left, now);
    }

    /** Lists the live entries, each once, and changes nothing. */
    method TakeSnapshot(now: int) returns (snapshots: seq<Snapshot>)
      ensures forall s :: s in snapshots <==>
                s.key in LiveOnly(entries, now)
                && s == Snapshot(s.key, entries[s.key].terminal, entries[s.key].until, entries[s.key].failures)
      ensures forall i, j :: 0 <= i < j < |snapshots| ==> snapshots[i].key != snapshots[j].key
    {
      snapshots := [];
      var left := entries.Keys;
      while left != {}
        invariant left <= entries.Keys
        invariant forall s :: s in snapshots <==>
                    s.key in LiveOnly(entries, now) && s.key !in left
                    && s == Snapshot(s.key, entries[s.key].terminal, entries[s.key].until, entries[s.key].failures)
        invariant forall i, j :: 0 <= i < j < |snapshots| ==> snapshots[i].key != snapshots[j].key
        decreases |left|
      {
        var key :| key in left;
        left := left - {key};
        var entry := entries[key];
        if !entry.terminal && entry.until <= now {
          continue;
        }
        assert forall i :: 0 <= i < |snapshots| ==> snapshots[i] in snapshots;
        snapshots := snapshots + [Snapshot(key, entry.terminal, entry.until, entry.failures)];
      }
    }
  }

  // ---------------------------------------------------------------- whole runs

  datatype Timed = Timed(now: int, call: Call)

  /** The entries after these calls on a new tracker. */
  function Ran(c: Config, calls: seq<Timed>): Entries {
    if calls == [] then map[]
    else After(c, Ran(c, calls[..|calls| - 1]), calls[|calls| - 1].call, calls[|calls| - 1].now)
  }

  lemma RanOneMore(c: Config, calls: seq<Timed>, next: Timed)
    ensures Ran(c, calls + [next]) == After(c, Ran(c, calls), next.call, next.now)
  {
    assert (calls + [next])[..|calls|] == calls;
  }

  /** The times of the failures counted for a key since its entry was made. */
  function Counted(c: Config, calls: seq<Timed>, key: Key): seq<int> {
    if calls == [] then []
    else
      var earlier := calls[..|calls| - 1];
      var last := calls[|calls| - 1];
      var e := EntryAt(Ran(c, earlier), key);
      if key !in Ran(c, calls) then []
      else match last.call
        case MarkTerminal(k) => if k == key then [] else Counted(c, earlier, key)
        case RecordFailure(k, _) =>
          if k == key && !e.terminal && !InHerd(c, e, last.now)
          then (if key in Ran(c, earlier) then Counted(c, earlier, key) else []) + [last.now]
          else Counted(c, earlier, key)
        case _ => Counted(c, earlier, key)
  }

  /** Each a full window after the one before. */
  ghost predicate Spaced(times: seq<int>, window: int) {
    forall i :: 0 <= i < |times| - 1 ==> times[i + 1] - times[i] >= window
  }

  /** A cooling entry's counters are the history of its key. */
  lemma {:induction false} EntryIsHistory(c: Config, calls: seq<Timed>, key: Key)
    requires key in Ran(c, calls) && !Ran(c, calls)[key].terminal
    ensures var times, e := Counted(c, calls, key), Ran(c, calls)[key];
            e.failures == |times| > 0 && e.lastFailure == Some(times[|times| - 1]) && Spaced(times, c.antiHerdWindow)
    decreases |calls|
  {
    var earlier := calls[..|calls| - 1];
    if key in Ran(c, earlier) && !Ran(c, earlier)[key].terminal {
      EntryIsHistory(c, earlier, key);
    }
  }

  lemma {:induction false} SpacedSpan(times: seq<int>, window: int, n: nat)
    requires Spaced(times, window) && n < |times|
    ensures times[n] - times[0] >= n * window
  {
    if n > 0 {
      SpacedSpan(times, window, n - 1);
      assert times[n - 1 + 1] - times[n - 1] >= window;
      assert (n - 1) * window + window == n * window;
    }
  }

  lemma FactorsCompare(a: int, b: int, w: int)
    requires w > 0 && a * w < b * w
    ensures a < b
  {
  }

  lemma AtMostQuotient(n: nat, window: int, span: int)
    requires window > 0 && span >= n * window
    ensures n <= span / window
  {
    var q := span / window;
    assert span < (q + 1) * window;
    FactorsCompare(n, q + 1, window);
  }

  /** However many failures arrive, one is counted per window at most. */
  lemma FailuresAreOnePerWindow(c: Config, calls: seq<Timed>, key: Key)
    requires c.antiHerdWindow > 0 && key in Ran(c, calls) && !Ran(c, calls)[key].terminal
    ensures Counted(c, calls, key) != [] && Ran(c, calls)[key].lastFailure.Some?
    ensures Ran(c, calls)[key].failures <=
            1 + (Ran(c, calls)[key].lastFailure.value - Counted(c, calls, key)[0]) / c.antiHerdWindow
  {
    EntryIsHistory(c, calls, key);
    var times := Counted(c, calls, key);
    SpacedSpan(times, c.antiHerdWindow, |times| - 1);
    AtMostQuotient(|times| - 1, c.antiHerdWindow, times[|times| - 1] - times[0]);
  }

  /** The key was marked terminal and has not been reset since. */
  predicate Banned(calls: seq<Timed>, key: Key) {
    calls != [] &&
    match calls[|calls| - 1].call
    case MarkTerminal(k) => k == key || Banned(calls[..|calls| - 1], key)
    case Reset(k) => k != key && Banned(calls[..|calls| - 1], key)
    case _ => Banned(calls[..|calls| - 1], key)
  }

  /** A terminal state comes only from MarkTerminal, and nothing but Reset ends it: not a failure, not a check, not its
      own expiry time. */
  lemma {:induction false} TerminalIffBanned(c: Config, calls: seq<Timed>, key: Key)
    ensures key in Ran(c, calls) && Ran(c, calls)[key].terminal <==> Banned(calls, key)
  {
    if calls != [] {
      TerminalIffBanned(c, calls[..|calls| - 1], key);
    }
  }

  /** A key that fails again, and is counted, cools for the backoff of its counted failures. */
  lemma CountedFailureSetsBackoff(c: Config, calls: seq<Timed>, key: Key, duration: int, now: int)
    requires key in Ran(c, calls) && !Banned(calls, key) && !InHerd(c, Ran(c, calls)[key], now)
    ensures Counted(c, calls, key) != []
    ensures Ran(c, calls + [Timed(now, Call.RecordFailure(key, duration))])[key].until ==
            now + Truncate(Backoff(c, |Counted(c, calls, key)| + 1, duration))
  {
    TerminalIffBanned(c, calls, key);
    EntryIsHistory(c, calls, key);
    RanOneMore(c, calls, Timed(now, Call.RecordFailure(key, duration)));
  }

  /** From the second counted failure on, that is the duration grown by the factor for every earlier one, and at most
      the cap. */
  lemma CountedFailureBacksOff(c: Config, calls: seq<Timed>, key: Key, duration: int, now: int)
    requires c.backoffFactor > 0.0
    requires key in Ran(c, calls) && !Banned(calls, key) && !InHerd(c, Ran(c, calls)[key], now)
    ensures Ran(c, calls + [Timed(now, Call.RecordFailure(key, duration))])[key].until ==
            now + Truncate(Grown(c, duration, |Counted(c, calls, key)|))
  {
    CountedFailureSetsBackoff(c, calls, key, duration, now);
  }

  lemma TruncateIsPositiveIff(x: real)
    ensures Truncate(x) > 0 <==> x >= 1.0
  {
    if x < 0.0 {
      assert (-x).Floor >= 0;
    }
  }

  /** The cooldown a counted failure sets has time left: the duration grown for the earlier failures is at least one
      unit of time, and so is the cap; for the first failure, and without growth, the duration is. */
  predicate CoolsForAWhile(c: Config, failures: nat, duration: int) {
    if c.backoffFactor > 0.0 && failures > 0
    then duration as real * Power(c.backoffFactor, failures) >= 1.0 && c.maxCooldown >= 1
    else duration >= 1
  }

  lemma CoolsForAWhileIff(c: Config, failures: nat, duration: int)
    ensures Truncate(Backoff(c, failures + 1, duration)) > 0 <==> CoolsForAWhile(c, failures, duration)
  {
    TruncateIsPositiveIff(Backoff(c, failures + 1, duration));
  }

  /** RecordFailure always reports the key as cooling. At the same instant Check agrees if and only if the key is
      terminal; or the failure was in the herd and the cooldown is still running, or had run out and got a positive
      duration; or it was counted and cools for a while. */
  lemma CheckAgreesIff(c: Config, entries: Entries, key: Key, duration: int, now: int)
    ensures var e := EntryAt(entries, key);
            Live(After(c, entries, Call.RecordFailure(key, duration), now)[key], now) <==>
              (|| e.terminal
               || (InHerd(c, e, now) && (now < e.until || (now > e.until && duration > 0)))
               || (!InHerd(c, e, now) && CoolsForAWhile(c, e.failures, duration)))
  {
    CoolsForAWhileIff(c, EntryAt(entries, key).failures, duration);
  }

  /** A failure in the herd moves the end of a cooldown exactly if that has passed and the new one is another. */
  lemma HerdFailureMovesIff(c: Config, entries: Entries, key: Key, duration: int, now: int)
    requires key in entries && !entries[key].terminal && InHerd(c, entries[key], now)
    ensures After(c, entries, Call.RecordFailure(key, duration), now)[key].until != entries[key].until <==>
            now > entries[key].until && now + duration != entries[key].until
  {
  }

  // ---------------------------------------------------------------- the cap

  lemma TruncateIsWithinIff(x: real, cap: int)
    ensures Truncate(x) <= cap <==> (if x >= 0.0 then x < (cap + 1) as real else x <= cap as real)
  {
    if x < 0.0 {
      assert (-x).Floor as real <= -x < (-x).Floor as real + 1.0;
    }
  }

  lemma BackoffIsWithinIff(c: Config, n: nat, duration: int)
    ensures Truncate(Backoff(c, n, duration)) <= c.maxCooldown <==>
            (c.backoffFactor > 0.0 && n > 1) || duration <= c.maxCooldown
  {
    TruncateIsWithinIff(Backoff(c, n, duration), c.maxCooldown);
  }

  /** What a failure leaves of a cooldown is within the cap if and only if: the entry is left alone, being terminal or
      in the herd and not past its end, and had no more left; or it is in the herd and past its end, and the duration
      is within the cap; or it is counted, and grows or is given a duration within the cap. */
  lemma CooldownIsCappedIff(c: Config, entries: Entries, key: Key, duration: int, now: int)
    ensures var e := EntryAt(entries, key);
            After(c, entries, Call.RecordFailure(key, duration), now)[key].until - now <= c.maxCooldown <==>
              if e.terminal || (InHerd(c, e, now) && now <= e.until) then e.until <= now + c.maxCooldown
              else duration <= c.maxCooldown || (!InHerd(c, e, now) && c.backoffFactor > 0.0 && e.failures >= 1)
  {
    BackoffIsWithinIff(c, EntryAt(entries, key).failures + 1, duration);
  }

  predicate Nondecreasing(calls: seq<Timed>) {
    forall i, j :: 0 <= i <= j < |calls| ==> calls[i].now <= calls[j].now
  }

  /** No failure asks for more than the cap. */
  predicate AsksWithinCap(c: Config, calls: seq<Timed>) {
    forall i :: 0 <= i < |calls| && calls[i].call.RecordFailure? ==> calls[i].call.duration <= c.maxCooldown
  }

  /** Over any run whose failures ask for no more than the cap, no cooling key ever has more than the cap left. */
  lemma {:induction false} CapHoldsOverRuns(c: Config, calls: seq<Timed>, key: Key)
    requires Nondecreasing(calls) && AsksWithinCap(c, calls)
    requires key in Ran(c, calls) && !Ran(c, calls)[key].terminal
    ensures Ran(c, calls)[key].until - calls[|calls| - 1].now <= c.maxCooldown
    decreases |calls|
  {
    var earlier, last := calls[..|calls| - 1], calls[|calls| - 1];
    if key in Ran(c, earlier) && !Ran(c, earlier)[key].terminal {
      CapHoldsOverRuns(c, earlier, key);
    }
    if last.call.RecordFailure? && last.call.key == key {
      CooldownIsCappedIff(c, Ran(c, earlier), key, last.call.duration, last.now);
    }
  }

  /** After any such run, the next failure breaks the cap if and only if it asks for more than the cap and either
      restarts a cooldown from the herd, or is counted and does not grow. */
  lemma CapBreaksIff(c: Config, calls: seq<Timed>, key: Key, duration: int, now: int)
    requires Nondecreasing(calls + [Timed(now, Call.RecordFailure(key, duration))]) && AsksWithinCap(c, calls)
    requires !Banned(calls, key)
    ensures var e := EntryAt(Ran(c, calls), key);
            Ran(c, calls + [Timed(now, Call.RecordFailure(key, duration))])[key].until - now > c.maxCooldown <==>
              && duration > c.maxCooldown
              && (if InHerd(c, e, now) then now > e.until else c.backoffFactor <= 0.0 || e.failures == 0)
  {
    var e := EntryAt(Ran(c, calls), key);
    TerminalIffBanned(c, calls, key);
    RanOneMore(c, calls, Timed(now, Call.RecordFailure(key, duration)));
    CooldownIsCappedIff(c, Ran(c, calls), key, duration, now);
    if key in Ran(c, calls) {
      var all := calls + [Timed(now, Call.RecordFailure(key, duration))];
      assert forall i :: 0 <= i < |calls| ==> all[i] == calls[i];
      assert Nondecreasing(calls);
      CapHoldsOverRuns(c, calls, key);
      assert all[|calls| - 1].now <= all[|calls|].now;
    }
  }

  // ---------------------------------------------------------------- runs that show it

  const KEY := Key("p", 0, "", "key")

  /** At most 10, doubling, with a herd window of 5. */
  const BRIEF := Config(10, 2.0, 5)

  lemma RanOnce(c: Config, a: Timed)
    ensures Ran(c, [a]) == After(c, map[], a.call, a.now)
  {
    RanOneMore(c, [], a);
    assert [] + [a] == [a];
  }

  /** The first failure cools a key for twice the cap. */
  lemma FirstFailureIsNotCapped()
    ensures Ran(BRIEF, [Timed(100, Call.RecordFailure(KEY, 20))])[KEY].until == 120
    ensures 120 - 100 > BRIEF.maxCooldown
  {
    RanOnce(BRIEF, Timed(100, Call.RecordFailure(KEY, 20)));
  }

  /** A third failure, in the herd of the second and past its cooldown, cools the key for twice the cap. */
  lemma LateHerdFailureIsNotCapped()
    ensures var calls := [Timed(100, Call.RecordFailure(KEY, 3))] + [Timed(105, Call.RecordFailure(KEY, 1))]
                         + [Timed(109, Call.RecordFailure(KEY, 20))];
            Ran(BRIEF, calls)[KEY] == Entry(129, 2, Some(105), false) && 129 - 109 > BRIEF.maxCooldown
  {
    var first := [Timed(100, Call.RecordFailure(KEY, 3))];
    RanOnce(BRIEF, first[0]);
    RanOneMore(BRIEF, first, Timed(105, Call.RecordFailure(KEY, 1)));
    assert Power(2.0, 0) * 2.0 == 2.0;
    assert Backoff(BRIEF, 2, 1) == 2.0;
    RanOneMore(BRIEF, first + [Timed(105, Call.RecordFailure(KEY, 1))], Timed(109, Call.RecordFailure(KEY, 20)));
  }

  /** A second failure within the herd window, just after a short cooldown has run out, starts another. */
  lemma HerdFailureExtends()
    ensures var first := Timed(100, Call.RecordFailure(KEY, 3));
      && Ran(BRIEF, [first])[KEY].until == 103
      && Ran(BRIEF, [first] + [Timed(104, Call.RecordFailure(KEY, 3))])[KEY].until == 107
  {
    var first := Timed(100, Call.RecordFailure(KEY, 3));
    RanOnce(BRIEF, first);
    RanOneMore(BRIEF, [first], Timed(104, Call.RecordFailure(KEY, 3)));
  }

  /** At the instant a cooldown runs out, a failure in the herd leaves it as it is: reported as cooling, and free. */
  lemma CheckDisagreesAtExpiry()
    ensures var first := Timed(100, Call.RecordFailure(KEY, 3));
            var after := Ran(BRIEF, [first] + [Timed(103, Call.RecordFailure(KEY, 3))]);
            after[KEY].until == 103 && !Live(after[KEY], 103)
  {
    var first := Timed(100, Call.RecordFailure(KEY, 3));
    RanOnce(BRIEF, first);
    RanOneMore(BRIEF, [first], Timed(103, Call.RecordFailure(KEY, 3)));
  }
}

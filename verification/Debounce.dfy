/** The rate-limited setter of src/modules/charger-ocpp16/debounce.ts. */
module Debounce {
  import opened Prelude

  /** `due` is set while a trailing write is scheduled. Before the first write `lastWriteAt` is None. */
  datatype Setter = Setter(lastWritten: Option<real>, lastWriteAt: Option<int>, pending: Option<real>, due: Option<int>)

  const INITIAL := Setter(None, None, None, None)

  datatype Event = Set(value: real, at: int) | Fire(at: int)

  /** The new state, and the value written, if any. */
  function Step(s: Setter, e: Event, minInterval: int): (Setter, Option<real>) {
    match e
    case Set(value, at) =>
      if s.lastWritten == Some(value) then (s, None)
      else if s.lastWriteAt.None? || at - s.lastWriteAt.value >= minInterval
      then (s.(lastWritten := Some(value), lastWriteAt := Some(at)), Some(value))
      else
        var due := if s.due.Some? then s.due else Some(at + (minInterval - (at - s.lastWriteAt.value)));
        (s.(pending := Some(value), due := due), None)
    case Fire(at) =>
      if s.pending.None? || s.pending == s.lastWritten then (s.(pending := None, due := None), None)
      else (Setter(s.pending, Some(at), None, None), s.pending)
  }

  class DebouncedSetter {
    const minIntervalMs: int
    var lastWritten: Option<real>
    var lastWriteAt: Option<int>
    var pendingValue: Option<real>
    var timer: Option<int>

    constructor (minIntervalMs: int)
      ensures View() == INITIAL && this.minIntervalMs == minIntervalMs
    {
      this.minIntervalMs := minIntervalMs;
      lastWritten, lastWriteAt, pendingValue, timer := None, None, None, None;
    }

    function View(): Setter
      reads this
    {
      Setter(lastWritten, lastWriteAt, pendingValue, timer)
    }

    method Set(value: real, now: int) returns (written: Option<real>)
      modifies this
      ensures (View(), written) == Step(old(View()), Event.Set(value, now), minIntervalMs)
    {
      written := None;
      if lastWritten == Some(value) {
        return;
      }
      if lastWriteAt.None? || now - lastWriteAt.value >= minIntervalMs {
        lastWritten := Some(value);
        lastWriteAt := Some(now);
        return Some(value);
      }
      pendingValue := Some(value);
      if timer.None? {
        timer := Some(now + (minIntervalMs - (now - lastWriteAt.value)));
      }
    }

    method TimerFires(now: int) returns (written: Option<real>)
      requires timer.Some?
      modifies this
      ensures (View(), written) == Step(old(View()), Event.Fire(now), minIntervalMs)
    {
      timer := None;
      if pendingValue.None? || pendingValue == lastWritten {
        pendingValue := None;
        return None;
      }
      written := pendingValue;
      pendingValue := None;
      lastWritten := written;
      lastWriteAt := Some(now);
    }
  }

  // ---------- traces ----------

  datatype Write = Write(value: real, at: int)

  function Run(trace: seq<Event>, minInterval: int): Setter {
    if trace == [] then INITIAL else Step(Run(trace[..|trace| - 1], minInterval), trace[|trace| - 1], minInterval).0
  }

  function Writes(trace: seq<Event>, minInterval: int): seq<Write> {
    if trace == [] then []
    else
      var last := |trace| - 1;
      var written := Step(Run(trace[..last], minInterval), trace[last], minInterval).1;
      Writes(trace[..last], minInterval) + if written.Some? then [Write(written.value, trace[last].at)] else []
  }

  /** Time does not run backwards, and a timer fires when scheduled and due. */
  ghost predicate ValidTrace(trace: seq<Event>, minInterval: int) {
    && (forall i, j :: 0 <= i <= j < |trace| ==> trace[i].at <= trace[j].at)
    && (forall k :: 0 <= k < |trace| && trace[k].Fire? ==>
         var s := Run(trace[..k], minInterval); s.due.Some? && s.due.value <= trace[k].at)
  }

  /** A timer that is due fires before the setter is called again. */
  ghost predicate TimersFireInTime(trace: seq<Event>, minInterval: int) {
    forall k :: 0 <= k < |trace| && trace[k].Set? ==>
      var s := Run(trace[..k], minInterval); s.due.Some? ==> trace[k].at < s.due.value
  }

  /** The last argument that differed from the written value when it was passed. */
  function LastChange(trace: seq<Event>, minInterval: int): Option<real> {
    if trace == [] then None
    else
      var last := |trace| - 1;
      if trace[last].Set? && Run(trace[..last], minInterval).lastWritten != Some(trace[last].value)
      then Some(trace[last].value) else LastChange(trace[..last], minInterval)
  }

  ghost predicate Spaced(writes: seq<Write>, minInterval: int) {
    forall i :: 0 < i < |writes| ==>
      writes[i].at - writes[i - 1].at >= minInterval && writes[i].value != writes[i - 1].value
  }

  /** At most one timer runs; it holds a value that differs from the written one and is due one interval
      after the last write. */
  ghost predicate Consistent(s: Setter, writes: seq<Write>, change: Option<real>, minInterval: int) {
    && (s.due.Some? <==> s.pending.Some?)
    && (s.due.Some? ==> s.lastWriteAt.Some? && s.due.value == s.lastWriteAt.value + minInterval)
    && (s.due.Some? ==> s.pending != s.lastWritten)
    && (if writes == [] then s.lastWritten.None? && s.lastWriteAt.None?
        else s.lastWritten == Some(writes[|writes| - 1].value) && s.lastWriteAt == Some(writes[|writes| - 1].at))
    && change == (if s.due.Some? then s.pending else s.lastWritten)
  }

  lemma ShorterTrace(trace: seq<Event>, minInterval: int)
    requires trace != [] && ValidTrace(trace, minInterval) && TimersFireInTime(trace, minInterval)
    ensures ValidTrace(trace[..|trace| - 1], minInterval) && TimersFireInTime(trace[..|trace| - 1], minInterval)
  {
    var before := trace[..|trace| - 1];
    forall k | 0 <= k < |before| ensures before[..k] == trace[..k] {
    }
  }

  /** One event that comes no earlier than the last write, and not before the timer that is due. */
  lemma StepKeepsConsistent(s: Setter, writes: seq<Write>, change: Option<real>, e: Event, minInterval: int)
    requires Consistent(s, writes, change, minInterval) && Spaced(writes, minInterval)
    requires e.Fire? ==> s.due.Some? && s.due.value <= e.at
    requires e.Set? && s.due.Some? ==> e.at < s.due.value
    ensures var (next, written) := Step(s, e, minInterval);
      var writes' := writes + if written.Some? then [Write(written.value, e.at)] else [];
      var change' := if e.Set? && s.lastWritten != Some(e.value) then Some(e.value) else change;
      Consistent(next, writes', change', minInterval) && Spaced(writes', minInterval)
  {
    var written := Step(s, e, minInterval).1;
    if written.Some? && writes != [] {
      var last := writes[|writes| - 1];
      assert e.at - last.at >= minInterval && written.value != last.value;
    }
  }

  /** Over every trace: writes are at least the interval apart, consecutive ones differ, and when no timer is
      pending the written value is the last change asked for. */
  lemma {:induction false} WritesAreSpaced(trace: seq<Event>, minInterval: int)
    requires ValidTrace(trace, minInterval) && TimersFireInTime(trace, minInterval)
    ensures Spaced(Writes(trace, minInterval), minInterval)
    ensures Consistent(Run(trace, minInterval), Writes(trace, minInterval), LastChange(trace, minInterval), minInterval)
  {
    if trace != [] {
      hide Consistent, Spaced, Step;
      var last := |trace| - 1;
      ShorterTrace(trace, minInterval);
      WritesAreSpaced(trace[..last], minInterval);
      StepKeepsConsistent(Run(trace[..last], minInterval), Writes(trace[..last], minInterval),
                          LastChange(trace[..last], minInterval), trace[last], minInterval);
    }
  }

  /** A call writes at once exactly if it differs from the last write, and that is at least the interval ago. */
  lemma WritesAtOnceIff(trace: seq<Event>, value: real, at: int, minInterval: int)
    requires ValidTrace(trace, minInterval) && TimersFireInTime(trace, minInterval)
    ensures var writes := Writes(trace, minInterval);
      var rested := writes == [] ||
        (writes[|writes| - 1].value != value && at - writes[|writes| - 1].at >= minInterval);
      Writes(trace + [Set(value, at)], minInterval) == writes + if rested then [Write(value, at)] else []
  {
    WritesAreSpaced(trace, minInterval);
    assert (trace + [Set(value, at)])[..|trace|] == trace;
  }

  ghost predicate OnlyTimers(trace: seq<Event>) {
    forall k :: 0 <= k < |trace| ==> trace[k].Fire?
  }

  lemma {:induction false} TimersSettle(start: seq<Event>, timers: seq<Event>, minInterval: int)
    requires OnlyTimers(timers)
    requires ValidTrace(start + timers, minInterval) && TimersFireInTime(start + timers, minInterval)
    ensures var s, end := Run(start, minInterval), Run(start + timers, minInterval);
      end.due.None? ==> end.lastWritten == if s.due.Some? then s.pending else s.lastWritten
    ensures LastChange(start + timers, minInterval) == LastChange(start, minInterval)
  {
    if timers == [] {
      assert start + timers == start;
      WritesAreSpaced(start, minInterval);
    } else {
      var trace := start + timers;
      var shorter := timers[..|timers| - 1];
      assert trace[..|trace| - 1] == start + shorter;
      ShorterTrace(trace, minInterval);
      TimersSettle(start, shorter, minInterval);
      WritesAreSpaced(trace, minInterval);
      PrefixTrace(trace, |start|, minInterval);
      assert trace[..|start|] == start;
      WritesAreSpaced(start, minInterval);
    }
  }

  lemma {:induction false} PrefixTrace(trace: seq<Event>, n: nat, minInterval: int)
    requires ValidTrace(trace, minInterval) && TimersFireInTime(trace, minInterval) && n <= |trace|
    ensures ValidTrace(trace[..n], minInterval) && TimersFireInTime(trace[..n], minInterval)
  {
    forall k | 0 <= k < n ensures trace[..n][..k] == trace[..k] {
    }
  }

  /** The documented "last value wins" holds exactly for calls that are not dropped as duplicates while a
      trailing write of something else is pending. */
  lemma LastValueWinsIff(start: seq<Event>, value: real, at: int, timers: seq<Event>, minInterval: int)
    requires OnlyTimers(timers)
    requires var trace := start + [Set(value, at)] + timers;
      ValidTrace(trace, minInterval) && TimersFireInTime(trace, minInterval) && Run(trace, minInterval).due.None?
    ensures var s := Run(start, minInterval);
      Run(start + [Set(value, at)] + timers, minInterval).lastWritten == Some(value) <==>
        !(s.lastWritten == Some(value) && s.due.Some?)
  {
    var called := start + [Set(value, at)];
    var trace := called + timers;
    assert called[..|start|] == start && trace[..|called|] == called;
    PrefixTrace(trace, |called|, minInterval);
    PrefixTrace(called, |start|, minInterval);
    WritesAreSpaced(start, minInterval);
    WritesAreSpaced(called, minInterval);
    TimersSettle(called, timers, minInterval);
  }

  // ---------- timers that are late ----------

  /** The setter is called less than `slack` after the moment a timer was due, if it has not fired by then. */
  ghost predicate TimersFireWithin(trace: seq<Event>, minInterval: int, slack: int) {
    forall k :: 0 <= k < |trace| && trace[k].Set? ==>
      var s := Run(trace[..k], minInterval); s.due.Some? ==> trace[k].at < s.due.value + slack
  }

  ghost predicate AlwaysSpaced(minInterval: int, slack: int) {
    forall trace: seq<Event> :: ValidTrace(trace, minInterval) && TimersFireWithin(trace, minInterval, slack) ==>
      Spaced(Writes(trace, minInterval), minInterval)
  }

  function Overdue(minInterval: int): seq<Event> {
    [Set(1.0, 0), Set(2.0, 0), Set(3.0, minInterval), Fire(minInterval)]
  }

  /** A call that finds its timer overdue writes, and then the timer writes an older value at the same instant. */
  lemma OverdueTimerBreaksSpacing(minInterval: int)
    requires minInterval > 0
    ensures var trace := Overdue(minInterval);
      && ValidTrace(trace, minInterval) && TimersFireWithin(trace, minInterval, 1)
      && Writes(trace, minInterval) == [Write(1.0, 0), Write(3.0, minInterval), Write(2.0, minInterval)]
  {
    var trace := Overdue(minInterval);
    OverdueRun(minInterval);
    assert trace[..4] == trace;
    assert Step(Run(trace[..3], minInterval), trace[3], minInterval).1 == Some(2.0);
    Wrote(trace, 3, minInterval);
    assert trace[0].at <= trace[1].at <= trace[2].at <= trace[3].at;
  }

  lemma Wrote(trace: seq<Event>, n: nat, minInterval: int)
    requires n < |trace|
    ensures Run(trace[..n + 1], minInterval) == Step(Run(trace[..n], minInterval), trace[n], minInterval).0
    ensures var written := Step(Run(trace[..n], minInterval), trace[n], minInterval).1;
      Writes(trace[..n + 1], minInterval)
        == Writes(trace[..n], minInterval) + if written.Some? then [Write(written.value, trace[n].at)] else []
  {
    hide Step;
    assert trace[..n + 1][..n] == trace[..n];
  }

  lemma OverdueRun(minInterval: int)
    requires minInterval > 0
    ensures var trace := Overdue(minInterval);
      && Run(trace[..0], minInterval) == INITIAL
      && Run(trace[..1], minInterval) == Setter(Some(1.0), Some(0), None, None)
      && Run(trace[..2], minInterval) == Setter(Some(1.0), Some(0), Some(2.0), Some(minInterval))
      && Run(trace[..3], minInterval) == Setter(Some(3.0), Some(minInterval), Some(2.0), Some(minInterval))
      && Writes(trace[..3], minInterval) == [Write(1.0, 0), Write(3.0, minInterval)]
  {
    hide Run, Writes;
    var trace := Overdue(minInterval);
    Start(trace, minInterval);
    Wrote(trace, 0, minInterval);
    Wrote(trace, 1, minInterval);
    Wrote(trace, 2, minInterval);
  }

  lemma Start(trace: seq<Event>, minInterval: int)
    ensures Run(trace[..0], minInterval) == INITIAL && Writes(trace[..0], minInterval) == []
  {
  }

  /** Writes are spaced in every trace if and only if no timer may fire after a call made when it was due. */
  lemma SpacedIffTimersOnTime(minInterval: int, slack: int)
    requires minInterval > 0
    ensures AlwaysSpaced(minInterval, slack) <==> slack <= 0
  {
    if slack <= 0 {
      forall trace: seq<Event> | ValidTrace(trace, minInterval) && TimersFireWithin(trace, minInterval, slack)
        ensures Spaced(Writes(trace, minInterval), minInterval)
      {
        assert TimersFireInTime(trace, minInterval);
        WritesAreSpaced(trace, minInterval);
      }
    } else {
      OverdueTimerBreaksSpacing(minInterval);
      var trace := Overdue(minInterval);
      assert TimersFireWithin(trace, minInterval, slack);
      var writes := Writes(trace, minInterval);
      assert writes[2].at - writes[1].at == 0;
      assert !Spaced(writes, minInterval);
    }
  }
}

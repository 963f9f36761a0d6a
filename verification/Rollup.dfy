/**
  The hourly-maximum rollup of household load: src/core/smart-charging/rollup.ts, pruned as in
  src/core/lifecycle.ts. Local days and hours are given functions of the instant.
 */
module Rollup {
  import opened Prelude

  const DAY_MS := 86_400_000

  datatype Row = Row(date: int, hour: int, maxPhaseA: real)

  /** The site's calendar: which local day and which hour of day an instant falls in. */
  datatype Calendar = Calendar(day: int -> int, hour: int -> int) {
    /** Later instants never fall on earlier days. */
    ghost predicate Monotone() {
      forall a: int, b: int :: a <= b ==> day(a) <= day(b)
    }
  }

  /** `INSERT ... ON CONFLICT(date, hour) DO UPDATE SET max_phase_a = MAX(...)`. */
  function Upsert(rows: seq<Row>, date: int, hour: int, a: real): seq<Row> {
    if rows == [] then [Row(date, hour, a)]
    else if rows[0].date == date && rows[0].hour == hour then [Row(date, hour, Max(rows[0].maxPhaseA, a))] + rows[1..]
    else [rows[0]] + Upsert(rows[1..], date, hour, a)
  }

  /** `DELETE ... WHERE date < cutoff`. */
  function DeleteBefore(rows: seq<Row>, cutoff: int): seq<Row> {
    if rows == [] then []
    else (if rows[0].date < cutoff then [] else [rows[0]]) + DeleteBefore(rows[1..], cutoff)
  }

  function Larger(a: Option<real>, b: Option<real>): Option<real> {
    if a.None? then b else if b.None? then a else Some(Max(a.value, b.value))
  }

  /** `SELECT MAX(max_phase_a) ... WHERE hour = ? AND date >= ?`. */
  function MaxLoad(rows: seq<Row>, hour: int, from: int): Option<real> {
    if rows == [] then None
    else Larger(if rows[0].hour == hour && rows[0].date >= from then Some(rows[0].maxPhaseA) else None,
                MaxLoad(rows[1..], hour, from))
  }

  predicate Matches(row: Row, hour: int, from: int) {
    row.hour == hour && row.date >= from
  }

  /** The largest load of the rows that match, and nothing when none does. */
  ghost predicate IsLargest(worst: Option<real>, rows: seq<Row>, hour: int, from: int) {
    match worst
    case None => forall row :: row in rows ==> !Matches(row, hour, from)
    case Some(load) =>
      && (exists row :: row in rows && Matches(row, hour, from) && row.maxPhaseA == load)
      && (forall row :: row in rows && Matches(row, hour, from) ==> row.maxPhaseA <= load)
  }

  lemma {:induction false} MaxLoadIsLargest(rows: seq<Row>, hour: int, from: int)
    ensures IsLargest(MaxLoad(rows, hour, from), rows, hour, from)
  {
    if rows != [] {
      var rest := rows[1..];
      MaxLoadIsLargest(rest, hour, from);
      assert forall row :: row in rows <==> row == rows[0] || row in rest;
      var worst := MaxLoad(rest, hour, from);
      if worst.Some? {
        var row :| row in rest && Matches(row, hour, from) && row.maxPhaseA == worst.value;
        assert row in rows;
      }
      assert rows[0] in rows;
    }
  }

  class HouseholdLoad {
    const calendar: Calendar
    var rows: seq<Row>

    constructor (calendar: Calendar)
      ensures this.calendar == calendar && rows == []
    {
      this.calendar, rows := calendar, [];
    }

    method Record(at: int, maxPhaseA: real)
      modifies this
      ensures rows == Apply(calendar, old(rows), Event.Record(at, maxPhaseA))
    {
      if maxPhaseA < 0.0 {
        return;
      }
      rows := Upsert(rows, calendar.day(at), calendar.hour(at), maxPhaseA);
    }

    method Prune(now: int, keepDays: int)
      modifies this
      ensures rows == Apply(calendar, old(rows), Event.Prune(now, keepDays))
    {
      var cutoff := now - keepDays * DAY_MS;
      rows := DeleteBefore(rows, calendar.day(cutoff));
    }

    method WorstCaseLoadA(at: int, historicalDays: int) returns (worst: Option<real>)
      ensures IsLargest(worst, rows, calendar.hour(at), calendar.day(at - (historicalDays - 1) * DAY_MS))
      ensures worst == WorstCase(calendar, rows, at, historicalDays)
    {
      var earliest := at - (historicalDays - 1) * DAY_MS;
      worst := MaxLoad(rows, calendar.hour(at), calendar.day(earliest));
      MaxLoadIsLargest(rows, calendar.hour(at), calendar.day(earliest));
    }
  }

  // ---------- histories ----------

  datatype Event = Record(at: int, maxPhaseA: real) | Prune(now: int, keepDays: int)

  function Apply(c: Calendar, rows: seq<Row>, e: Event): seq<Row> {
    match e
    case Record(at, a) => if a < 0.0 then rows else Upsert(rows, c.day(at), c.hour(at), a)
    case Prune(now, keepDays) => DeleteBefore(rows, c.day(now - keepDays * DAY_MS))
  }

  function Run(c: Calendar, events: seq<Event>): seq<Row> {
    if events == [] then [] else Apply(c, Run(c, events[..|events| - 1]), events[|events| - 1])
  }

  function WorstCase(c: Calendar, rows: seq<Row>, at: int, historicalDays: int): Option<real> {
    MaxLoad(rows, c.hour(at), c.day(at - (historicalDays - 1) * DAY_MS))
  }

  /** A raw sample that counts for a query at `at`: not negative, same hour of day, in the look-back window. */
  ghost predicate Counts(c: Calendar, e: Event, at: int, historicalDays: int) {
    && e.Record? && e.maxPhaseA >= 0.0
    && c.hour(e.at) == c.hour(at) && c.day(e.at) >= c.day(at - (historicalDays - 1) * DAY_MS)
  }

  /** The largest raw sample that counts. */
  ghost predicate IsWorstSample(c: Calendar, events: seq<Event>, at: int, historicalDays: int, worst: Option<real>) {
    && (worst.None? <==> forall e :: e in events ==> !Counts(c, e, at, historicalDays))
    && (worst.Some? ==>
         && (exists e :: e in events && Counts(c, e, at, historicalDays) && e.maxPhaseA == worst.value)
         && (forall e :: e in events && Counts(c, e, at, historicalDays) ==> e.maxPhaseA <= worst.value))
  }

  /** Pruning that keeps the window of a later query. */
  ghost predicate KeepsWindow(events: seq<Event>, at: int, historicalDays: int) {
    forall e :: e in events && e.Prune? ==> e.keepDays >= historicalDays - 1 && e.now <= at
  }

  lemma {:induction false} UpsertMax(rows: seq<Row>, date: int, h: int, a: real, hour: int, from: int)
    ensures MaxLoad(Upsert(rows, date, h, a), hour, from)
      == Larger(MaxLoad(rows, hour, from), if h == hour && date >= from then Some(a) else None)
  {
    if rows != [] {
      if rows[0].date == date && rows[0].hour == h {
        assert ([Row(date, h, Max(rows[0].maxPhaseA, a))] + rows[1..])[1..] == rows[1..];
      } else {
        UpsertMax(rows[1..], date, h, a, hour, from);
        assert ([rows[0]] + Upsert(rows[1..], date, h, a))[1..] == Upsert(rows[1..], date, h, a);
      }
    }
  }

  lemma {:induction false} DeleteKeepsMax(rows: seq<Row>, cutoff: int, hour: int, from: int)
    requires cutoff <= from
    ensures MaxLoad(DeleteBefore(rows, cutoff), hour, from) == MaxLoad(rows, hour, from)
  {
    if rows != [] {
      DeleteKeepsMax(rows[1..], cutoff, hour, from);
      assert ([rows[0]] + DeleteBefore(rows[1..], cutoff))[1..] == DeleteBefore(rows[1..], cutoff);
      assert [] + DeleteBefore(rows[1..], cutoff) == DeleteBefore(rows[1..], cutoff);
    }
  }

  /** One more sample. */
  lemma OneMoreSample(c: Calendar, events: seq<Event>, e: Event, at: int, historicalDays: int, worst: Option<real>)
    requires IsWorstSample(c, events, at, historicalDays, worst)
    ensures IsWorstSample(c, events + [e], at, historicalDays,
      Larger(worst, if Counts(c, e, at, historicalDays) then Some(e.maxPhaseA) else None))
  {
    var all := events + [e];
    assert e in all && forall x :: x in all <==> x in events || x == e;
    if worst.Some? {
      var w :| w in events && Counts(c, w, at, historicalDays) && w.maxPhaseA == worst.value;
      assert w in all;
    }
  }

  /** After any interleaving of samples and prunings that keep the window, the rollup answers exactly what
      the raw samples would: their maximum, or nothing when none counts. */
  lemma {:induction false} RollupRefinesRawHistory(c: Calendar, events: seq<Event>, at: int, historicalDays: int)
    requires c.Monotone() && KeepsWindow(events, at, historicalDays)
    ensures IsWorstSample(c, events, at, historicalDays, WorstCase(c, Run(c, events), at, historicalDays))
  {
    if events != [] {
      var last := |events| - 1;
      var before, e := events[..last], events[last];
      assert events == before + [e];
      RollupRefinesRawHistory(c, before, at, historicalDays);
      var hour, from := c.hour(at), c.day(at - (historicalDays - 1) * DAY_MS);
      OneMoreSample(c, before, e, at, historicalDays, WorstCase(c, Run(c, before), at, historicalDays));
      match e
      case Record(sampled, a) =>
        UpsertMax(Run(c, before), c.day(sampled), c.hour(sampled), a, hour, from);
      case Prune(now, keepDays) =>
        assert e in events;
        assert now - keepDays * DAY_MS <= at - (historicalDays - 1) * DAY_MS;
        DeleteKeepsMax(Run(c, before), c.day(now - keepDays * DAY_MS), hour, from);
    }
  }

  /** Fewer days kept than looked back at lose a sample, here on the calendar of UTC. */
  lemma ShortKeepLosesSamples(historicalDays: int, keepDays: int)
    requires 0 <= keepDays < historicalDays - 1
    ensures var c := Calendar(t => t / DAY_MS, t => t % DAY_MS / 3_600_000);
      var now := (historicalDays - 1) * DAY_MS;
      var events := [Record(0, 20.0), Prune(now, keepDays)];
      && c.Monotone()
      && WorstCase(c, Run(c, events), now, historicalDays).None?
      && IsWorstSample(c, events, now, historicalDays, Some(20.0))
  {
    var c := Calendar(t => t / DAY_MS, t => t % DAY_MS / 3_600_000);
    var now := (historicalDays - 1) * DAY_MS;
    var events := [Record(0, 20.0), Prune(now, keepDays)];
    assert events[..1] == [events[0]] && events[..1][..0] == [];
    assert Run(c, events[..1]) == [Row(0, 0, 20.0)];
    assert (now - keepDays * DAY_MS) / DAY_MS == historicalDays - 1 - keepDays;
    assert DeleteBefore([Row(0, 0, 20.0)], historicalDays - 1 - keepDays)
        == [] + DeleteBefore([], historicalDays - 1 - keepDays);
    assert events[0] in events && Counts(c, events[0], now, historicalDays);
  }
}

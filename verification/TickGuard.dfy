/** The per-circuit concurrency guard of `circuitTick` in src/core/lifecycle.ts. */
module TickGuard {
  import opened Prelude

  /** Circuit objects are compared by identity; a rebuild makes a new one with the same id. */
  type Circuit = nat

  /** A slot, and the circuit object the running tick was called with. */
  datatype Slot = Slot(running: bool, rerun: bool, current: Option<Circuit>)

  type Slots = map<string, Slot>

  datatype Event = Request(id: string, circuit: Circuit) | Finish(id: string)

  function SlotOf(slots: Slots, id: string): Slot {
    if id in slots then slots[id] else Slot(false, false, None)
  }

  /** The new slots, and the circuit a tick was started with, if one was. */
  function Step(slots: Slots, e: Event): (Slots, Option<Circuit>) {
    var slot := SlotOf(slots, e.id);
    match e
    case Request(id, circuit) =>
      if slot.running then (slots[id := slot.(rerun := true)], None)
      else (slots[id := slot.(running := true, current := Some(circuit))], Some(circuit))
    case Finish(id) =>
      if slot.rerun && slot.current.Some? then (slots[id := Slot(true, false, slot.current)], slot.current)
      else (slots[id := Slot(false, false, None)], None)
  }

  class Guard {
    var slots: Slots

    constructor ()
      ensures slots == map[]
    {
      slots := map[];
    }

    /** The entry of `circuitTick`: start, or ask the running tick for a rerun. */
    method Enter(id: string, circuit: Circuit) returns (started: Option<Circuit>)
      modifies this
      ensures (slots, started) == Step(old(slots), Request(id, circuit))
    {
      var slot := SlotOf(slots, id);
      if slot.running {
        slots := slots[id := slot.(rerun := true)];
        return None;
      }
      slots := slots[id := slot.(running := true, current := Some(circuit))];
      started := Some(circuit);
    }

    /** Its `finally` block: release the slot, then re-enter with the finishing tick's own circuit. */
    method Leave(id: string) returns (started: Option<Circuit>)
      requires Healthy(slots) && SlotOf(slots, id).running
      modifies this
      ensures (slots, started) == Step(old(slots), Finish(id)) && Healthy(slots)
    {
      var slot := SlotOf(slots, id);
      var circuit := slot.current;
      ghost var before := slots;
      slots := slots[id := Slot(false, slot.rerun, None)];
      started := None;
      if slot.rerun {
        slots := slots[id := Slot(false, false, None)];
        started := Enter(id, circuit.value);
        assert slots == before[id := Slot(true, false, circuit)];
      }
    }
  }

  // ---------- traces ----------

  ghost predicate Healthy(slots: Slots) {
    forall id :: id in slots ==>
      && (slots[id].rerun ==> slots[id].running)
      && (slots[id].running <==> slots[id].current.Some?)
  }

  function Run(trace: seq<Event>): Slots {
    if trace == [] then map[] else Step(Run(trace[..|trace| - 1]), trace[|trace| - 1]).0
  }

  /** Only running ticks finish. */
  ghost predicate ValidTrace(trace: seq<Event>) {
    forall k :: 0 <= k < |trace| && trace[k].Finish? ==> SlotOf(Run(trace[..k]), trace[k].id).running
  }

  function StartedAt(trace: seq<Event>, k: nat): Option<Circuit>
    requires k < |trace|
  {
    Step(Run(trace[..k]), trace[k]).1
  }

  predicate StartsAt(trace: seq<Event>, id: string, k: nat)
    requires k < |trace|
  {
    trace[k].id == id && StartedAt(trace, k).Some?
  }

  function Starts(trace: seq<Event>, id: string): nat {
    if trace == [] then 0
    else Starts(trace[..|trace| - 1], id) + if StartsAt(trace, id, |trace| - 1) then 1 else 0
  }

  function Finishes(trace: seq<Event>, id: string): nat {
    if trace == [] then 0
    else Finishes(trace[..|trace| - 1], id) + if trace[|trace| - 1] == Finish(id) then 1 else 0
  }

  function Requests(trace: seq<Event>, id: string): nat {
    if trace == [] then 0
    else
      Requests(trace[..|trace| - 1], id)
      + (if trace[|trace| - 1].Request? && trace[|trace| - 1].id == id then 1 else 0)
  }

  lemma ShorterIsValid(trace: seq<Event>)
    requires trace != [] && ValidTrace(trace)
    ensures ValidTrace(trace[..|trace| - 1])
  {
    var before := trace[..|trace| - 1];
    forall k | 0 <= k < |before| && before[k].Finish? ensures SlotOf(Run(before[..k]), before[k].id).running {
      assert before[..k] == trace[..k];
    }
  }

  lemma {:induction false} StaysHealthy(trace: seq<Event>)
    requires ValidTrace(trace)
    ensures Healthy(Run(trace))
  {
    if trace != [] {
      ShorterIsValid(trace);
      StaysHealthy(trace[..|trace| - 1]);
    }
  }

  /** Per circuit id at most one tick is under way, and no tick runs that was not asked for. */
  lemma {:induction false} TicksNeverOverlap(trace: seq<Event>, id: string)
    requires ValidTrace(trace)
    ensures var slot := SlotOf(Run(trace), id);
      && Starts(trace, id) - Finishes(trace, id) == (if slot.running then 1 else 0)
      && Starts(trace, id) + (if slot.rerun then 1 else 0) <= Requests(trace, id)
  {
    if trace != [] {
      ShorterIsValid(trace);
      TicksNeverOverlap(trace[..|trace| - 1], id);
      StaysHealthy(trace[..|trace| - 1]);
    }
  }

  /** Some tick of the request's circuit starts with the request or after it. */
  ghost predicate Served(trace: seq<Event>, id: string, k: nat) {
    exists j :: k <= j < |trace| && StartsAt(trace, id, j)
  }

  lemma {:induction false} ServedOrPending(trace: seq<Event>, id: string, k: nat)
    requires ValidTrace(trace) && k < |trace| && trace[k].Request? && trace[k].id == id
    ensures Served(trace, id, k) || SlotOf(Run(trace), id).rerun
  {
    ShorterIsValid(trace);
    var last := |trace| - 1;
    var before := trace[..last];
    StaysHealthy(before);
    if k < last {
      ServedOrPending(before, id, k);
      if Served(before, id, k) {
        var j :| k <= j < |before| && StartsAt(before, id, j);
        assert before[..j] == trace[..j];
        assert StartsAt(trace, id, j);
      } else if trace[last] == Finish(id) {
        assert StartsAt(trace, id, last);
      }
    } else if !SlotOf(Run(before), id).running {
      assert StartsAt(trace, id, last);
    }
  }

  /** No request is lost: once the circuit is idle again, a tick has started after every one of them. */
  lemma EveryRequestIsServed(trace: seq<Event>, id: string, k: nat)
    requires ValidTrace(trace) && !SlotOf(Run(trace), id).running
    requires k < |trace| && trace[k].Request? && trace[k].id == id
    ensures Served(trace, id, k)
  {
    ServedOrPending(trace, id, k);
    StaysHealthy(trace);
  }

  /** What a request may expect of the first tick that serves it. */
  function Expected(trace: seq<Event>, k: nat): Option<Circuit>
    requires k < |trace| && trace[k].Request?
  {
    var slot := SlotOf(Run(trace[..k]), trace[k].id);
    if slot.running then slot.current else Some(trace[k].circuit)
  }

  /** A busy slot that starts nothing stays busy with the same object; a request leaves it to be rerun. */
  lemma BusyStep(slots: Slots, e: Event, id: string)
    requires Healthy(slots) && SlotOf(slots, id).running
    requires e == Finish(id) ==> Step(slots, e).1.None? && SlotOf(slots, id).rerun
    ensures var before, after := SlotOf(slots, id), SlotOf(Step(slots, e).0, id);
      after == Slot(true, before.rerun || e.id == id, before.current)
  {
  }

  ghost predicate NoStartAfter(trace: seq<Event>, id: string, k: int) {
    forall j :: 0 <= j < |trace| && k < j ==> !StartsAt(trace, id, j)
  }

  lemma NoStartInPrefix(trace: seq<Event>, id: string, k: int, n: nat)
    requires NoStartAfter(trace, id, k) && n <= |trace|
    ensures NoStartAfter(trace[..n], id, k)
  {
    forall j | 0 <= j < n && k < j ensures !StartsAt(trace[..n], id, j) {
      assert trace[..n][..j] == trace[..j];
      assert !StartsAt(trace, id, j);
    }
  }

  /** What a trace without a start after `k` says about all but its last event. */
  lemma BusyPrefix(trace: seq<Event>, id: string, k: nat)
    requires ValidTrace(trace) && k < |trace| && NoStartAfter(trace, id, k)
    ensures var last := |trace| - 1;
      var before := trace[..last];
      && ValidTrace(before) && Healthy(Run(before)) && NoStartAfter(before, id, k) && before[..k] == trace[..k]
      && Run(trace) == Step(Run(before), trace[last]).0
      && (k < last && trace[last] == Finish(id) ==> Step(Run(before), trace[last]).1.None?)
  {
    ShorterIsValid(trace);
    StaysHealthy(trace[..|trace| - 1]);
    NoStartInPrefix(trace, id, k, |trace| - 1);
    assert k < |trace| - 1 ==> !StartsAt(trace, id, |trace| - 1);
  }

  lemma {:induction false} RerunKeepsCircuit(trace: seq<Event>, id: string, k: nat)
    requires ValidTrace(trace) && k < |trace| && trace[k].Request? && trace[k].id == id
    requires SlotOf(Run(trace[..k]), id).running && NoStartAfter(trace, id, k)
    ensures SlotOf(Run(trace), id) == Slot(true, true, SlotOf(Run(trace[..k]), id).current)
  {
    hide *;
    BusyPrefix(trace, id, k);
    var before := trace[..|trace| - 1];
    if k < |before| {
      RerunKeepsCircuit(before, id, k);
    }
    BusyStep(Run(before), trace[|before|], id);
  }

  /** The guarantee is per id, not per circuit object: the first tick that serves a request uses the
      request's own object exactly when the circuit was idle or its running tick has the same object. */
  lemma ServedWithOwnCircuitIff(trace: seq<Event>, id: string, k: nat, j: nat)
    requires ValidTrace(trace) && k <= j < |trace| && trace[k].Request? && trace[k].id == id
    requires StartsAt(trace, id, j) && forall i :: k <= i < j ==> !StartsAt(trace, id, i)
    ensures StartedAt(trace, j) == Expected(trace, k)
    ensures StartedAt(trace, j) == Some(trace[k].circuit) <==>
      var slot := SlotOf(Run(trace[..k]), id); !slot.running || slot.current == Some(trace[k].circuit)
  {
    var before := trace[..j];
    PrefixIsValid(trace, j);
    if k < j {
      assert !StartsAt(trace, id, k);
      assert before[..k] == trace[..k];
      forall i | 0 <= i < j && k < i ensures !StartsAt(before, id, i) {
        assert before[..i] == trace[..i];
        assert !StartsAt(trace, id, i);
      }
      RerunKeepsCircuit(before, id, k);
    }
  }

  lemma {:induction false} PrefixIsValid(trace: seq<Event>, n: nat)
    requires ValidTrace(trace) && n <= |trace|
    ensures ValidTrace(trace[..n])
  {
    forall k | 0 <= k < n && trace[..n][k].Finish? ensures SlotOf(Run(trace[..n][..k]), trace[..n][k].id).running {
      assert trace[..n][..k] == trace[..k];
    }
  }
}

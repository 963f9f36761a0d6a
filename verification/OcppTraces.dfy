/** What the station machine keeps over every trace of its events. */
module OcppTraces {
  import opened Prelude
  import opened SessionReconciler
  import opened OcppPersistence
  import opened OcppServer

  const EMPTY := Server(map[], map[], map[], map[], Db(1, [], []))

  function Run(s: Server, trace: seq<Event>): Server {
    if trace == [] then s else Step(Run(s, trace[..|trace| - 1]), trace[|trace| - 1]).0
  }

  lemma {:induction false} RunConcat(s: Server, a: seq<Event>, b: seq<Event>)
    ensures Run(s, a + b) == Run(Run(s, a), b)
  {
    if b == [] {
      assert a + b == a;
    } else {
      var last := |b| - 1;
      assert (a + b)[..|a + b| - 1] == a + b[..last];
      RunConcat(s, a, b[..last]);
    }
  }

  // ---------- the registry ----------

  /** A socket attaches at most once. */
  ghost predicate FreshSockets(trace: seq<Event>) {
    forall i, j :: 0 <= i < j < |trace| && trace[i].Attach? && trace[j].Attach? ==> trace[i].socket != trace[j].socket
  }

  /** Event `k` attached the socket, no later event attached another one for the station, and this very
      socket has not disconnected since. */
  ghost predicate AttachedLastAndLive(trace: seq<Event>, stationId: string, socket: Socket, k: nat) {
    && k < |trace| && trace[k] == Attach(socket, stationId)
    && forall j :: k < j < |trace| ==>
         !(trace[j].Attach? && trace[j].stationId == stationId) && trace[j] != Disconnect(socket)
  }

  ghost predicate Newest(trace: seq<Event>, stationId: string, socket: Socket) {
    exists k: nat :: AttachedLastAndLive(trace, stationId, socket, k)
  }

  /** The station a socket attached for is the one its connection names. */
  ghost predicate Attached(trace: seq<Event>, socket: Socket, stationId: string) {
    exists k :: 0 <= k < |trace| && trace[k] == Attach(socket, stationId)
  }

  /** Only an attach adds a connection, and no step changes which station one is for. */
  lemma StepConnections(s: Server, e: Event, socket: Socket)
    ensures var t := Step(s, e).0;
      if e.Attach? && e.socket == socket
      then socket in t.connections && t.connections[socket].stationId == e.stationId
      else && (socket in t.connections <==> socket in s.connections)
           && (socket in s.connections ==> t.connections[socket].stationId == s.connections[socket].stationId)
  {
  }

  lemma {:induction false} ConnectionsAreAttached(trace: seq<Event>, socket: Socket)
    requires FreshSockets(trace)
    ensures var s := Run(EMPTY, trace);
      && (socket in s.connections ==> Attached(trace, socket, s.connections[socket].stationId))
      && forall id :: Attached(trace, socket, id) ==> socket in s.connections && s.connections[socket].stationId == id
  {
    hide Step;
    if trace != [] {
      var last := |trace| - 1;
      var before := trace[..last];
      ConnectionsAreAttached(before, socket);
      StepConnections(Run(EMPTY, before), trace[last], socket);
      var s := Run(EMPTY, before);
      if socket in s.connections {
        var k :| 0 <= k < |before| && before[k] == Attach(socket, s.connections[socket].stationId);
        assert trace[k] == before[k];
      }
      assert trace[last].Attach? ==> Attached(trace, trace[last].socket, trace[last].stationId);
      forall id | Attached(trace, socket, id)
        ensures Attached(before, socket, id) || trace[last] == Attach(socket, id)
      {
        var k :| 0 <= k < |trace| && trace[k] == Attach(socket, id);
        assert k < last ==> before[k] == trace[k];
      }
    }
  }

  /** A step other than an attach or the disconnect of the registered socket leaves the registry alone. */
  lemma StepRegistry(s: Server, e: Event)
    ensures Step(s, e).0.stations ==
      if e.Attach? then s.stations[e.stationId := e.socket]
      else if e.Disconnect? && e.socket in s.connections && s.connections[e.socket].stationId in s.stations
              && s.stations[s.connections[e.socket].stationId] == e.socket
      then s.stations - {s.connections[e.socket].stationId}
      else s.stations
  {
  }

  lemma NewestStep(trace: seq<Event>, stationId: string, socket: Socket)
    requires trace != []
    ensures var last := |trace| - 1;
      Newest(trace, stationId, socket) <==>
        || trace[last] == Attach(socket, stationId)
        || (Newest(trace[..last], stationId, socket) && trace[last] != Disconnect(socket)
            && !(trace[last].Attach? && trace[last].stationId == stationId))
  {
    var last := |trace| - 1;
    if k: nat :| AttachedLastAndLive(trace, stationId, socket, k) {
      if k < last {
        assert AttachedLastAndLive(trace[..last], stationId, socket, k);
      }
    }
    if trace[last] == Attach(socket, stationId) {
      assert AttachedLastAndLive(trace, stationId, socket, last);
    } else if Newest(trace[..last], stationId, socket) && trace[last] != Disconnect(socket)
              && !(trace[last].Attach? && trace[last].stationId == stationId) {
      var k: nat :| AttachedLastAndLive(trace[..last], stationId, socket, k);
      assert AttachedLastAndLive(trace, stationId, socket, k);
    }
  }

  /** Under every interleaving of connects, disconnects and messages, a station is reached by its newest
      socket, and by none exactly if that very socket has disconnected. */
  lemma {:induction false} RegistryTracksNewestSocket(trace: seq<Event>, stationId: string, socket: Socket)
    requires FreshSockets(trace)
    ensures var s := Run(EMPTY, trace);
      (stationId in s.stations && s.stations[stationId] == socket) <==> Newest(trace, stationId, socket)
  {
    if trace != [] {
      var last := |trace| - 1;
      var before := trace[..last];
      RegistryTracksNewestSocket(before, stationId, socket);
      NewestStep(trace, stationId, socket);
      StepRegistry(Run(EMPTY, before), trace[last]);
      if trace[last] == Disconnect(socket) {
        ConnectionsAreAttached(before, socket);
        if k: nat :| AttachedLastAndLive(before, stationId, socket, k) {
          assert Attached(before, socket, stationId);
        }
      } else if trace[last].Disconnect? && Newest(before, stationId, socket) {
        ConnectionsAreAttached(before, socket);
      }
    }
  }

  // ---------- auto-start ----------

  predicate StartsSession(outputs: seq<Output>, socket: Socket) {
    exists o :: o in outputs && o.AutoStart? && o.socket == socket
  }

  /** How often a run remote-starts a session on a socket by itself. */
  ghost function AutoStarts(s: Server, trace: seq<Event>, socket: Socket): nat {
    if trace == [] then 0
    else
      var last := |trace| - 1;
      AutoStarts(s, trace[..last], socket)
      + if StartsSession(Step(Run(s, trace[..last]), trace[last]).1, socket) then 1 else 0
  }

  ghost predicate StaysPluggedIn(trace: seq<Event>, socket: Socket) {
    forall k :: 0 <= k < |trace| ==>
      && !(trace[k].Attach? && trace[k].socket == socket)
      && !(trace[k].StatusNotification? && trace[k].socket == socket && trace[k].status.Available?)
  }

  /** Between two Available notifications of a connection at most one session is auto-started. */
  lemma {:induction false} AutoStartsOncePerPlugIn(s: Server, trace: seq<Event>, socket: Socket)
    requires socket in s.connections && StaysPluggedIn(trace, socket)
    ensures var end := Run(s, trace);
      && socket in end.connections
      && AutoStarts(s, trace, socket) + (if s.connections[socket].hasAutoStarted then 1 else 0)
           == (if end.connections[socket].hasAutoStarted then 1 else 0)
  {
    if trace != [] {
      var last := |trace| - 1;
      AutoStartsOncePerPlugIn(s, trace[..last], socket);
      OneAutoStart(Run(s, trace[..last]), trace[last], socket);
    }
  }

  lemma OneAutoStart(s: Server, e: Event, socket: Socket)
    requires socket in s.connections && StaysPluggedIn([e], socket)
    ensures var (next, outputs) := Step(s, e);
      && socket in next.connections
      && (StartsSession(outputs, socket) <==>
           !s.connections[socket].hasAutoStarted && next.connections[socket].hasAutoStarted)
      && (s.connections[socket].hasAutoStarted ==> next.connections[socket].hasAutoStarted)
  {
    assert [e][0] == e;
    var (next, outputs) := Step(s, e);
    if e.StatusNotification? && e.socket in s.connections && |outputs| == 2 {
      assert outputs[1] in outputs;
    }
  }

  /** After an unplug the next plug-in of an enabled charger always gets its session, whatever transaction id
      the connection was holding on to. */
  lemma UnplugReArmsAutoStart(s: Server, socket: Socket, connectorId: int, now: int, later: int)
    requires socket in s.connections && s.connections[socket].autoStart
    ensures var unplugged := Step(s, StatusNotification(socket, connectorId, Available, now)).0;
      && unplugged.connections[socket].activeTransactionId.None?
      && AutoStart(socket, connectorId) in Step(unplugged, StatusNotification(socket, connectorId, Preparing, later)).1
  {
    var unplugged := Step(s, StatusNotification(socket, connectorId, Available, now)).0;
    var outputs := Step(unplugged, StatusNotification(socket, connectorId, Preparing, later)).1;
    assert outputs[1] == AutoStart(socket, connectorId);
  }

  // ---------- the transaction table ----------

  lemma StepKeepsTableValid(s: Server, e: Event)
    requires Valid(s.db)
    ensures Valid(Step(s, e).0.db)
    ensures forall o :: o in Step(s, e).1 ==> !o.DuplicateId?
  {
    if e.StartTransaction? && e.socket in s.connections {
      FindSound(s.db.transactions, s.db.nextTransactionId);
    }
  }

  lemma {:induction false} RunKeepsTableValid(s: Server, trace: seq<Event>)
    requires Valid(s.db)
    ensures Valid(Run(s, trace).db)
  {
    if trace != [] {
      var last := |trace| - 1;
      RunKeepsTableValid(s, trace[..last]);
      StepKeepsTableValid(Run(s, trace[..last]), trace[last]);
    }
  }

  /** Over every trace the counter stays ahead of all stored ids, so no start is ever refused. */
  lemma IdsNeverCollide(s: Server, trace: seq<Event>, k: nat)
    requires Valid(s.db) && k < |trace|
    ensures Valid(Run(s, trace[..k]).db)
    ensures forall o :: o in Step(Run(s, trace[..k]), trace[k]).1 ==> !o.DuplicateId?
  {
    RunKeepsTableValid(s, trace[..k]);
    StepKeepsTableValid(Run(s, trace[..k]), trace[k]);
  }

  // ---------- closed rows and recorded energies ----------

  /** A StopTransaction of a known socket for the row's id that says something else than the row. */
  predicate Rewrites(s: Server, e: Event, row: Transaction) {
    && e.StopTransaction? && e.socket in s.connections && e.stoppedId == row.id
    && (row.endTime != Some(e.timestamp)
        || row.energyKwh != Some((e.meterStop - MeterStartWh(s.db.transactions, row.id)) / 1000.0))
  }

  /** No event removes a row or changes what it started with. */
  lemma RowsStay(s: Server, e: Event, k: nat)
    requires k < |s.db.transactions|
    ensures var rows, row := Step(s, e).0.db.transactions, s.db.transactions[k];
      k < |rows| && rows[k] == row.(endTime := rows[k].endTime, energyKwh := rows[k].energyKwh)
  {
  }

  /** A step leaves a closed row alone exactly if it is not a StopTransaction that says otherwise. */
  lemma ClosedRowStaysIff(s: Server, e: Event, k: nat)
    requires Valid(s.db) && k < |s.db.transactions| && s.db.transactions[k].endTime.Some?
    ensures k < |Step(s, e).0.db.transactions|
    ensures Step(s, e).0.db.transactions[k] == s.db.transactions[k] <==> !Rewrites(s, e, s.db.transactions[k])
  {
    hide Valid;
    RowsStay(s, e, k);
    match e
    case StatusNotification(socket, _, _, now) =>
      if socket in s.connections && s.connections[socket].activeTransactionId.Some? {
        ClosingIsSafe(s.db, s.connections[socket].activeTransactionId.value, now, k);
      }
    case _ =>
  }

  predicate Names(e: Event, id: int) {
    e.StopTransaction? && e.stoppedId == id
  }

  /** A closed row that no StopTransaction names is never rewritten, over any run. */
  lemma {:induction false} ClosedRowSurvives(s: Server, trace: seq<Event>, k: nat)
    requires Valid(s.db) && k < |s.db.transactions| && s.db.transactions[k].endTime.Some?
    requires forall e :: e in trace ==> !Names(e, s.db.transactions[k].id)
    ensures k < |Run(s, trace).db.transactions| && Run(s, trace).db.transactions[k] == s.db.transactions[k]
  {
    hide Step, Valid;
    if trace != [] {
      var front, last := trace[..|trace| - 1], trace[|trace| - 1];
      assert last in trace && forall e :: e in front ==> e in trace;
      ClosedRowSurvives(s, front, k);
      RunKeepsTableValid(s, front);
      ClosedRowStaysIff(Run(s, front), last, k);
    }
  }

  /** A charger that repeats or invents a StopTransaction rewrites a row that was already closed. */
  lemma StopRewritesClosedRow(s: Server, socket: Socket, k: nat, meterStop: real, timestamp: int)
    requires Valid(s.db) && k < |s.db.transactions| && s.db.transactions[k].endTime.Some?
    requires socket in s.connections && s.db.transactions[k].endTime != Some(timestamp)
    ensures var e := StopTransaction(socket, s.db.transactions[k].id, meterStop, timestamp);
      k < |Step(s, e).0.db.transactions| && Step(s, e).0.db.transactions[k].endTime == Some(timestamp)
  {
  }

  /** Every recorded energy is at least 0. */
  ghost predicate EnergiesNonNegative(db: Db) {
    forall r :: r in db.transactions && r.energyKwh.Some? ==> r.energyKwh.value >= 0.0
  }

  /** A StopTransaction of a known socket for a stored id whose register is below the one it started at. */
  predicate StopsBelowStart(s: Server, e: Event) {
    && e.StopTransaction? && e.socket in s.connections && Find(s.db.transactions, e.stoppedId).Some?
    && e.meterStop < MeterStartWh(s.db.transactions, e.stoppedId)
  }

  /** A step records a negative energy exactly if it is such a StopTransaction. */
  lemma EnergiesStayNonNegativeIff(s: Server, e: Event)
    requires Valid(s.db) && EnergiesNonNegative(s.db)
    ensures EnergiesNonNegative(Step(s, e).0.db) <==> !StopsBelowStart(s, e)
  {
    if e.StopTransaction? && e.socket in s.connections {
      StopEnergies(s.db, e.stoppedId, e.meterStop, e.timestamp);
    } else {
      OtherEnergies(s, e);
    }
  }

  lemma StopEnergies(db: Db, id: int, meterStop: real, timestamp: int)
    requires EnergiesNonNegative(db)
    ensures EnergiesNonNegative(FinishTransaction(db, id, meterStop, timestamp))
       <==> !(Find(db.transactions, id).Some? && meterStop < MeterStartWh(db.transactions, id))
  {
    var after := FinishTransaction(db, id, meterStop, timestamp).transactions;
    FindSound(db.transactions, id);
    if Find(db.transactions, id).Some? && meterStop < MeterStartWh(db.transactions, id) {
      var k :| 0 <= k < |db.transactions| && db.transactions[k] == Find(db.transactions, id).value;
      assert after[k] in after && after[k].energyKwh.value < 0.0;
    } else {
      forall r | r in after && r.energyKwh.Some? ensures r.energyKwh.value >= 0.0 {
        var k :| 0 <= k < |after| && after[k] == r;
        assert db.transactions[k] in db.transactions;
      }
    }
  }

  lemma OtherEnergies(s: Server, e: Event)
    requires Valid(s.db) && EnergiesNonNegative(s.db) && !(e.StopTransaction? && e.socket in s.connections)
    ensures EnergiesNonNegative(Step(s, e).0.db)
  {
    var after := Step(s, e).0.db.transactions;
    forall r | r in after && r.energyKwh.Some? ensures r.energyKwh.value >= 0.0 {
      var k :| 0 <= k < |after| && after[k] == r;
      if k < |s.db.transactions| {
        assert s.db.transactions[k] in s.db.transactions;
        OldRowEnergy(s, e, k);
      }
    }
  }

  lemma OldRowEnergy(s: Server, e: Event, k: nat)
    requires Valid(s.db) && k < |s.db.transactions| && !(e.StopTransaction? && e.socket in s.connections)
    ensures k < |Step(s, e).0.db.transactions|
    ensures var before, after := s.db.transactions[k].energyKwh, Step(s, e).0.db.transactions[k].energyKwh;
      after == before || (after.Some? && after.value >= 0.0)
  {
    hide Valid;
    match e
    case StatusNotification(socket, _, _, now) =>
      if socket in s.connections && s.connections[socket].activeTransactionId.Some? {
        ClosingIsSafe(s.db, s.connections[socket].activeTransactionId.value, now, k);
      }
    case _ =>
  }

  /** Over every run whose chargers never stop below the start, no negative energy is recorded. */
  lemma {:induction false} RunKeepsEnergiesNonNegative(s: Server, trace: seq<Event>)
    requires Valid(s.db) && EnergiesNonNegative(s.db)
    requires forall k :: 0 <= k < |trace| ==> !StopsBelowStart(Run(s, trace[..k]), trace[k])
    ensures EnergiesNonNegative(Run(s, trace).db)
  {
    hide Step, Valid, StopsBelowStart, EnergiesNonNegative;
    if trace != [] {
      var last := |trace| - 1;
      forall k | 0 <= k < last ensures trace[..last][..k] == trace[..k] {
      }
      RunKeepsEnergiesNonNegative(s, trace[..last]);
      RunKeepsTableValid(s, trace[..last]);
      EnergiesStayNonNegativeIff(Run(s, trace[..last]), trace[last]);
    }
  }

  // ---------- stale transactions drain ----------

  /** Nothing happens on this socket, and nothing is started at this station. */
  ghost predicate Elsewhere(s: Server, trace: seq<Event>, socket: Socket, stationId: string) {
    forall k :: 0 <= k < |trace| ==>
      && !(trace[k].Attach? && trace[k].socket == socket)
      && ((trace[k].Disconnect? || trace[k].StatusNotification? || trace[k].MeterValues? || trace[k].StopTransaction?
           || trace[k].StartTransaction?) ==> trace[k].socket != socket)
      && (trace[k].StartTransaction? && trace[k].socket in Run(s, trace[..k]).connections ==>
           Run(s, trace[..k]).connections[trace[k].socket].stationId != stationId)
  }

  lemma CloseRowsOpens(rows: seq<Transaction>, id: int, endTime: int, energyKwh: real, stationId: string)
    ensures OpenIds(CloseRows(rows, id, endTime, energyKwh), stationId) == OpenIds(rows, stationId) - {id}
  {
    var after := CloseRows(rows, id, endTime, energyKwh);
    forall x ensures x in OpenIds(after, stationId) <==> x in OpenIds(rows, stationId) - {id} {
      if r :| r in after && IsOpen(r, stationId) && r.id == x {
        var k :| 0 <= k < |after| && after[k] == r;
        assert rows[k] in rows && rows[k].id != id;
      }
      if r :| r in rows && IsOpen(r, stationId) && r.id == x && x != id {
        var k :| 0 <= k < |rows| && rows[k] == r;
        assert after[k] == r && after[k] in after;
      }
    }
  }

  /** An event elsewhere can only close rows of the station and does not touch this connection's id. */
  lemma StepElsewhere(s: Server, e: Event, socket: Socket, stationId: string)
    requires socket in s.connections && Elsewhere(s, [e], socket, stationId)
    ensures var next := Step(s, e).0;
      && OpenIds(next.db.transactions, stationId) <= OpenIds(s.db.transactions, stationId)
      && socket in next.connections
      && next.connections[socket].activeTransactionId == s.connections[socket].activeTransactionId
  {
    assert [e][0] == e && [e][..0] == [];
    var next := Step(s, e).0;
    match e
    case StatusNotification(other, _, _, now) =>
      if other in s.connections && s.connections[other].activeTransactionId.Some? {
        var id := s.connections[other].activeTransactionId.value;
        CloseRowsOpens(s.db.transactions, id, now, LatestEnergyKwh(s.db, id), stationId);
      }
    case StopTransaction(_, id, meterStop, timestamp) =>
      CloseRowsOpens(s.db.transactions, id, timestamp, (meterStop - MeterStartWh(s.db.transactions, id)) / 1000.0,
                     stationId);
    case StartTransaction(_, _, _, _, _) =>
      NewRowElsewhere(s, e, stationId);
    case _ =>
  }

  lemma NewRowElsewhere(s: Server, e: Event, stationId: string)
    requires e.StartTransaction? && (e.socket in s.connections ==> s.connections[e.socket].stationId != stationId)
    ensures OpenIds(Step(s, e).0.db.transactions, stationId) <= OpenIds(s.db.transactions, stationId)
  {
    var after := Step(s, e).0.db.transactions;
    forall x | x in OpenIds(after, stationId) ensures x in OpenIds(s.db.transactions, stationId) {
      var r :| r in after && IsOpen(r, stationId) && r.id == x;
      assert r in s.db.transactions;
    }
  }

  lemma {:induction false} RunElsewhere(s: Server, trace: seq<Event>, socket: Socket, stationId: string)
    requires socket in s.connections && Elsewhere(s, trace, socket, stationId)
    ensures var end := Run(s, trace);
      && OpenIds(end.db.transactions, stationId) <= OpenIds(s.db.transactions, stationId)
      && socket in end.connections
      && end.connections[socket].activeTransactionId == s.connections[socket].activeTransactionId
  {
    if trace != [] {
      var last := |trace| - 1;
      forall k | 0 <= k < last ensures trace[..last][..k] == trace[..k] {
      }
      RunElsewhere(s, trace[..last], socket, stationId);
      var mid := Run(s, trace[..last]);
      var e := trace[last];
      assert [e][..0] == [] && Run(mid, [e][..0]) == mid;
      assert Elsewhere(mid, [e], socket, stationId);
      StepElsewhere(mid, e, socket, stationId);
    }
  }

  /** A reconnect of a station, anything elsewhere, and an Available notification on the new socket. */
  datatype Reconnect = Reconnect(socket: Socket, meanwhile: seq<Event>, connectorId: int, now: int)

  function Opening(stationId: string, r: Reconnect): seq<Event> {
    [Attach(r.socket, stationId)] + r.meanwhile
  }

  function Events(stationId: string, r: Reconnect): seq<Event> {
    Opening(stationId, r) + [StatusNotification(r.socket, r.connectorId, Available, r.now)]
  }

  ghost predicate QuietReconnect(s: Server, stationId: string, r: Reconnect) {
    Elsewhere(Step(s, Attach(r.socket, stationId)).0, r.meanwhile, r.socket, stationId)
  }

  /** Each such reconnect closes the station's newest open row, for good. */
  lemma ReconnectDrainsOne(s: Server, stationId: string, r: Reconnect)
    requires Valid(s.db) && QuietReconnect(s, stationId, r)
    ensures var before := OpenIds(s.db.transactions, stationId);
      var after := OpenIds(Run(s, Events(stationId, r)).db.transactions, stationId);
      after <= before && (before != {} ==> |after| < |before|)
  {
    var attached := Step(s, Attach(r.socket, stationId)).0;
    FindOpenIsLatest(s.db.transactions, stationId);
    RunElsewhere(attached, r.meanwhile, r.socket, stationId);
    var events := Events(stationId, r);
    assert [Attach(r.socket, stationId)][..0] == [];
    assert Run(s, [Attach(r.socket, stationId)]) == attached;
    RunConcat(s, [Attach(r.socket, stationId)], r.meanwhile);
    var mid := Run(s, Opening(stationId, r));
    assert mid == Run(attached, r.meanwhile);
    assert events[..|events| - 1] == Opening(stationId, r);
    var last := StatusNotification(r.socket, r.connectorId, Available, r.now);
    assert Run(s, events) == Step(mid, last).0;
    var before := OpenIds(s.db.transactions, stationId);
    var after := OpenIds(Run(s, events).db.transactions, stationId);
    RunKeepsTableValid(s, Opening(stationId, r));
    AvailableClosesActive(mid, r.socket, r.connectorId, r.now, stationId);
    var adopted := attached.connections[r.socket].activeTransactionId;
    if adopted.Some? {
      SmallerSet(after, before, adopted.value);
    }
  }

  function AllEvents(stationId: string, reconnects: seq<Reconnect>): seq<Event> {
    if reconnects == [] then []
    else AllEvents(stationId, reconnects[..|reconnects| - 1]) + Events(stationId, reconnects[|reconnects| - 1])
  }

  ghost predicate QuietReconnects(s: Server, stationId: string, reconnects: seq<Reconnect>) {
    forall k :: 0 <= k < |reconnects| ==>
      QuietReconnect(Run(s, AllEvents(stationId, reconnects[..k])), stationId, reconnects[k])
  }

  /** As many reconnects as there are open rows leave none, and none reappears. */
  lemma {:induction false} ReconnectsDrainAll(s: Server, stationId: string, reconnects: seq<Reconnect>)
    requires Valid(s.db) && QuietReconnects(s, stationId, reconnects)
    ensures var before := |OpenIds(s.db.transactions, stationId)|;
      var left := |OpenIds(Run(s, AllEvents(stationId, reconnects)).db.transactions, stationId)|;
      left <= if |reconnects| < before then before - |reconnects| else 0
  {
    hide OpenIds, Step, Run, Events, QuietReconnect, Valid;
    if reconnects != [] {
      var last := |reconnects| - 1;
      forall k | 0 <= k < last ensures reconnects[..last][..k] == reconnects[..k] {
      }
      ReconnectsDrainAll(s, stationId, reconnects[..last]);
      var earlier := AllEvents(stationId, reconnects[..last]);
      var mid := Run(s, earlier);
      RunKeepsTableValid(s, earlier);
      ReconnectDrainsOne(mid, stationId, reconnects[last]);
      RunConcat(s, earlier, Events(stationId, reconnects[last]));
      SubsetSize(OpenIds(Run(s, AllEvents(stationId, reconnects)).db.transactions, stationId),
                 OpenIds(mid.db.transactions, stationId));
    } else {
      NothingRun(s);
    }
  }

  lemma NothingRun(s: Server)
    ensures Run(s, []) == s
  {
  }

  lemma SmallerSet(a: set<int>, b: set<int>, x: int)
    requires a <= b && x in b && x !in a
    ensures |a| < |b|
  {
    SubsetSize(a, b - {x});
  }

  lemma AvailableClosesActive(s: Server, socket: Socket, connectorId: int, now: int, stationId: string)
    requires socket in s.connections
    ensures var next := Step(s, StatusNotification(socket, connectorId, Available, now)).0;
      && OpenIds(next.db.transactions, stationId) <= OpenIds(s.db.transactions, stationId)
      && (s.connections[socket].activeTransactionId.Some? && Valid(s.db) ==>
           s.connections[socket].activeTransactionId.value !in OpenIds(next.db.transactions, stationId))
  {
    var active := s.connections[socket].activeTransactionId;
    if active.Some? {
      var id := active.value;
      CloseRowsOpens(s.db.transactions, id, now, LatestEnergyKwh(s.db, id), stationId);
      FindSound(s.db.transactions, id);
      if Find(s.db.transactions, id).Some? && Valid(s.db) {
        var row := Find(s.db.transactions, id).value;
        forall r | r in s.db.transactions && r.id == id ensures r == row {
        }
      }
    }
  }
}

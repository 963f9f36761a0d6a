/**
  What a session is reported and recorded to have used, told by its start and its meter samples, and who is told
  what: over every trace of the station machine's events.
 */
module OcppSessions {
  import opened Prelude
  import opened SessionReconciler
  import opened OcppPersistence
  import opened OcppServer
  import opened OcppTraces

  // ---------- the newest register ----------

  /** The samples stored for a transaction, in the order they were stored. */
  function Stored(rows: seq<MeterRow>, id: int): seq<MeterSample> {
    if rows == [] then []
    else
      var front, last := Stored(rows[..|rows| - 1], id), rows[|rows| - 1];
      if last.transactionId == id then front + [MeterSample(last.measuredAt, last.energyKwh)] else front
  }

  /** The energy of the newest sample that has one, less the register at the start; 0 without any. */
  ghost predicate SessionEnergy(kWh: real, samples: seq<MeterSample>, meterStart: real) {
    if exists k :: 0 <= k < |samples| && samples[k].energyKwh.Some?
    then exists k :: 0 <= k < |samples| && NewestSample(samples, k)
                     && kWh == Max(0.0, samples[k].energyKwh.value - meterStart / 1000.0)
    else kWh == 0.0
  }

  ghost predicate NewestSample(samples: seq<MeterSample>, k: nat)
    requires k < |samples|
  {
    && samples[k].energyKwh.Some?
    && forall j :: 0 <= j < |samples| && samples[j].energyKwh.Some? ==> samples[j].timestamp <= samples[k].timestamp
  }

  /** The register found is one of the transaction's, and none of them is newer. */
  lemma {:induction false} LatestIsNewest(rows: seq<MeterRow>, id: int)
    ensures var found := LatestRegister(rows, id);
      && (found.None? <==> forall r :: r in rows && r.transactionId == id ==> r.energyKwh.None?)
      && (found.Some? ==>
            && found.value in rows && found.value.transactionId == id && found.value.energyKwh.Some?
            && forall r :: r in rows && r.transactionId == id && r.energyKwh.Some? ==>
                 r.measuredAt <= found.value.measuredAt)
  {
    if rows != [] {
      LatestIsNewest(rows[1..], id);
      assert forall r :: r in rows <==> r == rows[0] || r in rows[1..];
    }
  }

  lemma {:induction false} StoredAre(rows: seq<MeterRow>, id: int)
    ensures forall sample ::
      sample in Stored(rows, id) <==> MeterRow(id, sample.timestamp, sample.energyKwh) in rows
  {
    if rows != [] {
      var front, last := rows[..|rows| - 1], rows[|rows| - 1];
      StoredAre(front, id);
      assert rows == front + [last];
    }
  }

  /** The energy read back is that of the newest stored sample. */
  lemma EnergyIsNewest(db: Db, id: int)
    ensures SessionEnergy(LatestEnergyKwh(db, id), Stored(db.meterValues, id), MeterStartWh(db.transactions, id))
  {
    var samples, found := Stored(db.meterValues, id), LatestRegister(db.meterValues, id);
    LatestIsNewest(db.meterValues, id);
    StoredAre(db.meterValues, id);
    hide LatestRegister, Stored;
    if found.Some? {
      var sample := MeterSample(found.value.measuredAt, found.value.energyKwh);
      assert MeterRow(id, sample.timestamp, sample.energyKwh) == found.value;
      assert sample in samples;
      var k :| 0 <= k < |samples| && samples[k] == sample;
      forall j | 0 <= j < |samples| && samples[j].energyKwh.Some? ensures samples[j].timestamp <= sample.timestamp {
        assert samples[j] in samples;
        assert MeterRow(id, samples[j].timestamp, samples[j].energyKwh) in db.meterValues;
      }
      assert NewestSample(samples, k);
    } else {
      forall j | 0 <= j < |samples| ensures samples[j].energyKwh.None? {
        assert samples[j] in samples;
        assert MeterRow(id, samples[j].timestamp, samples[j].energyKwh) in db.meterValues;
      }
    }
  }

  // ---------- which samples are a transaction's ----------

  /** Samples belong to the transaction the charger names, or else to the one its connection remembers. */
  predicate SamplesOf(s: Server, e: Event, id: int) {
    && e.MeterValues? && e.socket in s.connections
    && (e.transactionId == Some(id)
        || (e.transactionId.None? && s.connections[e.socket].activeTransactionId == Some(id)))
  }

  /** All samples of a transaction in a run. */
  function Samples(s: Server, trace: seq<Event>, id: int): seq<MeterSample> {
    if trace == [] then []
    else
      var front, last := trace[..|trace| - 1], trace[|trace| - 1];
      Samples(s, front, id) + if SamplesOf(Run(s, front), last, id) then last.samples else []
  }

  lemma {:induction false} StoredAppend(rows: seq<MeterRow>, id: int, other: int, samples: seq<MeterSample>)
    ensures var more := seq(|samples|, i requires 0 <= i < |samples| =>
        MeterRow(other, samples[i].timestamp, samples[i].energyKwh));
      Stored(rows + more, id) == Stored(rows, id) + if other == id then samples else []
  {
    var more := seq(|samples|, i requires 0 <= i < |samples| =>
      MeterRow(other, samples[i].timestamp, samples[i].energyKwh));
    if samples == [] {
      assert rows + more == rows;
    } else {
      var last := |samples| - 1;
      StoredAppend(rows, id, other, samples[..last]);
      var front := seq(last, i requires 0 <= i < last =>
        MeterRow(other, samples[..last][i].timestamp, samples[..last][i].energyKwh));
      assert (rows + more)[..|rows + more| - 1] == rows + front;
      assert samples == samples[..last] + [samples[last]];
    }
  }

  /** One step stores exactly the samples that belong to the transaction. */
  lemma StepStores(s: Server, e: Event, id: int)
    requires id != 0
    ensures Stored(Step(s, e).0.db.meterValues, id)
         == Stored(s.db.meterValues, id) + if SamplesOf(s, e, id) then e.samples else []
  {
    hide Stored;
    if e.MeterValues? && e.socket in s.connections {
      var active := if e.transactionId.Some? then e.transactionId else s.connections[e.socket].activeTransactionId;
      if active.Some? && active.value != 0 {
        StoredAppend(s.db.meterValues, id, active.value, e.samples);
      }
    }
  }

  lemma {:induction false} RunStores(s: Server, trace: seq<Event>, id: int)
    requires id != 0
    ensures Stored(Run(s, trace).db.meterValues, id) == Stored(s.db.meterValues, id) + Samples(s, trace, id)
  {
    hide Step, Stored, SamplesOf;
    if trace != [] {
      RunStores(s, trace[..|trace| - 1], id);
      StepStores(Run(s, trace[..|trace| - 1]), trace[|trace| - 1], id);
    }
  }

  // ---------- what a start leaves ----------

  /** A StartTransaction on a known socket. */
  predicate Starts(s: Server, e: Event) {
    e.StartTransaction? && e.socket in s.connections
  }

  /** The row a start inserts; only its end and energy may change later. */
  function StartedRow(s: Server, e: Event): Transaction
    requires Starts(s, e)
  {
    var station := s.connections[e.socket].stationId;
    Transaction(s.db.nextTransactionId, if station in s.loadpointNames then s.loadpointNames[station] else station,
                station, e.timestamp, e.idTag, Some(e.meterStart), None, None)
  }

  /** The last row is the new one, it is remembered on the connection, and the charger is told its id. */
  lemma StartInserts(s: Server, e: Event)
    requires Valid(s.db) && Starts(s, e)
    ensures var (t, outputs) := Step(s, e);
      && t.db.transactions == s.db.transactions + [StartedRow(s, e)]
      && t.connections[e.socket].activeTransactionId == Some(StartedRow(s, e).id)
      && outputs == [Push(StartedRow(s, e).stationId, e.connectorId, Charging, true, true, Some(0.0)),
                     Started(StartedRow(s, e).id)]
      && t.db.meterValues == s.db.meterValues
  {
    FindSound(s.db.transactions, s.db.nextTransactionId);
  }

  /** It stays where it is over every run, as it was started. */
  lemma {:induction false} StartStays(s: Server, e: Event, trace: seq<Event>)
    requires Valid(s.db) && Starts(s, e)
    ensures var rows, k := Run(Step(s, e).0, trace).db.transactions, |s.db.transactions|;
      k < |rows| && rows[k] == StartedRow(s, e).(endTime := rows[k].endTime, energyKwh := rows[k].energyKwh)
  {
    hide Step, StartedRow, Starts;
    if trace != [] {
      var last := |trace| - 1;
      StartStays(s, e, trace[..last]);
      RowsStay(Run(Step(s, e).0, trace[..last]), trace[last], |s.db.transactions|);
    } else {
      StartInserts(s, e);
      NothingRun(Step(s, e).0);
    }
  }

  /** So what is read back later is measured from the start's register. */
  lemma EnergyFromStart(s: Server, e: Event, trace: seq<Event>)
    requires Valid(s.db) && Starts(s, e) && s.db.nextTransactionId != 0
    ensures var id, t := s.db.nextTransactionId, Run(Step(s, e).0, trace);
      && MeterStartWh(t.db.transactions, id) == e.meterStart
      && SessionEnergy(LatestEnergyKwh(t.db, id), Stored(s.db.meterValues, id) + Samples(Step(s, e).0, trace, id),
                       e.meterStart)
  {
    hide Step, LatestEnergyKwh, SessionEnergy, Stored, Samples;
    var id, t, k := s.db.nextTransactionId, Run(Step(s, e).0, trace), |s.db.transactions|;
    StartInserts(s, e);
    StartStays(s, e, trace);
    StepKeepsTableValid(s, e);
    RunKeepsTableValid(Step(s, e).0, trace);
    FindIsTheRow(t.db.transactions, k);
    EnergyIsNewest(t.db, id);
    RunStores(Step(s, e).0, trace, id);
  }

  /**
   * Whatever happens after a start: meter values of its transaction are
   * reported as the newest sample's energy since the start.
   */
  lemma SamplesAreReported(s: Server, start: Event, trace: seq<Event>, e: Event)
    requires Valid(s.db) && Starts(s, start) && s.db.nextTransactionId != 0
    requires SamplesOf(Run(Step(s, start).0, trace), e, s.db.nextTransactionId)
    ensures var id, begun := s.db.nextTransactionId, Step(s, start).0;
      var t := Run(begun, trace);
      exists kWh: real ::
        && Step(t, e).1 == [Push(t.connections[e.socket].stationId, e.connectorId, Charging, true, true, Some(kWh))]
        && SessionEnergy(kWh, Stored(s.db.meterValues, id) + Samples(begun, trace + [e], id), start.meterStart)
  {
    hide LatestEnergyKwh, SessionEnergy, Stored, Samples, Starts;
    var id, begun := s.db.nextTransactionId, Step(s, start).0;
    var t := Run(begun, trace);
    var kWh := LatestEnergyKwh(Step(t, e).0.db, id);
    assert (trace + [e])[..|trace + [e]| - 1] == trace;
    assert Run(begun, trace + [e]) == Step(t, e).0;
    EnergyFromStart(s, start, trace + [e]);
    assert Step(t, e).1 == [Push(t.connections[e.socket].stationId, e.connectorId, Charging, true, true, Some(kWh))];
  }

  /** An Available notification that finds the transaction open records that energy, and the end. */
  lemma AvailableRecords(s: Server, start: Event, trace: seq<Event>, socket: Socket, connectorId: int, now: int)
    requires Valid(s.db) && Starts(s, start) && s.db.nextTransactionId != 0
    requires var t, k := Run(Step(s, start).0, trace), |s.db.transactions|;
      && socket in t.connections && t.connections[socket].activeTransactionId == Some(s.db.nextTransactionId)
      && k < |t.db.transactions| && t.db.transactions[k].endTime.None?
    ensures var id, begun, k := s.db.nextTransactionId, Step(s, start).0, |s.db.transactions|;
      var rows := Step(Run(begun, trace), StatusNotification(socket, connectorId, Available, now)).0.db.transactions;
      exists kWh: real ::
        && k < |rows| && rows[k] == StartedRow(s, start).(endTime := Some(now), energyKwh := Some(kWh))
        && SessionEnergy(kWh, Stored(s.db.meterValues, id) + Samples(begun, trace, id), start.meterStart)
  {
    hide LatestEnergyKwh, SessionEnergy, Stored, Samples, Starts, StartedRow, Valid;
    var id, begun, k := s.db.nextTransactionId, Step(s, start).0, |s.db.transactions|;
    var t := Run(begun, trace);
    StepKeepsTableValid(s, start);
    RunKeepsTableValid(begun, trace);
    EnergyFromStart(s, start, trace);
    StartStays(s, start, trace);
    RowHasId(s, start);
    ClosingIsSafe(t.db, id, now, k);
    var kWh := LatestEnergyKwh(t.db, id);
    var rows := Step(t, StatusNotification(socket, connectorId, Available, now)).0.db.transactions;
    assert rows == CloseOpenTransaction(t.db, id, now).transactions;
    assert rows[k] == StartedRow(s, start).(endTime := Some(now), energyKwh := Some(kWh));
  }

  lemma RowHasId(s: Server, e: Event)
    requires Starts(s, e)
    ensures StartedRow(s, e).id == s.db.nextTransactionId && StartedRow(s, e).meterStart == Some(e.meterStart)
  {
  }

  /** A StopTransaction records what lies between its register and the start's. */
  lemma StopRecords(s: Server, start: Event, trace: seq<Event>, socket: Socket, meterStop: real, timestamp: int)
    requires Valid(s.db) && Starts(s, start) && s.db.nextTransactionId != 0
    requires socket in Run(Step(s, start).0, trace).connections
    ensures var id, begun, k := s.db.nextTransactionId, Step(s, start).0, |s.db.transactions|;
      var rows := Step(Run(begun, trace), StopTransaction(socket, id, meterStop, timestamp)).0.db.transactions;
      k < |rows| && rows[k] == StartedRow(s, start).(endTime := Some(timestamp),
                                                     energyKwh := Some((meterStop - start.meterStart) / 1000.0))
  {
    hide LatestEnergyKwh, SessionEnergy, Stored, Samples, Starts, StartedRow, Run, Step, Valid;
    EnergyFromStart(s, start, trace);
    StartStays(s, start, trace);
    RowHasId(s, start);
    StopStep(Run(Step(s, start).0, trace), socket, s.db.nextTransactionId, meterStop, timestamp);
  }

  lemma StopStep(s: Server, socket: Socket, id: int, meterStop: real, timestamp: int)
    requires socket in s.connections
    ensures var rows := Step(s, StopTransaction(socket, id, meterStop, timestamp)).0.db.transactions;
      && |rows| == |s.db.transactions|
      && forall k :: 0 <= k < |rows| && s.db.transactions[k].id == id ==>
           rows[k] == s.db.transactions[k].(
             endTime := Some(timestamp),
             energyKwh := Some((meterStop - MeterStartWh(s.db.transactions, id)) / 1000.0))
  {
    hide MeterStartWh;
  }

  // ---------- who is told what ----------

  /** A status notification is passed on with whether a car is there and whether it has a session. */
  lemma StatusIsTold(s: Server, socket: Socket, connectorId: int, status: Status, now: int)
    requires socket in s.connections
    ensures var outputs := Step(s, StatusNotification(socket, connectorId, status, now)).1;
      var present := status in {Preparing, Charging, SuspendedEV, SuspendedEVSE, Finishing, Reserved};
      var session := status in {Charging, SuspendedEV, SuspendedEVSE};
      && 1 <= |outputs| <= 2
      && outputs[0] == Push(s.connections[socket].stationId, connectorId, status, present, session, None)
      && (|outputs| == 2 ==> outputs[1] == AutoStart(socket, connectorId))
  {
  }

  /** The connector a socket last spoke of, other than the charger as a whole; 1 at first. */
  function LastConnector(trace: seq<Event>, socket: Socket): int {
    if trace == [] then 1
    else
      var last := trace[|trace| - 1];
      if last.StatusNotification? && last.socket == socket && last.connectorId > 0 then last.connectorId
      else if last.Attach? && last.socket == socket then 1
      else LastConnector(trace[..|trace| - 1], socket)
  }

  lemma StepConnector(s: Server, e: Event, socket: Socket)
    requires socket in s.connections || (e.Attach? && e.socket == socket)
    ensures var t := Step(s, e).0;
      && socket in t.connections
      && t.connections[socket].connectorId
           == if e.Attach? && e.socket == socket then 1
              else if e.StatusNotification? && e.socket == socket && e.connectorId > 0 then e.connectorId
              else s.connections[socket].connectorId
  {
    hide FindOpenTransaction, CloseOpenTransaction, FinishTransaction, InsertMeterValues, LatestEnergyKwh;
  }

  lemma {:induction false} ConnectorIs(trace: seq<Event>, socket: Socket)
    requires socket in Run(EMPTY, trace).connections
    ensures Run(EMPTY, trace).connections[socket].connectorId == LastConnector(trace, socket)
  {
    hide Step;
    if trace != [] {
      var last := |trace| - 1;
      StepConnections(Run(EMPTY, trace[..last]), trace[last], socket);
      if socket in Run(EMPTY, trace[..last]).connections {
        ConnectorIs(trace[..last], socket);
      }
      StepConnector(Run(EMPTY, trace[..last]), trace[last], socket);
    }
  }

  /** The station is reported gone exactly when the socket it is reached by disconnects. */
  lemma GoneIsToldIff(trace: seq<Event>, socket: Socket, stationId: string)
    requires FreshSockets(trace) && Attached(trace, socket, stationId)
    ensures Step(Run(EMPTY, trace), Disconnect(socket)).1
         == if Newest(trace, stationId, socket)
            then [Push(stationId, LastConnector(trace, socket), Unavailable, false, false, None)]
            else []
  {
    ConnectionsAreAttached(trace, socket);
    RegistryTracksNewestSocket(trace, stationId, socket);
    ConnectorIs(trace, socket);
    hide Run;
  }

  /** The end of a session is reported for the connector last spoken of. */
  lemma StopIsTold(trace: seq<Event>, socket: Socket, stationId: string, id: int, meterStop: real, timestamp: int)
    requires FreshSockets(trace) && Attached(trace, socket, stationId)
    ensures Step(Run(EMPTY, trace), StopTransaction(socket, id, meterStop, timestamp)).1
         == [Push(stationId, LastConnector(trace, socket), Finishing, true, false, Some(0.0))]
  {
    ConnectionsAreAttached(trace, socket);
    ConnectorIs(trace, socket);
    hide Run;
  }

  /**
   * The transaction a connection holds: none once the car is gone or the
   * transaction stopped, the one started or named last, and from the attach on
   * the newest that is still open, if there is one.
   */
  lemma HeldIs(s: Server, e: Event, socket: Socket)
    requires Valid(s.db) && (socket in s.connections || (e.Attach? && e.socket == socket))
    ensures var t := Step(s, e).0;
      && socket in t.connections
      && var held := t.connections[socket].activeTransactionId;
         match e
         case Attach(other, stationId) =>
           if other != socket then held == s.connections[socket].activeTransactionId
           else
             var open := OpenIds(s.db.transactions, stationId);
             && (held.None? <==> open == {})
             && (held.Some? ==> held.value in open && forall id :: id in open ==> id <= held.value)
         case StatusNotification(other, _, Available, _) =>
           held == if other == socket then None else s.connections[socket].activeTransactionId
         case StopTransaction(other, _, _, _) =>
           held == if other == socket then None else s.connections[socket].activeTransactionId
         case StartTransaction(other, _, _, _, _) =>
           held == if other == socket then Some(s.db.nextTransactionId) else s.connections[socket].activeTransactionId
         case MeterValues(other, _, Some(named), _) =>
           held == if other == socket then Some(named) else s.connections[socket].activeTransactionId
         case _ => held == s.connections[socket].activeTransactionId
  {
    hide CloseOpenTransaction, FinishTransaction, InsertMeterValues, LatestEnergyKwh, OpenIds, FindOpenTransaction;
    if e.Attach? {
      FindOpenIsLatest(s.db.transactions, e.stationId);
    }
    FindSound(s.db.transactions, s.db.nextTransactionId);
  }

  // ---------- who is started ----------

  /** What the last registration of a station said; an unclaimed station is not to be started. */
  function MayStart(trace: seq<Event>, stationId: string): bool {
    if trace == [] then false
    else
      var last := trace[|trace| - 1];
      if last.Register? && last.stationId == stationId then last.autoStart
      else if last.Unregister? && last.stationId == stationId then false
      else MayStart(trace[..|trace| - 1], stationId)
  }

  /** The registrations are kept, and the connection every station is reached by has its station's. */
  ghost predicate FlagsTrack(s: Server, trace: seq<Event>) {
    && (forall id :: MayStart(trace, id) <==> id in s.registered && s.registered[id])
    && (forall id :: id in s.stations ==>
          && s.stations[id] in s.connections && s.connections[s.stations[id]].stationId == id
          && s.connections[s.stations[id]].autoStart == MayStart(trace, id))
  }

  /** Only registrations change what is registered, and the flag of the connection their station is reached by. */
  lemma StepFlags(s: Server, e: Event)
    ensures var t := Step(s, e).0;
      && t.registered == (if e.Register? then s.registered[e.stationId := e.autoStart]
                          else if e.Unregister? then s.registered - {e.stationId} else s.registered)
      && forall socket :: socket in s.connections && !(e.Attach? && e.socket == socket) ==>
           && socket in t.connections
           && t.connections[socket].autoStart ==
                if (e.Register? || e.Unregister?) && e.stationId in s.stations && s.stations[e.stationId] == socket
                then e.Register? && e.autoStart
                else s.connections[socket].autoStart
  {
  }

  lemma AttachFlags(s: Server, e: Event)
    requires e.Attach?
    ensures var t := Step(s, e).0;
      && e.socket in t.connections && t.connections[e.socket].stationId == e.stationId
      && t.connections[e.socket].autoStart == (e.stationId in s.registered && s.registered[e.stationId])
  {
    hide FindOpenTransaction;
  }

  lemma FlagsStep(s: Server, trace: seq<Event>)
    requires trace != [] && FlagsTrack(s, trace[..|trace| - 1])
    requires trace[|trace| - 1].Attach? ==> trace[|trace| - 1].socket !in s.connections
    ensures FlagsTrack(Step(s, trace[|trace| - 1]).0, trace)
  {
    hide Step;
    var front, last := trace[..|trace| - 1], trace[|trace| - 1];
    var t := Step(s, last).0;
    StepFlags(s, last);
    StepRegistry(s, last);
    if last.Attach? {
      AttachFlags(s, last);
    }
    forall id ensures MayStart(trace, id) <==> id in t.registered && t.registered[id] {
      assert MayStart(front, id) <==> id in s.registered && s.registered[id];
    }
    forall id | id in t.stations
      ensures t.stations[id] in t.connections && t.connections[t.stations[id]].stationId == id
      ensures t.connections[t.stations[id]].autoStart == MayStart(trace, id)
    {
      if last.Attach? && last.stationId == id {
        assert MayStart(front, id) <==> id in s.registered && s.registered[id];
      } else {
        assert id in s.stations && t.stations[id] == s.stations[id];
        StepConnections(s, last, s.stations[id]);
      }
    }
  }

  lemma {:induction false} RunTracksFlags(trace: seq<Event>)
    requires FreshSockets(trace)
    ensures FlagsTrack(Run(EMPTY, trace), trace)
  {
    hide Step, FlagsTrack;
    if trace != [] {
      var last := |trace| - 1;
      RunTracksFlags(trace[..last]);
      if trace[last].Attach? {
        NotAttachedYet(trace);
      }
      FlagsStep(Run(EMPTY, trace[..last]), trace);
    } else {
      NoFlags();
    }
  }

  lemma NoFlags()
    ensures FlagsTrack(Run(EMPTY, []), [])
  {
  }

  lemma NotAttachedYet(trace: seq<Event>)
    requires trace != [] && FreshSockets(trace) && trace[|trace| - 1].Attach?
    ensures trace[|trace| - 1].socket !in Run(EMPTY, trace[..|trace| - 1]).connections
  {
    hide Step, Run;
    var last := |trace| - 1;
    ConnectionsAreAttached(trace[..last], trace[last].socket);
  }

  /**
   * A status notification on the socket a station is reached by starts a
   * session exactly if a car was just plugged in, the station's last
   * registration said so, no transaction is going on, and none was started by
   * itself since the last Available notification.
   */
  lemma AutoStartsIff(trace: seq<Event>, socket: Socket, stationId: string, connectorId: int, status: Status, now: int)
    requires FreshSockets(trace) && Newest(trace, stationId, socket)
    ensures var s := Run(EMPTY, trace);
      && socket in s.connections
      && var c := s.connections[socket];
         (AutoStart(socket, connectorId) in Step(s, StatusNotification(socket, connectorId, status, now)).1
          <==> && status == Preparing && MayStart(trace, stationId) && !c.hasAutoStarted
               && (c.activeTransactionId.None? || c.activeTransactionId == Some(0)))
  {
    RegistryTracksNewestSocket(trace, stationId, socket);
    RunTracksFlags(trace);
    hide Run, MayStart, Newest;
    var s := Run(EMPTY, trace);
    StatusIsTold(s, socket, connectorId, status, now);
    var outputs := Step(s, StatusNotification(socket, connectorId, status, now)).1;
    assert AutoStart(socket, connectorId) in outputs <==> |outputs| == 2;
  }
}

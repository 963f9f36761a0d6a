/**
  The OCPP 1.6 station machine: `attachClient` and its handlers in src/modules/charger-ocpp16/server.ts with
  the derivations of status.ts. A socket is a number; the closure state its handlers share is a `Connection`.
 */
module OcppServer {
  import opened Prelude
  import opened SessionReconciler
  import opened OcppPersistence

  type Socket = nat

  datatype Connection = Connection(stationId: string, activeTransactionId: Option<int>, connectorId: int,
                                   autoStart: bool, hasAutoStarted: bool)

  datatype Server = Server(connections: map<Socket, Connection>, stations: map<string, Socket>,
                           registered: map<string, bool>, loadpointNames: map<string, string>, db: Db)

  datatype Event =
    | Register(stationId: string, autoStart: bool)
    | Unregister(stationId: string)
    | SetLoadpointName(stationId: string, loadpointName: string)
    | Attach(socket: Socket, stationId: string)
    | Disconnect(socket: Socket)
    | StatusNotification(socket: Socket, connectorId: int, status: Status, now: int)
    | MeterValues(socket: Socket, connectorId: int, transactionId: Option<int>, samples: seq<MeterSample>)
    | StartTransaction(socket: Socket, connectorId: int, idTag: string, meterStart: real, timestamp: int)
    | StopTransaction(socket: Socket, stoppedId: int, meterStop: real, timestamp: int)

  datatype Output =
    | Push(stationId: string, connectorId: int, status: Status, connected: bool, charging: bool,
           sessionEnergyKWh: Option<real>)
    | AutoStart(socket: Socket, connectorId: int)
    | Started(transactionId: int)
    | DuplicateId(transactionId: int)

  predicate IsCharging(status: Status) {
    status.Charging? || status.SuspendedEV? || status.SuspendedEVSE?
  }

  predicate IsConnected(status: Status) {
    !status.Available? && !status.Unavailable? && !status.Faulted?
  }

  /** A transaction id of 0 counts as none here, as it does for the remote stop. */
  predicate HasTransaction(c: Connection) {
    c.activeTransactionId.Some? && c.activeTransactionId.value != 0
  }

  predicate ShouldAutoStart(status: Status, c: Connection) {
    status.Preparing? && !HasTransaction(c) && c.autoStart && !c.hasAutoStarted
  }

  function WithConnection(s: Server, socket: Socket, c: Connection): Server {
    s.(connections := s.connections[socket := c])
  }

  /** Sets the auto-start flag of the connection a station is reached by now. */
  function SetAutoStart(s: Server, stationId: string, autoStart: bool): Server {
    if stationId in s.stations && s.stations[stationId] in s.connections
    then WithConnection(s, s.stations[stationId], s.connections[s.stations[stationId]].(autoStart := autoStart))
    else s
  }

  function OnAttach(s: Server, socket: Socket, stationId: string): Server {
    var autoStart := if stationId in s.registered then s.registered[stationId] else false;
    WithConnection(s, socket,
                   Connection(stationId, FindOpenTransaction(s.db.transactions, stationId), 1, autoStart, false))
      .(stations := s.stations[stationId := socket])
  }

  function OnDisconnect(s: Server, socket: Socket, c: Connection): (Server, seq<Output>) {
    if c.stationId in s.stations && s.stations[c.stationId] == socket
    then (s.(stations := s.stations - {c.stationId}),
          [Push(c.stationId, c.connectorId, Unavailable, false, false, None)])
    else (s, [])
  }

  function OnStatus(s: Server, socket: Socket, c: Connection, connectorId: int, status: Status, now: int)
    : (Server, seq<Output>)
  {
    var c1 := if connectorId > 0 then c.(connectorId := connectorId) else c;
    var c2 := if status.Available? then c1.(hasAutoStarted := false) else c1;
    var stale := status.Available? && c2.activeTransactionId.Some?;
    var c3 := if stale then c2.(activeTransactionId := None) else c2;
    var db := if stale then CloseOpenTransaction(s.db, c2.activeTransactionId.value, now) else s.db;
    var push := Push(c.stationId, connectorId, status, IsConnected(status), IsCharging(status), None);
    if ShouldAutoStart(status, c3)
    then (WithConnection(s, socket, c3.(hasAutoStarted := true)).(db := db), [push, AutoStart(socket, connectorId)])
    else (WithConnection(s, socket, c3).(db := db), [push])
  }

  function OnMeterValues(s: Server, socket: Socket, c: Connection, connectorId: int, transactionId: Option<int>,
                         samples: seq<MeterSample>): (Server, seq<Output>)
  {
    var c1 := if transactionId.Some? then c.(activeTransactionId := transactionId) else c;
    var db := InsertMeterValues(s.db, c1.activeTransactionId, samples);
    (WithConnection(s, socket, c1).(db := db),
     if HasTransaction(c1)
     then [Push(c.stationId, connectorId, Charging, true, true,
                Some(LatestEnergyKwh(db, c1.activeTransactionId.value)))]
     else [])
  }

  /** The id is taken before the row is inserted; a duplicate id makes the insert, and the handler, fail. */
  function OnStart(s: Server, socket: Socket, c: Connection, connectorId: int, idTag: string, meterStart: real,
                   timestamp: int): (Server, seq<Output>)
  {
    var id := s.db.nextTransactionId;
    var db := s.db.(nextTransactionId := id + 1);
    if Find(db.transactions, id).Some? then (s.(db := db), [DuplicateId(id)])
    else
      var name := if c.stationId in s.loadpointNames then s.loadpointNames[c.stationId] else c.stationId;
      var row := Transaction(id, name, c.stationId, timestamp, idTag, Some(meterStart), None, None);
      (WithConnection(s, socket, c.(activeTransactionId := Some(id)))
         .(db := db.(transactions := db.transactions + [row])),
       [Push(c.stationId, connectorId, Charging, true, true, Some(0.0)), Started(id)])
  }

  function OnStop(s: Server, socket: Socket, c: Connection, transactionId: int, meterStop: real,
                  timestamp: int): (Server, seq<Output>) {
    (WithConnection(s, socket, c.(activeTransactionId := None))
       .(db := FinishTransaction(s.db, transactionId, meterStop, timestamp)),
     [Push(c.stationId, c.connectorId, Finishing, true, false, Some(0.0))])
  }

  /** One event; events of a socket that never attached do nothing. */
  function Step(s: Server, e: Event): (Server, seq<Output>) {
    match e
    case Register(stationId, autoStart) =>
      (SetAutoStart(s.(registered := s.registered[stationId := autoStart]), stationId, autoStart), [])
    case Unregister(stationId) =>
      (SetAutoStart(s.(registered := s.registered - {stationId}, loadpointNames := s.loadpointNames - {stationId}),
                    stationId, false), [])
    case SetLoadpointName(stationId, loadpointName) =>
      (s.(loadpointNames := s.loadpointNames[stationId := loadpointName]), [])
    case Attach(socket, stationId) => (OnAttach(s, socket, stationId), [])
    case _ =>
      if e.socket !in s.connections then (s, [])
      else
        var c := s.connections[e.socket];
        match e
        case Disconnect(socket) => OnDisconnect(s, socket, c)
        case StatusNotification(socket, connectorId, status, now) => OnStatus(s, socket, c, connectorId, status, now)
        case MeterValues(socket, connectorId, transactionId, samples) =>
          OnMeterValues(s, socket, c, connectorId, transactionId, samples)
        case StartTransaction(socket, connectorId, idTag, meterStart, timestamp) =>
          OnStart(s, socket, c, connectorId, idTag, meterStart, timestamp)
        case StopTransaction(socket, stoppedId, meterStop, timestamp) =>
          OnStop(s, socket, c, stoppedId, meterStop, timestamp)
        case _ => (s, [])
  }

  /** The server object: every handler updates its fields in place. */
  class Handlers {
    var connections: map<Socket, Connection>
    var stations: map<string, Socket>
    var registered: map<string, bool>
    var loadpointNames: map<string, string>
    var db: Db

    constructor (stored: Db)
      ensures View() == Server(map[], map[], map[], map[], stored)
    {
      connections, stations, registered, loadpointNames, db := map[], map[], map[], map[], stored;
    }

    function View(): Server
      reads this
    {
      Server(connections, stations, registered, loadpointNames, db)
    }

    method RegisterStation(stationId: string, autoStart: bool)
      modifies this
      ensures View() == Step(old(View()), Register(stationId, autoStart)).0
    {
      registered := registered[stationId := autoStart];
      if stationId in stations && stations[stationId] in connections {
        var socket := stations[stationId];
        connections := connections[socket := connections[socket].(autoStart := autoStart)];
      }
    }

    method UnregisterStation(stationId: string)
      modifies this
      ensures View() == Step(old(View()), Unregister(stationId)).0
    {
      registered := registered - {stationId};
      loadpointNames := loadpointNames - {stationId};
      if stationId in stations && stations[stationId] in connections {
        var socket := stations[stationId];
        connections := connections[socket := connections[socket].(autoStart := false)];
      }
    }

    method AttachClient(socket: Socket, stationId: string)
      modifies this
      ensures View() == Step(old(View()), Attach(socket, stationId)).0
    {
      var autoStart := false;
      if stationId in registered {
        autoStart := registered[stationId];
      }
      var adopted := FindOpenTransaction(db.transactions, stationId);
      connections := connections[socket := Connection(stationId, adopted, 1, autoStart, false)];
      stations := stations[stationId := socket];
    }

    method HandleDisconnect(socket: Socket) returns (outputs: seq<Output>)
      requires socket in connections
      modifies this
      ensures (View(), outputs) == Step(old(View()), Disconnect(socket))
    {
      outputs := [];
      var c := connections[socket];
      if c.stationId in stations && stations[c.stationId] == socket {
        stations := stations - {c.stationId};
        outputs := [Push(c.stationId, c.connectorId, Unavailable, false, false, None)];
      }
    }

    method HandleStatusNotification(socket: Socket, connectorId: int, status: Status, now: int)
      returns (outputs: seq<Output>)
      requires socket in connections
      modifies this
      ensures (View(), outputs) == Step(old(View()), StatusNotification(socket, connectorId, status, now))
    {
      var state := connections[socket];
      if connectorId > 0 {
        state := state.(connectorId := connectorId);
      }
      if status.Available? {
        state := state.(hasAutoStarted := false);
      }
      if status.Available? && state.activeTransactionId.Some? {
        var staleId := state.activeTransactionId.value;
        state := state.(activeTransactionId := None);
        db := CloseOpenTransaction(db, staleId, now);
      }
      outputs := [Push(state.stationId, connectorId, status, IsConnected(status), IsCharging(status), None)];
      if ShouldAutoStart(status, state) {
        state := state.(hasAutoStarted := true);
        outputs := [outputs[0], AutoStart(socket, connectorId)];
      }
      connections := connections[socket := state];
    }

    method HandleMeterValues(socket: Socket, connectorId: int, transactionId: Option<int>, samples: seq<MeterSample>)
      returns (outputs: seq<Output>)
      requires socket in connections
      modifies this
      ensures (View(), outputs) == Step(old(View()), MeterValues(socket, connectorId, transactionId, samples))
    {
      var state := connections[socket];
      if transactionId.Some? {
        state := state.(activeTransactionId := transactionId);
      }
      connections := connections[socket := state];
      db := InsertMeterValues(db, state.activeTransactionId, samples);
      outputs := [];
      if HasTransaction(state) {
        var energyKwh := LatestEnergyKwh(db, state.activeTransactionId.value);
        outputs := [Push(state.stationId, connectorId, Charging, true, true, Some(energyKwh))];
      }
    }

    method HandleStartTransaction(socket: Socket, connectorId: int, idTag: string, meterStart: real, timestamp: int)
      returns (outputs: seq<Output>)
      requires socket in connections
      modifies this
      ensures (View(), outputs)
          == Step(old(View()), StartTransaction(socket, connectorId, idTag, meterStart, timestamp))
    {
      var state := connections[socket];
      var id := db.nextTransactionId;
      db := db.(nextTransactionId := id + 1);
      if Find(db.transactions, id).Some? {
        return [DuplicateId(id)];
      }
      var name := state.stationId;
      if name in loadpointNames {
        name := loadpointNames[name];
      }
      db := db.(transactions := db.transactions
        + [Transaction(id, name, state.stationId, timestamp, idTag, Some(meterStart), None, None)]);
      connections := connections[socket := state.(activeTransactionId := Some(id))];
      outputs := [Push(state.stationId, connectorId, Charging, true, true, Some(0.0)), Started(id)];
    }

    method HandleStopTransaction(socket: Socket, stoppedId: int, meterStop: real, timestamp: int)
      returns (outputs: seq<Output>)
      requires socket in connections
      modifies this
      ensures (View(), outputs) == Step(old(View()), StopTransaction(socket, stoppedId, meterStop, timestamp))
    {
      var state := connections[socket];
      db := FinishTransaction(db, stoppedId, meterStop, timestamp);
      connections := connections[socket := state.(activeTransactionId := None)];
      outputs := [Push(state.stationId, state.connectorId, Finishing, true, false, Some(0.0))];
    }
  }
}

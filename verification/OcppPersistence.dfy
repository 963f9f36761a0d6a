/**
  The OCPP transaction store: src/modules/charger-ocpp16/persistence.ts over the tables of src/core/db.ts.
  A table is the sequence of its rows in insertion order; times are integers.
 */
module OcppPersistence {
  import opened Prelude

  datatype Transaction = Transaction(id: int, loadpointName: string, stationId: string, startTime: int, idTag: string,
                                     meterStart: Option<real>, endTime: Option<int>, energyKwh: Option<real>)

  datatype MeterRow = MeterRow(transactionId: int, measuredAt: int, energyKwh: Option<real>)

  datatype Db = Db(nextTransactionId: int, transactions: seq<Transaction>, meterValues: seq<MeterRow>)

  function Find(rows: seq<Transaction>, id: int): Option<Transaction> {
    if rows == [] then None else if rows[0].id == id then Some(rows[0]) else Find(rows[1..], id)
  }

  predicate IsOpen(row: Transaction, stationId: string) {
    row.stationId == stationId && row.endTime.None?
  }

  /** The largest open transaction id of a station. */
  function FindOpenTransaction(rows: seq<Transaction>, stationId: string): Option<int> {
    if rows == [] then None
    else
      var rest := FindOpenTransaction(rows[1..], stationId);
      if !IsOpen(rows[0], stationId) then rest
      else if rest.Some? && rest.value >= rows[0].id then rest
      else Some(rows[0].id)
  }

  function CloseRows(rows: seq<Transaction>, id: int, endTime: int, energyKwh: real): seq<Transaction> {
    seq(|rows|, i requires 0 <= i < |rows| =>
      if rows[i].id == id then rows[i].(endTime := Some(endTime), energyKwh := Some(energyKwh)) else rows[i])
  }

  function MeterStartWh(rows: seq<Transaction>, id: int): real {
    var row := Find(rows, id);
    if row.Some? then row.value.meterStart.GetOr(0.0) else 0.0
  }

  function FinishTransaction(db: Db, id: int, meterStop: real, timestamp: int): Db {
    var energyKwh := (meterStop - MeterStartWh(db.transactions, id)) / 1000.0;
    db.(transactions := CloseRows(db.transactions, id, timestamp, energyKwh))
  }

  /** The latest energy register of a transaction; of several latest ones, the first stored. */
  function LatestRegister(rows: seq<MeterRow>, id: int): Option<MeterRow> {
    if rows == [] then None
    else
      var rest := LatestRegister(rows[1..], id);
      if rows[0].transactionId != id || rows[0].energyKwh.None? then rest
      else if rest.Some? && rest.value.measuredAt > rows[0].measuredAt then rest
      else Some(rows[0])
  }

  function LatestEnergyKwh(db: Db, id: int): real {
    var row := LatestRegister(db.meterValues, id);
    if row.None? then 0.0
    else Max(0.0, row.value.energyKwh.GetOr(0.0) - MeterStartWh(db.transactions, id) / 1000.0)
  }

  function CloseOpenTransaction(db: Db, id: int, now: int): Db {
    var row := Find(db.transactions, id);
    if row.None? || row.value.endTime.Some? then db
    else db.(transactions := CloseRows(db.transactions, id, now, LatestEnergyKwh(db, id)))
  }

  datatype MeterSample = MeterSample(timestamp: int, energyKwh: Option<real>)

  function InsertMeterValues(db: Db, id: Option<int>, samples: seq<MeterSample>): Db {
    if id.None? || id.value == 0 then db
    else db.(meterValues := db.meterValues + seq(|samples|, i requires 0 <= i < |samples| =>
      MeterRow(id.value, samples[i].timestamp, samples[i].energyKwh)))
  }

  /** The counter is ahead of every stored id, and no id is stored twice. */
  ghost predicate Valid(db: Db) {
    && (forall r :: r in db.transactions ==> r.id < db.nextTransactionId)
    && (forall i, j :: 0 <= i < j < |db.transactions| ==> db.transactions[i].id != db.transactions[j].id)
  }

  ghost function OpenIds(rows: seq<Transaction>, stationId: string): set<int> {
    set r | r in rows && IsOpen(r, stationId) :: r.id
  }

  /** The row a reconnect adopts is open, and no open row of the station is newer. */
  lemma {:induction false} FindOpenIsLatest(rows: seq<Transaction>, stationId: string)
    ensures var found := FindOpenTransaction(rows, stationId);
      && (found.None? <==> OpenIds(rows, stationId) == {})
      && (found.Some? ==> found.value in OpenIds(rows, stationId)
                          && forall id :: id in OpenIds(rows, stationId) ==> id <= found.value)
  {
    if rows != [] {
      FindOpenIsLatest(rows[1..], stationId);
      var rest := OpenIds(rows[1..], stationId);
      assert OpenIds(rows, stationId) == rest + (if IsOpen(rows[0], stationId) then {rows[0].id} else {}) by {
        forall id
          ensures id in OpenIds(rows, stationId) <==> id in rest || (IsOpen(rows[0], stationId) && id == rows[0].id)
        {
          if r :| r in rows && IsOpen(r, stationId) && r.id == id {
            assert r == rows[0] || r in rows[1..];
          }
        }
      }
    }
  }

  lemma {:induction false} FindIsTheRow(rows: seq<Transaction>, k: nat)
    requires k < |rows| && forall i, j :: 0 <= i < j < |rows| ==> rows[i].id != rows[j].id
    ensures Find(rows, rows[k].id) == Some(rows[k])
  {
    if k > 0 {
      FindIsTheRow(rows[1..], k - 1);
    }
  }

  lemma {:induction false} FindSound(rows: seq<Transaction>, id: int)
    ensures Find(rows, id).Some? ==> Find(rows, id).value in rows && Find(rows, id).value.id == id
    ensures Find(rows, id).None? ==> forall r :: r in rows ==> r.id != id
  {
    if rows != [] {
      FindSound(rows[1..], id);
    }
  }

  /** Closing an abandoned transaction touches no row that is already closed or not the one meant; the row it
      does close gets an end and an energy of at least 0. */
  lemma ClosingIsSafe(db: Db, id: int, now: int, k: nat)
    requires Valid(db) && k < |db.transactions|
    ensures var before, after := db.transactions[k], CloseOpenTransaction(db, id, now).transactions;
      && |after| == |db.transactions|
      && (before.id != id || before.endTime.Some? ==> after[k] == before)
      && (before.id == id && before.endTime.None? ==>
           after[k] == before.(endTime := Some(now), energyKwh := Some(LatestEnergyKwh(db, id))))
    ensures LatestEnergyKwh(db, id) >= 0.0
  {
    FindIsTheRow(db.transactions, k);
    FindSound(db.transactions, id);
  }
}

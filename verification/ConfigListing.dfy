/** The order in which src/core/config-overrides.ts lists the table: ORDER BY kind, name. */
module ConfigListing {
  import opened Prelude
  import opened Schema
  import opened ConfigModel
  import opened ConfigOverrides

  /** Texts compare character by character, a prefix first. */
  predicate Less(a: string, b: string) {
    b != "" && (a == "" || a[0] < b[0] || (a[0] == b[0] && Less(a[1..], b[1..])))
  }

  predicate Before(a: Key, b: Key) {
    Less(KindName(a.kind), KindName(b.kind)) || (a.kind == b.kind && Less(a.name, b.name))
  }

  lemma {:induction false} LessIsOrder(a: string, b: string, c: string)
    ensures !Less(a, a)
    ensures Less(a, b) && Less(b, c) ==> Less(a, c)
    ensures a == b || Less(a, b) || Less(b, a)
  {
    if a != "" {
      LessIsOrder(a[1..], if b == "" then "" else b[1..], if c == "" then "" else c[1..]);
      if b != "" && a[0] == b[0] {
        assert a == [a[0]] + a[1..] && b == [b[0]] + b[1..];
      }
    }
  }

  lemma KindNamesDiffer(a: Kind, b: Kind)
    ensures KindName(a) == KindName(b) ==> a == b
  {
    assert |KindName(Site)| == 4 && |KindName(SmartCharging)| == 13 && |KindName(MqttBridge)| == 10;
    assert |KindName(Tariff)| == 6 && |KindName(Balancer)| == 8 && |KindName(Vehicle)| == 7;
    assert |KindName(Charger)| == 7 && |KindName(MeterReader)| == 11 && |KindName(Loadpoint)| == 9;
    assert KindName(Vehicle)[0] == 'v' && KindName(Charger)[0] == 'c';
  }

  lemma BeforeIsOrder(a: Key, b: Key, c: Key)
    ensures !Before(a, a)
    ensures Before(a, b) && Before(b, c) ==> Before(a, c)
    ensures a == b || Before(a, b) || Before(b, a)
  {
    hide Less, KindName;
    LessIsOrder(KindName(a.kind), KindName(b.kind), KindName(c.kind));
    LessIsOrder(a.name, b.name, c.name);
    KindNamesDiffer(a.kind, b.kind);
    KindNamesDiffer(b.kind, c.kind);
  }

  ghost predicate Ordered(rows: seq<Row>) {
    forall i, j :: 0 <= i < j < |rows| ==> Before(rows[i].key, rows[j].key)
  }

  /** What `listOverrides` returns. */
  ghost predicate IsListing(rows: seq<Row>, store: Store) {
    Lists(rows, store) && Ordered(rows)
  }

  function Insert(rows: seq<Row>, row: Row): seq<Row> {
    if rows == [] then [row]
    else if Before(row.key, rows[0].key) then [row] + rows
    else [rows[0]] + Insert(rows[1..], row)
  }

  lemma {:induction false} InsertOrders(rows: seq<Row>, row: Row)
    requires Ordered(rows) && forall r :: r in rows ==> r.key != row.key
    ensures Ordered(Insert(rows, row))
    ensures forall r :: r in Insert(rows, row) <==> r == row || r in rows
  {
    hide Before;
    if rows != [] {
      var rest := rows[1..];
      assert rows == [rows[0]] + rest;
      assert rows[0] in rows;
      BeforeIsOrder(row.key, rows[0].key, row.key);
      if Before(row.key, rows[0].key) {
        var all := [row] + rows;
        forall i, j | 0 <= i < j < |all| ensures Before(all[i].key, all[j].key) {
          if i == 0 && j > 1 {
            BeforeIsOrder(row.key, rows[0].key, rows[j - 1].key);
          }
        }
      } else {
        InsertOrders(rest, row);
        var more := Insert(rest, row);
        forall j | 0 <= j < |more| ensures Before(rows[0].key, more[j].key) {
          assert more[j] in more;
        }
      }
    }
  }

  lemma {:induction false} ListingExists(store: Store) returns (rows: seq<Row>)
    ensures IsListing(rows, store)
    decreases |store|
  {
    if store == map[] {
      rows := [];
    } else {
      var key :| key in store;
      var rest := store - {key};
      assert store.Keys == rest.Keys + {key};
      var front := ListingExists(rest);
      ListsAreRows(front, rest);
      InsertOrders(front, Row(key, store[key]));
      rows := Insert(front, Row(key, store[key]));
      OrderedKeysDiffer(rows);
      SublistLists(rows, store, store);
    }
  }

  lemma OrderedKeysDiffer(rows: seq<Row>)
    requires Ordered(rows)
    ensures forall i, j :: 0 <= i < j < |rows| ==> rows[i].key != rows[j].key
  {
    forall i, j | 0 <= i < j < |rows| ensures rows[i].key != rows[j].key {
      BeforeIsOrder(rows[i].key, rows[j].key, rows[i].key);
    }
  }

  lemma TailHas(rows: seq<Row>)
    requires rows != [] && Ordered(rows)
    ensures forall r :: r in rows[1..] <==> r in rows && r != rows[0]
  {
    OrderedKeysDiffer(rows);
    assert rows == [rows[0]] + rows[1..];
    forall i | 0 <= i < |rows[1..]| ensures rows[1..][i] != rows[0] {
      assert rows[1..][i] == rows[i + 1];
    }
  }

  lemma HasFirst(rows: seq<Row>)
    requires rows != []
    ensures exists r :: r in rows
  {
    assert rows[0] in rows;
  }

  /** A table has exactly one listing. */
  lemma {:induction false} ListingUnique(a: seq<Row>, b: seq<Row>)
    requires Ordered(a) && Ordered(b) && forall r :: r in a <==> r in b
    ensures a == b
  {
    hide Before;
    if a != [] {
      HasFirst(a);
    }
    if b != [] {
      HasFirst(b);
    }
    if a != [] && b != [] {
      assert a[0] in b && b[0] in a;
      BeforeIsOrder(a[0].key, b[0].key, a[0].key);
      assert a[0] == b[0];
      OrderedKeysDiffer(a);
      OrderedKeysDiffer(b);
      TailHas(a);
      TailHas(b);
      ListingUnique(a[1..], b[1..]);
    }
  }

  lemma SomeListing(store: Store)
    ensures exists rows :: IsListing(rows, store)
  {
    var rows := ListingExists(store);
  }

  ghost function Listing(store: Store): (rows: seq<Row>)
    ensures IsListing(rows, store)
  {
    SomeListing(store);
    var rows :| IsListing(rows, store);
    rows
  }

  lemma ListingIs(rows: seq<Row>, store: Store)
    requires IsListing(rows, store)
    ensures Listing(store) == rows
  {
    ListsAreRows(rows, store);
    ListsAreRows(Listing(store), store);
    ListingUnique(rows, Listing(store));
  }
}

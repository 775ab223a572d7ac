/** Inserting catalog rows, and the outcome every request handler reports.
    An INSERT gets the next AUTO_INCREMENT id, stores its numbers at the columns'
    scale, and is refused with SQLSTATE 23000 when it repeats a UNIQUE part number. */
module Catalog {
  import opened Base
  import opened Numeric
  import opened Schema

  /** What a POST handler did, as the alert it shows tells it.
      Denied: the permission check redirected. Ignored: the guard was false and nothing
      was shown. Done: every statement ran. Duplicate: SQLSTATE 23000 with the
      "already exists" message. Failed: another database error, with the generic message.
      Incomplete: "Please fill in all required fields". */
  datatype Outcome = Denied | Ignored | Done | Duplicate | Failed | Incomplete

  /** The id AUTO_INCREMENT hands out next: one above every row's id, for any table
      whose rows carry their id under `key`. */
  function NextId<T>(t: seq<T>, key: T -> int): (r: Id)
    ensures r >= 1
    ensures forall i :: 0 <= i < |t| ==> key(t[i]) < r
  {
    if |t| == 0 then 1
    else
      var m := NextId(t[..|t| - 1], key);
      if key(t[|t| - 1]) >= m then key(t[|t| - 1]) + 1 else m
  }

  /** The id an INSERT into the item table t hands out. */
  function NextItemId(t: seq<Item>): (r: Id)
    ensures r >= 1 && !HasId(t, r)
  {
    NextId(t, (x: Item) => x.id)
  }

  /** Some row already carries the (non-NULL) part number pn. */
  predicate PartNumberTaken(t: seq<Item>, pn: Option<string>) {
    pn.Some? && exists i :: 0 <= i < |t| && PartNumberOf(t[i]) == pn
  }

  /** `INSERT INTO <table of info's kind>`: the new row gets a fresh id and its stock and
      reorder point rounded to the columns' scale; a repeated part number is refused and
      leaves the store as it was. */
  function Insert(db: Db, name: string, stock: real, reorder: real, info: Info): (r: (Db, Outcome))
    ensures r.1 == Done || r.1 == Duplicate
    ensures r.1 == Duplicate <==> PartNumberTaken(Table(db, KindOf(info)), PartNumberOf(Item(0, name, stock, reorder, info)))
    ensures r.1 == Duplicate ==> r.0 == db
    ensures r.1 == Done ==>
      var k := KindOf(info);
      var t := Table(db, k);
      && NewId(r.0, k) == NextItemId(t)
      && Table(r.0, k) == t + [Item(NewId(r.0, k), name, Store(StockColumn(k), stock), Store(StockColumn(k), reorder), info)]
      && (forall k' :: k' != k ==> Table(r.0, k') == Table(db, k'))
      && r.0.molds == db.molds && r.0.cavities == db.cavities && r.0.bom == db.bom && r.0.ledger == db.ledger
  {
    var k := KindOf(info);
    var t := Table(db, k);
    var row := Item(NextItemId(t), name, Store(StockColumn(k), stock), Store(StockColumn(k), reorder), info);
    if PartNumberTaken(t, PartNumberOf(row)) then (db, Duplicate)
    else (WithTable(db, k, t + [row]), Done)
  }

  /** The id of the last row of kind k: the one an insert has just added (`lastInsertId`). */
  function NewId(db: Db, k: ItemKind): Id {
    var t := Table(db, k);
    if |t| == 0 then 0 else t[|t| - 1].id
  }

  /** The row `lastInsertId` names is in its table. */
  lemma NewRowPresent(db: Db, k: ItemKind)
    requires |Table(db, k)| > 0
    ensures HasItem(db, k, NewId(db, k))
  {
    var t := Table(db, k);
    assert t[|t| - 1].id == NewId(db, k);
  }

  /** Inserting a row keeps every constraint of the schema. */
  lemma InsertWellFormed(db: Db, name: string, stock: real, reorder: real, info: Info)
    requires WellFormed(db)
    ensures WellFormed(Insert(db, name, stock, reorder, info).0)
  {
    var r := Insert(db, name, stock, reorder, info).0;
    if Insert(db, name, stock, reorder, info).1 == Done {
      var k := KindOf(info);
      var t := Table(db, k);
      var row := Item(NewId(r, k), name, Store(StockColumn(k), stock), Store(StockColumn(k), reorder), info);
      TableOkOf(db, k);
      StoreIdempotent(StockColumn(k), stock);
      StoreIdempotent(StockColumn(k), reorder);
      AppendRowOk(t, k, row);
      GrowWellFormed(db, r, k);
    }
  }

  /** A row with a fresh id, an unused part number and values its columns hold can be
      appended to a table without breaking its constraints. */
  lemma AppendRowOk(t: seq<Item>, k: ItemKind, row: Item)
    requires TableOk(t, k) && row.id >= 1 && !HasId(t, row.id) && KindOf(row.info) == k
    requires Store(StockColumn(k), row.stock) == row.stock && Store(StockColumn(k), row.reorder) == row.reorder
    requires !PartNumberTaken(t, PartNumberOf(row))
    ensures TableOk(t + [row], k)
  {
    var t' := t + [row];
    forall i | 0 <= i < |t|
      ensures t'[i].id != row.id
      ensures PartNumberOf(t'[i]).Some? ==> PartNumberOf(t'[i]) != PartNumberOf(row)
    {
      assert t'[i] == t[i];
    }
  }

  /** A table that grew by rows keeping its constraints, with nothing else changed, keeps the
      store well-formed. */
  lemma GrowWellFormed(db: Db, r: Db, k: ItemKind)
    requires WellFormed(db) && TableOk(Table(r, k), k)
    requires |Table(db, k)| <= |Table(r, k)| && Table(db, k) == Table(r, k)[..|Table(db, k)|]
    requires forall k' :: k' != k ==> Table(r, k') == Table(db, k')
    requires r.molds == db.molds && r.cavities == db.cavities && r.bom == db.bom
    ensures WellFormed(r)
  {
    forall k' ensures TableOk(Table(r, k'), k') {
      TableOkOf(db, k');
    }
    assert CavitiesOk(r) by {
      forall key | key in r.cavities
        ensures HasItem(r, PartKind, r.cavities[key].partId)
      {
        GrowKeepsIds(db, r, k, PartKind, r.cavities[key].partId);
      }
    }
    EdgesAfterInsert(db, r, k, db.bom.materials, MaterialKind);
    EdgesAfterInsert(db, r, k, db.bom.components, ComponentKind);
    EdgesAfterInsert(db, r, k, db.bom.consumables, ConsumableKind);
    EdgesAfterInsert(db, r, k, db.bom.packaging, PackagingKind);
  }

  /** A table that only grew at its end still has every id it had. */
  lemma GrowKeepsIds(db: Db, r: Db, k: ItemKind, k': ItemKind, id: int)
    requires |Table(db, k)| <= |Table(r, k)| && Table(db, k) == Table(r, k)[..|Table(db, k)|]
    requires forall k'' :: k'' != k ==> Table(r, k'') == Table(db, k'')
    requires HasItem(db, k', id)
    ensures HasItem(r, k', id)
  {
    var i :| 0 <= i < |Table(db, k')| && Table(db, k')[i].id == id;
    assert Table(r, k')[i] == Table(db, k')[i];
  }

  lemma EdgesAfterInsert<V>(db: Db, r: Db, k: ItemKind, e: map<EdgeKey, V>, ek: ItemKind)
    requires EdgesOk(db, e, ek)
    requires |Table(db, k)| <= |Table(r, k)| && Table(db, k) == Table(r, k)[..|Table(db, k)|]
    requires forall k'' :: k'' != k ==> Table(r, k'') == Table(db, k'')
    ensures EdgesOk(r, e, ek)
  {
    forall key | key in e
      ensures HasItem(r, PartKind, key.0) && HasItem(r, ek, key.1)
    {
      GrowKeepsIds(db, r, k, PartKind, key.0);
      GrowKeepsIds(db, r, k, ek, key.1);
    }
  }
}

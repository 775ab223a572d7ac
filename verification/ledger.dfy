/** The stock ledger: `update<Kind>Stock` sets a row's current stock and then appends an
    `inventory_transactions` row through `logInventoryTransaction`
    (includes/functions.php:69-111), and the inventory page applies a batch of physical
    counts one at a time (inventory.php:10-44). The two statements of an update are not
    wrapped in a transaction, so a failure between them is modelled too. */
module Ledger {
  import opened Base
  import opened Numeric
  import opened Schema
  import opened Auth

  /** `UPDATE <table> SET current_stock = ? WHERE <id> = ?` on one table: every row with
      that id takes the new stock (the primary key makes it at most one). */
  function SetStock(t: seq<Item>, id: int, stock: real): (r: seq<Item>)
    ensures |r| == |t|
    ensures forall i :: 0 <= i < |t| ==> r[i] == (if t[i].id == id then t[i].(stock := stock) else t[i])
  {
    if |t| == 0 then []
    else [if t[0].id == id then t[0].(stock := stock) else t[0]] + SetStock(t[1..], id, stock)
  }

  /** The current stock of the row with that id, if there is one. */
  function StockOf(t: seq<Item>, id: int): (r: Option<real>)
    ensures r.Some? <==> HasId(t, id)
  {
    if |t| == 0 then None
    else if t[0].id == id then Some(t[0].stock)
    else
      var r := StockOf(t[1..], id);
      assert HasId(t, id) <==> HasId(t[1..], id) by {
        if HasId(t, id) {
          var i :| 0 <= i < |t| && t[i].id == id;
          assert t[1..][i - 1].id == id;
        }
        if HasId(t[1..], id) {
          var i :| 0 <= i < |t[1..]| && t[1..][i].id == id;
          assert t[i + 1].id == id;
        }
      }
      r
  }

  /** The UPDATE alone: the stock of kind k's row `id`, rounded to its column. */
  function WriteStock(db: Db, k: ItemKind, id: int, quantity: real): (r: Db)
    ensures forall k' :: k' != k ==> Table(r, k') == Table(db, k')
    ensures r.molds == db.molds && r.cavities == db.cavities && r.bom == db.bom && r.ledger == db.ledger
  {
    WithTable(db, k, SetStock(Table(db, k), id, Store(StockColumn(k), quantity)))
  }

  /** `logInventoryTransaction($type, $id, $action, $quantity, $notes)`: the session's
      user, or NULL without one; the quantity is kept at DECIMAL(10,2). */
  function LogTxn(db: Db, k: ItemKind, id: int, action: TxnAction, quantity: real, notes: string, user: Option<Id>): (r: Db)
    ensures forall k' :: Table(r, k') == Table(db, k')
    ensures r.molds == db.molds && r.cavities == db.cavities && r.bom == db.bom
    ensures |r.ledger| == |db.ledger| + 1 && r.ledger[..|db.ledger|] == db.ledger
  {
    db.(ledger := db.ledger + [Txn(TxnTypeOf(k), id, action, Store(Decimal2, quantity), notes, user)])
  }

  /** `update<Kind>Stock($id, $quantity, $action, $notes)`: the UPDATE, then the log row. */
  function UpdateStock(db: Db, k: ItemKind, id: int, quantity: real, action: TxnAction, notes: string, user: Option<Id>): (r: Db)
    ensures HasItem(db, k, id) ==> StockOf(Table(r, k), id) == Some(Store(StockColumn(k), quantity))
    ensures forall k' :: k' != k ==> Table(r, k') == Table(db, k')
    ensures |Table(r, k)| == |Table(db, k)|
    ensures forall j :: 0 <= j < |Table(db, k)| && Table(db, k)[j].id != id ==> Table(r, k)[j] == Table(db, k)[j]
    ensures r.molds == db.molds && r.cavities == db.cavities && r.bom == db.bom
    ensures r.ledger == db.ledger + [Txn(TxnTypeOf(k), id, action, Store(Decimal2, quantity), notes, user)]
  {
    var w := WriteStock(db, k, id, quantity);
    SetStockFound(Table(db, k), id, Store(StockColumn(k), quantity));
    LogTxn(w, k, id, action, quantity, notes, user)
  }

  lemma {:induction false} SetStockFound(t: seq<Item>, id: int, stock: real)
    ensures HasId(t, id) ==> StockOf(SetStock(t, id, stock), id) == Some(stock)
  {
    if |t| > 0 && t[0].id != id {
      SetStockFound(t[1..], id, stock);
      if HasId(t, id) {
        var i :| 0 <= i < |t| && t[i].id == id;
        assert t[1..][i - 1].id == id;
      }
      assert SetStock(t, id, stock)[1..] == SetStock(t[1..], id, stock);
    }
  }

  // ---------------------------------------------------------------------------
  // Properties of a single update

  /** A stock update keeps every constraint of the schema: ids, kinds and part numbers are
      untouched and the new stock is one the column can hold. */
  lemma UpdateStockWellFormed(db: Db, k: ItemKind, id: int, quantity: real, action: TxnAction, notes: string, user: Option<Id>)
    requires WellFormed(db)
    ensures WellFormed(UpdateStock(db, k, id, quantity, action, notes, user))
  {
    WriteStockWellFormed(db, k, id, quantity);
  }

  lemma WriteStockWellFormed(db: Db, k: ItemKind, id: int, quantity: real)
    requires WellFormed(db)
    ensures WellFormed(WriteStock(db, k, id, quantity))
  {
    var r := WriteStock(db, k, id, quantity);
    var stock := Store(StockColumn(k), quantity);
    assert Table(r, k) == SetStock(Table(db, k), id, stock);
    TableOkOf(db, k);
    StoreIdempotent(StockColumn(k), quantity);
    SetStockOk(Table(db, k), k, id, stock);
    forall k' ensures TableOk(Table(r, k'), k') {
      if k' != k {
        TableOkOf(db, k');
      }
    }
    forall k', x | HasItem(db, k', x) ensures HasItem(r, k', x) {
      if k' == k {
        SetStockKeepsIds(Table(db, k), id, stock, x);
      }
    }
    SameIdsWellFormed(db, r);
  }

  lemma SetStockKeepsIds(t: seq<Item>, id: int, stock: real, x: int)
    requires HasId(t, x)
    ensures HasId(SetStock(t, id, stock), x)
  {
    var i :| 0 <= i < |t| && t[i].id == x;
    assert SetStock(t, id, stock)[i].id == x;
  }

  /** Setting a stock the column can hold keeps a table's keys and kinds. */
  lemma SetStockOk(t: seq<Item>, k: ItemKind, id: int, stock: real)
    requires TableOk(t, k) && Store(StockColumn(k), stock) == stock
    ensures TableOk(SetStock(t, id, stock), k)
  {
    SetStockKeys(t, id, stock);
    SetStockRows(t, k, id, stock);
  }

  lemma SetStockKeys(t: seq<Item>, id: int, stock: real)
    requires UniqueIds(t) && UniquePartNumbers(t)
    ensures UniqueIds(SetStock(t, id, stock)) && UniquePartNumbers(SetStock(t, id, stock))
  {
    var t' := SetStock(t, id, stock);
    assert forall i :: 0 <= i < |t| ==> t'[i].id == t[i].id && PartNumberOf(t'[i]) == PartNumberOf(t[i]);
  }

  lemma SetStockRows(t: seq<Item>, k: ItemKind, id: int, stock: real)
    requires RowsOfKind(t, k) && Store(StockColumn(k), stock) == stock
    ensures RowsOfKind(SetStock(t, id, stock), k)
  {
    var t' := SetStock(t, id, stock);
    forall i | 0 <= i < |t'|
      ensures KindOf(t'[i].info) == k
      ensures Store(StockColumn(k), t'[i].stock) == t'[i].stock
      ensures Store(StockColumn(k), t'[i].reorder) == t'[i].reorder
    {
      if t[i].id == id {
        assert t'[i] == t[i].(stock := stock);
      } else {
        assert t'[i] == t[i];
      }
    }
  }

  /** A change to catalog rows that keeps each table's constraints and every id, and leaves
      molds, cavities and the BOM alone, keeps the store well-formed. */
  lemma SameIdsWellFormed(db: Db, r: Db)
    requires WellFormed(db)
    requires forall k :: TableOk(Table(r, k), k)
    requires forall k, x :: HasItem(db, k, x) ==> HasItem(r, k, x)
    requires r.molds == db.molds && r.cavities == db.cavities && r.bom == db.bom
    ensures WellFormed(r)
  {
    assert CavitiesOk(r) by {
      forall key | key in r.cavities
        ensures HasMold(r, key.0) && HasItem(r, PartKind, r.cavities[key].partId)
      {
        assert HasItem(db, PartKind, db.cavities[key].partId);
      }
    }
    SameIdsEdgesOk(db, r, db.bom.materials, MaterialKind);
    SameIdsEdgesOk(db, r, db.bom.components, ComponentKind);
    SameIdsEdgesOk(db, r, db.bom.consumables, ConsumableKind);
    SameIdsEdgesOk(db, r, db.bom.packaging, PackagingKind);
  }

  lemma SameIdsEdgesOk<V>(db: Db, r: Db, m: map<EdgeKey, V>, k: ItemKind)
    requires EdgesOk(db, m, k)
    requires forall k', x :: HasItem(db, k', x) ==> HasItem(r, k', x)
    ensures EdgesOk(r, m, k)
  {
    forall key | key in m
      ensures HasItem(r, PartKind, key.0) && HasItem(r, k, key.1)
    {
      assert HasItem(db, PartKind, key.0) && HasItem(db, k, key.1);
    }
  }

  /** Counting an id that no row has changes no stock, but still logs the count. */
  lemma UnknownIdStillLogged(db: Db, k: ItemKind, id: int, quantity: real, action: TxnAction, notes: string, user: Option<Id>)
    requires !HasItem(db, k, id)
    ensures var r := UpdateStock(db, k, id, quantity, action, notes, user);
      && (forall k' :: Table(r, k') == Table(db, k'))
      && |r.ledger| == |db.ledger| + 1
  {
    var r := UpdateStock(db, k, id, quantity, action, notes, user);
    var t := Table(db, k);
    assert Table(r, k) == t by {
      forall j | 0 <= j < |t| ensures Table(r, k)[j] == t[j] {
        assert t[j].id != id;
      }
    }
  }

  /** Of two counts of the same row, the later one decides the stock; both are logged in
      order. */
  lemma LastCountWins(db: Db, k: ItemKind, id: int, q1: real, q2: real, a1: TxnAction, a2: TxnAction,
                      n1: string, n2: string, user: Option<Id>)
    ensures var twice := UpdateStock(UpdateStock(db, k, id, q1, a1, n1, user), k, id, q2, a2, n2, user);
      var once := UpdateStock(db, k, id, q2, a2, n2, user);
      && (forall k' :: Table(twice, k') == Table(once, k'))
      && twice.ledger == db.ledger + [Txn(TxnTypeOf(k), id, a1, Store(Decimal2, q1), n1, user),
                                      Txn(TxnTypeOf(k), id, a2, Store(Decimal2, q2), n2, user)]
  {
    var twice := UpdateStock(UpdateStock(db, k, id, q1, a1, n1, user), k, id, q2, a2, n2, user);
    var once := UpdateStock(db, k, id, q2, a2, n2, user);
    assert Table(twice, k) == Table(once, k);
  }

  /** The ledger records the count at two decimals while a component, consumable,
      packaging or part row stores it as an integer: for materials the two agree, for the
      other kinds a fractional count is logged as posted and stored rounded. */
  lemma LedgerMatchesStock(db: Db, id: int, quantity: real, action: TxnAction, notes: string, user: Option<Id>)
    requires HasItem(db, MaterialKind, id)
    ensures var r := UpdateStock(db, MaterialKind, id, quantity, action, notes, user);
      StockOf(Table(r, MaterialKind), id) == Some(r.ledger[|db.ledger|].quantity)
  {
  }

  lemma LedgerDiffersFromIntStock(db: Db, k: ItemKind, id: int, action: TxnAction, notes: string, user: Option<Id>)
    requires k != MaterialKind && HasItem(db, k, id)
    ensures var r := UpdateStock(db, k, id, 2.5, action, notes, user);
      StockOf(Table(r, k), id) == Some(3.0) && r.ledger[|db.ledger|].quantity == 2.5
  {
    FloorUnique(3.0, 3);
    FloorUnique(250.5, 250);
  }

  // ---------------------------------------------------------------------------
  // The inventory page's batch

  /** One element of the posted `batch_updates` JSON array. */
  datatype Update = Update(typeName: string, itemId: int, quantity: real, notes: Option<string>)

  /** What the store does to one update: both statements succeed, the UPDATE throws, or
      the UPDATE succeeds and the log INSERT throws. */
  datatype Fault = NoFault | UpdateFails | LogFails

  /** The `switch ($type)` labels. */
  function KindOfType(s: string): (r: Option<ItemKind>)
    ensures r.Some? ==> r.value != PartKind ==> s == TypeNameOf(r.value)
    ensures r == Some(PartKind) <==> s == "part"
  {
    if s == "material" then Some(MaterialKind)
    else if s == "component" then Some(ComponentKind)
    else if s == "consumable" then Some(ConsumableKind)
    else if s == "packaging" then Some(PackagingKind)
    else if s == "part" then Some(PartKind)
    else None
  }

  /** The label the inventory page's rows carry for each kind. */
  function TypeNameOf(k: ItemKind): string {
    match k
    case MaterialKind => "material"
    case ComponentKind => "component"
    case ConsumableKind => "consumable"
    case PackagingKind => "packaging"
    case PartKind => "part"
  }

  lemma KindOfTypeName(k: ItemKind)
    ensures KindOfType(TypeNameOf(k)) == Some(k)
  {
  }

  /** One pass of the loop: an unknown type matches no case but is still counted; an
      exception skips the rest of the update and is not counted. */
  function ApplyUpdate(db: Db, u: Update, f: Fault, user: Option<Id>): (r: (Db, nat))
    ensures r.1 <= 1
    ensures KindOfType(u.typeName).None? ==> r == (db, 1)
    ensures f == UpdateFails ==> r.0.ledger == db.ledger && (forall k :: Table(r.0, k) == Table(db, k))
    ensures r.1 == 1 <==> KindOfType(u.typeName).None? || f == NoFault
    ensures |r.0.ledger| == |db.ledger| + (if KindOfType(u.typeName).Some? && f == NoFault then 1 else 0)
    ensures r.0.ledger[..|db.ledger|] == db.ledger
    ensures r.0.molds == db.molds && r.0.cavities == db.cavities && r.0.bom == db.bom
  {
    match KindOfType(u.typeName)
    case None => (db, 1)
    case Some(k) =>
      match f
      case NoFault => (UpdateStock(db, k, u.itemId, u.quantity, PhysicalCount, u.notes.GetOr(""), user), 1)
      case UpdateFails => (db, 0)
      case LogFails => (WriteStock(db, k, u.itemId, u.quantity), 0)
  }

  /** The batch as a fold over the updates: the final store and `$updateCount`. */
  function Batch(db: Db, us: seq<Update>, fs: seq<Fault>, user: Option<Id>): (r: (Db, nat))
    requires |fs| == |us|
    ensures r.1 <= |us|
    ensures |r.0.ledger| >= |db.ledger| && r.0.ledger[..|db.ledger|] == db.ledger
    decreases |us|
  {
    if |us| == 0 then (db, 0)
    else
      var step := ApplyUpdate(db, us[0], fs[0], user);
      var rest := Batch(step.0, us[1..], fs[1..], user);
      (rest.0, step.1 + rest.1)
  }

  /** How many updates carry a type no case matches. */
  function Unmatched(us: seq<Update>): nat {
    if |us| == 0 then 0 else (if KindOfType(us[0].typeName).None? then 1 else 0) + Unmatched(us[1..])
  }

  /** The batch handler: permission `update_inventory`, then the loop. */
  method RunBatch(db: Db, a: Actor, us: seq<Update>, fs: seq<Fault>) returns (r: Db, count: nat, allowed: bool)
    requires |fs| == |us|
    ensures allowed == HasPermission(a, "update_inventory")
    ensures !allowed ==> r == db && count == 0
    ensures allowed ==> (r, count) == Batch(db, us, fs, a.userId)
  {
    allowed := HasPermission(a, "update_inventory");
    if !allowed {
      return db, 0, false;
    }
    r, count := db, 0;
    var i := 0;
    assert us[0..] == us && fs[0..] == fs;
    while i < |us|
      invariant 0 <= i <= |us|
      invariant Batch(r, us[i..], fs[i..], a.userId).0 == Batch(db, us, fs, a.userId).0
      invariant count + Batch(r, us[i..], fs[i..], a.userId).1 == Batch(db, us, fs, a.userId).1
    {
      var step := ApplyUpdate(r, us[i], fs[i], a.userId);
      BatchStep(r, us, fs, i, a.userId);
      r, count := step.0, count + step.1;
      i := i + 1;
    }
  }

  /** One pass of the loop peels the first remaining update off the fold. */
  lemma BatchStep(r: Db, us: seq<Update>, fs: seq<Fault>, i: nat, user: Option<Id>)
    requires |fs| == |us| && i < |us|
    ensures Batch(r, us[i..], fs[i..], user).0
         == Batch(ApplyUpdate(r, us[i], fs[i], user).0, us[i + 1..], fs[i + 1..], user).0
    ensures Batch(r, us[i..], fs[i..], user).1
         == ApplyUpdate(r, us[i], fs[i], user).1 + Batch(ApplyUpdate(r, us[i], fs[i], user).0, us[i + 1..], fs[i + 1..], user).1
  {
    var u, f := us[i..], fs[i..];
    assert u[0] == us[i] && f[0] == fs[i];
    assert u[1..] == us[i + 1..] && f[1..] == fs[i + 1..];
    BatchCons(r, u, f, user);
  }

  lemma BatchCons(r: Db, us: seq<Update>, fs: seq<Fault>, user: Option<Id>)
    requires |fs| == |us| && 0 < |us|
    ensures Batch(r, us, fs, user).0 == Batch(ApplyUpdate(r, us[0], fs[0], user).0, us[1..], fs[1..], user).0
    ensures Batch(r, us, fs, user).1
         == ApplyUpdate(r, us[0], fs[0], user).1 + Batch(ApplyUpdate(r, us[0], fs[0], user).0, us[1..], fs[1..], user).1
  {
  }

  /** The count the page reports is every ledger row the batch added plus every update of
      an unknown type; it never exceeds the number of updates, and reaches it exactly when
      no known update failed. */
  lemma {:induction false} BatchCount(db: Db, us: seq<Update>, fs: seq<Fault>, user: Option<Id>)
    requires |fs| == |us|
    ensures var (r, c) := Batch(db, us, fs, user);
      && |db.ledger| <= |r.ledger| && r.ledger[..|db.ledger|] == db.ledger
      && c == |r.ledger| - |db.ledger| + Unmatched(us)
      && c <= |us|
      && (c == |us| <==> forall i :: 0 <= i < |us| ==> KindOfType(us[i].typeName).None? || fs[i] == NoFault)
    decreases |us|
  {
    if |us| > 0 {
      var (d, c0) := ApplyUpdate(db, us[0], fs[0], user);
      BatchCount(d, us[1..], fs[1..], user);
      var (r, c) := Batch(db, us, fs, user);
      assert r.ledger[..|db.ledger|] == d.ledger[..|d.ledger|][..|db.ledger|];
      if forall i :: 0 <= i < |us| ==> KindOfType(us[i].typeName).None? || fs[i] == NoFault {
        assert forall i :: 0 <= i < |us[1..]| ==> KindOfType(us[1..][i].typeName).None? || fs[1..][i] == NoFault by {
          forall i | 0 <= i < |us[1..]| ensures KindOfType(us[1..][i].typeName).None? || fs[1..][i] == NoFault {
            assert us[1..][i] == us[i + 1] && fs[1..][i] == fs[i + 1];
          }
        }
      }
      if c == |us| {
        forall i | 0 <= i < |us| ensures KindOfType(us[i].typeName).None? || fs[i] == NoFault {
          if i > 0 {
            assert us[1..][i - 1] == us[i] && fs[1..][i - 1] == fs[i];
          }
        }
      }
    }
  }

  /** Every update of a batch leaves a well-formed store well-formed, whichever of its
      statements fail. */
  lemma {:induction false} BatchWellFormed(db: Db, us: seq<Update>, fs: seq<Fault>, user: Option<Id>)
    requires |fs| == |us| && WellFormed(db)
    ensures WellFormed(Batch(db, us, fs, user).0)
    decreases |us|
  {
    if |us| > 0 {
      var (d, c0) := ApplyUpdate(db, us[0], fs[0], user);
      match KindOfType(us[0].typeName) {
        case None =>
        case Some(k) =>
          match fs[0] {
            case NoFault => UpdateStockWellFormed(db, k, us[0].itemId, us[0].quantity, PhysicalCount, us[0].notes.GetOr(""), user);
            case UpdateFails =>
            case LogFails => WriteStockWellFormed(db, k, us[0].itemId, us[0].quantity);
          }
      }
      BatchWellFormed(d, us[1..], fs[1..], user);
    }
  }
}

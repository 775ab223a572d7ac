/** The store the pages read and write, as the DDL in install.php:39-191 lays it out:
    five catalog tables, molds and their cavities, the four BOM junction tables, and
    the inventory ledger. Keys, foreign keys and cascade rules are stated by `WellFormed`
    and by the three cascading deletes at the end. */
module Schema {
  import opened Base
  import opened Numeric

  /** The five catalog tables. */
  datatype ItemKind = MaterialKind | ComponentKind | ConsumableKind | PackagingKind | PartKind

  /** `parts.part_type ENUM('shoot_ship', 'value_added')`. `BlankType` is the ENUM's error
      value `''`, which a server outside strict mode stores for a string that is not a label. */
  datatype PartType = ShootShip | ValueAdded | BlankType

  /** `inventory_transactions.transaction_type`. */
  datatype TxnType = MaterialTxn | ComponentTxn | PackagingTxn | ConsumableTxn | FinishedPartTxn

  /** `inventory_transactions.transaction_action`. */
  datatype TxnAction = PhysicalCount | Received | Used | Adjust

  /** Type label, supplier and lead time shared by the four purchasable kinds. */
  datatype Sourcing = Sourcing(typeName: string, supplier: string, leadTime: Option<int>)

  /** The kind-specific columns of a catalog row. Materials and packaging carry the
      part number, and packaging the category, QPC, containers-per-skid and parent
      reference, that the BOM page reads and writes. */
  datatype Info =
    | MaterialInfo(src: Sourcing, partNumber: Option<string>, unit: string)
    | ComponentInfo(src: Sourcing)
    | ConsumableInfo(src: Sourcing, containerSize: string)
    | PackagingInfo(src: Sourcing, partNumber: Option<string>, category: Option<string>,
                    parent: Option<int>, qpc: Option<int>, containersPerSkid: Option<int>)
    | PartInfo(number: string, partType: PartType, description: string)

  /** One catalog row: id, display name, current stock, reorder point and the rest. */
  datatype Item = Item(id: Id, name: string, stock: real, reorder: real, info: Info)

  function KindOf(info: Info): ItemKind {
    match info
    case MaterialInfo(_, _, _) => MaterialKind
    case ComponentInfo(_) => ComponentKind
    case ConsumableInfo(_, _) => ConsumableKind
    case PackagingInfo(_, _, _, _, _, _) => PackagingKind
    case PartInfo(_, _, _) => PartKind
  }

  /** Material stock and reorder point are DECIMAL(10,2); those of every other kind are INT. */
  function StockColumn(k: ItemKind): Column {
    if k == MaterialKind then Decimal2 else IntColumn
  }

  /** The ledger tag of a kind: parts are logged as finished parts. */
  function TxnTypeOf(k: ItemKind): TxnType {
    match k
    case MaterialKind => MaterialTxn
    case ComponentKind => ComponentTxn
    case ConsumableKind => ConsumableTxn
    case PackagingKind => PackagingTxn
    case PartKind => FinishedPartTxn
  }

  /** A mold: natural key `mold_number`, cavity count, DECIMAL(8,4) shot size and its unit. */
  datatype Mold = Mold(id: Id, number: string, totalCavities: int, shotSize: real, unit: string, notes: string)

  /** A `mold_cavities` row, keyed by (mold_id, cavity_number). */
  datatype Cavity = Cavity(partId: Id, partsPerShot: int)
  type CavityKey = (Id, int)

  /** A `part_consumables` row: no quantity, just whether it is required, the step and notes. */
  datatype ConsumableEdge = ConsumableEdge(required: bool, step: int, notes: string)

  /** A `part_packaging` row: quantity and the two partition flags. */
  datatype PackagingEdge = PackagingEdge(quantity: int, partitionRequired: bool, builtInPartitions: bool)

  /** The primary key (part_id, item_id) of every junction table. */
  type EdgeKey = (Id, Id)

  /** The junction key equals the pair of (possibly negative) posted integers. */
  predicate IsKey(key: EdgeKey, partId: int, itemId: int) {
    key.0 == partId && key.1 == itemId
  }

  /** The four BOM junction tables. Material quantities are DECIMAL(10,4), component quantities INT. */
  datatype Bom = Bom(materials: map<EdgeKey, real>,
                     components: map<EdgeKey, int>,
                     consumables: map<EdgeKey, ConsumableEdge>,
                     packaging: map<EdgeKey, PackagingEdge>)

  /** An `inventory_transactions` row: the absolute new quantity (DECIMAL(10,2)), the
      notes and the acting user, if any. */
  datatype Txn = Txn(txnType: TxnType, itemId: int, action: TxnAction, quantity: real,
                     notes: string, userId: Option<Id>)

  datatype Db = Db(materials: seq<Item>, components: seq<Item>, consumables: seq<Item>,
                   packaging: seq<Item>, parts: seq<Item>,
                   molds: seq<Mold>, cavities: map<CavityKey, Cavity>,
                   bom: Bom, ledger: seq<Txn>)

  function Table(db: Db, k: ItemKind): seq<Item> {
    match k
    case MaterialKind => db.materials
    case ComponentKind => db.components
    case ConsumableKind => db.consumables
    case PackagingKind => db.packaging
    case PartKind => db.parts
  }

  function WithTable(db: Db, k: ItemKind, t: seq<Item>): (r: Db)
    ensures Table(r, k) == t
    ensures forall k' :: k' != k ==> Table(r, k') == Table(db, k')
    ensures r.molds == db.molds && r.cavities == db.cavities && r.bom == db.bom && r.ledger == db.ledger
  {
    match k
    case MaterialKind => db.(materials := t)
    case ComponentKind => db.(components := t)
    case ConsumableKind => db.(consumables := t)
    case PackagingKind => db.(packaging := t)
    case PartKind => db.(parts := t)
  }

  predicate HasId(t: seq<Item>, id: int) {
    exists i :: 0 <= i < |t| && t[i].id == id
  }

  predicate HasItem(db: Db, k: ItemKind, id: int) {
    HasId(Table(db, k), id)
  }

  predicate HasMold(db: Db, id: int) {
    exists i :: 0 <= i < |db.molds| && db.molds[i].id == id
  }

  // ---------------------------------------------------------------------------
  // Keys and constraints

  /** PRIMARY KEY AUTO_INCREMENT: ids are positive and distinct. */
  predicate UniqueIds(t: seq<Item>) {
    && (forall i :: 0 <= i < |t| ==> t[i].id >= 1)
    && (forall i, j :: 0 <= i < j < |t| ==> t[i].id != t[j].id)
  }

  /** Each row of a table has that table's kind, and a stock and reorder point its
      columns can hold. */
  predicate RowsOfKind(t: seq<Item>, k: ItemKind) {
    forall i :: 0 <= i < |t| ==>
      && KindOf(t[i].info) == k
      && Store(StockColumn(k), t[i].stock) == t[i].stock
      && Store(StockColumn(k), t[i].reorder) == t[i].reorder
  }

  function PartNumberOf(it: Item): Option<string> {
    match it.info
    case PartInfo(pn, _, _) => Some(pn)
    case MaterialInfo(_, pn, _) => pn
    case PackagingInfo(_, pn, _, _, _, _) => pn
    case _ => None
  }

  /** A UNIQUE natural key: no two rows share a (non-NULL) part number. */
  predicate UniquePartNumbers(t: seq<Item>) {
    forall i, j :: 0 <= i < j < |t| && PartNumberOf(t[i]).Some? ==> PartNumberOf(t[i]) != PartNumberOf(t[j])
  }

  predicate TableOk(t: seq<Item>, k: ItemKind) {
    UniqueIds(t) && RowsOfKind(t, k) && UniquePartNumbers(t)
  }

  /** `mold_id` is the primary key and `mold_number` is UNIQUE. */
  predicate MoldsOk(ms: seq<Mold>) {
    && (forall i :: 0 <= i < |ms| ==> ms[i].id >= 1)
    && (forall i, j :: 0 <= i < j < |ms| ==> ms[i].id != ms[j].id && ms[i].number != ms[j].number)
  }

  /** FOREIGN KEY (mold_id) and (part_id) of `mold_cavities`. */
  predicate CavitiesOk(db: Db) {
    forall key :: key in db.cavities ==> HasMold(db, key.0) && HasItem(db, PartKind, db.cavities[key].partId)
  }

  /** FOREIGN KEY (part_id) and (item_id) of every junction table. */
  predicate EdgesOk<V>(db: Db, edges: map<EdgeKey, V>, k: ItemKind) {
    forall key :: key in edges ==> HasItem(db, PartKind, key.0) && HasItem(db, k, key.1)
  }

  predicate BomOk(db: Db) {
    && EdgesOk(db, db.bom.materials, MaterialKind)
    && EdgesOk(db, db.bom.components, ComponentKind)
    && EdgesOk(db, db.bom.consumables, ConsumableKind)
    && EdgesOk(db, db.bom.packaging, PackagingKind)
  }

  /** Every constraint of the schema. The ledger has no foreign key on `item_id`. */
  predicate WellFormed(db: Db) {
    && (forall k :: TableOk(Table(db, k), k))
    && MoldsOk(db.molds)
    && CavitiesOk(db)
    && BomOk(db)
  }

  lemma SameTablesEdgesOk<V>(db: Db, r: Db, m: map<EdgeKey, V>, k: ItemKind)
    requires EdgesOk(db, m, k) && Table(r, PartKind) == Table(db, PartKind) && Table(r, k) == Table(db, k)
    ensures EdgesOk(r, m, k)
  {
  }

  /** A change that leaves every catalog table and the BOM alone keeps the store
      well-formed when the molds and cavities it leaves are. */
  lemma SameTablesWellFormed(db: Db, r: Db)
    requires WellFormed(db)
    requires forall k :: Table(r, k) == Table(db, k)
    requires r.bom == db.bom && MoldsOk(r.molds) && CavitiesOk(r)
    ensures WellFormed(r)
  {
    forall k ensures TableOk(Table(r, k), k) {
      TableOkOf(db, k);
    }
    SameTablesEdgesOk(db, r, r.bom.materials, MaterialKind);
    SameTablesEdgesOk(db, r, r.bom.components, ComponentKind);
    SameTablesEdgesOk(db, r, r.bom.consumables, ConsumableKind);
    SameTablesEdgesOk(db, r, r.bom.packaging, PackagingKind);
  }

  lemma TableOkOf(db: Db, k: ItemKind)
    requires WellFormed(db)
    ensures TableOk(Table(db, k), k)
  {
  }

  // ---------------------------------------------------------------------------
  // Cascading deletes

  /** The rows of t whose id is not id, in order. */
  function WithoutId(t: seq<Item>, id: int): (r: seq<Item>)
    ensures forall x :: x in r <==> x in t && x.id != id
    ensures |r| <= |t|
  {
    if |t| == 0 then []
    else if t[0].id == id then WithoutId(t[1..], id)
    else [t[0]] + WithoutId(t[1..], id)
  }

  /** Removing rows keeps every constraint of the table: distinct ids, kinds, part numbers. */
  lemma {:induction false} WithoutIdOk(t: seq<Item>, k: ItemKind, id: int)
    requires TableOk(t, k)
    ensures TableOk(WithoutId(t, id), k)
  {
    if |t| > 0 {
      var rest := t[1..];
      TableOkTail(t, k);
      WithoutIdOk(rest, k, id);
      var w := WithoutId(rest, id);
      if t[0].id != id {
        forall y | y in w
          ensures y.id != t[0].id && (PartNumberOf(t[0]).Some? ==> PartNumberOf(t[0]) != PartNumberOf(y))
        {
          var m :| 0 <= m < |rest| && rest[m] == y;
          assert t[m + 1] == y;
        }
        TableOkCons(t[0], w, k);
      }
    }
  }

  lemma TableOkTail(t: seq<Item>, k: ItemKind)
    requires TableOk(t, k) && |t| > 0
    ensures TableOk(t[1..], k)
  {
    var rest := t[1..];
    forall i, j | 0 <= i < j < |rest|
      ensures rest[i].id != rest[j].id
    {
      assert t[i + 1].id != t[j + 1].id;
    }
  }

  lemma TableOkCons(x: Item, w: seq<Item>, k: ItemKind)
    requires TableOk(w, k) && TableOk([x], k)
    requires forall y :: y in w ==> y.id != x.id && (PartNumberOf(x).Some? ==> PartNumberOf(x) != PartNumberOf(y))
    ensures TableOk([x] + w, k)
  {
    var r := [x] + w;
    forall j | 0 < j < |r|
      ensures r[0].id != r[j].id && (PartNumberOf(r[0]).Some? ==> PartNumberOf(r[0]) != PartNumberOf(r[j]))
    {
      assert r[j] in w;
    }
  }

  function RemoveKeysWhere<V>(m: map<EdgeKey, V>, part: int, item: int): (r: map<EdgeKey, V>)
    ensures forall key :: key in r <==> key in m && key.0 != part && key.1 != item
    ensures forall key :: key in r ==> r[key] == m[key]
  {
    map key | key in m && key.0 != part && key.1 != item :: m[key]
  }

  /** `DELETE FROM parts`: ON DELETE CASCADE removes the part's BOM edges and cavity rows;
      the ledger, which has no foreign key on `item_id`, keeps its history. */
  function DeletePart(db: Db, id: Id): (r: Db)
    ensures r.ledger == db.ledger && r.molds == db.molds
    ensures forall k :: k != PartKind ==> Table(r, k) == Table(db, k)
    ensures forall row :: row in r.parts <==> row in db.parts && row.id != id
    ensures !HasItem(r, PartKind, id)
    ensures forall key :: key in r.cavities <==> key in db.cavities && db.cavities[key].partId != id
    ensures forall key :: key in r.cavities ==> r.cavities[key] == db.cavities[key]
    ensures forall key :: key in r.bom.materials <==> key in db.bom.materials && key.0 != id
    ensures forall key :: key in r.bom.components <==> key in db.bom.components && key.0 != id
    ensures forall key :: key in r.bom.consumables <==> key in db.bom.consumables && key.0 != id
    ensures forall key :: key in r.bom.packaging <==> key in db.bom.packaging && key.0 != id
    ensures forall key :: key in r.bom.materials ==> r.bom.materials[key] == db.bom.materials[key]
    ensures forall key :: key in r.bom.components ==> r.bom.components[key] == db.bom.components[key]
    ensures forall key :: key in r.bom.consumables ==> r.bom.consumables[key] == db.bom.consumables[key]
    ensures forall key :: key in r.bom.packaging ==> r.bom.packaging[key] == db.bom.packaging[key]
  {
    db.(parts := WithoutId(db.parts, id),
        cavities := map key | key in db.cavities && db.cavities[key].partId != id :: db.cavities[key],
        bom := Bom(RemoveKeysWhere(db.bom.materials, id, -1),
                   RemoveKeysWhere(db.bom.components, id, -1),
                   RemoveKeysWhere(db.bom.consumables, id, -1),
                   RemoveKeysWhere(db.bom.packaging, id, -1)))
  }

  /** `DELETE FROM materials | components | consumables | packaging`: ON DELETE CASCADE
      removes the BOM edges pointing at the item; the ledger is untouched. */
  function DeleteItem(db: Db, k: ItemKind, id: Id): (r: Db)
    requires k != PartKind
    ensures r.ledger == db.ledger && r.molds == db.molds && r.cavities == db.cavities
    ensures forall k' :: k' != k ==> Table(r, k') == Table(db, k')
    ensures forall row :: row in Table(r, k) <==> row in Table(db, k) && row.id != id
    ensures !HasItem(r, k, id)
    ensures forall key :: key in r.bom.materials <==> key in db.bom.materials && (k == MaterialKind ==> key.1 != id)
    ensures forall key :: key in r.bom.components <==> key in db.bom.components && (k == ComponentKind ==> key.1 != id)
    ensures forall key :: key in r.bom.consumables <==> key in db.bom.consumables && (k == ConsumableKind ==> key.1 != id)
    ensures forall key :: key in r.bom.packaging <==> key in db.bom.packaging && (k == PackagingKind ==> key.1 != id)
    ensures forall key :: key in r.bom.materials ==> r.bom.materials[key] == db.bom.materials[key]
    ensures forall key :: key in r.bom.components ==> r.bom.components[key] == db.bom.components[key]
    ensures forall key :: key in r.bom.consumables ==> r.bom.consumables[key] == db.bom.consumables[key]
    ensures forall key :: key in r.bom.packaging ==> r.bom.packaging[key] == db.bom.packaging[key]
  {
    WithTable(db, k, WithoutId(Table(db, k), id)).(bom := RemoveItemEdges(db.bom, k, id))
  }

  /** The junction rows of kind k that point at item id, removed. */
  function RemoveItemEdges(b: Bom, k: ItemKind, id: Id): (r: Bom)
    ensures forall key :: key in r.materials <==> key in b.materials && (k == MaterialKind ==> key.1 != id)
    ensures forall key :: key in r.components <==> key in b.components && (k == ComponentKind ==> key.1 != id)
    ensures forall key :: key in r.consumables <==> key in b.consumables && (k == ConsumableKind ==> key.1 != id)
    ensures forall key :: key in r.packaging <==> key in b.packaging && (k == PackagingKind ==> key.1 != id)
    ensures forall key :: key in r.materials ==> r.materials[key] == b.materials[key]
    ensures forall key :: key in r.components ==> r.components[key] == b.components[key]
    ensures forall key :: key in r.consumables ==> r.consumables[key] == b.consumables[key]
    ensures forall key :: key in r.packaging ==> r.packaging[key] == b.packaging[key]
  {
    match k
    case MaterialKind => b.(materials := RemoveKeysWhere(b.materials, -1, id))
    case ComponentKind => b.(components := RemoveKeysWhere(b.components, -1, id))
    case ConsumableKind => b.(consumables := RemoveKeysWhere(b.consumables, -1, id))
    case PackagingKind => b.(packaging := RemoveKeysWhere(b.packaging, -1, id))
    case PartKind => b
  }

  /** `DELETE FROM molds`: ON DELETE CASCADE removes the mold's cavity rows. */
  function DeleteMold(db: Db, id: Id): (r: Db)
    ensures r.ledger == db.ledger && r.bom == db.bom
    ensures forall k :: Table(r, k) == Table(db, k)
    ensures forall key :: key in r.cavities <==> key in db.cavities && key.0 != id
    ensures forall key :: key in r.cavities ==> r.cavities[key] == db.cavities[key]
    ensures forall m :: m in r.molds <==> m in db.molds && m.id != id
    ensures !HasMold(r, id)
  {
    db.(molds := MoldsWithout(db.molds, id),
        cavities := map key | key in db.cavities && key.0 != id :: db.cavities[key])
  }

  function MoldsWithout(ms: seq<Mold>, id: int): (r: seq<Mold>)
    ensures forall m :: m in r <==> m in ms && m.id != id
    ensures |r| <= |ms|
  {
    if |ms| == 0 then []
    else if ms[0].id == id then MoldsWithout(ms[1..], id)
    else [ms[0]] + MoldsWithout(ms[1..], id)
  }

  /** `DELETE FROM users`: ON DELETE SET NULL clears the user on that user's transactions
      and changes nothing else about the ledger. */
  function DeleteUser(ledger: seq<Txn>, user: Id): (r: seq<Txn>)
    ensures |r| == |ledger|
    ensures forall i :: 0 <= i < |r| ==>
      r[i].userId != Some(user)
      && r[i] == ledger[i].(userId := if ledger[i].userId == Some(user) then None else ledger[i].userId)
  {
    seq(|ledger|, i requires 0 <= i < |ledger| =>
      ledger[i].(userId := if ledger[i].userId == Some(user) then None else ledger[i].userId))
  }

  // ---------------------------------------------------------------------------
  // The cascades keep the schema's constraints

  lemma HasIdWithout(t: seq<Item>, id: int, other: int)
    requires other != id
    ensures HasId(WithoutId(t, id), other) <==> HasId(t, other)
  {
    var w := WithoutId(t, id);
    if HasId(t, other) {
      var i :| 0 <= i < |t| && t[i].id == other;
      assert t[i] in w;
      var j :| 0 <= j < |w| && w[j] == t[i];
    }
    if HasId(w, other) {
      var j :| 0 <= j < |w| && w[j].id == other;
      assert w[j] in t;
      var i :| 0 <= i < |t| && t[i] == w[j];
    }
  }

  /** Deleting a part leaves a well-formed store: no dangling edge or cavity remains. */
  lemma DeletePartWellFormed(db: Db, id: Id)
    requires WellFormed(db)
    ensures WellFormed(DeletePart(db, id))
  {
    var r := DeletePart(db, id);
    TableOkOf(db, PartKind);
    WithoutIdOk(db.parts, PartKind, id);
    forall k ensures TableOk(Table(r, k), k) {
      TableOkOf(db, k);
    }
    assert CavitiesOk(r) by {
      forall key | key in r.cavities
        ensures HasMold(r, key.0) && HasItem(r, PartKind, r.cavities[key].partId)
      {
        HasIdWithout(db.parts, id, r.cavities[key].partId);
      }
    }
    EdgesAfterPartDelete(db, r, id, db.bom.materials, r.bom.materials, MaterialKind);
    EdgesAfterPartDelete(db, r, id, db.bom.components, r.bom.components, ComponentKind);
    EdgesAfterPartDelete(db, r, id, db.bom.consumables, r.bom.consumables, ConsumableKind);
    EdgesAfterPartDelete(db, r, id, db.bom.packaging, r.bom.packaging, PackagingKind);
  }

  lemma EdgesAfterPartDelete<V>(db: Db, r: Db, id: Id, e: map<EdgeKey, V>, e': map<EdgeKey, V>, k: ItemKind)
    requires k != PartKind && EdgesOk(db, e, k)
    requires r.parts == WithoutId(db.parts, id) && Table(r, k) == Table(db, k)
    requires forall key :: key in e' ==> key in e && key.0 != id
    ensures EdgesOk(r, e', k)
  {
    forall key | key in e'
      ensures HasItem(r, PartKind, key.0) && HasItem(r, k, key.1)
    {
      HasIdWithout(db.parts, id, key.0);
    }
  }

  lemma EdgesAfterItemDelete<V>(db: Db, r: Db, id: Id, e: map<EdgeKey, V>, e': map<EdgeKey, V>, k: ItemKind, dk: ItemKind)
    requires k != PartKind && dk != PartKind && EdgesOk(db, e, k)
    requires Table(r, dk) == WithoutId(Table(db, dk), id)
    requires forall k' :: k' != dk ==> Table(r, k') == Table(db, k')
    requires forall key :: key in e' ==> key in e && (k == dk ==> key.1 != id)
    ensures EdgesOk(r, e', k)
  {
    forall key | key in e'
      ensures HasItem(r, PartKind, key.0) && HasItem(r, k, key.1)
    {
      if k == dk {
        HasIdWithout(Table(db, dk), id, key.1);
      }
    }
  }

  /** Deleting a material, component, consumable or packaging item leaves a well-formed store. */
  lemma DeleteItemWellFormed(db: Db, k: ItemKind, id: Id)
    requires WellFormed(db) && k != PartKind
    ensures WellFormed(DeleteItem(db, k, id))
  {
    var r := DeleteItem(db, k, id);
    TablesAfterItemDelete(db, k, id);
    EdgesAfterItemDelete(db, r, id, db.bom.materials, r.bom.materials, MaterialKind, k);
    EdgesAfterItemDelete(db, r, id, db.bom.components, r.bom.components, ComponentKind, k);
    EdgesAfterItemDelete(db, r, id, db.bom.consumables, r.bom.consumables, ConsumableKind, k);
    EdgesAfterItemDelete(db, r, id, db.bom.packaging, r.bom.packaging, PackagingKind, k);
  }

  lemma TablesAfterItemDelete(db: Db, k: ItemKind, id: Id)
    requires WellFormed(db) && k != PartKind
    ensures forall k' :: TableOk(Table(DeleteItem(db, k, id), k'), k')
  {
    var t := WithoutId(Table(db, k), id);
    TableOkOf(db, k);
    WithoutIdOk(Table(db, k), k, id);
    WithTableOk(db, k, t);
    forall k' ensures Table(DeleteItem(db, k, id), k') == Table(WithTable(db, k, t), k') {
      SameTablesAfterBom(WithTable(db, k, t), RemoveItemEdges(db.bom, k, id), k');
    }
  }

  lemma SameTablesAfterBom(db: Db, b: Bom, k: ItemKind)
    ensures Table(db.(bom := b), k) == Table(db, k)
  {
  }

  /** Replacing one table by one that keeps its constraints keeps every table's. */
  lemma WithTableOk(db: Db, k: ItemKind, t: seq<Item>)
    requires forall k' :: TableOk(Table(db, k'), k')
    requires TableOk(t, k)
    ensures forall k' :: TableOk(Table(WithTable(db, k, t), k'), k')
  {
  }

  lemma {:induction false} MoldsWithoutOk(ms: seq<Mold>, id: int)
    requires MoldsOk(ms)
    ensures MoldsOk(MoldsWithout(ms, id))
  {
    if |ms| > 0 {
      var rest := ms[1..];
      assert MoldsOk(rest) by {
        forall i, j | 0 <= i < j < |rest|
          ensures rest[i].id != rest[j].id && rest[i].number != rest[j].number
        {
          assert ms[i + 1].id != ms[j + 1].id;
        }
      }
      MoldsWithoutOk(rest, id);
      var w := MoldsWithout(rest, id);
      if ms[0].id != id {
        var r := [ms[0]] + w;
        forall j | 0 < j < |r|
          ensures r[0].id != r[j].id && r[0].number != r[j].number
        {
          assert r[j] in w;
          var m :| 0 <= m < |rest| && rest[m] == r[j];
          assert ms[m + 1] == r[j];
        }
      }
    }
  }

  /** Deleting a mold leaves a well-formed store. */
  lemma DeleteMoldWellFormed(db: Db, id: Id)
    requires WellFormed(db)
    ensures WellFormed(DeleteMold(db, id))
  {
    var r := DeleteMold(db, id);
    MoldsWithoutOk(db.molds, id);
    DeleteMoldCavitiesOk(db, id);
    SameTablesWellFormed(db, r);
  }

  lemma DeleteMoldCavitiesOk(db: Db, id: Id)
    requires CavitiesOk(db)
    ensures CavitiesOk(DeleteMold(db, id))
  {
    var r := DeleteMold(db, id);
    assert Table(r, PartKind) == Table(db, PartKind);
    forall key | key in r.cavities
      ensures HasMold(r, key.0) && HasItem(r, PartKind, r.cavities[key].partId)
    {
      var i :| 0 <= i < |db.molds| && db.molds[i].id == key.0;
      assert db.molds[i] in r.molds;
      var j :| 0 <= j < |r.molds| && r.molds[j] == db.molds[i];
    }
  }
}

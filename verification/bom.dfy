/** The POST handlers of the Bill of Materials page (bom.php:17-273): four upserts of a
    BOM edge, four "quick add" requests that create a catalog item and then link it,
    and the keyed removal of an edge. The posted ids and quantities arrive already
    cast by PHP's `(int)` and `floatval`; text fields pass through `Validate`. */
module BomPage {
  import opened Base
  import opened Numeric
  import opened Schema
  import opened Catalog
  import opened Auth
  import opened Input

  // ---------------------------------------------------------------------------
  // Edge maps

  predicate KeyTaken<V>(m: map<EdgeKey, V>, partId: int, itemId: int) {
    exists key :: key in m && IsKey(key, partId, itemId)
  }

  /** `after` is `before` with the edge (partId, itemId) added or, when present, overwritten by v. */
  ghost predicate Upserted<V>(before: map<EdgeKey, V>, after: map<EdgeKey, V>, partId: int, itemId: int, v: V) {
    && (forall key :: key in after <==> key in before || IsKey(key, partId, itemId))
    && (forall key :: key in after ==> after[key] == if IsKey(key, partId, itemId) then v else before[key])
  }

  /** `after` is `before` without the edge (partId, itemId). */
  ghost predicate Removed<V>(before: map<EdgeKey, V>, after: map<EdgeKey, V>, partId: int, itemId: int) {
    && (forall key :: key in after <==> key in before && !IsKey(key, partId, itemId))
    && (forall key :: key in after ==> after[key] == before[key])
  }

  /** Both ends exist: the two FOREIGN KEY checks of an INSERT into a junction table. */
  predicate EndsExist(db: Db, k: ItemKind, partId: int, itemId: int) {
    HasItem(db, PartKind, partId) && HasItem(db, k, itemId)
  }

  lemma EndsNat(db: Db, k: ItemKind, partId: int, itemId: int)
    requires EndsExist(db, k, partId, itemId)
    ensures partId >= 0 && itemId >= 0
  {
    var i :| 0 <= i < |Table(db, PartKind)| && Table(db, PartKind)[i].id == partId;
    var j :| 0 <= j < |Table(db, k)| && Table(db, k)[j].id == itemId;
  }

  /** `INSERT ... ON DUPLICATE KEY UPDATE` into a junction table: refused (None) when a
      foreign key fails, otherwise the edge is written whether or not it existed. */
  function UpsertEdge<V>(db: Db, k: ItemKind, m: map<EdgeKey, V>, partId: int, itemId: int, v: V): (r: Option<map<EdgeKey, V>>)
    ensures r.None? <==> !EndsExist(db, k, partId, itemId)
    ensures r.Some? ==> Upserted(m, r.value, partId, itemId, v)
  {
    if !EndsExist(db, k, partId, itemId) then None
    else
      EndsNat(db, k, partId, itemId);
      Some(m[(partId, itemId) := v])
  }

  /** A plain `INSERT` into a junction table: refused (None, SQLSTATE 23000) when a foreign
      key fails or the key is already present. */
  function InsertEdge<V>(db: Db, k: ItemKind, m: map<EdgeKey, V>, partId: int, itemId: int, v: V): (r: Option<map<EdgeKey, V>>)
    ensures r.None? <==> !EndsExist(db, k, partId, itemId) || KeyTaken(m, partId, itemId)
    ensures r.Some? ==> Upserted(m, r.value, partId, itemId, v)
  {
    if KeyTaken(m, partId, itemId) then None else UpsertEdge(db, k, m, partId, itemId, v)
  }

  /** `DELETE FROM <junction> WHERE part_id = ? AND item_id = ?`: an absent edge is no error. */
  function DeleteEdge<V>(m: map<EdgeKey, V>, partId: int, itemId: int): (r: map<EdgeKey, V>)
    ensures Removed(m, r, partId, itemId)
  {
    map key | key in m && !IsKey(key, partId, itemId) :: m[key]
  }

  // ---------------------------------------------------------------------------
  // The handlers

  /** The page's requests, one per `case` of the action switch, with the posted values. */
  datatype Request =
    | AddMaterial(partId: int, materialId: int, quantity: real)
    | AddComponent(partId: int, componentId: int, count: int)
    | AddConsumable(partId: int, consumableId: int, required: bool, step: int, notes: string)
    | AddPackaging(partId: int, packagingId: int, partitionRequired: bool, builtInPartitions: bool)
    | QuickAddMaterial(partNumber: string, name: string, typeName: string, unit: string, supplier: string,
                       partId: int, quantity: real)
    | QuickAddComponent(name: string, typeName: string, supplier: string, leadTime: int, partId: int, count: int)
    | QuickAddConsumable(name: string, typeName: string, containerSize: string, supplier: string, leadTime: int,
                         partId: int, required: bool, step: int, notes: string)
    | QuickAddPackaging(partNumber: string, name: string, typeName: string, category: string, parent: Option<int>,
                        qpc: int, containersPerSkid: int, supplier: string, leadTime: int,
                        partId: int, partitionRequired: bool, builtInPartitions: bool)
    | RemoveBomItem(partId: int, itemType: string, itemId: int)

  /** The permission each request checks before anything else. */
  function PermissionFor(req: Request): string {
    match req
    case AddMaterial(_, _, _) => "manage_bom"
    case AddComponent(_, _, _) => "manage_bom"
    case AddConsumable(_, _, _, _, _) => "manage_bom"
    case AddPackaging(_, _, _, _) => "manage_bom"
    case RemoveBomItem(_, _, _) => "manage_bom"
    case QuickAddMaterial(_, _, _, _, _, _, _) => "manage_materials"
    case QuickAddComponent(_, _, _, _, _, _) => "manage_components"
    case QuickAddConsumable(_, _, _, _, _, _, _, _, _) => "manage_consumables"
    case QuickAddPackaging(_, _, _, _, _, _, _, _, _, _, _, _) => "manage_packaging"
  }

  /** One POST to bom.php. The page demands `view_bom` before any action, then the
      action's own permission; a denied request changes nothing, a permitted one runs
      its action. */
  function Handle(db: Db, a: Actor, req: Request): (r: (Db, Outcome))
    ensures !HasPermission(a, "view_bom") ==> r == (db, Denied)
    ensures !HasPermission(a, PermissionFor(req)) ==> r == (db, Denied)
    ensures r.1 == Denied <==> !MayPost(a, "view_bom", PermissionFor(req))
    ensures MayPost(a, "view_bom", PermissionFor(req)) ==> r == Dispatch(db, req)
    ensures r.1 == Ignored || r.1 == Failed || r.1 == Denied ==> r.0.bom == db.bom
  {
    if !MayPost(a, "view_bom", PermissionFor(req)) then (db, Denied) else Dispatch(db, req)
  }

  /** The `switch ($_POST['action'])` of bom.php: each request runs its own handler, and
      none of them reports Denied. */
  function Dispatch(db: Db, req: Request): (r: (Db, Outcome))
    ensures r.1 != Denied
    ensures req.AddMaterial? ==> r == UpsertMaterial(db, req.partId, req.materialId, req.quantity)
    ensures req.AddComponent? ==> r == UpsertComponent(db, req.partId, req.componentId, req.count)
    ensures req.AddConsumable? ==> r == UpsertConsumable(db, req.partId, req.consumableId, req.required, req.step, req.notes)
    ensures req.AddPackaging? ==> r == UpsertPackaging(db, req.partId, req.packagingId, req.partitionRequired, req.builtInPartitions)
    ensures req.RemoveBomItem? ==> r == RemoveItem(db, req.partId, req.itemType, req.itemId)
    ensures req.QuickAddMaterial? ==>
      r == CreateMaterial(db, req.partNumber, req.name, req.typeName, req.unit, req.supplier, req.partId, req.quantity)
    ensures req.QuickAddComponent? ==>
      r == CreateComponent(db, req.name, req.typeName, req.supplier, req.leadTime, req.partId, req.count)
    ensures req.QuickAddConsumable? ==>
      r == CreateConsumable(db, req.name, req.typeName, req.containerSize, req.supplier, req.leadTime,
                            req.partId, req.required, req.step, req.notes)
    ensures req.QuickAddPackaging? ==>
      r == CreatePackaging(db, req.partNumber, req.name, req.typeName, req.category, req.parent, req.qpc,
                           req.containersPerSkid, req.supplier, req.leadTime, req.partId,
                           req.partitionRequired, req.builtInPartitions)
  {
    match req
    case AddMaterial(p, i, q) => UpsertMaterial(db, p, i, q)
    case AddComponent(p, i, n) => UpsertComponent(db, p, i, n)
    case AddConsumable(p, i, req', step, notes) => UpsertConsumable(db, p, i, req', step, notes)
    case AddPackaging(p, i, pr, bi) => UpsertPackaging(db, p, i, pr, bi)
    case RemoveBomItem(p, t, i) => RemoveItem(db, p, t, i)
    case QuickAddMaterial(pn, n, t, u, s, p, q) => CreateMaterial(db, pn, n, t, u, s, p, q)
    case QuickAddComponent(n, t, s, lt, p, c) => CreateComponent(db, n, t, s, lt, p, c)
    case QuickAddConsumable(n, t, cs, s, lt, p, req', step, notes) => CreateConsumable(db, n, t, cs, s, lt, p, req', step, notes)
    case QuickAddPackaging(pn, n, t, cat, par, qpc, cps, s, lt, p, pr, bi) =>
      CreatePackaging(db, pn, n, t, cat, par, qpc, cps, s, lt, p, pr, bi)
  }

  /** `add_material`: with nonzero ids and a positive quantity, upsert the quantity per part
      at DECIMAL(10,4); a missing part or material is a database error. */
  function UpsertMaterial(db: Db, partId: int, materialId: int, quantity: real): (r: (Db, Outcome))
    ensures r.1 == Ignored <==> !(partId != 0 && materialId != 0 && quantity > 0.0)
    ensures r.1 == Failed <==> partId != 0 && materialId != 0 && quantity > 0.0 && !EndsExist(db, MaterialKind, partId, materialId)
    ensures r.1 == Ignored || r.1 == Failed || r.1 == Done
    ensures r.1 != Done ==> r.0 == db
    ensures r.1 == Done ==>
      && r.0 == db.(bom := db.bom.(materials := r.0.bom.materials))
      && Upserted(db.bom.materials, r.0.bom.materials, partId, materialId, Store(Decimal4, quantity))
  {
    if !(partId != 0 && materialId != 0 && quantity > 0.0) then (db, Ignored)
    else
      match UpsertEdge(db, MaterialKind, db.bom.materials, partId, materialId, Store(Decimal4, quantity))
      case None => (db, Failed)
      case Some(m) => (db.(bom := db.bom.(materials := m)), Done)
  }

  /** `add_component`: as for materials, with an integer quantity. */
  function UpsertComponent(db: Db, partId: int, componentId: int, count: int): (r: (Db, Outcome))
    ensures r.1 == Ignored <==> !(partId != 0 && componentId != 0 && count > 0)
    ensures r.1 == Failed <==> partId != 0 && componentId != 0 && count > 0 && !EndsExist(db, ComponentKind, partId, componentId)
    ensures r.1 == Ignored || r.1 == Failed || r.1 == Done
    ensures r.1 != Done ==> r.0 == db
    ensures r.1 == Done ==>
      && r.0 == db.(bom := db.bom.(components := r.0.bom.components))
      && Upserted(db.bom.components, r.0.bom.components, partId, componentId, count)
  {
    if !(partId != 0 && componentId != 0 && count > 0) then (db, Ignored)
    else
      match UpsertEdge(db, ComponentKind, db.bom.components, partId, componentId, count)
      case None => (db, Failed)
      case Some(m) => (db.(bom := db.bom.(components := m)), Done)
  }

  /** `add_consumable`: no quantity; `required`, the application step (any integer) and the
      notes are overwritten on a repeat. */
  function UpsertConsumable(db: Db, partId: int, consumableId: int, required: bool, step: int, notes: string): (r: (Db, Outcome))
    ensures r.1 == Ignored <==> !(partId != 0 && consumableId != 0)
    ensures r.1 == Failed <==> partId != 0 && consumableId != 0 && !EndsExist(db, ConsumableKind, partId, consumableId)
    ensures r.1 == Ignored || r.1 == Failed || r.1 == Done
    ensures r.1 != Done ==> r.0 == db
    ensures r.1 == Done ==>
      && r.0 == db.(bom := db.bom.(consumables := r.0.bom.consumables))
      && Upserted(db.bom.consumables, r.0.bom.consumables, partId, consumableId, ConsumableEdge(required, step, notes))
  {
    if !(partId != 0 && consumableId != 0) then (db, Ignored)
    else
      match UpsertEdge(db, ConsumableKind, db.bom.consumables, partId, consumableId, ConsumableEdge(required, step, notes))
      case None => (db, Failed)
      case Some(m) => (db.(bom := db.bom.(consumables := m)), Done)
  }

  /** `add_packaging`: the quantity is always 1 and both partition flags are stored exactly
      as posted; nothing on the server keeps them exclusive. */
  function UpsertPackaging(db: Db, partId: int, packagingId: int, partitionRequired: bool, builtInPartitions: bool): (r: (Db, Outcome))
    ensures r.1 == Ignored <==> !(partId != 0 && packagingId != 0)
    ensures r.1 == Failed <==> partId != 0 && packagingId != 0 && !EndsExist(db, PackagingKind, partId, packagingId)
    ensures r.1 == Ignored || r.1 == Failed || r.1 == Done
    ensures r.1 != Done ==> r.0 == db
    ensures r.1 == Done ==>
      && r.0 == db.(bom := db.bom.(packaging := r.0.bom.packaging))
      && Upserted(db.bom.packaging, r.0.bom.packaging, partId, packagingId, PackagingEdge(1, partitionRequired, builtInPartitions))
  {
    if !(partId != 0 && packagingId != 0) then (db, Ignored)
    else
      match UpsertEdge(db, PackagingKind, db.bom.packaging, partId, packagingId, PackagingEdge(1, partitionRequired, builtInPartitions))
      case None => (db, Failed)
      case Some(m) => (db.(bom := db.bom.(packaging := m)), Done)
  }

  /** The junction table `remove_bom_item` picks for a posted item_type; any other string picks none. */
  function KindOfItemType(s: string): (r: Option<ItemKind>)
    ensures r.Some? ==> r.value != PartKind
    ensures r == Some(MaterialKind) <==> s == "material"
    ensures r == Some(ComponentKind) <==> s == "component"
    ensures r == Some(ConsumableKind) <==> s == "consumable"
    ensures r == Some(PackagingKind) <==> s == "packaging"
  {
    if s == "material" then Some(MaterialKind)
    else if s == "component" then Some(ComponentKind)
    else if s == "consumable" then Some(ConsumableKind)
    else if s == "packaging" then Some(PackagingKind)
    else None
  }

  /** The edge (partId, itemId) of kind k is gone from `after`, and the other three junction
      tables are as they were. */
  ghost predicate DroppedEdge(before: Bom, after: Bom, k: ItemKind, partId: int, itemId: int) {
    && (if k == MaterialKind then Removed(before.materials, after.materials, partId, itemId) else after.materials == before.materials)
    && (if k == ComponentKind then Removed(before.components, after.components, partId, itemId) else after.components == before.components)
    && (if k == ConsumableKind then Removed(before.consumables, after.consumables, partId, itemId) else after.consumables == before.consumables)
    && (if k == PackagingKind then Removed(before.packaging, after.packaging, partId, itemId) else after.packaging == before.packaging)
  }

  /** `remove_bom_item`: deletes the one edge named by (part, kind, item). An unknown kind
      does nothing, and an absent edge is removed without complaint. */
  function RemoveItem(db: Db, partId: int, itemType: string, itemId: int): (r: (Db, Outcome))
    ensures r.1 == Done <==> partId != 0 && !IsEmpty(itemType) && itemId != 0 && KindOfItemType(itemType).Some?
    ensures r.1 == Done || r.1 == Ignored
    ensures r.1 == Ignored ==> r.0 == db
    ensures r.1 == Done ==>
      && r.0 == db.(bom := r.0.bom)
      && DroppedEdge(db.bom, r.0.bom, KindOfItemType(itemType).value, partId, itemId)
  {
    if !(partId != 0 && !IsEmpty(itemType) && itemId != 0) then (db, Ignored)
    else
      match KindOfItemType(itemType)
      case None => (db, Ignored)
      case Some(k) =>
        var b := db.bom;
        var b' :=
          match k
          case MaterialKind => b.(materials := DeleteEdge(b.materials, partId, itemId))
          case ComponentKind => b.(components := DeleteEdge(b.components, partId, itemId))
          case ConsumableKind => b.(consumables := DeleteEdge(b.consumables, partId, itemId))
          case PackagingKind => b.(packaging := DeleteEdge(b.packaging, partId, itemId))
          case PartKind => b;
        (db.(bom := b'), Done)
  }

  // ---------------------------------------------------------------------------
  // Quick add: create the item, then link it with a plain INSERT

  /** Every required text field of a quick-add form is filled in. */
  predicate Filled(fields: seq<string>) {
    forall i :: 0 <= i < |fields| ==> Truthy(Validate(fields[i], true, StringField))
  }

  /** The plain INSERT linking part partId to a just-created item with id newId is refused:
      the part does not exist, or the junction table already holds that key. */
  predicate LinkRefused<V>(db: Db, m: map<EdgeKey, V>, partId: int, newId: int) {
    !HasItem(db, PartKind, partId) || KeyTaken(m, partId, newId)
  }

  /** In a well-formed store no edge names an id the table has not handed out yet, so the
      link to a new item is refused exactly when the part is missing. */
  lemma LinkRefusedIffNoPart<V>(db: Db, m: map<EdgeKey, V>, k: ItemKind, partId: int)
    requires EdgesOk(db, m, k)
    ensures LinkRefused(db, m, partId, NextItemId(Table(db, k))) <==> !HasItem(db, PartKind, partId)
  {
  }

  /** `quick_add_material`: insert the material (a repeated part number is refused), then,
      when a part and a positive quantity are posted, insert the edge. The two statements
      share no transaction: when the edge insert fails, with SQLSTATE 23000 and so with the
      "part number already exists" message, the new material stays without an edge. */
  function CreateMaterial(db: Db, partNumber: string, name: string, typeName: string, unit: string,
                          supplier: string, partId: int, quantity: real): (r: (Db, Outcome))
    ensures r.1 == Ignored <==> !Filled([partNumber, name, typeName, unit])
    ensures r.1 == Duplicate <==>
      && Filled([partNumber, name, typeName, unit])
      && (|| PartNumberTaken(db.materials, Some(partNumber))
          || (partId != 0 && quantity > 0.0 && LinkRefused(db, db.bom.materials, partId, NextItemId(db.materials))))
    ensures r.1 == Ignored || r.1 == Duplicate || r.1 == Done
    ensures r.1 == Done <==>
      && Filled([partNumber, name, typeName, unit]) && !PartNumberTaken(db.materials, Some(partNumber))
      && !(partId != 0 && quantity > 0.0 && LinkRefused(db, db.bom.materials, partId, NextItemId(db.materials)))
    ensures r.0 == db.(materials := r.0.materials, bom := db.bom.(materials := r.0.bom.materials))
    ensures Filled([partNumber, name, typeName, unit]) && !PartNumberTaken(db.materials, Some(partNumber)) ==>
      r.0.materials == db.materials + [Item(NextItemId(db.materials), name, 0.0, 0.0,
                                            MaterialInfo(Sourcing(typeName, supplier, None), Some(partNumber), unit))]
    ensures !Filled([partNumber, name, typeName, unit]) || PartNumberTaken(db.materials, Some(partNumber)) ==> r.0 == db
    ensures r.1 != Done ==> r.0.bom == db.bom
    ensures r.1 == Done && partId != 0 && quantity > 0.0 ==>
      Upserted(db.bom.materials, r.0.bom.materials, partId, NextItemId(db.materials), Store(Decimal4, quantity))
    ensures r.1 == Done && !(partId != 0 && quantity > 0.0) ==> r.0.bom == db.bom
  {
    if !Filled([partNumber, name, typeName, unit]) then (db, Ignored)
    else
      var info := MaterialInfo(Sourcing(typeName, supplier, None), Some(partNumber), unit);
      var ins := Insert(db, name, 0.0, 0.0, info);
      var d := ins.0;
      if ins.1 == Duplicate then (db, Duplicate)
      else if !(partId != 0 && quantity > 0.0) then (d, Done)
      else
        NewRowPresent(d, MaterialKind);
        match InsertEdge(d, MaterialKind, d.bom.materials, partId, NewId(d, MaterialKind), Store(Decimal4, quantity))
        case None => (d, Duplicate)
        case Some(m) => (d.(bom := d.bom.(materials := m)), Done)
  }

  /** `quick_add_component`: insert the component, then, with a part and a positive count,
      the edge; a failed edge insert leaves the component and shows the generic error. */
  function CreateComponent(db: Db, name: string, typeName: string, supplier: string, leadTime: int,
                           partId: int, count: int): (r: (Db, Outcome))
    ensures r.1 == Ignored <==> !Filled([name, typeName])
    ensures r.1 == Failed <==>
      Filled([name, typeName]) && partId != 0 && count > 0
      && LinkRefused(db, db.bom.components, partId, NextItemId(db.components))
    ensures r.1 == Ignored || r.1 == Failed || r.1 == Done
    ensures r.0 == db.(components := r.0.components, bom := db.bom.(components := r.0.bom.components))
    ensures r.1 == Ignored ==> r.0 == db
    ensures r.1 != Ignored ==>
      r.0.components == db.components + [Item(NextItemId(db.components), name, 0.0, 0.0,
                                              ComponentInfo(Sourcing(typeName, supplier, Some(leadTime))))]
    ensures r.1 != Done ==> r.0.bom == db.bom
    ensures r.1 == Done && partId != 0 && count > 0 ==>
      Upserted(db.bom.components, r.0.bom.components, partId, NextItemId(db.components), count)
    ensures r.1 == Done && !(partId != 0 && count > 0) ==> r.0.bom == db.bom
  {
    if !Filled([name, typeName]) then (db, Ignored)
    else
      var d := Insert(db, name, 0.0, 0.0, ComponentInfo(Sourcing(typeName, supplier, Some(leadTime)))).0;
      if !(partId != 0 && count > 0) then (d, Done)
      else
        NewRowPresent(d, ComponentKind);
        match InsertEdge(d, ComponentKind, d.bom.components, partId, NewId(d, ComponentKind), count)
        case None => (d, Failed)
        case Some(m) => (d.(bom := d.bom.(components := m)), Done)
  }

  /** `quick_add_consumable`: insert the consumable, then, with a part posted, the edge. */
  function CreateConsumable(db: Db, name: string, typeName: string, containerSize: string, supplier: string,
                            leadTime: int, partId: int, required: bool, step: int, notes: string): (r: (Db, Outcome))
    ensures r.1 == Ignored <==> !Filled([name, typeName, containerSize])
    ensures r.1 == Failed <==>
      Filled([name, typeName, containerSize]) && partId != 0
      && LinkRefused(db, db.bom.consumables, partId, NextItemId(db.consumables))
    ensures r.1 == Ignored || r.1 == Failed || r.1 == Done
    ensures r.0 == db.(consumables := r.0.consumables, bom := db.bom.(consumables := r.0.bom.consumables))
    ensures r.1 == Ignored ==> r.0 == db
    ensures r.1 != Ignored ==>
      r.0.consumables == db.consumables + [Item(NextItemId(db.consumables), name, 0.0, 0.0,
                                                ConsumableInfo(Sourcing(typeName, supplier, Some(leadTime)), containerSize))]
    ensures r.1 != Done ==> r.0.bom == db.bom
    ensures r.1 == Done && partId != 0 ==>
      Upserted(db.bom.consumables, r.0.bom.consumables, partId, NextItemId(db.consumables), ConsumableEdge(required, step, notes))
    ensures r.1 == Done && partId == 0 ==> r.0.bom == db.bom
  {
    if !Filled([name, typeName, containerSize]) then (db, Ignored)
    else
      var info := ConsumableInfo(Sourcing(typeName, supplier, Some(leadTime)), containerSize);
      var d := Insert(db, name, 0.0, 0.0, info).0;
      if partId == 0 then (d, Done)
      else
        NewRowPresent(d, ConsumableKind);
        match InsertEdge(d, ConsumableKind, d.bom.consumables, partId, NewId(d, ConsumableKind), ConsumableEdge(required, step, notes))
        case None => (d, Failed)
        case Some(m) => (d.(bom := d.bom.(consumables := m)), Done)
  }

  /** `quick_add_packaging`: besides the four required fields, QPC and containers per skid
      must be positive. The packaging row is inserted (a repeated part number is refused),
      then, with a part posted, the edge with quantity 1 and the flags as posted; a failed
      edge insert reports 23000 and leaves the row. */
  function CreatePackaging(db: Db, partNumber: string, name: string, typeName: string, category: string,
                           parent: Option<int>, qpc: int, containersPerSkid: int, supplier: string, leadTime: int,
                           partId: int, partitionRequired: bool, builtInPartitions: bool): (r: (Db, Outcome))
    ensures r.1 == Ignored <==> !(Filled([partNumber, name, typeName, category]) && qpc > 0 && containersPerSkid > 0)
    ensures r.1 == Duplicate <==>
      && Filled([partNumber, name, typeName, category]) && qpc > 0 && containersPerSkid > 0
      && (|| PartNumberTaken(db.packaging, Some(partNumber))
          || (partId != 0 && LinkRefused(db, db.bom.packaging, partId, NextItemId(db.packaging))))
    ensures r.1 == Ignored || r.1 == Duplicate || r.1 == Done
    ensures r.1 == Done <==>
      && Filled([partNumber, name, typeName, category]) && qpc > 0 && containersPerSkid > 0
      && !PartNumberTaken(db.packaging, Some(partNumber))
      && !(partId != 0 && LinkRefused(db, db.bom.packaging, partId, NextItemId(db.packaging)))
    ensures r.0 == db.(packaging := r.0.packaging, bom := db.bom.(packaging := r.0.bom.packaging))
    ensures r.1 != Ignored && !PartNumberTaken(db.packaging, Some(partNumber)) ==>
      r.0.packaging == db.packaging + [Item(NextItemId(db.packaging), name, 0.0, 0.0,
            PackagingInfo(Sourcing(typeName, supplier, Some(leadTime)), Some(partNumber), Some(category),
                          parent, Some(qpc), Some(containersPerSkid)))]
    ensures r.1 == Ignored || PartNumberTaken(db.packaging, Some(partNumber)) ==> r.0 == db
    ensures r.1 != Done ==> r.0.bom == db.bom
    ensures r.1 == Done && partId != 0 ==>
      Upserted(db.bom.packaging, r.0.bom.packaging, partId, NextItemId(db.packaging),
               PackagingEdge(1, partitionRequired, builtInPartitions))
    ensures r.1 == Done && partId == 0 ==> r.0.bom == db.bom
  {
    if !(Filled([partNumber, name, typeName, category]) && qpc > 0 && containersPerSkid > 0) then (db, Ignored)
    else
      var info := PackagingInfo(Sourcing(typeName, supplier, Some(leadTime)), Some(partNumber), Some(category),
                                parent, Some(qpc), Some(containersPerSkid));
      var ins := Insert(db, name, 0.0, 0.0, info);
      var d := ins.0;
      if ins.1 == Duplicate then (db, Duplicate)
      else if partId == 0 then (d, Done)
      else
        NewRowPresent(d, PackagingKind);
        match InsertEdge(d, PackagingKind, d.bom.packaging, partId, NewId(d, PackagingKind),
                         PackagingEdge(1, partitionRequired, builtInPartitions))
        case None => (d, Duplicate)
        case Some(m) => (d.(bom := d.bom.(packaging := m)), Done)
  }

  // ---------------------------------------------------------------------------
  // The client-side partition checkboxes (bom.php:1383-1394)

  /** Which of the two partition checkboxes a change event came from. */
  datatype PartitionBox = PartitionRequiredBox | BuiltInPartitionsBox

  /** The change handler: the changed box takes its new state, and checking one box
      clears the other. */
  function OnPartitionChange(flags: (bool, bool), box: PartitionBox, checked: bool): (r: (bool, bool))
    ensures checked ==> (box == PartitionRequiredBox <==> r.0) && (box == BuiltInPartitionsBox <==> r.1)
    ensures !checked ==> (box == PartitionRequiredBox ==> !r.0 && r.1 == flags.1)
    ensures !checked ==> (box == BuiltInPartitionsBox ==> !r.1 && r.0 == flags.0)
  {
    match box
    case PartitionRequiredBox => (checked, if checked then false else flags.1)
    case BuiltInPartitionsBox => (if checked then false else flags.0, checked)
  }

  // ---------------------------------------------------------------------------
  // Properties

  /** Upserting the same key twice is upserting it once with the second value. */
  lemma UpsertedTwice<V>(m0: map<EdgeKey, V>, m1: map<EdgeKey, V>, m2: map<EdgeKey, V>,
                         partId: int, itemId: int, v1: V, v2: V)
    requires Upserted(m0, m1, partId, itemId, v1) && Upserted(m1, m2, partId, itemId, v2)
    ensures Upserted(m0, m2, partId, itemId, v2)
  {
  }

  /** Adding a material that is already on the BOM leaves one edge holding the latest
      quantity: the earlier add leaves no trace. */
  lemma AddMaterialTwice(db: Db, partId: int, materialId: int, q1: real, q2: real)
    requires UpsertMaterial(db, partId, materialId, q1).1 == Done && q2 > 0.0
    ensures UpsertMaterial(UpsertMaterial(db, partId, materialId, q1).0, partId, materialId, q2).0
         == UpsertMaterial(db, partId, materialId, q2).0
  {
    var d1 := UpsertMaterial(db, partId, materialId, q1).0;
    EndsNat(db, MaterialKind, partId, materialId);
    var key: EdgeKey := (partId, materialId);
    assert d1.bom.materials == db.bom.materials[key := Store(Decimal4, q1)];
    assert EndsExist(d1, MaterialKind, partId, materialId);
    assert d1.bom.materials[key := Store(Decimal4, q2)] == db.bom.materials[key := Store(Decimal4, q2)];
  }

  /** Re-adding a consumable overwrites `required`, the step and the notes together. */
  lemma AddConsumableTwice(db: Db, partId: int, consumableId: int, r1: bool, s1: int, n1: string,
                           r2: bool, s2: int, n2: string)
    requires UpsertConsumable(db, partId, consumableId, r1, s1, n1).1 == Done
    ensures UpsertConsumable(UpsertConsumable(db, partId, consumableId, r1, s1, n1).0, partId, consumableId, r2, s2, n2)
         == UpsertConsumable(db, partId, consumableId, r2, s2, n2)
  {
    var d1 := UpsertConsumable(db, partId, consumableId, r1, s1, n1).0;
    EndsNat(db, ConsumableKind, partId, consumableId);
    var key: EdgeKey := (partId, consumableId);
    assert d1.bom.consumables == db.bom.consumables[key := ConsumableEdge(r1, s1, n1)];
    assert EndsExist(d1, ConsumableKind, partId, consumableId);
    assert d1.bom.consumables[key := ConsumableEdge(r2, s2, n2)] == db.bom.consumables[key := ConsumableEdge(r2, s2, n2)];
  }

  /** The client handler never leaves both boxes checked once it has run on a state that
      had at most one, yet the server stores both flags set when both are posted. */
  lemma PartitionFlagsExclusiveOnlyInClient(db: Db, partId: int, packagingId: int,
                                            flags: (bool, bool), box: PartitionBox, checked: bool)
    requires !(flags.0 && flags.1)
    requires partId != 0 && packagingId != 0 && EndsExist(db, PackagingKind, partId, packagingId)
    ensures var f := OnPartitionChange(flags, box, checked); !(f.0 && f.1)
    ensures var (r, o) := UpsertPackaging(db, partId, packagingId, true, true);
      && o == Done
      && (exists key :: key in r.bom.packaging && IsKey(key, partId, packagingId)
                        && r.bom.packaging[key].partitionRequired && r.bom.packaging[key].builtInPartitions)
  {
    var (r, o) := UpsertPackaging(db, partId, packagingId, true, true);
    EndsNat(db, PackagingKind, partId, packagingId);
    var key: EdgeKey := (partId, packagingId);
    assert key in r.bom.packaging;
  }

  /** Removing an edge that an add has just created gives back the store as it was. */
  lemma RemoveUndoesAdd(db: Db, partId: int, materialId: int, quantity: real)
    requires !KeyTaken(db.bom.materials, partId, materialId)
    requires UpsertMaterial(db, partId, materialId, quantity).1 == Done
    ensures RemoveItem(UpsertMaterial(db, partId, materialId, quantity).0, partId, "material", materialId).0 == db
  {
    var d1 := UpsertMaterial(db, partId, materialId, quantity).0;
    var d2 := RemoveItem(d1, partId, "material", materialId).0;
    assert d2.bom.materials == db.bom.materials by {
      forall key ensures key in d2.bom.materials <==> key in db.bom.materials {
        if IsKey(key, partId, materialId) {
          assert key !in db.bom.materials;
        }
      }
    }
  }

  /** Removing an edge twice is removing it once. */
  lemma RemoveIdempotent(db: Db, partId: int, itemType: string, itemId: int)
    ensures RemoveItem(RemoveItem(db, partId, itemType, itemId).0, partId, itemType, itemId).0
         == RemoveItem(db, partId, itemType, itemId).0
    ensures RemoveItem(RemoveItem(db, partId, itemType, itemId).0, partId, itemType, itemId).1
         == RemoveItem(db, partId, itemType, itemId).1
  {
    var d1 := RemoveItem(db, partId, itemType, itemId).0;
    if RemoveItem(db, partId, itemType, itemId).1 == Done {
      var d2 := RemoveItem(d1, partId, itemType, itemId).0;
      DroppedTwice(db.bom, d1.bom, d2.bom, KindOfItemType(itemType).value, partId, itemId);
    }
  }

  /** Dropping the same edge twice leaves what dropping it once left. */
  lemma DroppedTwice(b0: Bom, b1: Bom, b2: Bom, k: ItemKind, partId: int, itemId: int)
    requires DroppedEdge(b0, b1, k, partId, itemId) && DroppedEdge(b1, b2, k, partId, itemId)
    ensures b2 == b1
  {
    match k
    case MaterialKind => RemovedTwice(b0.materials, b1.materials, b2.materials, partId, itemId);
    case ComponentKind => RemovedTwice(b0.components, b1.components, b2.components, partId, itemId);
    case ConsumableKind => RemovedTwice(b0.consumables, b1.consumables, b2.consumables, partId, itemId);
    case PackagingKind => RemovedTwice(b0.packaging, b1.packaging, b2.packaging, partId, itemId);
    case PartKind =>
  }

  lemma RemovedTwice<V>(m0: map<EdgeKey, V>, m1: map<EdgeKey, V>, m2: map<EdgeKey, V>, partId: int, itemId: int)
    requires Removed(m0, m1, partId, itemId) && Removed(m1, m2, partId, itemId)
    ensures m2 == m1
  {
  }

  /** Quick add is not atomic: with a part id that names no part, the material is created,
      no edge is written, and the page reports that the part number already exists. */
  lemma QuickAddLeavesOrphan(db: Db, partNumber: string, name: string, typeName: string, unit: string,
                             supplier: string, partId: int, quantity: real)
    requires Filled([partNumber, name, typeName, unit]) && partId != 0 && quantity > 0.0
    requires !PartNumberTaken(db.materials, Some(partNumber)) && !HasItem(db, PartKind, partId)
    ensures CreateMaterial(db, partNumber, name, typeName, unit, supplier, partId, quantity).1 == Duplicate
    ensures |CreateMaterial(db, partNumber, name, typeName, unit, supplier, partId, quantity).0.materials| == |db.materials| + 1
    ensures CreateMaterial(db, partNumber, name, typeName, unit, supplier, partId, quantity).0.bom == db.bom
  {
    var info := MaterialInfo(Sourcing(typeName, supplier, None), Some(partNumber), unit);
    assert PartNumberOf(Item(0, name, 0.0, 0.0, info)) == Some(partNumber);
    var d := Insert(db, name, 0.0, 0.0, info).0;
    assert Insert(db, name, 0.0, 0.0, info).1 == Done;
    assert Table(d, PartKind) == Table(db, PartKind);
    assert !EndsExist(d, MaterialKind, partId, NewId(d, MaterialKind));
  }

  /** When every material edge names existing rows, as in a well-formed store, a material
      quick add completes exactly when the form is filled, the part number is new, and the
      posted part exists whenever a link is asked for. */
  lemma CreateMaterialDone(db: Db, partNumber: string, name: string, typeName: string, unit: string,
                           supplier: string, partId: int, quantity: real)
    requires EdgesOk(db, db.bom.materials, MaterialKind)
    ensures CreateMaterial(db, partNumber, name, typeName, unit, supplier, partId, quantity).1 == Done <==>
      && Filled([partNumber, name, typeName, unit]) && !PartNumberTaken(db.materials, Some(partNumber))
      && (partId != 0 && quantity > 0.0 ==> HasItem(db, PartKind, partId))
  {
    LinkRefusedIffNoPart(db, db.bom.materials, MaterialKind, partId);
  }

  /** When every component edge names existing rows, a component quick add fails exactly
      when a link is asked for and the posted part does not exist. */
  lemma CreateComponentFails(db: Db, name: string, typeName: string, supplier: string, leadTime: int,
                             partId: int, count: int)
    requires EdgesOk(db, db.bom.components, ComponentKind)
    ensures CreateComponent(db, name, typeName, supplier, leadTime, partId, count).1 == Failed <==>
      Filled([name, typeName]) && partId != 0 && count > 0 && !HasItem(db, PartKind, partId)
  {
    LinkRefusedIffNoPart(db, db.bom.components, ComponentKind, partId);
  }

  /** When every consumable edge names existing rows, a consumable quick add fails exactly
      when a part is posted that does not exist. */
  lemma CreateConsumableFails(db: Db, name: string, typeName: string, containerSize: string, supplier: string,
                              leadTime: int, partId: int, required: bool, step: int, notes: string)
    requires EdgesOk(db, db.bom.consumables, ConsumableKind)
    ensures CreateConsumable(db, name, typeName, containerSize, supplier, leadTime, partId, required, step, notes).1 == Failed <==>
      Filled([name, typeName, containerSize]) && partId != 0 && !HasItem(db, PartKind, partId)
  {
    LinkRefusedIffNoPart(db, db.bom.consumables, ConsumableKind, partId);
  }

  /** When every packaging edge names existing rows, a packaging quick add completes exactly
      when the form is filled, the part number is new, and a posted part exists. */
  lemma CreatePackagingDone(db: Db, partNumber: string, name: string, typeName: string, category: string,
                            parent: Option<int>, qpc: int, containersPerSkid: int, supplier: string, leadTime: int,
                            partId: int, partitionRequired: bool, builtInPartitions: bool)
    requires EdgesOk(db, db.bom.packaging, PackagingKind)
    ensures CreatePackaging(db, partNumber, name, typeName, category, parent, qpc, containersPerSkid, supplier,
                            leadTime, partId, partitionRequired, builtInPartitions).1 == Done <==>
      && Filled([partNumber, name, typeName, category]) && qpc > 0 && containersPerSkid > 0
      && !PartNumberTaken(db.packaging, Some(partNumber))
      && (partId != 0 ==> HasItem(db, PartKind, partId))
  {
    LinkRefusedIffNoPart(db, db.bom.packaging, PackagingKind, partId);
  }

  // ---------------------------------------------------------------------------
  // Every request keeps the schema's constraints

  lemma EdgesOkAfterUpsert<V>(db: Db, m: map<EdgeKey, V>, m': map<EdgeKey, V>, k: ItemKind, partId: int, itemId: int, v: V)
    requires EdgesOk(db, m, k) && Upserted(m, m', partId, itemId, v) && EndsExist(db, k, partId, itemId)
    ensures EdgesOk(db, m', k)
  {
  }

  /** Replacing the junction tables by ones whose ends all exist keeps the store well-formed. */
  lemma WellFormedWithBom(db: Db, b: Bom)
    requires WellFormed(db)
    requires EdgesOk(db, b.materials, MaterialKind) && EdgesOk(db, b.components, ComponentKind)
    requires EdgesOk(db, b.consumables, ConsumableKind) && EdgesOk(db, b.packaging, PackagingKind)
    ensures WellFormed(db.(bom := b))
  {
    var r := db.(bom := b);
    forall k ensures TableOk(Table(r, k), k) {
      TableOkOf(db, k);
    }
    SameTablesEdgesOk(db, r, b.materials, MaterialKind);
    SameTablesEdgesOk(db, r, b.components, ComponentKind);
    SameTablesEdgesOk(db, r, b.consumables, ConsumableKind);
    SameTablesEdgesOk(db, r, b.packaging, PackagingKind);
  }

  lemma EdgesOkSubset<V>(db: Db, m: map<EdgeKey, V>, m': map<EdgeKey, V>, k: ItemKind)
    requires EdgesOk(db, m, k) && m'.Keys <= m.Keys
    ensures EdgesOk(db, m', k)
  {
  }

  /** Every request to the BOM page leaves a well-formed store well-formed: an edge is
      written only when both of its ends exist. */
  lemma HandleWellFormed(db: Db, a: Actor, req: Request)
    requires WellFormed(db)
    ensures WellFormed(Handle(db, a, req).0)
  {
    if req.AddMaterial? || req.AddComponent? || req.AddConsumable? || req.AddPackaging? {
      HandleAddWellFormed(db, a, req);
    } else if req.RemoveBomItem? {
      HandleRemoveWellFormed(db, a, req);
    } else {
      HandleQuickWellFormed(db, a, req);
    }
  }

  lemma HandleAddWellFormed(db: Db, a: Actor, req: Request)
    requires WellFormed(db)
    requires req.AddMaterial? || req.AddComponent? || req.AddConsumable? || req.AddPackaging?
    ensures WellFormed(Handle(db, a, req).0)
  {
    var (r, o) := Handle(db, a, req);
    if o == Done {
      match req {
        case AddMaterial(p, i, q) =>
          EdgesOkAfterUpsert(db, db.bom.materials, r.bom.materials, MaterialKind, p, i, Store(Decimal4, q));
        case AddComponent(p, i, n) =>
          EdgesOkAfterUpsert(db, db.bom.components, r.bom.components, ComponentKind, p, i, n);
        case AddConsumable(p, i, req', step, notes) =>
          EdgesOkAfterUpsert(db, db.bom.consumables, r.bom.consumables, ConsumableKind, p, i, ConsumableEdge(req', step, notes));
        case AddPackaging(p, i, pr, bi) =>
          EdgesOkAfterUpsert(db, db.bom.packaging, r.bom.packaging, PackagingKind, p, i, PackagingEdge(1, pr, bi));
      }
      WellFormedWithBom(db, r.bom);
    }
  }

  lemma HandleRemoveWellFormed(db: Db, a: Actor, req: Request)
    requires WellFormed(db) && req.RemoveBomItem?
    ensures WellFormed(Handle(db, a, req).0)
  {
    var (r, o) := Handle(db, a, req);
    if o == Done {
      EdgesOkSubset(db, db.bom.materials, r.bom.materials, MaterialKind);
      EdgesOkSubset(db, db.bom.components, r.bom.components, ComponentKind);
      EdgesOkSubset(db, db.bom.consumables, r.bom.consumables, ConsumableKind);
      EdgesOkSubset(db, db.bom.packaging, r.bom.packaging, PackagingKind);
      WellFormedWithBom(db, r.bom);
    }
  }

  lemma HandleQuickWellFormed(db: Db, a: Actor, req: Request)
    requires WellFormed(db)
    requires req.QuickAddMaterial? || req.QuickAddComponent? || req.QuickAddConsumable? || req.QuickAddPackaging?
    ensures WellFormed(Handle(db, a, req).0)
  {
    if MayPost(a, "view_bom", PermissionFor(req)) {
      match req {
        case QuickAddMaterial(pn, n, t, u, s, p, q) =>
          QuickAddMaterialWellFormed(db, pn, n, t, u, s, p, q);
        case QuickAddComponent(n, t, s, lt, p, c) =>
          QuickAddComponentWellFormed(db, n, t, s, lt, p, c);
        case QuickAddConsumable(n, t, cs, s, lt, p, req', step, notes) =>
          QuickAddConsumableWellFormed(db, n, t, cs, s, lt, p, req', step, notes);
        case QuickAddPackaging(pn, n, t, cat, par, qpc, cps, s, lt, p, pr, bi) =>
          QuickAddPackagingWellFormed(db, pn, n, t, cat, par, qpc, cps, s, lt, p, pr, bi);
      }
    }
  }

  lemma QuickAddMaterialWellFormed(db: Db, pn: string, n: string, t: string, u: string, s: string, p: int, q: real)
    requires WellFormed(db)
    ensures WellFormed(CreateMaterial(db, pn, n, t, u, s, p, q).0)
  {
    if Filled([pn, n, t, u]) {
      var info := MaterialInfo(Sourcing(t, s, None), Some(pn), u);
      InsertWellFormed(db, n, 0.0, 0.0, info);
      var (d, o) := Insert(db, n, 0.0, 0.0, info);
      if o != Duplicate && p != 0 && q > 0.0 {
        var v := Store(Decimal4, q);
        match InsertEdge(d, MaterialKind, d.bom.materials, p, NewId(d, MaterialKind), v)
        case None =>
        case Some(m) =>
          EdgesOkAfterUpsert(d, d.bom.materials, m, MaterialKind, p, NewId(d, MaterialKind), v);
          WellFormedWithBom(d, d.bom.(materials := m));
      }
    }
  }

  lemma QuickAddComponentWellFormed(db: Db, n: string, t: string, s: string, lt: int, p: int, c: int)
    requires WellFormed(db)
    ensures WellFormed(CreateComponent(db, n, t, s, lt, p, c).0)
  {
    if Filled([n, t]) {
      var info := ComponentInfo(Sourcing(t, s, Some(lt)));
      InsertWellFormed(db, n, 0.0, 0.0, info);
      var d := Insert(db, n, 0.0, 0.0, info).0;
      if p != 0 && c > 0 {
        match InsertEdge(d, ComponentKind, d.bom.components, p, NewId(d, ComponentKind), c)
        case None =>
        case Some(m) =>
          EdgesOkAfterUpsert(d, d.bom.components, m, ComponentKind, p, NewId(d, ComponentKind), c);
          WellFormedWithBom(d, d.bom.(components := m));
      }
    }
  }

  lemma QuickAddConsumableWellFormed(db: Db, n: string, t: string, cs: string, s: string, lt: int,
                                     p: int, req: bool, step: int, notes: string)
    requires WellFormed(db)
    ensures WellFormed(CreateConsumable(db, n, t, cs, s, lt, p, req, step, notes).0)
  {
    if Filled([n, t, cs]) {
      var info := ConsumableInfo(Sourcing(t, s, Some(lt)), cs);
      InsertWellFormed(db, n, 0.0, 0.0, info);
      var (d, _) := Insert(db, n, 0.0, 0.0, info);
      if p != 0 {
        var v := ConsumableEdge(req, step, notes);
        match InsertEdge(d, ConsumableKind, d.bom.consumables, p, NewId(d, ConsumableKind), v)
        case None =>
        case Some(m) =>
          EdgesOkAfterUpsert(d, d.bom.consumables, m, ConsumableKind, p, NewId(d, ConsumableKind), v);
          WellFormedWithBom(d, d.bom.(consumables := m));
      }
    }
  }

  lemma QuickAddPackagingWellFormed(db: Db, pn: string, n: string, t: string, cat: string, par: Option<int>,
                                    qpc: int, cps: int, s: string, lt: int, p: int, pr: bool, bi: bool)
    requires WellFormed(db)
    ensures WellFormed(CreatePackaging(db, pn, n, t, cat, par, qpc, cps, s, lt, p, pr, bi).0)
  {
    if Filled([pn, n, t, cat]) && qpc > 0 && cps > 0 {
      var info := PackagingInfo(Sourcing(t, s, Some(lt)), Some(pn), Some(cat), par, Some(qpc), Some(cps));
      InsertWellFormed(db, n, 0.0, 0.0, info);
      var (d, o) := Insert(db, n, 0.0, 0.0, info);
      if o != Duplicate && p != 0 {
        var v := PackagingEdge(1, pr, bi);
        match InsertEdge(d, PackagingKind, d.bom.packaging, p, NewId(d, PackagingKind), v)
        case None =>
        case Some(m) =>
          EdgesOkAfterUpsert(d, d.bom.packaging, m, PackagingKind, p, NewId(d, PackagingKind), v);
          WellFormedWithBom(d, d.bom.(packaging := m));
      }
    }
  }
}

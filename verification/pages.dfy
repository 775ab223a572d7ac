/** The catalog pages' own handlers: `add_part` (parts.php:16-40), `add_material`
    (materials.php:16-37), `add_component` (components.php:16-36), `add_consumable`
    (consumables.php:16-37), `add_packaging` (packaging.php:16-36), and each page's
    `update_stock` (parts.php:42-52 and the like). Optional numeric fields arrive as
    `validateAndSanitizeInput` returns them; required text fields as posted. */
module CatalogPages {
  import opened Base
  import opened Numeric
  import opened Schema
  import opened Catalog
  import opened Auth
  import opened Input
  import opened Ledger
  import Status

  /** The value `parts.part_type ENUM('shoot_ship', 'value_added')` stores for a posted
      string: a label as itself, anything else, outside strict mode, as the error value `''`. */
  function StoredPartType(s: string): (r: PartType)
    ensures r == ShootShip <==> s == "shoot_ship"
    ensures r == ValueAdded <==> s == "value_added"
    ensures r == BlankType <==> s != "shoot_ship" && s != "value_added"
  {
    if s == "shoot_ship" then ShootShip
    else if s == "value_added" then ValueAdded
    else BlankType
  }

  /** `lead_time_days` validated as an optional integer. A value that does not validate
      leaves PHP `false`, which PDO binds as `''` and the INT column stores as 0. */
  function LeadTime(v: Validated): (r: Option<int>)
    ensures r.Some?
    ensures v.Whole? ==> r.value == v.whole
    ensures !v.Whole? ==> r.value == 0
  {
    Some(if v.Whole? then v.whole else 0)
  }

  /** A blank lead-time field stores 0, and a posted integer stores its value. */
  lemma BlankLeadTimeZero(s: string)
    ensures Trim(s) == "" ==> LeadTime(Validate(s, false, IntField)) == Some(0)
    ensures ParseInt(s).Some? ==> LeadTime(Validate(s, false, IntField)) == Some(ParseInt(s).value)
  {
    if Trim(s) == "" {
      BlankNotNumber(s);
    }
  }

  /** The permission the page of kind k checks at its top: parts.php needs `view_parts`,
      the four inventory pages `view_inventory`. */
  function ViewPermission(k: ItemKind): string {
    if k == PartKind then "view_parts" else "view_inventory"
  }

  /** A handler that needs one name: denied without the page's view permission or the
      action's permission, "Please fill in ..." for a blank name, otherwise the INSERT. */
  function AddNamed(db: Db, a: Actor, view: string, permission: string, name: string, stock: real, reorder: real, info: Info): (r: (Db, Outcome))
    ensures !HasPermission(a, view) ==> r == (db, Denied)
    ensures !HasPermission(a, permission) ==> r == (db, Denied)
    ensures r.1 == Denied <==> !MayPost(a, view, permission)
    ensures r.1 == Incomplete <==> MayPost(a, view, permission) && IsBlank(name)
    ensures r.1 != Done ==> r.0 == db
    ensures MayPost(a, view, permission) && !IsBlank(name) ==> r == Insert(db, name, stock, reorder, info)
  {
    RequiredTextTruthy(name);
    if !MayPost(a, view, permission) then (db, Denied)
    else if !Truthy(Validate(name, true, StringField)) then (db, Incomplete)
    else Insert(db, name, stock, reorder, info)
  }

  /** The row an add appended, as the table's new last row. */
  predicate Appended(db: Db, r: Db, k: ItemKind, row: Item) {
    && Table(r, k) == Table(db, k) + [row]
    && !HasItem(db, k, row.id) && row.id >= 1
    && (forall k' :: k' != k ==> Table(r, k') == Table(db, k'))
    && r.molds == db.molds && r.cavities == db.cavities && r.bom == db.bom && r.ledger == db.ledger
  }

  /** `add_part`: number, name and type are required; the reorder point and stock default
      to 0. A type that is not one of the ENUM's labels is stored as `''`; a repeated part
      number is refused by its UNIQUE key. */
  function AddPart(db: Db, a: Actor, number: string, name: string, partType: string, description: string,
                   reorder: Validated, stock: Validated): (r: (Db, Outcome))
    ensures !HasPermission(a, "view_parts") ==> r == (db, Denied)
    ensures !HasPermission(a, "manage_parts") ==> r == (db, Denied)
    ensures r.1 == Denied <==> !MayPost(a, "view_parts", "manage_parts")
    ensures r.1 == Incomplete <==> MayPost(a, "view_parts", "manage_parts") && (IsBlank(number) || IsBlank(name) || IsBlank(partType))
    ensures r.1 == Duplicate <==>
      MayPost(a, "view_parts", "manage_parts") && !IsBlank(number) && !IsBlank(name) && !IsBlank(partType)
      && PartNumberTaken(db.parts, Some(number))
    ensures r.1 == Denied || r.1 == Incomplete || r.1 == Duplicate || r.1 == Done
    ensures r.1 != Done ==> r.0 == db
    ensures r.1 == Done ==>
      Appended(db, r.0, PartKind, Item(NewId(r.0, PartKind), name, WholeOrZero(stock) as real, WholeOrZero(reorder) as real,
                                       PartInfo(number, StoredPartType(partType), description)))
  {
    if !MayPost(a, "view_parts", "manage_parts") then (db, Denied)
    else if !(!IsBlank(number) && !IsBlank(name) && !IsBlank(partType)) then (db, Incomplete)
    else InsertPart(db, number, name, StoredPartType(partType), description, WholeOrZero(stock), WholeOrZero(reorder))
  }

  /** The parts INSERT once the fields have passed: whole stock and reorder point are
      stored as given; a repeated part number is refused. */
  function InsertPart(db: Db, number: string, name: string, t: PartType, description: string, stock: int, reorder: int): (r: (Db, Outcome))
    ensures r.1 == Done || r.1 == Duplicate
    ensures r.1 == Duplicate <==> PartNumberTaken(db.parts, Some(number))
    ensures r.1 == Duplicate ==> r.0 == db
    ensures r.1 == Done ==>
      Appended(db, r.0, PartKind, Item(NewId(r.0, PartKind), name, stock as real, reorder as real, PartInfo(number, t, description)))
  {
    StoreWhole(IntColumn, stock as real);
    StoreWhole(IntColumn, reorder as real);
    Insert(db, name, stock as real, reorder as real, PartInfo(number, t, description))
  }

  /** `add_material`: only the name is required; stock and reorder point default to 0 and
      are kept at two decimals. Materials added here carry no part number, so the INSERT
      cannot repeat a key. */
  function AddMaterial(db: Db, a: Actor, name: string, materialType: string, supplier: string, leadTime: Validated,
                       stock: Validated, unit: string, reorder: Validated): (r: (Db, Outcome))
    ensures !HasPermission(a, "view_inventory") ==> r == (db, Denied)
    ensures !HasPermission(a, "manage_materials") ==> r == (db, Denied)
    ensures r.1 == Denied <==> !MayPost(a, "view_inventory", "manage_materials")
    ensures r.1 == Incomplete <==> MayPost(a, "view_inventory", "manage_materials") && IsBlank(name)
    ensures r.1 == Denied || r.1 == Incomplete || r.1 == Done
    ensures r.1 != Done ==> r.0 == db
    ensures r.1 == Done ==>
      Appended(db, r.0, MaterialKind,
               Item(NewId(r.0, MaterialKind), name, Store(Decimal2, DecimalOrZero(stock)), Store(Decimal2, DecimalOrZero(reorder)),
                    MaterialInfo(Sourcing(materialType, supplier, LeadTime(leadTime)), None, unit)))
  {
    AddNamed(db, a, "view_inventory", "manage_materials", name, DecimalOrZero(stock), DecimalOrZero(reorder),
             MaterialInfo(Sourcing(materialType, supplier, LeadTime(leadTime)), None, unit))
  }

  /** `add_component`: only the name is required; stock and reorder point default to 0. */
  function AddComponent(db: Db, a: Actor, name: string, componentType: string, supplier: string, leadTime: Validated,
                        stock: Validated, reorder: Validated): (r: (Db, Outcome))
    ensures !HasPermission(a, "view_inventory") ==> r == (db, Denied)
    ensures !HasPermission(a, "manage_components") ==> r == (db, Denied)
    ensures r.1 == Denied <==> !MayPost(a, "view_inventory", "manage_components")
    ensures r.1 == Incomplete <==> MayPost(a, "view_inventory", "manage_components") && IsBlank(name)
    ensures r.1 == Denied || r.1 == Incomplete || r.1 == Done
    ensures r.1 != Done ==> r.0 == db
    ensures r.1 == Done ==>
      Appended(db, r.0, ComponentKind,
               Item(NewId(r.0, ComponentKind), name, WholeOrZero(stock) as real, WholeOrZero(reorder) as real,
                    ComponentInfo(Sourcing(componentType, supplier, LeadTime(leadTime)))))
  {
    StoreWhole(IntColumn, WholeOrZero(stock) as real);
    StoreWhole(IntColumn, WholeOrZero(reorder) as real);
    AddNamed(db, a, "view_inventory", "manage_components", name, WholeOrZero(stock) as real, WholeOrZero(reorder) as real,
             ComponentInfo(Sourcing(componentType, supplier, LeadTime(leadTime))))
  }

  /** `add_consumable`: as `add_component`, with the container size stored as posted. */
  function AddConsumable(db: Db, a: Actor, name: string, consumableType: string, supplier: string, leadTime: Validated,
                         stock: Validated, containerSize: string, reorder: Validated): (r: (Db, Outcome))
    ensures !HasPermission(a, "view_inventory") ==> r == (db, Denied)
    ensures !HasPermission(a, "manage_consumables") ==> r == (db, Denied)
    ensures r.1 == Denied <==> !MayPost(a, "view_inventory", "manage_consumables")
    ensures r.1 == Incomplete <==> MayPost(a, "view_inventory", "manage_consumables") && IsBlank(name)
    ensures r.1 == Denied || r.1 == Incomplete || r.1 == Done
    ensures r.1 != Done ==> r.0 == db
    ensures r.1 == Done ==>
      Appended(db, r.0, ConsumableKind,
               Item(NewId(r.0, ConsumableKind), name, WholeOrZero(stock) as real, WholeOrZero(reorder) as real,
                    ConsumableInfo(Sourcing(consumableType, supplier, LeadTime(leadTime)), containerSize)))
  {
    StoreWhole(IntColumn, WholeOrZero(stock) as real);
    StoreWhole(IntColumn, WholeOrZero(reorder) as real);
    AddNamed(db, a, "view_inventory", "manage_consumables", name, WholeOrZero(stock) as real, WholeOrZero(reorder) as real,
             ConsumableInfo(Sourcing(consumableType, supplier, LeadTime(leadTime)), containerSize))
  }

  /** `add_packaging`: as `add_component`; the packaging page sets no part number,
      category, parent or quantities. */
  function AddPackaging(db: Db, a: Actor, name: string, packagingType: string, supplier: string, leadTime: Validated,
                        stock: Validated, reorder: Validated): (r: (Db, Outcome))
    ensures !HasPermission(a, "view_inventory") ==> r == (db, Denied)
    ensures !HasPermission(a, "manage_packaging") ==> r == (db, Denied)
    ensures r.1 == Denied <==> !MayPost(a, "view_inventory", "manage_packaging")
    ensures r.1 == Incomplete <==> MayPost(a, "view_inventory", "manage_packaging") && IsBlank(name)
    ensures r.1 == Denied || r.1 == Incomplete || r.1 == Done
    ensures r.1 != Done ==> r.0 == db
    ensures r.1 == Done ==>
      Appended(db, r.0, PackagingKind,
               Item(NewId(r.0, PackagingKind), name, WholeOrZero(stock) as real, WholeOrZero(reorder) as real,
                    PackagingInfo(Sourcing(packagingType, supplier, LeadTime(leadTime)), None, None, None, None, None)))
  {
    StoreWhole(IntColumn, WholeOrZero(stock) as real);
    StoreWhole(IntColumn, WholeOrZero(reorder) as real);
    AddNamed(db, a, "view_inventory", "manage_packaging", name, WholeOrZero(stock) as real, WholeOrZero(reorder) as real,
             PackagingInfo(Sourcing(packagingType, supplier, LeadTime(leadTime)), None, None, None, None, None))
  }

  /** Every add handler keeps a well-formed store well-formed. */
  lemma AddPartWellFormed(db: Db, a: Actor, number: string, name: string, partType: string, description: string,
                          reorder: Validated, stock: Validated)
    requires WellFormed(db)
    ensures WellFormed(AddPart(db, a, number, name, partType, description, reorder, stock).0)
  {
    InsertWellFormed(db, name, WholeOrZero(stock) as real, WholeOrZero(reorder) as real,
                     PartInfo(number, StoredPartType(partType), description));
  }

  lemma AddMaterialWellFormed(db: Db, a: Actor, name: string, materialType: string, supplier: string, leadTime: Validated,
                              stock: Validated, unit: string, reorder: Validated)
    requires WellFormed(db)
    ensures WellFormed(AddMaterial(db, a, name, materialType, supplier, leadTime, stock, unit, reorder).0)
  {
    InsertWellFormed(db, name, DecimalOrZero(stock), DecimalOrZero(reorder),
                     MaterialInfo(Sourcing(materialType, supplier, LeadTime(leadTime)), None, unit));
  }

  lemma AddComponentWellFormed(db: Db, a: Actor, name: string, componentType: string, supplier: string, leadTime: Validated,
                               stock: Validated, reorder: Validated)
    requires WellFormed(db)
    ensures WellFormed(AddComponent(db, a, name, componentType, supplier, leadTime, stock, reorder).0)
  {
    InsertWellFormed(db, name, WholeOrZero(stock) as real, WholeOrZero(reorder) as real,
                     ComponentInfo(Sourcing(componentType, supplier, LeadTime(leadTime))));
  }

  lemma AddConsumableWellFormed(db: Db, a: Actor, name: string, consumableType: string, supplier: string, leadTime: Validated,
                                stock: Validated, containerSize: string, reorder: Validated)
    requires WellFormed(db)
    ensures WellFormed(AddConsumable(db, a, name, consumableType, supplier, leadTime, stock, containerSize, reorder).0)
  {
    InsertWellFormed(db, name, WholeOrZero(stock) as real, WholeOrZero(reorder) as real,
                     ConsumableInfo(Sourcing(consumableType, supplier, LeadTime(leadTime)), containerSize));
  }

  lemma AddPackagingWellFormed(db: Db, a: Actor, name: string, packagingType: string, supplier: string, leadTime: Validated,
                               stock: Validated, reorder: Validated)
    requires WellFormed(db)
    ensures WellFormed(AddPackaging(db, a, name, packagingType, supplier, leadTime, stock, reorder).0)
  {
    InsertWellFormed(db, name, WholeOrZero(stock) as real, WholeOrZero(reorder) as real,
                     PackagingInfo(Sourcing(packagingType, supplier, LeadTime(leadTime)), None, None, None, None, None));
  }

  /** A part number can be added once: a complete form with a new number is added, and a
      second add of the same number, under any name, is refused. */
  lemma AddPartTwice(db: Db, a: Actor, number: string, name: string, partType: string, description: string,
                     reorder: Validated, stock: Validated, name2: string, description2: string)
    requires MayPost(a, "view_parts", "manage_parts")
    requires !IsBlank(number) && !IsBlank(name) && !IsBlank(partType) && !IsBlank(name2)
    requires !PartNumberTaken(db.parts, Some(number))
    ensures AddPart(db, a, number, name, partType, description, reorder, stock).1 == Done
    ensures AddPart(AddPart(db, a, number, name, partType, description, reorder, stock).0,
                    a, number, name2, partType, description2, reorder, stock).1 == Duplicate
  {
    var r := AddPart(db, a, number, name, partType, description, reorder, stock).0;
    var row := Item(NewId(r, PartKind), name, WholeOrZero(stock) as real, WholeOrZero(reorder) as real,
                    PartInfo(number, StoredPartType(partType), description));
    assert Appended(db, r, PartKind, row);
    NumberTakenAfterAppend(db.parts, row);
  }

  /** A part added with a type that is not a label is stored with `''`: the parts total
      grows by one, but neither of the page's type counts does. */
  lemma UnlistedTypeUncounted(db: Db, a: Actor, number: string, name: string, partType: string, description: string,
                              reorder: Validated, stock: Validated)
    requires AddPart(db, a, number, name, partType, description, reorder, stock).1 == Done
    requires partType != "shoot_ship" && partType != "value_added"
    ensures var r := AddPart(db, a, number, name, partType, description, reorder, stock).0;
      && |Table(r, PartKind)| == |Table(db, PartKind)| + 1
      && Status.CountType(Table(r, PartKind), ShootShip) == Status.CountType(Table(db, PartKind), ShootShip)
      && Status.CountType(Table(r, PartKind), ValueAdded) == Status.CountType(Table(db, PartKind), ValueAdded)
  {
    var r := AddPart(db, a, number, name, partType, description, reorder, stock).0;
    var row := Item(NewId(r, PartKind), name, WholeOrZero(stock) as real, WholeOrZero(reorder) as real,
                    PartInfo(number, BlankType, description));
    assert Appended(db, r, PartKind, row);
    Status.CountTypeAppend(Table(db, PartKind), row, ShootShip);
    Status.CountTypeAppend(Table(db, PartKind), row, ValueAdded);
  }

  lemma NumberTakenAfterAppend(t: seq<Item>, row: Item)
    requires row.info.PartInfo?
    ensures PartNumberTaken(t + [row], Some(row.info.number))
  {
    assert (t + [row])[|t|] == row;
  }

  // ---------------------------------------------------------------------------
  // update_stock

  /** The validation type of `new_stock`: material counts are floats, the others integers. */
  function StockField(k: ItemKind): FieldType {
    if k == MaterialKind then FloatField else IntField
  }

  /** The number a validated count stands for. */
  function Amount(v: Validated): real {
    match v
    case Whole(n) => n as real
    case Decimal(x) => x
    case _ => 0.0
  }

  /** The handler once the fields are validated, past the page's view permission and
      `update_inventory`: a nonzero id and any count that is not `false` are recorded as
      a physical count. */
  function RecordCount(db: Db, a: Actor, k: ItemKind, id: Validated, count: Validated, notes: string): (r: (Db, Outcome))
    ensures !HasPermission(a, ViewPermission(k)) ==> r == (db, Denied)
    ensures !HasPermission(a, "update_inventory") ==> r == (db, Denied)
    ensures r.1 == Denied <==> !MayPost(a, ViewPermission(k), "update_inventory")
    ensures r.1 == Ignored <==> MayPost(a, ViewPermission(k), "update_inventory") && !(id.Whole? && id.whole != 0 && count != Refused)
    ensures r.1 != Done ==> r.0 == db
    ensures r.1 == Denied || r.1 == Ignored || r.1 == Done
    ensures r.1 == Done ==> r.0 == UpdateStock(db, k, id.whole, Amount(count), PhysicalCount, notes, a.userId)
  {
    if !MayPost(a, ViewPermission(k), "update_inventory") then (db, Denied)
    else if Truthy(id) && id.Whole? && count != Refused then
      (UpdateStock(db, k, id.whole, Amount(count), PhysicalCount, notes, a.userId), Done)
    else (db, Ignored)
  }

  /** The seeded inventory clerk (user 2 in the installer) holds `view_inventory`,
      `update_inventory` and `reorder_management`: a count posted on one of the four
      inventory pages goes through, while parts.php turns the clerk away at its
      `view_parts` check. */
  lemma ClerkCountsOnlyInventory(db: Db, k: ItemKind, id: Validated, count: Validated, notes: string)
    ensures var clerk := Actor(Some(2), false, {"view_inventory", "update_inventory", "reorder_management"});
      RecordCount(db, clerk, k, id, count, notes).1 == Denied <==> k == PartKind
  {
    var clerk := Actor(Some(2), false, {"view_inventory", "update_inventory", "reorder_management"});
    assert "view_parts" != "view_inventory" && "view_parts" != "update_inventory" && "view_parts" != "reorder_management";
    assert "view_inventory" in clerk.permissions && "update_inventory" in clerk.permissions;
  }

  /** `update_stock` as written: both fields are validated as required, which refuses "0". */
  function UpdateStockForm(db: Db, a: Actor, k: ItemKind, id: string, newStock: string, notes: string): (r: (Db, Outcome))
    ensures r == RecordCount(db, a, k, Validate(id, true, IntField), Validate(newStock, true, StockField(k)), notes)
  {
    RecordCount(db, a, k, Validate(id, true, IntField), Validate(newStock, true, StockField(k)), notes)
  }

  /** A physical count of zero cannot be recorded from the item pages: the handler
      ignores it and changes nothing. */
  lemma ZeroCountIgnored(db: Db, a: Actor, k: ItemKind, id: string, notes: string)
    ensures UpdateStockForm(db, a, k, id, "0", notes).0 == db
    ensures MayPost(a, ViewPermission(k), "update_inventory") ==> UpdateStockForm(db, a, k, id, "0", notes).1 == Ignored
  {
    RequiredZeroRefused(StockField(k));
  }

  /** `update_stock` as the `!== false` test intends: `new_stock` validated without the
      emptiness test, so 0 is a count like any other. */
  function UpdateStockIntended(db: Db, a: Actor, k: ItemKind, id: string, newStock: string, notes: string): (r: (Db, Outcome))
    ensures r == RecordCount(db, a, k, Validate(id, true, IntField), Validate(newStock, false, StockField(k)), notes)
  {
    RecordCount(db, a, k, Validate(id, true, IntField), Validate(newStock, false, StockField(k)), notes)
  }

  /** The intended handler records a count of zero, and on every other posted count
      behaves as the page does. */
  lemma IntendedRecordsZero(db: Db, a: Actor, k: ItemKind, id: string, notes: string)
    requires MayPost(a, ViewPermission(k), "update_inventory") && GivenIdField(id)
    ensures var r := UpdateStockIntended(db, a, k, id, "0", notes);
      r.1 == Done && (HasItem(db, k, ParseInt(id).value) ==> StockOf(Table(r.0, k), ParseInt(id).value) == Some(0.0))
  {
    OptionalZero(StockField(k));
    var v := Validate("0", false, StockField(k));
    var n := ParseInt(id).value;
    assert Validate(id, true, IntField) == Whole(n);
    assert Store(StockColumn(k), Amount(v)) == 0.0 by {
      FloorUnique(0.5, 0);
    }
  }

  /** On every posted count but "0" the intended handler does what the page does. */
  lemma IntendedAgreesElsewhere(db: Db, a: Actor, k: ItemKind, id: string, newStock: string, notes: string)
    requires newStock != "0"
    ensures UpdateStockIntended(db, a, k, id, newStock, notes) == UpdateStockForm(db, a, k, id, newStock, notes)
  {
    SameUnlessZero(newStock, StockField(k));
  }

  /** An optional "0" validates to zero. */
  lemma OptionalZero(t: FieldType)
    requires t != StringField
    ensures Validate("0", false, t) != Refused && Amount(Validate("0", false, t)) == 0.0
  {
    TrimNoSpace("0");
    assert "0"[1..] == "" && "0"[..0] == "";
    assert ParseInt("0") == Some(0);
    assert DotIndex("0") == 1;
    assert ParseDecimal("0") == Some(0.0);
  }

  /** A nonzero integer posted as the item id. */
  predicate GivenIdField(s: string) {
    !IsBlank(s) && ParseInt(s).Some? && ParseInt(s).value != 0
  }

  /** Apart from "0", the emptiness test refuses only text that would not validate anyway. */
  lemma SameUnlessZero(s: string, t: FieldType)
    requires s != "0" && t != StringField
    ensures Validate(s, false, t) == Validate(s, true, t)
  {
    if IsBlank(s) {
      assert Trim(s) == "";
      BlankNotNumber(s);
    }
  }
}

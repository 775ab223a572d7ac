# Inventory tracker: a Dafny model of its core

The inventory tracker is a set of PHP pages for an injection-moulding shop. It has five
catalog tables: materials, components, consumables, packaging and finished parts. It also
keeps a bill of materials (BOM) per part, molds with cavity assignments, and a ledger of
stock counts. This project models the sequential logic beneath the pages as pure Dafny
functions over an immutable store, and proves properties of that model.

The store (`Schema.Db`) holds:

- the five catalog tables, as sequences in storage order;
- the four BOM junction tables, as maps keyed by (part_id, item_id);
- `mold_cavities`, as a map keyed by (mold_id, cavity_number);
- the molds, as a sequence;
- the `inventory_transactions` ledger, as an append-only sequence.

`Schema.WellFormed` is the conjunction of the DDL's constraints:

- primary keys, and the UNIQUE natural keys `part_number` and `mold_number`;
- the ENUMs;
- the foreign keys of the junction and cavity tables;
- the scale of each catalog table's stock and reorder columns: INT, or DECIMAL(10,2) for materials.

The DECIMAL(10,4) quantities of material edges and the DECIMAL(8,4) shot size of molds are
not part of `WellFormed`; the handlers that write them store `Numeric.Store(Decimal4, ·)`,
and their own contracts say so.

Column scale is modelled as rounding half away from zero to the column's number of decimals
(`Numeric.Store`).

| file | module | what it holds |
|---|---|---|
| base.dfy | Base | `Option`, ids, `Max` and `Min` |
| numeric.dfy | Numeric | floor, ceil, rounding, column scale (`Store`) |
| input.dfy | Input | `validateAndSanitizeInput`: trimming, `FILTER_VALIDATE_INT/FLOAT`, PHP integer bounds, PHP truthiness |
| auth.dfy | Auth | the acting user and the permission test with the admin bypass |
| schema.dfy | Schema | the DDL of install.php: rows, keys, cascades, `WellFormed` |
| catalog.dfy | Catalog | `INSERT` into a catalog table with AUTO_INCREMENT and the 23000 duplicate error |
| bom.dfy | BomPage | the BOM page's POST handlers and the partition-checkbox handler |
| listing.dfy | Listing | ORDER BY sorting, and the BOM listings |
| production.dfy | Production | mold-level and BOM-level production calculators |
| molds.dfy | MoldsPage | `add_mold`, `assign_cavity`, the assigned-cavity count, quick calc |
| ledger.dfy | Ledger | `update*Stock`, `logInventoryTransaction`, the inventory batch |
| pages.dfy | CatalogPages | `add_*` and `update_stock` on the five catalog pages |
| status.dfy | Status | stock bands, low-stock report, reorder urgency and suggestion, summaries, bars |
| pending.dfy | Pending | the inventory page's client-side pending-update list |

Three kinds of input become parameters of the model:

- Handlers receive the posted fields either as text or as already validated values (`Input.Validated`).
- The session's user and permissions are an `Auth.Actor`.
- A database exception in the inventory batch is given per update as a `Ledger.Fault`.

## Model

All source paths below are relative to the repository root.

| member | source | states |
|---|---|---|
| Numeric.RoundHalfAway | install.php:84 | the stored integer is within one half of the value and keeps its sign, as MySQL rounds into a DECIMAL column |
| Numeric.StoreError | install.php:106 | a DECIMAL(10,2), DECIMAL(10,4) or INT column stores a value within half a unit of its last digit, with the same sign |
| Numeric.StoreIdempotent | install.php:145 | storing a stored value again changes nothing |
| Numeric.Store | install.php:106 | the value an INT, DECIMAL(p,2) or DECIMAL(p,4) column holds; StoreError bounds it within half a unit of the last digit and StoreIdempotent shows a stored value stays put |
| Numeric.CeilDivBounds | includes/functions.php:64 | for a positive c, `ceil(t / c)` is the least whole count whose multiple of c covers t; for a negative c, the greatest whose multiple stays at most t |
| Numeric.FloorDivBounds | includes/functions.php:52 | for a positive s, `floor(a / s)` is the greatest whole count whose multiple of s fits in a; for a negative s, the least whose multiple is at least a |
| Auth.HasPermission | config/auth.php:52-56 | an admin holds every permission; anyone else exactly the permissions granted to the session |
| Auth.MayPost | includes/auth_check.php:4-9 | a POST passes only when both `checkPermissionOrRedirect` calls succeed: the page's view permission and the action's |
| Input.TrimLeft | includes/auth_check.php:33 | only stripped characters are dropped from the front, and what remains starts with a kept character |
| Input.TrimRight | includes/auth_check.php:33 | only stripped characters are dropped from the end, and what remains ends with a kept character |
| Input.Validate | includes/auth_check.php:32-51 | a required blank field is refused; a string field is refused only then and is otherwise returned unchanged; otherwise an int field is refused exactly when `FILTER_VALIDATE_INT` fails and else holds its value, and a float field likewise with `FILTER_VALIDATE_FLOAT` |
| Input.IsEmpty | includes/auth_check.php:33 | PHP `empty` on a posted string: true for "" and "0"; RequiredZeroRefused draws the consequence for required fields |
| Input.ParseInt | includes/auth_check.php:41 | `FILTER_VALIDATE_INT` yields only values within PHP's 64-bit integer range; ParseShowInt shows every such value round-trips |
| Input.ParseDecimal | includes/auth_check.php:43 | `FILTER_VALIDATE_FLOAT` on plain decimal notation; ParseDecimalPlain gives the value of digits, a point and digits |
| Input.NulNotSkipped | includes/auth_check.php:41 | the filters skip surrounding whitespace but not NUL, so a NUL before the digits is refused although `trim` would drop it |
| Input.BlankNotNumber | includes/auth_check.php:33-43 | text that `trim` empties never validates as an integer or a float, NUL included |
| Input.RequiredTextTruthy | includes/auth_check.php:33 | a required text field is truthy exactly when it is not blank |
| Input.ValidateRequiredInt | includes/auth_check.php:33-41 | a required int field is accepted exactly when it is not blank and parses as an integer, and then holds that integer |
| Input.RequiredZeroRefused | includes/auth_check.php:33 | a required "0" is refused whatever the type, because PHP's `empty("0")` holds |
| Input.ParseShowInt | includes/auth_check.php:41 | every integer in PHP's range survives printing and `FILTER_VALIDATE_INT` |
| Schema.WithTable | install.php:69-139 | replacing one catalog table leaves the other four, the molds, cavities, BOM and ledger as they were |
| Schema.WithoutId | install.php:70 | removing a row by id keeps exactly the rows with other ids |
| Schema.WithoutIdOk | install.php:70-71 | deleting rows keeps ids distinct and part numbers unique |
| Schema.DeletePart | install.php:96-97 | deleting a part removes exactly that part row, exactly the BOM edges from it and the cavity rows holding it; every other row and edge survives with its values, and the other tables, molds and ledger are unchanged |
| Schema.DeleteItem | install.php:147-148 | deleting a material, component, consumable or packaging row removes exactly that row and exactly the edges of its kind naming it; every other edge survives with its value, and the other tables, molds, cavities and ledger are unchanged |
| Schema.RemoveItemEdges | install.php:156-157 | the cascade removes exactly the edges of the deleted item's kind that name it, and keeps the value of every other edge |
| Schema.DeleteMold | install.php:96 | deleting a mold removes exactly that mold and exactly its cavity rows; the other molds and cavity rows survive with their values, and the catalog tables, BOM and ledger are unchanged |
| Schema.DeleteUser | install.php:189 | deleting a user keeps every ledger row and clears only that user's id on them |
| Schema.HasIdWithout | install.php:70 | deleting one id leaves every other id present exactly when it was |
| Schema.DeletePartWellFormed | install.php:96-97 | after deleting a part, no foreign key dangles |
| Schema.DeleteItemWellFormed | install.php:147-177 | after deleting a catalog item, no foreign key dangles |
| Schema.DeleteMoldWellFormed | install.php:96 | after deleting a mold, no foreign key dangles |
| Schema.MoldsWithoutOk | install.php:81-82 | deleting molds keeps mold ids and mold numbers unique |
| Catalog.NextId | install.php:70 | AUTO_INCREMENT hands out a positive id above every existing id, for catalog rows and molds alike |
| Catalog.Insert | parts.php:26-35 | an insert is refused as a duplicate exactly when the part number is taken, and then nothing changes; otherwise exactly one row with a fresh id and column-rounded stock is appended |
| Catalog.InsertWellFormed | install.php:69-139 | inserting a row keeps every constraint of the schema |
| BomPage.UpsertEdge | bom.php:27-28 | `ON DUPLICATE KEY UPDATE` fails exactly when an end does not exist, and otherwise sets the one key to the new value and keeps all other keys |
| BomPage.InsertEdge | bom.php:55-58 | a plain edge INSERT fails exactly when an end is missing or the key is taken |
| BomPage.DeleteEdge | bom.php:262 | a keyed delete removes only that key; an absent key is no error |
| BomPage.UpsertMaterial | bom.php:19-36 | the request is ignored unless both ids are nonzero and the quantity is positive; it fails on a missing end; otherwise only that material edge is set to the DECIMAL(10,4)-rounded quantity |
| BomPage.UpsertComponent | bom.php:72-89 | as for materials, with a whole count |
| BomPage.UpsertConsumable | bom.php:120-139 | ignored unless both ids are nonzero; otherwise `required`, the step (any integer) and the notes are overwritten together |
| BomPage.UpsertPackaging | bom.php:173-191 | ignored unless both ids are nonzero; the quantity is 1 and both partition flags are stored exactly as posted |
| BomPage.KindOfItemType | bom.php:241-258 | each of the four labels picks its own junction table, and every other string picks none |
| BomPage.RemoveItem | bom.php:232-270 | the request acts exactly when both ids are nonzero and the kind is known, and then removes only that one edge |
| BomPage.CreateMaterial | bom.php:38-70 | ignored exactly when a required field is blank; "already exists" exactly when the part number is taken or a requested link is refused; otherwise done. With a new part number the material is appended under the next AUTO_INCREMENT id even when the link then fails; a done link upserts the edge, and only `materials` and the material edges change |
| BomPage.LinkRefusedIffNoPart | bom.php:57-58 | when every edge of the junction table names existing rows, as in a well-formed store, the plain INSERT linking a part to a just-created item is refused exactly when the part does not exist |
| BomPage.CreateMaterialDone | bom.php:38-70 | when every material edge names existing rows, as in a well-formed store, a material quick add completes exactly when the form is filled, the part number is new, and a requested link names an existing part |
| BomPage.CreateComponent | bom.php:91-118 | ignored exactly when a required field is blank; failed exactly when a part and a positive count are posted and the link is refused; otherwise done. Every filled form appends the component under the next id; a done link upserts the edge, and only `components` and the component edges change |
| BomPage.CreateComponentFails | bom.php:91-118 | when every component edge names existing rows, a component quick add fails exactly when a link is requested for a part that does not exist |
| BomPage.CreateConsumable | bom.php:141-171 | ignored exactly when a required field is blank; failed exactly when a part is posted and the link is refused; otherwise done. Every filled form appends the consumable under the next id; a done link upserts the edge with required, step and notes as posted |
| BomPage.CreateConsumableFails | bom.php:141-171 | when every consumable edge names existing rows, a consumable quick add fails exactly when a part is posted that does not exist |
| BomPage.CreatePackaging | bom.php:193-230 | ignored exactly unless the four fields are filled and QPC and containers per skid are positive; "already exists" exactly when the part number is taken or a requested link is refused; otherwise done. With a new part number the row is appended under the next id with everything posted; a done link upserts the edge with quantity 1 and both flags |
| BomPage.CreatePackagingDone | bom.php:193-230 | when every packaging edge names existing rows, a packaging quick add completes exactly when the form is valid, the part number is new, and a posted part exists |
| BomPage.OnPartitionChange | bom.php:1383-1394 | checking one partition box clears the other; unchecking one leaves the other |
| BomPage.Handle | bom.php:6-273 | a request is denied, changing nothing, exactly when the actor lacks `view_bom` (the page's check) or the action's permission; a permitted request runs its action (`Dispatch`); an ignored, failed or denied request leaves the BOM alone |
| BomPage.Dispatch | bom.php:17-273 | each of the nine actions runs its own handler with the posted values, and none reports Denied |
| BomPage.UpsertedTwice | bom.php:27-28 | two upserts of the same key equal one upsert with the later value |
| BomPage.AddMaterialTwice | bom.php:25-28 | adding a material already on the BOM leaves one edge holding the latest quantity |
| BomPage.AddConsumableTwice | bom.php:130-131 | re-adding a consumable overwrites `required`, step and notes together |
| BomPage.PartitionFlagsExclusiveOnlyInClient | bom.php:177-183 | the client handler never leaves both boxes checked, but the server stores both flags set when both are posted |
| BomPage.RemoveUndoesAdd | bom.php:262 | removing the edge an add just created restores the store |
| BomPage.RemoveIdempotent | bom.php:241-264 | removing an edge twice is removing it once, with the same outcome |
| BomPage.QuickAddLeavesOrphan | bom.php:48-63 | with a part id that names no part, quick-add keeps the new material, adds no edge and reports "already exists" |
| BomPage.HandleWellFormed | bom.php:17-273 | every request to the BOM page keeps every constraint of the schema |
| Listing.SortBy | bom.php:300 | the result is a permutation of the rows, sorted by the key |
| Listing.Join | bom.php:295-299 | the join lists exactly the catalog rows with an edge from the part, each with its edge data; a line occurs as often as its row occurs in the table |
| Listing.BomMaterials | bom.php:295-303 | the part's materials, each with its quantity, ordered by part number then name; each line occurs as often as its row occurs in `materials` |
| Listing.BomComponents | bom.php:306-313 | the part's components, each with its count, ordered by name; each line occurs as often as its row occurs in `components` |
| Listing.BomConsumables | bom.php:317-324 | the part's consumables, each with its edge, ordered by application step then name; each line occurs as often as its row occurs in `consumables` |
| Listing.BomPackaging | bom.php:328-336 | the part's packaging, each with its edge, ordered by category, part number, then name; each line occurs as often as its row occurs in `packaging` |
| Listing.UniqueRowsOnce | install.php:100-139 | with unique ids every row occurs once in its table |
| Listing.BomListingsOnce | bom.php:295-336 | in a well-formed store each line of the four BOM listings occurs exactly once |
| Production.FindMold | includes/functions.php:46-49 | the lookup returns a mold with that id, or none when no mold has it |
| Production.MaxParts | includes/functions.php:45-55 | 0 for an unknown mold; a zero shot size divides by zero; otherwise the cavities times floor(available / shot), bounded per the shot's sign (for a positive shot, the whole shots the material covers) |
| Production.MaterialNeeded | includes/functions.php:57-67 | 0 for an unknown mold; zero cavities divides by zero; otherwise the shot times ceil(target / cavities), bounded per the count's sign (for a positive count, the fewest shots that cover the target) |
| Production.ShotsFit | includes/functions.php:52 | whole shots fit in the material exactly when they are at most floor(available / shot) |
| Production.ShotsCover | includes/functions.php:64 | whole shots cover the target exactly when they are at least ceil(target / cavities) |
| Production.MaterialWithinAvailable | includes/functions.php:45-67 | the material for a target is within what is available exactly when the target is at most the maximum parts |
| Production.MaterialForMaxParts | includes/functions.php:45-67 | the material needed for the maximum producible parts never exceeds the material available |
| Production.CalculateProduction | js/app.js:534-556 | with 4 cavities and a 2.5 shot, the fewest shots covering the target, their material, and `canProduce` exactly when that material is available |
| Production.ClientMatchesServer | js/app.js:543-545 | for a 4-cavity, 2.5-shot mold, the client's material and maximum equal the server's, and it can produce exactly when the target is at most the maximum |
| Production.Requirement4 | bom.php:753-765 | the need is quantity times target at four decimals; sufficient exactly when stock covers it; a positive shortage is shown exactly when not sufficient |
| Production.CalculateMaterials | bom.php:741-770 | a target of 0 or less shows nothing; otherwise one line per material, no shot count when the parts per shot sum to 0, and for a nonzero sum p the shots n = ceil(target / p) with n·p covering the target (p > 0) or n·p at most it (p < 0) |
| Production.NeedIsExact | bom.php:753 | a DECIMAL(10,4) quantity times a whole target needs no rounding at four decimals |
| Production.CavitySumAny | bom.php:339-346 | the parts-per-shot sum does not depend on which cavity is taken first |
| Production.PartsPerShot | bom.php:746 | the loop sums `parts_per_shot` over every cavity row assigned to the part |
| Production.NoCavityZero | bom.php:746 | a part with no cavity rows has a parts-per-shot sum of 0 |
| Production.QuerySumIsCavitySum | bom.php:340-348 | the sum of the mold query's `parts_per_shot` column, over each of the part's cavity rows once in any order, is the part's cavity sum |
| Production.EstimateExample | bom.php:741-765 | four one-part cavities and 2.5 per part: 100 parts take 25 shots and 250 of material |
| Production.MoldLevelExample | includes/functions.php:57-67 | a 2-cavity mold with a 3.2 shot needs 80 of material for 50 parts |
| MoldsPage.GivenWholeIff | molds.php:24 | a required integer passes the truthiness guard exactly when it is not blank and parses to a nonzero integer |
| MoldsPage.GivenDecimalIff | molds.php:24 | a required decimal passes the guard exactly when it is not blank and parses to a nonzero number |
| MoldsPage.AddMold | molds.php:6-39 | denied, changing nothing, exactly without `view_molds` (the page's check) or `manage_molds`; incomplete without number, cavities or shot size; a taken number inserts nothing; otherwise one mold with a fresh id and a DECIMAL(8,4) shot |
| MoldsPage.AddMoldWellFormed | molds.php:26-27 | adding a mold keeps every constraint of the schema |
| MoldsPage.AddMoldTwice | molds.php:30-31 | the same mold number cannot be added twice |
| MoldsPage.TinyShotStoredAsZero | molds.php:24-27 | a nonzero shot size below half the column's last digit passes the guard and is stored as 0 |
| MoldsPage.SubScaleShotPasses | molds.php:24 | such a size is what a posted "0.0000d" validates to |
| MoldsPage.AssignCavity | molds.php:6-55 | denied exactly without `view_molds` or `manage_molds`; ignored unless all four fields are nonzero; fails on an unknown mold or part; otherwise sets only that (mold, cavity) row, with no bound from the mold's cavity count |
| MoldsPage.AssignCavityWellFormed | molds.php:50 | assigning a cavity keeps every constraint of the schema |
| MoldsPage.AssignedCavities | molds.php:63-71 | `COUNT(mc.cavity_id)` per mold; AssignCavityCount states how an assignment changes it |
| MoldsPage.AssignCavityCount | molds.php:63-71 | an assignment adds one to the mold's assigned count when the cavity was free, and otherwise leaves it |
| MoldsPage.OverAssigned | molds.php:48-51 | a one-cavity mold can be given two assigned cavities |
| MoldsPage.QuickCalc | molds.php:175-176 | the quick calc divides by zero exactly when the shot size is 0, and is otherwise floor(100 / shot) times the cavities for a shot of either sign |
| MoldsPage.QuickCalcIsMaxParts | molds.php:175-176 | the card's figure is `calculateMaxParts` for 100 units of material |
| Ledger.SetStock | includes/functions.php:80-81 | the UPDATE changes only the stock of rows with that id |
| Ledger.StockOf | includes/functions.php:80 | a stock is found exactly when a row has the id |
| Ledger.LogTxn | includes/functions.php:69-76 | logging appends exactly one ledger row and changes nothing else |
| Ledger.UpdateStock | includes/functions.php:78-111 | the stock becomes the absolute, column-rounded quantity on exactly that row; then one transaction with that kind's tag, the quantity at two decimals, the action and the notes is appended |
| Ledger.UpdateStockWellFormed | includes/functions.php:78-111 | a stock update keeps every constraint of the schema |
| Ledger.UnknownIdStillLogged | includes/functions.php:80-82 | counting an id no row has changes no stock but still appends a ledger row |
| Ledger.LastCountWins | includes/functions.php:78-83 | of two counts of one row, the later decides the stock and both are logged in order |
| Ledger.LedgerMatchesStock | install.php:106 | for a material, the ledger's quantity equals the stored stock |
| Ledger.LedgerDiffersFromIntStock | install.php:117 | for an INT-stock kind, a count of 2.5 is stored as 3 but logged as 2.5 |
| Ledger.KindOfType | inventory.php:24-40 | each case label picks its kind, and every other type picks none |
| Ledger.KindOfTypeName | inventory.php:169 | the type each inventory card posts reaches its own case |
| Ledger.ApplyUpdate | inventory.php:18-44 | an unknown type changes nothing but is counted; a throwing UPDATE changes nothing and is not counted; a throwing log INSERT keeps the stock change but is not counted; only a known type that does not throw appends a ledger row |
| Ledger.RunBatch | inventory.php:11-50 | refused without `update_inventory`; otherwise the updates are applied in order, with the count of those that did not throw |
| Ledger.Batch | inventory.php:15-45 | the fold over the updates counts at most one per update and only appends to the ledger |
| Ledger.BatchCount | inventory.php:15-41 | the count is the ledger rows added plus the unknown-type updates, never above the batch size, and equal to it exactly when no known update failed |
| Ledger.BatchWellFormed | inventory.php:17-45 | a whole batch keeps every constraint of the schema, whichever updates fail |
| CatalogPages.StoredPartType | install.php:73 | each ENUM label is stored as itself, and exactly the strings that are not labels are stored as the error value `''` |
| CatalogPages.LeadTime | materials.php:21 | a lead time that validates as an integer is stored as that integer; any other value leaves `false`, bound as `''` and stored as 0 |
| CatalogPages.BlankLeadTimeZero | materials.php:21 | a blank lead-time field stores 0, and a posted integer stores its parsed value |
| CatalogPages.AddNamed | components.php:6-36 | denied, changing nothing, exactly without the page's view permission or the action's permission; incomplete exactly when the name is blank; otherwise the insert |
| CatalogPages.AddPart | parts.php:6-40 | denied exactly without `view_parts` (the page's check) or `manage_parts`; incomplete when number, name or type is blank; a taken number is a duplicate; otherwise one part with whole stock and reorder point defaulting to 0, and the type as `StoredPartType` gives it; it never fails |
| CatalogPages.InsertPart | parts.php:26-35 | the insert is a duplicate exactly when the part number is taken |
| CatalogPages.AddMaterial | materials.php:6-37 | denied exactly without `view_inventory` or `manage_materials`; only the name is required; stock and reorder point are decimals defaulting to 0; the lead time is stored as `LeadTime` gives it |
| CatalogPages.AddComponent | components.php:6-36 | denied exactly without `view_inventory` or `manage_components`; only the name is required; stock and reorder point are integers defaulting to 0; the lead time is stored as `LeadTime` gives it |
| CatalogPages.AddConsumable | consumables.php:6-37 | denied exactly without `view_inventory` or `manage_consumables`; only the name is required; the container size is stored as posted; the lead time is stored as `LeadTime` gives it |
| CatalogPages.AddPackaging | packaging.php:6-36 | denied exactly without `view_inventory` or `manage_packaging`; only the name is required; no category, part number, QPC or parent is written; the lead time is stored as `LeadTime` gives it |
| CatalogPages.AddPartWellFormed | parts.php:26-28 | adding a part keeps every constraint of the schema |
| CatalogPages.AddMaterialWellFormed | materials.php:28-29 | adding a material keeps every constraint |
| CatalogPages.AddComponentWellFormed | components.php:27-28 | adding a component keeps every constraint |
| CatalogPages.AddConsumableWellFormed | consumables.php:28-29 | adding a consumable keeps every constraint |
| CatalogPages.AddPackagingWellFormed | packaging.php:27-28 | adding a packaging item keeps every constraint |
| CatalogPages.AddPartTwice | parts.php:25-32 | a complete form with an unused part number is added, and the same number is then refused under any name |
| CatalogPages.RecordCount | parts.php:6-52 | denied exactly without the page's view permission (`view_parts` on parts.php, `view_inventory` on the other four) or `update_inventory`; ignored unless the id is a nonzero integer and the count validated; otherwise exactly `updatePartStock` (or its sibling) with `physical_count` |
| CatalogPages.ClerkCountsOnlyInventory | install.php:230 | the seeded inventory clerk can record counts on the four inventory pages and is denied on parts.php |
| CatalogPages.UpdateStockForm | parts.php:42-52 | `update_stock` as written, from the posted text; ZeroCountIgnored proves it drops a count of "0" |
| CatalogPages.ZeroCountIgnored | parts.php:44-48 | a physical count of "0" is never recorded from a catalog page |
| CatalogPages.UpdateStockIntended | parts.php:42-52 | `update_stock` with `new_stock` optional; IntendedRecordsZero proves it records "0" and IntendedAgreesElsewhere that it matches the page on every other count |
| CatalogPages.IntendedRecordsZero | parts.php:48 | with `new_stock` validated as optional, a count of "0" is recorded and the stock becomes 0 |
| CatalogPages.IntendedAgreesElsewhere | parts.php:45-48 | on every posted count except "0", the corrected handler does what the page does |
| CatalogPages.SameUnlessZero | includes/auth_check.php:33 | apart from "0", the required test refuses only text that would not validate anyway |
| Status.BandsCharacterised | includes/functions.php:33-37 | danger exactly when nothing is on hand; warning exactly when stock is positive and at most the reorder point; success exactly when stock is above both |
| Status.StatusClass | includes/functions.php:33-37 | `getStockStatusClass` returns one of danger, warning and success; BandsCharacterised gives each band's exact condition |
| Status.StatusText | includes/functions.php:39-43 | `getStockStatusText` returns one of the three labels; ClassAndTextAgree ties each to its class |
| Status.ClassAndTextAgree | includes/functions.php:33-43 | the class and the text always name the same band |
| Status.BandMonotone | parts.php:60-64 | more stock never moves a row to a worse band |
| Status.LowIffNotSuccess | includes/functions.php:113-148 | with a nonnegative reorder point, an item is reported low exactly when its band is not success |
| Status.NegativeReorderNotReported | includes/functions.php:118 | with a negative reorder point, an out-of-stock item shows danger but is not on the low-stock report |
| Status.LowRows | includes/functions.php:118-121 | one table's query returns exactly its rows at or below the reorder point, as many lines as the table has low rows |
| Status.LowRowIds | includes/functions.php:118-121 | every line of a table's query names a row of that table |
| Status.LowRowsOnce | includes/functions.php:118-121 | with unique ids no low row is reported twice |
| Status.LowStockItems | includes/functions.php:113-148 | the report holds exactly the low rows of each table, in the order material, component, consumable, packaging, part, with as many lines as the five tables have low rows |
| Status.LowStockItemsOnce | includes/functions.php:113-148 | in a well-formed store the report names each low row exactly once |
| Status.Bucket | reorder.php:14-24 | a bucket holds exactly the report lines of its type |
| Status.BucketOfLowStock | reorder.php:14-24 | each bucket is its own table's query result, in the same order |
| Status.BucketsPartition | reorder.php:14-24 | every line lands in exactly one bucket, so the bucket sizes add up to the report |
| Status.UrgencyOf | reorder.php:39-43 | critical exactly when nothing is on hand; high exactly when stock is positive and at most half the reorder point |
| Status.CriticalIsDanger | reorder.php:40 | critical urgency and the danger band are the same condition |
| Status.UrgencyWithinBands | reorder.php:41 | high urgency is inside the warning band, and so is every reported line that is not critical |
| Status.SuggestedOrder | reorder.php:183 | the suggestion is never below the reorder point, nor below twice the reorder point less the stock |
| Status.SuggestedRestocks | reorder.php:183 | for a low line the suggestion tops stock up to twice the reorder point; otherwise it is the reorder point |
| Status.ProgressWidth | components.php:206 | the bar is at most 100 percent and empty exactly when nothing is on hand |
| Status.FullBar | packaging.php:207 | the bar is full exactly when stock reaches twice the reorder point (at least 1) |
| Status.HalfMark | components.php:206 | a low item's bar is at most half full, and when the reorder point is at least one half, that is exact |
| Status.ScriptWidth | js/app.js:495 | the script's width is at most 100, and defined except for a zero maximum with no positive stock |
| Status.ScriptBarClass | js/app.js:494-509 | the script's bar colour; ScriptAgreesWithPages shows it picks the server's band |
| Status.ScriptAgreesWithPages | js/app.js:494-509 | the script colours by the server's bands, and given the page's maximum draws the page's width |
| Status.Summarise | materials.php:72-79 | the total counts every row; on a nonempty table the low count is the number of rows at or below the reorder point and the out-of-stock count the number at or below 0; both are NULL exactly on an empty table |
| Status.CountLowFrom | parts.php:80 | the low count of a suffix is the number of its positions holding a row at or below the reorder point |
| Status.CountOutFrom | materials.php:76 | the out-of-stock count of a suffix is the number of its positions holding a row at or below 0 |
| Status.OutWithinLow | materials.php:75-76 | with nonnegative reorder points, out_of_stock_count is at most low_stock_count |
| Status.LowCountIsReported | parts.php:80 | the report shows as many lines for a table as it has rows at or below the reorder point |
| Status.TypeCountsSplit | parts.php:78-79 | the shoot_ship, value_added and `''` counts add up to the parts total |
| Status.CountTypeAppend | parts.php:78-79 | a new row raises the count of its own type by one and no other type's count |
| CatalogPages.UnlistedTypeUncounted | parts.php:20-28 | a part added with a type that is not a label raises the parts total, but neither the shoot_ship nor the value_added count |
| Status.PageListing | parts.php:58-72 | a page lists every row once, ordered by part number or name |
| Status.FormatPercentage | js/app.js:326-333 | a value above 100 becomes 100, below 0 becomes 0, and anything else (NaN included) is kept |
| Status.FormatClamps | js/app.js:326-333 | a number ends between 0 and 100, and formatting again changes nothing |
| Pending.Without | inventory.php:248 | the filter drops exactly the entries for that card and keeps keys unique |
| Pending.Edited | inventory.php:228-232 | a card is edited when its input differs from its original count; Change and ChangeConsistent keep the list in step with it |
| Pending.MarkAsUpdated | inventory.php:227-259 | an edited card's entry replaces its older one at the end; an unedited card loses its entry; other entries stay; keys stay unique |
| Pending.UpdateSaveButton | inventory.php:261-275 | the badge shows the list's length, and the button is disabled exactly when it shows the success style |
| Pending.Change | inventory.php:174 | after a change event, the card has an entry exactly when it is edited |
| Pending.SaveNotes | inventory.php:289-307 | after saving notes, the card has an entry exactly when its count is edited |
| Pending.ChangeConsistent | inventory.php:227-259 | edits and notes keep the list at one entry per edited card, each carrying that card's values |
| Pending.SaveDisabledIffNothingEdited | inventory.php:266 | on a consistent page, save is disabled exactly when no card is edited |
| Pending.NotesAloneNotQueued | inventory.php:304 | notes on an unchanged count do not create an entry |
| Pending.ClearAllUpdates | inventory.php:340-359 | the list is emptied, every input and note is reset, and save is disabled |
| Pending.ClearConsistent | inventory.php:340-359 | when every original count parsed, a cleared page is consistent and no card reads as edited |
| Pending.UnparsedOriginalReadsEdited | inventory.php:228-232 | a card whose original did not parse still reads as edited after clearing |

## Left out

- Schema drift: bom.php reads and writes columns that the DDL in install.php lacks, such as the packaging category, QPC, containers per skid, parent, partition flags and the materials' part number. The model takes those fields from bom.php and treats the part numbers of materials and packaging as unique, because the code's 23000 message says so.
- `sanitizeInput` (config/config.php) is not part of this model. Text is stored as posted.
- The `email` and `url` types of `validateAndSanitizeInput` are not modelled, because no core handler uses them.
- `FILTER_VALIDATE_FLOAT` accepts plain decimal notation only, after skipping the same surrounding whitespace as `FILTER_VALIDATE_INT` (space, tab, newline, carriage return and vertical tab, but not NUL). Exponents, thousands separators and hexadecimal are left out.
- CatalogPages.LeadTime: a lead time that does not validate is stored as 0, as a server outside strict mode does with the `''` PDO binds for `false`. In strict mode the INSERT fails instead; that case is not modelled.
- The model follows a MySQL server outside strict mode: `''` bound into an INT column stores 0 (`CatalogPages.LeadTime`), and a string outside an ENUM stores the error value `''` (`CatalogPages.StoredPartType`). Under strict mode both INSERTs fail instead. Range errors are not modelled, such as a value beyond DECIMAL(10,2), which the server clips or refuses.
- CatalogPages.StoredPartType: a label is matched exactly. MySQL matches ENUM labels under the column's collation, so a string that differs from a label only in letter case (and, under a PAD SPACE collation, in trailing spaces) stores that label, where the model stores `''`.
- String collation is left out. ORDER BY and UNIQUE compare strings by code point.
- AUTO_INCREMENT hands out one above the largest id. Gaps left by deleted rows or failed inserts are not modelled.
- Sessions, CSRF tokens, cookies, password hashes and the users table are left out. Permission is `Auth.HasPermission` with the admin bypass. A POST must pass both the page's view permission and the action's permission (`Auth.MayPost`), and a denied request changes nothing.
- Presentation is left out: HTML, alerts, redirects, `toFixed`/`number_format` display rounding, gestures, voice input, theme, debounce and offline sync.
- Production.MaxParts: PHP's float division is modelled as exact real division. `floor($available / $shot)` in IEEE doubles can be one less at an exact multiple: for 0.3 and 0.1 PHP gives 2 where the model gives 3. `MaterialWithinAvailable` and `MaterialForMaxParts` hold for exact arithmetic. `Production.MaterialNeeded` likewise multiplies exactly where PHP rounds the product to a double.
- JavaScript floating point is modelled as exact reals. `parseFloat` is an `Option<real>`, where None stands for NaN.
- The batch's `json_decode` returning null (a malformed post) is not modelled; the batch is a sequence of updates. Database exceptions are a given per-update `Ledger.Fault`.
- Production.CalculateMaterials: a parts-per-shot sum of 0 makes `Math.ceil(target / 0)` Infinity in the browser. The model gives no shot count (None) instead of Infinity.
- Status.ScriptWidth: a zero maximum gives Infinity or NaN in the browser. Both are modelled as None, without telling them apart.
- The supplier summary query (reorder.php:27-36) and the per-item detail query (reorder.php:187-191) are left out. The detail query builds its table name from the type and misuses PDO.
- The lead-time argument of `getUrgencyLevel` is never read, so `Status.UrgencyOf` does not take it.
- `updateStock` and its log are two statements without a transaction. The model runs them in sequence and lets a given fault stop either one. Concurrent requests are not modelled.
- Numeric.RoundHalfAway: the contract bounds the rounding error by one half and keeps the sign, but does not say which way a tie goes; the body rounds ties away from zero.
- The installers, backup, migration, login and reporting pages are not part of this model.

## Findings

| source | as written | input that shows it | evidently intended | confidence | as-written member | corrected member |
|---|---|---|---|---|---|---|
| parts.php:45-48, materials.php:42-46, components.php:41-45, consumables.php:42-46, packaging.php:41-45, includes/auth_check.php:33 | `new_stock` is validated as required, and `empty("0")` is true in PHP, so a physical count of 0 is refused before the `$newStock !== false` test | `update_stock` with `new_stock=0` for an existing item | a count of 0 is recorded; the `!== false` test exists to let a zero through | not executed | CatalogPages.ZeroCountIgnored | CatalogPages.IntendedRecordsZero |

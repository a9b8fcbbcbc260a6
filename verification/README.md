# Verified model of the venue back office

A Dafny model of the services that keep floor plans, recipes, prices, shop mappings and tenants, with
proofs of what they guarantee. Check it with `dafny verify dfyconfig.toml`.

Database tables are finite maps; the services that update them are classes whose methods follow the
loops of the code and are proved equal to specification functions; what the services are for is proved
about those functions, mostly over whole runs.

## What is modelled

**The floor plan** (`FloorPlan`, `FloorPlanSave`, `FloorPlanGuarantees`, `FloorPlanSaveDetails`,
`FloorPlanLoad`, `FloorPlanLoadDetails`, `FloorPlanCollapse`, `FloorPlanSaveAgreement`, `FloorPlanOps`,
`FloorPlanOpDetails`, `FloorPlanAgreement`, `FloorPlanTenants`, `FloorPlanRuns`, `FloorPlanAttributes`,
`PlanStore`, `PlanLoading`, `PlanEdits`, `MenuAssignments`, `MenuStore`).
A plan is stored as JSON on its configuration and as floor, forecourt and element rows; shop mappings and menu assignments point at the elements. `FloorPlan.SaveInto` is one
save; `PlanStore.Store.SaveConfiguration` reaches it through the loops of the code (orphans put back,
floors and elements reconciled, pruning, floor deletion with cascade, restoring, writing back), with
the rollback of an aborted transaction. `FloorPlanLoad.LoadedFloor` is the merged floor of one level;
`PlanLoading.GetConfiguration` reaches it with one bucket per level.

- What a query returns in no specified order is a parameter (`order`, `scan`, `oldest`, `lowest`), and
  every theorem holds for every order the database may choose.
- Ids made by the database are numbers from one counter for each table. The drawing attributes of an element
  are three values, by how far the code carries them: `core` (name, type, position, size, kinds) always,
  `extras` (3D height, rotation, capacity, picture, notes, corners) and `tags` not. Name and geometry of a
  floor or zone are one value.
- An element put back into a payload, or assigned to a floor or forecourt, is written to the JSON with its
  `core` alone, and a row that no JSON lists is loaded without its `tags`. What is left out becomes the
  default: a save that puts an element back resets the others in its row, and so does the load and save that
  follows an assignment (`FloorPlanSaveDetails.MappedElementPutBack`, `FloorPlanAttributes.BareIsStored`).
- Spaces and shop mappings carry a tenant, and the queries on them are filtered by it; configurations,
  floors, forecourts and elements carry none, so automatic scoping does not reach them. A `FloorPlan.Db` is
  what one tenant's requests see; `FloorPlanTenants.World` holds the plans of all tenants.
- The check of a save looks for the configuration among the tenant's own, finds nothing when the id is
  that of another tenant's, and the save goes on. `FloorPlanTenants` says exactly what follows.
- The schema declares a cascade from an element to the mappings on it, while comments in the service say
  there is no foreign key. The model has no cascade, and proves that no element a tenant has mapped is
  deleted by an operation of that tenant, nor by another's, but for a save on its configuration. Which
  mapped elements survive that is the same with or without the cascade
  (`FloorPlanTenants.MappedElementSurvivesIff`); a mapping whose element does not dangles in the model,
  and is deleted with it under the cascade.
- `Forecourt.configId` is unique, so a payload that names a foreign forecourt while the configuration
  has one makes the transaction fail; the model returns an error and restores every table. The loop
  that deletes unlisted forecourts is therefore dead.
- A comment says that a null forecourt leaves the parvis untouched. The code prunes its unmapped
  elements, and so does the model (`FloorPlanGuarantees.DeletedExactly`).
- Assigning elements to a floor does not clear the JSON forecourt.
  `FloorPlanAgreement.AssignToFloorAgreesIff` says exactly when the JSON and the rows still agree.
- A save writes the JSON without a new version. It is no step of the optimistic writer below.

**The optimistic writer** (`OptimisticWriter`). Many calls interleave reads and compare-and-writes on one
configuration; the last attempt of each writes without comparing. Data and mutations are arbitrary.

**Recipe costing** (`RecipeCost`, `RecipeRefresh`, `RecipeColumns`, `RecipeEdits`, `RecipeDetails`,
`RecipeStore`, `MenuItemCost`, `MenuItemDetails`).
Costs are exact reals, with rounding to four decimals as floor(10000 x + 0.5) / 10000. Their columns
(`Columns`, `RecipeColumns`) have four decimals too, round halves away from zero, and refuse what does not
fit: up to 10^6 for unit costs and recipe lines, up to 10^8 for the totals of menu items. A refresh writes
the costs of one component, or of one menu item, in one transaction. The services start from tables whose
costs are what columns can hold, and leave such tables (`RecipeEdits.ApplyStored`).

**Prices** (`Prices`, `PriceDetails`, `PriceStore`, `Backfill`, `BackfillRun`, `BackfillDetails`). What the pricing service answers for a
product is a table that is read. An item's own price and the prices of the history are stored in columns
of two decimals, which round them and refuse what does not fit; the prices of a space are JSON, stored as
they are.

**Mapping batches** (`MappingEntries`, `MappingBatches`, `MappingDetails`). Which entries the database refuses, and which
chunks fail for other reasons, are parameters. The chunk of the product form is a raw statement, which is
not scoped to the tenant; its fallback is scoped. A confidence of 0 is stored as none, as the code has it.

**Tenant scoping, the lock lease, the slug search** (`TenantScope`, `TenantScopeDetails`, `LockLease`,
`UniqueSlug`).

The modules named `...Details`, and `FloorPlanAttributes`, say what an operation leaves from its inputs and
the tables alone, without the functions that specify it: which price, which attributes, which row.

## Results that are conditions

Some properties hold only under a condition; each is proved as an equivalence, with an input that
breaks it where that helps.

- No update is lost when each call is overtaken at most `maxRetries` times
  (`OptimisticWriter.NoUpdateLost`); one commit more and an update can be lost
  (`OptimisticWriter.BoundIsSharp`). So calls started together are safe under every schedule exactly when
  there are at most maxRetries + 1 of them (`OptimisticWriter.CallsLoseNothingIff`). For data that records
  what was applied, nothing is lost exactly when no commit was made from an old version
  (`OptimisticWriter.LosslessIff`).
- The bulk price list without a space compares every entry with the prices read at the start. It agrees
  with the entries one by one exactly as `Prices.BulkWithoutSpaceAgreesIff` says;
  `Prices.RepeatedItemDiffers` and `Prices.RoundedItemDiffers` are items given twice.
- One price that does not fit its column makes the whole bulk price list throw, where one by one only its
  own request does (`Prices.BulkForSpaceAgreesIff`).
- A line with a unit cost of its own other than 0 is priced at that, whatever its ingredient costs; so a
  refresh after a change of the ingredient's price changes nothing on it
  (`RecipeDetails.OwnCostsNeedNoPrice`, `RecipeDetails.RefreshWrites`).
- A refresh succeeds exactly when each component can be costed and every cost fits its column
  (`RecipeStore.Store.RefreshCosts`); `RecipeColumns.CostedButTooLarge` can be costed and does not fit.
- `replaceChildren` and `update`, once accepted, store their child lines even when they then throw.
  `RecipeEdits.ReplaceChildrenAcyclicIff` and `RecipeEdits.UpdateAcyclicIff` say when the graph stays
  acyclic all the same.
- The bulk product form drops all but the last entry of a product before it tries any.
  `MappingBatches.LastProductAgreesIff` says when that makes no difference to the table.
- A chunk of the product form rewrites the row of another tenant, where its fallback is refused
  (`MappingBatches.ForeignProductRewritten`); a chunk of the location form takes elements its fallback
  refuses. `MappingBatches.FaultsDontMatterIff` says when it matters where chunks fail. It is a condition on
  chunks: a refused entry makes its chunk fall back whatever else is in it
  (`MappingBatches.RefusedEntryMakesItFallBack`).
- A save leaves the plans of other tenants as they are, whatever its payload, exactly when its id is not
  that of a configuration of another tenant (`FloorPlanTenants.SaveLeavesOthersAloneIff`). Of the elements
  that tenants have mapped it keeps exactly those of `FloorPlanTenants.MappedElementSurvivesIff`.
- A save leaves the JSON and the rows in agreement exactly when its payload is clean
  (`FloorPlanSaveAgreement.SaveAgreesIff`): the code stores any payload, even one that lists an element on
  two levels or in a floor and the forecourt.
- A mapped shop keeps its `core` attributes over every run whose saves show those of the rows
  (`FloorPlanAttributes.RunKeepsShopCore`); loads and saves do (`FloorPlanAttributes.LoadSavesKeepShop`). A
  payload is free to give others, which are then stored (`FloorPlanAttributes.GivenIsStored`).
- Assignments keep the JSON and the rows in agreement under exact conditions on the JSON forecourt
  (`FloorPlanAgreement.AssignToFloorAgreesIff`, `FloorPlanAgreement.AssignToForecourtAgreesIff`).
- A `tenantId` that the caller gives itself is left as it is, and then decides which rows are seen; a key
  without a value leaves the query open to all tenants (`TenantScopeDetails.ReadIs`).
- A scoped action is isolated from other tenants exactly when no row it would write has the id or a unique
  key of a row of another tenant (`TenantScope.ActionIsolated`; `TenantScope.KeyOfAnotherTenant` is a
  clash).
- The lock excludes in a run, whatever values are used, exactly when no release of a lease that has lapsed
  takes the key of another (`LockLease.ExclusiveIff`); such a release does so exactly when the two leases
  have the same value (`LockLease.LapsedReleaseFreesIff`). Distinct values, as the one caller draws them,
  are enough (`LockLease.DistinctValuesExclusive`); `LockLease.SameValueFreesTheNext` is a run without.

## Model

| member | source | states |
|---|---|---|
| OptimisticWriter.NoUpdateLost | src/features/spaces/spaces.service.ts:2148-2180 | in every interleaving where each call sees at most maxRetries commits by others, the data is the mutations folded in commit order, the version counts the commits, no call commits twice and every call that returned committed |
| OptimisticWriter.FewCallsFewOvertake | src/features/spaces/spaces.service.ts:2157-2180 | at most maxRetries + 1 one-shot calls meet that bound under every schedule |
| OptimisticWriter.LosslessIff | src/features/spaces/spaces.service.ts:2157-2180 | with mutations that append their number, the data equals the replay of the log if and only if no commit was made from an old version |
| OptimisticWriter.BoundIsSharp | src/features/spaces/spaces.service.ts:2176-2180 | among any maxRetries + 2 calls or more, a schedule that overtakes one of them once more than the bound, in which a logged update is missing from the data |
| OptimisticWriter.CallsLoseNothingIff | src/features/spaces/spaces.service.ts:2157-2180 | n calls at once lose nothing, whatever the data, the mutations and the schedule, if and only if n is at most maxRetries + 1 |
| OptimisticWriter.ConfigTable.UpdateConfigDataOptimistic | src/features/spaces/spaces.service.ts:2157-2180 | the retry loop is the execution of the interleaving model made of exactly the actions given before each of its reads and writes and of those reads and writes, up to the attempt it ends in; it ends returned, or thrown when the configuration is missing |
| RecipeCost.SucceedsIff | src/features/menu-components/menu-components.service.ts:175-212 | costing succeeds exactly when each path from the component meets only live, priceable components, none twice and none on the stack |
| RecipeCost.StackIrrelevant | src/features/menu-components/menu-components.service.ts:184-212 | a successful cost is the same under every stack |
| RecipeCost.WithinBound | src/features/menu-components/menu-components.service.ts:202-211 | the rounded cost is within E of the exact one, and fails exactly when that does |
| RecipeRefresh.BoundEquation | src/features/menu-components/menu-components.service.ts:202-211 | E(c) = 0.00005 + the sum of absolute quantity times E(child) |
| RecipeRefresh.RefreshParts | src/features/menu-components/menu-components.service.ts:456-479 | refreshing one set and then another equals refreshing both: no order is left in the result |
| RecipeRefresh.RefreshIdempotent | src/features/menu-components/menu-components.service.ts:435-493 | a second refresh of the same components succeeds and changes nothing |
| RecipeRefresh.StoredRecipeEquation | src/features/menu-components/menu-components.service.ts:456-479 | after a full refresh each stored cost is the rounded sum of its effective line costs and its children's stored costs |
| RecipeRefresh.StoredWithinBound | src/features/menu-components/menu-components.service.ts:456-479 | each stored cost is within E of the exact recipe cost |
| RecipeRefresh.LinesAddUp | src/features/menu-components/menu-components.service.ts:456-479 | the stored line costs of a component add up to its unit cost within 0.00005 for each line and one more |
| RecipeEdits.RunKeepsAcyclic | src/features/menu-components/menu-components.service.ts:132-173 | every run of create, update, replace and remove calls that return without error keeps the live recipe graph acyclic |
| RecipeEdits.NewCycleThroughEdit | src/features/menu-components/menu-components.service.ts:394-418 | a cycle made by editing one component passes through it |
| RecipeEdits.ReplaceChildrenAcyclicIff | src/features/menu-components/menu-components.service.ts:132-173 | failed or not, replaceChildren leaves the graph acyclic if and only if it was not accepted (a reference, a duplicate or a cost that does not fit) or no new child leads back to the component |
| RecipeEdits.UpdateAcyclicIff | src/features/menu-components/menu-components.service.ts:351-418 | failed or not, so does an update with child lines |
| RecipeEdits.ApplyStored | src/features/menu-components/menu-components.service.ts:226-501 | failed or not, an edit leaves in the tables only costs their columns can hold |
| RecipeColumns.RefreshErrorKept | src/features/menu-components/menu-components.service.ts:456-479 | refreshing some components changes neither whether another can be refreshed nor the error if not |
| RecipeColumns.RefreshedStored | prisma/schema.prisma:1453-1507 | costs that fit are stored as they were computed: the columns round nothing more |
| RecipeColumns.CostedButTooLarge | prisma/schema.prisma:1458-1488 | two of an ingredient at 999999 have a cost, which does not fit, so that the refresh fails |
| RecipeStore.Store.ComputeComponentUnitCost | src/features/menu-components/menu-components.service.ts:184-212 | the depth-first search ends on every table and returns the specified cost, or the first error it meets |
| RecipeDetails.OwnCostsNeedNoPrice | src/features/menu-components/menu-components.service.ts:200-204 | a cost depends neither on the price nor on the existence of ingredients of lines that have a unit cost of their own other than 0 |
| RecipeDetails.PriceableIff | src/features/menu-components/menu-components.service.ts:175-204 | a live component is priceable if and only if each of its lines has such a cost or a live ingredient |
| RecipeDetails.NoPriceNoCost | src/features/menu-components/menu-components.service.ts:175-204 | a component that leads to a line with neither cannot be costed |
| RecipeDetails.RefreshWrites | src/features/menu-components/menu-components.service.ts:456-479 | a refresh writes on each line its own unit cost, or else its ingredient's price, 0 if it has none, and that times the quantity, rounded; on each child line the child's cost times the quantity, rounded; and on the component the sum of the unrounded products, rounded once |
| RecipeDetails.EditStores | src/features/menu-components/menu-components.service.ts:132-173 | failed or not, an accepted edit has stored the lines it gives, in order, and only those; any other changes nothing |
| RecipeDetails.EditWrites | src/features/menu-components/menu-components.service.ts:226-418 | an accepted creation, update or replacement writes what it gives, costs to four decimals, keeps the rest, and refreshes the component when it gives lines, which stays written when the refresh fails; one that is not reports an ingredient that is missing before a component, that before a line given twice, and that before a cost too large |
| RecipeDetails.Round4Is | src/features/menu-components/menu-components.service.ts:211 | a computed cost is rounded to four decimals, halves up |
| RecipeDetails.ColumnIs | prisma/schema.prisma:1453-1507 | a cost column rounds to four decimals, halves away from zero |
| RecipeDetails.AcceptedIff | src/features/menu-components/menu-components.service.ts:226-290 | accepted are lines for live ingredients and of live components, none twice, with costs below a million once rounded to four decimals |
| RecipeStore.Store.RefreshCosts | src/features/menu-components/menu-components.service.ts:435-493 | succeeds exactly when every selected component can be costed and each of its costs fits its column; then the tables are those of the set refreshed, whatever the order; else it stopped after a prefix of the order, at the first that fails, with its error |
| RecipeStore.Store.ReplaceChildren | src/features/menu-components/menu-components.service.ts:132-173 | checks, replaces the lines as their columns hold them, refreshes: the tables and the error of the edit, lines kept when the refresh throws |
| RecipeStore.Store.Create | src/features/menu-components/menu-components.service.ts:226-290 | the tables and the error of a creation |
| RecipeStore.Store.Update | src/features/menu-components/menu-components.service.ts:351-418 | the tables and the error of an update |
| RecipeStore.Store.Remove | src/features/menu-components/menu-components.service.ts:495-501 | a removed component is no longer live; a missing one is an error |
| MenuItemCost.ItemWithinBound | src/features/menu-items/menu-items.service.ts:1249-1312 | the total of a menu item on fresh component costs is within its lines' bounds of the exact cost |
| MenuItemCost.ItemStore.RefreshCosts | src/features/menu-items/menu-items.service.ts:1202-1330 | succeeds exactly when all costs of the selected items fit their columns; then every selected item, and no other, has the costs of one load of the tables; else it stopped after a prefix of the order, at the first item that does not fit |
| MenuItemDetails.ItemRepriced | src/features/menu-items/menu-items.service.ts:1249-1318 | lines for something live get its stored cost and that times their units, rounded; the total is their sum, and the margin m of a base price above 0 satisfies price * (1 - m / 100) = total, with none for any other price |
| MenuItemDetails.MarginIs | src/features/menu-items/menu-items.service.ts:1308-1312 | taking the margin off the base price leaves the total cost |
| MenuItemDetails.ItemFitsIff | prisma/schema.prisma:1630-1733 | the database takes the costs of an item if and only if its unit costs are below a million and its totals below a hundred million, once rounded to four decimals |
| FloorPlanGuarantees.DeletedExactly | src/features/spaces/spaces.service.ts:1589-1614 | a save deletes exactly the unmapped elements of the configuration that the payload leaves out |
| FloorPlanGuarantees.NothingCascades | src/features/spaces/spaces.service.ts:1598-1604 | deleting an unlisted floor row takes no further element with it |
| FloorPlanGuarantees.FloorElementsExactly | src/features/spaces/spaces.service.ts:1529-1614 | with distinct known ids, the elements on the configuration's floors are exactly the ids in the returned JSON floors |
| FloorPlanGuarantees.FloorRowsExactly | src/features/spaces/spaces.service.ts:1529-1604 | the floor rows left are exactly those the returned JSON floors name and the unlisted ones that held a mapped element |
| FloorPlanGuarantees.FloorElementPlaced | src/features/spaces/spaces.service.ts:1245-1291 | each of them is on the row its JSON floor names, with the attributes listed there; an id of the configuration is kept, any other is new |
| FloorPlanSaveDetails.MappedElementPutBack | src/features/spaces/spaces.service.ts:1440-1480 | a mapped element of the configuration's floors that the payload leaves out is listed once, on the first floor at level 0 or else the first, with the core attributes of its row; its row is on that floor with those, and the others are lost |
| FloorPlanSaveDetails.KnownCount | src/features/spaces/spaces.service.ts:1245-1291 | the returned plan lists a known id as often as the payload does, and once one that was put back |
| FloorPlanSaveDetails.FloorsReturned | src/features/spaces/spaces.service.ts:1440-1563 | the returned floors are those of the payload in order: level, name and geometry, elements as given, with an id that is its own or new, and after them those put back; without floors at most a new ground floor "RDC" of elements put back |
| FloorPlanSaveDetails.ReturnedIsStored | src/features/spaces/spaces.service.ts:1245-1291 | an element the returned plan lists once is stored in the place it is listed in, with the attributes listed |
| FloorPlanSaveDetails.RowsChosen | src/features/spaces/spaces.service.ts:1529-1563 | a payload floor becomes the row of the configuration it names; else the first in the order of the query at its level that no earlier floor became; else a new one |
| FloorPlanSaveDetails.FloorRowAfter | src/features/spaces/spaces.service.ts:1529-1563 | the row has the level, name and geometry of the last payload floor that became it |
| FloorPlanSaveDetails.ForecourtReturned | src/features/spaces/spaces.service.ts:1565-1587 | the forecourt is returned with its name and geometry, its elements in order and the id of its row, new if there was none; the row has that name and geometry; the external zone stays |
| FloorPlanOpDetails.SavedConfiguration | src/features/spaces/spaces.service.ts:1344-1394 | what is returned is the data of the configuration named, whose space, kind and version stay; a new one is a user configuration of the space; no other configuration changes |
| FloorPlanAttributes.GivenIsStored | src/features/spaces/spaces.service.ts:1245-1291 | an element of the configuration that one floor of the payload lists once is returned as given, and stored so on the floor's row |
| FloorPlanAttributes.GivenInForecourt | src/features/spaces/spaces.service.ts:1565-1587 | so is one that the forecourt lists |
| FloorPlanAttributes.SaveKeepsCores | src/features/spaces/spaces.service.ts:1396-1648 | a save whose payload shows the core attributes of the rows it lists changes those of no element, of whatever configuration |
| FloorPlanGuarantees.ForecourtElementsExactly | src/features/spaces/spaces.service.ts:1565-1597 | the forecourt holds exactly its JSON elements and the mapped ones the payload left out |
| FloorPlanGuarantees.OtherConfigsUntouched | src/features/spaces/spaces.service.ts:1529-1604 | no floor, element or data of another configuration changes, even when the payload reuses its ids |
| FloorPlanGuarantees.SaveKeepsMenus | src/features/spaces/spaces.service.ts:1482-1494 | an element that stays keeps exactly its menu assignments |
| FloorPlanGuarantees.SaveKeepsValid | src/features/spaces/spaces.service.ts:1396-1648 | a save keeps every foreign key and every counter valid |
| PlanStore.NothingToRestore | src/features/spaces/spaces.service.ts:1616-1635 | putting back the captured assignments after pruning adds nothing |
| PlanStore.Store.SaveConfiguration | src/features/spaces/spaces.service.ts:1339-1650 | the code's checks, loops and rollback leave exactly the tables, result and error of the specified save, whose check sees only the tenant's own configurations |
| PlanStore.Store.ReconcileFloors | src/features/spaces/spaces.service.ts:1529-1563 | the nested loops match floors by id then level and give every floor and element its row and id |
| PlanStore.Store.DropFloors | src/features/spaces/spaces.service.ts:1598-1604 | the deletion loop removes the unlisted floors that held no mapped element, with what is on them |
| FloorPlanLoad.LoadedUnion | src/features/spaces/spaces.service.ts:1875-1944 | each level holds exactly the union of its JSON and row elements, each id once |
| FloorPlanLoad.JsonVersionWins | src/features/spaces/spaces.service.ts:1875-1890 | the first JSON version of an id is the one kept |
| FloorPlanLoad.LoadedIdless | src/features/spaces/spaces.service.ts:1883-1890 | JSON elements without an id are kept as often as they occur |
| FloorPlanLoad.LoadedIdFullest | src/features/spaces/spaces.service.ts:1946-1958 | the floor id is that of a row with the most elements on it whenever a row of the level holds an element |
| FloorPlanLoadDetails.LoadedIds | src/features/spaces/spaces.service.ts:1875-1944 | a loaded floor lists an id once if a JSON floor of its level lists it or its row is on a floor at the level, and else not |
| FloorPlanLoadDetails.FirstVersionShown | src/features/spaces/spaces.service.ts:1875-1890 | it shows the first version of an id in the JSON floors of its level |
| FloorPlanLoadDetails.RowOnlyShown | src/features/spaces/spaces.service.ts:1892-1944 | an element of the level that no JSON floor of it lists is shown as its row has it, but for its tags |
| FloorPlanLoadDetails.IdlessShown | src/features/spaces/spaces.service.ts:1883-1890 | it shows an element without an id as often as the JSON floors of its level |
| FloorPlanLoadDetails.LoadedInfo | src/features/spaces/spaces.service.ts:1878-1900 | it has the name and geometry of the first JSON floor of its level with an id, else of the first, else of the first row |
| FloorPlanLoadDetails.LoadedIdElse | src/features/spaces/spaces.service.ts:1946-1958 | where no row of the level holds an element, it has the id of the first JSON floor with one, else of the first row |
| FloorPlanAttributes.LoadShowsCores | src/features/spaces/spaces.service.ts:1875-1944 | what is loaded shows the core attributes of the rows while the JSON does |
| FloorPlanAttributes.LoadSaveAttributes | src/features/spaces/spaces.service.ts:1245-1291 | while JSON and rows agree, a load and save gives an element on a floor the attributes of its first version in the JSON of its level; without one it keeps its own, but for the tags |
| PlanLoading.GetConfiguration | src/features/spaces/spaces.service.ts:1805-1958 | the bucket loops return the merged floor of every level in use, each level once |
| FloorPlanCollapse.LoadSaveCollapses | src/features/spaces/spaces.service.ts:1847-1958 | saving what was loaded, when JSON and rows agree, deletes no element, leaves each non-empty level with exactly one non-empty row, and the two still agree |
| FloorPlanCollapse.SecondLoadSave | src/features/spaces/spaces.service.ts:1529-1604 | from then on a load and save leaves exactly one row for each level |
| FloorPlanCollapse.TwoLoadSaves | src/features/spaces/spaces.service.ts:1529-1604 | both together, for every order the queries may answer in |
| FloorPlanOps.RunKeepsMappings | src/features/spaces/spaces.service.ts:1396-1480 | over every run of saves, quick-creates, floor and forecourt assignments, mapping creations and deletions, every mapping points at an existing element |
| FloorPlanOps.RunKeepsShop | src/features/spaces/spaces.service.ts:2732-2754 | over every such run a mapped shop keeps its row and id until its own mapping changes |
| FloorPlanAttributes.RunKeepsShopCore | src/features/spaces/spaces.service.ts:1396-1480 | over every run whose saves show the core attributes of the rows they list, a mapped shop keeps its own until its mapping changes |
| FloorPlanAttributes.LoadSavesKeepShop | src/features/spaces/spaces.service.ts:1805-1958 | over every run in step of loads and saves, quick creations, assignments and mapping changes, a mapped shop keeps its row, its id and its core attributes |
| FloorPlanAttributes.AssignedIsBare | src/features/spaces/spaces.service.ts:2406-2425 | an element assigned to a floor is listed there with its core attributes alone, and by no other floor |
| FloorPlanAttributes.BareIsStored | src/features/spaces/spaces.service.ts:1245-1291 | the load and save that follows resets its other attributes in its row |
| FloorPlanOpDetails.QuickCreateWorksOn | src/features/spaces/spaces.service.ts:2117-2143 | quick creation changes only the explicit configuration, if it is a user configuration of the space, whatever the oldest one is; else the oldest; else none, and fails; new data comes with the next version |
| FloorPlanOpDetails.AssignToFloorWorksOn | src/features/spaces/spaces.service.ts:2117-2143 | so does an assignment to a floor |
| FloorPlanOpDetails.AssignToForecourtWorksOn | src/features/spaces/spaces.service.ts:2117-2143 | and one to the forecourt |
| FloorPlanOpDetails.QuickCreatedRow | src/features/spaces/spaces.service.ts:2195-2245 | one new row, on the lowest floor or else on a new ground floor "RDC"; every other row stays |
| FloorPlanOpDetails.QuickCreatedJson | src/features/spaces/spaces.service.ts:2247-2278 | the JSON entry of the row, made if missing, lists the new element once more than before; nothing else in the JSON changes |
| FloorPlanOpDetails.AssignedRows | src/features/spaces/spaces.service.ts:2299-2375 | exactly the requested elements of the space are moved to the floor found at the level, or else a new one, and keep their attributes |
| FloorPlanOpDetails.AssignedJson | src/features/spaces/spaces.service.ts:2377-2440 | in the JSON every floor loses the moved elements, the target's entry gains them with their core attributes, and other entries left empty go |
| FloorPlanOpDetails.ForecourtRows | src/features/spaces/spaces.service.ts:2464-2513 | exactly the requested elements of the space are moved to the forecourt, made as "Parvis" if there was none |
| FloorPlanOpDetails.ForecourtJson | src/features/spaces/spaces.service.ts:2515-2570 | the JSON floors lose the moved elements and the entries left empty go; the forecourt gains those it did not list, in their old JSON version, else with the core of the row |
| FloorPlanOpDetails.LastMappingDeleted | src/features/spaces/spaces.service.ts:2732-2791 | with its last mapping an own element loses its row, its menu assignments and every listing in the JSON of its configuration; nothing else goes |
| FloorPlanOpDetails.OtherMappingDeleted | src/features/spaces/spaces.service.ts:2732-2754 | while another mapping is left on the element, or when it is not the tenant's own, only the mapping goes |
| FloorPlanOpDetails.MappingCreated | src/features/mappings/mappings.service.ts:192-226 | a location is mapped to an element if and only if that is on a floor or forecourt of a configuration of the tenant, and else nothing changes |
| FloorPlanAgreement.QuickCreateAgrees | src/features/spaces/spaces.service.ts:2188-2290 | quick-creating an element keeps JSON and rows in step: in agreement, with ids from the past |
| FloorPlanAgreement.AssignToFloorAgreesIff | src/features/spaces/spaces.service.ts:2299-2456 | assigning to a floor keeps the agreement if and only if no moved element is in the JSON forecourt |
| FloorPlanAgreement.AssignToForecourtAgreesIff | src/features/spaces/spaces.service.ts:2464-2588 | assigning to the forecourt keeps the agreement if and only if the JSON forecourt names no row that is not there and lists no moved element twice |
| FloorPlanRuns.DeleteMappingInStep | src/features/spaces/spaces.service.ts:2732-2791 | deleting a mapping, with its element or not, keeps JSON and rows in step |
| FloorPlanRuns.LoadSaveInStep | src/features/spaces/spaces.service.ts:1529-1648 | so does saving what was loaded |
| FloorPlanSaveAgreement.SaveAgreesIff | src/features/spaces/spaces.service.ts:1529-1648 | after a save JSON and rows agree if and only if no mapped forecourt element is left out, the forecourt lists no known element twice nor one that a floor lists, and floors that list the same known element or become the same row are at one level |
| FloorPlanSaveAgreement.SameRowIff | src/features/spaces/spaces.service.ts:1529-1563 | a payload floor becomes the row of an earlier one if and only if it names that row |
| FloorPlanRuns.SaveInStepIff | src/features/spaces/spaces.service.ts:1529-1648 | such a payload is also exactly what leaves them in step |
| FloorPlanRuns.LoadedIsClean | src/features/spaces/spaces.service.ts:1805-1958 | what loading gives is such a payload, while they are in step |
| FloorPlanRuns.FirstSaveInStep | src/features/spaces/spaces.service.ts:1368-1394 | the first save of a configuration leaves JSON and rows in step, whatever its payload |
| FloorPlanRuns.PerformInStepIff | src/features/spaces/spaces.service.ts:1339-2588 | an operation keeps JSON and rows in step if and only if it meets its condition: a clean payload for a save that is not refused, those of the assignments, none for any other |
| FloorPlanRuns.RunInStep | src/features/spaces/spaces.service.ts:1245-1648 | over every run of operations that meet their conditions, on this configuration or on others, JSON and rows stay in step |
| FloorPlanRuns.TwoLoadSavesAfterRun | src/features/spaces/spaces.service.ts:1847-1958 | so that after any such run two loads and saves leave one row for each level and lose no element |
| FloorPlanTenants.EveryTenantsMappings | src/features/spaces/spaces.service.ts:1396-1480 | however the operations of all tenants interleave, while no save names a configuration of another tenant, every mapping points at an existing element in a space of its tenant |
| FloorPlanTenants.SaveLeavesOthersAloneIff | src/features/spaces/spaces.service.ts:1344-1394 | a save leaves the plans of every other tenant as they are, for every payload, if and only if its id is not that of a configuration of another tenant |
| FloorPlanTenants.MappedElementSurvivesIff | src/features/spaces/spaces.service.ts:1500-1525 | after a save on whosever configuration, a mapped element is there if and only if the tenant has mapped it itself, the save was refused, the element is not of the configuration, or the payload has it |
| FloorPlanTenants.SaveKeepsEveryMappingIff | src/features/spaces/spaces.service.ts:1500-1525 | so every tenant's mappings still have their elements if and only if the save is refused or no element another tenant has mapped is missing from the payload |
| FloorPlanTenants.PerformKeepsSpace | src/features/spaces/spaces.service.ts:2299-2588 | no operation moves an element to another space |
| PlanEdits.QuickCreateElement | src/features/spaces/spaces.service.ts:2188-2290 | finds or makes the floor, adds the row and the JSON entry once; the errors |
| PlanEdits.AssignElementsToFloorLevel | src/features/spaces/spaces.service.ts:2299-2456 | moves the requested elements of the space, in order, and rewrites the JSON |
| PlanEdits.FilteredHasNone | src/features/spaces/spaces.service.ts:2377-2409 | after the filter no floor lists a moved element, so the branch that reuses an old JSON version never runs |
| PlanEdits.AssignElementsToForecourt | src/features/spaces/spaces.service.ts:2464-2588 | moves them to the forecourt, keeping the old JSON version when there is one |
| PlanEdits.CreateLocationShopMapping | src/features/mappings/mappings.service.ts:192-226 | maps a location only to an element on a floor or forecourt |
| PlanEdits.DeleteElementIfUnreferenced | src/features/spaces/spaces.service.ts:2732-2791 | deletes the row, its assignments and its JSON entries exactly when no mapping is left on it |
| PlanEdits.DeleteLocationShopMapping | src/features/mappings/mappings.service.ts:281-302 | the mapping goes, then its element if unreferenced |
| MenuAssignments.MenuSurvives | src/features/space-menus/space-menus.service.ts:299-364 | after saving a menu map and any run of plan operations that keeps an element, loading gives exactly its saved map, or what it had when given none |
| MenuAssignments.SavedMenuOf | src/features/space-menus/space-menus.service.ts:336-364 | a given element has exactly its map, every other one what it had |
| MenuStore.SaveMenuConfiguration | src/features/space-menus/space-menus.service.ts:336-364 | the nested upserts and deletions leave the specified table, or the old one when a reference is missing |
| MenuStore.GetMenuConfiguration | src/features/space-menus/space-menus.service.ts:299-330 | the assignments of the configuration's elements that have any |
| Prices.PairsAreEnough | src/features/menu-items/menu-items.service.ts:794-929 | setting aside the requests without a product leaves the same prices, history, count and outcomes as one by one |
| Prices.BulkForSpaceAgreesIff | src/features/menu-items/menu-items.service.ts:794-929 | for a space the bulk form returns if and only if every price fits the history's columns or is in force already, and then has the effect of one by one |
| Prices.BulkWithoutSpaceAgreesIff | src/features/menu-items/menu-items.service.ts:891-928 | without a space the bulk form returns with the prices and history of one by one if and only if every price fits and each entry sees its item's starting price just when it sees the price, as stored, left before it |
| Prices.DistinctItemsAgree | src/features/menu-items/menu-items.service.ts:891-928 | with distinct items and prices that fit it always does |
| Prices.RepeatedItemDiffers | src/features/menu-items/menu-items.service.ts:891-928 | an item at 5 given 7 and then 5 ends at 5 one by one, and at 7 in bulk |
| Prices.RoundedItemDiffers | src/features/menu-items/menu-items.service.ts:891-928 | an item at 5 given 5.123 and then 5.12 gets one history row one by one, and two in bulk |
| Prices.StoreReadsBack | src/features/menu-items/menu-items.service.ts:646-655 | stored prices normalise to what was stored |
| PriceStore.Tables.ApplyWeezeventPrice | src/features/menu-items/menu-items.service.ts:695-787 | one price applied, with its history row, unless unchanged; nothing written when the database refuses either |
| PriceStore.Tables.ApplyWeezeventPricesBulk | src/features/menu-items/menu-items.service.ts:794-929 | one transaction: it throws and writes nothing when a price is refused; else, for a space, the same prices, history sequence, changed count and outcomes as the requests one by one, repeats included |
| PriceDetails.RequestApplied | src/features/menu-items/menu-items.service.ts:672-787 | a request applies the price shown to the user, with the source of the catalogue, or else the quote of its product with that quote's source; it needs the product, mapped to the item, and the item; a changed item has exactly that price, as kept, and one history row; any other leaves all as it was |
| PriceDetails.ShownPricesNeedNoQuotes | src/features/menu-items/menu-items.service.ts:672-679 | when every request sends the price shown, neither form depends on any quote |
| PriceDetails.BulkOneMore | src/features/menu-items/menu-items.service.ts:843-928 | one more request in bulk: the same price and row, compared with the price before it, or without a space with that at the start; without a product it changes nothing; one that does not fit makes it throw |
| PriceDetails.FitsIff | prisma/schema.prisma:1672-1678 | a price fits if and only if it is below 99999999.995 either way, and its rate below 999.995 |
| PriceDetails.RoundedPriceIs | prisma/schema.prisma:1672-1678 | a stored price is to the nearest cent, halves away from zero |
| BackfillRun.EveryPairCounted | src/features/menu-items/menu-items.service.ts:981-1041 | every targeted pair is counted once: applied, without sales, or already priced |
| BackfillRun.SecondRunCountsNone | src/features/menu-items/menu-items.service.ts:981-1041 | a second run that does not overwrite applies no pair |
| BackfillRun.BackfillWeezeventPrices | src/features/menu-items/menu-items.service.ts:945-1061 | the counters are those of the tables as they were, dry run or not; a dry run writes nothing |
| BackfillRun.CommitInChunks | src/features/menu-items/menu-items.service.ts:1054-1061 | transactions of 25 writes amount to all of them, and in the tables before, between and after them no item has changed before every history row is there |
| BackfillDetails.PricesFilled | src/features/menu-items/menu-items.service.ts:1003-1052 | a targeted pair that lacks a price gets the sale of the event asked for, whatever the overall sales are, or where the event has none the overall one, if that sale is above 0; no other price changes, nor anything else of an item |
| BackfillDetails.HistoryFilled | src/features/menu-items/menu-items.service.ts:1019-1041 | the history grows by a row at its sale for each such pair, as many as reported, and by no other |
| BackfillDetails.SummaryCounts | src/features/menu-items/menu-items.service.ts:981-1041 | each counter is the number of places (item, space) that are priced already, lack a sale above 0, an event sale at or below 0 included, or get one; and of items whose product is not one or that have none of the spaces asked for |
| BackfillDetails.TouchedCounts | src/features/menu-items/menu-items.service.ts:1043-1052 | the items reported as touched are as many as those with a pair filled |
| Backfill.AppliedCount | src/features/menu-items/menu-items.service.ts:993-1041 | the pairs written are as many as the targeted pairs that lack a price and have a sale |
| Backfill.PairAfter | src/features/menu-items/menu-items.service.ts:1003-1052 | afterwards an applied pair has its sale's price and any other the price it had |
| Backfill.HistoryComesFirst | src/features/menu-items/menu-items.service.ts:1019-1061 | wherever the writes stop, either no item has changed or all history rows are there |
| Backfill.ChangedPriceHasItsRow | src/features/menu-items/menu-items.service.ts:1019-1061 | a price changed at a stop is that of a row already in the history |
| Backfill.GroupedIsPermutation | src/features/menu-items/menu-items.service.ts:981-1006 | grouping the pairs by space loses and doubles none |
| MappingBatches.MappingTable.BulkMerchantElementMappings | src/features/mappings/mappings.service.ts:366-424 | wherever chunks fail, the table, successes and errors of single upserts; successes plus errors are all entries |
| MappingBatches.MappingTable.BulkLocationShopMappings | src/features/mappings/mappings.service.ts:228-279 | the chunk unvalidated, the fallback validated; every entry is a success or an error |
| MappingBatches.MappingTable.BulkProductMappings | src/features/mappings/mappings.service.ts:602-676 | over the last entry of each product, the chunk as an unscoped statement and the fallback scoped; every entry is a success or an error |
| MappingBatches.FaultsDontMatterIff | src/features/mappings/mappings.service.ts:366-424 | every list of faults gives the result of single upserts if and only if no chunk the database would take holds an entry a single upsert refuses |
| MappingBatches.FaultsDontMatterIffNoneSlips | src/features/mappings/mappings.service.ts:602-676 | when the database refuses none of the entries, if and only if none is of another tenant's key or fails the single form's check |
| MappingBatches.ProductFaultsDontMatterIff | src/features/mappings/mappings.service.ts:602-676 | the product form: if and only if no such chunk holds a product of another tenant |
| MappingBatches.LocationFaultsDontMatterIff | src/features/mappings/mappings.service.ts:228-279 | the location form: if and only if every such chunk maps only to elements on a floor or forecourt |
| MappingBatches.ForeignProductRewritten | src/features/mappings/mappings.service.ts:633-660 | the chunk rewrites another tenant's row and reports a success, the fallback reports an error and changes nothing |
| MappingEntries.EveryEntryReported | src/features/mappings/mappings.service.ts:366-424 | each entry is a success or an error, and the successes are those not refused |
| MappingEntries.LastPerKeyFacts | src/features/mappings/mappings.service.ts:603-606 | one entry for each product, its last |
| MappingEntries.FirstComeOrder | src/features/mappings/mappings.service.ts:603-606 | products keep the order in which they first come |
| MappingBatches.LastProductAgreesIff | src/features/mappings/mappings.service.ts:603-606 | keeping only last entries leaves the table all entries would if and only if no refused last entry hides an accepted one not stored already |
| MappingDetails.ProductsMapped | src/features/mappings/mappings.service.ts:602-690 | wherever chunks fail, a product not reported as an error has the target, the flag and the confidence, unless 0, of its last mapping in the request, under the tenant that has its row; all other rows stay |
| MappingDetails.LocationsMapped | src/features/mappings/mappings.service.ts:228-424 | a location not reported as an error, or whose last mapping nothing refuses, has the element of that mapping; all other rows stay |
| TenantScope.ActionIsolated | src/core/database/tenant-scope.util.ts:41-111 | a scoped action leaves other tenants' rows alone, and its answer and effect are those on the tenant's own rows if and only if no row it would write has the id or a unique key of another tenant's row |
| TenantScope.KeyOfAnotherTenant | src/core/database/tenant-scope.util.ts:92-95 | a row with a fresh id and the unique key of another tenant's row is refused, and accepted when the tenant is alone |
| TenantScope.RunIsolated | src/core/database/tenant-scope.util.ts:58-111 | however the actions of tenants interleave, a tenant that writes no id or unique key of another sees what it would alone |
| TenantScope.OthersUnchanged | src/core/database/tenant-scope.util.ts:58-111 | a run of actions of one tenant leaves the rows of every other as they are |
| TenantScope.ScopingTwice | src/core/database/tenant-scope.util.ts:41-111 | scoping a scoped query changes nothing |
| TenantScope.Params.ApplyTenantScope | src/core/database/tenant-scope.util.ts:58-111 | the arguments, in place, become the scoped ones |
| TenantScope.BuildTenantScopedModelSet | src/core/database/tenant-scope.util.ts:25-39 | the names of the models with a required, single, scalar tenantId |
| TenantScopeDetails.ReadIs | src/core/database/tenant-scope.util.ts:41-90 | a reading action answers with the rows that pass the filter and are of the tenant, or of the one the filter names; the throwing forms fail when there is none |
| TenantScopeDetails.UpdateIs | src/core/database/tenant-scope.util.ts:41-90 | an update changes the given fields of exactly those rows, or none when a unique key is taken |
| TenantScopeDetails.DeleteIs | src/core/database/tenant-scope.util.ts:41-90 | a deletion removes exactly those rows |
| TenantScopeDetails.CreateIs | src/core/database/tenant-scope.util.ts:49-111 | each new row belongs to the tenant it names, or else to the caller's; all are added, or none |
| TenantScopeDetails.UpsertIs | src/core/database/tenant-scope.util.ts:84-91 | an upsert changes the rows it sees, and only where it sees none adds one, for the caller's tenant even in place of a null |
| LockLease.ExclusiveIff | src/core/redis/redis.service.ts:31-51 | in every run, values repeated or not, no two leases hold at any point nor after any next acquire, if and only if no release of a lapsed lease took the key of another |
| LockLease.LapsedReleaseFreesIff | src/core/redis/redis.service.ts:41-51 | in every run, releasing a lapsed lease leaves the key to its holder if and only if the two values differ; the holder holds on either way |
| LockLease.AtMostOneHolder | src/core/redis/redis.service.ts:31-51 | as long as no release has taken the key of another, at most one lease holds |
| LockLease.AcquireSucceedsIff | src/core/redis/redis.service.ts:31-35 | until then an acquire succeeds exactly when no lease holds |
| LockLease.DistinctValuesExclusive | src/core/auth/strategies/jwt-db-lookup.strategy.ts:147-157 | with distinct values no release takes the key of another |
| LockLease.SameValueFreesTheNext | src/core/redis/redis.service.ts:41-51 | with a value used twice the first holder's late release lets a third client acquire while the second holds |
| LockLease.LockServer.AcquireLock | src/core/redis/redis.service.ts:31-35 | set when absent or expired, with an expiry |
| LockLease.LockServer.ReleaseLock | src/core/redis/redis.service.ts:41-51 | deleted only while it holds the caller's value |
| UniqueSlug.Tenants.EnsureUniqueSlug | src/features/onboarding/onboarding.service.ts:552-572 | a free slug within one probe more than there are taken slugs: the base, or the first free base-k |
| UniqueSlug.ProbesDiffer | src/features/onboarding/onboarding.service.ts:556-560 | no slug is tried twice |
| UniqueSlug.TakenProbes | src/features/onboarding/onboarding.service.ts:552-572 | when the first n probes are taken, at least n slugs are |
| UniqueSlug.FirstFreeIsOne | src/features/onboarding/onboarding.service.ts:552-572 | there is exactly one first free probe, and it is among those |
| UniqueSlug.ProbeSpelled | src/features/onboarding/onboarding.service.ts:556-560 | a probe is the base, or the base, a dash and its number in decimal without a leading zero |

## Left out

- The payload of a save is a value: the model returns it with its ids, where the code writes them into the object it was given.
- The attributes within `core`, `extras` and `tags`, the defaults of missing ones, and the conversion between JSON and row types are not modelled; nor is the grid position a quick creation chooses.
- JSON levels are numbers: a missing level, which loads as 0, is the level 0.
- When several JSON floors share a level, the loaded one has the attributes of the first with an id, where the code overlays that floor's attributes on the first one's.
- Staff, inventory and performance rows of an element are not modelled.
- A save outside a request, where the queries on mappings are not filtered by tenant, is not modelled.
- Assignment to the external zone, deletion of a configuration, and mappings made without validation are not steps of the mapping runs; the last two can leave a mapping dangling.
- The optimistic writes of the floor-plan operations happen without another writer in between; with others, `OptimisticWriter` applies.
- Name, capacity and dates of a configuration are not modelled.
- What the pricing service answers is a parameter, the same for the bulk and the single form; the number conversions of stored prices (strings, NaN) and the currency of a history row are not modelled.
- The messages of errors, and which of several exceptions a failed price request throws, are one status.
- `bulkProductMappings` after its upserts attaches the items to a space and before them revives deleted items; neither is modelled. Nor are the generated ids, the dates and the author of mapping rows.
- A filter that has a `tenantId` key without a value is taken as it is, and so is not scoped; the isolation results are about filters without that key.
- Relation filters, nested writes and foreign keys of a tenant-scoped query, which look at other tables, `createMany` with `skipDuplicates`, and raw queries are not modelled; scoping inspects only the top level of a filter, and so does the model.
- The slug search reads a fixed set of taken slugs: another registration between the check and the insert is not modelled.
- A write of recipe lines that is refused both for a duplicate and for a cost that does not fit reports the duplicate; the database may report either.
- Storage types and line counts of a menu item refresh are not modelled.
- A lock's clock is the server's; delays between server and client are not modelled. A client releases only a lease it was given.
- Controllers, guards, queues, webhooks, dashboards, pagination and caches, which would add only easy members; the list cache doubles its key prefix, and no claim is made about it.

# AirClean WMS: a Dafny model of its record-keeping rules

AirClean WMS is an Electron desktop app for a small warehouse and shop. Its
screens (React pages) and its main-process handlers (the IPC layer over
Prisma) hold a set of small sequential rules that act on in-memory records.
This project models those rules and proves what they promise:

- the one-off source patcher that cuts the main handler file at a banner
  (or a fallback token) and appends a fixed block of combo handlers;
- stock arithmetic: single-product and variant stock updates clamped at 0,
  combo stock as the minimum of ⌊stock / quantity⌋, the deduction of a
  combo's components, purchase receipts, stock-balance adjustments;
- the pickup scan state machine over the loaded rows and the scan history;
- the mock product categories store;
- roles and permissions, the menu keys a role may open, sign-in and the
  "always keep an active admin" rules;
- dotted version comparison for the update check;
- the combo wizard (SKU, name, price, quantity stepper, saved items);
- the POS cart and the export order list;
- the product list (combo dedup/attach, bulk apply, variant filter, search);
- the e-commerce order import, the tracking number kept in an order's notes,
  the scan that completes an order;
- refunds and returns (import, scan, status values, packer list, process log);
- purchase orders, the combo product list, the system log viewer and the
  daily task board.

Each core source file has its own module. Pure rules are functions with
lemmas about them; state that a page or a handler updates in place is a
class whose methods are proved against those functions. Shared modules:
`Text` (JavaScript `trim`, ASCII case mapping, `split`/`join`, substring
search, number rendering), `Lists` (max + 1 ids, removal by index, first
occurrence, filters, sums), `Grouping` (grouping rows by key in order of
first occurrence, as the pages do with a `Map` or an object), `Catalog`
(product, variant and combo records, with JSON text fields modelled as
absent, parsed or unparseable), `Numbering` (the import counter loop),
`TrackingNotes` (the notes string) and `OrderSheet` (spreadsheet rows).

Databases, `localStorage` and JSON text are replaced by sequences, maps and
parsed values; clocks and user input are parameters.

## Model

| member | source | states |
|---|---|---|
| `Patcher.FindBanner` | fix_combo_handlers.py:15-16 | the result is -1 or a position where the banner pattern matches, and the pattern matches at no earlier position (leftmost match, as `re.search`) |
| `Patcher.DropLastPieces` | fix_combo_handlers.py:27-29 | the rejoined text with the last ten '\n'-pieces dropped is a prefix of the text |
| `Patcher.Clean` | fix_combo_handlers.py:14-33 | the kept part is always a prefix of the input |
| `Patcher.Patch` | fix_combo_handlers.py:114 | the output is a prefix of the input followed by the constant template block, whatever the input |
| `Patcher.CutAtLeftmostBanner` | fix_combo_handlers.py:15-21 | when a banner occurs anywhere, the cut is at the leftmost one, at or before any given match, and the fallback token is not consulted |
| `Patcher.FallbackDropsTenPieces` | fix_combo_handlers.py:23-30 | with no banner and the token present, the kept text is the text before the token's first occurrence, split on '\n', without its last ten pieces, rejoined with '\n' |
| `Patcher.FallbackShortPrefixIsEmpty` | fix_combo_handlers.py:27-29 | with fewer than ten newlines before the token, nothing of the input is kept |
| `Patcher.KeepsAllWithoutMarkers` | fix_combo_handlers.py:31-33 | with neither banner nor token, the output is the whole input followed by the template |
| `Patcher.OutputHasBanner` | fix_combo_handlers.py:36-40 | the output always contains a banner, at the latest where the appended block puts it, so a second run over the output cuts there or earlier |
| `Patcher.TemplateBannerMatches` | fix_combo_handlers.py:36-40 | the banner at the head of the appended block matches the search pattern |
| `Patcher.BannerShapeMatches` | fix_combo_handlers.py:15 | any "// " rule of at least 30 '=', a "// " line mentioning combo in any case, and another such rule, form a match of the pattern |
| `Inventory.Adjusted` | electron/ipc-handlers.js:829-831 | the new stock is never negative: it is the old stock plus or minus the quantity, or 0 when that would go below 0 |
| `Inventory.DeductThenRestore` | electron/ipc-handlers.js:841-846 | taking q out of a stock that holds at least q and adding q back restores it |
| `Inventory.ProductIndexBySku` | electron/ipc-handlers.js:789 | the index found is the first product with that SKU, or -1 when none has it |
| `Inventory.VariantOwnerFrom` | electron/ipc-handlers.js:802-813 | the first product, from a position on, whose variants parse and hold that SKU, or -1 |
| `Inventory.Locate` | electron/ipc-handlers.js:789-823 | a SKU is found on the product with that SKU first; otherwise on the first variant with that SKU (the `findIndex`) of the first product whose variants parse and hold it; it is unknown exactly when no product or variant has it |
| `Inventory.WithStock` | electron/ipc-handlers.js:833-847 | the write changes the stock at one location and leaves every other product, variant and field unchanged |
| `Inventory.UpdateSingle` | electron/ipc-handlers.js:788-853 | an unknown SKU fails with no change; otherwise only the located stock changes, to the clamped new value |
| `Inventory.WithStockSameSkus` | electron/ipc-handlers.js:833-847 | a stock write changes no product or variant SKU |
| `Inventory.LocateSameSkus` | electron/ipc-handlers.js:789-813 | where a SKU is found depends only on the SKUs, not on any stock figure |
| `Inventory.LocateAfterWithStock` | electron/ipc-handlers.js:789-847 | after a stock write every SKU is found where it was before |
| `Inventory.DeductThenRestoreList` | electron/ipc-handlers.js:788-853 | deducting q from a SKU whose stock holds at least q and then adding q back gives the original product list |
| `Inventory.UpdateSingleKeepsNonNegative` | electron/ipc-handlers.js:829-846 | a single update keeps every product and variant stock non-negative |
| `Inventory.DeductAllKeepsNonNegative` | electron/ipc-handlers.js:766-773 | deducting all of a combo's components keeps every stock non-negative |
| `Inventory.DeductAll` | electron/ipc-handlers.js:766-773 | deducting the components changes only stock figures: every product and variant SKU stays |
| `Inventory.ComboIndexBySku` | electron/ipc-handlers.js:756-758 | the index found is the first combo with that SKU, or -1 when none has it |
| `Inventory.ComboLimitIsMinimum` | electron/ipc-handlers.js:2427-2442 | the combo's stock is the least ⌊stock / quantity⌋ over the items that constrain it and is reached by one of them; it is unconstrained exactly when no item constrains it |
| `Inventory.ComboLimit` | electron/ipc-handlers.js:2427-2442 | fails exactly when some item fails; a bound is the limit of one of the items |
| `Inventory.ComboLimitFails` | electron/ipc-handlers.js:2431-2432 | a variants field that does not parse on any item fails the whole computation |
| `Inventory.ShownStockIsAffordable` | electron/ipc-handlers.js:2435-2443 | the shown stock times an item's quantity never exceeds that component's stock |
| `Inventory.ComboLimitBelowItem` | electron/ipc-handlers.js:2436 | the running minimum is at most each constraining item's ⌊stock / quantity⌋ |
| `Inventory.Receive` | electron/ipc-handlers.js:1075-1114 | receiving one purchase line keeps the number of products |
| `Inventory.ReceiveAll` | electron/ipc-handlers.js:1075 | receiving all lines keeps the number of products |
| `Inventory.ReceiveTarget` | electron/ipc-handlers.js:1076-1113 | a line adds its quantity to the variant with its variantSku, or to the product itself when there is no variantSku or no variant list; a variantSku not in the list or a list that does not parse changes nothing; no other product changes |
| `Inventory.ReceiveAllNeverLowers` | electron/ipc-handlers.js:1075-1114 | receiving non-negative quantities never lowers any product's stock |
| `Inventory.ComboReturnIsPlainUpdate` | electron/ipc-handlers.js:760-780 | a combo SKU with isAdd true is a plain single update of the combo's own SKU, never a restock of its components |
| `Inventory.UpdateStockSpec` | electron/ipc-handlers.js:760-780 | a sold combo with readable items deducts its components, one result per item; it fails exactly for a sold combo with corrupt items or an unknown SKU on the single path, and a failure changes nothing; no SKU ever changes |
| `Inventory.Store.constructor` | electron/ipc-handlers.js:2424-2425 | the store holds the given products and combos |
| `Inventory.Store.UpdateSingleProductStock` | electron/ipc-handlers.js:788-853 | the loop over the products finds the variant owner; the new product list is the one UpdateSingle gives, and failure leaves it unchanged |
| `Inventory.DeductResultsAt` | electron/ipc-handlers.js:767-773 | the k-th collected result says whether the k-th item's SKU was found in the products as the items before it left them |
| `Inventory.Store.DeductCombo` | electron/ipc-handlers.js:765-773 | the loop over the items leaves the products as DeductAll gives them and returns one result per item, the k-th saying whether the k-th item's SKU was found in the products as the items before it left them |
| `Inventory.Store.UpdateStock` | electron/ipc-handlers.js:755-780 | a combo SKU sold deducts item quantity × quantity from each component in order and replies with the per-item results; anything else is a single update; the reply and the products are those of UpdateStockSpec |
| `Inventory.Store.AvailableStock` | electron/ipc-handlers.js:2426-2444 | the loop computes the combo's running minimum: None exactly when a variants field fails to parse, else the minimum with "unconstrained" shown as 0 |
| `Inventory.Store.CreatePurchase` | electron/ipc-handlers.js:1037-1114 | the purchase succeeds exactly when every line's product exists; then all lines are received in order, otherwise nothing changes |
| `Inventory.Store.ReceiveLines` | electron/ipc-handlers.js:1075-1114 | the loop receives the lines in order |
| `Inventory.CheckKnown` | electron/ipc-handlers.js:1037-1045 | the loop succeeds exactly when every line names an existing product |
| `Pickup.NormalizeStr` | electron/ipc-handlers.js:346-349 | null or undefined gives ""; a string is trimmed, so the result is "" exactly when the string is all whitespace |
| `Pickup.Matches` | electron/ipc-handlers.js:567 | the matches are exactly the loaded rows with that tracking number |
| `Pickup.MatchesIsFilter` | electron/ipc-handlers.js:567 | the matches are the order-preserving filter of the loaded rows by tracking number, repetitions kept |
| `Pickup.FirstWhere` | electron/ipc-handlers.js:573-574 | the index of the first row with the number (and from Shopee, when asked), or -1 when no row qualifies |
| `Pickup.FirstShopee` | electron/ipc-handlers.js:573 | the index of the first Shopee match, with no Shopee match before it, or -1 when no match is from Shopee |
| `Pickup.Preferred` | electron/ipc-handlers.js:573-574 | the chosen row is one of the matches: the first Shopee match when there is one, otherwise the first match |
| `Pickup.PreferredIsChosen` | electron/ipc-handlers.js:567-574 | the preferred match of a number is the first Shopee row of the data with that number, otherwise the first row with it |
| `Pickup.CheckOrder` | electron/ipc-handlers.js:551-574 | a scan is refused as empty, no data, duplicate or not found in that order, each exactly under its condition; an accepted scan is recorded against the first Shopee row of the data with that number, otherwise against the first row with it |
| `Pickup.Recent` | electron/ipc-handlers.js:618 | at most `limit` entries, newest first, each the history entry counted back from the end |
| `Pickup.Session.constructor` | electron/ipc-handlers.js:523-525 | the session holds the loaded rows and the loaded history |
| `Pickup.Session.Scan` | electron/ipc-handlers.js:549-613 | a refused scan returns its error and leaves the history unchanged; an accepted one appends exactly one entry for the trimmed number and replies with its source, file, time and order number (the history length when the row has none) |
| `Pickup.Session.GetHistory` | electron/ipc-handlers.js:616-619 | at most `limit` entries, newest first, the ten newest when no limit is passed, without changing the history |
| `Pickup.ScannedIsDuplicate` | electron/ipc-handlers.js:560-564 | a number accepted once is refused as a duplicate on the next scan |
| `MockCategories.IndexOfId` | electron/ipc-handlers.js:275 | the index is the first category with that id, or -1 |
| `MockCategories.Ids` | electron/ipc-handlers.js:251 | the ids of the categories, in order |
| `MockCategories.CreateAsWritten` | electron/ipc-handlers.js:249-253 | create as written appends the category with id = list length + 1 |
| `MockCategories.DeleteAt` | electron/ipc-handlers.js:306 | the splice removes exactly the entry at that index and keeps the order of the rest |
| `MockCategories.CreateAfterDeleteDuplicatesId` | electron/ipc-handlers.js:245-307 | from the initial list, create, delete id 1 and create again gives two categories with id 2 |
| `MockCategories.CreateWithNextId` | electron/ipc-handlers.js:249-253 | the corrected create appends the named category under an id one above the largest live id (1 for an empty list), so above every live id, and unique ids stay unique |
| `MockCategories.DeleteKeepsUniqueIds` | electron/ipc-handlers.js:302-307 | a delete keeps ids unique |
| `MockCategories.Store.constructor` | electron/ipc-handlers.js:45-47 | the list starts with the one category with id 1, whose ids are unique |
| `MockCategories.Store.Create` | electron/ipc-handlers.js:245-255 | the new category is appended under the corrected id and unique ids stay unique |
| `MockCategories.Store.Update` | electron/ipc-handlers.js:271-281 | a missing id fails and changes nothing; otherwise only that entry's name changes |
| `MockCategories.Store.Delete` | electron/ipc-handlers.js:298-307 | a missing id fails and changes nothing; otherwise exactly the first entry with that id is removed and unique ids stay unique |
| `Access.HasPermissionTable` | src/lib/permissions.ts:108-119 | no permission without a role; every permission for admin; for any other role, exactly the permissions its list names |
| `Access.HasPermission` | src/lib/permissions.ts:108-119 | no permission without a role; every permission for admin; any other role holds exactly the permissions its list names |
| `Access.CanView` | src/lib/permissions.ts:124-129 | nothing without a role; admin views every module; another role views m exactly when its list names "m.view" or the bare m |
| `Access.CanCreate` | src/lib/permissions.ts:134-139 | nothing without a role; admin creates everywhere; another role creates in m exactly when its list names "m.create" |
| `Access.CanUpdate` | src/lib/permissions.ts:144-149 | nothing without a role; admin updates everywhere; another role updates in m exactly when its list names "m.update" |
| `Access.CanDelete` | src/lib/permissions.ts:154-159 | nothing without a role; admin deletes everywhere; another role deletes in m exactly when its list names "m.delete" |
| `Access.OnlyAdminHoldsAll` | src/lib/permissions.ts:39-103 | 'all' is in a role's list exactly when the role is admin |
| `Access.ChecksReadTheTable` | src/lib/permissions.ts:124-159 | for a role other than admin, canView holds iff it has "m.view" or the bare m, and canCreate, canUpdate, canDelete iff it has "m.create", "m.update", "m.delete" |
| `Access.AdminAndNobody` | src/lib/permissions.ts:124-159 | admin may view, create, update and delete in every module; without a role nothing is allowed |
| `Access.ViewerCannotCreate` | src/lib/permissions.ts:93-102 | the viewer holds no ".create" permission, so it can create in no module |
| `Access.ManagerNoneBegins` | src/lib/permissions.ts:42-73 | a two-letter prefix absent from the three parts of the manager's list is absent from the whole list |
| `Access.ManagerCannotViewSettings` | src/lib/permissions.ts:42-73 | the manager cannot view the settings screen |
| `Access.ManagerCannotViewPermissions` | src/lib/permissions.ts:42-73 | the manager cannot view the permissions screen |
| `Access.MenuKeysOfRole` | src/lib/permissions.ts:192-206 | for a role other than admin, the menu keys are the distinct base modules (text before the first '.') of its permissions in first-occurrence order: each appears once and each base module appears |
| `Access.MenuKeys` | src/lib/permissions.ts:164-207 | no keys without a role; the fixed sixteen keys for admin; for another role, each base module of its permissions exactly once and nothing else |
| `Access.MenuOfPermissions` | src/lib/permissions.ts:168-206 | a list holding 'all' gives the fixed keys; any other list gives each of its base modules exactly once and nothing else |
| `Access.MenuOfList` | src/lib/permissions.ts:195-204 | the distinct base modules of a list without 'all' hold each base module exactly once and nothing else |
| `Access.BaseModulesAre` | src/lib/permissions.ts:199 | without 'all' in the list, the collected base modules are the base module of each permission, position by position |
| `Access.AdminMenuIsFixed` | src/lib/permissions.ts:169-190 | admin receives the fixed list of sixteen menu keys |
| `Access.AccessibleMenuKeys` | src/lib/permissions.ts:164-207 | the `forEach` that pushes each base module not yet collected yields exactly the menu keys of the role, [] without a role |
| `Versions.ComponentValue` | electron/update-handlers.js:143-148 | a component of digits reads as its decimal value; anything else counts as 0 |
| `Versions.Parts` | electron/update-handlers.js:143-144 | one number per '.'-separated piece, each read as a component |
| `Versions.CompareFrom` | electron/update-handlers.js:146-154 | the comparison only ever gives 1, -1 or 0 |
| `Versions.CompareFromDecides` | electron/update-handlers.js:146-154 | the result is 0 exactly when every component agrees, missing ones counting as 0; otherwise the first differing component decides, numerically |
| `Versions.CompareReflexive` | electron/update-handlers.js:142-155 | comparing a version with itself gives 0 |
| `Versions.CompareAntisymmetric` | electron/update-handlers.js:146-152 | swapping the arguments negates the result |
| `Versions.TrailingZerosIgnored` | electron/update-handlers.js:147-148 | trailing zero components change nothing |
| `Versions.CompareVersionsLoop` | electron/update-handlers.js:142-155 | the loop with its early returns gives the comparison of the component lists, and only 1, -1 or 0 |
| `Versions.CompareVersions` | electron/update-handlers.js:142-155 | only 1, -1 or 0; 0 exactly when every component agrees, missing ones counting as 0; otherwise the first differing component decides the sign |
| `Versions.MissingComponentIsZero` | electron/update-handlers.js:146-148 | "1.0" and "1.0.0" compare equal |
| `Versions.NumericNotLexical` | electron/update-handlers.js:143-152 | "1.10" is newer than "1.9" |
| `Versions.StripFirstV` | electron/update-handlers.js:39 | only the first 'v' of the tag, wherever it is, is removed; a tag without 'v' is kept |
| `Versions.StripFirstVExamples` | electron/update-handlers.js:39 | a leading 'v' is stripped and a second 'v' survives |
| `Versions.HasUpdate` | electron/update-handlers.js:39-40 | there is an update exactly when the stripped tag compares newer than the running version |
| `Versions.NoUpdateToSameVersion` | electron/update-handlers.js:39-40 | a release tagged "v" + the running version is never an update |
| `StockBalance.ProductItems` | src/pages/StockBalance.tsx:110-144 | a product whose variants parse yields one line per variant, carrying its SKU, colour and stock; otherwise, absent or unparseable, one line for the product itself |
| `StockBalance.BalanceItems` | src/pages/StockBalance.tsx:107-145 | every line starts unchecked; products without parsed variants give one own line each, in product order |
| `StockBalance.BalanceItemsUnchecked` | src/pages/StockBalance.tsx:107-145 | every generated line has count = system stock and difference 0, and names a product of the list |
| `StockBalance.StatsPartition` | src/pages/StockBalance.tsx:151-160 | lines needing adjustment plus balanced lines equal the number of lines |
| `StockBalance.CountNeedingAdjustment` | src/pages/StockBalance.tsx:151-160 | at most the number of lines, and 0 exactly when every line is balanced |
| `StockBalance.CalculateStats` | src/pages/StockBalance.tsx:151-160 | the total is the number of lines, each count is at most the total, and none needs adjustment exactly when every line is balanced |
| `StockBalance.ActualStockChange` | src/pages/StockBalance.tsx:173-184 | every line with that SKU takes the count and difference = count - system stock; every other line is unchanged |
| `StockBalance.ActualStockChangeKeepsConsistent` | src/pages/StockBalance.tsx:173-184 | editing a count keeps difference = count - system stock on every line |
| `StockBalance.NeedingAdjustment` | src/pages/StockBalance.tsx:192 | the lines to adjust are exactly the lines with a non-zero difference, as many as the stats count |
| `StockBalance.NeedingAdjustmentIsFilter` | src/pages/StockBalance.tsx:192 | the lines to adjust are the library filter of the lines: those with a non-zero difference, in line order, each as often as before |
| `StockBalance.AdjustmentReachesCount` | src/pages/StockBalance.tsx:219-223 | the request (quantity = \|difference\|, add when the difference is positive) applied to the system stock gives the counted stock |
| `StockBalance.UpdateStockReachesCount` | src/pages/StockBalance.tsx:219-223 | sent through the single stock update to a store holding the system stock, the request leaves the counted stock there |
| `StockBalance.Adjustments` | src/pages/StockBalance.tsx:216-228 | one request per line to adjust, in order |
| `StockBalance.NewRecord` | src/pages/StockBalance.tsx:231-239 | a new record's id is above every existing id (1 for the first), made by Admin, holding the adjusted lines and the notes |
| `StockBalance.PrependKeepsUniqueIds` | src/pages/StockBalance.tsx:241 | prepending the new record keeps record ids unique |
| `StockBalance.QuickBalance` | src/pages/StockBalance.tsx:269-331 | no request and no record exactly when the count equals the system stock; otherwise one request for the edited line and one record holding it, with the default note when none is given |
| `StockBalance.BalanceSheet.constructor` | src/pages/StockBalance.tsx:162-171 | the sheet starts with no lines and the loaded history |
| `StockBalance.BalanceSheet.GenerateBalanceItems` | src/pages/StockBalance.tsx:107-149 | the pass over the products leaves exactly the lines generated for them, in product order |
| `StockBalance.AppendProductItems` | src/pages/StockBalance.tsx:111-145 | the inner pass appends one line per parsed variant, or the product's own line |
| `StockBalance.BalanceSheet.ChangeActualStock` | src/pages/StockBalance.tsx:173-187 | the lines become those of ActualStockChange |
| `StockBalance.BalanceSheet.ApplyBalance` | src/pages/StockBalance.tsx:191-243 | with no line to adjust nothing is sent and the history is unchanged; otherwise one request per such line in order, and one record holding exactly those lines at the head of the history |
| `ComboWizard.SelectedBelow` | src/components/ComboWizardModal.tsx:106 | every selected index names a variant and has a positive quantity |
| `ComboWizard.SelectedBelowComplete` | src/components/ComboWizardModal.tsx:106 | the selection is in increasing index order, as `Object.entries` lists integer keys, and holds every index with a positive quantity |
| `ComboWizard.SomePositiveIffSelected` | src/components/ComboWizardModal.tsx:164 | some quantity is positive exactly when the selection is not empty |
| `ComboWizard.SkuParts` | src/components/ComboWizardModal.tsx:116-120 | one part per selected variant: its quantity, then its colour without diacritics, upper-cased, whitespace removed |
| `ComboWizard.GenerateSku` | src/components/ComboWizardModal.tsx:104-122 | an error (the page throws) exactly when a key with a positive quantity names no variant; otherwise "" exactly when nothing is selected, and "qty-sku" for one selected variant |
| `ComboWizard.NoDashInNumber` | src/components/ComboWizardModal.tsx:119 | a rendered quantity holds no '-' |
| `ComboWizard.NoDashInPart` | src/components/ComboWizardModal.tsx:118 | upper-casing and removing whitespace adds no '-' |
| `ComboWizard.MixedSkuHasOnePartPerVariant` | src/components/ComboWizardModal.tsx:115-121 | with two or more selected variants (colours without '-') a generated SKU is "CB-" followed by one '-'-separated part per selected variant, in order |
| `ComboWizard.ColorNames` | src/components/ComboWizardModal.tsx:141-144 | the colours of the selected variants without diacritics, in order |
| `ComboWizard.GenerateName` | src/components/ComboWizardModal.tsx:124-146 | an error (the page throws) exactly when a key with a positive quantity names no variant; otherwise "" exactly when nothing is selected, and "Combo qty Goi product - colour" for one selected variant |
| `ComboWizard.SavedItems` | src/components/ComboWizardModal.tsx:175-185 | one item per selected index, built from that variant |
| `ComboWizard.Save` | src/components/ComboWizardModal.tsx:173-193 | an error (the page throws) exactly when some key names no variant; otherwise the items are exactly the variants with a positive quantity, in index order, each with variantIndex = idx and its quantity; a typed SKU or name replaces the generated one only when non-empty, a typed price only when set and non-zero, else the cost, which is the record's price |
| `ComboWizard.CalculatePrice` | src/components/ComboWizardModal.tsx:148-154 | an error (the page throws) exactly when some key, even one at quantity 0, names no variant; otherwise the sum of cost × qty over every entry of the record |
| `ComboWizard.EntriesCostRemove` | src/components/ComboWizardModal.tsx:150-153 | the sum over the record's entries does not depend on the order they are taken in: any entry can be taken out first |
| `ComboWizard.PriceBelowIsEntriesCost` | src/components/ComboWizardModal.tsx:148-154 | summing the variants in index order gives the sum over the record's entries |
| `ComboWizard.QuantitiesOf` | src/components/ComboWizardModal.tsx:70-76 | the loaded record has a key for exactly the indexes some item names, each holding the quantity of the last item for it |
| `ComboWizard.ReloadRestoresQuantities` | src/components/ComboWizardModal.tsx:64-76 | loading the items of a successful save gives back every variant's quantity, when none is negative |
| `ComboWizard.PriceIsCostOfSavedItems` | src/components/ComboWizardModal.tsx:148-154 | with no negative quantity, calculatePrice is Σ cost × qty over the saved items: entries at 0 add nothing |
| `ComboWizard.PriceStepSelected` | src/components/ComboWizardModal.tsx:150-153 | a variant with a positive quantity adds its cost × qty to both sides |
| `ComboWizard.SavedCostAppend` | src/components/ComboWizardModal.tsx:175-185 | selecting one more variant adds its cost × qty to the saved items' cost |
| `ComboWizard.ItemsCostOfItemFor` | src/components/ComboWizardModal.tsx:176-184 | the item built for a variant costs that variant's cost × qty |
| `ComboWizard.PriceStepSkipped` | src/components/ComboWizardModal.tsx:150-153 | a variant at quantity 0 adds nothing to either side |
| `ComboWizard.SavedItemsAppend` | src/components/ComboWizardModal.tsx:175 | the saved items of a longer selection are the former ones plus the new variant's item |
| `ComboWizard.ItemsCostAppend` | src/components/ComboWizardModal.tsx:150-153 | the cost of a list with one more item adds that item's cost |
| `ComboWizard.Decrement` | src/components/ComboWizardModal.tsx:265 | the minus button takes one off and never goes below 0; every other variant keeps its quantity |
| `ComboWizard.Increment` | src/components/ComboWizardModal.tsx:267 | the plus button adds exactly 1; every other variant keeps its quantity |
| `ComboWizard.IncrementThenDecrement` | src/components/ComboWizardModal.tsx:265-267 | plus then minus gives every variant its former quantity back |
| `ComboWizard.Wizard.constructor` | src/components/ComboWizardModal.tsx:39-44 | a fresh wizard is at step 1 with no product, no quantities and nothing typed |
| `ComboWizard.Wizard.OpenNew` | src/components/ComboWizardModal.tsx:46-61 | opening for a new combo goes to step 1 with no quantities and nothing typed; the product is the first one with the pre-selected id when that id is set and non-zero and found, else none |
| `ComboWizard.Wizard.OpenEdit` | src/components/ComboWizardModal.tsx:62-84 | opening on a saved combo changes nothing when its items do not parse; otherwise it loads the first item's product and the items' quantities when that product is found (keeping both when not), fills the typed SKU, name and price from the combo and jumps to step 3 |
| `ComboWizard.Wizard.SelectProduct` | src/components/ComboWizardModal.tsx:237 | clicking a card chooses that product and keeps the quantities |
| `ComboWizard.Wizard.Back` | src/components/ComboWizardModal.tsx:345-349 | the back button moves one step back, and only from above step 1 |
| `ComboWizard.Wizard.Next` | src/components/ComboWizardModal.tsx:156-171 | step 1 moves on only with a product chosen, step 2 only with some positive quantity; otherwise, and at step 3, the step stays |
| `ComboWizard.Wizard.Minus` | src/components/ComboWizardModal.tsx:265 | the quantities become those of Decrement |
| `ComboWizard.Wizard.Plus` | src/components/ComboWizardModal.tsx:267 | the quantities become those of Increment |
| `ExportOrders.VariantCodeIndex` | src/pages/ExportOrders.tsx:421-423 | the first variant whose upper-cased SKU is the code, or -1 |
| `ExportOrders.VariantOwner` | src/pages/ExportOrders.tsx:418-434 | the first product, from a position on, with a variant carrying the code |
| `ExportOrders.ProductCodeIndex` | src/pages/ExportOrders.tsx:438-440 | the first product whose upper-cased SKU or barcode is the code, or -1 |
| `ExportOrders.FindByCode` | src/pages/ExportOrders.tsx:410-446 | a variant found by its SKU in the first product that has one, with its SKU, colour, stock and price (the variant's, else the product's); only when no variant carries the code, the first product with that SKU or barcode; nothing exactly when no variant, SKU or barcode carries it |
| `ExportOrders.VariantCodeTakesPrecedence` | src/pages/ExportOrders.tsx:417-446 | a variant SKU wins over any product SKU or barcode, wherever they are |
| `ExportOrders.FindMatch` | src/pages/ExportOrders.tsx:417-446 | the loop with its `break` finds what FindByCode specifies |
| `ExportOrders.CartIndexBySku` | src/pages/ExportOrders.tsx:461 | the first cart line with that SKU, or -1 |
| `ExportOrders.ScanRefusalsKeepCart` | src/pages/ExportOrders.tsx:404-470 | an empty code, an unknown code, a sold-out match and a line already at the available stock leave the cart unchanged |
| `ExportOrders.ScanNotFoundIff` | src/pages/ExportOrders.tsx:404-451 | a scan reports "not found" exactly when the trimmed, upper-cased code is not empty and no variant SKU, product SKU or barcode carries it |
| `ExportOrders.ScanCart` | src/pages/ExportOrders.tsx:404-485 | ignored exactly for a blank code; not found exactly when no variant SKU, product SKU or barcode carries the trimmed, upper-cased code; the cart changes only on an accepted scan, by at most one line |
| `ExportOrders.AddMatchFinds` | src/pages/ExportOrders.tsx:453-485 | once a match is found the cart step never reports it as missing or ignored |
| `ExportOrders.AddMatch` | src/pages/ExportOrders.tsx:453-485 | sold out exactly when the stock is not positive; added exactly for an SKU no line has, as a new first line of quantity 1; at the limit exactly when the first line of that SKU already holds the stock; only an added or raised line changes the cart |
| `ExportOrders.AddMatchStaysWithinStock` | src/pages/ExportOrders.tsx:453-485 | an accepted scan raises the existing line of that SKU by one, up to the available stock, or puts a new line first with quantity 1; every other line is unchanged; a refusal leaves the cart unchanged |
| `ExportOrders.TotalsOfUpdate` | src/pages/ExportOrders.tsx:576-577 | replacing one line changes each total by that line's difference |
| `ExportOrders.AddMatchAddsOneUnit` | src/pages/ExportOrders.tsx:461-485 | an accepted scan adds exactly one unit to the total quantity and that line's unit price to the total amount |
| `ExportOrders.LineAmountStep` | src/pages/ExportOrders.tsx:577 | one more unit adds one unit price to a line's amount |
| `ExportOrders.RemoveSku` | src/pages/ExportOrders.tsx:500-503 | the cart keeps exactly the lines with another SKU |
| `ExportOrders.RemoveSkuIsFilter` | src/pages/ExportOrders.tsx:501 | removing a SKU is the library filter of the cart: the other lines stay in cart order, each as often as before |
| `ExportOrders.RemoveSkuTotal` | src/pages/ExportOrders.tsx:500-503 | removing a SKU takes exactly that SKU's units out of the total quantity |
| `ExportOrders.TotalOfConcat` | src/pages/ExportOrders.tsx:576 | the total quantity of two joined carts is the sum of their totals |
| `ExportOrders.RemoveAbsentSku` | src/pages/ExportOrders.tsx:501 | removing a SKU no line carries leaves the cart unchanged, in order |
| `ExportOrders.RemoveUndoesAdd` | src/pages/ExportOrders.tsx:476-501 | removing the SKU a scan has just added gives back the former cart |
| `ExportOrders.Pos.constructor` | src/pages/ExportOrders.tsx:82 | the cart starts empty |
| `ExportOrders.Pos.Scan` | src/pages/ExportOrders.tsx:404-492 | the new cart and the outcome are those of ScanCart |
| `ExportOrders.Pos.Add` | src/pages/ExportOrders.tsx:453-485 | the new cart and the outcome are those of AddMatch |
| `ExportOrders.Pos.Remove` | src/pages/ExportOrders.tsx:500-503 | the new cart is the old one without that SKU's lines |
| `ExportOrders.Ids` | src/pages/ExportOrders.tsx:231 | the ids of the exports, in order |
| `ExportOrders.Submit` | src/pages/ExportOrders.tsx:167-269 | a save needs a product, a colour when the product has variants, and a quantity within the chosen item's stock, else it fails saying so; a new export gets an id above every existing one, goes first and asks for one deduction; an edit replaces the export with that id and asks to put the old line back, then deduct the new one |
| `ExportOrders.Delete` | src/pages/ExportOrders.tsx:371-398 | every export with the record's id goes and the rest stay in order (the library filter of the list), and the record's line is asked back into stock |
| `ExportOrders.WithoutId` | src/pages/ExportOrders.tsx:379 | the exports kept are exactly those with another id |
| `ExportOrders.WithoutIdIsFilter` | src/pages/ExportOrders.tsx:379 | dropping an id is the library filter of the exports: the others stay in order, each as often as before |
| `ExportOrders.DeleteUndoesCreate` | src/pages/ExportOrders.tsx:228-244 | deleting an export just created gives back the former export list |
| `ExportOrders.WithoutAbsentId` | src/pages/ExportOrders.tsx:379 | removing an id above every existing id changes nothing |
| `ExportOrders.CreateThenDeleteRestoresStock` | src/pages/ExportOrders.tsx:253-388 | the deduction a save asks for is undone by the restore its deletion asks for, whenever the stock held the exported quantity |
| `Products.Skus` | src/pages/Products.tsx:109 | the SKUs of the combos, in order |
| `Products.UniqueCombos` | src/pages/Products.tsx:108-115 | the deduplicated list is no longer than the combo list |
| `Products.ComboTaken` | src/pages/Products.tsx:109 | `acc.find` by SKU succeeds exactly when the SKU is among the kept SKUs |
| `Products.UniqueCombosSkus` | src/pages/Products.tsx:108-115 | the kept combos carry each SKU once, in the order the SKUs first appear |
| `Products.SkusOfPrefix` | src/pages/Products.tsx:108 | the SKUs of a list without its last combo are the SKUs without the last one |
| `Products.SkusAppend` | src/pages/Products.tsx:110 | pushing a combo appends its SKU |
| `Products.DistinctStep` | src/pages/Products.tsx:109-113 | the distinct SKUs of a longer list gain the last SKU exactly when it is new |
| `Products.UniqueCombosKeepsFirst` | src/pages/Products.tsx:108-115 | each kept combo is the first combo with its SKU |
| `Products.KeptFirstInLonger` | src/pages/Products.tsx:108-115 | a combo first with its SKU stays first when combos are added after it |
| `Products.ClearCombos` | src/pages/Products.tsx:120-129 | every parsed variant loses its combos and the product its mix combos; nothing else changes |
| `Products.ProductIndexById` | src/pages/Products.tsx:140 | the first product with that id, or -1 |
| `Products.ParentIndex` | src/pages/Products.tsx:137-142 | the parent is a product position or -1 |
| `Products.AttachOne` | src/pages/Products.tsx:133-196 | a combo of several items joins its parent's mix combos; a one-item combo joins the variant its item names, only when that variant exists; the parent's variants are written back as a parsed list; every other product, and a combo without a parent, stays as it was |
| `Products.AttachAll` | src/pages/Products.tsx:132-197 | attaching keeps the number of products |
| `Products.ClearAll` | src/pages/Products.tsx:120-129 | every product is cleared |
| `Products.Shape` | src/pages/Products.tsx:140-191 | per product, its id and its number of variant rows |
| `Products.ShapeIndexById` | src/pages/Products.tsx:140 | the first product with that id in the shape, or -1 |
| `Products.RowCombosUpdate` | src/pages/Products.tsx:178 | replacing one variant changes the count of variant combos by that variant's difference |
| `Products.AttachmentsUpdate` | src/pages/Products.tsx:191 | replacing one product changes the count of shown combos by that product's difference |
| `Products.RowCombosCleared` | src/pages/Products.tsx:124 | variants without combos show none |
| `Products.AttachmentsCleared` | src/pages/Products.tsx:120-129 | cleared products show no combos |
| `Products.ClearAllEmpties` | src/pages/Products.tsx:119-129 | clearing keeps every product's id and row count and leaves nothing attached |
| `Products.AttachOneCounts` | src/pages/Products.tsx:133-196 | one attachment keeps the shape and adds one shown combo exactly when the combo finds a place |
| `Products.AttachAllCounts` | src/pages/Products.tsx:132-197 | attaching a list adds exactly as many shown combos as find a place |
| `Products.LoadShowsEachComboOnce` | src/pages/Products.tsx:103-198 | after loading, the list shows exactly one entry per distinct-SKU combo that finds a place, whatever earlier loads attached |
| `Products.Load` | src/pages/Products.tsx:103-198 | the loaded list keeps every product's id and number of variant rows, in order |
| `Products.ReloadDoesNotDuplicate` | src/pages/Products.tsx:119-129 | loading again from the loaded list attaches nothing twice |
| `Products.ProductsPage.constructor` | src/pages/Products.tsx:97 | the list starts empty |
| `Products.ProductsPage.LoadProducts` | src/pages/Products.tsx:88-198 | the list becomes the loaded products with duplicate-SKU combos dropped, old attachments cleared and the combos attached in order |
| `Products.ProductsPage.ClearLoaded` | src/pages/Products.tsx:120-129 | the loop clears every product in place |
| `Products.ProductsPage.AttachLoaded` | src/pages/Products.tsx:132-197 | the loop attaches each combo in order |
| `Products.DedupCombos` | src/pages/Products.tsx:108-115 | the `reduce` builds exactly the deduplicated list |
| `Products.FilteredProducts` | src/pages/Products.tsx:811-819 | a blank search keeps every product; otherwise exactly the products whose lower-cased SKU, barcode or name contains the lower-cased (untrimmed) search text, in order |
| `Products.BulkApplied` | src/pages/Products.tsx:474-480 | each variant takes the bulk cost and price when non-zero, and the bulk stock when non-zero and the variant is not a loaded one; nothing else changes |
| `Products.BulkApplyProperties` | src/pages/Products.tsx:474-480 | all-zero bulk values change nothing; applying the same values twice is applying them once; a loaded variant's stock never changes |
| `Products.ValidVariants` | src/pages/Products.tsx:495-497 | the kept variants are no more than the variants |
| `Products.ValidVariantsMembers` | src/pages/Products.tsx:495-497 | the kept variants are exactly those whose colour is not blank |
| `Products.ValidVariantsKeepsValid` | src/pages/Products.tsx:495-497 | a list without blank colours is kept whole |
| `Products.SeqHeadTail` | src/pages/Products.tsx:495 | a list is its head followed by its tail |
| `Products.AllHaveColourSplit` | src/pages/Products.tsx:496 | a list without blank colours has a head and a tail without blank colours |
| `Products.ValidVariantsIdempotent` | src/pages/Products.tsx:495-497 | filtering twice is filtering once |
| `Products.VariantsPayload` | src/pages/Products.tsx:505 | null exactly when no variant has a colour; otherwise the kept variants, not empty |
| `Products.LeadingDigits` | src/pages/Products.tsx:1830 | the length of the digit run at the start of a SKU |
| `Products.ComboSku` | src/pages/Products.tsx:1830 | the leading digit run of the base SKU is replaced by the quantity; a SKU not starting with a digit is kept |
| `Products.ComboSkuReadsBackQuantity` | src/pages/Products.tsx:1830 | the combo SKU's leading digits spell the quantity and the rest of the base SKU follows unchanged |
| `Products.LeadingDigitsOfConcat` | src/pages/Products.tsx:1830 | digits followed by a non-digit have exactly that many leading digits |
| `Products.VariantEditor.constructor` | src/pages/Products.tsx:255 | the editor holds the loaded rows and zero bulk values |
| `Products.VariantEditor.BulkApply` | src/pages/Products.tsx:467-489 | nothing happens without rows; otherwise the bulk values are applied to every row and reset to 0 |
| `Products.VariantEditor.DeleteRow` | src/pages/Products.tsx:1507-1508 | the row at that index is removed and the rest keep their order |
| `Products.VariantEditor.AddCombo` | src/pages/Products.tsx:1817-1846 | the chosen base row must exist and have a SKU, else nothing changes; then a combo of qty packs is added to that row, its SKU derived from the base SKU, cost and price qty times the base's, stock 0 |
| `Ecommerce.Ids` | src/pages/EcommerceExport.tsx:811 | the record ids, in order |
| `Ecommerce.KeptRows` | src/pages/EcommerceExport.tsx:711-729 | the kept rows are sheet rows that are neither the TikTok description row nor missing an order id or product name |
| `Ecommerce.ImportedRecord` | src/pages/EcommerceExport.tsx:834-854 | an imported record is pending; its order number and code are its order id, which no existing record has; its items are the order's rows in order; its total is the items' total; its notes count the items and their quantity |
| `Ecommerce.ImportedTrackingReadsBack` | src/pages/EcommerceExport.tsx:852 | the tracking id read back from the notes is the first row's trimmed tracking id, when that id has no `\|` and the provider name does not contain the tracking label |
| `Ecommerce.SelectedIffQualifies` | src/pages/EcommerceExport.tsx:815-837 | an order becomes a record exactly when no record has its id as order number or code and its first row has a tracking id that is not blank, "N/A" or "—" |
| `Ecommerce.ImportIsQualifyingOrders` | src/pages/EcommerceExport.tsx:811-870 | one record per qualifying order, in order, numbered up from the next id and placed before the old records; the rest are counted as skipped; the list is kept when none qualifies |
| `Ecommerce.ImportOrders` | src/pages/EcommerceExport.tsx:811-870 | never a format error; with nothing imported the records stay and every order counts as skipped; otherwise at least one record is imported, imported plus skipped is the number of orders, and the new records go before the old ones |
| `Ecommerce.ImportKeepsIdsUnique` | src/pages/EcommerceExport.tsx:811-867 | unique record ids stay unique after an import |
| `Ecommerce.NewIdsAbove` | src/pages/EcommerceExport.tsx:811-867 | records numbered up from above every old id, put in front of unique-id records, keep ids unique |
| `Ecommerce.OrdersAreGroupedRows` | src/pages/EcommerceExport.tsx:705-806 | the orders are the distinct order ids of the kept rows in first-seen order, each holding exactly the kept rows with its id, in order |
| `Ecommerce.GroupOrders` | src/pages/EcommerceExport.tsx:711-806 | the `forEach` builds exactly the order map |
| `Ecommerce.FindByTracking` | src/pages/EcommerceExport.tsx:336-342 | the first record whose notes' tracking id equals the code, or -1 when none does |
| `Ecommerce.Deductions` | src/pages/EcommerceExport.tsx:377-390 | deductions only, each for a non-empty variant SKU, no more than the items |
| `Ecommerce.DeductionsAreSkuItems` | src/pages/EcommerceExport.tsx:377-390 | one deduction per item with a variant SKU, in order, with that SKU and quantity |
| `Ecommerce.SkuItems` | src/pages/EcommerceExport.tsx:378 | exactly the items with a variant SKU |
| `Ecommerce.MarkCompleted` | src/pages/EcommerceExport.tsx:393-397 | records with that id become completed; every other field and record is unchanged |
| `Ecommerce.ScanNotFoundIff` | src/pages/EcommerceExport.tsx:331-409 | a blank code is ignored; "not found" exactly when no record's tracking id equals the trimmed code; only a pick changes the list |
| `Ecommerce.ScanRecords` | src/pages/EcommerceExport.tsx:331-409 | ignored exactly for a blank code; "not found" exactly when no record carries the trimmed code as its tracking id; only a pick changes the records, and never their number |
| `Ecommerce.ScanPicksFirstMatch` | src/pages/EcommerceExport.tsx:336-398 | a pick completes the first matching record, which was not completed, and only records sharing its id; nothing else changes |
| `Ecommerce.ScanTwiceWarns` | src/pages/EcommerceExport.tsx:346-354 | scanning the same code again only warns about the same record and changes nothing |
| `Ecommerce.RefindCompleted` | src/pages/EcommerceExport.tsx:336-397 | after the pick the search finds the same record, completed, with the same label |
| `Ecommerce.ScanFindsCompleted` | src/pages/EcommerceExport.tsx:346-354 | a found completed record changes nothing and is named in the warning |
| `Ecommerce.FindSameNotes` | src/pages/EcommerceExport.tsx:336-342 | the search depends only on the notes |
| `Ecommerce.CollectDeductions` | src/pages/EcommerceExport.tsx:377-390 | the loop over the items builds exactly the deductions |
| `Ecommerce.AllShowsEverything` | src/pages/EcommerceExport.tsx:1425 | 'all' shows every record |
| `Ecommerce.PendingCompletedPartition` | src/pages/EcommerceExport.tsx:1426-1427 | 'pending' and 'completed' split the records between them |
| `Ecommerce.OverdueArePending` | src/pages/EcommerceExport.tsx:1428-1434 | 'overdue' shows exactly the not-completed records whose day is past, a part of 'pending' |
| `Ecommerce.EcommercePage.constructor` | src/pages/EcommerceExport.tsx:66 | the page holds the loaded records |
| `Ecommerce.EcommercePage.Import` | src/pages/EcommerceExport.tsx:679-870 | the record list and the message are those of the import |
| `Ecommerce.EcommercePage.Scan` | src/pages/EcommerceExport.tsx:331-409 | the record list and the outcome are those of the scan |
| `Refunds.Ids` | src/pages/Refunds.tsx:621 | the refund ids, in order |
| `Refunds.FindRefund` | src/pages/Refunds.tsx:242-247 | the first refund whose order number or notes' tracking id equals the code, or -1 when none does |
| `Refunds.SetCompleted` | src/pages/Refunds.tsx:252-256 | refunds with that id become completed; every other field and refund is unchanged |
| `Refunds.ScanNotFoundIff` | src/pages/Refunds.tsx:237-272 | a blank code is ignored; "not found" exactly when no refund matches the trimmed code; only a found refund changes the list |
| `Refunds.ScanRefunds` | src/pages/Refunds.tsx:237-272 | ignored exactly for a blank code; "not found" exactly when no refund matches the trimmed code; only a return changes the refunds, and never their number |
| `Refunds.ScanCompletesFirstMatch` | src/pages/Refunds.tsx:242-257 | the scan completes the first matching refund and only refunds sharing its id; no other field changes |
| `Refunds.FindSameKeys` | src/pages/Refunds.tsx:242-247 | the search reads only order numbers and notes |
| `Refunds.ScanTwiceIsOnce` | src/pages/Refunds.tsx:237-272 | scanning the same code twice is scanning it once |
| `Refunds.RefindCompleted` | src/pages/Refunds.tsx:242-256 | after completing, the search finds the same refund again, completed |
| `Refunds.SetCompletedTwice` | src/pages/Refunds.tsx:250-256 | completing the same id twice is completing it once |
| `Refunds.KeptRows` | src/pages/Refunds.tsx:527-612 | exactly the rows with an order id and a product name are kept |
| `Refunds.ImportIsEveryOrder` | src/pages/Refunds.tsx:620-650 | one refund per order, in order, numbered up from the next id; nothing is created exactly when there is no order |
| `Refunds.ImportBatch` | src/pages/Refunds.tsx:508-650 | a wrong format exactly when neither the TikTok nor the Shopee columns are present; nothing found exactly when the sheet is recognised but holds no order; otherwise one refund per order, each id above every existing id |
| `Refunds.ImportedIdsAreNew` | src/pages/Refunds.tsx:621-628 | every imported id is above every existing id |
| `Refunds.ImportedRefund` | src/pages/Refunds.tsx:624-647 | an imported refund is pending, numbered and coded by its order id, lists the order's rows as items in order, totals their amounts (the sum of the item totals) and notes their quantity |
| `Refunds.ImportedTrackingReadsBack` | src/pages/Refunds.tsx:637 | the tracking id read back from the notes is the first row's (or "N/A"), trimmed, when it has no `\|` and the provider name does not contain the tracking label |
| `Refunds.OrdersAreGroupedRows` | src/pages/Refunds.tsx:527-612 | the orders are the distinct order ids of the kept rows, each holding exactly its kept rows in order |
| `Refunds.GroupRefundOrders` | src/pages/Refunds.tsx:527-612 | the `forEach` builds exactly the order map |
| `Refunds.AllShowsEverything` | src/pages/Refunds.tsx:870 | 'all' shows every refund |
| `Refunds.PendingCompletedPartition` | src/pages/Refunds.tsx:871-872 | 'pending' and 'completed' split the refunds between them |
| `Refunds.OverdueArePending` | src/pages/Refunds.tsx:873-879 | 'overdue' shows exactly the not-completed refunds more than three days old, a part of 'pending' |
| `Refunds.NewItem` | src/pages/Refunds.tsx:445-480 | refused exactly when product, quantity or unit price is empty or the product is unknown; otherwise the line's total is quantity times unit price, and a colour naming a selected variant gives the variant's SKU and a "name - colour" name, else the product's SKU and name |
| `Refunds.SubmitTotal` | src/pages/Refunds.tsx:391-396 | refused exactly when there are no item lines; otherwise the sum of the line totals |
| `Refunds.RefundsPage.constructor` | src/pages/Refunds.tsx:60 | the page holds the loaded refunds, no item lines and no selected variants |
| `Refunds.RefundsPage.Scan` | src/pages/Refunds.tsx:237-275 | the refund list and outcome are those of the scan; the form is untouched |
| `Refunds.RefundsPage.Import` | src/pages/Refunds.tsx:495-663 | the refunds handed to the bulk save are those of the import; the list is untouched until it is reloaded |
| `Refunds.RefundsPage.SelectProduct` | src/pages/Refunds.tsx:372-385 | the selected product's parsed variants, or none when unparsable; an unknown product changes nothing |
| `Refunds.RefundsPage.AddItem` | src/pages/Refunds.tsx:445-489 | a built line is appended, raising the items' sum by quantity times unit price, and the selected variants are cleared; a refusal changes nothing |
| `Refunds.RefundsPage.RemoveItem` | src/pages/Refunds.tsx:491-493 | line i is dropped, lowering the items' sum by its total; any other index changes nothing |
| `Returns.Ids` | src/pages/Returns.tsx:305 | the return ids, in order |
| `Returns.AddLog` | src/pages/Returns.tsx:200-217 | refused exactly for a blank note; otherwise the trimmed, non-empty note is appended with the time and the earlier entries are kept |
| `Returns.AddThenRemoveLog` | src/pages/Returns.tsx:200-221 | removing the entry just added restores the timeline |
| `Returns.ReplaceSpaceRuns` | src/pages/Returns.tsx:773 | with a replacement that is not whitespace the result has no whitespace, and a first non-space character is kept |
| `Returns.ReplaceKeepsLower` | src/pages/Returns.tsx:773 | replacing whitespace runs of lower-case text by a lower-case character leaves it lower case |
| `Returns.SlugFacts` | src/pages/Returns.tsx:773 | lower-casing and replacing whitespace runs by a non-space lower-case character gives lower-case text without whitespace, empty exactly for an empty text or, for a text starting with a non-space, never empty |
| `Returns.NoSpaceUnchanged` | src/pages/Returns.tsx:773 | text without whitespace is left as it is |
| `Returns.StatusValue` | src/pages/Returns.tsx:773 | the derived value has no whitespace, is lower case, and is empty exactly for a blank label |
| `Returns.TrimStartFirst` | src/pages/Returns.tsx:773 | a non-blank trimmed label starts with a non-space character |
| `Returns.StatusValueStable` | src/pages/Returns.tsx:773 | a derived value used as a label derives itself |
| `Returns.NoSpaceTrimmed` | src/pages/Returns.tsx:773 | text without whitespace is its own trim |
| `Returns.SettingsStatusValue` | src/pages/Returns.tsx:1309 | as intended: the derived value has no whitespace and is empty exactly for a blank label |
| `Returns.DropLeading` | src/pages/Returns.tsx:1309 | a suffix of the text not starting with the dropped character |
| `Returns.NoBackslashUnchanged` | src/pages/Returns.tsx:1309 | text without a backslash passes the written pattern unchanged |
| `Returns.SettingsValueKeepsSpaces` | src/pages/Returns.tsx:1309 | as written, a label without a backslash derives its trimmed lower-cased self, inner spaces kept |
| `Returns.OnHoldKeepsSpace` | src/pages/Returns.tsx:1309 | as written, "On hold" derives "on hold", with a space |
| `Returns.SettingsStatusValueAsWritten` | src/pages/Returns.tsx:1309 | as written, the derived value is empty exactly for a blank label |
| `Returns.Values` | src/pages/Returns.tsx:774 | the status values, in order |
| `Returns.AddStatus` | src/pages/Returns.tsx:771-787 | a blank label is refused, a value already listed is refused, and neither changes the list; otherwise the value is new and the option with the trimmed label is appended after the kept options |
| `Returns.AddStatusKeepsDistinct` | src/pages/Returns.tsx:771-787 | a blank label changes nothing; a value already listed is refused; otherwise the option is appended with the trimmed label; values stay distinct and the value is then listed |
| `Returns.AddPacker` | src/pages/Returns.tsx:657-664 | the trimmed name is appended exactly when it is not blank and not yet listed; otherwise nothing changes |
| `Returns.RemovePacker` | src/pages/Returns.tsx:709 | exactly the other names are kept |
| `Returns.AddPackerKeepsDistinct` | src/pages/Returns.tsx:657-664 | the packer list stays free of blanks and repeats |
| `Returns.AppendFresh` | src/pages/Returns.tsx:658 | appending a new non-blank name keeps the list free of blanks and repeats |
| `Returns.ChangeStatus` | src/pages/Returns.tsx:745-756 | refused exactly when completing a return without a packer; otherwise returns with that id take the new status and nothing else changes |
| `Returns.CompletedHasPacker` | src/pages/Returns.tsx:745-756 | a return completed through the dropdown has a packer, and every other return is unchanged |
| `Returns.ActiveHistoryPartition` | src/pages/Returns.tsx:898-899 | every return is on exactly one of the two tabs |
| `Returns.CreateKeepsIdsUnique` | src/pages/Returns.tsx:302-322 | the created return goes first with an id above every other, and ids stay unique |
| `Returns.CreateReturn` | src/pages/Returns.tsx:302-322 | the created return holds the form's fields, goes first with an id above every other (1 for the first), and the old returns follow unchanged |
| `Returns.EditReturn` | src/pages/Returns.tsx:285-300 | returns with the edited id take the form's fields, keeping the id; the rest are unchanged |
| `Returns.ImportedStatus` | src/pages/Returns.tsx:426 | an imported status is completed or pending |
| `Returns.ImportIsRowsWithProduct` | src/pages/Returns.tsx:400-441 | one return per row with a product name, in row order, numbered up from the next id and placed before the old returns; the list is kept when no row has one |
| `Returns.ImportReturns` | src/pages/Returns.tsx:400-441 | nothing is found exactly when no row has a product name, and the list is then kept; otherwise the imported returns, no more than the rows, go before the old ones |
| `Returns.ImportedCompletedIff` | src/pages/Returns.tsx:426 | completed exactly when the sheet status mentions completion or a rejected refund |
| `Returns.ReturnsPage.constructor` | src/pages/Returns.tsx:48 | the page holds the loaded returns, packers and statuses and an empty timeline |
| `Returns.ReturnsPage.AddNote` | src/pages/Returns.tsx:200-217 | added exactly for a non-blank note; the timeline is as `AddLog` says |
| `Returns.ReturnsPage.RemoveNote` | src/pages/Returns.tsx:219-221 | the entry at that index is removed |
| `Returns.ReturnsPage.Create` | src/pages/Returns.tsx:302-325 | the list is the created list and the timeline is cleared |
| `Returns.ReturnsPage.AddPackerName` | src/pages/Returns.tsx:657-664 | the packer list as `AddPacker` says |
| `Returns.ReturnsPage.RemovePackerName` | src/pages/Returns.tsx:709 | the packer list as `RemovePacker` says |
| `Returns.ReturnsPage.SetStatus` | src/pages/Returns.tsx:745-756 | the list as `ChangeStatus` says, unchanged when refused |
| `Returns.ReturnsPage.AddStatusFromDropdown` | src/pages/Returns.tsx:771-787 | a blue option with the '_' value |
| `Returns.ReturnsPage.AddStatusFromSettings` | src/pages/Returns.tsx:1307-1325 | an option with the corrected '-' value and the drawn colour |
| `Returns.ReturnsPage.Import` | src/pages/Returns.tsx:386-441 | the list and outcome are those of the import |
| `Purchase.NewItem` | src/pages/Purchase.tsx:365-404 | refused exactly when product or quantity is empty; otherwise the line's total is quantity times unit price (an empty price is 0), the unit defaults to "Cái", a chosen colour is appended to the name and the variant of that colour gives the variant SKU; an unknown product gives an empty name and SKU |
| `Purchase.ColorOptions` | src/pages/Purchase.tsx:1080-1088 | exactly the variants whose colour has no line for the chosen product yet |
| `Purchase.AddedColorNotOffered` | src/pages/Purchase.tsx:1080-1088 | after a line is added, its colour is no longer offered for its product and every other option stays |
| `Purchase.AddOfferedKeepsDistinct` | src/pages/Purchase.tsx:1080-1088 | adding a line in an offered colour keeps product and colour distinct across lines |
| `Purchase.Submit` | src/pages/Purchase.tsx:311-326 | refused exactly for an empty list; otherwise the lines, their total, and the original creator when editing or the current user when creating |
| `Purchase.AddedLineTotal` | src/pages/Purchase.tsx:317-326 | a list with an added line submits, and its total rises by exactly quantity times price |
| `Purchase.PurchaseForm.constructor` | src/pages/Purchase.tsx:78-79 | no lines, no variants, no price, no unit |
| `Purchase.PurchaseForm.SelectProduct` | src/pages/Purchase.tsx:464-498 | a known product sets its unit (default "Cái"); a product with variant text gets its parsed variants (none when unparsable); one without gets no variants and its cost as price; an unknown product clears the variants |
| `Purchase.PurchaseForm.SelectColor` | src/pages/Purchase.tsx:500-505 | the variant of that colour sets the price to its cost unless the cost is 0 |
| `Purchase.PurchaseForm.AddItem` | src/pages/Purchase.tsx:365-412 | a built line is appended, raising the sum by quantity times price, and the variants and price are cleared; a refusal changes nothing |
| `Purchase.PurchaseForm.RemoveItem` | src/pages/Purchase.tsx:507-509 | line i is dropped, lowering the sum by exactly its total |
| `ComboProducts.VariantCount` | src/pages/ComboProducts.tsx:146-149 | the parsed variant list's length, or 0 when absent or unparsable |
| `ComboProducts.ProductOf` | src/pages/ComboProducts.tsx:142 | a product with the asked id |
| `ComboProducts.Shape` | src/pages/ComboProducts.tsx:150-154 | one entry per group |
| `ComboProducts.GroupsOf` | src/pages/ComboProducts.tsx:136-155 | the grouping fails exactly when some combo's item text does not parse |
| `ComboProducts.ProductIds` | src/pages/ComboProducts.tsx:154 | the groups' product ids, in order |
| `ComboProducts.GroupOrder` | src/pages/ComboProducts.tsx:136-155 | one group per distinct first-item product id, in order of first occurrence |
| `ComboProducts.GroupContents` | src/pages/ComboProducts.tsx:142-152 | each group holds the first product with its id, that product's variant count, and exactly the listed combos with that key, in input order |
| `ComboProducts.GroupedIffListed` | src/pages/ComboProducts.tsx:138-152 | a combo is in some group exactly when it has items and its first item's product is known |
| `ComboProducts.GroupCombos` | src/pages/ComboProducts.tsx:136-155 | the `forEach` builds exactly the grouping |
| `ComboProducts.Toggle` | src/pages/ComboProducts.tsx:157-165 | the clicked id flips membership; every other id is unchanged |
| `ComboProducts.ToggleTwice` | src/pages/ComboProducts.tsx:157-165 | clicking the same row twice restores the set |
| `ComboProducts.Search` | src/pages/ComboProducts.tsx:167-175 | an empty search keeps every group; otherwise exactly the groups whose product's or some combo's SKU or name contains the lower-cased text |
| `ComboProducts.LongerQueryNarrows` | src/pages/ComboProducts.tsx:167-175 | extending the query keeps a subset |
| `ComboProducts.ComboProductsPage.constructor` | src/pages/ComboProducts.tsx:50 | the row of product 1 starts expanded |
| `ComboProducts.ComboProductsPage.ToggleRow` | src/pages/ComboProducts.tsx:157-165 | the expanded set as `Toggle` says |
| `Auth.Ids` | src/contexts/AuthContext.tsx:53 | the account ids, in order |
| `Auth.EnsureAdmin` | src/contexts/AuthContext.tsx:24-65 | the default admin alone when nothing usable is stored; the list unchanged when it has an active admin; otherwise the default admin appended under the next id |
| `Auth.EnsureAdminKeeps` | src/contexts/AuthContext.tsx:24-65 | after start-up an active admin exists, and unique ids stay unique |
| `Auth.FirstActive` | src/contexts/AuthContext.tsx:89-92 | the first active account with the username, or -1 |
| `Auth.Login` | src/contexts/AuthContext.tsx:79-113 | succeeds exactly when something is stored, an active account has the username, and the first such has that password |
| `Auth.LoginFindsAccount` | src/contexts/AuthContext.tsx:79-113 | a signed-in user is the password-less copy of the first active account with that username and password |
| `Auth.InactiveNeverLogsIn` | src/contexts/AuthContext.tsx:89-92 | an account that is not active never signs in |
| `Auth.DefaultAdminLogsIn` | src/contexts/AuthContext.tsx:25-43 | after start-up on an empty store, admin/admin signs in as the admin with id 1 |
| `Auth.AuthContext.constructor` | src/contexts/AuthContext.tsx:67-76 | the stored list as loaded and the restored session user |
| `Auth.AuthContext.EnsureAdminExists` | src/contexts/AuthContext.tsx:24-65 | the stored list as `EnsureAdmin` says, with an active admin; the session user is untouched |
| `Auth.AuthContext.IsAuthenticated` | src/contexts/AuthContext.tsx:125 | true exactly when a user is signed in |
| `Auth.AuthContext.SignIn` | src/contexts/AuthContext.tsx:79-113 | signs in exactly when `Login` succeeds; the store is untouched |
| `Auth.AuthContext.SignOut` | src/contexts/AuthContext.tsx:117-120 | no user is signed in |
| `UserAdmin.OtherActiveAdmin` | src/pages/Permissions.tsx:147-150 | with unique ids and two or more active admins, an active admin other than the target exists |
| `UserAdmin.ActiveAdminIn` | src/pages/Permissions.tsx:147 | a list holding an active admin has one |
| `UserAdmin.WithoutId` | src/pages/Permissions.tsx:140 | exactly the accounts with another id |
| `UserAdmin.DeleteAsWritten` | src/pages/Permissions.tsx:127-145 | as written: refused exactly for an admin while there is one admin, active or not; otherwise the accounts with another id |
| `UserAdmin.DeleteAsWrittenDropsLastActiveAdmin` | src/pages/Permissions.tsx:128 | with one active and one inactive admin, the written guard lets the active one be deleted, leaving no active admin |
| `UserAdmin.DeleteUser` | src/pages/Permissions.tsx:127-145 | corrected: refused exactly for the last active admin; otherwise the accounts with another id |
| `UserAdmin.DeleteKeepsActiveAdmin` | src/pages/Permissions.tsx:127-145 | a permitted delete never removes the last active admin |
| `UserAdmin.DeleteKeepsUniqueIds` | src/pages/Permissions.tsx:140 | deleting keeps ids unique |
| `UserAdmin.FilterUniqueIds` | src/pages/Permissions.tsx:140 | filtering keeps ids unique |
| `UserAdmin.FlipActive` | src/pages/Permissions.tsx:152-154 | accounts with that id have their active flag flipped and nothing else; the rest are unchanged |
| `UserAdmin.ToggleAsWritten` | src/pages/Permissions.tsx:146-158 | as written: refused exactly for any admin while exactly one admin is active |
| `UserAdmin.ToggleAsWrittenBlocksReactivation` | src/pages/Permissions.tsx:147 | with one active and one inactive admin, the written guard refuses to switch the inactive admin back on |
| `UserAdmin.ToggleActive` | src/pages/Permissions.tsx:146-158 | corrected: refused exactly for the last active admin; otherwise the flag is flipped |
| `UserAdmin.ActivatingIsAllowed` | src/pages/Permissions.tsx:146-158 | switching an inactive account on is never refused |
| `UserAdmin.ToggleKeepsActiveAdmin` | src/pages/Permissions.tsx:146-158 | a permitted toggle never leaves the list without an active admin |
| `UserAdmin.NewUser` | src/pages/Permissions.tsx:175-184 | an id above every existing id, active, the role's label as full name, no email, the given name, role and password |
| `UserAdmin.CreateKeeps` | src/pages/Permissions.tsx:175-185 | creating keeps ids unique and keeps an active admin |
| `UserAdmin.RoleLabel` | src/pages/Permissions.tsx:33-54 | a non-empty label, "Quản trị viên" exactly for admin |
| `UserAdmin.EditUser` | src/pages/Permissions.tsx:164-171 | accounts with that id take the new username and role and keep every other field; the rest are unchanged |
| `UserAdmin.SetPassword` | src/pages/Permissions.tsx:208-212 | accounts with that id take the new password and nothing else changes |
| `UserAdmin.SetPasswordKeepsFirstActive` | src/pages/Permissions.tsx:208-212 | a password change does not change which account a username signs in as |
| `UserAdmin.PasswordChangeTakesEffect` | src/pages/Permissions.tsx:204-215 | after a change, the account signs in with the new password when it is the first active account with its username |
| `UserAdmin.UsersPage.constructor` | src/pages/Permissions.tsx:58 | the page holds the loaded accounts |
| `UserAdmin.UsersPage.Delete` | src/pages/Permissions.tsx:127-145 | the list as `DeleteUser` says, unchanged when refused |
| `UserAdmin.UsersPage.Toggle` | src/pages/Permissions.tsx:146-158 | the list as `ToggleActive` says, unchanged when refused |
| `UserAdmin.UsersPage.Create` | src/pages/Permissions.tsx:175-185 | the new account is appended |
| `UserAdmin.UsersPage.Edit` | src/pages/Permissions.tsx:164-171 | the list as `EditUser` says |
| `UserAdmin.UsersPage.ChangePassword` | src/pages/Permissions.tsx:204-215 | the list as `SetPassword` says |
| `SystemLogs.ApplyFilters` | src/pages/SystemLogs.tsx:78-111 | exactly the logs every active filter accepts; with the filters `handleReset` leaves, every log |
| `SystemLogs.ByModule` | src/pages/SystemLogs.tsx:82-84 | when a module is chosen, the step accepts exactly the logs the module filter accepts |
| `SystemLogs.ByAction` | src/pages/SystemLogs.tsx:87-89 | when an action is chosen, the step accepts exactly the logs the action filter accepts |
| `SystemLogs.BySearch` | src/pages/SystemLogs.tsx:92-99 | when a search text is given, the step accepts exactly the logs whose description, user name or record name contains it, ignoring case |
| `SystemLogs.ByRange` | src/pages/SystemLogs.tsx:102-108 | when a range is chosen, the step accepts exactly the logs strictly inside it |
| `SystemLogs.Stage` | src/pages/SystemLogs.tsx:82-108 | one filter step of the chain is filtering once by the accepted-so-far test |
| `SystemLogs.ApplyFiltersInOrder` | src/pages/SystemLogs.tsx:78-111 | the chain keeps the accepted logs in their loaded order |
| `SystemLogs.LexIrreflexive` | src/pages/SystemLogs.tsx:129 | no date key sorts before itself |
| `SystemLogs.LexTransitive` | src/pages/SystemLogs.tsx:129 | the date-key order is transitive |
| `SystemLogs.LexTotal` | src/pages/SystemLogs.tsx:129 | two different date keys are ordered one way or the other |
| `SystemLogs.Insert` | src/pages/SystemLogs.tsx:129 | inserting adds exactly that group |
| `SystemLogs.SortDesc` | src/pages/SystemLogs.tsx:128-130 | the sorted groups are a permutation of the groups |
| `SystemLogs.ConsDescending` | src/pages/SystemLogs.tsx:129 | a group later than every group of a descending list can go in front |
| `SystemLogs.HeadAbove` | src/pages/SystemLogs.tsx:129 | the first group of a descending list is later than all the others |
| `SystemLogs.InsertDescending` | src/pages/SystemLogs.tsx:129 | inserting a group with a new key keeps the list descending |
| `SystemLogs.SortDescending` | src/pages/SystemLogs.tsx:128-130 | groups with distinct keys come out strictly latest first |
| `SystemLogs.InsertFlatten` | src/pages/SystemLogs.tsx:129 | inserting a group adds exactly its rows |
| `SystemLogs.SortFlatten` | src/pages/SystemLogs.tsx:128-130 | sorting moves rows only with their group |
| `SystemLogs.ModuleTree` | src/pages/SystemLogs.tsx:131-167 | one date node per date group |
| `SystemLogs.ModuleTreeLogs` | src/pages/SystemLogs.tsx:131-167 | grouping by module inside each day keeps exactly the day's logs |
| `SystemLogs.TreeHoldsEachLogOnce` | src/pages/SystemLogs.tsx:114-170 | every filtered log appears in the tree exactly as often as among the filtered logs |
| `SystemLogs.Tree` | src/pages/SystemLogs.tsx:114-170 | the tree holds every filtered log exactly as often as the filtered logs do, and its date nodes come strictly latest first |
| `SystemLogs.DateKeysDistinct` | src/pages/SystemLogs.tsx:119-126 | the date map has one entry per day |
| `SystemLogs.DateKeys` | src/pages/SystemLogs.tsx:146 | the days of the date nodes, in order |
| `SystemLogs.TreeDatesDescending` | src/pages/SystemLogs.tsx:114-170 | the date nodes come strictly latest first, so no day has two nodes |
| `SystemLogs.KeysOfPermutation` | src/pages/SystemLogs.tsx:128-130 | reordering the groups keeps their keys |
| `SystemLogs.TreeDatesAreDays` | src/pages/SystemLogs.tsx:114-170 | the days of the date nodes are exactly the days of the filtered logs |
| `SystemLogs.SortedDayRows` | src/pages/SystemLogs.tsx:119-130 | each sorted date group holds exactly its day's logs, in filtered order |
| `SystemLogs.DateGroupContents` | src/pages/SystemLogs.tsx:131-140 | each date node holds its day's logs grouped by module, modules in order of first appearance |
| `SystemLogs.TreePlacement` | src/pages/SystemLogs.tsx:114-170 | a log under date node i and module node m is a filtered log of that day and module |
| `SystemLogs.ModuleNodes` | src/pages/SystemLogs.tsx:130-168 | the second loop builds exactly the module nodes |
| `SystemLogs.GroupedLogs` | src/pages/SystemLogs.tsx:114-170 | `getGroupedLogs` builds exactly the tree |
| `SystemLogs.StatsSnoc` | src/pages/SystemLogs.tsx:454-459 | one more log adds one to the total and one to the count of its own action only |
| `SystemLogs.StatsBound` | src/pages/SystemLogs.tsx:454-459 | the three action counts never exceed the total |
| `SystemLogs.StatsCountAction` | src/pages/SystemLogs.tsx:456 | the created count is positive when a CREATE log is shown, and zero only when none is |
| `DailyTasks.MapTasks` | src/pages/DailyTasks.tsx:498-500 | one task per task, each the mapped one |
| `DailyTasks.MapCount` | src/pages/DailyTasks.tsx:498-500 | after a map, a filter counts what the corresponding test counts before it |
| `DailyTasks.ReassignCounts` | src/pages/DailyTasks.tsx:498-500 | moving a category's tasks empties it, adds its count to the target and leaves every other column's count |
| `DailyTasks.RemoveCategory` | src/pages/DailyTasks.tsx:496 | exactly the columns with another key |
| `DailyTasks.OtherNotBuiltIn` | src/pages/DailyTasks.tsx:221-227 | 'Khác' is not one of the starting columns |
| `DailyTasks.DeleteCategoryAsWritten` | src/pages/DailyTasks.tsx:496-500 | as written: exactly the columns with another key remain, so none has the deleted key, and the deleted column's tasks move to 'Khác' while every other task stays |
| `DailyTasks.DeleteWithoutOtherHides` | src/pages/DailyTasks.tsx:496-500 | as written, on a board without a 'Khác' column, deleting a column that holds a task leaves that task in no column |
| `DailyTasks.DeleteAsWrittenHidesTasks` | src/pages/DailyTasks.tsx:496-500 | on the starting board, deleting a column with a task moves that task into 'Khác', which no column shows |
| `DailyTasks.DeleteCategory` | src/pages/DailyTasks.tsx:488-504 | corrected: the board then has a 'Khác' column |
| `DailyTasks.DeleteKeepsTasksShown` | src/pages/DailyTasks.tsx:488-504 | every task stays in some column; the deleted column's tasks all move to 'Khác' and other counts stay |
| `DailyTasks.RenameMovesTasks` | src/pages/DailyTasks.tsx:592-606 | renaming moves exactly the column's tasks to the new key and keeps every task on the board; the same key leaves the tasks |
| `DailyTasks.AddCategoryKeepsTasks` | src/pages/DailyTasks.tsx:608-612 | adding a column appends it and keeps the tasks, all on the board |
| `DailyTasks.SaveCategory` | src/pages/DailyTasks.tsx:592-612 | a new column is appended and the tasks kept; an edit replaces every column with the edited key by the form's values and moves that column's tasks to the form's key, leaving the other tasks |
| `DailyTasks.TaskIndex` | src/pages/DailyTasks.tsx:329-330 | the first task with that id, or -1 when none has it |
| `DailyTasks.Complete` | src/pages/DailyTasks.tsx:398-402 | the tasks with that id become completed with the chosen verifier; every other task is unchanged |
| `DailyTasks.Reopen` | src/pages/DailyTasks.tsx:451-455 | the tasks with that id become pending, keeping their verifier; every other task is unchanged |
| `DailyTasks.ReopenUndoesComplete` | src/pages/DailyTasks.tsx:398-455 | completing then un-completing a pending task whose verifier is the chosen one restores the tasks |
| `DailyTasks.CompleteTouchesOnlyThatTask` | src/pages/DailyTasks.tsx:398-402 | only tasks with that id change, and only in status and verifier |
| `DailyTasks.Column` | src/pages/DailyTasks.tsx:884-886 | a column's completed count never exceeds its total |
| `DailyTasks.ColumnCounts` | src/pages/DailyTasks.tsx:884-886 | the counts are the column's completed tasks and all its tasks |
| `DailyTasks.CompleteKeepsTotals` | src/pages/DailyTasks.tsx:398-402 | completing keeps every column's total |
| `DailyTasks.CompleteRaisesDone` | src/pages/DailyTasks.tsx:398-402 | completing never lowers a column's completed count |
| `DailyTasks.Entry` | src/pages/DailyTasks.tsx:307-326 | the history line names the task, the action and the time, and its text says which way the status went |
| `DailyTasks.AddAssignee` | src/pages/DailyTasks.tsx:1354-1361 | a non-blank trimmed name is then listed; the list is unchanged or gains exactly that name |
| `DailyTasks.AddAssigneeKeeps` | src/pages/DailyTasks.tsx:1354-1361 | no duplicates and no empty name, and adding the same name twice is adding it once |
| `DailyTasks.TrimAll` | src/pages/DailyTasks.tsx:567 | each piece trimmed |
| `DailyTasks.ParseTags` | src/pages/DailyTasks.tsx:567 | no tags for an empty field; otherwise no more tags than comma-separated pieces, each a non-empty trimmed piece |
| `DailyTasks.TrimIsInfix` | src/pages/DailyTasks.tsx:567 | trimming only removes characters |
| `DailyTasks.ParsedTagsClean` | src/pages/DailyTasks.tsx:567 | every parsed tag is non-empty, trimmed and free of commas |
| `DailyTasks.Spaced` | src/pages/DailyTasks.tsx:524 | the pieces of the joined text: the first tag, then each later tag after a space |
| `DailyTasks.JoinSpaced` | src/pages/DailyTasks.tsx:524 | joining with ", " is joining the spaced pieces with "," |
| `DailyTasks.TrimLeadingSpace` | src/pages/DailyTasks.tsx:567 | a leading space does not survive trimming |
| `DailyTasks.TagsRoundTrip` | src/pages/DailyTasks.tsx:524-567 | editing a task and saving it again keeps its clean tags |
| `DailyTasks.CalendarDays` | src/pages/DailyTasks.tsx:1504-1520 | every day from the first to the last, each once and in order |
| `DailyTasks.TasksPage.constructor` | src/pages/DailyTasks.tsx:243-244 | the loaded tasks, the starting columns, and the stored history and assignees |
| `DailyTasks.TasksPage.AddToHistory` | src/pages/DailyTasks.tsx:307-326 | the new line goes first and nothing else changes |
| `DailyTasks.TasksPage.ToggleComplete` | src/pages/DailyTasks.tsx:328-478 | a pending task is refused without a verifier; otherwise the status flips (completing records the verifier) and a history line goes first; an unknown id changes nothing |
| `DailyTasks.TasksPage.DeleteCategoryColumn` | src/pages/DailyTasks.tsx:488-504 | the board as the corrected delete says; tasks on the board stay on it |
| `DailyTasks.TasksPage.SaveCategoryForm` | src/pages/DailyTasks.tsx:592-620 | the board as `SaveCategory` says |
| `DailyTasks.TasksPage.AddAssigneeName` | src/pages/DailyTasks.tsx:1354-1361 | the list as `AddAssignee` says |
| `Numbering.Build` | src/pages/EcommerceExport.tsx:811-858 | every order is either made into a record or counted as skipped |
| `Numbering.Selected` | src/pages/EcommerceExport.tsx:815-837 | the qualifying orders are no more than the orders |
| `Numbering.SelectedIff` | src/pages/EcommerceExport.tsx:815-837 | an order is selected exactly when it is one of the orders and qualifies |
| `Numbering.SelectedEmptyIff` | src/pages/EcommerceExport.tsx:815-837 | no order is selected exactly when none qualifies |
| `Numbering.BuildIsSelected` | src/pages/EcommerceExport.tsx:811-858 | one record per qualifying order, in order, with ids counting up from the start; the rest are counted as skipped |
| `Numbering.BuildAllSelected` | src/pages/Refunds.tsx:621-650 | when every order qualifies, each gets a record and none is skipped |
| `Numbering.BuildRecords` | src/pages/EcommerceExport.tsx:811-858 | the `forEach` with its id and skip counters builds exactly that |
| `OrderSheet.DetectSource` | src/pages/EcommerceExport.tsx:692-702 | unrecognised exactly when neither column set is present; TikTok exactly when a TikTok column is present |
| `OrderSheet.ItemOf` | src/pages/EcommerceExport.tsx:734-742 | the item keeps the row's SKU, quantity and amount; a variation is appended to the name and becomes the colour |
| `OrderSheet.ItemsOf` | src/pages/EcommerceExport.tsx:839 | one item per row, in row order |
| `OrderSheet.ItemsTotalsMatchRows` | src/pages/EcommerceExport.tsx:839-841 | the items' totals and quantities sum to the rows' amounts and quantities |
| `TrackingNotes.FirstMatchFrom` | src/pages/EcommerceExport.tsx:337 | the leftmost position at or after the start where the pattern matches, or -1 when none does |
| `TrackingNotes.PipeEnd` | src/pages/EcommerceExport.tsx:337 | the greedy group stops at the first '\|' or the end of the text |
| `TrackingNotes.TrackingOf` | src/pages/EcommerceExport.tsx:337-338 | no match gives "" |
| `TrackingNotes.NotesShaped` | src/pages/EcommerceExport.tsx:852 | the written notes have the provider and tracking id at their fixed places |
| `TrackingNotes.NoMatchInPrefix` | src/pages/EcommerceExport.tsx:337 | no match starts inside the "Shipping: " prefix |
| `TrackingNotes.NoMatchInProvider` | src/pages/EcommerceExport.tsx:337 | no match starts inside a provider name that lacks the label |
| `TrackingNotes.NoMatchAroundPipe` | src/pages/EcommerceExport.tsx:337 | no match starts in the separator before the label |
| `TrackingNotes.WrittenLabelMatches` | src/pages/EcommerceExport.tsx:337 | the written label matches |
| `TrackingNotes.FirstMatchIsWritten` | src/pages/EcommerceExport.tsx:337 | the written label is the leftmost match |
| `TrackingNotes.PipeEndIs` | src/pages/EcommerceExport.tsx:337 | a run free of '\|' that ends at '\|' is exactly what the group takes |
| `TrackingNotes.CaptureIsWritten` | src/pages/EcommerceExport.tsx:337 | the group takes the tracking id and the space before the written '\|' |
| `TrackingNotes.TrackingRoundTrip` | src/pages/EcommerceExport.tsx:337-338 | reading back notes written as the import writes them gives the trimmed tracking id |
| `Lists.NextId` | src/pages/EcommerceExport.tsx:811 | the new id is above every existing id, and 1 for an empty list |
| `Grouping.GroupKeysAreDistinctKeys` | src/pages/EcommerceExport.tsx:745-749 | the map's keys are the distinct row keys in order of first occurrence |
| `Grouping.GroupRowsAreRowsWithKey` | src/pages/EcommerceExport.tsx:745-749 | each map entry holds exactly the rows with its key, in row order |
| `Grouping.GroupsNonEmpty` | src/pages/EcommerceExport.tsx:745-749 | every map entry has at least one row |
| `Grouping.GroupByFlatten` | src/pages/EcommerceExport.tsx:745-749 | every row lands in exactly one entry |
| `Grouping.GroupRows` | src/pages/EcommerceExport.tsx:745-749 | the `has`/`set`/`push` loop builds exactly the grouping |
| `Grouping.GroupBy` | src/pages/EcommerceExport.tsx:745-749 | no two map entries share a key, and no entry is empty |
| `Catalog.ProductIndexById` | src/pages/Purchase.tsx:376 | the first product with that id, or -1 when none has it |
| `Catalog.VariantIndexByColor` | src/pages/Purchase.tsx:384 | the first variant with that colour, or -1 when none has it |
| `Catalog.VariantIndexBySku` | electron/ipc-handlers.js:823 | the first variant with that SKU, or -1 when none has it |
| `Text.TrimStart` | src/pages/Returns.tsx:201 | a suffix, all whitespace removed before it, not starting with whitespace |
| `Text.TrimEnd` | src/pages/Returns.tsx:201 | a prefix, all whitespace removed after it, not ending with whitespace |
| `Text.TrimEmptyIff` | src/pages/Returns.tsx:201 | the trimmed text is empty exactly when the text is all whitespace |
| `Text.TrimIsInner` | src/pages/Returns.tsx:201 | the trimmed text is the part of the text between a leading and a trailing whitespace run, and starts and ends with non-whitespace |
| `Text.Split` | src/pages/DailyTasks.tsx:567 | at least one piece, and no piece holds the separator |
| `Text.TrimIdempotent` | src/pages/Returns.tsx:211 | trimming twice is trimming once |

## Left out

- Rendering, dialogs, toasts, sounds, focus handling, and the typing and auto-add timers: screen behaviour with no rule behind it. A confirm dialog is modelled as the OK path; the cancel path changes nothing.
- Storage and the IPC layer: Prisma, `localStorage`, `sessionStorage`, `ipcMain`/`ipcRenderer`. Each store is a sequence or a class field. The reload a page does after a save is the saved list itself.
- Products.ProductsPage.LoadProducts: a failed `combos:getAll` call is not modelled, so the loaded products always have their old attachments cleared; the page clears and attaches only when that call succeeds (src/pages/Products.tsx:104).
- File, spreadsheet and network I/O: the patcher's reads, writes and prints; XLSX reading and writing, so a sheet arrives as already-read rows with its cells resolved; backup, restore and zip; update download; Telegram messages; activity logging.
- JSON text: `JSON.parse`/`JSON.stringify` become parsed values with an explicit "does not parse" case. Restoring a session user from its JSON text is a parameter of `Auth.AuthContext.constructor`.
- Clocks and dates: `Date.now()`, `new Date()` and dayjs. The `AUTO-` complaint code of an imported return without one, scan times, creation times, "today", day formatting, the overdue tests and the calendar's week bounds are parameters, and a day is an integer in the calendar.
- Pages and files with no rule of their own: the fee calculator, the dashboard's percentages, the menu, the login screen, the history and settings pages, the browser test page, the pickup page's screen, the permission hooks and guard, the type declarations, the database scripts and the build configuration.
- The GitHub release cache and the update installer script; the version check's rules are modelled in `Versions`.
- `handleImportFolder` of the marketplace page: it reads every sheet of a folder and then applies the same grouping and record building as the single-file import modelled by `Ecommerce.EcommercePage.Import`.
- Randomness: the colour a new return status gets in the settings dialog is a parameter.
- Floating point: money and quantities are integers; unit prices derived by division in the imports and `toFixed` formatting are left out.
- `parseInt`/`parseFloat` on sheet cells: cells arrive as integers, so the NaN cases are not modelled.
- Case mapping is ASCII-only (`Text.Lower`, `Text.Upper`). The diacritic removal of the combo wizard's name and SKU is a function parameter.
- `localeCompare` on date keys is character-code order, which agrees with it on the fixed-width `YYYY-MM-DD` keys the log viewer compares.
- `Array.prototype.sort` in the log viewer is the insertion-sort function `SystemLogs.SortDesc`; the sort's exact algorithm is not modelled, only its result on distinct keys.
- Concurrency: the async handlers run to completion one at a time, and the fire-and-forget block in the marketplace scan is folded into the scan.
- The stock deductions of a marketplace scan are returned as requests, not applied, because the page awaits the IPC stock handler, which is modelled in `Inventory`.
- `products:updateStock` when Prisma is unavailable (the mock path), with its unclamped arithmetic: a development stand-in that the app never uses with a database.
- The Prisma `contains` prefilter before the exact SKU match in the stock handler: only the exact match decides which product is updated.
- A combo item quantity of 0: the handler would divide by zero (JavaScript `Infinity`/`NaN`); the model requires positive item quantities for the combo stock rule.
- Display text: module labels in the log viewer, date captions, status labels and colours other than the values a rule compares.
- `Purchase.PurchaseForm.SelectProduct`: the product's unit cell is a parameter, because the product record type has no unit field.
- `ComboProducts.ComboProductsPage`: the display `Shape` holds the first product with the key; a product that vanishes between loads is not modelled.
- `DailyTasks.TasksPage.ToggleComplete`: the verifier chosen in the confirmation dialog is a parameter (it starts as the task's own verifier).
- Versions.ComponentValue: only plain digit runs; JavaScript's `Number` also reads whitespace-padded, signed, hex and exponent forms, which the model reads as 0.
- Object aliasing: where a page edits a row object that two lists share (the product list and the variant editor), the model updates one list of values, so an edit shows in that list only.
- Refunds.RefundsPage.Import: the returned batch is what the bulk save receives; the database then assigns its own ids, which the model does not follow.
- Ecommerce.ImportedTrackingReadsBack: holds only when the tracking id has no '|' and the provider name does not contain "Tracking: "; other notes may read back a different id.
- ComboWizard.QuantitiesOf: an item stored without `variantIndex` is written with a negative index and skipped; a stored negative index, which JavaScript would keep as a key of the record, is not told apart from a missing one.
- ComboWizard.Wizard: typing into the SKU, name and price fields is a plain field update and is not a method; `Save` takes the typed values as parameters.
- MockCategories.Store.Create: the store runs the corrected id rule `CreateWithNextId` (one more than the largest id), not the handler's `length + 1`, which repeats an id after a delete; the rule as written is `MockCategories.CreateAsWritten` (see Findings).
- Returns.ReturnsPage.AddStatusFromSettings: the page runs the corrected value rule `SettingsStatusValue` ('-' for each whitespace run), not the dialog's pattern, which replaces a backslash followed by 's' characters and leaves whitespace alone; the rule as written is `Returns.SettingsStatusValueAsWritten` (see Findings).
- UserAdmin.UsersPage.Delete: the page runs the corrected guard `DeleteUser` (refused only for the one active admin), not the written guard, which counts every admin, active or not; the guard as written is `UserAdmin.DeleteAsWritten` (see Findings).
- UserAdmin.UsersPage.Toggle: the page runs the corrected guard `ToggleActive` (refused only when switching off the one active admin), not the written guard, which refuses any admin while one admin is active; the guard as written is `UserAdmin.ToggleAsWritten` (see Findings).
- DailyTasks.TasksPage.DeleteCategoryColumn: the page runs the corrected delete `DeleteCategory`, which adds a 'Khác' column when the board has none, not the written delete, which moves the tasks to a 'Khác' column that may not exist; the delete as written is `DailyTasks.DeleteCategoryAsWritten` (see Findings).

## Findings

| source | as written | input that shows it | evidently intended | confidence | as-written member | corrected member |
|---|---|---|---|---|---|---|
| src/pages/Returns.tsx:1309 | the settings dialog's status value uses the pattern `/\\s+/`, a backslash followed by one or more `s`, so whitespace is not replaced | the label "On hold" gives the value "on hold" | replace whitespace runs by '-', giving "on-hold" | high (not executed) | `Returns.OnHoldKeepsSpace` | `Returns.SettingsStatusValue` |
| src/pages/Permissions.tsx:128 | the delete guard counts all admins, active or not | admins 1 (active) and 2 (inactive): deleting admin 1 is allowed and leaves no active admin | refuse to delete the last active admin | high (not executed) | `UserAdmin.DeleteAsWrittenDropsLastActiveAdmin` | `UserAdmin.DeleteKeepsActiveAdmin` |
| src/pages/Permissions.tsx:147 | the toggle guard refuses any admin while exactly one admin is active, whatever the target's own flag | admins 1 (active) and 2 (inactive): switching admin 2 back on is refused | refuse only to switch off the last active admin | high (not executed) | `UserAdmin.ToggleAsWrittenBlocksReactivation` | `UserAdmin.ToggleKeepsActiveAdmin` |
| src/pages/DailyTasks.tsx:496-500 | deleting a column moves its tasks to 'Khác', which is not one of the starting columns | the starting board with a task in 'Kho hàng': deleting 'Kho hàng' leaves the task in no column | keep the moved tasks on the board by having a 'Khác' column | medium (not executed) | `DailyTasks.DeleteAsWrittenHidesTasks` | `DailyTasks.DeleteKeepsTasksShown` |
| electron/ipc-handlers.js:251 | a mock category gets id = list length + 1 | create, delete the first, create again: two categories with id 2 | ids unique across deletes (max id + 1) | high (not executed) | `MockCategories.CreateAfterDeleteDuplicatesId` | `MockCategories.CreateWithNextId` |

The model uses the corrected rules: `UserAdmin.UsersPage` uses the corrected delete and toggle guards, `DailyTasks.TasksPage` uses the corrected column delete, `MockCategories.Store` uses the corrected id rule, and `Returns.ReturnsPage.AddStatusFromSettings` uses the corrected status value.

# ShelfSpace Pro page logic in Dafny

ShelfSpace Pro is a mock warehouse dashboard. Nearly all of it is markup. This
project models the logic underneath three of its pages: the product catalogue,
the shelf browser and the shelf scanner. Each is written as pure functions over
immutable records and sequences, or as a small state machine with a `Step`
function. Dafny proves the properties listed below.

- **Products** (`products.dfy`, with `pager.dfy`). The 50-row mock catalogue:
  - zero-padded `PROD-`/`SKU-` codes;
  - a `Zone-Aisle-Slot` location derived from the row index;
  - category and status chosen by the index modulo 4 and 3.

  The rest of the page:
  - the case-insensitive search over name, SKU and category;
  - 1-based pagination, 50 rows per page, with the "Showing a-b of n" label;
  - the Previous/Next buttons;
  - the stock and status colour classifiers.
- **Inventory** (`inventory.dfy`). The five mock shelves and the per-shelf
  inventory table, plus:
  - the shelf-id search;
  - the three utilisation ladders (text colour, badge, bar);
  - the click-to-toggle selection;
  - the rule for when the details card is shown.
- **Scan** (`scan.dfy`). The `(manualEntry, scanMode, scannedShelf)` state
  machine, plus:
  - trim-and-submit;
  - the camera/barcode switches;
  - the details-card visibility rule;
  - the `'A-1-2'` fallback id.

Shared pieces:
- `text.dfy` holds the JavaScript string operations the pages use:
  `toLowerCase`, `includes`, `trim`, `padStart` and `String(n)`.
- `query.dfy` holds `Array.prototype.filter`.
- `locations.dfy` holds the shelf-label format.
- `wrappers.dfy` holds the `Option` type, which stands in for `string | null`.

Three corners of the pagination behave in ways a reader might not expect:
- **Page count when nothing matches.** The page count is
  `Math.ceil(0 / 50) = 0`, and the label reads `1-0 of 0`.
- **Out-of-range pages.** A page past the end is an empty `slice`, not an
  error (`Pager.PageOf`).
- **Page after a new search.** Typing a new search term does not reset
  `currentPage`. Next is disabled only when `currentPage === totalPages`, so
  on a page already past the end, Next moves further away
  (`Pager.NextPastEndMovesAway`). This cannot happen with the 50-row catalogue:
  it never has more than one page, so the pagination bar never appears and the
  page stays 1 (`Products.MockCatalogueStaysOnPageOne`).

## Model

| member | source | states |
|---|---|---|
| `Text.Lower` | src/pages/Products.tsx:43-45 | lower-casing keeps the length, maps each character on its own, and leaves no capital letter |
| `Text.LowerOfUpper` | src/pages/Products.tsx:43-45 | lower-casing an upper-cased term gives the same as lower-casing the term, so, for ASCII letters, the search does not care how the term was typed |
| `Text.IncludesIffOccurs` | src/pages/Products.tsx:43-45 | the left-to-right `includes` scan succeeds exactly when the term is some window `s[i..i+|t|]` of the string |
| `Text.IgnoringCaseDependsOnLower` | src/pages/Inventory.tsx:34 | two terms with the same lower-case form match the same strings |
| `Text.Trim` | src/pages/Scan.tsx:14-15 | `trim` returns a middle slice of the input with no whitespace at either end; everything it cuts is whitespace; the result is empty exactly when the input is all whitespace |
| `Text.TrimIdempotent` | src/pages/Scan.tsx:15 | trimming an already trimmed entry changes nothing |
| `Text.PadStart` | src/pages/Products.tsx:18 | `padStart` puts fill characters in front until the width is reached, and never shortens the string |
| `Text.NatToString` | src/pages/Products.tsx:18 | `String(n)` gives canonical decimal digits (no leading zero) that denote `n` |
| `Text.ZeroPadded` | src/pages/Products.tsx:29 | a zero-padded numeral still denotes its number, and has exactly `width` digits when the number fits |
| `Text.ZeroPaddedInjective` | src/pages/Products.tsx:18 | two zero-padded numerals are equal only for equal numbers |
| `Query.Filter` | src/pages/Products.tsx:42-46 | `filter` keeps exactly the elements that pass the test, and never adds any |
| `Query.FilterIsSubsequence` | src/pages/Products.tsx:42-46 | the filter result is a subsequence of the input, so the original order is kept |
| `Query.FilterIdempotent` | src/pages/Products.tsx:42-46 | filtering the result again with the same test changes nothing |
| `Query.FilterPartition` | src/pages/Inventory.tsx:33-35 | the kept and the dropped elements together are the input, counting repeats |
| `Query.FilterDistinct` | src/pages/Inventory.tsx:33-35 | filtering a list without repeats (such as unique shelf ids) gives a list without repeats |
| `Query.FilterAppend` | src/pages/Inventory.tsx:33-35 | filtering a concatenation is concatenating the filtered parts |
| `Pager.Slice` | src/pages/Products.tsx:50 | `slice` from a start at or past the end is empty; inside the list it is the block from `start` up to `end` or the end of the list |
| `Pager.TotalPages` | src/pages/Products.tsx:48 | `Math.ceil(n/50)` is the fewest 50-row pages that hold `n` rows; it is 0 exactly when `n` is 0 |
| `Pager.PageOf` | src/pages/Products.tsx:49-50 | a page `p` in `1..totalPages` is the non-empty block `filtered[(p-1)*50 .. min(p*50, n))` of at most 50 rows; a page past the end is empty, with no error |
| `Pager.PagesArePrefix` | src/pages/Products.tsx:48-50 | pages `1..k` laid end to end are the first `min(50k, n)` rows |
| `Pager.PagesReassemble` | src/pages/Products.tsx:48-50 | reading every page from first to last gives back exactly the filtered list |
| `Pager.PagesAdjacent` | src/pages/Products.tsx:49-50 | every page before the last is full and ends where the next one starts, so pages do not overlap |
| `Pager.ShowingMatchesPage` | src/pages/Products.tsx:115 | on a real page the "Showing a-b" label counts exactly the rows shown and starts at the page's first row; with no matches it reads `1-0 of 0` |
| `Pager.Press` | src/pages/Products.tsx:181-202 | a button changes the page only when the bar is shown and the button is enabled, and then by one step; from a page in `1..totalPages` it stays in that range |
| `Pager.NextPastEndMovesAway` | src/pages/Products.tsx:195-199 | Next is disabled by `===`, so on a page already past the last one it stays enabled and moves forward |
| `Locations.Label` | src/pages/Products.tsx:33 | the `Zone-Aisle-Slot` template gives a well-formed label from which zone, aisle and slot read back unchanged |
| `Locations.LabelOfParts` | src/pages/Inventory.tsx:8-14 | every well-formed label is the one built from its own zone, aisle and slot |
| `Products.ProductId` | src/pages/Products.tsx:18 | the id is `PROD-` followed by digits denoting `i+1`, 9 characters long while `i+1 < 10000` |
| `Products.Sku` | src/pages/Products.tsx:29 | the SKU is `SKU-` followed by digits denoting `i+1`, 10 characters long while `i+1 < 1000000` |
| `Products.FirstCodes` | src/pages/Products.tsx:17-29 | row 0 is `PROD-0001` / `SKU-000001` |
| `Products.LastCodes` | src/pages/Products.tsx:17-29 | row 49 is `PROD-0050` / `SKU-000050` |
| `Products.ProductIdInjective` | src/pages/Products.tsx:18 | different rows get different ids |
| `Products.SkuInjective` | src/pages/Products.tsx:29 | different rows get different SKUs |
| `Products.ShelfLocation` | src/pages/Products.tsx:33 | the location is a shelf label with zone `A`–`D` from `i%4`, aisle 1–5 from `floor(i/4)%5+1` and slot 1–3 from `i%3+1` |
| `Products.ShelfLocationPeriodic` | src/pages/Products.tsx:33 | the location pattern repeats every 60 rows |
| `Products.ShelfLocationInjective` | src/pages/Products.tsx:33 | rows less than 60 apart never share a location |
| `Products.ResiduesDetermineRow` | src/pages/Products.tsx:33 | rows less than 60 apart that agree in `i%4`, `floor(i/4)%5` and `i%3` are the same row |
| `Products.MockProduct` | src/pages/Products.tsx:17-35 | row `i` has id `ProductId(i)`, SKU `Sku(i)`, location `ShelfLocation(i)`, name `Names[i%8]`, category `Categories[i%4]`, status `Statuses[i%3]`, and the stock drawn for it |
| `Products.CategoryAndStatusIgnoreStock` | src/pages/Products.tsx:30-34 | category is `table[i%4]` and status is `table[i%3]`, whatever stock was drawn |
| `Products.MockProducts` | src/pages/Products.tsx:17-35 | the catalogue has 50 rows, row `i` being `MockProduct(i, stocks[i])`, and ids, SKUs and locations are pairwise distinct |
| `Products.StockColor` | src/pages/Products.tsx:149-152 | stock colour is destructive exactly below 50, warning exactly for 50–99, and success exactly from 100 |
| `Products.StatusColor` | src/pages/Products.tsx:52-59 | each of the three statuses gets its own badge class, and every other string gets `''` |
| `Products.MockStatusesColoured` | src/pages/Products.tsx:34 | every generated status has a non-empty badge class |
| `Products.FilterProducts` | src/pages/Products.tsx:42-46 | a product is in the result exactly when the lower-cased term occurs in its lower-cased name, SKU or category; the result keeps catalogue order |
| `Products.EmptyTermKeepsAll` | src/pages/Products.tsx:42-46 | an empty term keeps every product, in order |
| `Products.FilterProductsIdempotent` | src/pages/Products.tsx:42-46 | searching the result again with the same term changes nothing |
| `Products.FilterProductsIgnoresCase` | src/pages/Products.tsx:42-46 | terms with the same lower-case form select the same products |
| `Products.FilterProductsUpperCase` | src/pages/Products.tsx:42-46 | typing an ASCII term in capitals finds the same products |
| `Products.MockCatalogueFitsOnePage` | src/pages/Products.tsx:40-48 | any search over the 50-row catalogue needs at most one page |
| `Products.Step` | src/pages/Products.tsx:181-202 | typing replaces only the term and keeps the page number; a button press keeps the term, moves the page as `Pager.Press` does for the current page count, and keeps a valid page within the page count |
| `Products.MockCatalogueStaysOnPageOne` | src/pages/Products.tsx:181-199 | with the 50-row catalogue, whatever the user does, the page stays 1 and every match is on screen |
| `Inventory.MockShelvesConsistent` | src/pages/Inventory.tsx:8-14 | every shelf row has a `Zone-Aisle-Slot` id, `products <= capacity`, and `utilization = floor(products*100/capacity)`; ids are unique |
| `Inventory.ShelfInventory` | src/pages/Inventory.tsx:16-26 | among the object's own keys, only `A-1-1` and `A-1-2` have an inventory list, and it is non-empty |
| `Inventory.InventoryKeysAreShelves` | src/pages/Inventory.tsx:8-26 | every inventory list belongs to one of the listed shelves |
| `Inventory.FilterShelves` | src/pages/Inventory.tsx:33-35 | a shelf is listed exactly when its lower-cased id contains the lower-cased term; listing order is shelf order |
| `Inventory.EmptyTermShowsAllShelves` | src/pages/Inventory.tsx:33-35 | an empty term lists all five shelves, in order |
| `Inventory.FilterShelvesIdempotent` | src/pages/Inventory.tsx:33-35 | re-filtering the listed shelves with the same term changes nothing |
| `Inventory.FilterShelvesIgnoresCase` | src/pages/Inventory.tsx:33-35 | terms with the same lower-case form list the same shelves |
| `Inventory.SearchA2` | src/pages/Inventory.tsx:33-35 | term `a-2` lists only `A-2-1` |
| `Inventory.SearchA1` | src/pages/Inventory.tsx:33-35 | term `A-1` lists `A-1-1` and then `A-1-2` |
| `Inventory.SearchB` | src/pages/Inventory.tsx:33-35 | term `B` lists `B-1-1` and then `B-2-2` |
| `Inventory.UtilizationColor` | src/pages/Inventory.tsx:37-41 | utilisation colour is destructive exactly from 90, warning exactly for 70–89, and success exactly below 70 |
| `Inventory.UtilizationBadge` | src/pages/Inventory.tsx:156-160 | the badge is error exactly from 90, warning exactly for 70–89, and success exactly below 70 |
| `Inventory.UtilizationBar` | src/pages/Inventory.tsx:174-177 | the bar is destructive exactly from 90, warning exactly for 70–89, and success exactly below 70 |
| `Inventory.LaddersAgree` | src/pages/Inventory.tsx:156-177 | text colour, badge and bar put every utilisation in the same band |
| `Inventory.Toggle` | src/pages/Inventory.tsx:151 | clicking the selected shelf clears the selection; clicking any other shelf selects that shelf; at most one shelf is ever selected |
| `Inventory.ToggleTwice` | src/pages/Inventory.tsx:151 | clicking the same shelf twice, starting with nothing selected, leaves nothing selected |
| `Inventory.Step` | src/pages/Inventory.tsx:136-151 | a mode button sets the mode and nothing else; typing changes the term only in browse mode, where the box exists; a click on a listed shelf toggles the selection; mode, term and selection change only through their own events |
| `Inventory.StepKeepsSelectionValid` | src/pages/Inventory.tsx:145-151 | after any step the selection is empty or the id of one of the listed shelves |
| `Inventory.RunKeepsSelectionValid` | src/pages/Inventory.tsx:145-151 | over any sequence of interactions the selection is empty or names a real shelf |
| `Inventory.DetailsShownIff` | src/pages/Inventory.tsx:190 | with the own-key lookup, the details card is shown exactly in browse mode with `A-1-1` or `A-1-2` selected |
| `Inventory.DetailsShownOnValidSelection` | src/pages/Inventory.tsx:190-200 | when the selection is a listed shelf, as on every reachable state, the card shows exactly in browse mode for a shelf with an inventory list, that list is non-empty, and `A-2-1`, `B-1-1`, `B-2-2` show nothing |
| `Inventory.SelectionOutlivesFilter` | src/pages/Inventory.tsx:136-190 | select `A-1-1`, then search `B`: the selection stays, its card is no longer listed, and the details card is still shown |
| `Scan.SubmitEnabledIff` | src/pages/Scan.tsx:64 | the submit button is enabled exactly when the entry has a non-whitespace character |
| `Scan.Submit` | src/pages/Scan.tsx:13-17 | a blank or all-whitespace entry changes nothing; otherwise the scanned shelf becomes the trimmed entry; the entry and the mode are kept |
| `Scan.Step` | src/pages/Scan.tsx:54-123 | typing changes only the entry; submitting is `Submit`; the camera and barcode buttons set their mode and keep the entry and the scanned shelf; no step returns the mode to manual |
| `Scan.StepKeepsScannedWellFormed` | src/pages/Scan.tsx:13-17 | after any step a scanned shelf id, if set, is non-empty and trimmed |
| `Scan.RunMovesForward` | src/pages/Scan.tsx:11-17 | over any sequence of interactions a set shelf stays set, a non-manual mode stays non-manual, and a set shelf stays non-empty and trimmed |
| `Scan.ReachableScannedWellFormed` | src/pages/Scan.tsx:9-17 | in every reachable state the scanned shelf id, if set, is non-empty and has no surrounding whitespace |
| `Scan.DetailsVisibleIff` | src/pages/Scan.tsx:130 | on reachable states the details card shows exactly when a shelf is set or the mode is not manual |
| `Scan.DisplayedShelfId` | src/pages/Scan.tsx:20 | the displayed id is the scanned shelf when one is set and `A-1-2` otherwise; it is never empty |
| `Scan.SubmitShowsEntry` | src/pages/Scan.tsx:13-20 | after an enabled submit, the details card is shown with the trimmed entry as its id |

## Left out

- `Text.Lower`: handles ASCII letters only. JavaScript `toLowerCase` applies full Unicode case mapping, which is out of scope. `Text.Upper` has the same limit.
- `Text.LowerOfUpper`: holds for the ASCII case mapping only. In JavaScript, `'ß'.toUpperCase()` is `'SS'` and `'ı'.toUpperCase()` is `'I'`, so upper-casing and then lower-casing can change a term.
- `Products.FilterProductsUpperCase`: holds for ASCII terms only. In JavaScript the term `ß` matches no product, but its upper-case form `SS` (lower-cased to `ss`) matches the "Cable Assembly Kit" and "Assembly Unit" rows.
- `Inventory.ShelfInventory`: looks up own keys only. In JavaScript, `mockShelfInventory[id]` also finds inherited members such as `constructor` or `toString`, which are truthy, so the card condition would hold and the `.map` call would throw. No such id can be selected: the selection is always a listed shelf id (`Inventory.RunKeepsSelectionValid`), and `Inventory.DetailsShownOnValidSelection` states the card rule for those states.
- `Inventory.DetailsShownIff`: describes the own-key lookup of `Inventory.ShelfInventory`, so it says nothing about inherited keys.
- `Products.MockProduct`: has no `price`. The source draws it with `Math.random` and formats it with `toFixed(2)`; randomness and floating point are out of scope. The random stock is passed in as a parameter of type `StockLevel` (0–999).
- Rendering: JSX layout, icons, UI components, and CSS classes other than the classifier outputs are presentation only.
- The product-search box on the Inventory page's search view (`src/pages/Inventory.tsx:87-90`) has no value and no handler, so it has no behaviour to model. The same goes for the buttons with no `onClick`: Add Product, Filter, Export, Edit, View, Print Label and the quick actions.
- `src/App.tsx` and `src/components/layout/AppSidebar.tsx` are routing and static navigation only.
- `src/pages/Dashboard.tsx` holds static figures. Its zone-bar ladder (`src/pages/Dashboard.tsx:210-212`) tests `> 80` before `> 90`, so its destructive branch can never be taken. The page is not modelled.
- Camera and barcode scanning are UI stubs: the model records only the mode switch. The Scan page's utilisation of 75, its capacity of 15 and its product list are fixed literals. They are not derived from any state, so there is nothing to prove about them.
- `Pager.Slice` handles a negative start the way JavaScript does, but no lemma covers that case: `currentPage` never drops below 1.

# Catalog filter — a Dafny model

This project models the product listing page of a small storefront ("The Can
Store"). The page loads a catalog of products and lets the user narrow what is
visible with two controls: a category selector ("All", "Vegetables", "Meat",
"Soup") and a free-text search box. The model covers the filter engine that
decides which products are visible, and the page's four state fields with the
handlers that update them.

- `ascii_text.dfy`, module `AsciiText`: the two string operations the filter
  uses, `toLowerCase` (ASCII letters only) and `includes` (substring test).
  `Includes` is proved equal to the declarative definition "there is a position
  where the term occurs".
- `filter_engine.dfy`, module `FilterEngine`: the `Product` record, the
  category test, the search test and `Filter`. The lemmas prove soundness,
  completeness, multiplicity, order preservation, uniqueness, idempotence,
  the identity under the default selection, and how case folding behaves.
- `catalog_view.dfy`, module `CatalogView`: class `App` with the fields
  `products`, `filteredProducts`, `category` and `searchTerm`. Each handler
  ends in the settled state: the filter effect has re-run, so
  `filteredProducts == Filter(products, category, searchTerm)` (`InSync`) holds
  after every handler, whatever state it started from.
- `scenarios.dfy`, module `CatalogScenarios`: a two-product catalog
  ("Lima Beans", "Chicken Soup") with three selections, proved against
  `Filter` and against a sequence of handler calls.

`FilterUnique` shows that `Filter` is completely determined by its properties.
The visible list is the one subsequence of the catalog that holds every
matching product as often as the catalog does, and no other product.

The field `type` of a product record is named `kind` in the model, because
`type` is a Dafny keyword.

Three facts about the code shape the model:

- Product names serve as list keys (src/App.jsx:72), but nothing checks that
  they are unique. The model allows duplicates, and `FilterMultiplicity` says
  how many copies of a repeated product stay visible.
- Only the selection is lower-cased in the category test (src/App.jsx:28); the
  stored type is never folded. `UnfoldedTypeOnlyMatchesAll` and
  `FilterDropsUnfoldedType` state what happens when a stored type is not
  lower-case.
- The category handler stores whatever string it is given (src/App.jsx:50).
  The model does not restrict `category` to the selector's four options.

## Model

| member | source | states |
|---|---|---|
| `AsciiText.ToLower` | src/App.jsx:28-31 | the result has the input's length, each character is lower-cased, and no upper-case letter is left |
| `AsciiText.ToLowerFixesLowerCase` | src/App.jsx:28-31 | a string that is already lower-case is unchanged by lower-casing |
| `AsciiText.ToLowerIdempotent` | src/App.jsx:28-31 | lower-casing twice is the same as lower-casing once |
| `AsciiText.ToLowerFixedPoint` | src/App.jsx:28-31 | a string equals its lower-case form exactly when it has no upper-case letter |
| `AsciiText.LowerChar` | src/App.jsx:28-30 | one character of `toLowerCase`: an upper-case ASCII letter moves to its lower-case partner, every other character stays, and the result is never upper-case |
| `AsciiText.Includes` | src/App.jsx:31 | the empty term is always included; an included term is no longer than the string |
| `AsciiText.IncludesIffOccurs` | src/App.jsx:31 | `includes` holds exactly when the term occurs at some position of the string, in both directions |
| `FilterEngine.MatchesCategory` | src/App.jsx:27-28 | the category test; "All" passes every product, and a product passing any other selection has a lower-case stored type |
| `FilterEngine.MatchesSearchTerm` | src/App.jsx:29-31 | the search test; the empty term passes every product, and a passing term is no longer than the name |
| `FilterEngine.Matches` | src/App.jsx:32 | the lambda's result, both tests together; the default selection passes every product, and a passing product has a name at least as long as the term and, unless "All" is selected, a lower-case stored type |
| `FilterEngine.Filter` | src/App.jsx:26-33 | the visible list is no longer than the catalog, and every visible product is in the catalog and passes both tests |
| `FilterEngine.FilterMatchesCategory` | src/App.jsx:27-28 | every visible product has category "All" selected or a stored type equal to the lower-cased selection |
| `FilterEngine.FilterMatchesSearchTerm` | src/App.jsx:29-31 | every visible product's lower-cased name contains the lower-cased search term |
| `FilterEngine.FilterComplete` | src/App.jsx:26-33 | a catalog product is visible if and only if it passes both tests, so nothing matching is dropped |
| `FilterEngine.FilterMultiplicity` | src/App.jsx:26-33 | a matching product is visible as many times as it is in the catalog; a product that does not match is not visible at all |
| `FilterEngine.FilterIsSubsequence` | src/App.jsx:26 | the visible list is a subsequence of the catalog, in the catalog's order |
| `FilterEngine.FilterUnique` | src/App.jsx:26-33 | any ordered subsequence of the catalog with exactly the matching products and their multiplicities is the visible list |
| `FilterEngine.FilterIdempotent` | src/App.jsx:26-33 | filtering the visible list again with the same selection returns it unchanged |
| `FilterEngine.EmptySearchMatchesAll` | src/App.jsx:29-31 | the empty search term passes every product |
| `FilterEngine.FilterDefaultIsIdentity` | src/App.jsx:27-31 | with category "All" and an empty search term the visible list is the whole catalog |
| `FilterEngine.UnfoldedTypeOnlyMatchesAll` | src/App.jsx:28 | a product whose stored type has an upper-case letter passes the category test if and only if "All" is selected |
| `FilterEngine.FilterDropsUnfoldedType` | src/App.jsx:28 | such a product, e.g. one stored as "Soup", is never visible under any category other than "All" |
| `FilterEngine.FilterSearchCaseInsensitive` | src/App.jsx:29-31 | lower-casing the search term first does not change the visible list |
| `FilterEngine.FilterCategoryCaseInsensitive` | src/App.jsx:28 | two selections other than "All" that differ only in letter case give the same visible list |
| `FilterEngine.FilterAppend` | src/App.jsx:26 | filtering a concatenation is the concatenation of the filtered parts |
| `CatalogView.App.constructor` | src/App.jsx:10-13 | the page starts with an empty catalog, nothing visible, "All" and an empty search, and is in sync |
| `CatalogView.App.RunFilterEffect` | src/App.jsx:25-35 | the effect sets the visible list to the filter of the catalog under the selection and changes nothing else |
| `CatalogView.App.LoadProducts` | src/App.jsx:19-20 | loading stores the catalog, keeps both selections, and leaves the page in sync; under the default selection the whole catalog is visible |
| `CatalogView.App.SetCategory` | src/App.jsx:50 | the handler stores the new category, keeps the catalog and search term, and leaves the page in sync |
| `CatalogView.App.SetSearchTerm` | src/App.jsx:64 | the handler stores the new search term, keeps the catalog and category, and leaves the page in sync |
| `CatalogScenarios.VegetablesScenario` | src/App.jsx:26-33 | "Vegetables" with an empty search shows only "Lima Beans" |
| `CatalogScenarios.SoupSearchScenario` | src/App.jsx:26-33 | "All" with search "soup" shows only "Chicken Soup": the search matches the name, not the type |
| `CatalogScenarios.MeatLimaScenario` | src/App.jsx:26-33 | "Meat" with search "lima" shows nothing |
| `CatalogScenarios.ChooseVegetables` | src/App.jsx:50 | after loading the catalog and choosing "Vegetables", only "Lima Beans" is visible |
| `CatalogScenarios.ChooseVegetablesBeforeLoad` | src/App.jsx:19-20 | choosing "Vegetables" before the catalog arrives gives the same visible list |

## Left out

- Malformed catalog data is not modelled. Every record is assumed to have string `name` and `type` fields, and the catalog is assumed to be an array. Otherwise the filter effect throws: `products.filter` on a non-array (src/App.jsx:26), or `toLowerCase` on a missing name (src/App.jsx:30). The code does not catch either error.
- Fetching the catalog (src/App.jsx:4-7, 16-22) is network I/O and JSON parsing. `LoadProducts` receives the parsed product list as a parameter. A failed fetch has no handling in the code and is not modelled.
- Effect scheduling by the UI framework is not modelled. Line 20 shows the whole catalog for a moment before the filter effect re-runs; each handler models only the settled state after the effect.
- Rendering (src/App.jsx:37-98) is not modelled: the header, the form markup, the list markup and the footer attribution.
- Price formatting with `toFixed(2)` (src/App.jsx:74) is floating-point display. `price` is a `real` that the model carries but never uses.
- The image path template and the use of the name as a list key (src/App.jsx:72, 75) are presentation only.
- AsciiText.ToLower: lower-cases only the ASCII letters 'A'..'Z', whereas JavaScript's `toLowerCase` applies full Unicode case mapping, which can also change a string's length.
- Strings are sequences of Dafny characters. JavaScript compares and searches UTF-16 code units; for text without surrogate pairs the two agree.

# Inventory store and client logic, modelled in Dafny

This project models a small product-inventory system with two parts:

- **The REST server** (`api_server.py`). It keeps two lists of JSON records, products and categories, in a global dictionary. It serves them through one handler per route:
  - GET, POST, PUT and DELETE on `/products`;
  - GET and POST on `/categories`;
  - after every change it writes the whole dictionary to a snapshot file.
- **The desktop client** (`main.py`). It caches the two lists and computes over them:
  - the conjunctive search of the search tab;
  - the two per-category bar charts (summed quantity, mean price);
  - the product list sorted by name;
  - the "first category with this id, else `Sem categoria`" label;
  - the checks `save_category` and `save_product` make before anything is sent;
  - the local removal after a confirmed delete.

The modules follow that structure:

- `InventoryStore` (store.dfy): the server as a class `Store`. Records are maps from field name to JSON scalar. Each mutating handler has a `modifies` clause and states the whole new state; the read handlers change nothing.
- `Catalog` (catalog.dfy): the client's typed entities, the id and name lookups, the validations and the search predicates.
- `Charts` (charts.dfy): the chart aggregations as specification functions, their reference dictionaries and their properties.
- `App` (app.dfy): the client as a class `ProductApp`. Its handlers hold the source's loops and stage-by-stage rebinding, each proved against the `Catalog`/`Charts` functions.
- Supporting modules:
  - `Sequences` (sequences.dfy): list comprehension as `Filter`, order-preserving subsequences, and Python's stable `sorted` as an insertion sort;
  - `Text` (text.dfy): Python's `strip`, `lower`, `in` and `<` on strings;
  - `Wrappers` (wrappers.dfy): `Option` and `Result`.

Design points:

- **Product ids.** The two creation handlers differ on an empty list. `create_category` falls back to id 1 there (api_server.py:104-105). `create_product` computes `max(ids) + 1` with no fallback (api_server.py:61), so on an empty list `max` raises `ValueError` and nothing is stored. `Store.CreateProduct` raises in that case too.
- **Persistence.** The snapshot file is two fields, `savedProducts` and `savedCategories`. Every writing handler sets them to the current state (`Persisted()`).
- **Server replies** from the network are parameters of the client methods that depend on them: the status of a DELETE, the record a category POST returned.
- **Text fields.** Numeric text fields arrive already classified as `Blank`, `Parsed(value)` or `Malformed`, which is what Python's `float(...)`/`int(...)` do with them.
- **Sorting.** Both charts sort by value, largest first; the product list sorts by name. Python's `sorted` is stable, and the model's sort is the stable insertion sort `Sequences.Sort`.

## Model

| member | source | states |
|---|---|---|
| InventoryStore.FirstWithId | api_server.py:53 | the position of the first record whose `id` equals the path id; `None` exactly when no record has it |
| InventoryStore.MaxId | api_server.py:61 | the largest id of a non-empty list: no id exceeds it and some record carries it |
| InventoryStore.NextProductId | api_server.py:61 | `ValueError` on an empty list (no fallback); succeeds exactly on a non-empty list of integer ids, with the largest id plus one |
| InventoryStore.NextCategoryId | api_server.py:104-107 | 1 on an empty list; otherwise one more than an existing id and larger than every id |
| InventoryStore.Merge | api_server.py:78 | `dict.update`: keys are the union, body keys are overwritten, every other key is kept |
| InventoryStore.WithoutId | api_server.py:89 | no survivor has the id; every other record is kept with its multiplicity, in order; an absent id changes nothing |
| InventoryStore.AppendFreshKeepsUnique | api_server.py:61-63 | appending a record whose id exceeds all ids keeps the ids unique |
| InventoryStore.ConsecutiveCategoryIds | api_server.py:102-108 | after one category creation the next computed id is one larger, whatever the body |
| InventoryStore.UpdateKeepsUnique | api_server.py:73-78 | merging a body without an `id` key into one record keeps the ids unique |
| InventoryStore.SubsequenceKeepsUnique | api_server.py:89 | a subsequence of a list with unique ids has unique ids |
| InventoryStore.SubsequenceElements | api_server.py:89 | every element of a subsequence belongs to the sequence |
| InventoryStore.Store.constructor | api_server.py:8-44 | the three seed products and three seed categories, with unique ids, already written to the snapshot |
| InventoryStore.Store.GetProducts | api_server.py:47-49 | returns the product list |
| InventoryStore.Store.GetProduct | api_server.py:51-56 | 200 with the first product carrying the id exactly when one exists; otherwise 404 with the error body |
| InventoryStore.Store.CreateProduct | api_server.py:58-69 | an empty or non-integer id list raises and changes nothing; otherwise the body gets id max+1 and `createdAt`, is appended after the unchanged prior records, 201, snapshot written; unique ids stay unique |
| InventoryStore.Store.UpdateProduct | api_server.py:71-84 | unknown id: 404 and nothing changes; otherwise only the first match is replaced by the merge, the list length and all other products stay, 200 with the merged record, snapshot written |
| InventoryStore.Store.DeleteProduct | api_server.py:86-95 | the products become the others in their order, absent id changes nothing, always 200, snapshot written, unique ids stay unique |
| InventoryStore.Store.GetCategories | api_server.py:97-99 | returns the category list |
| InventoryStore.Store.CreateCategory | api_server.py:101-114 | the body gets id 1 or max+1 and is appended, 201, products unchanged, snapshot written, unique ids stay unique |
| InventoryStore.PostCategoryTwice | api_server.py:101-114 | posting the same body twice is accepted twice (no duplicate-name check): the first gets the next category id (1 on an empty list), the second the id after it, otherwise the records are equal; both are appended, products unchanged, snapshot written |
| Catalog.CategoryWithId | main.py:247-250 | the position of the first category whose id equals the product's `categoryId`; none for a missing `categoryId` or no match |
| Catalog.CategoryNameResolves | main.py:247-250 | the label is the first matching category's name, and `Sem categoria` when no category matches |
| Catalog.CategoryIdByName | main.py:306-309 | the id of the first category with exactly that name; `None` exactly when no category has it |
| Catalog.FirstNameMatch | main.py:306-309 | a resolved id belongs to a category with exactly the chosen name |
| Catalog.ValidateCategoryName | main.py:200-208 | fails "required" exactly when the name is all whitespace, fails "exists" exactly when the stripped name equals an existing name ignoring case, else yields the stripped, non-empty, absent name |
| Catalog.PrepareProduct | main.py:285-318 | each rejection in the source's order, each as an if-and-only-if; on success the stripped name, blank numbers read as 0, and exactly the id `CategoryIdByName` resolves: the first exact-name category's, or `None` |
| Catalog.NameOrder | main.py:246 | ordering products by name is a strict order |
| Catalog.SortedByName | main.py:246 | the product list is a permutation of the cache with names never decreasing; of two different names the smaller is listed first |
| Catalog.CategoryQuery | main.py:585-604 | no category restriction for `Todas`, an empty choice or an unknown name; a known name whose first exact-name id is not 0 restricts to that id; any restriction is that id and never 0 |
| Catalog.CategoryName | main.py:247-250 | the label of a product: the name of the first category carrying its `categoryId`, else `Sem categoria` (properties in `CategoryNameResolves`) |
| Catalog.NameQuery | main.py:584 | the lower-cased name query, or none for a missing or empty field |
| Catalog.NameMatches | main.py:596-597 | the name stage's test: no query, or the lower-cased name contains the query |
| Catalog.CategoryMatches | main.py:599-605 | the category stage's test: no restriction, or the product's `categoryId` is the restricting id |
| Catalog.PriceMatches | main.py:607-611 | the price stages' test: `>= min` when the lower bound parsed, `<= max` when the upper bound parsed |
| Catalog.Matches | main.py:596-611 | a product passes all four stages |
| Catalog.NameMatchFindsLiteral | main.py:584-597 | a product whose name contains the typed query literally is always kept by the name stage |
| Catalog.NameMatchIgnoresCase | main.py:584-597 | with a non-empty query, the name stage keeps exactly the products whose lower-cased name contains the lower-cased query |
| Text.IsSpace | main.py:200 | the characters Python's `str.isspace()` accepts, which `strip()` removes |
| Text.Contains | main.py:597 | Python's `needle in hay`: the needle occurs at some position of the hay |
| Text.LexLess | main.py:246 | Python's `<` on strings: the first differing code point decides, a proper prefix comes first |
| Text.LeadingSpaces | main.py:200 | the length of the leading whitespace run |
| Text.TrailingSpaces | main.py:200 | the length of the trailing whitespace run |
| Text.Strip | main.py:200 | `strip()` is empty exactly for all-whitespace input; otherwise it is the infix between whitespace runs and neither starts nor ends with whitespace |
| Text.LowerChar | main.py:206 | upper-case ASCII letters are shifted to lower case; other non-letters are unchanged |
| Text.Lower | main.py:206 | `lower()` keeps the length and lowers each character |
| Text.LexLessIrreflexive | main.py:246 | no string sorts before itself |
| Text.LexLessTransitive | main.py:246 | string order is transitive |
| Text.LexLessTotal | main.py:246 | two different strings are always ordered |
| Text.ContainsLower | main.py:597 | a literal occurrence survives lower-casing both sides |
| Sequences.Filter | main.py:597 | a list comprehension keeps, in order, exactly the elements passing the test, each with its multiplicity |
| Sequences.FilterKeepsAll | api_server.py:89 | a filter every element passes returns the list unchanged |
| Sequences.SubsequenceOfSelf | main.py:594 | the unfiltered list is a subsequence of itself |
| Sequences.SubsequenceTransitive | main.py:596-611 | successive filtering stays a subsequence of the original |
| Sequences.SelectedByAll | main.py:594 | before any stage the list is exactly the products selected by "true" |
| Sequences.FilterNarrows | main.py:596-611 | filtering a selection by one more test selects by the conjunction |
| Sequences.Narrow | main.py:596-611 | an inactive stage keeps the selection; an active one narrows it by the stage's test |
| Sequences.SelectedByEquivalent | main.py:596-611 | a selection by one test is a selection by any equivalent test |
| Sequences.Insert | main.py:246 | inserting adds exactly one element |
| Sequences.Sort | main.py:246 | `sorted` returns a permutation of the same length |
| Sequences.SortTwo | main.py:438 | two elements already in order are left in order |
| Sequences.InsertSorted | main.py:246 | inserting into a sorted list keeps it sorted |
| Sequences.SortSorted | main.py:438 | `sorted` yields a list in which no element must precede one to its left |
| Sequences.SortSameElements | main.py:438 | sorting neither adds nor drops an element |
| Sequences.InsertDistinct | main.py:438 | inserting a new key keeps keys distinct |
| Sequences.SortDistinct | main.py:438 | sorting keeps keys distinct |
| Charts.Labels | main.py:427-434 | the dictionary's keys in insertion order: each product's label, added when first seen (properties in `LabelsFacts`) |
| Charts.QuantityOf | main.py:433-435 | the summed quantity of the products carrying a label |
| Charts.PricesOf | main.py:468-470 | the prices of the products carrying a label, in list order |
| Charts.Mean | main.py:473 | `sum(v) / len(v)` of a non-empty list, in exact arithmetic: the mean times the count is the sum |
| Charts.QuantityDict | main.py:425-435 | the loop's dictionary rebuilt product by product: a new key starts at 0, then the product's quantity is added (meaning in `QuantityDictMeaning`) |
| Charts.PriceDict | main.py:460-470 | the loop's dictionary rebuilt product by product: a new key starts empty, then the product's price is appended (meaning in `PriceDictMeaning`) |
| Charts.LabelsDistinct | main.py:433-434 | each group label appears once among the dictionary's keys |
| Charts.LabelsCover | main.py:427-434 | every product's group is a key |
| Charts.LabelsFromProducts | main.py:427-434 | every key is some product's group |
| Charts.LabelsFacts | main.py:427-434 | the three label facts together |
| Charts.LabelsSnoc | main.py:433-434 | one more product adds its label at the end only when it is new |
| Charts.QuantityOfSnoc | main.py:435 | one more product adds its quantity to its own group only |
| Charts.PricesOfSnoc | main.py:470 | one more product appends its price to its own group only |
| Charts.QuantityOfUnlabelled | main.py:433-435 | a group no product belongs to sums to 0 |
| Charts.PricesOfUnlabelled | main.py:468-470 | a group no product belongs to has no prices |
| Charts.TotalAppend | main.py:438-440 | the total of a concatenation is the sum of the totals |
| Charts.QuantityTableStep | main.py:427-435 | one more product adds its quantity to exactly the bar of its group |
| Charts.QuantityTableTotal | main.py:427-435 | the group sums add up to the total quantity over all products |
| Charts.TotalInsert | main.py:438 | inserting a bar adds its value to the total |
| Charts.TotalSort | main.py:438 | sorting keeps the total |
| Charts.TotalSnoc | main.py:438-440 | the total is the total of all but the last bar plus the last |
| Charts.PricesNonEmpty | main.py:468-470 | the group of any product has a non-empty price list |
| Charts.LabelsHavePrices | main.py:473 | every key's price list is non-empty, so `sum(v)/len(v)` never divides by zero |
| Charts.StrictOrders | main.py:438-474 | both chart orders are strict orders |
| Charts.QuantityTableFacts | main.py:427-435 | one bar per group, each with that group's summed quantity, covering every product |
| Charts.AverageTableFacts | main.py:462-473 | one bar per non-empty group, each with that group's mean price, covering every product |
| Charts.QuantityChart | main.py:425-440 | bars non-increasing by sum, a permutation of the dictionary's items, one bar per group carrying its sum, every product's group present, bars adding up to the total quantity |
| Charts.AverageChart | main.py:460-476 | bars non-increasing by mean, one bar per group, each group non-empty with its bar equal to sum divided by count, every product's group present, only groups of products |
| Charts.QuantityItems | main.py:438 | any list of the dictionary's items in insertion order sorts into the quantity chart |
| Charts.AverageItems | main.py:473-474 | any list of the mean items in insertion order sorts into the average chart |
| Charts.TwoGroupQuantityChart | main.py:438 | with two groups, the one with more units comes first |
| Charts.TwoGroupAverageChart | main.py:474 | with two groups, the one with the higher mean comes first |
| Charts.QuantityDictMeaning | main.py:425-435 | the dictionary the loop builds has the labels as keys in insertion order, each mapped to its group's summed quantity |
| Charts.PriceDictMeaning | main.py:460-470 | the dictionary the loop builds has the labels as keys in insertion order, each mapped to its group's non-empty price list |
| Charts.ExampleGroups | main.py:427-435 | an example with two groups: the labels, the sums and the price lists |
| Charts.ExampleMeans | main.py:473 | the example's means, 15 and 5 |
| Charts.QuantityChartExample | main.py:425-440 | the example's quantity chart is A with 5 above B with 1 |
| Charts.AverageChartExample | main.py:460-476 | the example's average chart is A at 15 above B at 5 |
| App.ProductApp.constructor | main.py:34-47 | the client holding the lists the server returned |
| App.ProductApp.SearchProducts | main.py:583-611 | aborts exactly when a price bound does not parse; otherwise an order-preserving subsequence of the cache whose every element passes every active stage, and which keeps every passing product with its multiplicity |
| App.FilterStages | main.py:594-611 | the stage-by-stage rebinding selects exactly the products passing every active stage |
| App.NameStage | main.py:596-597 | the name stage narrows the selection by the name test |
| App.CategoryStage | main.py:599-605 | the category stage narrows the selection by the category test |
| App.MinPriceStage | main.py:607-608 | the lower bound stage narrows the selection by `>= min` when the bound is present |
| App.MaxPriceStage | main.py:610-611 | the upper bound stage narrows the selection by `<= max` when the bound is present |
| App.SelectedMatching | main.py:594-611 | a selection by the combined test is the search's promised result |
| App.SumQuantities | main.py:425-435 | the loop's keys are the labels in insertion order, and each key maps to its group's summed quantity |
| App.CollectPrices | main.py:460-470 | the loop's keys are the labels in insertion order, and each key maps to its group's non-empty price list |
| App.ProductApp.QuantityByCategory | main.py:424-440 | the bars are the quantity chart, and they add up to the total quantity |
| App.ProductApp.AveragePriceByCategory | main.py:459-476 | the bars are the average chart |
| App.ProductApp.ProductList | main.py:237-250 | one row per cached product, in name order, each with its category label |
| App.ProductApp.DeleteProduct | main.py:360-366 | after a 200, exactly the products with that id are removed, the others keep order and multiplicity; any other status changes nothing; categories never change |
| App.ProductApp.SaveCategory | main.py:199-218 | the outcome is the validation's; a rejection or a reply other than 201 changes nothing; an accepted 201 reply is appended to the categories |

## Left out

- Flask routing, `jsonify` and the `db.json` writes (api_server.py:42-44 and after each change). Persistence is modelled as the snapshot fields `savedProducts`/`savedCategories` set to the current state.
- The `requests` calls and the handling of connection errors in the client: network I/O. The server's reply enters `App.ProductApp.DeleteProduct` (the status) and `App.ProductApp.SaveCategory` (the record returned with 201) as parameters.
- `save_product`'s PUT/POST and the reload after it: network I/O. Its checks are `Catalog.PrepareProduct`; what the server then does is `InventoryStore.Store.CreateProduct`/`UpdateProduct`.
- `load_data` and its fallback to empty lists on failure: network I/O. The client is constructed from the lists it received.
- The `load_data()` reload after a saved category (main.py:224): `App.ProductApp.SaveCategory` states the cache right after the append, before that reload.
- Flet widgets, dropdown refreshes, `edit_product` (it fills form fields), tab switching, snackbars, `clear_form`/`clear_search` and `page.update()`: UI.
- Matplotlib drawing and the price histogram (main.py:495-506): the bucketing happens inside a plotting library.
- The clock and `createdAt` formatting: `createdAt` is an opaque string passed in (`now`, or the seed times).
- Parsing by `float(...)` and `int(...)`: the fields arrive as `Field` values. Prices are Dafny `real`, so IEEE rounding of sums and means is not modelled.
- Text.LowerChar: lowers ASCII and Latin-1 upper-case letters only, not the whole of Unicode.
- Nested JSON values in records: `Value` holds scalars only.
- Python's cross-type equality (`2.0 == 2`, `True == 1`) in id comparisons: ids match only as `Int` values.
- InventoryStore.Store.CreateProduct: any id that is not an `Int` makes it raise `TypeError`, although Python's `max` would accept float or boolean ids.
- Sequences.Sort: stability of the sort is built into its definition but not stated as a proved property.
- The empty-list placeholder row of the product list ("Nenhum produto cadastrado.") and the search results' rendering: UI. `ProductList` on an empty cache returns no rows.
- Catalog.Product and Catalog.Category: the client's cache is typed, so the records always have every field with the right type. The source reads the fields directly (`cat["name"].lower()` at main.py:206, `x['name']` at main.py:246, `product["quantity"]` at main.py:435, `p["name"].lower()` at main.py:597, `p["price"] >= price_min` at main.py:608). A record that lacks a field or has a value of another type would make those lines raise `KeyError`, `AttributeError` or `TypeError`. Such records can exist because the server stores any body unchecked (api_server.py:60-63, api_server.py:103-108). The model does not capture those exceptions.
- The `asyncio` event-loop setup and any concurrency between requests.

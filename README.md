# Admin panel page logic, in Dafny

This project models the in-memory logic of three pages of the shop's admin
panel, a Next.js application, and proves properties of it.

- **Product list** (`app/view-products/page.jsx`). It covers:
  - the search, category and subcategory filter;
  - the sort by name, price or creation time, in either direction;
  - the sort toggle, the sort select and the "clear filters" button;
  - removing a product from the list after it is deleted.
- **Add-product form** (`app/add-product/page.jsx`). It covers:
  - whole-form and per-field validation, and the keyed error map;
  - the Enter-key focus chain and the submit gate;
  - the request payload, and how the server's answer becomes a modal;
  - the category and subcategory option lists with their fallbacks;
  - resetting the subcategory when the category changes.
- **Orders list** (`app/dashboard/orders/page.jsx`). It covers:
  - the search, status and date filters, and the sort by column header;
  - row selection and select-all;
  - bulk status change, bulk delete and CSV export;
  - the count statistics and the status and payment badges.

Modules:

- **`Wrappers`**: `Option`.
- **`Text`**: the JavaScript string operations the pages use (`toLowerCase`,
  `toUpperCase`, `includes`, `trim`, `replace(/_/g, " ")`), code-point string
  order, and decimal text for status codes.
- **`Seqs`**: `filter`, `join` and `split` on one-character separators, with
  their laws.
- **`Sorting`**: comparison keys, a stable sort (ECMAScript requires
  `Array.prototype.sort` to be stable) and the sort-toggle state machine.
- **`Products`**, **`AddProduct`**, **`Orders`**: one module per page.

Each page's state is a class. The fields are the page's `useState` values,
and the methods are its event handlers. Each method's `ensures` ties the new
state to pure functions. The lemmas prove what those functions promise.

## Model

| member | source | states |
|---|---|---|
| Text.ContainsIffOccurs | app/view-products/page.jsx:282-284 | `includes` holds exactly when the term occurs at some position |
| Text.TrimEmptyIffBlank | app/add-product/page.jsx:89 | `trim()` gives the empty string exactly when every character is JavaScript whitespace |
| Text.ParseNatToString | app/add-product/page.jsx:226 | the decimal text of a status code reads back as that code |
| Sorting.SortBy | app/view-products/page.jsx:292-309 | the sorted list is a permutation of its input |
| Sorting.SortBySorted | app/dashboard/orders/page.jsx:127-140 | every pair in the sorted list is in key order for the direction |
| Sorting.DescendingIsReversedAscending | app/dashboard/orders/page.jsx:127-140 | when keys identify records, descending is ascending reversed |
| Sorting.ToggleSort | app/view-products/page.jsx:311-318 | same field flips the direction; another field becomes the field, ascending |
| Sorting.ToggleSortTwice | app/view-products/page.jsx:311-318 | toggling the current field twice restores field and direction |
| Seqs.Filter | app/dashboard/orders/page.jsx:107 | an element is kept exactly when it is in the input and passes |
| Seqs.SplitJoin | app/dashboard/orders/page.jsx:79 | splitting a join gives the pieces back when none holds the separator |
| Products.CapitalizeDisplay | app/view-products/page.jsx:191-194 | non-strings and "" are kept; else first character upper-cased, later `_` become spaces, length kept |
| Products.CapitalizeDisplayIdempotent | app/view-products/page.jsx:191-194 | displaying a displayed label changes nothing |
| Products.FilterAndSort | app/view-products/page.jsx:279-309 | `filteredAndSortedProducts`: the filter followed by the stable sort; no contract of its own, its properties are `DisplayedIff`, `DisplayedPermutesFiltered`, `DisplayedSorted` and `EmptyQueryShowsAll` |
| Products.DisplayedIff | app/view-products/page.jsx:279-291 | shown iff in the list, the term is in the name or a non-empty description, and both category filters pass |
| Products.DisplayedPermutesFiltered | app/view-products/page.jsx:279-309 | each passing product is shown as often as it occurs; no other product is shown |
| Products.EmptyQueryShowsAll | app/view-products/page.jsx:279-291 | with no search and no category filters every product is shown |
| Products.DisplayedSorted | app/view-products/page.jsx:292-309 | ascending puts the smaller key first, descending the larger; price key is the parsed value or 0, strings lower-cased |
| Products.DistinctKeysDescendingReversesAscending | app/view-products/page.jsx:292-309 | with distinct keys the descending list is the ascending list reversed |
| Products.CompareAsWritten | app/view-products/page.jsx:304-308 | the comparator as written answers 1 or -1 and never 0; `CompareAsWrittenInconsistent` shows the consequence |
| Products.CompareAsWrittenInconsistent | app/view-products/page.jsx:304-308 | two products with equal keys each compare below the other |
| Products.Compare | app/view-products/page.jsx:304-308 | the corrected comparator is 0 exactly on equal keys and otherwise as written |
| Products.CompareConsistent | app/view-products/page.jsx:304-308 | the corrected comparator is antisymmetric and agrees with the order the model sorts by |
| Products.ParseField | app/view-products/page.jsx:512-513 | a parsed field name is the name of the field it gives |
| Products.ParseDir | app/view-products/page.jsx:512-514 | a parsed direction name is the name of the direction it gives |
| Products.ParseSortOption | app/view-products/page.jsx:511-515 | a parsed option splits on `-` into the field's and the direction's name |
| Products.SortOptionRoundTrip | app/view-products/page.jsx:510-523 | reading back the select's value gives the field and direction it shows |
| Products.SortOptionsParse | app/view-products/page.jsx:518-523 | each of the six offered option values parses to the field and direction it names |
| Products.ShowClear | app/view-products/page.jsx:455-459 | the Clear button shows exactly when the query differs from the default |
| Products.WithoutProduct | app/view-products/page.jsx:334 | a product remains exactly when it was listed and has another id; order and multiplicity are in `WithoutProductRemovesExactlyThatId` |
| Products.WithoutProductRemovesExactlyThatId | app/view-products/page.jsx:334 | no product of that id is left, all others keep their multiplicity, removal distributes over concatenation |
| Products.WithoutAbsentProduct | app/view-products/page.jsx:334 | deleting an id no product has leaves the list as it was |
| Products.ProductListPage.constructor | app/view-products/page.jsx:170-182 | the page starts with no products and the default query |
| Products.ProductListPage.HandleSort | app/view-products/page.jsx:311-318 | the new field and direction are the sort toggle of the old ones |
| Products.ProductListPage.HandleSortSelect | app/view-products/page.jsx:511-515 | the chosen option sets exactly its field and direction |
| Products.ProductListPage.ClearFilters | app/view-products/page.jsx:343-349 | the query becomes the default, the Clear button hides, every product is shown |
| Products.ProductListPage.HandleDeleteProduct | app/view-products/page.jsx:320-341 | an ok delete removes that id from the list; a failure leaves it unchanged |
| AddProduct.Fails | app/add-product/page.jsx:103-113 | the test each field fails on; no contract of its own, characterised by `ValidationKeys` through `IsBlank` and the price parse |
| AddProduct.FieldError | app/add-product/page.jsx:100-113 | a field has an error exactly when it fails its check, and the error is that field's message |
| AddProduct.Validation | app/add-product/page.jsx:87-98 | the error map holds exactly the failing fields, each with its message |
| AddProduct.ValidationKeys | app/add-product/page.jsx:87-98 | the exact condition for each of the six keys (blank name, bad price, empty selects, blank description, no image) |
| AddProduct.ValidExamplePasses | app/add-product/page.jsx:87-98 | a fully filled-in form has no errors |
| AddProduct.SetFieldError | app/add-product/page.jsx:115-127 | only the field's entry changes: deleted, then set exactly when there is an error |
| AddProduct.SetFieldErrorTwice | app/add-product/page.jsx:115-127 | validating the same field twice gives the same map as once |
| AddProduct.NextFocus | app/add-product/page.jsx:132-139 | focus moves name, price, description, category, subcategory; none after subcategory or image, never to name or image |
| AddProduct.IgnoredKey | app/add-product/page.jsx:142-144 | the keys `handleEnterKey` ignores; no contract of its own, `HandleEnterKey` ensures an ignored key changes nothing |
| AddProduct.NullIfEmpty | app/add-product/page.jsx:179-181 | empty text becomes null, anything else is kept |
| AddProduct.MakeRequest | app/add-product/page.jsx:176-189 | the payload and image `submit()` sends; no contract of its own, `ValidFormRequest` states what a valid form sends |
| AddProduct.ValidFormRequest | app/add-product/page.jsx:166-189 | a valid form's request has a positive price, non-null description, category and `sub_category`, and the image |
| AddProduct.Classify | app/add-product/page.jsx:201-236 | 200/201 with a readable body succeed, 401 is unauthorized, other readable statuses are server errors with that status, the rest are network errors |
| AddProduct.OutcomeModal | app/add-product/page.jsx:201-236 | success modal exactly on success; a server error's message is "Server error: " then the status |
| AddProduct.CategoryOptions | app/add-product/page.jsx:412-415 | the server list when non-empty, else the sample categories; never empty |
| AddProduct.SubcategoryOptions | app/add-product/page.jsx:439-443 | the server list when non-empty, else the sample list of the chosen category, else none |
| AddProduct.FallbackSubcategoriesNeedOfferedCategory | app/add-product/page.jsx:412-443 | with no server lists a subcategory is offered only under an offered category |
| AddProduct.CapitalizeFirst | app/add-product/page.jsx:40-43 | non-strings and "" are kept; else only the first character is upper-cased |
| AddProduct.CapitalizeFirstIdempotent | app/add-product/page.jsx:40-43 | capitalising twice is capitalising once |
| AddProduct.AddProductPage.constructor | app/add-product/page.jsx:16-38 | empty fields, no errors, not loading, no modal, no server lists |
| AddProduct.AddProductPage.Validate | app/add-product/page.jsx:87-98 | the conditional assignments build exactly the whole-form error map |
| AddProduct.AddProductPage.ValidateField | app/add-product/page.jsx:100-130 | true exactly when the whole-form map has no entry for the field; the map changes only at that field |
| AddProduct.AddProductPage.SetCategory | app/add-product/page.jsx:56-59 | a different category clears the subcategory; the same one changes nothing |
| AddProduct.AddProductPage.SelectFiles | app/add-product/page.jsx:284 | the image is the first chosen file, or none |
| AddProduct.AddProductPage.RemoveImage | app/add-product/page.jsx:319-322 | the image is cleared |
| AddProduct.AddProductPage.LoadEnums | app/add-product/page.jsx:63-82 | both lists on success; the sample category names and no subcategories on failure |
| AddProduct.AddProductPage.ResetForm | app/add-product/page.jsx:209-214 | every field is empty again |
| AddProduct.AddProductPage.Submit | app/add-product/page.jsx:172-240 | the request is built from the values, the outcome picks the modal, success resets the form, loading ends false |
| AddProduct.AddProductPage.HandleSubmit | app/add-product/page.jsx:165-243 | errors become the whole-form map; with any error no request and no other change, else the submit runs |
| AddProduct.AddProductPage.HandleEnterKey | app/add-product/page.jsx:141-163 | ignored keys change nothing; a failing field, or a passing one other than the subcategory, only updates that field's error (and focus when it passes); from the subcategory a passing field runs the submit with `HandleSubmit`'s outcome; the fetched lists never change |
| Orders.OrderKey | app/dashboard/orders/page.jsx:128-139 | totals are numeric keys, every other column a string key |
| Orders.MatchesDate | app/dashboard/orders/page.jsx:113-122 | the date-range test; no contract of its own, `VisibleIff` states it as part of visibility |
| Orders.VisibleOrders | app/dashboard/orders/page.jsx:107-140 | the table rows, filtered then sorted; no contract of its own, its properties are `VisibleIff`, `VisibleCounts`, `VisibleSorted` and `EmptyCriteriaShowsAll` |
| Orders.VisibleIff | app/dashboard/orders/page.jsx:107-124 | shown iff in the list, the lower-cased term is in the customer, id or email, the status matches, and the date passes |
| Orders.VisibleCounts | app/dashboard/orders/page.jsx:107-140 | each visible order is shown as often as it occurs; no other order is shown |
| Orders.VisibleSorted | app/dashboard/orders/page.jsx:127-140 | the rows are in the chosen column's order and direction |
| Orders.DescendingReversesAscending | app/dashboard/orders/page.jsx:127-140 | with distinct keys, descending is ascending reversed |
| Orders.EmptyCriteriaShowsAll | app/dashboard/orders/page.jsx:107-124 | with no search, status or date filter every order is shown |
| Orders.Toggle | app/dashboard/orders/page.jsx:169-171 | only the id's membership flips; an absent id is appended |
| Orders.ToggleKeepsNoDup | app/dashboard/orders/page.jsx:169-171 | toggling never introduces a duplicate |
| Orders.ToggleTwice | app/dashboard/orders/page.jsx:169-171 | toggling twice restores membership, and the list itself for an absent id |
| Orders.Ids | app/dashboard/orders/page.jsx:174 | the ids of the rows, in row order |
| Orders.ToggleAll | app/dashboard/orders/page.jsx:172-175 | equal counts clear the selection; otherwise it becomes the shown ids in order |
| Orders.HeaderChecked | app/dashboard/orders/page.jsx:276 | the header checkbox; no contract of its own, `SelectAllComparesCountsOnly` and `HeaderCheckedWithHiddenSelection` state its behaviour |
| Orders.SelectAllComparesCountsOnly | app/dashboard/orders/page.jsx:172-175 | two selections of the same size give the same header state and the same toggle |
| Orders.HeaderCheckedWithHiddenSelection | app/dashboard/orders/page.jsx:276 | a hidden selected id can check the header, and the click then clears instead of selecting |
| Orders.ToggleAllSelectsShown | app/dashboard/orders/page.jsx:172-175 | after select-all the selection holds exactly the shown ids |
| Orders.SetStatus | app/dashboard/orders/page.jsx:91 | length and ids kept; selected orders change only their status; others unchanged |
| Orders.SetStatusIdempotent | app/dashboard/orders/page.jsx:91 | applying the same bulk status twice is applying it once |
| Orders.RemoveSelected | app/dashboard/orders/page.jsx:69 | an order remains exactly when it was listed and its id is not selected; multiplicity and order are in `RemoveSelectedExact` |
| Orders.RemoveSelectedExact | app/dashboard/orders/page.jsx:69 | exactly the selected orders go; kept and removed together count as the old list; deleting from a concatenation deletes from each part, so the survivors keep their order |
| Orders.RemoveNothing | app/dashboard/orders/page.jsx:69 | with nothing selected the list is unchanged |
| Orders.SelectedOrders | app/dashboard/orders/page.jsx:74 | an order is exported exactly when it is listed and selected, in list order |
| Orders.CsvRow | app/dashboard/orders/page.jsx:78 | one cell per header column; `ExportCsvReadsBack` gives the cells back |
| Orders.CsvLines | app/dashboard/orders/page.jsx:76-79 | one header line plus one line per selected order |
| Orders.ExportCsv | app/dashboard/orders/page.jsx:72-79 | nothing exactly when no order is selected |
| Orders.ExportCsvReadsBack | app/dashboard/orders/page.jsx:72-79 | without commas or line breaks in cells, the text splits back into the 8-column header and each selected order's cells in list order |
| Orders.CommaInCellShiftsColumns | app/dashboard/orders/page.jsx:76-79 | cells are not quoted: a comma in a customer name gives a row of more than 8 columns |
| Orders.PendingOrders | app/dashboard/orders/page.jsx:104 | never more than the order count; zero exactly when no order is pending |
| Orders.PendingIsCount | app/dashboard/orders/page.jsx:104 | the pending count equals the number of orders whose status is pending, counted order by order |
| Orders.PendingAfterBulkPending | app/dashboard/orders/page.jsx:90-104 | after a bulk change to pending, the pending count is the number of orders selected or already pending |
| Orders.DemoStats | app/dashboard/orders/page.jsx:8-52 | the demonstration data has two orders, one pending |
| Orders.StatusBadge | app/dashboard/orders/page.jsx:143-154 | the text is the status; icon exactly for the four known statuses; green, yellow, red and blue exactly for completed, pending, cancelled and shipped; grey exactly for any other status |
| Orders.PaymentBadge | app/dashboard/orders/page.jsx:157-166 | the text is the payment state; icon and colour exactly for the three known states |
| Orders.SortInPlace | app/dashboard/orders/page.jsx:127-140 | the array ends up holding its old contents in stable-sort order |
| Orders.OrdersPage.constructor | app/dashboard/orders/page.jsx:55-64 | no orders, no selection, no filters, sorted by date descending |
| Orders.OrdersPage.Load | app/dashboard/orders/page.jsx:96-99 | the demonstration orders are loaded |
| Orders.OrdersPage.ComputeFiltered | app/dashboard/orders/page.jsx:107-140 | a fresh array holding exactly the rows on screen |
| Orders.OrdersPage.ToggleSelect | app/dashboard/orders/page.jsx:169-171 | the selection becomes its toggle at the id |
| Orders.OrdersPage.ToggleSelectAll | app/dashboard/orders/page.jsx:172-175 | the selection becomes the select-all toggle against the rows on screen |
| Orders.OrdersPage.ThSort | app/dashboard/orders/page.jsx:181-184 | the header click is the sort toggle |
| Orders.OrdersPage.HandleBulkStatus | app/dashboard/orders/page.jsx:90-94 | the orders get the bulk status, the menu closes, the selection empties |
| Orders.OrdersPage.HandleBulkDelete | app/dashboard/orders/page.jsx:67-71 | once confirmed the selected orders go and the selection empties; declined changes nothing |
| Orders.OrdersPage.HandleBulkExport | app/dashboard/orders/page.jsx:72-79 | the text to download is the CSV of the selected orders |

## Left out

- AddProduct.SubcategoryOptions: the sample lookup `sampleCategories[category]` is modelled as a map with no inherited keys. In the page it is a plain object, so a category named after an inherited property (`constructor`, `toString`, `__proto__`, ...) gives a truthy non-array whose `.map` throws during render; the model returns no options there. This is reachable only when the server's category list holds such a name and its subcategory list is empty.
- I/O is not modelled: the `fetch` calls, `Promise.all`, cache headers and timestamps. Each HTTP answer is a parameter: a status and whether the body could be read, or a failure.
- The object-URL image preview, the unused `fileToDataUrl`, and the Blob and anchor download of the CSV are browser resources, so they are left out. Only the CSV text is modelled.
- `alert`, `window.confirm` and the modals' open and close flags are presentation. A confirmation is a boolean parameter, and a modal is its kind, title and message.
- Loading and error flags of the product list, the product details modal, and the delete-confirmation modal's open state are presentation, so they are left out.
- `parseFloat` is a parameter of type `string -> Option<real>`, with `None` for `NaN`. A product's price is stored already parsed.
- Floating point is not modelled: totals and prices are exact reals. `totalRevenue` with `toFixed(2)` is left out, and so is the number-to-text conversion of a CSV total, which is a parameter.
- Products.SortKey, Products.MatchesSearch, Orders.MatchesSearch, Products.CapitalizeDisplay, AddProduct.CapitalizeFirst: `toLowerCase`/`toUpperCase` are modelled for ASCII letters only, so Greek and other scripts compare case-sensitively in the model, and upper-casing never changes a length (JavaScript's `"ß".toUpperCase()` is `"SS"`), so the "length kept" of `Products.CapitalizeDisplay` holds only under this mapping. Products.SortKey also orders strings by code point, while JavaScript's `<`/`>` compare UTF-16 code units; the two differ only between characters above U+FFFF and those in U+E000–U+FFFF.
- Orders.OrderKey: `localeCompare` is modelled as code-point order, not the locale's collation. Dates are compared as ISO `YYYY-MM-DD` strings, which matches `new Date` order only for well-formed dates.
- Orders.MatchesDate: the wall clock is a parameter giving today's date and the date a week ago. The time-zone difference between `toISOString` (UTC) and the local-midnight week start is not modelled.
- Products.ProductListPage.HandleSortSelect: it requires a value that parses, i.e. one of the six offered options. A foreign value, which the page would store as is, is not modelled.
- Products.ProductListPage.HandleSort: the rendered page never calls it (the sort select sets field and direction directly). It is modelled as written.
- The engine's sorting algorithm is not modelled. Sorting is a stable insertion sort, and Orders.SortInPlace overwrites the array with its result. For the product comparator, which never returns 0, this is the corrected behaviour (see Findings).
- Items, address, notes, shipping and timeline of an order are only shown in the details modal (`selectedOrder`), so they are not part of `Order`.
- Re-entrancy is not modelled: a second submit while one is in flight, and the asynchronous interleaving of React state updates.
- app/dashboard/page.jsx, app/login/page.jsx, app/edit-product/[id]/page.jsx and lib/api.js are not part of this model.

## Findings

| source | as written | input that shows it | evidently intended | confidence | as-written member | corrected member |
|---|---|---|---|---|---|---|
| app/view-products/page.jsx:304-308 | the comparator returns `1` or `-1` and never `0`, so two equal keys each compare below the other | products named "Mug" and "mug" sorted by name: both lower-case to "mug", and each call answers -1 | equal keys compare as 0, so the sort is consistent and stable | not executed | Products.CompareAsWrittenInconsistent | Products.CompareConsistent |

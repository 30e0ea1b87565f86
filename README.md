# smile-admin dashboard rules, in Dafny

This project models the rules of an e-commerce admin dashboard written in React over a hosted document store and object storage. The dashboard pages cover orders, products, categories, colours, brands, promotional images and social links. There are also three in-memory REST routes.

The store is abstract. It is a map from collection name to collection, and a collection is a map from document id to a flat record of text, integer and text-list fields (`Store.Db`). The remote calls are methods of `Store.Firebase`: read a collection, add, update or delete a document, and upload a file. Each call takes its succeed/fail outcome as a parameter, and each records itself in a ghost request log, so every page method states exactly which calls it issued and in what order. The store picks the order in which `getDocs` returns documents (`Store.SnapshotOf`), so page methods hand back the snapshot they saw as a ghost result.

Modules follow the program's files:

- `Text`: trim, lower-case, includes, join.
- `Lists`: an order-preserving filter and its laws.
- `Store`: the store, the remote calls and snapshots.
- `ListPage`: the delete rule shared by the list pages.
- One module per page: `OrdersPage`, `ProductsPage`, `CategoriesPage`, `ColorsPage`, `PromoImagesPage`, `SettingsPage`, `AddColorPage`, `AddProductPage`, `AddBrandPage`, `AddPromoImagePage`, `DashboardPage`.
- `ApiRoutes`: the three route files.

Each page whose state React keeps is a class. Its fields are the `useState` variables, and its methods are the handlers.

The add-colour flow only ever sets `color` on the selected products and never clears it (`AddColorPage.AssignNeverClears`).

## Model

| member | source | states |
|---|---|---|
| OrdersPage.NewStatus | app/orders/page.tsx:51 | the toggle writes in-progress exactly when the current status is completed, and completed for every other value, free text or absent included |
| OrdersPage.ToggleTwice | app/orders/page.tsx:51 | two toggles restore either known status; from any other value they end at in-progress |
| OrdersPage.StatusBadge | app/orders/page.tsx:157-169 | the badge is completed or in-progress exactly for those two values, and unknown exactly for every other value |
| OrdersPage.ToggleAgreesWithBadge | app/orders/page.tsx:182-199 | the button leads back to in-progress exactly on a completed badge; after a toggle the badge is never unknown |
| OrdersPage.WithStatus | app/orders/page.tsx:58-62 | the list keeps its length and order; matching orders get the new status with every other field kept; other orders are unchanged |
| OrdersPage.WithStatusTwice | app/orders/page.tsx:58-62 | writing two statuses for one order leaves the second |
| OrdersPage.FilteredOrders | app/orders/page.tsx:36-41 | an order-preserving sub-list holding exactly the orders whose name, id or phone number contains the query, ignoring case, each as many times as in the list |
| OrdersPage.EmptySearchKeepsAllOrders | app/orders/page.tsx:20-23 | an empty query keeps every fetched order, since each row carries its document id |
| OrdersPage.OrdersPage.FetchOrders | app/orders/page.tsx:15-33 | a successful read replaces the list with one row per stored order; a failed one keeps the list; loading ends false |
| OrdersPage.OrdersPage.ToggleOrderStatus | app/orders/page.tsx:49-67 | issues one status update; only if it succeeded are the stored order and the local list changed |
| AddColorPage.Toggled | app/colors/add/page.tsx:85-93 | a selected id is removed, keeping the others in order with their multiplicities; an unselected id is appended at the end |
| AddColorPage.ToggleKeepsNoDup | app/colors/add/page.tsx:85-93 | a duplicate-free selection stays duplicate-free |
| AddColorPage.ToggleTwiceRestoresMembership | app/colors/add/page.tsx:85-93 | toggling one id twice restores the set of selected ids |
| AddColorPage.ToggleTwiceFromUnselected | app/colors/add/page.tsx:85-93 | from a selection without the id, toggling it twice restores the selection exactly |
| AddColorPage.CandidateProducts | app/colors/add/page.tsx:63-75 | empty when no category is chosen; otherwise exactly the fetched products of that category, in fetched order |
| AddColorPage.ColorRecord | app/colors/add/page.tsx:105-109 | the colour document has exactly name, colour code and category id, each trimmed |
| AddColorPage.ColorRecordIsTrimmed | app/colors/add/page.tsx:98-109 | a name that passed the guard is stored non-empty, and every stored text is its own trim |
| AddColorPage.SetColor | app/colors/add/page.tsx:124-126 | one product update sets `color` and keeps the product's other fields and all other products |
| AddColorPage.AssignColor | app/colors/add/page.tsx:114-127 | after the updates for a list of ids, every selected product has the new colour with its other fields kept, and every other product is unchanged |
| AddColorPage.AssignNeverClears | app/colors/add/page.tsx:114-127 | no product loses a `color` field; it keeps the old value or gets the new one |
| AddColorPage.StaleSelectionStillAssigned | app/colors/add/page.tsx:39 | a selected product gets the colour whatever its category, and keeps its category and every other field |
| AddColorPage.AssignColorTwice | app/colors/add/page.tsx:114-127 | assigning the same colour again changes nothing |
| AddColorPage.LeadingSuccesses | app/colors/add/page.tsx:114-127 | counts the updates before the first failure, where a missing product document also fails |
| AddColorPage.UpdateRequests | app/colors/add/page.tsx:114-127 | one `color` update request per selected id, in selection order |
| AddColorPage.UpdatedAll | app/colors/add/page.tsx:114-127 | applying the updates for a list of ids assigns the colour on the products collection and leaves every other collection unchanged |
| AddColorPage.UpdateNext | app/colors/add/page.tsx:114-127 | one iteration issues one update request; it succeeds exactly when its outcome is success and the product exists, and only then extends the applied updates by that product |
| AddColorPage.UpdateSelected | app/colors/add/page.tsx:114-127 | updates run in order and stop at the first failure: the products before it are written, the failed request is the last one issued, later ids get no request, and no other collection changes |
| AddColorPage.SaveColor | app/colors/add/page.tsx:105-127 | a failed colour add writes nothing; a successful one writes the colour and then the updates up to the first failure |
| AddColorPage.AddColorPage.ToggleProductSelection | app/colors/add/page.tsx:85-93 | the selection becomes its toggle; nothing else changes |
| AddColorPage.AddColorPage.SelectCategory | app/colors/add/page.tsx:61-82 | no category means no read and no candidates; otherwise the products are read and filtered; the selection is never reset |
| AddColorPage.AddColorPage.HandleSubmit | app/colors/add/page.tsx:96-137 | a blank name changes nothing; otherwise the colour is added, then the selected products are updated up to the first failure, and loading ends false |
| AddProductPage.SizesAfterAdd | app/products/add/page.tsx:56-61 | a non-blank input appends its trimmed text, duplicates included; a blank input changes nothing |
| AddProductPage.SizesAfterRemove | app/products/add/page.tsx:64-66 | drops every entry equal to the argument and keeps the rest in order |
| AddProductPage.DuplicateSizeAppended | app/products/add/page.tsx:58 | adding a listed size leaves two copies of it |
| AddProductPage.AddThenRemoveRestores | app/products/add/page.tsx:56-66 | adding an unlisted size and removing it restores the list |
| AddProductPage.AddKeepsClean | app/products/add/page.tsx:56-61 | sizes stay non-empty and trimmed after an add |
| AddProductPage.RemoveKeepsClean | app/products/add/page.tsx:64-66 | sizes stay non-empty and trimmed after a remove |
| AddProductPage.ProductRecord | app/products/add/page.tsx:93-100 | the product document has exactly name, price, discount, sizes, imageURL and categoryId, so it holds no discounted price |
| AddProductPage.AddProductPage.HandleAddSize | app/products/add/page.tsx:56-61 | the input is cleared exactly when a size was appended |
| AddProductPage.AddProductPage.HandleRemoveSize | app/products/add/page.tsx:64-66 | the sizes become the list without that size |
| AddProductPage.AddProductPage.HandleAddProduct | app/products/add/page.tsx:76-110 | a failed upload writes nothing; otherwise the record is added with `imageURL` "" when no file was chosen; loading ends false |
| ProductsPage.FilteredProducts | app/products/page.tsx:39-43 | an order-preserving sub-list holding exactly the products whose name or id contains the query, ignoring case, each as many times as in the list |
| ProductsPage.EmptySearchKeepsAllProducts | app/products/page.tsx:23-26 | an empty query keeps every fetched product |
| ProductsPage.SizesCell | app/products/page.tsx:165-167 | sizes joined by ", ", or the placeholder when sizes are absent, an empty list, an empty text or a number; a non-empty text value cannot be rendered |
| ProductsPage.SizesCellShowsEnds | app/products/page.tsx:165-167 | the cell starts with the first size and ends with the last |
| ProductsPage.ProductsPage.FetchProducts | app/products/page.tsx:18-36 | a successful read replaces the list with one row per stored product; a failed one keeps the list |
| ProductsPage.ProductsPage.HandleDelete | app/products/page.tsx:51-63 | declined: no call and no change; confirmed: one delete, and only on success the rows with that id leave the list |
| ListPage.WithoutId | app/products/page.tsx:58 | the list minus exactly the rows with that id, other rows kept in order with their multiplicities |
| ListPage.WithoutAbsentId | app/categories/page.tsx:54 | removing an id no row carries changes nothing |
| ListPage.WithoutIdIdempotent | app/promo-images/page.tsx:39 | removing the same id twice is removing it once |
| ListPage.FetchedRowMatchesEmptyQuery | app/categories/page.tsx:20-23 | a fetched row's id field matches the empty query |
| CategoriesPage.FilteredCategories | app/categories/page.tsx:36-39 | an order-preserving sub-list holding exactly the categories whose name or id contains the query, ignoring case, each as many times as in the list |
| CategoriesPage.EmptySearchKeepsAllCategories | app/categories/page.tsx:20-23 | an empty query keeps every fetched category |
| CategoriesPage.CategoriesPage.FetchCategories | app/categories/page.tsx:15-33 | a successful read replaces the list with one row per stored category; a failed one keeps the list |
| CategoriesPage.CategoriesPage.HandleDelete | app/categories/page.tsx:47-59 | declined: nothing changes; confirmed: one delete, the list shrinks only on success, and no other collection is touched |
| ColorsPage.ColorFromDoc | app/colors/page.tsx:24-28 | the name and colour code are the stored text when it is text, and "" otherwise, absent or falsy included |
| ColorsPage.FilteredColors | app/colors/page.tsx:40-44 | an order-preserving sub-list holding exactly the colours whose name or code contains the query; the id is not searched, each as many times as in the list |
| ColorsPage.EmptySearchKeepsAllColors | app/colors/page.tsx:40-44 | an empty query keeps every colour |
| ColorsPage.WithoutColor | app/colors/page.tsx:51 | the list minus exactly the colours with that id, in order |
| ColorsPage.ColorsPage.FetchColors | app/colors/page.tsx:19-38 | a successful read replaces the list with one defaulted row per stored colour |
| ColorsPage.ColorsPage.HandleDelete | app/colors/page.tsx:46-56 | declined: nothing changes; confirmed: one delete, the list shrinks only on success, and products are not touched |
| PromoImagesPage.FilteredImages | app/promo-images/page.tsx:46-49 | an order-preserving sub-list holding exactly the images whose title or id contains the query, ignoring case, each as many times as in the list |
| PromoImagesPage.EmptySearchKeepsAllImages | app/promo-images/page.tsx:19-22 | an empty query keeps every fetched image |
| PromoImagesPage.PromoImagesPage.FetchPromoImages | app/promo-images/page.tsx:14-32 | a successful read replaces the list with one row per stored image |
| PromoImagesPage.PromoImagesPage.HandleDelete | app/promo-images/page.tsx:34-44 | declined: nothing changes; confirmed: one delete, and the list shrinks only on success |
| SettingsPage.LinkFromDoc | app/settings/page.tsx:28-32 | the type and url are the stored text when it is text, and "" otherwise, absent or falsy included |
| SettingsPage.FilteredLinks | app/settings/page.tsx:45-49 | an order-preserving sub-list holding exactly the links whose type or url contains the query; the id is not searched, each as many times as in the list |
| SettingsPage.EmptySearchKeepsAllLinks | app/settings/page.tsx:45-49 | an empty query keeps every link |
| SettingsPage.WithoutLink | app/settings/page.tsx:61 | the list minus exactly the links with that id, in order |
| SettingsPage.SettingsPage.FetchLinks | app/settings/page.tsx:23-42 | a successful read replaces the list with one defaulted row per stored link |
| SettingsPage.SettingsPage.HandleDelete | app/settings/page.tsx:55-66 | declined: nothing changes; confirmed: one delete, and the list shrinks only on success |
| AddBrandPage.BrandRecord | app/brands/add/page.tsx:59-63 | the brand document has exactly name (untrimmed), imageUrl and categoryId |
| AddBrandPage.StoredBrandHasCategory | app/brands/add/page.tsx:45-48 | a stored brand always names a category |
| AddBrandPage.AddBrandPage.HandleSubmit | app/brands/add/page.tsx:43-71 | no category: no upload, no write, loading untouched; otherwise upload if chosen, add unless the upload failed, loading ends false |
| AddPromoImagePage.PromoImageRecord | app/promo-images/add/page.tsx:37-40 | the document has exactly the trimmed title and the image URL |
| AddPromoImagePage.StoredTitleIsClean | app/promo-images/add/page.tsx:24-40 | a title that passed the guard is stored non-empty and trimmed |
| AddPromoImagePage.AddPromoImagePage.HandleAddPromoImage | app/promo-images/add/page.tsx:22-50 | a blank title: no upload, no write; otherwise upload if chosen, add unless the upload failed, loading ends false |
| Store.ImageUrl | app/promo-images/add/page.tsx:30-35 | the stored URL is "" without a file, the download URL after an upload, and missing when the upload failed |
| Store.Firebase.UploadChosen | app/brands/add/page.tsx:51-57 | uploads only when a file was chosen, and yields its URL |
| DashboardPage.TotalOf | app/page.tsx:29 | a stored number is the total; a missing, falsy or non-number total counts as 0 |
| DashboardPage.Revenue | app/page.tsx:25-31 | the revenue of no orders is 0 |
| DashboardPage.RevenueAppend | app/page.tsx:25-31 | revenue is additive over concatenation |
| DashboardPage.RevenueWithoutTotals | app/page.tsx:25-31 | orders without totals give revenue 0 |
| DashboardPage.RevenuePermutation | app/page.tsx:25-31 | revenue does not depend on the order of the orders |
| DashboardPage.SnapshotRevenue | app/page.tsx:22-31 | every snapshot of one orders collection gives the same revenue |
| DashboardPage.SumTotals | app/page.tsx:25-31 | the accumulating loop computes exactly the revenue |
| DashboardPage.CountDocs | app/page.tsx:34-35 | a successful read counts exactly the collection's documents |
| DashboardPage.OrderStats | app/page.tsx:22-31 | the orders count is the collection's size and the revenue is that of the snapshot read |
| DashboardPage.DashboardPage.FetchStats | app/page.tsx:17-45 | reads stop at the first failure; counts already set stay set, later ones keep their old values; loading ends false |
| ApiRoutes.DecimalString | app/api/orders/route.ts:15 | `String(n)`: one or more decimal digits, no leading zero |
| ApiRoutes.DecimalRoundTrip | app/api/orders/route.ts:15 | reading the decimal string of n back gives n |
| ApiRoutes.DecimalInjective | app/api/orders/route.ts:15 | different numbers give different ids |
| ApiRoutes.Entry | app/api/products/route.ts:14 | the appended element is the body plus `id`, which is `String(length + 1)` unless the body has its own |
| ApiRoutes.PostKeepsCanonical | app/api/categories/route.ts:14 | a POST without a body id keeps element i's id `String(i + 1)` |
| ApiRoutes.CanonicalIdsUnique | app/api/orders/route.ts:4-7 | canonical ids are pairwise distinct |
| ApiRoutes.InitialIdsCanonical | app/api/products/route.ts:3-6 | each route starts with two elements with ids '1' and '2' |
| ApiRoutes.ClientIdCanCollide | app/api/orders/route.ts:15 | a body id equal to a later generated id gives two elements one id |
| ApiRoutes.MemoryRoute.Orders | app/api/orders/route.ts:4-7 | the orders route's initial array |
| ApiRoutes.MemoryRoute.Products | app/api/products/route.ts:3-6 | the products route's initial array |
| ApiRoutes.MemoryRoute.Categories | app/api/categories/route.ts:3-6 | the categories route's initial array |
| ApiRoutes.MemoryRoute.Get | app/api/orders/route.ts:9-11 | returns the current array and changes nothing |
| ApiRoutes.MemoryRoute.Post | app/api/categories/route.ts:12-16 | appends exactly one element, keeps the earlier ones, answers 201 |
| Store.Firebase.GetDocs | app/categories/page.tsx:19 | a successful read returns each stored document exactly once, in some order |
| Store.Firebase.UpdateDoc | app/orders/page.tsx:55 | the patch overwrites its fields; a missing document makes the update fail |
| Store.SnapshotsArePermutations | app/page.tsx:22 | two snapshots of one collection hold the same documents |
| Text.TrimStartShape | app/colors/add/page.tsx:98 | the leading part `trim` drops is all white space, and what is left is a suffix that does not start with white space |
| Text.TrimEndShape | app/colors/add/page.tsx:98 | the trailing part `trim` drops is all white space, and what is left is a prefix that does not end with white space |
| Text.BlankIffAllSpace | app/colors/add/page.tsx:98 | `!s.trim()` holds exactly when every character of s is white space |
| Text.TrimShape | app/promo-images/add/page.tsx:38 | the trimmed text is the slice of the input after its leading white space, and neither starts nor ends with white space |
| Text.TrimIdempotent | app/products/add/page.tsx:57-58 | trimming a trimmed text changes nothing |
| Text.Lower | app/orders/page.tsx:38-40 | lower-casing keeps the length and maps each character on its own |
| Text.EmptyQueryIncluded | app/orders/page.tsx:38-40 | every text includes the empty query, whatever its case |
| Text.Join | app/products/page.tsx:166 | joining no sizes gives the empty text |
| Text.JoinAppend | app/products/page.tsx:166 | joining two non-empty lists puts exactly one separator between their joins |
| Text.JoinEnds | app/products/page.tsx:166 | the joined text starts with the first item and ends with the last |
| Lists.Filter | app/products/page.tsx:58 | `filter` keeps, in order, exactly the elements the predicate accepts, each as often as in the input |
| Lists.FilterKeepsAll | app/categories/page.tsx:54 | a predicate that accepts every element keeps the list as it was |
| Lists.FilterAppend | app/colors/add/page.tsx:85-93 | filtering a concatenation is concatenating the filtered parts |
| Lists.FilterNoDup | app/colors/add/page.tsx:85-93 | filtering a list without duplicates gives a list without duplicates |
| Lists.NoDupCountsOnce | app/categories/page.tsx:19 | in a list without duplicates every element occurs at most once |
| Store.Added | app/colors/add/page.tsx:105-109 | `addDoc` creates exactly the new document and leaves the other documents and collections unchanged |
| Store.Updated | app/colors/add/page.tsx:124-126 | `updateDoc` overwrites the patch's fields, keeps the document's other fields and the other documents, and changes nothing for a missing document |
| Store.Deleted | app/categories/page.tsx:52 | `deleteDoc` removes exactly that document and keeps the others |
| Store.WithIdDefault | app/categories/page.tsx:20-23 | the row has the document's fields plus `id`, and a stored `id` field wins over the document id |
| Store.Rows | app/categories/page.tsx:20-23 | one row per fetched document, in snapshot order |
| Store.TextOr | app/colors/add/page.tsx:74 | the stored text of the field when it is text, and "" otherwise, absent or falsy included |
| Store.SnapshotOf | app/categories/page.tsx:19 | a snapshot lists every document of the collection once, with its stored fields |
| Store.SnapshotCount | app/page.tsx:22 | a snapshot holds each stored document exactly once and nothing else |
| Store.Firebase.AddDoc | app/colors/add/page.tsx:105-110 | a successful add creates the document under the fresh id and returns that id; a failed one writes nothing |
| Store.Firebase.DeleteDoc | app/products/page.tsx:56 | a successful delete removes the document; a failed one changes nothing |
| Store.Firebase.Upload | app/promo-images/add/page.tsx:33-34 | one upload request, yielding the download URL or failing |
| Text.Trim | app/colors/add/page.tsx:106-108 | `s.trim()`: drops leading then trailing white space; its shape is stated by TrimShape, TrimIdempotent and the two shape lemmas |
| Text.IsBlank | app/colors/add/page.tsx:98 | `!s.trim()`: the trimmed text is empty; BlankIffAllSpace proves this is every character being white space |
| Text.Includes | app/orders/page.tsx:38-40 | `includes`: the query occurs at some position of the text |
| Text.IncludesIgnoringCase | app/orders/page.tsx:38-40 | the lower-cased query occurs in the lower-cased text; EmptyQueryIncluded shows the empty query always matches |
| OrdersPage.OrderMatches | app/orders/page.tsx:37-40 | the filter callback: name, id or phone number contains the query, ignoring case, an absent field not matching |
| ProductsPage.ProductMatches | app/products/page.tsx:40-42 | the filter callback: name or id contains the query, ignoring case |
| CategoriesPage.CategoryMatches | app/categories/page.tsx:36-38 | the filter callback: name or id contains the query, ignoring case |
| PromoImagesPage.ImageMatches | app/promo-images/page.tsx:46-48 | the filter callback: title or id contains the query, ignoring case |
| ColorsPage.ColorMatches | app/colors/page.tsx:40-44 | the filter callback: name or colour code contains the query, ignoring case |
| SettingsPage.LinkMatches | app/settings/page.tsx:45-49 | the filter callback: type or url contains the query, ignoring case |
| ColorsPage.ColorsFromDocs | app/colors/page.tsx:24-28 | one defaulted colour row per fetched document, in snapshot order |
| SettingsPage.LinksFromDocs | app/settings/page.tsx:28-32 | one defaulted link row per fetched document, in snapshot order |
| AddColorPage.InCategory | app/colors/add/page.tsx:71 | the product's stored `categoryId` is exactly the chosen category |
| AddColorPage.Choice | app/colors/add/page.tsx:72-75 | the checkbox keeps the document id and the stored name when it is text, "" otherwise |
| AddColorPage.Choices | app/colors/add/page.tsx:72-75 | one checkbox per document, in snapshot order |
| Store.Truthy | app/colors/page.tsx:26-27 | JavaScript truthiness: an absent field, "" and 0 are falsy, every other value truthy |
| Store.Row | app/categories/page.tsx:20-23 | the row holds the document's fields plus `id`, which is the document id unless the document stores its own |
| Store.HasId | app/products/page.tsx:58 | the row's `id` field is the given id |
| Store.FieldIncludes | app/orders/page.tsx:38-40 | `key?.toLowerCase().includes(...)`: the field is text containing the query, ignoring case; an absent field does not match |
| ApiRoutes.InitialOrders | app/api/orders/route.ts:4-7 | the two initial orders with their customers and totals |
| ApiRoutes.InitialProducts | app/api/products/route.ts:3-6 | the two initial products with their names and prices |
| ApiRoutes.InitialCategories | app/api/categories/route.ts:3-6 | the two initial categories with their names |
| OrdersPage.OrdersPage.Shown | app/orders/page.tsx:137 | the table lists exactly the matching orders, in list order, each as many times as it occurs in the list |
| ProductsPage.ProductsPage.Shown | app/products/page.tsx:137 | the table lists exactly the matching products, in list order, each as many times as it occurs in the list |
| CategoriesPage.CategoriesPage.Shown | app/categories/page.tsx:113 | the table lists exactly the matching categories, in list order, each as many times as it occurs in the list |
| PromoImagesPage.PromoImagesPage.Shown | app/promo-images/page.tsx:98 | the table lists exactly the matching images, in list order, each as many times as it occurs in the list |
| ColorsPage.ColorsPage.Shown | app/colors/page.tsx:115 | the table lists exactly the matching colours, in list order, each as many times as it occurs in the list, and every colour while the search is empty |
| SettingsPage.SettingsPage.Shown | app/settings/page.tsx:123 | the table lists exactly the matching links, in list order, each as many times as it occurs in the list, and every link while the search is empty |

## Left out

- Firebase itself (`services/firebase.ts`, `getDocs`, `addDoc`, `updateDoc`, `deleteDoc`, `uploadBytes`, `getDownloadURL`) is not part of this model. Each call is a method over the abstract store whose outcome is a parameter. The id `addDoc` generates is a parameter that must be fresh.
- Authentication, route protection, login and the layout components belong to the identity provider and the view layer.
- Alerts, `console.error`, `router.push` navigation, `window.print` and the JSX markup are view effects.
- The category fetches on the add-colour, add-product and add-brand forms only fill a drop-down.
- The thin add pages for categories and social links only forward form values to `addDoc`.
- The category rename flow and any colour un-assignment have no code in the files modelled.
- The busy flag's effect of disabling the submit button, React rendering and hook scheduling are not modelled. In particular, the model does not capture two category effects racing each other.
- Storage paths built from `Date.now()` are not modelled; only the upload's outcome matters.
- `request.json()` and the `NextResponse` serialisation are not modelled; a POST body is modelled as a JSON object.
- Floating-point arithmetic is out of scope: prices, discounts and totals are integers. The discounted price at app/products/add/page.tsx:82 is computed and never used, so it is not modelled.
- Text.Lower: folds only the ASCII capitals A–Z. JavaScript's `toLowerCase` covers all of Unicode.
- Text.Trim: strips a fixed set of white-space characters: ASCII white space, the line terminators and the Unicode space separators.
- OrdersPage.FilteredOrders: a searched field holding a non-text value is treated as not matching. The page would throw there.
- ProductsPage.FilteredProducts: an absent or non-text name or id is treated as not matching. The page would throw there.
- CategoriesPage.FilteredCategories: an absent or non-text name or id is treated as not matching. The page would throw there.
- PromoImagesPage.FilteredImages: an absent or non-text title or id is treated as not matching. The page would throw there.
- Store.Value: a stored field is text, an integer or a list of texts. Booleans, `null`, nested objects and arrays of objects cannot be represented, so an order's `cartItems` (an array of objects, app/orders/[id]/page.tsx:87) is outside the model, and `Store.Truthy` and the field defaults only cover the three kinds modelled.
- DashboardPage.TotalOf: any truthy non-number total counts as 0, and booleans, `null` and objects cannot be stored at all. In the source `+=` behaves differently for each: a non-empty text or an object turns the revenue into string concatenation, `true` adds 1, and `null` adds 0 through `|| 0`.
- Store.TextOr: a truthy field that is not text (a non-zero number or a list) gives "". The source's `|| ""` keeps that value as it is.
- ColorsPage.ColorFromDoc: a truthy non-text name or colour code gives "", where the source keeps the stored value.
- SettingsPage.LinkFromDoc: a truthy non-text type or url gives "", where the source keeps the stored value.
- AddColorPage.Choice: a truthy non-text name gives "", where the source keeps the stored value.
- ApiRoutes.MemoryRoute.Post: a body that is not a JSON object is not modelled. Spreading such a body in the source gives other results.

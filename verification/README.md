# Store admin: query composition, product form and admin page decisions

A Dafny model of the logic in the store's admin front-end. The front-end reads
and writes a hosted database; the model keeps only the parts that decide
something. Everything is a pure function over immutable datatypes.

- **Data hook** (`src/hooks/useEnhancedSupabaseData.ts`). `fetchData` turns a
  table name plus filter, sort and limit options into a query. The model
  represents that query as data (`Query.QueryDesc`): the table, the chained
  filter predicates, the chained order clauses and an optional limit. It also
  models the state update when a fetch settles, the preset hooks
  (`useProducts`, `useCategories`, `useBrands`, `useGenderCategories`,
  `useOrders`) and the query `searchProducts` sends. A separate *reference
  evaluator* (`Query.Matching`) stands in for the database. It treats the
  chained predicates as a conjunction and `ilike` as an ASCII case-insensitive
  substring test. It is used only to state what a query selects.
- **Product form** (`src/components/admin/EnhancedProductForm.tsx`). This part
  covers:
  - the initial form values, built with `||` and `??`;
  - the slug generator `name.toLowerCase().replace(/[^a-z0-9]+/g,'-').replace(/(^-|-$)/g,'')`, over ASCII;
  - the slug effect, which runs only while creating;
  - the image and tag list edits;
  - the cleanup done on submit.
- **Admin page** (`src/pages/EnhancedAdminPage.tsx`). This part covers:
  - the demo login and logout;
  - the products tab's query, its create-or-update dispatch and its delete-after-confirm;
  - the stock, status and active badges;
  - the image placeholders.

JavaScript semantics are written out in `JsValues`:
- truthiness of `||`, and the difference from `??`;
- `Array.isArray` on loosely typed fields (`JsList`);
- `String.prototype.trim`, with the full ECMAScript white-space set;
- ASCII `toLowerCase`.

Modules: `JsValues`, `Query`, `DataHook`, `Slug`, `ProductForm`, `AdminPage`,
one per file.

Some behaviours of the code that are easy to misread, all modelled as written:
- **Price range.** Every filter key adds at most one predicate except a price
  range, which adds two (`gte` and `lte`).
- **Catalog status.** On the catalog tables the status key is tested with
  `!== undefined`. Any defined status other than `"active"`, including `""`,
  therefore selects *inactive* rows.
- **Default ordering.** Without a sort option, products are ordered
  `featured desc, created_at desc`, and every other table, orders and gender
  categories included, gets `sort_order asc, name asc`.
- **`searchProducts`.** It builds its own query rather than calling
  `fetchData`. It ignores the filter's `status` and `search` keys, always adds
  `status = 'active'` and, for a non-empty term, a three-way pattern search.
  It translates the category, brand, gender, price and featured keys the way
  `fetchData` does.
- **`useOrders`.** The `customer` key it passes is never read by the filter
  translation.
- **Catalog presets.** `useCategories`, `useBrands` and `useGenderCategories`
  default `activeOnly` to `true`, so a call without an argument (as the form
  and the admin page make) asks for active rows only.

## Model

| member | source | states |
|---|---|---|
| JsValues.TrimStart | src/components/admin/EnhancedProductForm.tsx:73 | the result is a suffix of the input, starts with a non-space, and everything dropped is ECMAScript white space |
| JsValues.TrimEnd | src/components/admin/EnhancedProductForm.tsx:76 | the result is a prefix of the input, ends with a non-space, and everything dropped is white space |
| JsValues.BlankIffAllSpace | src/components/admin/EnhancedProductForm.tsx:73 | `s.trim() === ''` holds exactly when every character of `s` is white space |
| JsValues.BlankIffTrimEmpty | src/components/admin/EnhancedProductForm.tsx:73 | the blankness test used throughout holds exactly when `s.trim()` is the empty string |
| JsValues.TrimIdempotent | src/components/admin/EnhancedProductForm.tsx:114 | trimming a trimmed string changes nothing |
| JsValues.TrimEnds | src/components/admin/EnhancedProductForm.tsx:114 | a trimmed string has white space at neither end |
| JsValues.LowerChar | src/components/admin/EnhancedProductForm.tsx:59 | an ASCII capital becomes the letter 32 code points later; every other character is unchanged |
| JsValues.LowerAscii | src/components/admin/EnhancedProductForm.tsx:59 | lower-casing keeps the length and maps exactly `A`–`Z` to `a`–`z` |
| DataHook.ComposeQuery | src/hooks/useEnhancedSupabaseData.ts:42-100 | no filter, or a table other than products and the catalogs, gives no predicates; an explicit sort gives one clause whose direction is ascending unless `ascending` is `false`; otherwise the products default is featured desc then created_at desc and every other table's is sort_order asc then name asc; a limit is emitted exactly when truthy |
| DataHook.ProductsQueryHonoursFilter | src/hooks/useEnhancedSupabaseData.ts:48-70 | on products each truthy string key adds its equality, `featured` adds one whenever defined (even `false`), a price range adds the inclusive pair unchecked, search adds one name-or-description disjunction; an unset key constrains nothing and the predicate count equals the set keys (price counting two) |
| DataHook.ProductPredicatesHonoured | src/hooks/useEnhancedSupabaseData.ts:48-70 | the concatenated per-key parts honour the filter in the sense above |
| DataHook.ProductFilterChains | src/hooks/useEnhancedSupabaseData.ts:48-70 | chaining the seven `if` steps appends the keys' parts in source order |
| DataHook.ProductPredicatesContents | src/hooks/useEnhancedSupabaseData.ts:48-70 | every set key's predicate occurs in the products predicates and their number is the number of set keys, the price range counting two |
| DataHook.CatalogQueryHonoursFilter | src/hooks/useEnhancedSupabaseData.ts:73-80 | on categories, brands and gender categories a defined status adds `active = (status == "active")`, a truthy search adds the disjunction, and no other key adds anything |
| DataHook.LimitLeavesFilterAndOrder | src/hooks/useEnhancedSupabaseData.ts:97-100 | changing the limit changes neither the predicates nor the order clauses |
| DataHook.LimitNeverChangesTotal | src/hooks/useEnhancedSupabaseData.ts:97-106 | under the reference evaluator the exact count is independent of the limit |
| DataHook.ProductSearchSelects | src/hooks/useEnhancedSupabaseData.ts:68-70 | with only a search term, a row is selected exactly when its name or its description contains the term, ignoring case |
| DataHook.BeginFetch | src/hooks/useEnhancedSupabaseData.ts:41 | starting a fetch sets loading and keeps the previous data, total and error |
| DataHook.SettleFetch | src/hooks/useEnhancedSupabaseData.ts:102-114 | after settling loading is false; on success error is null, data is the rows (or `[]`) and total the count (or 0); on a returned or thrown error data is `[]`, total 0, and the error the message (`An error occurred` for a non-Error) |
| DataHook.SettledIsConsistent | src/hooks/useEnhancedSupabaseData.ts:102-114 | a settled state with an error has no rows and a zero total |
| DataHook.SettleForgetsPrior | src/hooks/useEnhancedSupabaseData.ts:102-114 | the settled state does not depend on the state before the fetch |
| DataHook.UseProducts | src/hooks/useEnhancedSupabaseData.ts:189-196 | the caller's filter, sort and limit on the products table with realtime on |
| DataHook.ActiveOnlyQuery | src/hooks/useEnhancedSupabaseData.ts:198-217 | a catalog preset's query is `active = true` when active-only and unfiltered otherwise, with the default catalog order and no limit |
| DataHook.UseCategories | src/hooks/useEnhancedSupabaseData.ts:198-203 | categories with `active = true` unless `activeOnly` is explicitly `false` (an omitted argument defaults to `true`), default catalog ordering, realtime on |
| DataHook.UseBrands | src/hooks/useEnhancedSupabaseData.ts:205-210 | brands with `active = true` unless `activeOnly` is explicitly `false` (an omitted argument defaults to `true`), default catalog ordering, realtime on |
| DataHook.UseGenderCategories | src/hooks/useEnhancedSupabaseData.ts:212-217 | gender categories with `active = true` unless `activeOnly` is explicitly `false` (an omitted argument defaults to `true`), default catalog ordering, realtime on |
| DataHook.CatalogPresetsDefaultToActiveOnly | src/hooks/useEnhancedSupabaseData.ts:198-217 | calling a catalog preset with no argument is the same call as passing `true`, and differs from passing `false` |
| DataHook.ActiveOnlyNarrows | src/hooks/useEnhancedSupabaseData.ts:198-217 | under the reference evaluator the active-only preset returns a subset of the unrestricted one |
| DataHook.UseOrders | src/hooks/useEnhancedSupabaseData.ts:219-225 | the orders query has no predicate whatever the customer id, one order clause created_at desc, and no limit |
| DataHook.SearchChainParts | src/hooks/useEnhancedSupabaseData.ts:228-268 | `searchProducts` chains status active, the optional three-way disjunction, then the category, brand, gender, price and featured parts, ordered featured desc then created_at desc |
| DataHook.SearchProducts | src/hooks/useEnhancedSupabaseData.ts:228-268 | the first predicate is always `status = 'active'`, the second is the name/description/ingredients disjunction exactly when the term is non-empty, an empty term adds no pattern search, the order is fixed and there is no limit |
| DataHook.SearchWithoutFilters | src/hooks/useEnhancedSupabaseData.ts:228-264 | calling `searchProducts` without filters sends the same query as with an empty filter object |
| DataHook.SearchAgreesWithHook | src/hooks/useEnhancedSupabaseData.ts:244-264 | after its fixed prefix `searchProducts` adds exactly the predicates the generic hook adds for the same filter with status and search removed |
| Slug.SkipSeparators | src/components/admin/EnhancedProductForm.tsx:60 | the rest after the leading separator run is no longer than the input, strictly shorter when the input starts with a separator, and starts with `[a-z0-9]` when non-empty |
| Slug.SkipIsSuffix | src/components/admin/EnhancedProductForm.tsx:60 | what remains after the leading separator run is a suffix of the input |
| Slug.SkipDropsSeparators | src/components/admin/EnhancedProductForm.tsx:60 | every character dropped with the leading separator run lies outside `[a-z0-9]` |
| Slug.SkipKeepsAlnums | src/components/admin/EnhancedProductForm.tsx:60 | dropping the leading separator run loses no alphanumeric |
| Slug.LeadingWordIsRun | src/components/admin/EnhancedProductForm.tsx:60 | the leading word is the maximal `[a-z0-9]` prefix: a prefix, all alphanumeric, followed by a separator or the end |
| Slug.CollapseIsDashed | src/components/admin/EnhancedProductForm.tsx:60 | the collapse holds only `[a-z0-9-]` with no "--", and keeps a leading alphanumeric first |
| Slug.CollapseKeepsAlnums | src/components/admin/EnhancedProductForm.tsx:60 | the collapse keeps every alphanumeric, in order |
| Slug.StripDashed | src/components/admin/EnhancedProductForm.tsx:61 | removing one edge dash at each end of a dashed string gives a slug with the same alphanumerics |
| Slug.MakeSlug | src/components/admin/EnhancedProductForm.tsx:58-61 | the slug has only `[a-z0-9-]`, no "--", no dash at either end, exactly the lower-cased name's ASCII alphanumerics in order, and is empty exactly when the name has none |
| Slug.CollapseFixesDashed | src/components/admin/EnhancedProductForm.tsx:60 | a string already made of `[a-z0-9-]` without "--" is left unchanged by the collapse |
| Slug.SlugFixesSlug | src/components/admin/EnhancedProductForm.tsx:58-61 | a well-formed slug is its own slug |
| Slug.SlugIdempotent | src/components/admin/EnhancedProductForm.tsx:58-61 | slug(slug(name)) == slug(name) |
| Slug.WordsAreWords | src/components/admin/EnhancedProductForm.tsx:60 | every element of the reference word split is a non-empty run of `[a-z0-9]` |
| Slug.CollapseFromWord | src/components/admin/EnhancedProductForm.tsx:60 | the collapse of a string starting with a word is its words joined by '-', plus one '-' when it ends in a separator |
| Slug.SlugIsJoinedWords | src/components/admin/EnhancedProductForm.tsx:58-61 | the slug is the lower-cased name's maximal `[a-z0-9]` runs joined by single dashes |
| ProductForm.InitialForm | src/components/admin/EnhancedProductForm.tsx:25-53 | every one of the 27 fields: a new product gets empty texts, null brand and category ids, null compare price, cost price and weight, price and stock 0, gender Unisex, status active, threshold 5, track inventory on, backorder and featured off, images `[""]`, tags `[]`, sort order 0; an edited product keeps each value except that `||` turns a null text into `""`, an empty brand or category id into null, an empty or null gender into Unisex, a zero threshold into 5, an empty status into active, a zero compare price, cost price or weight into null and a falsy images value into `[""]`, null tags become `[]`, and `??` keeps `track_inventory`/`allow_backorder` false |
| ProductForm.FalsyRowLoadsAsNew | src/components/admin/EnhancedProductForm.tsx:25-53 | an all-falsy product loads as the new-product form except `track_inventory`, which `??` keeps false |
| ProductForm.SlugEffect | src/components/admin/EnhancedProductForm.tsx:56-64 | while creating with a non-empty name only the slug changes, to a well-formed slug of the name; while editing or with an empty name nothing changes |
| ProductForm.SlugEffectWritesJoinedWords | src/components/admin/EnhancedProductForm.tsx:56-64 | the slug written is the name's words joined by dashes, and re-running the effect changes nothing |
| ProductForm.RemoveAt | src/components/admin/EnhancedProductForm.tsx:98 | filtering out index i deletes exactly that entry; an index outside the list deletes nothing |
| ProductForm.ReplaceAt | src/components/admin/EnhancedProductForm.tsx:107 | mapping index i to a value keeps the length and changes exactly entry i; outside the list nothing changes |
| ProductForm.AddImageField | src/components/admin/EnhancedProductForm.tsx:87-92 | exactly one `""` is appended after the unchanged existing entries (none for a non-array); nothing else changes |
| ProductForm.RemoveImageField | src/components/admin/EnhancedProductForm.tsx:94-101 | exactly entry i is removed, an out-of-range i leaves the images as they are, a non-array becomes `[]` |
| ProductForm.UpdateImageField | src/components/admin/EnhancedProductForm.tsx:103-110 | the length is kept and only entry i becomes the value; a non-array becomes `[value]` |
| ProductForm.AddTag | src/components/admin/EnhancedProductForm.tsx:112-122 | a non-blank input is appended trimmed and the box cleared; a blank or missing input changes nothing |
| ProductForm.RemoveTag | src/components/admin/EnhancedProductForm.tsx:124-131 | exactly tag i is removed, an out-of-range i leaves the tags as they are, a non-array becomes `[]` |
| ProductForm.KeepNonBlank | src/components/admin/EnhancedProductForm.tsx:73 | only entries whose trim is non-empty survive |
| ProductForm.KeepNonBlankAppend | src/components/admin/EnhancedProductForm.tsx:73 | filtering distributes over concatenation, so the survivors keep their order |
| ProductForm.KeepNonBlankCounts | src/components/admin/EnhancedProductForm.tsx:73 | every non-blank entry survives as often as it occurs and no blank one does |
| ProductForm.KeepNonBlankKeepsClean | src/components/admin/EnhancedProductForm.tsx:73 | a list without blank entries is kept whole |
| ProductForm.CleanList | src/components/admin/EnhancedProductForm.tsx:72-77 | the cleaned field is an array of exactly the non-blank entries of an array, and empty for anything else |
| ProductForm.CleanForSubmit | src/components/admin/EnhancedProductForm.tsx:70-78 | only images and tags change; both become arrays of exactly their non-blank entries, counted with multiplicity |
| ProductForm.CleanIdempotent | src/components/admin/EnhancedProductForm.tsx:70-78 | cleaning twice is cleaning once |
| ProductForm.AddedImageFieldIsDropped | src/components/admin/EnhancedProductForm.tsx:70-92 | an added image field left empty is not submitted |
| ProductForm.BlankReplaceFiltersLikeRemove | src/components/admin/EnhancedProductForm.tsx:73-107 | overwriting an entry with a blank string filters the same as deleting it |
| ProductForm.BlankedImageIsRemoved | src/components/admin/EnhancedProductForm.tsx:70-110 | blanking image i submits the same images as removing image i |
| ProductForm.AddedTagIsSubmitted | src/components/admin/EnhancedProductForm.tsx:70-122 | an accepted tag is submitted, trimmed, after the surviving earlier tags |
| AdminPage.HandleLogin | src/pages/EnhancedAdminPage.tsx:45-58 | signed in exactly for the pair admin / jowhara2024 (or if already signed in); the alert shows exactly for any other pair; the typed fields are kept and loading ends false |
| AdminPage.HandleLogout | src/pages/EnhancedAdminPage.tsx:60-63 | signed out with both fields emptied |
| AdminPage.LoginOnlyWithCredentials | src/pages/EnhancedAdminPage.tsx:52-57 | from the signed-out page a login succeeds exactly for the demo pair |
| AdminPage.LoginAfterLogoutFails | src/pages/EnhancedAdminPage.tsx:45-63 | after a logout, `handleLogin` run on the emptied fields stays signed out and alerts |
| AdminPage.ProductsTabQuery | src/pages/EnhancedAdminPage.tsx:226-231 | the tab queries products, ordered featured desc then created_at desc, without a limit |
| AdminPage.ProductsTabQueryFilters | src/pages/EnhancedAdminPage.tsx:226-231 | each of the tab's selections adds its predicate exactly when non-empty, and nothing else is constrained |
| AdminPage.OpenNewProduct | src/pages/EnhancedAdminPage.tsx:264 | "Add Product" opens the form and leaves the editing target as it was |
| AdminPage.HandleEdit | src/pages/EnhancedAdminPage.tsx:243-246 | the form opens on the chosen product |
| AdminPage.CloseForm | src/pages/EnhancedAdminPage.tsx:419-425 | the form closes and the editing target is cleared |
| AdminPage.SubmitCall | src/pages/EnhancedAdminPage.tsx:233-238 | update of the edited product's id exactly when a product is being edited, insert otherwise, carrying the submitted data |
| AdminPage.HandleSubmit | src/pages/EnhancedAdminPage.tsx:233-241 | on success the form closes and the target is cleared; on rejection the tab is unchanged and the error escapes |
| AdminPage.HandleDelete | src/pages/EnhancedAdminPage.tsx:248-252 | `remove(id)` is issued exactly when the confirmation is accepted |
| AdminPage.DeleteIsNeverASave | src/pages/EnhancedAdminPage.tsx:233-252 | a delete never issues the write a save would: a confirmed delete is neither an insert nor an update and so carries no form data |
| AdminPage.SubmitProductForm | src/components/admin/EnhancedProductForm.tsx:66-85 | the cleaned form is sent; on success the tab closes; a rejection is caught, nothing escapes and the tab is unchanged |
| AdminPage.EditThenSaveUpdatesSameProduct | src/pages/EnhancedAdminPage.tsx:233-246 | editing a product and saving unchanged updates that product's id with its loaded, cleaned values, and resubmitting cleaned data sends the same write |
| AdminPage.RejectedSaveRetriesSameWrite | src/pages/EnhancedAdminPage.tsx:233-241 | after a rejected save the tab is unchanged, so a retry issues the same write |
| AdminPage.StockBadge | src/pages/EnhancedAdminPage.tsx:377-379 | green exactly above the threshold, yellow exactly when not green with some stock, red otherwise, never gray |
| AdminPage.StockBadgeMonotone | src/pages/EnhancedAdminPage.tsx:377-379 | more stock never gives a worse badge; with a negative threshold an empty shelf is green |
| AdminPage.StatusBadge | src/pages/EnhancedAdminPage.tsx:385-389 | green exactly for "active", red exactly for "inactive", gray for every other status |
| AdminPage.ActiveBadge | src/pages/EnhancedAdminPage.tsx:460-462 | green exactly for an active card, red otherwise |
| AdminPage.NewProductBadges | src/pages/EnhancedAdminPage.tsx:377-389 | the new-product defaults show a green status badge and a red stock badge |
| AdminPage.ProductThumbnail | src/pages/EnhancedAdminPage.tsx:355 | the first image of a non-empty images array, the placeholder otherwise |
| AdminPage.ImageOrPlaceholder | src/pages/EnhancedAdminPage.tsx:458 | a missing or empty image falls back to the placeholder, so the source is never empty |
| AdminPage.CleanedImagesGiveNonBlankThumbnail | src/pages/EnhancedAdminPage.tsx:355 | images that went through the form's cleanup never give a blank thumbnail, while the uncleaned default `[""]` gives the empty source |

## Left out

- The realtime channel (subscribe, unsubscribe, re-fetch on change) and overlapping asynchronous fetches: effects and concurrency.
- The `insert`, `update` and `remove` pass-throughs of the hook, and `refetch`: these forward to the database. Only the write the page issues is modelled (`AdminPage.StoreCall`).
- `getProductDetails`, `createOrder` and `updateInventory`: a join select and server-side procedures whose logic is not in the front-end.
- Query execution. The join selects of `searchProducts`, the `count: 'exact'` option, the `%`/`_` wildcards and PostgREST string syntax inside a search term, and the ordering of real rows are the database's. Search predicates are structured patterns, not the interpolated `.or(...)` string. The reference evaluator only approximates the database.
- `searchProducts` result handling (`data || []`, rethrow on error): a thin wrapper around the database call.
- DataHook.ComposeQuery: tables are plain strings; the `keyof Tables` typing is not modelled.
- Unicode `toLowerCase`: only ASCII letters are lowered, and every non-ASCII character counts as a separator. JavaScript lowers a few non-ASCII characters into ASCII letters (the Kelvin sign becomes `k`), and the model does not.
- Floating-point prices, `NaN` and the `toLocaleString` rendering: every number is a whole number.
- Non-string entries inside an `images` or `tags` array: entries are strings.
- The `dimensions` column of a product row.
- React state and effects, JSX, CSS classes, icons, the one-second login delay, `alert`, `confirm` (a boolean input) and `console.error`.
- The `required` attribute of the login inputs: the browser's own form validation, which keeps an empty form from reaching `handleLogin`, is not modelled; `AdminPage.HandleLogin` is stated for any field values.
- AdminPage.HandleLogin: the intermediate `loading = true` state before the delay is not modelled; the model gives the state after the attempt ends.
- ProductForm.AddTag: DOM access is replaced by the text-box value as an input (missing when the element is not found).
- The per-field setters of the form inputs (`setFormData(prev => ({ ...prev, field }))`): they copy one value.
- The tab switcher and the categories, brands, gender and orders tab listings beyond their badges and image fallbacks.
- src/lib/supabase.ts beyond the product row shape, and src/data/supabaseData.ts: no behaviour to model.

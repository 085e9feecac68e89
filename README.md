# med-pride storefront: a Dafny model of its view logic

The med-pride storefront is a Next.js shop for medical equipment. Its
logic is not in a back end. It sits in small list, string and
state-update routines spread through the view components. This project
models those routines in Dafny and proves properties of them. The
routines modelled are:

- the page-number strip of the pager;
- paging the product grid nine at a time;
- reading the products route (slug normalisation, page kind, initial
  filter, titles);
- the filter panels, and the filtered-products query they lead to;
- the catalog's search and filter predicate;
- the blog search and its excerpts;
- the search popup;
- the product detail page (specification table, breadcrumbs, JSON-LD
  record);
- the brand card's ten-word excerpt;
- the testimonial carousel;
- the quote form's validation rules;
- the globe's colour parser and arc-point list.

Network and content-backend fetches are function parameters that
return `Option<T>`, with `None` standing for an awaited call that
throws. `JSON.parse` is a parameter too (`string -> Option<Json>`).
The e-mail format test and the current time are parameters of the
quote-form validator. JavaScript built-ins are written out where their
edge cases matter:

- `String.prototype.replace` with `$` patterns in the replacement;
- `split` and `join`;
- `trim` with ECMAScript white space;
- `slice` with negative and out-of-range bounds;
- `%`, which truncates and gives `NaN` on zero;
- `typeof null === 'object'`;
- `flatMap` of `undefined`, and `join` of `undefined`.

One module per source file:

| module | file | source |
|---|---|---|
| `Wrappers` | wrappers.dfy | `Option` with `GetOr` (JavaScript's `x \|\| default` on an optional value) |
| `Lists` | lists.dfy | `filter`, `findIndex`, `slice`, de-duplication (`[...new Set(xs)]`, `filter((v, i, a) => a.findIndex(...) === i)`) |
| `JsStrings` | jsstrings.dfy | case mapping, `includes`, `indexOf`, `replace`, `split`, `join`, `trim` |
| `Cms` | cms.dfy | the content documents (products, rich-text blocks, images, variations) |
| `Filters` | filters.dfy | `FilterState` and the checkbox toggle shared by both filter panels |
| `Pagination` | pagination.dfy | src/components/common/Pagination.tsx |
| `ProductsView` | products_page.dfy | src/views/products/products-page.tsx |
| `ProductApi` | product_api.dfy | src/api/Products/product.api.ts, with the template of src/api/GROQ/Queries.ts |
| `ProductFilterPanel` | product_filter.dfy | src/components/atom/ProductFilter.tsx |
| `SideFilterPanel` | side_filter.dfy | src/views/products/components/SideFilter.tsx |
| `Catalog` | catalog_page.dfy | src/views/catalog/catalog-page.tsx |
| `BlogView` | blog_page.dfy | src/views/blog/blog-page.tsx |
| `ProductDetailView` | product_detail.dfy | src/views/products/components/ProductDetail.tsx |
| `ProductDetailPageView` | product_detail_page.dfy | src/views/products/ProductDetailPage.tsx |
| `BrandCardView` | brand_card.dfy | src/views/brands/components/brandCard.tsx |
| `TestimonialsCarousel` | testimonials.dfy | src/components/ui/animated-testomonials.tsx |
| `SearchPopupView` | search_popup.dfy | src/components/common/SearchPopup.tsx |
| `QuoteFormRules` | quote_form.dfy | src/components/forms/QuoteForm.tsx |
| `Globe` | globe.dfy | src/components/ui/globe.tsx |

The model follows each file's form:

- Components that hold state are classes. Their fields are the
  component's `useState` variables, and each handler is a method with
  a `modifies` clause that states the whole new state.
- Routines that build a list by pushing are methods with loops or
  successive appends: `getPageNumbers`, the breadcrumb trail and the
  globe's points.
- Everything else is a function with its properties proved as lemmas.

Behaviour of the code worth noting:

- `handleFilterChange` on the products page does not reset the page
  number (see Findings).
- The products page's search handler only logs the query. No local
  search, caching or threshold exists in the code.
- `SideFilter` takes no initial filters. The department a category
  page computes is handed to it but never used, so the panel's first
  apply sends an empty department list (`SideFilterPanel.EmittedDepartmentsAreEmpty`).
- The page count of an empty product list is `Math.ceil(0 / 9) == 0`,
  not at least 1. The pager is then not rendered.

## Model

| member | source | states |
|---|---|---|
| Pagination.RawPageNumbers | src/components/common/Pagination.tsx:18-38 | the entries `getPageNumbers` pushes: its lemma RawPageNumbersShape states they are pages only, start at 1, strictly increase, lie in range, number at most five, and end with `totalPages` |
| Pagination.PageNumbers | src/components/common/Pagination.tsx:18-42 | the strip after `[...new Set(pages)]`: PageNumbersIsRaw states that it equals the pushed entries, and PageNumbersInRange and ExactlyOneActive give its range and its single highlighted entry |
| Pagination.GetPageNumbers | src/components/common/Pagination.tsx:18-42 | the loop returns the strip `PageNumbers` (pushed entries, duplicates removed). It begins with page 1, holds page numbers only (no ellipsis), strictly increases, ends with `totalPages` when `totalPages > 1`, and is exactly `[1]` when `totalPages <= 1` |
| Pagination.RawPageNumbersShape | src/components/common/Pagination.tsx:22-38 | the pushed entries never include an ellipsis (`i == 2` needs `currentPage <= 3`, `i == totalPages - 1` needs `currentPage >= totalPages - 2`). They start at 1, strictly increase, lie in `[1, max(1, totalPages)]`, number at most five, and end with `totalPages` |
| Pagination.PageNumbersShape | src/components/common/Pagination.tsx:18-42 | the same first/last/increasing facts for the strip returned after de-duplication |
| Pagination.PageNumbersIsRaw | src/components/common/Pagination.tsx:40-41 | the `Set` de-duplication removes nothing: the strip equals the pushed entries |
| Pagination.PageNumbersInRange | src/components/common/Pagination.tsx:22-38 | for `1 <= currentPage <= totalPages`: every entry is a page in `[1, totalPages]`, the current page is present, and there are at most five entries |
| Pagination.CurrentPageIndex | src/components/common/Pagination.tsx:22-38 | gives the position of the current page among the pushed entries |
| Pagination.ExactlyOneActive | src/components/common/Pagination.tsx:78 | for a valid current page, exactly one entry of the strip is highlighted |
| Pagination.UniqueIndex | src/components/common/Pagination.tsx:66-78 | a strictly increasing strip holds each page once, so two highlighted positions are the same position |
| Pagination.NavigationStaysInRange | src/components/common/Pagination.tsx:51-101 | from a valid page, Previous asks for `currentPage - 1` and Next for `currentPage + 1`, both in `[1, totalPages]`. Previous asks nothing exactly on page 1, and Next asks nothing exactly on the last page |
| ProductsView.NormaliseSlug | src/views/products/products-page.tsx:95-131 | absent slug gives `[]`. An array is used as it is. A non-empty string that does not parse becomes the one-element list, and one that parses to an array gives that array, or `[]` for any other JSON value. An object's `value` string is parsed and its `slug` array used, otherwise `[]` |
| ProductsView.Classify | src/views/products/products-page.tsx:133-140 | category, brand and item page each hold exactly when the first segment is that word and the second is non-empty. The plain listing holds exactly when none of the three does |
| ProductsView.InitialFilters | src/views/products/products-page.tsx:142-147 | `departments` is `[categorySlugToId[slug]]` on a category page whose slug is in the map; otherwise the filter is `{}` |
| ProductsView.SelectedProduct | src/views/products/products-page.tsx:149-152 | a product is selected only on an item page, and then it is the first product in the list with the route's slug, as `find` returns. On an item page whose slug some product has, a product is selected |
| ProductsView.FormatSlug | src/views/products/products-page.tsx:205-208 | `formatSlug`: its lemmas FormatAll and FormatSlugChars state that it equals the character-wise title (`-` to space, first letter of each word upper-cased, the rest kept, same length) |
| ProductsView.FormatAll | src/views/products/products-page.tsx:205-208 | `split("-").map(capitalize).join(" ")` equals the character-wise title: each `-` becomes a space, and the first letter of each word is upper-cased |
| ProductsView.FormatSlugChars | src/views/products/products-page.tsx:205-208 | the title has one character per slug character: `-` becomes a space, the first character and each character after a `-` are upper-cased, and the rest are kept |
| ProductsView.PageTitle | src/views/products/products-page.tsx:200-225 | the selected product's title; the formatted slug on a category page (the `\|\| "Medical Equipments"` fallback cannot fire); the manufacturer, or the formatted slug, on a brand page; "Medical Equipments" otherwise |
| ProductsView.HeadingsAgree | src/views/products/products-page.tsx:200-271 | on category and brand pages the description and the search placeholder name the title. On an item page with a product the description begins with its title |
| ProductsView.PageDescription | src/views/products/products-page.tsx:228-248 | `getPageDescription`: HeadingsAgree states that on category and brand pages it names the page title, and on an item page with a product it begins with the product's title |
| ProductsView.SearchPlaceholder | src/views/products/products-page.tsx:251-271 | `getSearchPlaceholder`: HeadingsAgree states that on category and brand pages it is `Search <title>...` or `Search <title> products...` |
| ProductsView.TotalPages | src/views/products/products-page.tsx:181 | `ceil(n / 9)`: the least page count whose nine-item pages hold all `n` products (0 for none) |
| ProductsView.CurrentProducts | src/views/products/products-page.tsx:184-188 | `getCurrentProducts`: PageSize, DisplayedSlice, PagesNonEmpty and PagesPartition state that it shows at most nine products, the window `(p-1)*9 ..` of the list, a non-empty page for every valid page, and that the pages together are the whole list in order |
| ProductsView.PageSize | src/views/products/products-page.tsx:184-188 | whatever the page number, at most nine products are shown |
| ProductsView.DisplayedSlice | src/views/products/products-page.tsx:184-188 | from page 1 on, the shown products are `products[(p-1)*9 .. min(n, (p-1)*9+9))`, or none past the end |
| ProductsView.PagesNonEmpty | src/views/products/products-page.tsx:181-188 | pages 1 to the page count each show at least one product |
| ProductsView.PagesPartition | src/views/products/products-page.tsx:181-188 | pages 1 to the page count, concatenated, give the whole list in order |
| ProductsView.StalePageAfterFilter | src/views/products/products-page.tsx:159-188 | on page 3, a filter result of nine products has one page, yet the grid shows none of them |
| ProductsView.ProductsPage.constructor | src/views/products/products-page.tsx:80-83 | no products, page 1, not loading |
| ProductsView.ProductsPage.LoadProducts | src/views/products/products-page.tsx:85-90 | the mount effect stores the fetched products and leaves page and loading flag alone |
| ProductsView.ProductsPage.HandleFilterChange | src/views/products/products-page.tsx:159-175 | sends the brand and department lists (absent ones as `[]`). It keeps the old products when the fetch fails, always ends not loading, and leaves the page number unchanged |
| ProductsView.ProductsPage.HandleFilterChangeFromFirstPage | src/views/products/products-page.tsx:159-175 | the same request and update, and back to page 1, so a non-empty result always shows products |
| ProductsView.ProductsPage.HandlePageChange | src/views/products/products-page.tsx:193-194 | stores the requested page as given, unclamped |
| ProductsView.StalePageScenario | src/views/products/products-page.tsx:159-194 | a run of the page as written: choose page 3, then get nine filtered products, and the grid is empty |
| ProductApi.QuotedList | src/api/Products/product.api.ts:35-40 | each id in double quotes, joined by commas: QuotedListRoundTrip states that for comma-free ids it splits back into the quoted ids in order, and QuotedListPlain that `$`-free ids give a `$`-free list |
| ProductApi.Clause | src/api/Products/product.api.ts:30-41 | the clause is empty exactly when the list is absent or empty |
| ProductApi.BrandClause | src/api/Products/product.api.ts:33-36 | the brand clause: Clause states that it is empty exactly when `brands` is absent or empty, and FilteredQueryShape puts it in place of `$brandFilter` |
| ProductApi.DepartmentClause | src/api/Products/product.api.ts:38-41 | the department clause: empty exactly when `departments` is absent or empty, and put in place of `$departmentFilter` |
| ProductApi.FilteredQuery | src/api/Products/product.api.ts:43-48 | the two `replace` calls on the Queries.ts template: FilteredQueryShape states that for `$`-free ids each clause lands at its placeholder, and UnfilteredQuery that empty filters leave the bare selector |
| ProductApi.GetFilteredProducts | src/api/Products/product.api.ts:29-51 | `getFilteredProducts`: fetches the query FilteredQuery builds, `None` when the fetch throws. The page handlers state that they keep the old products in that case |
| ProductApi.QuotedListRoundTrip | src/api/Products/product.api.ts:35-40 | an id list without commas splits back at its commas into the double-quoted ids, one per id, in input order |
| ProductApi.QuotedListPlain | src/api/Products/product.api.ts:35-40 | ids without `$` give a quoted list without `$` |
| ProductApi.ClausePlain | src/api/Products/product.api.ts:34-41 | ids without `$` give a clause without `$`, so `replace` inserts it verbatim |
| ProductApi.ReplaceBothPlaceholders | src/api/Products/product.api.ts:44-48 | the two `replace` calls on `head + $p + middle + $q + tail` put each replacement where its placeholder was |
| ProductApi.ReplaceAtFirstDollar | src/api/Products/product.api.ts:46-47 | one `replace` whose placeholder starts with `$`, after a text free of `$`, lands at the placeholder |
| ProductApi.FilteredQueryShape | src/api/Products/product.api.ts:44-48 | for ids free of `$`, the query sent is the template with the brand clause in place of `$brandFilter` and the department clause in place of `$departmentFilter` |
| ProductApi.UnfilteredQuery | src/api/Products/product.api.ts:44-48 | with no brands and no departments both placeholders vanish, leaving the bare product selector |
| Filters.Without | src/components/atom/ProductFilter.tsx:317 | `filter(item => item !== id)` keeps exactly the members other than `id` |
| Filters.WithoutTwice | src/components/atom/ProductFilter.tsx:317 | removing an id twice is removing it once |
| Filters.WithoutAppended | src/components/atom/ProductFilter.tsx:317 | removing `id` ignores an `id` appended at the end |
| Filters.WithoutAbsent | src/components/atom/ProductFilter.tsx:317 | removing an absent id changes nothing |
| Filters.Toggle | src/components/atom/ProductFilter.tsx:315-331 | the toggle flips the membership of `id`. The other ids and their order are kept (the two lists agree once `id` is taken out), and a newly selected id goes last |
| Filters.ToggleTwice | src/components/atom/ProductFilter.tsx:316-318 | toggling an unselected id twice restores the list exactly |
| Filters.ActiveCount | src/components/atom/ProductFilter.tsx:352-371 | the badge number is positive exactly when `hasActiveFilters` holds |
| ProductFilterPanel.VisibleOf | src/components/atom/ProductFilter.tsx:96 | `items.slice(0, visibleItems)` is a prefix of the items, of length `min(visibleItems, items.length)` |
| ProductFilterPanel.OneButtonAtATime | src/components/atom/ProductFilter.tsx:70-144 | in the states a group can reach, "See all" and "Show less" never show together, and one of them shows exactly when there are more than six options |
| ProductFilterPanel.FilterGroup.constructor | src/components/atom/ProductFilter.tsx:68-69 | starts with six visible options, expanded as the property says |
| ProductFilterPanel.FilterGroup.ToggleExpanded | src/components/atom/ProductFilter.tsx:76 | flips `expanded` and nothing else |
| ProductFilterPanel.FilterGroup.SeeAll | src/components/atom/ProductFilter.tsx:122-131 | shows every option. "See all" disappears, and "Show less" appears exactly for more than six options |
| ProductFilterPanel.FilterGroup.ShowLess | src/components/atom/ProductFilter.tsx:134-143 | back to the first six options. "See all" shows exactly for more than six |
| ProductFilterPanel.ProductFilter.constructor | src/components/atom/ProductFilter.tsx:298-306 | selections start from `initialFilters`, absent lists as `[]` |
| ProductFilterPanel.ProductFilter.SyncInitialFilters | src/components/atom/ProductFilter.tsx:309-313 | a new `initialFilters` replaces all three lists, absent ones by `[]` |
| ProductFilterPanel.ProductFilter.ToggleCategory | src/components/atom/ProductFilter.tsx:315-319 | toggles the category list only |
| ProductFilterPanel.ProductFilter.ToggleBrand | src/components/atom/ProductFilter.tsx:321-325 | toggles the brand list only |
| ProductFilterPanel.ProductFilter.TogglePriceRange | src/components/atom/ProductFilter.tsx:327-331 | toggles the price-range list only |
| ProductFilterPanel.ProductFilter.ApplyFilters | src/components/atom/ProductFilter.tsx:333-339 | emits the three current selections, with no `departments`, and changes nothing |
| ProductFilterPanel.ProductFilter.ClearFilters | src/components/atom/ProductFilter.tsx:341-350 | empties the three lists, emits the all-empty state, and no filter is active afterwards |
| SideFilterPanel.SideFilter.constructor | src/views/products/components/SideFilter.tsx:129-132 | the selections start empty, whatever the caller passes |
| SideFilterPanel.SideFilter.ToggleCategory | src/views/products/components/SideFilter.tsx:134-138 | toggles the category list only |
| SideFilterPanel.SideFilter.ToggleBrand | src/views/products/components/SideFilter.tsx:140-144 | toggles the brand list only |
| SideFilterPanel.SideFilter.TogglePriceRange | src/views/products/components/SideFilter.tsx:146-150 | toggles the price-range list only |
| SideFilterPanel.SideFilter.ApplyFilters | src/views/products/components/SideFilter.tsx:152-160 | emits exactly `{categories, brands, priceRanges}` (never `departments`), and only when a callback was given |
| SideFilterPanel.SideFilter.ClearFilters | src/views/products/components/SideFilter.tsx:162-174 | always empties the three lists, and reports the all-empty state only when a callback was given |
| SideFilterPanel.EmittedDepartmentsAreEmpty | src/views/products/components/SideFilter.tsx:152-160 | what the products page sends for this panel's object has an empty department list, so the query's department clause is empty |
| Catalog.Filtered | src/views/catalog/catalog-page.tsx:82-130 | `filteredProducts`: FilteredMembers, CriteriaCompose and CriteriaIntersect state that a product is shown exactly when it meets all three criteria, as the three filters applied in turn, in list order |
| Catalog.FilteredMembers | src/views/catalog/catalog-page.tsx:82-130 | a product is shown exactly when it is in the list and meets the search, category and brand criteria |
| Catalog.ShownProductsMatch | src/views/catalog/catalog-page.tsx:84-127 | each shown product contains the lower-cased query in its lower-cased title, manufacturer or category. It has the category `categoryMap[id]` and the manufacturer `brandMap[id]` of some selected ids, when those lists are non-empty |
| Catalog.NoCriteriaShowsAll | src/views/catalog/catalog-page.tsx:82-130 | no query and no selections show the whole list, in order |
| Catalog.FilteredIsSubsequence | src/views/catalog/catalog-page.tsx:82 | the shown list is an order-preserving sub-list of the products |
| Catalog.PriceRangesIgnored | src/views/catalog/catalog-page.tsx:82-130 | the price-range selection (and any `departments`) never changes what is shown |
| Catalog.CriteriaCompose | src/views/catalog/catalog-page.tsx:84-129 | the shown list is the list narrowed by the search, then by category, then by brand |
| Catalog.CriteriaIntersect | src/views/catalog/catalog-page.tsx:84-129 | a product is shown exactly when each single criterion alone would show it |
| Catalog.UnmappedCategoriesShowNothing | src/views/catalog/catalog-page.tsx:95-108 | selecting only category ids without a map entry shows nothing |
| Catalog.UnmappedBrandsShowNothing | src/views/catalog/catalog-page.tsx:112-126 | selecting only brand ids without a map entry shows nothing |
| Catalog.PanelIdsWithoutEntry | src/views/catalog/catalog-page.tsx:97-122 | the panel's "physiotherapy" and "emergency" categories and its "medtronic" and "mindray" brands each empty the grid |
| Catalog.CatalogPage.constructor | src/views/catalog/catalog-page.tsx:73-79 | empty query, empty selections, drawer closed, every product shown |
| Catalog.CatalogPage.HandleSearch | src/views/catalog/catalog-page.tsx:132-134 | stores the query, nothing else |
| Catalog.CatalogPage.HandleFilterChange | src/views/catalog/catalog-page.tsx:136-138 | stores the filters, nothing else |
| Catalog.CatalogPage.ToggleMobileFilter | src/views/catalog/catalog-page.tsx:140-142 | flips the drawer, nothing else |
| Catalog.CatalogPage.ClearFilters | src/views/catalog/catalog-page.tsx:317-320 | resets the three lists to `[]` and keeps the query. With an empty query every product shows again |
| Catalog.CatalogPage.MobileApplyFilters | src/components/atom/ProductFilter.tsx:261-264 | the drawer's "Apply Filters" stores the panel's selections and then toggles the drawer |
| BlogView.SearchResult | src/views/blog/blog-page.tsx:28-41 | the filtered posts: SearchResultMembers and SearchResultIsSubsequence state that a post is listed exactly when it matches, in the posts' order, without repeats |
| BlogView.SearchResultMembers | src/views/blog/blog-page.tsx:28-41 | a post is listed exactly when it is a post and the query is empty or occurs, lower-cased, in its lower-cased title or author |
| BlogView.SearchResultIsSubsequence | src/views/blog/blog-page.tsx:34-40 | the search keeps the posts' order and repeats none |
| BlogView.SpaceQueryFilters | src/views/blog/blog-page.tsx:29-38 | the untrimmed query " " is not empty and drops every post whose title and author hold no space |
| BlogView.ChildTexts | src/views/blog/blog-page.tsx:53-55 | the texts of the children that have one: every such child's text is in the result, every result is some child's text, and there are no more results than children |
| BlogView.ChildTextsSingle | src/views/blog/blog-page.tsx:53-55 | one child gives `[text]` when it is an object with a text, and nothing otherwise |
| BlogView.ChildTextsAppend | src/views/blog/blog-page.tsx:53-55 | the texts of two runs of children are the texts of the first run followed by those of the second, so the order of the children is kept |
| BlogView.Excerpt | src/views/blog/blog-page.tsx:43-60 | `getExcerpt`: ExcerptWords, ExcerptFirstBlockOnly and ExcerptDefault state that it is the first block's child texts joined by spaces, that only the first block matters, and that the default text appears otherwise |
| BlogView.ExcerptFirstBlockOnly | src/views/blog/blog-page.tsx:46-56 | only the first block decides the excerpt |
| BlogView.ExcerptWords | src/views/blog/blog-page.tsx:53-56 | for a rich-text first block whose texts hold no space, the excerpt splits back into exactly those texts, in order |
| BlogView.ExcerptDefault | src/views/blog/blog-page.tsx:44-59 | missing or empty content, or a first block that is not a `block` with a children array, gives "Read our latest article" |
| BlogView.BlogPage.constructor | src/views/blog/blog-page.tsx:10-12 | no posts, nothing shown, loading |
| BlogView.BlogPage.Load | src/views/blog/blog-page.tsx:14-26 | a successful fetch fills both lists with the same posts. A failed one keeps them, and loading ends either way |
| BlogView.BlogPage.HandleSearch | src/views/blog/blog-page.tsx:28-41 | the shown list becomes the search result, and the posts are untouched |
| ProductDetailView.AllFieldKeysMembers | src/views/products/components/ProductDetail.tsx:79-81 | a key is collected exactly when some field of some variation has it |
| ProductDetailView.UniqueFieldNames | src/views/products/components/ProductDetail.tsx:76-84 | no variations give no columns. The columns are pairwise distinct and never empty |
| ProductDetailView.UniqueFieldNamesMembers | src/views/products/components/ProductDetail.tsx:79-83 | a column exists for a name exactly when it is non-empty and some field of some variation has it as key |
| ProductDetailView.UniqueFieldNamesOrder | src/views/products/components/ProductDetail.tsx:79-83 | the columns are the non-empty keys, with repeats removed, in first-occurrence order, and a sub-list of the collected keys |
| ProductDetailView.DedupMembers | src/views/products/components/ProductDetail.tsx:83 | `[...new Set(keys)]` keeps exactly the members |
| ProductDetailView.HeaderText | src/views/products/components/ProductDetail.tsx:226-235 | a key not mentioning REF keeps its length and tail, and its first character is upper-cased |
| ProductDetailView.HeaderRefIff | src/views/products/components/ProductDetail.tsx:229-230 | the header is "REF No." exactly when the upper-cased key contains "REF" |
| ProductDetailView.Cell | src/views/products/components/ProductDetail.tsx:257-265 | a cell is never empty, and is "-" when no field has the column's key |
| ProductDetailView.CellOfFirstMatch | src/views/products/components/ProductDetail.tsx:257-265 | when field `i` is the first with the key, the cell is its value, or "-" when that value is absent or empty |
| ProductDetailView.Row | src/views/products/components/ProductDetail.tsx:251-268 | a row has exactly one cell per column, in column order |
| ProductDetailView.ImageViewer.constructor | src/views/products/components/ProductDetail.tsx:71-73 | the shown image starts as the main image |
| ProductDetailView.ImageViewer.SelectMain | src/views/products/components/ProductDetail.tsx:110 | the main thumbnail's click shows the main image |
| ProductDetailView.ImageViewer.Select | src/views/products/components/ProductDetail.tsx:132-134 | a gallery thumbnail's click shows that image, and its thumbnail is highlighted |
| ProductDetailPageView.DepartmentSlug | src/views/products/ProductDetailPage.tsx:33 | `name.toLowerCase().replace(/ /g, "-")` keeps the length and leaves no space |
| ProductDetailPageView.Breadcrumbs | src/views/products/ProductDetailPage.tsx:17-41 | no product gives no trail. Otherwise the trail is Home "/", Products "/products", the department crumb with `/products/category/<slug>` when there is a department, and last the product title, current and without a link. So it has 3 or 4 crumbs, and every earlier crumb is linked and not current |
| ProductDetailPageView.DepartmentCrumbRoundTrip | src/views/products/ProductDetailPage.tsx:33 | the category page (whose title `formatSlug` of products-page.tsx builds) reached from a department crumb is titled with the department's name exactly when the name is in title case (no `-`, each word's first letter not lower-case, no other letter upper-case) |
| ProductDetailPageView.TitleOfSlugAt | src/views/products/ProductDetailPage.tsx:33 | character `i` of that category title, in terms of the department name |
| ProductDetailPageView.BlockParts | src/views/products/ProductDetailPage.tsx:75-77 | a block with a children array gives one part per child, and a non-empty text is a part exactly when some child has it. A block without a children array gives the single part `""` |
| ProductDetailPageView.DescriptionParts | src/views/products/ProductDetailPage.tsx:73-78 | `flatMap` over the blocks: DescriptionPartsSingle, DescriptionPartsAppend and DescriptionPartsMembers state the contents |
| ProductDetailPageView.DescriptionPartsSingle | src/views/products/ProductDetailPage.tsx:75-77 | one block contributes exactly its own parts |
| ProductDetailPageView.DescriptionPartsAppend | src/views/products/ProductDetailPage.tsx:75-77 | the parts of two runs of blocks are the parts of the first run followed by those of the second |
| ProductDetailPageView.DescriptionPartsMembers | src/views/products/ProductDetailPage.tsx:75-77 | a non-empty text is among the parts exactly when some block with a children array has a child with that text |
| ProductDetailPageView.Description | src/views/products/ProductDetailPage.tsx:73-78 | no description, or an empty one, gives "" |
| ProductDetailPageView.DescriptionWords | src/views/products/ProductDetailPage.tsx:73-78 | when no text holds a space, the description splits back into exactly the texts of all blocks, in order |
| ProductDetailPageView.ImageUrl | src/views/products/ProductDetailPage.tsx:84-94 | the image address is non-empty exactly when there is a main image of `_type` "image" with a non-empty reference |
| ProductDetailPageView.ImageUrlOfJpegRef | src/views/products/ProductDetailPage.tsx:88-91 | a reference `image-<id>-jpg`, with no `-jpg` in the id, gives `https://cdn.sanity.io/images/<id>.jpg` |
| ProductDetailPageView.StripImagePrefix | src/views/products/ProductDetailPage.tsx:90 | the first `image-` of such a reference is removed |
| ProductDetailPageView.FixJpegSuffix | src/views/products/ProductDetailPage.tsx:91 | the `-jpg` ending becomes `.jpg` when the id has no `-jpg` of its own |
| ProductDetailPageView.ProductStructuredData | src/views/products/ProductDetailPage.tsx:69-95 | the record's name is the title. Brand name and category are the referenced names, or "" without one. The description and image are as above |
| BrandCardView.ExcerptOf | src/views/brands/components/brandCard.tsx:41-45 | the excerpt of a text is always a snippet |
| BrandCardView.BrandDescription | src/views/brands/components/brandCard.tsx:35-56 | "No description available." exactly for a missing or empty description. A crash exactly when the first block's `children` is `null`. The rich-text renderer exactly when the first block has no object `children`. Otherwise the excerpt of the first span's text. A first block with a children array whose first span is missing, not an object or without text renders the empty snippet, without "..." |
| BrandCardView.ExcerptWords | src/views/brands/components/brandCard.tsx:41-45 | the shown words are the text's first ten (or all, when fewer), and "..." follows exactly when there are more than ten |
| BrandCardView.ShortTextUnchanged | src/views/brands/components/brandCard.tsx:41-45 | a text of at most ten words is shown unchanged and without "..." |
| BrandCardView.ExcerptIsPrefix | src/views/brands/components/brandCard.tsx:41-44 | the shown text is a prefix of the text |
| TestimonialsCarousel.JsRem | src/components/ui/animated-testomonials.tsx:26-32 | `%` gives `NaN` exactly for a zero divisor, and the ordinary remainder for a non-negative dividend |
| TestimonialsCarousel.Next | src/components/ui/animated-testomonials.tsx:26-28 | `(prev + 1) % length`: NextStep, NextTimesIndex and FullCycle state that it moves one card on, wraps at the end, and that a full round returns to the start |
| TestimonialsCarousel.Prev | src/components/ui/animated-testomonials.tsx:30-32 | `(prev - 1 + length) % length`: PrevStep and NextPrevInverse state that it moves one card back, wraps at the start, and undoes Next |
| TestimonialsCarousel.NextStep | src/components/ui/animated-testomonials.tsx:27 | from a card in range, next moves one on, and from the last card to the first |
| TestimonialsCarousel.PrevStep | src/components/ui/animated-testomonials.tsx:31 | from a card in range, previous moves one back, and from the first card to the last |
| TestimonialsCarousel.NextPrevInverse | src/components/ui/animated-testomonials.tsx:26-32 | previous after next, and next after previous, are the identity |
| TestimonialsCarousel.NextTimesIndex | src/components/ui/animated-testomonials.tsx:27 | up to a full round, `k` clicks on next move `k` cards on, wrapping once past the last |
| TestimonialsCarousel.FullCycle | src/components/ui/animated-testomonials.tsx:27 | as many clicks on next as there are cards return to the starting card |
| TestimonialsCarousel.EmptyListLosesIndex | src/components/ui/animated-testomonials.tsx:26-32 | at length 0 the arithmetic of `handleNext` and `handlePrev` would give `NaN`, and `NaN` stays `NaN`. The component never reaches this, because an empty list throws at render (line 149) |
| TestimonialsCarousel.Carousel.constructor | src/components/ui/animated-testomonials.tsx:24 | the index starts at 0 |
| TestimonialsCarousel.Carousel.HandleNext | src/components/ui/animated-testomonials.tsx:26-28 | the index becomes next of the old index, and stays on a card |
| TestimonialsCarousel.Carousel.HandlePrev | src/components/ui/animated-testomonials.tsx:30-32 | the index becomes previous of the old index, and stays on a card |
| TestimonialsCarousel.ExactlyOneActive | src/components/ui/animated-testomonials.tsx:34-36 | with cards, exactly one card index is active |
| SearchPopupView.LongEnough | src/components/common/SearchPopup.tsx:131 | `query.trim().length >= 2`: BlankQueryNotLongEnough states that a query of white space only never passes |
| SearchPopupView.BlankQueryNotLongEnough | src/components/common/SearchPopup.tsx:131 | a query of white space only is never long enough to fetch, whatever its length |
| SearchPopupView.SearchPopup.constructor | src/components/common/SearchPopup.tsx:118-120 | no results, empty query, not searching |
| SearchPopupView.SearchPopup.HandleSearch | src/components/common/SearchPopup.tsx:122-143 | the query is always stored. Supplied results are used as they are, even for the empty query. Otherwise "" clears the results, and a fetch is made exactly for a non-empty query whose trimmed length is at least 2. A fetch replaces the results on success, keeps them on error, and ends not searching. A short non-empty query changes nothing else |
| SearchPopupView.SearchPopup.OnClosed | src/components/common/SearchPopup.tsx:159-165 | closing resets query and results, so "No products found" is not shown |
| SearchPopupView.MessageOrResults | src/components/common/SearchPopup.tsx:214-222 | the message and the results list never show together. With a non-empty query and no search running, exactly one of them shows |
| QuoteFormRules.PhoneRule | src/components/forms/QuoteForm.tsx:38 | the phone pattern accepts exactly 10 to 15 ASCII digits |
| QuoteFormRules.DigitRun | src/components/forms/QuoteForm.tsx:38 | the pattern's automaton, from any count, accepts exactly digit runs that bring the count into range |
| QuoteFormRules.QuantityRule | src/components/forms/QuoteForm.tsx:41-44 | a quantity is valid exactly when it is a whole number from 1 up |
| QuoteFormRules.Errors | src/components/forms/QuoteForm.tsx:34-50 | name and product name fail exactly when empty. E-mail fails exactly when empty or malformed. Description fails exactly when over 500 characters (empty is fine). Delivery date fails exactly when `null` or before now |
| QuoteFormRules.PhoneErrors | src/components/forms/QuoteForm.tsx:37-39 | the phone fails exactly when it is not 10 to 15 ASCII digits |
| QuoteFormRules.QuantityErrors | src/components/forms/QuoteForm.tsx:41-44 | the quantity fails exactly when it is not a whole number from 1 up |
| QuoteFormRules.InitialErrors | src/components/forms/QuoteForm.tsx:23-31 | the untouched form fails on name, e-mail, phone, product name and delivery date, and on nothing else |
| Globe.HexValue | src/components/ui/globe.tsx:353-355 | a hex digit's value is below 16 |
| Globe.PairValue | src/components/ui/globe.tsx:353-355 | `parseInt(pair, 16)` of two hex digits is at most 255 |
| Globe.ExpandShorthand | src/components/ui/globe.tsx:345-348 | a `#?` plus three hex digits becomes six digits without `#` |
| Globe.HexToRgb | src/components/ui/globe.tsx:344-358 | every component of a parsed colour is at most 255 |
| Globe.HexToRgbDefined | src/components/ui/globe.tsx:345-357 | a colour is returned exactly for an optional `#` followed by exactly three or six hex digits, and `null` otherwise |
| Globe.LongForm | src/components/ui/globe.tsx:350-356 | six digits give the base-16 values of pairs 1-2, 3-4 and 5-6 |
| Globe.ShorthandDoubles | src/components/ui/globe.tsx:345-348 | `#abc` and `abc` read like `#aabbcc` |
| Globe.CaseInsensitive | src/components/ui/globe.tsx:345-350 | upper- and lower-case digits name the same value |
| Globe.BuildPoints | src/components/ui/globe.tsx:155-172 | two points per arc: the start at `2i`, the end at `2i+1`, in arc order |
| Globe.DedupPoints | src/components/ui/globe.tsx:175-182 | no more points than before, pairwise distinct coordinates, the same set of coordinates, and a sub-list in first-occurrence order |
| Globe.DedupKeepsFirstPoint | src/components/ui/globe.tsx:175-182 | a point with no earlier point at the same coordinates is kept |
| Globe.GlobePoints | src/components/ui/globe.tsx:155-182 | the deduplicated list has at most two entries per arc and covers the start and end of every arc |
| Lists.FilterMembers | src/views/catalog/catalog-page.tsx:82 | `filter` keeps exactly the members that pass |
| Lists.FilterIsSubsequence | src/views/catalog/catalog-page.tsx:82 | `filter` neither reorders nor repeats |
| Lists.FilterConjunction | src/views/catalog/catalog-page.tsx:84-129 | filtering by a conjunction is filtering by each conjunct in turn |
| Lists.FirstIndex | src/components/ui/globe.tsx:177-181 | `findIndex`: the first index whose element passes, absent exactly when none does |
| Lists.DedupBy | src/components/ui/globe.tsx:175-182 | keeping each element whose key no earlier element has gives distinct keys, the same set of keys, and no growth |
| Lists.DedupIsSubsequence | src/components/ui/globe.tsx:175-182 | de-duplication keeps the first-occurrence order |
| Lists.DedupOfDistinct | src/components/common/Pagination.tsx:41 | a list with distinct keys is left unchanged |
| Lists.DedupKeepsFirst | src/components/ui/globe.tsx:175-182 | an element with no earlier element of its key is kept |
| Lists.DedupFilterCommute | src/views/products/components/ProductDetail.tsx:83 | removing duplicates and then dropping falsy keys equals dropping them first |
| Lists.SliceIndex | src/views/products/products-page.tsx:187 | a `slice` bound lands inside the list |
| JsStrings.IndexOf | src/views/products/ProductDetailPage.tsx:90-91 | `indexOf` gives the first occurrence, and none exactly when the pattern does not occur |
| JsStrings.ReplaceFirst | src/api/Products/product.api.ts:46-47 | `replace` leaves a text without the pattern unchanged |
| JsStrings.ReplaceFirstAt | src/api/Products/product.api.ts:46-47 | `replace` on `a + pat + b`, with no earlier match and no `$` in the replacement, gives `a + rep + b` |
| JsStrings.SubstitutionLiteral | src/api/Products/product.api.ts:46-47 | a replacement without `$` is inserted verbatim |
| JsStrings.Split | src/views/brands/components/brandCard.tsx:42 | `split` never returns an empty list, and no part holds the separator |
| JsStrings.JoinSplit | src/views/brands/components/brandCard.tsx:41-44 | joining the parts with the separator gives back the string |
| JsStrings.SplitJoin | src/views/products/ProductDetailPage.tsx:75-78 | splitting joined separator-free parts gives them back |
| JsStrings.JoinSplitPrefix | src/views/brands/components/brandCard.tsx:41-44 | the first `k` parts, joined back, form a prefix of the string |
| JsStrings.Trim | src/components/common/SearchPopup.tsx:131 | `trim` with ECMAScript white space: TrimEmpty states that the result is empty exactly when every character is white space |
| JsStrings.TrimEmpty | src/components/common/SearchPopup.tsx:131 | the trimmed text is empty exactly when every character is ECMAScript white space |

## Left out

- Network and content-backend calls (`client.fetch`, `getProducts`,
  `getFilteredProducts`, `getProductsBySearch`, `getBlogs`): each is a
  function parameter whose `None` result stands for a thrown error.
  The query language is not modelled. The filtered-products template
  is a string with one `$brandFilter` and one `$departmentFilter`.
- Async interleaving: every handler runs to completion, so a second
  search or filter change that overtakes an outstanding fetch is not
  modelled.
- `ProductApi.FilteredQueryShape`: stated only for ids without `$`. An
  id with `$&`, `` $` `` or `$'` makes `replace` splice in other text.
  JsStrings.Substitution models that splice, but no property is stated
  about it.
- `JSON.parse` is a parameter. Its `Json` result holds strings in
  arrays only, which is all slug normalisation looks at.
- Record lookups (`categorySlugToId[x]`, `brandMap[x]`) see own
  properties only. Keys like `"constructor"` that reach
  `Object.prototype` are not modelled.
- Unicode: case mapping is ASCII only. String length counts
  characters, not UTF-16 code units, so the 500-character description
  limit is per character.
- `QuoteFormRules.Errors`: Yup's e-mail pattern is a parameter
  (`isEmail`), and so is the clock that `min(new Date())` reads (`now`).
  Yup's own coercions (trimming, type casts) are not modelled.
- `Globe.DedupPoints`: coordinates are real numbers compared by value.
  JavaScript's `===` on numbers is not modelled: `NaN` never equals
  itself, so such a point is dropped, and `0 === -0` holds.
- The rest of globe.tsx: the three.js scene, the ring animation and
  `genRandomNumbers` (random, and non-terminating when asked for more
  numbers than the range holds).
- `TestimonialsCarousel.NextTimesIndex`: stated for up to one full
  round (`k <= n`). Longer runs follow from `FullCycle`, and no general
  modular formula is stated.
- The carousel's autoplay interval, the popup's Escape-key handler,
  `window.scrollTo` in `handlePageChange`, and the rendering and
  animation of every component.
- `SearchInput` only forwards its text. The `results` argument it
  never passes is still modelled in `HandleSearch`.
- The side panel's "See all" button has no handler and is left out.
- Image equality in the detail view (`selectedImage === image`) is
  reference identity in the source. The model compares images by
  value, so two equal gallery entries are highlighted together.
- The thumbnails are rendered only when the gallery is non-empty. The
  image viewer's methods do not check that.
- The excerpts and the JSON-LD description assume the content is a list
  of blocks. A `null` block or a `null` span inside it is not modelled.
  Reading `child.text` on a `null` span throws
  (src/views/products/ProductDetailPage.tsx:76), but `BlockParts` gives
  `""` for a `NonObjectChild`. A span `{text: null}` is not modelled
  either: `Cms.Child(None)` stands for a span without a `text` key.
  blog-page.tsx:54-55 keeps such a span, and `join` turns it into an
  empty word.
- An empty testimonial list makes the carousel throw at its first render
  (`testimonials[active].quote`, src/components/ui/animated-testomonials.tsx:149),
  so the carousel is only meaningful for `count > 0`.
  `EmptyListLosesIndex` describes only the handlers' arithmetic.
- `ProductDetailPageView.ImageUrl`: `.replace("-jpg", ".jpg")` is
  modelled for every reference. `ImageUrlOfJpegRef` states the result
  only for jpg references.

## Findings

| source | as written | input that shows it | evidently intended | confidence | as-written member | corrected member |
|---|---|---|---|---|---|---|
| src/views/products/products-page.tsx:159-188 | `handleFilterChange` replaces the products but keeps `currentPage` | on page 3 of a long list, apply a filter whose result has nine products: one page exists, "Showing 9 products" is displayed, and the grid shows "not found" because the slice starts at 18 | a filter change starts again from page 1, so any non-empty result shows products | medium, not executed | ProductsView.StalePageScenario | ProductsView.ProductsPage.HandleFilterChangeFromFirstPage |

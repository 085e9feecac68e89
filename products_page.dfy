/** The products route: normalising the route's slug parameter, classifying
    the page as a category, brand or item page, the page's initial filter,
    its headings, client-side paging, and the state the page keeps
    (`products`, `currentPage`, `isLoading`). */
module ProductsView {
  import opened Wrappers
  import opened JsStrings
  import Lists
  import Cms
  import Filters
  import ProductApi

  /** A value `JSON.parse` can return, as far as slug normalisation tells
      them apart: an array (of strings), an object with or without a `slug`
      property, or anything else (a number, a string, `true`, `null`). */
  datatype Json = JArray(items: seq<string>) | JObject(slug: Option<Json>) | JOther

  /** The route's `params.slug`: absent, a string, an array, or an object
      whose `value` property holds a string (`None` when it is absent or not
      a string). */
  datatype SlugParam = NoSlug | SlugString(text: string) | SlugArray(parts: seq<string>) | SlugObject(value: Option<string>)

  /** Slug normalisation. `parse` is `JSON.parse`, `None` when it throws. */
  method NormaliseSlug(slug: SlugParam, parse: string -> Option<Json>) returns (slugArray: seq<string>)
    ensures slug.NoSlug? ==> slugArray == []
    ensures slug.SlugArray? ==> slugArray == slug.parts
    ensures slug.SlugString? && slug.text == "" ==> slugArray == []
    ensures slug.SlugString? && slug.text != "" ==>
      slugArray == match parse(slug.text)
                   case None => [slug.text]
                   case Some(JArray(items)) => items
                   case Some(_) => []
    ensures slug.SlugObject? ==>
      slugArray == if slug.value.Some? && slug.value.value != "" && parse(slug.value.value).Some?
                      && parse(slug.value.value).value.JObject? && parse(slug.value.value).value.slug.Some?
                      && parse(slug.value.value).value.slug.value.JArray?
                   then parse(slug.value.value).value.slug.value.items
                   else []
  {
    slugArray := [];
    match slug {
      case NoSlug =>
      case SlugString(text) =>
        if text != "" {
          var parsed := parse(text);
          if parsed.None? {
            slugArray := [text];
          } else if parsed.value.JArray? {
            slugArray := parsed.value.items;
          } else {
            slugArray := [];
          }
        }
      case SlugArray(parts) =>
        slugArray := parts;
      case SlugObject(value) =>
        if value.Some? && value.value != "" {
          var parsed := parse(value.value);
          if parsed.Some? && parsed.value.JObject? && parsed.value.slug.Some? && parsed.value.slug.value.JArray? {
            slugArray := parsed.value.slug.value.items;
          }
        }
    }
  }

  predicate IsCategoryPage(slugArray: seq<string>) {
    |slugArray| >= 2 && slugArray[0] == "category" && slugArray[1] != ""
  }

  predicate IsBrandPage(slugArray: seq<string>) {
    |slugArray| >= 2 && slugArray[0] == "brand" && slugArray[1] != ""
  }

  predicate IsItemPage(slugArray: seq<string>) {
    |slugArray| >= 2 && slugArray[0] == "item" && slugArray[1] != ""
  }

  datatype PageKind = CategoryPage | BrandPage | ItemPage | ListingPage

  /** The kind of page: the first slug segment names it and the second, the
      slug value, must be non-empty; every other route is the plain listing. */
  function Classify(slugArray: seq<string>): (k: PageKind)
    ensures k == CategoryPage <==> IsCategoryPage(slugArray)
    ensures k == BrandPage <==> IsBrandPage(slugArray)
    ensures k == ItemPage <==> IsItemPage(slugArray)
    ensures k == ListingPage <==>
      !(|slugArray| >= 2 && slugArray[1] != "" && slugArray[0] in ["category", "brand", "item"])
  {
    if IsCategoryPage(slugArray) then CategoryPage
    else if IsBrandPage(slugArray) then BrandPage
    else if IsItemPage(slugArray) then ItemPage
    else ListingPage
  }

  /** Category slugs and the department ids they filter by. */
  const CategorySlugToId: map<string, string> := map[
    "diagnostic-equipment" := "diagnostic",
    "surgical-instruments" := "surgical",
    "monitoring-devices" := "monitoring",
    "imaging-systems" := "imaging",
    "laboratory-equipment" := "laboratory",
    "dental-equipment" := "dental",
    "physiotherapy-equipment" := "physiotherapy",
    "emergency-care" := "emergency"]

  /** Brand slugs and the manufacturer names shown for them. */
  const BrandSlugToManufacturer: map<string, string> := map[
    "siemens-healthineers" := "Siemens Healthineers",
    "philips-healthcare" := "Philips Healthcare",
    "ge-healthcare" := "GE Healthcare",
    "medtronic" := "Medtronic",
    "drager" := "Drager",
    "carl-zeiss" := "Carl Zeiss"]

  /** The page's initial filter: `{}`, with `departments` set to the mapped
      department id on a category page whose slug is known. */
  method InitialFilters(slugArray: seq<string>) returns (initialFilters: Filters.FilterState)
    ensures IsCategoryPage(slugArray) && slugArray[1] in CategorySlugToId ==>
      initialFilters == Filters.NoFilters.(departments := Some([CategorySlugToId[slugArray[1]]]))
    ensures !(IsCategoryPage(slugArray) && slugArray[1] in CategorySlugToId) ==>
      initialFilters == Filters.NoFilters
  {
    initialFilters := Filters.NoFilters;
    if IsCategoryPage(slugArray) && slugArray[1] in CategorySlugToId && CategorySlugToId[slugArray[1]] != "" {
      initialFilters := initialFilters.(departments := Some([CategorySlugToId[slugArray[1]]]));
    }
  }

  function HasSlug(slug: string): Cms.Product -> bool {
    (p: Cms.Product) => p.slug == slug
  }

  /** The product an item page shows: the first product with that slug;
      absent on every other kind of page. */
  function SelectedProduct(slugArray: seq<string>, products: seq<Cms.Product>): (r: Option<Cms.Product>)
    ensures r.Some? ==> IsItemPage(slugArray) && r.value in products && r.value.slug == slugArray[1]
    ensures IsItemPage(slugArray) && (exists j :: 0 <= j < |products| && products[j].slug == slugArray[1]) ==> r.Some?
    ensures r.Some? ==>
      exists i :: 0 <= i < |products| && products[i] == r.value
        && forall j :: 0 <= j < i ==> products[j].slug != slugArray[1]
  {
    if IsItemPage(slugArray) then
      match Lists.FirstIndex(products, HasSlug(slugArray[1]))
      case None => None
      case Some(i) => Some(products[i])
    else None
  }

  function CapitalizeAll(words: seq<string>): (r: seq<string>)
    ensures |r| == |words| && forall k :: 0 <= k < |words| ==> r[k] == Capitalize(words[k])
  {
    seq(|words|, k requires 0 <= k < |words| => Capitalize(words[k]))
  }

  /** `slug.split("-").map(capitalize).join(" ")`. */
  function FormatSlug(slug: string): string {
    Join(CapitalizeAll(Split(slug, '-')), " ")
  }

  /** The title characters of `s`: every `-` becomes a space, and a letter at
      the start of a word is upper-cased (`atStart` says whether `s` begins a
      word). */
  function TitleChars(s: string, atStart: bool): string
    decreases |s|
  {
    if s == [] then []
    else if s[0] == '-' then [' '] + TitleChars(s[1..], true)
    else [if atStart then UpperChar(s[0]) else s[0]] + TitleChars(s[1..], false)
  }

  lemma {:induction false} TitleCharsAt(s: string, atStart: bool)
    ensures |TitleChars(s, atStart)| == |s|
    ensures forall i {:trigger TitleChars(s, atStart)[i]} :: 0 <= i < |s| ==>
      TitleChars(s, atStart)[i] ==
        if s[i] == '-' then ' '
        else if (i == 0 && atStart) || (i > 0 && s[i - 1] == '-') then UpperChar(s[i])
        else s[i]
    decreases |s|
  {
    if s != [] {
      var rest := s[1..];
      TitleCharsAt(rest, s[0] == '-');
      assert TitleChars(s, atStart) == [if s[0] == '-' then ' ' else if atStart then UpperChar(s[0]) else s[0]] + TitleChars(rest, s[0] == '-');
      forall i | 0 <= i < |s|
        ensures TitleChars(s, atStart)[i] ==
          if s[i] == '-' then ' '
          else if (i == 0 && atStart) || (i > 0 && s[i - 1] == '-') then UpperChar(s[i])
          else s[i]
      {
        if i > 0 {
          assert TitleChars(s, atStart)[i] == TitleChars(rest, s[0] == '-')[i - 1];
          assert rest[i - 1] == s[i];
          if i > 1 {
            assert rest[i - 2] == s[i - 1];
          }
        }
      }
    }
  }

  lemma JoinConsHead(x: string, y: string, tail: seq<string>, sep: string)
    ensures Join([x + y] + tail, sep) == x + Join([y] + tail, sep)
  {
    if tail != [] {
      assert ([x + y] + tail)[1..] == tail;
      assert ([y] + tail)[1..] == tail;
    }
  }

  lemma JoinConsEmpty(tail: seq<string>, sep: string)
    requires tail != []
    ensures Join([""] + tail, sep) == sep + Join(tail, sep)
  {
    assert ([""] + tail)[1..] == tail;
  }

  /** The formatted slug, with the first word left as it is. */
  lemma {:induction false} FormatRest(s: string)
    ensures var parts := Split(s, '-');
      Join([parts[0]] + CapitalizeAll(parts[1..]), " ") == TitleChars(s, false)
    decreases |s|, 0
  {
    var parts := Split(s, '-');
    if s == [] {
      assert parts == [""];
    } else {
      var rest := Split(s[1..], '-');
      if s[0] == '-' {
        assert parts == [""] + rest;
        assert parts[1..] == rest;
        FormatAll(s[1..]);
        JoinConsEmpty(CapitalizeAll(rest), " ");
      } else {
        assert parts == [[s[0]] + rest[0]] + rest[1..];
        assert parts[1..] == rest[1..];
        FormatRest(s[1..]);
        JoinConsHead([s[0]], rest[0], CapitalizeAll(rest[1..]), " ");
      }
    }
  }

  /** The formatted slug, with every word capitalised. */
  lemma {:induction false} FormatAll(s: string)
    ensures FormatSlug(s) == TitleChars(s, true)
    decreases |s|, 1
  {
    var parts := Split(s, '-');
    if s == [] {
      assert parts == [""];
      assert CapitalizeAll(parts) == [""];
    } else {
      var rest := Split(s[1..], '-');
      var caps := CapitalizeAll(parts);
      if s[0] == '-' {
        assert parts == [""] + rest;
        assert caps == [""] + CapitalizeAll(rest);
        FormatAll(s[1..]);
        JoinConsEmpty(CapitalizeAll(rest), " ");
      } else {
        var head := [s[0]] + rest[0];
        assert parts == [head] + rest[1..];
        assert Capitalize(head) == [UpperChar(s[0])] + rest[0];
        assert caps == [[UpperChar(s[0])] + rest[0]] + CapitalizeAll(rest[1..]);
        FormatRest(s[1..]);
        JoinConsHead([UpperChar(s[0])], rest[0], CapitalizeAll(rest[1..]), " ");
      }
    }
  }

  /** A slug title has one character per slug character: each `-` becomes a
      space, and the first character and every character after a `-` are
      upper-cased; all other characters are kept. */
  lemma FormatSlugChars(slug: string)
    ensures |FormatSlug(slug)| == |slug|
    ensures forall i {:trigger FormatSlug(slug)[i]} :: 0 <= i < |slug| ==>
      FormatSlug(slug)[i] ==
        if slug[i] == '-' then ' '
        else if i == 0 || slug[i - 1] == '-' then UpperChar(slug[i])
        else slug[i]
  {
    FormatAll(slug);
    TitleCharsAt(slug, true);
  }

  /** The name a brand page shows: the manufacturer for a known slug,
      otherwise the formatted slug. */
  function BrandName(slug: string): string {
    if slug in BrandSlugToManufacturer && BrandSlugToManufacturer[slug] != "" then BrandSlugToManufacturer[slug]
    else FormatSlug(slug)
  }

  const DefaultTitle := "Medical Equipments"

  /** `getPageTitle`. Its category branch falls back to the default title for
      an empty formatted slug, which cannot happen: a category page has a
      non-empty slug value, and formatting keeps the length. */
  function PageTitle(slugArray: seq<string>, products: seq<Cms.Product>): (t: string)
    ensures SelectedProduct(slugArray, products).Some? ==> t == SelectedProduct(slugArray, products).value.title
    ensures IsCategoryPage(slugArray) ==> t == FormatSlug(slugArray[1])
    ensures IsBrandPage(slugArray) ==> t == BrandName(slugArray[1])
    ensures Classify(slugArray) == ListingPage || (IsItemPage(slugArray) && SelectedProduct(slugArray, products).None?)
      ==> t == DefaultTitle
  {
    var selected := SelectedProduct(slugArray, products);
    if IsItemPage(slugArray) && selected.Some? then selected.value.title
    else if IsCategoryPage(slugArray) then
      FormatSlugChars(slugArray[1]);
      var categoryTitle := FormatSlug(slugArray[1]);
      if categoryTitle != "" then categoryTitle else DefaultTitle
    else if IsBrandPage(slugArray) then BrandName(slugArray[1])
    else DefaultTitle
  }

  /** A template literal's text for an optional value: `undefined` when absent. */
  function JsText(s: Option<string>): string {
    match s
    case None => "undefined"
    case Some(v) => v
  }

  function BrandNameOf(p: Cms.Product): Option<string> {
    if p.brand.Some? then Some(p.brand.value.name) else None
  }

  function DepartmentNameOf(p: Cms.Product): Option<string> {
    if p.department.Some? then Some(p.department.value.name) else None
  }

  /** `getPageDescription`. */
  function PageDescription(slugArray: seq<string>, products: seq<Cms.Product>): string {
    var selected := SelectedProduct(slugArray, products);
    if IsItemPage(slugArray) && selected.Some? then
      selected.value.title + " by " + JsText(BrandNameOf(selected.value)) + " - " + JsText(DepartmentNameOf(selected.value))
    else if IsCategoryPage(slugArray) then "Browse our selection of high-quality " + FormatSlug(slugArray[1])
    else if IsBrandPage(slugArray) then "Explore medical equipment from " + BrandName(slugArray[1])
    else "Find high-quality medical devices for your healthcare facility"
  }

  /** `getSearchPlaceholder`. */
  function SearchPlaceholder(slugArray: seq<string>, products: seq<Cms.Product>): string {
    var selected := SelectedProduct(slugArray, products);
    if IsItemPage(slugArray) && selected.Some? then
      "Search similar " + JsText(DepartmentNameOf(selected.value)) + " equipment..."
    else if IsCategoryPage(slugArray) then "Search " + FormatSlug(slugArray[1]) + "..."
    else if IsBrandPage(slugArray) then "Search " + BrandName(slugArray[1]) + " products..."
    else "Search medical equipment..."
  }

  /** On category and brand pages the description and the search placeholder
      name what the title names; on an item page the description begins with
      the product title. */
  lemma HeadingsAgree(slugArray: seq<string>, products: seq<Cms.Product>)
    ensures var title := PageTitle(slugArray, products);
      (IsCategoryPage(slugArray) ==>
         PageDescription(slugArray, products) == "Browse our selection of high-quality " + title
         && SearchPlaceholder(slugArray, products) == "Search " + title + "...")
      && (IsBrandPage(slugArray) ==>
         PageDescription(slugArray, products) == "Explore medical equipment from " + title
         && SearchPlaceholder(slugArray, products) == "Search " + title + " products...")
      && (SelectedProduct(slugArray, products).Some? ==> title <= PageDescription(slugArray, products))
  {
  }

  const ProductsPerPage := 9

  /** `Math.ceil(n / 9)`. */
  function TotalPages(n: nat): (t: nat)
    ensures (t - 1) * ProductsPerPage < n <= t * ProductsPerPage || (n == 0 && t == 0)
  {
    (n + ProductsPerPage - 1) / ProductsPerPage
  }

  /** `getCurrentProducts`: the slice for a page number, which no one clamps
      (a page below 1 gives negative slice bounds, counted from the end). */
  function CurrentProducts<T>(products: seq<T>, currentPage: int): seq<T> {
    var start := (currentPage - 1) * ProductsPerPage;
    Lists.Slice(products, start, start + ProductsPerPage)
  }

  /** At most nine products are shown, whatever the page number. */
  lemma PageSize<T>(products: seq<T>, currentPage: int)
    ensures |CurrentProducts(products, currentPage)| <= ProductsPerPage
  {
  }

  /** From page 1 on, the shown products are the list from (page - 1) * 9 up
      to nine further, cut at the end of the list. */
  lemma DisplayedSlice<T>(products: seq<T>, currentPage: int)
    requires currentPage >= 1
    ensures var start := (currentPage - 1) * ProductsPerPage;
      CurrentProducts(products, currentPage) ==
        if start < |products| then products[start..if start + ProductsPerPage < |products| then start + ProductsPerPage else |products|]
        else []
  {
  }

  /** Every page from 1 to the page count has something on it. */
  lemma PagesNonEmpty<T>(products: seq<T>, currentPage: int)
    requires 1 <= currentPage <= TotalPages(|products|)
    ensures CurrentProducts(products, currentPage) != []
  {
    DisplayedSlice(products, currentPage);
  }

  /** The page number survives a filter change: on page 3 of a longer list,
      a filter that leaves nine products shows none of them, though the
      count says nine and the pager offers a single page. */
  lemma StalePageAfterFilter<T>(filtered: seq<T>)
    requires |filtered| == ProductsPerPage
    ensures TotalPages(|filtered|) == 1
    ensures filtered != [] && CurrentProducts(filtered, 3) == []
  {
  }

  /** Pages 1 to `k`, one after the other. */
  function PagesUpTo<T>(products: seq<T>, k: nat): seq<T> {
    if k == 0 then [] else PagesUpTo(products, k - 1) + CurrentProducts(products, k)
  }

  lemma {:induction false} PagesUpToPrefix<T>(products: seq<T>, k: nat)
    ensures PagesUpTo(products, k) == products[..if k * ProductsPerPage < |products| then k * ProductsPerPage else |products|]
  {
    if k > 0 {
      PagesUpToPrefix(products, k - 1);
      DisplayedSlice(products, k);
    }
  }

  /** The pages 1 to the page count, concatenated, are the whole list in
      order: paging loses, repeats and reorders nothing. */
  lemma PagesPartition<T>(products: seq<T>)
    ensures PagesUpTo(products, TotalPages(|products|)) == products
  {
    PagesUpToPrefix(products, TotalPages(|products|));
  }

  /** The products page's state. */
  class ProductsPage {
    var products: seq<Cms.Product>
    var currentPage: int
    var isLoading: bool

    constructor()
      ensures products == [] && currentPage == 1 && !isLoading
    {
      products := [];
      currentPage := 1;
      isLoading := false;
    }

    /** The mount effect: the fetched products, when the fetch succeeds. */
    method LoadProducts(data: Option<seq<Cms.Product>>)
      modifies this
      ensures products == if data.Some? then data.value else old(products)
      ensures currentPage == old(currentPage) && isLoading == old(isLoading)
    {
      if data.Some? {
        products := data.value;
      }
    }

    /** `handleFilterChange`: sends the brand and department lists (an absent
        one as `[]`), keeps the old products when the fetch fails, always ends
        not loading, and leaves the page number alone. */
    method HandleFilterChange(filters: Filters.FilterState, fetch: string -> Option<seq<Cms.Product>>)
      returns (sent: ProductApi.FilterParams)
      modifies this
      ensures sent == ProductApi.FilterParams(Some(filters.brands.GetOr([])), Some(filters.departments.GetOr([])))
      ensures products == ProductApi.GetFilteredProducts(sent, fetch).GetOr(old(products))
      ensures !isLoading && currentPage == old(currentPage)
    {
      isLoading := true;
      sent := ProductApi.FilterParams(Some(filters.brands.GetOr([])), Some(filters.departments.GetOr([])));
      products := ProductApi.GetFilteredProducts(sent, fetch).GetOr(products);
      isLoading := false;
    }

    /** `handleFilterChange` as it evidently should be: the same request
        and update, and back to page 1, so that a non-empty result always
        shows products. */
    method HandleFilterChangeFromFirstPage(filters: Filters.FilterState, fetch: string -> Option<seq<Cms.Product>>)
      returns (sent: ProductApi.FilterParams)
      modifies this
      ensures sent == ProductApi.FilterParams(Some(filters.brands.GetOr([])), Some(filters.departments.GetOr([])))
      ensures products == ProductApi.GetFilteredProducts(sent, fetch).GetOr(old(products))
      ensures !isLoading && currentPage == 1
      ensures products != [] ==> Displayed() != []
    {
      sent := HandleFilterChange(filters, fetch);
      currentPage := 1;
      if products != [] {
        PagesNonEmpty(products, 1);
      }
    }

    /** `handlePageChange`: stores the page as given. */
    method HandlePageChange(page: int)
      modifies this
      ensures currentPage == page
      ensures products == old(products) && isLoading == old(isLoading)
    {
      currentPage := page;
    }

    function Displayed(): seq<Cms.Product>
      reads this
    {
      CurrentProducts(products, currentPage)
    }
  }

  /** The stale page as a run of the page as written: page 3 is chosen, then
      a filter returns nine products; the count shows nine, the grid shows
      none. */
  method StalePageScenario(filters: Filters.FilterState, nine: seq<Cms.Product>) returns (page: ProductsPage)
    requires |nine| == ProductsPerPage
    ensures page.products == nine && page.currentPage == 3
    ensures page.Displayed() == []
  {
    page := new ProductsPage();
    page.HandlePageChange(3);
    var _ := page.HandleFilterChange(filters, _ => Some(nine));
    StalePageAfterFilter(nine);
  }
}

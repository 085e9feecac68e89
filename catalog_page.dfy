/** The catalog page: a fixed list of products narrowed by a search query and
    by the category and brand selections of its `ProductFilter` panel, and the
    page state (`searchQuery`, `filters`, `isMobileFilterOpen`). */
module Catalog {
  import opened Wrappers
  import opened JsStrings
  import Lists
  import Filters
  import ProductFilterPanel

  datatype CatalogProduct = CatalogProduct(
    id: string, title: string, category: string, manufacturer: string,
    price: string, rating: real, reviewCount: nat, isNew: bool, isFeatured: bool)

  const CatalogProducts: seq<CatalogProduct> := [
    CatalogProduct("digital-xray", "Digital X-Ray System Pro", "Imaging", "Siemens Healthineers", "$24,999", 4.8, 124, true, false),
    CatalogProduct("ultrasound-device", "Advanced Ultrasound Machine", "Diagnostic", "GE Healthcare", "$18,750", 4.6, 112, false, false),
    CatalogProduct("ecg-machine", "Portable ECG Machine", "Diagnostic", "BPL Medical", "$3,499", 4.5, 87, false, false),
    CatalogProduct("patient-monitor", "Multi-Parameter Patient Monitor with ECG", "Monitoring", "Philips Healthcare", "$7,999", 4.7, 98, false, true),
    CatalogProduct("surgical-microscope", "High-Precision Surgical Microscope", "Surgical", "Carl Zeiss", "$35,599", 4.9, 76, false, false),
    CatalogProduct("anesthesia-workstation", "Advanced Anesthesia Workstation", "Surgical", "Drager", "$42,850", 4.8, 64, true, false)]

  /** Category ids of the panel and the product category each stands for. */
  const CategoryMap: map<string, string> := map[
    "diagnostic" := "Diagnostic",
    "surgical" := "Surgical",
    "monitoring" := "Monitoring",
    "imaging" := "Imaging",
    "laboratory" := "Laboratory",
    "dental" := "Dental"]

  /** Brand ids of the panel and the manufacturer each stands for. */
  const BrandMap: map<string, string> := map[
    "siemens" := "Siemens Healthineers",
    "philips" := "Philips Healthcare",
    "ge" := "GE Healthcare",
    "drager" := "Drager",
    "zeiss" := "Carl Zeiss",
    "bpl" := "BPL Medical"]

  /** The lower-cased query occurs in the lower-cased title, manufacturer or
      category. */
  predicate MatchesText(p: CatalogProduct, query: string) {
    var q := Lower(query);
    Includes(Lower(p.title), q) || Includes(Lower(p.manufacturer), q) || Includes(Lower(p.category), q)
  }

  /** `ids.some(id => value === m[id])`: an id without an entry matches nothing. */
  predicate SomeMapsTo(ids: seq<string>, m: map<string, string>, value: string) {
    exists i :: 0 <= i < |ids| && ids[i] in m && m[ids[i]] == value
  }

  /** `list?.length`: absent and empty both mean "no restriction". */
  predicate Restricts(list: Option<seq<string>>) {
    list.Some? && |list.value| > 0
  }

  /** The `filteredProducts` callback, as the chain of early returns it is. */
  function Keep(searchQuery: string, filters: Filters.FilterState): CatalogProduct -> bool {
    p =>
      if searchQuery != "" && !MatchesText(p, searchQuery) then false
      else if Restricts(filters.categories) && !SomeMapsTo(filters.categories.value, CategoryMap, p.category) then false
      else if Restricts(filters.brands) && !SomeMapsTo(filters.brands.value, BrandMap, p.manufacturer) then false
      else true
  }

  /** The three criteria on their own. */
  predicate SearchCriterion(searchQuery: string, p: CatalogProduct) {
    searchQuery == "" || MatchesText(p, searchQuery)
  }

  predicate CategoryCriterion(filters: Filters.FilterState, p: CatalogProduct) {
    Restricts(filters.categories) ==> SomeMapsTo(filters.categories.value, CategoryMap, p.category)
  }

  predicate BrandCriterion(filters: Filters.FilterState, p: CatalogProduct) {
    Restricts(filters.brands) ==> SomeMapsTo(filters.brands.value, BrandMap, p.manufacturer)
  }

  function SearchOnly(searchQuery: string): CatalogProduct -> bool { p => SearchCriterion(searchQuery, p) }
  function CategoryOnly(filters: Filters.FilterState): CatalogProduct -> bool { p => CategoryCriterion(filters, p) }
  function BrandOnly(filters: Filters.FilterState): CatalogProduct -> bool { p => BrandCriterion(filters, p) }

  /** The products the grid shows. */
  function Filtered(products: seq<CatalogProduct>, searchQuery: string, filters: Filters.FilterState): seq<CatalogProduct> {
    Lists.Filter(products, Keep(searchQuery, filters))
  }

  /** A product is shown exactly when it is in the list and meets all three
      criteria. */
  lemma FilteredMembers(products: seq<CatalogProduct>, searchQuery: string, filters: Filters.FilterState, p: CatalogProduct)
    ensures p in Filtered(products, searchQuery, filters) <==>
      p in products && SearchCriterion(searchQuery, p) && CategoryCriterion(filters, p) && BrandCriterion(filters, p)
  {
    Lists.FilterMembers(products, Keep(searchQuery, filters), p);
  }

  /** Every shown product contains the query (when there is one), has the
      category of some selected category id and the manufacturer of some
      selected brand id (when those are selected). */
  lemma ShownProductsMatch(products: seq<CatalogProduct>, searchQuery: string, filters: Filters.FilterState)
    ensures forall p :: p in Filtered(products, searchQuery, filters) ==>
      (searchQuery != "" ==> MatchesText(p, searchQuery))
      && (Restricts(filters.categories) ==>
            exists i :: 0 <= i < |filters.categories.value| && filters.categories.value[i] in CategoryMap
                        && p.category == CategoryMap[filters.categories.value[i]])
      && (Restricts(filters.brands) ==>
            exists i :: 0 <= i < |filters.brands.value| && filters.brands.value[i] in BrandMap
                        && p.manufacturer == BrandMap[filters.brands.value[i]])
  {
    forall p | p in Filtered(products, searchQuery, filters)
      ensures SearchCriterion(searchQuery, p) && CategoryCriterion(filters, p) && BrandCriterion(filters, p)
    {
      FilteredMembers(products, searchQuery, filters, p);
    }
  }

  /** Without a query and without selections the whole list is shown, in order. */
  lemma NoCriteriaShowsAll(products: seq<CatalogProduct>, filters: Filters.FilterState)
    requires !Restricts(filters.categories) && !Restricts(filters.brands)
    ensures Filtered(products, "", filters) == products
  {
    Lists.FilterAll(products, Keep("", filters));
  }

  /** The shown list is an order-preserving sub-list of the products. */
  lemma FilteredIsSubsequence(products: seq<CatalogProduct>, searchQuery: string, filters: Filters.FilterState)
    ensures Lists.IsSubsequence(Filtered(products, searchQuery, filters), products)
  {
    Lists.FilterIsSubsequence(products, Keep(searchQuery, filters));
  }

  /** The price-range selection (and a `departments` field) never change what
      is shown. */
  lemma PriceRangesIgnored(products: seq<CatalogProduct>, searchQuery: string, filters: Filters.FilterState,
                           priceRanges: Option<seq<string>>, departments: Option<seq<string>>)
    ensures Filtered(products, searchQuery, filters.(priceRanges := priceRanges, departments := departments))
         == Filtered(products, searchQuery, filters)
  {
    var other := filters.(priceRanges := priceRanges, departments := departments);
    Lists.FilterExtensional(products, Keep(searchQuery, other), Keep(searchQuery, filters));
  }

  /** The criteria combine by AND: the shown list is the list narrowed by the
      search, then by category, then by brand. */
  lemma CriteriaCompose(products: seq<CatalogProduct>, searchQuery: string, filters: Filters.FilterState)
    ensures Filtered(products, searchQuery, filters)
         == Lists.Filter(Lists.Filter(Lists.Filter(products, SearchOnly(searchQuery)), CategoryOnly(filters)), BrandOnly(filters))
  {
    var s, c, b := SearchOnly(searchQuery), CategoryOnly(filters), BrandOnly(filters);
    var sc: CatalogProduct -> bool := p => s(p) && c(p);
    Lists.FilterConjunction(products, sc, b, Keep(searchQuery, filters));
    Lists.FilterConjunction(products, s, c, sc);
  }

  /** So a product is shown exactly when each single criterion alone would
      show it. */
  lemma CriteriaIntersect(products: seq<CatalogProduct>, searchQuery: string, filters: Filters.FilterState, p: CatalogProduct)
    ensures p in Filtered(products, searchQuery, filters) <==>
      p in Lists.Filter(products, SearchOnly(searchQuery))
      && p in Lists.Filter(products, CategoryOnly(filters))
      && p in Lists.Filter(products, BrandOnly(filters))
  {
    FilteredMembers(products, searchQuery, filters, p);
    Lists.FilterMembers(products, SearchOnly(searchQuery), p);
    Lists.FilterMembers(products, CategoryOnly(filters), p);
    Lists.FilterMembers(products, BrandOnly(filters), p);
  }

  /** Selecting only category ids that have no map entry shows nothing. */
  lemma UnmappedCategoriesShowNothing(products: seq<CatalogProduct>, searchQuery: string, filters: Filters.FilterState)
    requires Restricts(filters.categories)
    requires forall i :: 0 <= i < |filters.categories.value| ==> filters.categories.value[i] !in CategoryMap
    ensures Filtered(products, searchQuery, filters) == []
  {  Lists.FilterNone(products, Keep(searchQuery, filters));
  }

  /** Selecting only brand ids that have no map entry shows nothing. */
  lemma UnmappedBrandsShowNothing(products: seq<CatalogProduct>, searchQuery: string, filters: Filters.FilterState)
    requires Restricts(filters.brands)
    requires forall i :: 0 <= i < |filters.brands.value| ==> filters.brands.value[i] !in BrandMap
    ensures Filtered(products, searchQuery, filters) == []
  {  Lists.FilterNone(products, Keep(searchQuery, filters));
  }

  /** The panel offers "physiotherapy" and "emergency" as categories and
      "medtronic" and "mindray" as brands, none of which has a map entry:
      selecting any of them alone empties the grid. */
  lemma PanelIdsWithoutEntry(products: seq<CatalogProduct>, searchQuery: string, priceRanges: seq<string>)
    ensures Filtered(products, searchQuery, Filters.Selections(["physiotherapy", "emergency"], [], priceRanges)) == []
    ensures Filtered(products, searchQuery, Filters.Selections([], ["medtronic", "mindray"], priceRanges)) == []
  {
    UnmappedCategoriesShowNothing(products, searchQuery, Filters.Selections(["physiotherapy", "emergency"], [], priceRanges));
    UnmappedBrandsShowNothing(products, searchQuery, Filters.Selections([], ["medtronic", "mindray"], priceRanges));
  }

  /** The catalog page's state. */
  class CatalogPage {
    var searchQuery: string
    var filters: Filters.FilterState
    var isMobileFilterOpen: bool

    constructor()
      ensures searchQuery == "" && filters == Filters.Selections([], [], []) && !isMobileFilterOpen
      ensures Shown() == CatalogProducts
    {
      searchQuery := "";
      filters := Filters.Selections([], [], []);
      isMobileFilterOpen := false;
      NoCriteriaShowsAll(CatalogProducts, Filters.Selections([], [], []));
    }

    function Shown(): seq<CatalogProduct>
      reads this
    {
      Filtered(CatalogProducts, searchQuery, filters)
    }

    method HandleSearch(query: string)
      modifies this
      ensures searchQuery == query
      ensures filters == old(filters) && isMobileFilterOpen == old(isMobileFilterOpen)
    {
      searchQuery := query;
    }

    method HandleFilterChange(newFilters: Filters.FilterState)
      modifies this
      ensures filters == newFilters
      ensures searchQuery == old(searchQuery) && isMobileFilterOpen == old(isMobileFilterOpen)
    {
      filters := newFilters;
    }

    method ToggleMobileFilter()
      modifies this
      ensures isMobileFilterOpen == !old(isMobileFilterOpen)
      ensures searchQuery == old(searchQuery) && filters == old(filters)
    {
      isMobileFilterOpen := !isMobileFilterOpen;
    }

    /** The "Clear Filters" button of the empty grid: the three lists become
        `[]`; the search query stays, so with an empty query everything is
        shown again. */
    method ClearFilters()
      modifies this
      ensures filters == Filters.Selections([], [], [])
      ensures searchQuery == old(searchQuery) && isMobileFilterOpen == old(isMobileFilterOpen)
      ensures searchQuery == "" ==> Shown() == CatalogProducts
    {
      filters := Filters.Selections([], [], []);
      NoCriteriaShowsAll(CatalogProducts, filters);
    }

    /** The drawer's "Apply Filters": the panel's apply, which hands its
        selections to this page, and then the drawer's close, which toggles
        it. */
    method MobileApplyFilters(panel: ProductFilterPanel.ProductFilter)
      modifies this
      ensures filters == Filters.Selections(panel.selectedCategories, panel.selectedBrands, panel.selectedPriceRanges)
      ensures isMobileFilterOpen == !old(isMobileFilterOpen) && searchQuery == old(searchQuery)
    {
      var emitted := panel.ApplyFilters();
      HandleFilterChange(emitted);
      ToggleMobileFilter();
    }
  }
}

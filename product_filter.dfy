/** The `ProductFilter` panel of the catalog: three selection lists that the
    checkboxes toggle, apply and clear, a re-sync from the `initialFilters`
    property, and the `FilterGroup` lists that show six options until "See
    all" is clicked. */
module ProductFilterPanel {
  import opened Wrappers
  import Lists
  import Filters

  /** One checkbox option of a group. */
  datatype FilterItem = FilterItem(id: string, name: string, count: nat)

  const InitialVisible := 6

  /** The options a group shows: `items.slice(0, visibleItems)`. */
  function VisibleOf(items: seq<FilterItem>, visibleItems: int): (r: seq<FilterItem>)
    ensures r <= items
    ensures visibleItems >= 0 ==> |r| == if visibleItems < |items| then visibleItems else |items|
  {
    Lists.Slice(items, 0, visibleItems)
  }

  /** "See all" is offered while some option is hidden. Both buttons are
      rendered only inside the expanded group; these predicates say which
      button the expanded group shows. */
  predicate SeeAllShown(items: seq<FilterItem>, visibleItems: int) {
    |items| > visibleItems
  }

  /** "Show less" is offered when a group longer than six shows everything. */
  predicate ShowLessShown(items: seq<FilterItem>, visibleItems: int) {
    visibleItems == |items| && |items| > InitialVisible
  }

  /** In every state a group can reach (six shown, or all of them), a group of
      more than six options offers exactly one of the two buttons, and a
      shorter one offers neither. */
  lemma OneButtonAtATime(items: seq<FilterItem>, visibleItems: int)
    requires visibleItems == InitialVisible || visibleItems == |items|
    ensures !(SeeAllShown(items, visibleItems) && ShowLessShown(items, visibleItems))
    ensures SeeAllShown(items, visibleItems) || ShowLessShown(items, visibleItems) <==> |items| > InitialVisible
  {
  }

  /** One collapsible group of options. */
  class FilterGroup {
    var items: seq<FilterItem>
    var expanded: bool
    var visibleItems: int

    /** The states the group's handlers can reach. */
    predicate Valid()
      reads this
    {
      visibleItems == InitialVisible || visibleItems == |items|
    }

    constructor(items: seq<FilterItem>, isExpanded: bool)
      ensures Valid()
      ensures this.items == items && expanded == isExpanded && visibleItems == InitialVisible
      ensures Visible() == items[..if |items| < InitialVisible then |items| else InitialVisible]
    {
      this.items := items;
      expanded := isExpanded;
      visibleItems := InitialVisible;
    }

    function Visible(): seq<FilterItem>
      reads this
    {
      VisibleOf(items, visibleItems)
    }

    /** Clicking the header opens or closes the group. */
    method ToggleExpanded()
      modifies this
      ensures expanded == !old(expanded)
      ensures items == old(items) && visibleItems == old(visibleItems)
    {
      expanded := !expanded;
    }

    /** "See all": every option is shown and the button goes away. */
    method SeeAll()
      modifies this
      ensures visibleItems == |items| && Valid()
      ensures Visible() == items && !SeeAllShown(items, visibleItems)
      ensures ShowLessShown(items, visibleItems) <==> |items| > InitialVisible
      ensures items == old(items) && expanded == old(expanded)
    {
      visibleItems := |items|;
    }

    /** "Show less": back to the first six options. */
    method ShowLess()
      modifies this
      ensures visibleItems == InitialVisible && Valid()
      ensures Visible() == items[..if |items| < InitialVisible then |items| else InitialVisible]
      ensures SeeAllShown(items, visibleItems) <==> |items| > InitialVisible
      ensures items == old(items) && expanded == old(expanded)
    {
      visibleItems := InitialVisible;
    }
  }

  /** The panel's three selection lists. */
  class ProductFilter {
    var selectedCategories: seq<string>
    var selectedBrands: seq<string>
    var selectedPriceRanges: seq<string>

    /** Selections start from the `initialFilters` property, absent lists as `[]`. */
    constructor(initialFilters: Filters.FilterState)
      ensures selectedCategories == initialFilters.categories.GetOr([])
      ensures selectedBrands == initialFilters.brands.GetOr([])
      ensures selectedPriceRanges == initialFilters.priceRanges.GetOr([])
    {
      selectedCategories := initialFilters.categories.GetOr([]);
      selectedBrands := initialFilters.brands.GetOr([]);
      selectedPriceRanges := initialFilters.priceRanges.GetOr([]);
    }

    /** The effect that runs when `initialFilters` changes: all three lists
        are replaced, absent ones by `[]`. */
    method SyncInitialFilters(initialFilters: Filters.FilterState)
      modifies this
      ensures selectedCategories == initialFilters.categories.GetOr([])
      ensures selectedBrands == initialFilters.brands.GetOr([])
      ensures selectedPriceRanges == initialFilters.priceRanges.GetOr([])
    {
      selectedCategories := initialFilters.categories.GetOr([]);
      selectedBrands := initialFilters.brands.GetOr([]);
      selectedPriceRanges := initialFilters.priceRanges.GetOr([]);
    }

    method ToggleCategory(id: string)
      modifies this
      ensures selectedCategories == Filters.Toggle(old(selectedCategories), id)
      ensures selectedBrands == old(selectedBrands) && selectedPriceRanges == old(selectedPriceRanges)
    {
      selectedCategories := Filters.Toggle(selectedCategories, id);
    }

    method ToggleBrand(id: string)
      modifies this
      ensures selectedBrands == Filters.Toggle(old(selectedBrands), id)
      ensures selectedCategories == old(selectedCategories) && selectedPriceRanges == old(selectedPriceRanges)
    {
      selectedBrands := Filters.Toggle(selectedBrands, id);
    }

    method TogglePriceRange(id: string)
      modifies this
      ensures selectedPriceRanges == Filters.Toggle(old(selectedPriceRanges), id)
      ensures selectedCategories == old(selectedCategories) && selectedBrands == old(selectedBrands)
    {
      selectedPriceRanges := Filters.Toggle(selectedPriceRanges, id);
    }

    /** "Apply": emits the three current selections and changes nothing. */
    method ApplyFilters() returns (emitted: Filters.FilterState)
      ensures emitted.categories == Some(selectedCategories)
      ensures emitted.brands == Some(selectedBrands)
      ensures emitted.priceRanges == Some(selectedPriceRanges)
      ensures emitted.departments.None?
    {
      emitted := Filters.Selections(selectedCategories, selectedBrands, selectedPriceRanges);
    }

    /** "Clear all": empties the three lists and emits the all-empty state. */
    method ClearFilters() returns (emitted: Filters.FilterState)
      modifies this
      ensures selectedCategories == [] && selectedBrands == [] && selectedPriceRanges == []
      ensures emitted == Filters.Selections([], [], [])
      ensures !HasActiveFilters()
    {
      selectedCategories := [];
      selectedBrands := [];
      selectedPriceRanges := [];
      emitted := Filters.Selections([], [], []);
    }

    predicate HasActiveFilters()
      reads this
    {
      Filters.HasActiveFilters(selectedCategories, selectedBrands, selectedPriceRanges)
    }

    /** The number on the badge. */
    function ActiveCount(): nat
      reads this
    {
      Filters.ActiveCount(selectedCategories, selectedBrands, selectedPriceRanges)
    }
  }
}

/** The `SideFilter` panel of the products page: three selection lists that
    start empty, toggled by the checkboxes; apply and clear report to the
    `onFilterChange` callback only when one was given. The panel has no
    initial-filter property, so a category page's department never reaches
    it. */
module SideFilterPanel {
  import opened Wrappers
  import Filters
  import ProductApi

  class SideFilter {
    /** Whether the `onFilterChange` property was passed. */
    const hasCallback: bool
    var selectedCategories: seq<string>
    var selectedBrands: seq<string>
    var selectedPriceRanges: seq<string>

    constructor(hasCallback: bool)
      ensures this.hasCallback == hasCallback
      ensures selectedCategories == [] && selectedBrands == [] && selectedPriceRanges == []
    {
      this.hasCallback := hasCallback;
      selectedCategories := [];
      selectedBrands := [];
      selectedPriceRanges := [];
    }

    method ToggleCategory(id: string)
      modifies this
      ensures selectedCategories == Filters.Toggle(old(selectedCategories), id)
      ensures selectedBrands == old(selectedBrands) && selectedPriceRanges == old(selectedPriceRanges)
    {
      selectedCategories := Filters.Toggle(selectedCategories, id);
    }

    method ToggleBrand(id: string)
      modifies this
      ensures selectedBrands == Filters.Toggle(old(selectedBrands), id)
      ensures selectedCategories == old(selectedCategories) && selectedPriceRanges == old(selectedPriceRanges)
    {
      selectedBrands := Filters.Toggle(selectedBrands, id);
    }

    method TogglePriceRange(id: string)
      modifies this
      ensures selectedPriceRanges == Filters.Toggle(old(selectedPriceRanges), id)
      ensures selectedCategories == old(selectedCategories) && selectedBrands == old(selectedBrands)
    {
      selectedPriceRanges := Filters.Toggle(selectedPriceRanges, id);
    }

    /** "Apply": the object handed to the callback, if there is one. It never
        has a `departments` field. */
    method ApplyFilters() returns (emitted: Option<Filters.FilterState>)
      ensures emitted.Some? <==> hasCallback
      ensures emitted.Some? ==>
        (emitted.value.categories == Some(selectedCategories)
         && emitted.value.brands == Some(selectedBrands)
         && emitted.value.priceRanges == Some(selectedPriceRanges)
         && emitted.value.departments.None?)
    {
      if hasCallback {
        emitted := Some(Filters.Selections(selectedCategories, selectedBrands, selectedPriceRanges));
      } else {
        emitted := None;
      }
    }

    /** "Clear All": the lists are always emptied; the all-empty object is
        reported only when there is a callback. */
    method ClearFilters() returns (emitted: Option<Filters.FilterState>)
      modifies this
      ensures selectedCategories == [] && selectedBrands == [] && selectedPriceRanges == []
      ensures emitted == if hasCallback then Some(Filters.Selections([], [], [])) else None
    {
      selectedCategories := [];
      selectedBrands := [];
      selectedPriceRanges := [];
      if hasCallback {
        emitted := Some(Filters.Selections([], [], []));
      } else {
        emitted := None;
      }
    }

    predicate HasActiveFilters()
      reads this
    {
      Filters.HasActiveFilters(selectedCategories, selectedBrands, selectedPriceRanges)
    }
  }

  /** What the products page sends for an object this panel emitted: the
      selected brands, and always an empty department list, so the
      department clause of the query is empty. */
  lemma EmittedDepartmentsAreEmpty(categories: seq<string>, brands: seq<string>, priceRanges: seq<string>)
    ensures var emitted := Filters.Selections(categories, brands, priceRanges);
      var sent := ProductApi.FilterParams(Some(emitted.brands.GetOr([])), Some(emitted.departments.GetOr([])));
      sent.brands == Some(brands) && sent.departments == Some([])
      && ProductApi.DepartmentClause(sent) == ""
  {
  }
}

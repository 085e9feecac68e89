/** The filter selection shared by the catalog and product views: the
    `FilterState` object the filter panels emit, and the list toggle every
    checkbox handler applies (`prev.includes(id) ? prev.filter(item => item
    !== id) : [...prev, id]`). */
module Filters {
  import opened Wrappers
  import Lists

  /** A `FilterState` object; an absent property is `None`. The filter panels
      fill the first three; only the products page sets `departments`. */
  datatype FilterState = FilterState(
    categories: Option<seq<string>>,
    brands: Option<seq<string>>,
    priceRanges: Option<seq<string>>,
    departments: Option<seq<string>>)

  /** The empty object `{}`. */
  const NoFilters := FilterState(None, None, None, None)

  /** The object a filter panel emits: `{categories, brands, priceRanges}`. */
  function Selections(categories: seq<string>, brands: seq<string>, priceRanges: seq<string>): FilterState {
    FilterState(Some(categories), Some(brands), Some(priceRanges), None)
  }

  function NotId(id: string): string -> bool {
    item => item != id
  }

  /** `list.filter(item => item !== id)`. */
  function Without(list: seq<string>, id: string): (r: seq<string>)
    ensures forall x :: x in r <==> x in list && x != id
  {
    WithoutMembers(list, id);
    Lists.Filter(list, NotId(id))
  }

  lemma WithoutMembers(list: seq<string>, id: string)
    ensures forall x :: x in Lists.Filter(list, NotId(id)) <==> x in list && x != id
  {
    forall x ensures x in Lists.Filter(list, NotId(id)) <==> x in list && x != id {
      Lists.FilterMembers(list, NotId(id), x);
    }
  }

  /** Removing `id` twice is removing it once. */
  lemma WithoutTwice(list: seq<string>, id: string)
    ensures Without(Without(list, id), id) == Without(list, id)
  {
    var r := Without(list, id);
    assert forall i :: 0 <= i < |r| ==> NotId(id)(r[i]);
    Lists.FilterAll(r, NotId(id));
  }

  /** Removing `id` ignores an `id` appended at the end. */
  lemma WithoutAppended(list: seq<string>, id: string)
    ensures Without(list + [id], id) == Without(list, id)
  {
    assert (list + [id])[..|list|] == list;
  }

  /** A list without `id` is its own `Without`. */
  lemma WithoutAbsent(list: seq<string>, id: string)
    requires id !in list
    ensures Without(list, id) == list
  {
    assert forall i :: 0 <= i < |list| ==> NotId(id)(list[i]);
    Lists.FilterAll(list, NotId(id));
  }

  /** The checkbox handler's update of one selection list. It flips the
      membership of `id`, keeps every other id and their order (the lists
      agree once `id` is taken out), and appends a newly selected id last. */
  function Toggle(list: seq<string>, id: string): (r: seq<string>)
    ensures id in r <==> id !in list
    ensures Without(r, id) == Without(list, id)
    ensures forall x :: x != id ==> (x in r <==> x in list)
    ensures id !in list ==> r == list + [id]
  {
    if id in list then
      WithoutTwice(list, id);
      Without(list, id)
    else
      WithoutAppended(list, id);
      list + [id]
  }

  /** Toggling an id that was not selected, twice, restores the list. */
  lemma ToggleTwice(list: seq<string>, id: string)
    requires id !in list
    ensures Toggle(Toggle(list, id), id) == list
  {
    WithoutAppended(list, id);
    WithoutAbsent(list, id);
  }

  /** The panel shows a "filters applied" state when some list is non-empty. */
  predicate HasActiveFilters(categories: seq<string>, brands: seq<string>, priceRanges: seq<string>) {
    |categories| > 0 || |brands| > 0 || |priceRanges| > 0
  }

  /** The badge number: the total count of selected ids. */
  function ActiveCount(categories: seq<string>, brands: seq<string>, priceRanges: seq<string>): (n: nat)
    ensures n > 0 <==> HasActiveFilters(categories, brands, priceRanges)
  {
    |categories| + |brands| + |priceRanges|
  }
}

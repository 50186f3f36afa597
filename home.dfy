/**
 * The home page (Pages/Home.js): the featured selection over the loaded
 * restaurants and the search handler that hands a non-blank query on to the
 * restaurant listing.
 */
module Home {
  import opened Wrappers
  import opened Text
  import opened Seqs
  import opened Restaurants

  /** The filter predicate `r => r.is_featured`. */
  function IsFeatured(): Restaurant -> bool {
    (r: Restaurant) => r.is_featured
  }

  /** At most six restaurants are featured. */
  const FeaturedLimit := 6

  /** `allRestaurants.filter(r => r.is_featured).slice(0, 6)`. */
  function Featured(all: seq<Restaurant>): (featured: seq<Restaurant>)
    ensures featured <= Filter(all, IsFeatured())
    ensures |featured| == Min(FeaturedLimit, |Filter(all, IsFeatured())|)
    ensures forall i :: 0 <= i < |featured| ==> featured[i].is_featured && featured[i] in all
  {
    var featured := Take(Filter(all, IsFeatured()), FeaturedLimit);
    assert forall i :: 0 <= i < |featured| ==> featured[i] in Filter(all, IsFeatured());
    featured
  }

  /** With six or fewer featured restaurants, every one of them is shown, in loaded order. */
  lemma FewFeaturedAllShown(all: seq<Restaurant>)
    requires |Filter(all, IsFeatured())| <= FeaturedLimit
    ensures Featured(all) == Filter(all, IsFeatured())
  {
  }

  /** Loading more restaurants behind the first ones never changes a full featured list. */
  lemma FeaturedStableUnderAppend(all: seq<Restaurant>, more: seq<Restaurant>)
    requires |Filter(all, IsFeatured())| >= FeaturedLimit
    ensures Featured(all + more) == Featured(all)
  {
    FilterConcat(all, more, IsFeatured());
  }

  /** `query.trim() ? query : nothing`: the untrimmed query to search for, or none for a blank one. */
  function SearchTarget(query: string): (target: Option<string>)
    ensures target.Some? <==> exists i :: 0 <= i < |query| && !IsWhitespace(query[i])
    ensures target.Some? ==> target.value == query
  {
    TrimEmptyIff(query);
    if Trim(query) != [] then Some(query) else None
  }

  /** The query handed on makes the restaurant listing apply its text filter. */
  lemma TargetIsFilteredOn(query: string, rs: seq<Restaurant>, cuisine: string, sortBy: string)
    requires SearchTarget(query).Some? && Sortable(Filtered(rs, query, cuisine), sortBy)
    ensures forall r :: r in Apply(rs, SearchTarget(query).value, cuisine, sortBy) ==> MatchesQuery(r, query)
  {
    TrimEmptyIff(query);
    ApplyPermutation(rs, query, cuisine, sortBy);
  }

  /** The page state: `restaurants`, `featuredRestaurants` and `searchQuery`. */
  class HomePage {
    var restaurants: seq<Restaurant>
    var featuredRestaurants: seq<Restaurant>
    var searchQuery: string

    constructor ()
      ensures restaurants == [] && featuredRestaurants == [] && searchQuery == ""
    {
      restaurants, featuredRestaurants, searchQuery := [], [], "";
    }

    /** `loadRestaurants` once `Restaurant.list("-rating")` gave `all` (None: it failed). */
    method LoadRestaurants(all: Option<seq<Restaurant>>)
      modifies this
      ensures all.Some? ==> restaurants == all.value && featuredRestaurants == Featured(all.value)
      ensures all.None? ==> restaurants == old(restaurants) && featuredRestaurants == old(featuredRestaurants)
      ensures searchQuery == old(searchQuery)
    {
      if all.Some? {
        restaurants := all.value;
        featuredRestaurants := Featured(all.value);
      }
    }

    /** `handleSearch(query)`: always records the query; `target` is the search the page navigates to, if any. */
    method HandleSearch(query: string) returns (target: Option<string>)
      modifies this
      ensures searchQuery == query
      ensures target == SearchTarget(query)
      ensures restaurants == old(restaurants) && featuredRestaurants == old(featuredRestaurants)
    {
      searchQuery := query;
      if Trim(query) != [] {
        target := Some(query);
      } else {
        target := None;
      }
    }
  }
}

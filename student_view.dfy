/** The public browse page (src/pages/StudentView.tsx): a text search and a
    day filter narrow the fetched items, and the status tabs split what is left. */
module StudentView {
  import opened Types
  import opened Seqs
  import opened ItemLists

  /** `toLowerCase` on one character; only A-Z are mapped. */
  function LowerChar(c: char): char
  {
    if 'A' <= c <= 'Z' then (c as int + 32) as char else c
  }

  function ToLower(s: string): (r: string)
    ensures |r| == |s| && forall i :: 0 <= i < |s| ==> r[i] == LowerChar(s[i])
  {
    Map(s, LowerChar)
  }

  lemma ToLowerIdempotent(s: string)
    ensures ToLower(ToLower(s)) == ToLower(s)
  {
  }

  predicate IsPrefix(p: string, s: string)
  {
    |p| <= |s| && s[..|p|] == p
  }

  /** `hay.includes(needle)`. */
  predicate Includes(hay: string, needle: string)
    decreases |hay|
  {
    IsPrefix(needle, hay) || (hay != [] && Includes(hay[1..], needle))
  }

  /** needle sits in hay starting at position i. */
  predicate OccursAt(hay: string, needle: string, i: int)
  {
    0 <= i <= |hay| - |needle| && hay[i..i + |needle|] == needle
  }

  /** `includes` holds exactly when needle occurs at some position of hay. */
  lemma {:induction false} IncludesIff(hay: string, needle: string)
    ensures Includes(hay, needle) <==> exists i :: OccursAt(hay, needle, i)
    decreases |hay|
  {
    if Includes(hay, needle) {
      if IsPrefix(needle, hay) {
        assert OccursAt(hay, needle, 0);
      } else {
        IncludesIff(hay[1..], needle);
        var i :| OccursAt(hay[1..], needle, i);
        assert hay[i + 1..i + 1 + |needle|] == hay[1..][i..i + |needle|];
        assert OccursAt(hay, needle, i + 1);
      }
    }
    if exists i :: OccursAt(hay, needle, i) {
      var i :| OccursAt(hay, needle, i);
      if i > 0 {
        assert hay[1..][i - 1..i - 1 + |needle|] == hay[i..i + |needle|];
        assert OccursAt(hay[1..], needle, i - 1);
        IncludesIff(hay[1..], needle);
      }
    }
  }

  /** The search test: the lowercased term occurs in the lowercased
      description, place found or collection place. */
  predicate MatchesSearch(item: LostItem, term: string)
  {
    var t := ToLower(term);
    Includes(ToLower(item.description), t) || Includes(ToLower(item.location_found), t) ||
    Includes(ToLower(item.collection_location), t)
  }

  /** The day test: created_at, formatted as yyyy-MM-dd by `format`, equals the filter. */
  predicate OnDate(item: LostItem, date: string, format: Time -> string)
  {
    format(item.created_at) == date
  }

  /** What a filter configuration keeps; an empty search or date means no filter. */
  predicate Keeps(item: LostItem, searchTerm: string, dateFilter: string, format: Time -> string)
  {
    (searchTerm == "" || MatchesSearch(item, searchTerm)) && (dateFilter == "" || OnDate(item, dateFilter, format))
  }

  /** The visible items: those the configuration keeps, in fetched order. */
  function Visible(items: seq<LostItem>, searchTerm: string, dateFilter: string, format: Time -> string): seq<LostItem>
  {
    Filter(items, (x: LostItem) => Keeps(x, searchTerm, dateFilter, format))
  }

  /** `filterItems`: the search filter, then the day filter, each only when set.
      Its result is the single filter by both conditions. */
  method FilterItems(items: seq<LostItem>, searchTerm: string, dateFilter: string, format: Time -> string)
    returns (filtered: seq<LostItem>)
    ensures filtered == Visible(items, searchTerm, dateFilter, format)
  {
    var search := (x: LostItem) => MatchesSearch(x, searchTerm);
    var onDay := (x: LostItem) => OnDate(x, dateFilter, format);
    var keeps := (x: LostItem) => Keeps(x, searchTerm, dateFilter, format);
    filtered := items;
    if searchTerm != "" {
      filtered := Filter(filtered, search);
    }
    if dateFilter != "" {
      filtered := Filter(filtered, onDay);
    }
    if searchTerm != "" && dateFilter != "" {
      FilterFilter(items, search, onDay, keeps);
    } else if searchTerm != "" {
      FilterFilter(items, search, (x: LostItem) => true, keeps);
      FilterKeepsAll(Filter(items, search), (x: LostItem) => true);
    } else if dateFilter != "" {
      FilterFilter(items, (x: LostItem) => true, onDay, keeps);
      FilterKeepsAll(items, (x: LostItem) => true);
    } else {
      FilterKeepsAll(items, keeps);
    }
  }

  /** With no search and no date every fetched item is shown. */
  lemma NoFiltersShowEverything(items: seq<LostItem>, format: Time -> string)
    ensures Visible(items, "", "", format) == items
  {
    FilterKeepsAll(items, (x: LostItem) => Keeps(x, "", "", format));
  }

  /** The visible items are an order-preserving selection of the fetched ones. */
  lemma VisibleIsOrderedSelection(items: seq<LostItem>, searchTerm: string, dateFilter: string, format: Time -> string)
    ensures IsSubsequence(Visible(items, searchTerm, dateFilter, format), items)
  {
    FilterIsSubsequence(items, (x: LostItem) => Keeps(x, searchTerm, dateFilter, format));
  }

  /** An item is visible exactly when it was fetched and the configuration keeps it. */
  lemma VisibleIsExactlyKept(items: seq<LostItem>, searchTerm: string, dateFilter: string, format: Time -> string)
    ensures forall x :: x in Visible(items, searchTerm, dateFilter, format) <==> x in items && Keeps(x, searchTerm, dateFilter, format)
  {
    forall x | x in items && Keeps(x, searchTerm, dateFilter, format)
      ensures x in Visible(items, searchTerm, dateFilter, format)
    {
      var i :| 0 <= i < |items| && items[i] == x;
    }
  }

  /** An item survives a non-empty search iff the lowercased term occurs at some
      position of one of its three lowercased text fields. */
  lemma SearchIsCaseInsensitiveSubstring(item: LostItem, term: string)
    ensures MatchesSearch(item, term) <==>
      (exists i :: OccursAt(ToLower(item.description), ToLower(term), i)) ||
      (exists i :: OccursAt(ToLower(item.location_found), ToLower(term), i)) ||
      (exists i :: OccursAt(ToLower(item.collection_location), ToLower(term), i))
    ensures MatchesSearch(item, term) == MatchesSearch(item, ToLower(term))
  {
    IncludesIff(ToLower(item.description), ToLower(term));
    IncludesIff(ToLower(item.location_found), ToLower(term));
    IncludesIff(ToLower(item.collection_location), ToLower(term));
    ToLowerIdempotent(term);
  }

  /** The day filter alone keeps exactly the items created on that day. */
  lemma DateFilterIsExact(items: seq<LostItem>, dateFilter: string, format: Time -> string)
    requires dateFilter != ""
    ensures Visible(items, "", dateFilter, format) == Filter(items, (x: LostItem) => format(x.created_at) == dateFilter)
  {
    FilterSamePredicate(items, (x: LostItem) => Keeps(x, "", dateFilter, format),
                        (x: LostItem) => format(x.created_at) == dateFilter);
  }

  /** Running the day filter first and the search second gives the same list. */
  lemma FiltersCommute(items: seq<LostItem>, searchTerm: string, dateFilter: string, format: Time -> string)
    requires searchTerm != "" && dateFilter != ""
    ensures Filter(Filter(items, (x: LostItem) => OnDate(x, dateFilter, format)), (x: LostItem) => MatchesSearch(x, searchTerm))
         == Visible(items, searchTerm, dateFilter, format)
  {
    FilterFilter(items, (x: LostItem) => OnDate(x, dateFilter, format), (x: LostItem) => MatchesSearch(x, searchTerm),
                 (x: LostItem) => Keeps(x, searchTerm, dateFilter, format));
  }

  /** The status tabs split the visible list, not the fetched one: a tab only
      shows items the filters keep, and the three tabs hold at most the visible items. */
  lemma TabsSplitVisibleList(items: seq<LostItem>, searchTerm: string, dateFilter: string, format: Time -> string, s: RowStatus)
    ensures forall x :: x in WithStatus(Visible(items, searchTerm, dateFilter, format), s) ==>
      Keeps(x, searchTerm, dateFilter, format) && x.status == s
    ensures var v := Visible(items, searchTerm, dateFilter, format);
      |WithStatus(v, Available)| + |WithStatus(v, Collected)| + |WithStatus(v, Archived)| <= |v|
  {
    StatusCountsAtMostTotal(Visible(items, searchTerm, dateFilter, format));
  }

  class View {
    var items: seq<LostItem>
    var searchTerm: string
    var dateFilter: string
    var filteredItems: seq<LostItem>
    /** Set until the first fetch settles. */
    var loading: bool
    /** date-fns `format(_, 'yyyy-MM-dd')` in the browser's time zone. */
    const format: Time -> string

    /** The effect that re-runs filterItems keeps the shown list in step. */
    ghost predicate Valid()
      reads this
    {
      filteredItems == Visible(items, searchTerm, dateFilter, format)
    }

    constructor (format: Time -> string)
      ensures Valid() && items == [] && searchTerm == "" && dateFilter == "" && this.format == format && loading
    {
      items, searchTerm, dateFilter, filteredItems := [], "", "", [];
      loading := true;
      this.format := format;
    }

    /** `fetchItems`: on success the rows (a null result reading as empty)
        replace the list; on a store error it stays. The filter then re-runs. */
    method FetchItems(data: Option<seq<LostItem>>, storeFails: bool)
      requires Valid()
      modifies this
      ensures Valid() && searchTerm == old(searchTerm) && dateFilter == old(dateFilter)
      ensures items == if storeFails then old(items) else if data.Some? then data.value else []
      ensures !loading
    {
      if !storeFails {
        items := if data.Some? then data.value else [];
      }
      loading := false;
      filteredItems := FilterItems(items, searchTerm, dateFilter, format);
    }

    method SetSearchTerm(term: string)
      requires Valid()
      modifies this
      ensures Valid() && searchTerm == term && items == old(items) && dateFilter == old(dateFilter) && loading == old(loading)
    {
      searchTerm := term;
      filteredItems := FilterItems(items, searchTerm, dateFilter, format);
    }

    method SetDateFilter(date: string)
      requires Valid()
      modifies this
      ensures Valid() && dateFilter == date && items == old(items) && searchTerm == old(searchTerm) && loading == old(loading)
    {
      dateFilter := date;
      filteredItems := FilterItems(items, searchTerm, dateFilter, format);
    }

    /** `getItemsByStatus` on this page reads the filtered list. */
    function GetItemsByStatus(s: RowStatus): (r: seq<LostItem>)
      reads this
      requires Valid()
      ensures r == WithStatus(Visible(items, searchTerm, dateFilter, format), s)
      ensures forall x :: x in r <==> x in items && Keeps(x, searchTerm, dateFilter, format) && x.status == s
      ensures IsSubsequence(r, filteredItems)
    {
      VisibleIsExactlyKept(items, searchTerm, dateFilter, format);
      WithStatusKeepsOrder(filteredItems, s);
      WithStatus(filteredItems, s)
    }
  }
}

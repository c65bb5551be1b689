/**
 * The issue list panel: the three-clause filter over the catalog and the
 * per-session set of issues the viewer supports.
 */
module IssueList {
  import opened Issues
  import opened Text

  /** The four tabs above the list: "all", "critical", "recurrent", "most-voted". */
  datatype FilterTab = AllTab | CriticalTab | RecurrentTab | MostVotedTab

  /** Fixed vote threshold of the "most-voted" tab. */
  const MOST_VOTED_MIN := 150

  /** What the list is filtered by: the header's search text, the dropdown and the tab. */
  datatype Selection = Selection(query: string, neighborhood: string, tab: FilterTab)

  /** Text clause: empty query, or the query occurs, ignoring case, in title, address or neighbourhood. */
  predicate MatchesSearch(issue: Issue, query: string) {
    || query == ""
    || Includes(Lower(issue.title), Lower(query))
    || Includes(Lower(issue.address), Lower(query))
    || Includes(Lower(issue.neighborhood), Lower(query))
  }

  /** Neighbourhood clause: the sentinel, or exactly the issue's neighbourhood. */
  predicate MatchesNeighborhood(issue: Issue, neighborhood: string) {
    neighborhood == ALL_NEIGHBORHOODS || issue.neighborhood == neighborhood
  }

  /** Tab clause. */
  predicate MatchesTab(issue: Issue, tab: FilterTab) {
    match tab
    case AllTab => true
    case CriticalTab => issue.severity == Critical
    case RecurrentTab => issue.isRecurrent
    case MostVotedTab => issue.votes >= MOST_VOTED_MIN
  }

  predicate Matches(issue: Issue, sel: Selection) {
    MatchesSearch(issue, sel.query) && MatchesNeighborhood(issue, sel.neighborhood) && MatchesTab(issue, sel.tab)
  }

  /** `Array.prototype.filter`: the elements `keep` accepts, in their original order. */
  function FilterBy(s: seq<Issue>, keep: Issue -> bool): (r: seq<Issue>)
    ensures |r| <= |s|
    ensures forall x :: x in r <==> x in s && keep(x)
  {
    if s == [] then []
    else (if keep(s[0]) then [s[0]] else []) + FilterBy(s[1..], keep)
  }

  /** Every position moved one place to the right. */
  function Shift(idx: seq<int>): (r: seq<int>)
    ensures |r| == |idx|
    ensures forall k :: 0 <= k < |idx| ==> r[k] == idx[k] + 1
  {
    if idx == [] then [] else [idx[0] + 1] + Shift(idx[1..])
  }

  /**
   * `r` is `s` read at the strictly increasing positions `idx`, and a
   * position of `s` is read exactly when `keep` accepts its element.
   */
  ghost predicate Picks(s: seq<Issue>, keep: Issue -> bool, r: seq<Issue>, idx: seq<int>) {
    && |idx| == |r|
    && (forall k :: 0 <= k < |idx| ==> 0 <= idx[k] < |s| && r[k] == s[idx[k]])
    && Increasing(idx)
    && (forall j :: 0 <= j < |s| ==> (j in idx <==> keep(s[j])))
  }

  ghost predicate Increasing(idx: seq<int>) {
    forall k, l :: 0 <= k < l < |idx| ==> idx[k] < idx[l]
  }

  lemma ShiftIncreasing(rest: seq<int>)
    requires Increasing(rest)
    ensures Increasing(Shift(rest))
  {
    var shifted := Shift(rest);
    forall k, l | 0 <= k < l < |shifted| ensures shifted[k] < shifted[l] {
      assert rest[k] < rest[l];
    }
  }

  lemma PrependZeroIncreasing(idx: seq<int>)
    requires Increasing(idx)
    requires forall k :: 0 <= k < |idx| ==> 1 <= idx[k]
    ensures Increasing([0] + idx)
  {
    var all := [0] + idx;
    forall k, l | 0 <= k < l < |all| ensures all[k] < all[l] {
      assert all[l] == idx[l - 1];
      if k > 0 {
        assert all[k] == idx[k - 1];
      }
    }
  }

  /** A position is in the shifted list exactly when its predecessor is in the original. */
  lemma ShiftMember(rest: seq<int>, j: int)
    ensures j in Shift(rest) <==> j - 1 in rest
  {
    var shifted := Shift(rest);
    if j in shifted {
      var k :| 0 <= k < |shifted| && shifted[k] == j;
      assert rest[k] == j - 1;
    }
    if j - 1 in rest {
      var k :| 0 <= k < |rest| && rest[k] == j - 1;
      assert shifted[k] == j;
    }
  }

  /** Positions read from `s[1..]` become, shifted by one, positions read from `s`. */
  lemma ShiftPositions(s: seq<Issue>, r': seq<Issue>, rest: seq<int>)
    requires s != [] && |rest| == |r'|
    requires forall k :: 0 <= k < |rest| ==> 0 <= rest[k] < |s[1..]| && r'[k] == s[1..][rest[k]]
    ensures forall k :: 0 <= k < |rest| ==> 0 <= Shift(rest)[k] < |s| && r'[k] == s[Shift(rest)[k]]
  {
  }

  /** The head is dropped: picking from `s[1..]` lifts to picking from `s`. */
  lemma PicksSkip(s: seq<Issue>, keep: Issue -> bool, r': seq<Issue>, rest: seq<int>)
    requires s != [] && !keep(s[0])
    requires Picks(s[1..], keep, r', rest)
    ensures Picks(s, keep, r', Shift(rest))
  {
    ShiftIncreasing(rest);
    ShiftPositions(s, r', rest);
    forall j | 0 <= j < |s| ensures j in Shift(rest) <==> keep(s[j]) {
      ShiftMember(rest, j);
      if j > 0 {
        assert s[j] == s[1..][j - 1];
      }
    }
  }

  /** Putting the head in front, at position 0, keeps every read position right. */
  lemma PrependPositions(s: seq<Issue>, r': seq<Issue>, shifted: seq<int>)
    requires s != [] && |shifted| == |r'|
    requires forall k :: 0 <= k < |shifted| ==> 0 <= shifted[k] < |s| && r'[k] == s[shifted[k]]
    ensures forall k :: 0 <= k < |shifted| + 1 ==>
      0 <= ([0] + shifted)[k] < |s| && ([s[0]] + r')[k] == s[([0] + shifted)[k]]
  {
    var r, idx := [s[0]] + r', [0] + shifted;
    forall k | 0 < k < |idx| ensures 0 <= idx[k] < |s| && r[k] == s[idx[k]] {
      assert idx[k] == shifted[k - 1] && r[k] == r'[k - 1];
    }
  }

  /** With the head kept, position 0 joins the shifted positions of the tail. */
  lemma PrependMembers(s: seq<Issue>, keep: Issue -> bool, rest: seq<int>)
    requires s != [] && keep(s[0])
    requires forall j :: 0 <= j < |s[1..]| ==> (j in rest <==> keep(s[1..][j]))
    ensures forall j :: 0 <= j < |s| ==> (j in [0] + Shift(rest) <==> keep(s[j]))
  {
    forall j | 0 < j < |s| ensures j in [0] + Shift(rest) <==> keep(s[j]) {
      ShiftMember(rest, j);
      assert j in [0] + Shift(rest) <==> j in Shift(rest);
      assert s[j] == s[1..][j - 1];
      assert j - 1 in rest <==> keep(s[1..][j - 1]);
    }
  }

  /** The head is kept: it goes in front, at position 0. */
  lemma PicksKeep(s: seq<Issue>, keep: Issue -> bool, r': seq<Issue>, rest: seq<int>)
    requires s != [] && keep(s[0])
    requires Picks(s[1..], keep, r', rest)
    ensures Picks(s, keep, [s[0]] + r', [0] + Shift(rest))
  {
    ShiftIncreasing(rest);
    PrependZeroIncreasing(Shift(rest));
    ShiftPositions(s, r', rest);
    PrependPositions(s, r', Shift(rest));
    PrependMembers(s, keep, rest);
  }

  /**
   * Order preservation: the result is `s` read at strictly increasing
   * positions `idx`, and a position is read exactly when `keep` accepts its
   * element. Nothing is reordered, repeated or left out.
   */
  lemma {:induction false} FilterByKeepsOrder(s: seq<Issue>, keep: Issue -> bool) returns (idx: seq<int>)
    ensures Picks(s, keep, FilterBy(s, keep), idx)
  {
    if s == [] {
      return [];
    }
    var rest := FilterByKeepsOrder(s[1..], keep);
    if keep(s[0]) {
      PicksKeep(s, keep, FilterBy(s[1..], keep), rest);
      idx := [0] + Shift(rest);
    } else {
      PicksSkip(s, keep, FilterBy(s[1..], keep), rest);
      idx := Shift(rest);
    }
  }

  /** A sequence whose every element is accepted passes through unchanged. */
  lemma {:induction false} FilterByAllKept(s: seq<Issue>, keep: Issue -> bool)
    requires forall x :: x in s ==> keep(x)
    ensures FilterBy(s, keep) == s
  {
    if s != [] {
      FilterByAllKept(s[1..], keep);
    }
  }

  /**
   * Narrowing: when `wide` accepts whatever `narrow` accepts, filtering by
   * `narrow` is filtering the `wide` result again.
   */
  lemma {:induction false} FilterByNarrowing(s: seq<Issue>, narrow: Issue -> bool, wide: Issue -> bool)
    requires forall x :: x in s && narrow(x) ==> wide(x)
    ensures FilterBy(FilterBy(s, wide), narrow) == FilterBy(s, narrow)
  {
    if s != [] {
      var head, tail := s[0], s[1..];
      assert head in s;
      FilterByNarrowing(tail, narrow, wide);
      var tailW := FilterBy(tail, wide);
      if wide(head) {
        var all := [head] + tailW;
        assert FilterBy(s, wide) == all;
        assert all[0] == head && all[1..] == tailW;
        assert FilterBy(all, narrow) == (if narrow(head) then [head] else []) + FilterBy(tailW, narrow);
      } else {
        assert !narrow(head);
        assert FilterBy(s, wide) == tailW;
        assert FilterBy(s, narrow) == FilterBy(tail, narrow);
      }
    }
  }

  /** Two callbacks that agree on every element filter alike. */
  lemma {:induction false} FilterByAgree(s: seq<Issue>, keep1: Issue -> bool, keep2: Issue -> bool)
    requires forall x :: x in s ==> keep1(x) == keep2(x)
    ensures FilterBy(s, keep1) == FilterBy(s, keep2)
  {
    if s != [] {
      assert s[0] in s;
      FilterByAgree(s[1..], keep1, keep2);
    }
  }

  /** The callback handed to `filter`. */
  function Keep(sel: Selection): Issue -> bool {
    issue => Matches(issue, sel)
  }

  /** The list's `filtered`: `catalog.filter` with the three clauses ANDed. */
  function Filter(catalog: seq<Issue>, sel: Selection): (r: seq<Issue>)
    ensures |r| <= |catalog|
    ensures forall x :: x in r <==> x in catalog && Matches(x, sel)
  {
    FilterBy(catalog, Keep(sel))
  }

  /**
   * The filtered list is the catalog read at increasing positions, exactly
   * the positions whose row matches.
   */
  lemma FilterKeepsOrder(catalog: seq<Issue>, sel: Selection) returns (idx: seq<int>)
    ensures |idx| == |Filter(catalog, sel)|
    ensures forall k :: 0 <= k < |idx| ==> 0 <= idx[k] < |catalog| && Filter(catalog, sel)[k] == catalog[idx[k]]
    ensures forall k, l :: 0 <= k < l < |idx| ==> idx[k] < idx[l]
    ensures forall j :: 0 <= j < |catalog| ==> (j in idx <==> Matches(catalog[j], sel))
  {
    idx := FilterByKeepsOrder(catalog, Keep(sel));
    assert Picks(catalog, Keep(sel), Filter(catalog, sel), idx);
  }

  /** The filter never yields two rows with the same id when the catalog has none. */
  lemma FilterKeepsIdsDistinct(catalog: seq<Issue>, sel: Selection)
    requires IdsDistinct(catalog)
    ensures IdsDistinct(Filter(catalog, sel))
  {
    var idx := FilterKeepsOrder(catalog, sel);
    var r := Filter(catalog, sel);
    forall i, j | 0 <= i < j < |r| ensures r[i].id != r[j].id {
      assert r[i] == catalog[idx[i]] && r[j] == catalog[idx[j]];
    }
  }

  /** Filtering the result again with the same selection changes nothing. */
  lemma FilterIdempotent(catalog: seq<Issue>, sel: Selection)
    ensures Filter(Filter(catalog, sel), sel) == Filter(catalog, sel)
  {
    FilterByAllKept(Filter(catalog, sel), Keep(sel));
  }

  /** The initial selection (no query, every neighbourhood, tab "all") shows the whole catalog. */
  lemma FilterUnrestricted(catalog: seq<Issue>)
    ensures Filter(catalog, Selection("", ALL_NEIGHBORHOODS, AllTab)) == catalog
  {
    FilterByAllKept(catalog, Keep(Selection("", ALL_NEIGHBORHOODS, AllTab)));
  }

  /**
   * When every row passing `narrow` also passes `wide`, the narrow result is
   * the wide result filtered again, so it is an in-order part of it.
   */
  lemma FilterNarrowing(catalog: seq<Issue>, narrow: Selection, wide: Selection)
    requires forall x :: x in catalog && Matches(x, narrow) ==> Matches(x, wide)
    ensures Filter(Filter(catalog, wide), narrow) == Filter(catalog, narrow)
    ensures |Filter(catalog, narrow)| <= |Filter(catalog, wide)|
  {
    FilterByNarrowing(catalog, Keep(narrow), Keep(wide));
  }

  /** Choosing a tab, a neighbourhood or a non-empty query never adds rows. */
  lemma NarrowingExamples(catalog: seq<Issue>, sel: Selection)
    ensures |Filter(catalog, sel)| <= |Filter(catalog, sel.(tab := AllTab))|
    ensures |Filter(catalog, sel)| <= |Filter(catalog, sel.(neighborhood := ALL_NEIGHBORHOODS))|
    ensures |Filter(catalog, sel)| <= |Filter(catalog, sel.(query := ""))|
  {
    FilterNarrowing(catalog, sel, sel.(tab := AllTab));
    FilterNarrowing(catalog, sel, sel.(neighborhood := ALL_NEIGHBORHOODS));
    FilterNarrowing(catalog, sel, sel.(query := ""));
  }

  /** What each tab guarantees about every row it shows. */
  lemma TabGuarantees(catalog: seq<Issue>, query: string, neighborhood: string)
    ensures forall x :: x in Filter(catalog, Selection(query, neighborhood, CriticalTab)) ==> x.severity == Critical
    ensures forall x :: x in Filter(catalog, Selection(query, neighborhood, RecurrentTab)) ==> x.isRecurrent
    ensures forall x :: x in Filter(catalog, Selection(query, neighborhood, MostVotedTab)) ==> x.votes >= 150
    ensures forall x :: x in Filter(catalog, Selection(query, neighborhood, AllTab)) <==>
      x in catalog && MatchesSearch(x, query) && MatchesNeighborhood(x, neighborhood)
  {
  }

  /** The text clause is blind to the case of the query's ASCII letters. */
  lemma SearchIgnoresQueryCase(issue: Issue, query: string)
    ensures MatchesSearch(issue, Lower(query)) == MatchesSearch(issue, query)
  {
    LowerIdempotent(query);
  }

  /** Hence lower-casing the query never changes the list. */
  lemma FilterIgnoresQueryCase(catalog: seq<Issue>, sel: Selection)
    ensures Filter(catalog, sel.(query := Lower(sel.query))) == Filter(catalog, sel)
  {
    forall x | x in catalog ensures Matches(x, sel.(query := Lower(sel.query))) == Matches(x, sel) {
      SearchIgnoresQueryCase(x, sel.query);
    }
    FilterByAgree(catalog, Keep(sel.(query := Lower(sel.query))), Keep(sel));
  }

  function Ids(issues: seq<Issue>): (r: seq<int>)
    ensures |r| == |issues|
    ensures forall k :: 0 <= k < |issues| ==> r[k] == issues[k].id
  {
    if issues == [] then [] else [issues[0].id] + Ids(issues[1..])
  }

  function KeepTab(tab: FilterTab): Issue -> bool {
    issue => MatchesTab(issue, tab)
  }

  /** With no query and every neighbourhood, only the tab clause decides. */
  lemma TabAloneDecides(catalog: seq<Issue>, tab: FilterTab)
    ensures Filter(catalog, Selection("", ALL_NEIGHBORHOODS, tab)) == FilterBy(catalog, KeepTab(tab))
  {
    FilterByAgree(catalog, Keep(Selection("", ALL_NEIGHBORHOODS, tab)), KeepTab(tab));
  }

  /** The numbers `lo`, `lo + 1`, ..., `hi - 1` that lie in `wanted`, ascending. */
  function NumbersIn(lo: int, hi: int, wanted: set<int>): seq<int>
    decreases hi - lo
  {
    if lo >= hi then [] else (if lo in wanted then [lo] else []) + NumbersIn(lo + 1, hi, wanted)
  }

  /**
   * On a catalog numbered consecutively from `first`, a filter that keeps
   * exactly the ids in `wanted` yields those ids in ascending order.
   */
  lemma {:induction false} FilterNumbered(s: seq<Issue>, keep: Issue -> bool, first: int, wanted: set<int>)
    requires forall k :: 0 <= k < |s| ==> s[k].id == first + k
    requires forall k :: 0 <= k < |s| ==> (keep(s[k]) <==> s[k].id in wanted)
    ensures Ids(FilterBy(s, keep)) == NumbersIn(first, first + |s|, wanted)
    decreases |s|
  {
    if s != [] {
      var rest := FilterBy(s[1..], keep);
      FilterNumbered(s[1..], keep, first + 1, wanted);
      assert Ids((if keep(s[0]) then [s[0]] else []) + rest) == (if keep(s[0]) then [s[0].id] else []) + Ids(rest);
    }
  }

  /** Row by row, which shipped issues each tab keeps. */
  lemma CatalogTabRows()
    ensures forall k :: 0 <= k < |ISSUES| ==> ISSUES[k].id == 1 + k
    ensures forall k :: 0 <= k < |ISSUES| ==> (KeepTab(CriticalTab)(ISSUES[k]) <==> ISSUES[k].id in {1, 2, 8})
    ensures forall k :: 0 <= k < |ISSUES| ==> (KeepTab(RecurrentTab)(ISSUES[k]) <==> ISSUES[k].id in {1, 2, 4, 8})
    ensures forall k :: 0 <= k < |ISSUES| ==> (KeepTab(MostVotedTab)(ISSUES[k]) <==> ISSUES[k].id in {1, 2, 4, 7, 8})
  {
  }


  lemma CriticalIds()
    ensures NumbersIn(1, 9, {1, 2, 8}) == [1, 2, 8]
  {
  }

  /** The "critical" tab on the shipped catalog shows issues 1, 2 and 8, in that order. */
  lemma CatalogCriticalTab()
    ensures Ids(FilterBy(ISSUES, KeepTab(CriticalTab))) == [1, 2, 8]
  {
    CatalogTabRows();
    FilterNumbered(ISSUES, KeepTab(CriticalTab), 1, {1, 2, 8});
    CriticalIds();
  }

  lemma RecurrentIds()
    ensures NumbersIn(1, 9, {1, 2, 4, 8}) == [1, 2, 4, 8]
  {
  }

  /** The "recurrent" tab on the shipped catalog shows issues 1, 2, 4 and 8, in that order. */
  lemma CatalogRecurrentTab()
    ensures Ids(FilterBy(ISSUES, KeepTab(RecurrentTab))) == [1, 2, 4, 8]
  {
    CatalogTabRows();
    FilterNumbered(ISSUES, KeepTab(RecurrentTab), 1, {1, 2, 4, 8});
    RecurrentIds();
  }

  lemma MostVotedIds()
    ensures NumbersIn(1, 9, {1, 2, 4, 7, 8}) == [1, 2, 4, 7, 8]
  {
  }

  /** The "most-voted" tab on the shipped catalog shows issues 1, 2, 4, 7 and 8, in that order. */
  lemma CatalogMostVotedTab()
    ensures Ids(FilterBy(ISSUES, KeepTab(MostVotedTab))) == [1, 2, 4, 7, 8]
  {
    CatalogTabRows();
    FilterNumbered(ISSUES, KeepTab(MostVotedTab), 1, {1, 2, 4, 7, 8});
    MostVotedIds();
  }

  /** Set toggle: `id` flips membership, every other id keeps it. */
  function Toggle(supported: set<int>, id: int): (r: set<int>)
    ensures id in r <==> id !in supported
    ensures forall other :: other != id ==> (other in r <==> other in supported)
  {
    if id in supported then supported - {id} else supported + {id}
  }

  /** Toggling the same id twice restores the set. */
  lemma ToggleTwice(supported: set<int>, id: int)
    ensures Toggle(Toggle(supported, id), id) == supported
  {
  }

  /** The list component's own state: tab, neighbourhood dropdown and supported ids. */
  class IssueListView {
    var activeTab: FilterTab
    var neighborhood: string
    var supportedIds: set<int>

    constructor ()
      ensures activeTab == AllTab && neighborhood == ALL_NEIGHBORHOODS && supportedIds == {}
    {
      activeTab := AllTab;
      neighborhood := ALL_NEIGHBORHOODS;
      supportedIds := {};
    }

    /** The rows on screen for the header's search text: catalog order, no repeated id. */
    function Visible(searchQuery: string): (r: seq<Issue>)
      reads this
      ensures |r| <= |ISSUES|
      ensures IdsDistinct(r)
      ensures forall x :: x in r <==> x in ISSUES && Matches(x, Selection(searchQuery, neighborhood, activeTab))
    {
      CatalogIds();
      FilterKeepsIdsDistinct(ISSUES, Selection(searchQuery, neighborhood, activeTab));
      Filter(ISSUES, Selection(searchQuery, neighborhood, activeTab))
    }

    method SetActiveTab(tab: FilterTab)
      modifies this
      ensures activeTab == tab
      ensures neighborhood == old(neighborhood) && supportedIds == old(supportedIds)
    {
      activeTab := tab;
    }

    method SetNeighborhood(n: string)
      modifies this
      ensures neighborhood == n
      ensures activeTab == old(activeTab) && supportedIds == old(supportedIds)
    {
      neighborhood := n;
    }

    /**
     * The support button: copy the set, then delete `id` if present, add it
     * otherwise. Only the set changes: the visible rows, and with them every
     * vote count shown, stay as they were.
     */
    method HandleSupport(id: int)
      modifies this
      ensures supportedIds == Toggle(old(supportedIds), id)
      ensures activeTab == old(activeTab) && neighborhood == old(neighborhood)
      ensures forall q :: Visible(q) == old(Visible(q))
    {
      var next := supportedIds;
      if id in next {
        next := next - {id};
      } else {
        next := next + {id};
      }
      supportedIds := next;
    }
  }
}

/** Pages of a list and the page numbers to show (pagination.py). */
module Pagination {
  import opened Prelude

  const DEFAULT_PER_PAGE := 10
  const MAX_PER_PAGE := 100
  const WINDOW := 2

  datatype Page<T> = Page(items: seq<T>, page: int, perPage: int, total: int) {
    function StartIndex(): int {
      if total <= 0 then 0 else (page - 1) * perPage + 1
    }

    function EndIndex(): int {
      if total <= 0 then 0 else Min(page * perPage, total)
    }

    predicate HasPrev()
      requires perPage > 0
    {
      page > 1 && TotalPages(total, perPage) > 0
    }

    predicate HasNext()
      requires perPage > 0
    {
      page < TotalPages(total, perPage)
    }
  }

  /** `ceil(total / per_page)` */
  function TotalPages(total: int, perPage: int): (pages: int)
    requires perPage > 0
    ensures 0 <= pages && (total > 0 ==> (pages - 1) * perPage < total <= pages * perPage)
  {
    if total <= 0 then 0 else (total + perPage - 1) / perPage
  }

  function SafePerPage(perPage: int): (safe: int)
    ensures 1 <= safe <= MAX_PER_PAGE
    ensures 1 <= perPage <= MAX_PER_PAGE ==> safe == perPage
  {
    Max(1, Min(perPage, MAX_PER_PAGE))
  }

  /** Python's `items[start:end]` for bounds that are not negative. */
  function Slice<T>(items: seq<T>, start: nat, end: nat): seq<T>
    requires start <= end
  {
    items[Min(start, |items|)..Min(end, |items|)]
  }

  /** How many items precede the page. */
  function Offset(page: int, perPage: int): (offset: nat)
    requires page >= 1 && perPage >= 1
  {
    (page - 1) * perPage
  }

  function OffsetLimit(page: int, perPage: int := DEFAULT_PER_PAGE): (nat, nat) {
    (Offset(Max(1, page), SafePerPage(perPage)), SafePerPage(perPage))
  }

  /** The page that a request for `page` gets. */
  function ClampedPage(page: int, total: int, perPage: int): (clamped: int)
    ensures clamped >= 1
  {
    var pages := TotalPages(total, SafePerPage(perPage));
    if pages > 0 && Max(1, page) > pages then pages else Max(1, page)
  }

  function PaginateSlice<T>(items: seq<T>, page: int, perPage: int := DEFAULT_PER_PAGE): Page<T> {
    if |items| == 0 then Page([], 1, SafePerPage(perPage), 0) else
    var start := Offset(ClampedPage(page, |items|, perPage), SafePerPage(perPage));
    Page(Slice(items, start, start + SafePerPage(perPage)), ClampedPage(page, |items|, perPage), SafePerPage(perPage),
      |items|)
  }

  function BuildPagination<T>(items: seq<T>, total: int, page: int, perPage: int := DEFAULT_PER_PAGE): Page<T> {
    Page(items, ClampedPage(page, total, perPage), SafePerPage(perPage), total)
  }

  // ---------------------------------------------------------------- the pages of a list

  /** The first `n` pages, one after the other. */
  function Joined<T>(items: seq<T>, perPage: int, n: nat): seq<T> {
    if n == 0 then [] else Joined(items, perPage, n - 1) + PaginateSlice(items, n, perPage).items
  }

  /** One more page after the items that precede it. */
  lemma NextPage<T>(items: seq<T>, perPage: int, n: nat)
    requires 1 <= n <= TotalPages(|items|, SafePerPage(perPage))
    ensures var start := Offset(n, SafePerPage(perPage));
      && start <= |items|
      && items[..start] + PaginateSlice(items, n, perPage).items == items[..Min(n * SafePerPage(perPage), |items|)]
  {
    PageBounds(|items|, n, SafePerPage(perPage));
    OffsetOfNext(n, SafePerPage(perPage));
  }

  lemma {:induction false} JoinedIsPrefix<T>(items: seq<T>, perPage: int, n: nat)
    requires n <= TotalPages(|items|, SafePerPage(perPage))
    ensures Joined(items, perPage, n) == items[..Min(n * SafePerPage(perPage), |items|)]
  {
    if n > 0 {
      JoinedIsPrefix(items, perPage, n - 1);
      NextPage(items, perPage, n);
    }
  }

  /** All pages together are the list: nothing is lost, repeated, or out of order. */
  lemma PagesMakeTheList<T>(items: seq<T>, perPage: int)
    ensures Joined(items, perPage, TotalPages(|items|, SafePerPage(perPage))) == items
  {
    JoinedIsPrefix(items, perPage, TotalPages(|items|, SafePerPage(perPage)));
  }

  lemma OffsetOfNext(page: int, perPage: int)
    requires page >= 1 && perPage >= 1
    ensures Offset(page, perPage) + perPage == page * perPage == Offset(page + 1, perPage)
  {
  }

  lemma OffsetGrows(page: int, later: int, perPage: int)
    requires 1 <= page < later && perPage >= 1
    ensures page * perPage <= Offset(later, perPage)
  {
    TimesMonotone(page, later - 1, perPage);
  }

  /** Where a page lies in a list of `total` items. */
  lemma PageBounds(total: int, page: int, perPage: int)
    requires total > 0 && perPage >= 1 && 1 <= page <= TotalPages(total, perPage)
    ensures Offset(page, perPage) < total
    ensures page < TotalPages(total, perPage) <==> page * perPage < total
  {
    var pages := TotalPages(total, perPage);
    if page < pages {
      OffsetGrows(page, pages, perPage);
    }
    OffsetOfNext(page, perPage);
  }

  /** "Showing a to b of n" names the items shown, and a next page is offered exactly when items remain. */
  lemma IndicesAreHonest<T>(items: seq<T>, page: int, perPage: int)
    requires items != []
    ensures var p := PaginateSlice(items, page, perPage);
      && 1 <= p.StartIndex() <= p.EndIndex() <= |items|
      && p.items == items[p.StartIndex() - 1..p.EndIndex()]
      && (p.HasNext() <==> p.EndIndex() < |items|)
      && (p.HasPrev() <==> p.StartIndex() > 1)
  {
    var p, n := PaginateSlice(items, page, perPage), SafePerPage(perPage);
    PageBounds(|items|, p.page, n);
    OffsetOfNext(p.page, n);
    if p.page > 1 {
      OffsetGrows(1, p.page, n);
    }
    assert p.StartIndex() == Offset(p.page, n) + 1;
  }

  /** An empty list: nothing to number, and no page before or after. */
  lemma NothingToShow<T>(items: seq<T>, page: int, perPage: int)
    ensures var p := BuildPagination(items, 0, page, perPage);
      p.StartIndex() == 0 && p.EndIndex() == 0 && !p.HasPrev() && !p.HasNext()
  {
  }

  /** By default there are 10 items a page, and never more than 100. */
  lemma PageSizes(perPage: int)
    ensures OffsetLimit(3) == (20, 10)
    ensures SafePerPage(perPage) == if perPage < 1 then 1 else if perPage > 100 then 100 else perPage
  {
  }

  /** What a query with the offset and limit of the request fetches. */
  function Fetched<T>(items: seq<T>, page: int, perPage: int := DEFAULT_PER_PAGE): seq<T> {
    var (offset, limit) := OffsetLimit(page, perPage);
    Slice(items, offset, offset + limit)
  }

  /**
   The routes that fetch by offset show the same items as slicing exactly for requests up to the last
   page: past it the page number is clamped but the offset is not.
   */
  lemma FetchedAgreesExactly<T>(items: seq<T>, page: int, perPage: int)
    ensures Fetched(items, page, perPage) == PaginateSlice(items, page, perPage).items
       <==> items == [] || page <= TotalPages(|items|, SafePerPage(perPage))
  {
    var n := SafePerPage(perPage);
    var pages := TotalPages(|items|, n);
    if items != [] && page > pages {
      OffsetGrows(pages, page, n);
      PageBounds(|items|, pages, n);
    }
  }

  /** The whole page agrees with the sliced one exactly up to the last page, an empty list counting as one page. */
  lemma BuiltAgreesExactly<T>(items: seq<T>, page: int, perPage: int)
    ensures BuildPagination(Fetched(items, page, perPage), |items|, page, perPage)
         == PaginateSlice(items, page, perPage)
       <==> page <= Max(1, TotalPages(|items|, SafePerPage(perPage)))
  {
    FetchedAgreesExactly(items, page, perPage);
    if items != [] {
      assert TotalPages(|items|, SafePerPage(perPage)) >= 1;
    }
  }

  /** One item and a request for page 2: the controls say page 1, and nothing is shown. */
  lemma PastTheLastPage<T>(item: T)
    ensures var built := BuildPagination(Fetched([item], 2), 1, 2);
      built.page == 1 && built.items == [] && PaginateSlice([item], 2).items == [item]
  {
    assert TotalPages(1, DEFAULT_PER_PAGE) == 1;
  }

  // ---------------------------------------------------------------- the page numbers to show

  /** The first page, the last one, and those around the current one. */
  predicate IsShown(k: int, page: int, pages: int) {
    1 <= k <= pages && (k == 1 || k == pages || page - 2 <= k <= page + 2)
  }

  predicate Increasing(ordered: seq<int>) {
    forall i, j :: 0 <= i < j < |ordered| ==> ordered[i] < ordered[j]
  }

  /** Neighbours in the list: consecutive numbers, or numbers that a gap marker keeps apart. */
  predicate IsJoint(shown: seq<Option<int>>, i: nat)
    requires i + 1 < |shown|
  {
    match (shown[i], shown[i + 1])
    case (Some(a), Some(b)) => b == a + 1
    case (Some(a), None) => i + 2 < |shown| && shown[i + 2].Some? && shown[i + 2].value > a + 1
    case (None, next) => next.Some?
  }

  /** The list starts and ends with a number, shows exactly what it should, and has gaps exactly where it skips. */
  ghost predicate IsControl(shown: seq<Option<int>>, page: int, pages: int) {
    && shown != [] && shown[0] == Some(1) && shown[|shown| - 1] == Some(pages)
    && (forall i :: 0 <= i < |shown| - 1 ==> IsJoint(shown, i))
    && (forall k :: Some(k) in shown <==> IsShown(k, page, pages))
    && |shown| <= 9
  }

  lemma Inhabited(s: set<int>)
    ensures s == {} || exists one :: one in s
  {
    if forall one :: one !in s {
      assert s == {};
    }
  }

  lemma {:induction false} MinExists(s: set<int>) returns (lowest: int)
    requires s != {}
    ensures lowest in s && forall y :: y in s ==> lowest <= y
  {
    Inhabited(s);
    var one :| one in s;
    lowest := one;
    if s - {one} != {} {
      var other := MinExists(s - {one});
      lowest := Min(one, other);
      assert forall y :: y in s ==> y == one || y in s - {one};
    } else {
      assert s == {one};
    }
  }

  /** `sorted` */
  method Sorted(s: set<int>) returns (ordered: seq<int>)
    ensures Increasing(ordered) && |ordered| == |s|
    ensures forall k :: k in ordered <==> k in s
  {
    ordered := [];
    var todo := s;
    while todo != {}
      invariant todo <= s && |ordered| == |s| - |todo|
      invariant Increasing(ordered)
      invariant forall k :: k in ordered <==> k in s - todo
      invariant forall k, t :: k in ordered && t in todo ==> k < t
    {
      ghost var lowest := MinExists(todo);
      var next :| next in todo && forall y :: y in todo ==> next <= y;
      assert forall i :: 0 <= i < |ordered| ==> ordered[i] in ordered;
      ordered, todo := ordered + [next], todo - {next};
    }
  }

  /** Numbers are skipped only next to the first page or next to the last. */
  lemma NoInnerGap(ordered: seq<int>, page: int, pages: int, i: nat)
    requires Increasing(ordered) && forall k :: k in ordered <==> IsShown(k, page, pages)
    requires 1 < i < |ordered| - 1
    ensures ordered[i] == ordered[i - 1] + 1
  {
    assert IsShown(ordered[i], page, pages) && IsShown(ordered[i - 1], page, pages);
    assert IsShown(ordered[0], page, pages) && IsShown(ordered[|ordered| - 1], page, pages);
    var between := ordered[i - 1] + 1;
    assert between in ordered;
    var j :| 0 <= j < |ordered| && ordered[j] == between;
  }

  /** `page_numbers` */
  method PageNumbers(page: int, pages: nat) returns (shown: seq<Option<int>>)
    ensures if pages == 0 then shown == [] else IsControl(shown, page, pages)
  {
    if pages <= 1 {
      return if pages == 1 then [Some(1)] else [];
    }
    var numbers := {1, pages as int};
    for number := page - WINDOW to page + WINDOW + 1
      invariant |numbers| <= 2 + number - (page - WINDOW)
      invariant forall k :: k in numbers <==> 1 <= k <= pages && (k == 1 || k == pages || page - WINDOW <= k < number)
    {
      if 1 <= number <= pages {
        numbers := numbers + {number};
      }
    }
    var ordered := Sorted(numbers);
    assert ordered[0] == 1 && ordered[|ordered| - 1] == pages by {
      assert 1 in ordered && pages in ordered;
      assert ordered[0] in numbers && ordered[|ordered| - 1] in numbers;
    }
    forall i | 1 < i < |ordered| - 1 ensures ordered[i] == ordered[i - 1] + 1 {
      NoInnerGap(ordered, page, pages, i);
    }
    shown := WithGaps(ordered);
  }

  /** Appending the next number, with a gap marker where it does not follow at once. */
  lemma JointsStay(shown: seq<Option<int>>, previous: int, number: int)
    requires shown != [] && shown[|shown| - 1] == Some(previous) && previous < number
    requires forall i :: 0 <= i < |shown| - 1 ==> IsJoint(shown, i)
    ensures var longer := shown + (if number - previous > 1 then [None] else []) + [Some(number)];
      forall i :: 0 <= i < |longer| - 1 ==> IsJoint(longer, i)
  {
    var longer := shown + (if number - previous > 1 then [None] else []) + [Some(number)];
    forall i | 0 <= i < |longer| - 1 ensures IsJoint(longer, i) {
      if i < |shown| - 1 {
        assert IsJoint(shown, i);
      }
    }
  }

  /** The second loop of `page_numbers` */
  method WithGaps(ordered: seq<int>) returns (shown: seq<Option<int>>)
    requires |ordered| >= 2 && ordered[0] == 1 && Increasing(ordered)
    requires forall i :: 1 < i < |ordered| - 1 ==> ordered[i] == ordered[i - 1] + 1
    ensures shown != [] && shown[0] == Some(1) && shown[|shown| - 1] == Some(ordered[|ordered| - 1])
    ensures forall i :: 0 <= i < |shown| - 1 ==> IsJoint(shown, i)
    ensures forall k :: Some(k) in shown <==> k in ordered
    ensures |shown| <= |ordered| + 2
  {
    shown := [];
    var previous := 0;
    for i := 0 to |ordered|
      invariant previous == if i == 0 then 0 else ordered[i - 1]
      invariant i == 0 ==> shown == []
      invariant i > 0 ==> shown != [] && shown[0] == Some(1) && shown[|shown| - 1] == Some(previous)
      invariant forall j :: 0 <= j < |shown| - 1 ==> IsJoint(shown, j)
      invariant forall k :: Some(k) in shown <==> k in ordered[..i]
      invariant |shown| - i <= if i < 2 then 0 else if i < |ordered| then 1 else 2
    {
      var number := ordered[i];
      ghost var before := shown;
      if i > 0 {
        JointsStay(shown, previous, number);
      }
      if previous != 0 && number - previous > 1 {
        shown := shown + [None];
      }
      shown := shown + [Some(number)];
      assert i > 0 ==> shown == before + (if number - previous > 1 then [None] else []) + [Some(number)];
      previous := number;
    }
    assert ordered[..|ordered|] == ordered;
  }
}

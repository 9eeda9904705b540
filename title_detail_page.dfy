/** The chapter list of the title detail page: the search filter, the sort
    by number or date in either direction, pages of five, the page buttons and
    the "read more" truncation of the description. The filter, sort, slice
    and truncation are functions; `search`, `page`, `sortBy`, `sortDir` and
    `descExpanded` are fields of a `DetailPageState`. */
module TitleDetailPage {
  import opened Wrappers
  import opened Text
  import opened Seqs

  const ChaptersPerPage := 5
  const DescLimit := 180

  /** A chapter as the page lists it; the publication date is an opaque
      timestamp. */
  datatype ListedChapter = ListedChapter(number: nat, name: string, date: int)

  datatype SortKey = ByNumber | ByDate
  datatype SortDir = Asc | Desc

  /** The filter test: the lower-cased name contains the lower-cased search,
      or the chapter number's decimal digits contain the raw search. */
  predicate ChapterMatches(ch: ListedChapter, search: string) {
    Contains(ToLower(ch.name), ToLower(search)) || Contains(NatToString(ch.number), search)
  }

  function FilteredChapters(chapters: seq<ListedChapter>, search: string): (r: seq<ListedChapter>)
    ensures forall ch :: ch in r <==> ch in chapters && ChapterMatches(ch, search)
    ensures multiset(r) <= multiset(chapters)
  {
    var r := Filter(chapters, (ch: ListedChapter) => ChapterMatches(ch, search));
    assert forall ch :: ch in r <==> ch in chapters && ChapterMatches(ch, search) by {
      forall ch ensures ch in r <==> ch in chapters && ChapterMatches(ch, search) {
        if ch in chapters && ChapterMatches(ch, search) {
          var i :| 0 <= i < |chapters| && chapters[i] == ch;
        }
      }
    }
    r
  }

  /** An empty search keeps every chapter. */
  lemma EmptySearchKeepsAll(chapters: seq<ListedChapter>)
    ensures FilteredChapters(chapters, "") == chapters
  {
    forall ch | ch in chapters
      ensures ChapterMatches(ch, "")
    {
      assert ToLower("") == "";
      assert [] <= ToLower(ch.name);
    }
    FilterAll(chapters, (ch: ListedChapter) => ChapterMatches(ch, ""));
  }

  /** `Math.ceil(filteredChapters.length / CHAPTERS_PER_PAGE)`. */
  function TotalPages(chapters: seq<ListedChapter>, search: string): (n: nat)
    ensures n * ChaptersPerPage >= |FilteredChapters(chapters, search)|
    ensures n > 0 ==> (n - 1) * ChaptersPerPage < |FilteredChapters(chapters, search)|
  {
    PageCount(|FilteredChapters(chapters, search)|, ChaptersPerPage)
  }

  /** The comparator of the sort, as "a may come before b". */
  function Order(key: SortKey, dir: SortDir): (ChapterLe: (ListedChapter, ListedChapter) -> bool) {
    match (key, dir)
    case (ByNumber, Asc) => (a: ListedChapter, b: ListedChapter) => a.number <= b.number
    case (ByNumber, Desc) => (a: ListedChapter, b: ListedChapter) => b.number <= a.number
    case (ByDate, Asc) => (a: ListedChapter, b: ListedChapter) => a.date <= b.date
    case (ByDate, Desc) => (a: ListedChapter, b: ListedChapter) => b.date <= a.date
  }

  lemma OrderIsPreorder(key: SortKey, dir: SortDir)
    ensures TotalPreorder(Order(key, dir))
  {
  }

  /** `[...filteredChapters].sort(...)`: a permutation of the filtered list,
      numbers non-decreasing ascending and non-increasing descending. */
  function SortedChapters(chapters: seq<ListedChapter>, search: string, key: SortKey, dir: SortDir)
    : (r: seq<ListedChapter>)
    ensures multiset(r) == multiset(FilteredChapters(chapters, search))
    ensures SortedBy(r, Order(key, dir))
  {
    OrderIsPreorder(key, dir);
    SortBySorted(FilteredChapters(chapters, search), Order(key, dir));
    SortBy(FilteredChapters(chapters, search), Order(key, dir))
  }

  /** The first offset of a page, `(page - 1) * CHAPTERS_PER_PAGE`. */
  function PageStart(page: int): (from: nat)
    requires page >= 1
    ensures from == (page - 1) * ChaptersPerPage
    ensures from + ChaptersPerPage == page * ChaptersPerPage
  {
    (page - 1) * ChaptersPerPage
  }

  /** `sorted.slice((page - 1) * 5, page * 5)`: at most five entries,
      consecutive in `sorted` from the page's first offset. */
  function PageOf<T>(sorted: seq<T>, page: int): (r: seq<T>)
    requires page >= 1
    ensures |r| <= ChaptersPerPage
    ensures forall i :: 0 <= i < |r| ==> PageStart(page) + i < |sorted| && r[i] == sorted[PageStart(page) + i]
  {
    var from := PageStart(page);
    JsSlice(sorted, from, from + ChaptersPerPage)
  }

  /** The chapters shown on a page: at most five, consecutive in the sorted
      list from the page's first offset. */
  function ShownChapters(chapters: seq<ListedChapter>, search: string, key: SortKey, dir: SortDir, page: int)
    : (r: seq<ListedChapter>)
    requires page >= 1
    ensures |r| <= ChaptersPerPage
    ensures forall i :: 0 <= i < |r| ==>
      PageStart(page) + i < |SortedChapters(chapters, search, key, dir)| &&
      r[i] == SortedChapters(chapters, search, key, dir)[PageStart(page) + i]
  {
    PageOf(SortedChapters(chapters, search, key, dir), page)
  }

  /** Every chapter shown passes the filter. */
  lemma ShownChaptersPassFilter(chapters: seq<ListedChapter>, search: string, key: SortKey, dir: SortDir,
                                page: int)
    requires page >= 1
    ensures forall ch :: ch in ShownChapters(chapters, search, key, dir, page) ==>
      ch in chapters && ChapterMatches(ch, search)
  {
    var f := FilteredChapters(chapters, search);
    PageMembers(SortedChapters(chapters, search, key, dir), f, page);
    forall ch | ch in ShownChapters(chapters, search, key, dir, page)
      ensures ch in chapters && ChapterMatches(ch, search)
    {
      assert ch in f;
    }
  }

  /** A page of a permutation of `f` holds only elements of `f`. */
  lemma PageMembers<T>(s: seq<T>, f: seq<T>, page: int)
    requires page >= 1 && multiset(s) == multiset(f)
    ensures forall x :: x in PageOf(s, page) ==> x in f
  {
    var r := PageOf(s, page);
    forall x | x in r ensures x in f {
      var i :| 0 <= i < |r| && r[i] == x;
      assert r[i] == s[PageStart(page) + i];
      assert x in multiset(s);
    }
  }

  /** The description as shown: the first 180 characters and "..." exactly
      when it is longer than 180 and not expanded. */
  function ShownDescription(description: string, expanded: bool): (r: string)
    ensures |description| > DescLimit && !expanded ==> r == description[..DescLimit] + "..." && |r| == DescLimit + 3
    ensures !(|description| > DescLimit && !expanded) ==> r == description
    ensures r[..if |r| < DescLimit then |r| else DescLimit] <= description
  {
    if |description| > DescLimit && !expanded then description[..DescLimit] + "..." else description
  }

  /** The page's state. */
  class DetailPageState {
    const chapters: seq<ListedChapter>
    var search: string
    var page: int
    var sortBy: SortKey
    var sortDir: SortDir
    var descExpanded: bool

    ghost predicate Valid()
      reads this
    {
      page >= 1
    }

    constructor (chapters: seq<ListedChapter>)
      ensures this.chapters == chapters && search == [] && page == 1
      ensures sortBy == ByNumber && sortDir == Asc && !descExpanded && Valid()
    {
      this.chapters := chapters;
      search := [];
      page := 1;
      sortBy := ByNumber;
      sortDir := Asc;
      descExpanded := false;
    }

    /** The chapters shown for the current state. */
    function Shown(): (r: seq<ListedChapter>)
      reads this
      requires Valid()
      ensures |r| <= ChaptersPerPage
    {
      ShownChapters(chapters, search, sortBy, sortDir, page)
    }

    /** Typing in the search box: the reset effect then puts the page back to 1.
        The input is controlled, so its change handler fires only when the
        text differs; the model runs the reset on every call, which agrees
        with the page whenever the handler fires. */
    method SetSearch(s: string)
      modifies this
      ensures search == s && page == 1 && Valid()
      ensures sortBy == old(sortBy) && sortDir == old(sortDir) && descExpanded == old(descExpanded)
    {
      search := s;
      page := 1;
    }

    /** The "Previous" button: `Math.max(1, p - 1)`. */
    method PreviousPage()
      modifies this
      ensures page == if old(page) - 1 > 1 then old(page) - 1 else 1
      ensures Valid() && search == old(search)
      ensures sortBy == old(sortBy) && sortDir == old(sortDir) && descExpanded == old(descExpanded)
    {
      page := if page - 1 > 1 then page - 1 else 1;
    }

    /** The "Next" button, shown only when there are at least two pages:
        `Math.min(totalPages, p + 1)`. */
    method NextPage()
      requires Valid() && TotalPages(chapters, search) > 1
      modifies this
      ensures var total := TotalPages(chapters, search);
              page == if old(page) + 1 < total then old(page) + 1 else total
      ensures Valid() && page <= TotalPages(chapters, search) && search == old(search)
      ensures sortBy == old(sortBy) && sortDir == old(sortDir) && descExpanded == old(descExpanded)
    {
      var total := TotalPages(chapters, search);
      page := if page + 1 < total then page + 1 else total;
    }

    /** A numbered page button, one for each of 1 to `totalPages`. */
    method GoToPage(p: int)
      requires Valid() && 1 <= p <= TotalPages(chapters, search)
      modifies this
      ensures page == p && Valid() && search == old(search)
      ensures sortBy == old(sortBy) && sortDir == old(sortDir) && descExpanded == old(descExpanded)
    {
      page := p;
    }

    /** The sort select: the key; page, search and direction stay. */
    method SetSortBy(key: SortKey)
      modifies this
      ensures sortBy == key && sortDir == old(sortDir) && page == old(page) && search == old(search)
      ensures descExpanded == old(descExpanded)
    {
      sortBy := key;
    }

    /** The direction button flips ascending and descending; two presses
        restore the direction. */
    method ToggleSortDir()
      modifies this
      ensures sortDir == (if old(sortDir) == Asc then Desc else Asc)
      ensures sortDir != old(sortDir)
      ensures sortBy == old(sortBy) && page == old(page) && search == old(search)
      ensures descExpanded == old(descExpanded)
    {
      sortDir := if sortDir == Asc then Desc else Asc;
    }

    /** "Read more" and "Show less". */
    method ToggleDescription()
      modifies this
      ensures descExpanded == !old(descExpanded) && page == old(page) && search == old(search)
      ensures sortBy == old(sortBy) && sortDir == old(sortDir)
    {
      descExpanded := !descExpanded;
    }
  }

  /** The pages together show each filtered chapter: offset `k` of the
      sorted list is row `k % 5` of page `k / 5 + 1`, a page within `totalPages`. */
  lemma EveryMatchIsOnSomePage(chapters: seq<ListedChapter>, search: string, key: SortKey, dir: SortDir, k: int)
    requires 0 <= k < |SortedChapters(chapters, search, key, dir)|
    ensures 1 <= k / ChaptersPerPage + 1 <= TotalPages(chapters, search)
    ensures var shown := ShownChapters(chapters, search, key, dir, k / ChaptersPerPage + 1);
            k % ChaptersPerPage < |shown| &&
            shown[k % ChaptersPerPage] == SortedChapters(chapters, search, key, dir)[k]
  {
    var sorted := SortedChapters(chapters, search, key, dir);
    SortedLength(chapters, search, key, dir);
    PageCovers(sorted, k);
  }

  /** Sorting keeps the number of filtered chapters. */
  lemma SortedLength(chapters: seq<ListedChapter>, search: string, key: SortKey, dir: SortDir)
    ensures |SortedChapters(chapters, search, key, dir)| == |FilteredChapters(chapters, search)|
  {
    var sorted := SortedChapters(chapters, search, key, dir);
    assert |multiset(sorted)| == |multiset(FilteredChapters(chapters, search))|;
  }

  /** Offset `k` of `s` is row `k % 5` of page `k / 5 + 1`, a page no later
      than the last. */
  lemma PageCovers<T>(s: seq<T>, k: int)
    requires 0 <= k < |s|
    ensures 1 <= k / ChaptersPerPage + 1 <= PageCount(|s|, ChaptersPerPage)
    ensures var page := PageOf(s, k / ChaptersPerPage + 1);
            k % ChaptersPerPage < |page| && page[k % ChaptersPerPage] == s[k]
  {
    var q := k / ChaptersPerPage;
    var m := k % ChaptersPerPage;
    assert q * ChaptersPerPage + m == k && 0 <= m < ChaptersPerPage && q >= 0;
    PageWithin(|s|, q, m, PageCount(|s|, ChaptersPerPage));
    assert PageStart(q + 1) == q * ChaptersPerPage;
  }

  /** Offset `q * 5 + m` of `n` chapters lies on a page no later than the last. */
  lemma PageWithin(n: nat, q: int, m: int, total: nat)
    requires q >= 0 && 0 <= m < ChaptersPerPage && q * ChaptersPerPage + m < n
    requires total == PageCount(n, ChaptersPerPage)
    ensures q + 1 <= total
  {
    assert total * ChaptersPerPage >= n;
  }

  /** A page starting before the end of the sorted list shows
      `min(5, n - start)` chapters. */
  lemma ShownLength(chapters: seq<ListedChapter>, search: string, key: SortKey, dir: SortDir, page: int)
    requires page >= 1
    ensures var n := |SortedChapters(chapters, search, key, dir)|;
            var from := PageStart(page);
            from < n ==> |ShownChapters(chapters, search, key, dir, page)| ==
                         (if from + ChaptersPerPage < n then ChaptersPerPage else n - from)
  {
  }
}

/** The chapter queries of `ChaptersRepository`, over the rows of the
    `chapters` table (and, for `findWithPages`, of the `pages` table). Their
    create, update and delete are those of `Repository.BaseRepository`. The
    queries are modelled by what their query-builder chains state, as though
    they ran on the client `getSupabase()` returns. */
module ChaptersRepository {
  import opened Wrappers
  import opened Seqs
  import opened Entities
  import Repository

  const TableName := "chapters"

  predicate InVersion(c: Row<Chapter>, titleVersionId: int) {
    c.item.titleVersionId == titleVersionId
  }

  /** `findByTitleVersion`: exactly that version's chapters, ascending `chapter_number`. */
  function FindByTitleVersion(rows: seq<Row<Chapter>>, titleVersionId: int, fault: Option<string>): (r: Result<seq<Row<Chapter>>>)
    ensures fault.Some? ==> r == Err("Failed to fetch chapters by title version: " + fault.value)
    ensures fault.None? ==> r.Ok?
    ensures r.Ok? ==> forall c :: c in r.value <==> c in rows && InVersion(c, titleVersionId)
    ensures r.Ok? ==> multiset(r.value) <= multiset(rows)
    ensures r.Ok? ==> SortedBy(r.value, ChapterNumberAscending)
  {
    if fault.Some? then Err("Failed to fetch chapters by title version: " + fault.value)
    else
      OrdersArePreorders();
      Ok(Select(rows, (c: Row<Chapter>) => InVersion(c, titleVersionId), ChapterNumberAscending))
  }

  /** A chapter with the pages whose `chapter_id` is its id (the nested select
      `pages (id, page_number, image_url)`). */
  datatype ChapterWithPages = ChapterWithPages(chapter: Row<Chapter>, pages: seq<Row<Page>>)

  /** `findWithPages`: the chapter with that id and its pages, or null. */
  function FindWithPages(chapters: seq<Row<Chapter>>, pages: seq<Row<Page>>, chapterId: int,
                         fault: Option<string>): (r: Result<Option<ChapterWithPages>>)
    ensures fault.Some? ==> r == Err("Failed to fetch chapter with pages: " + fault.value)
    ensures fault.None? ==> r.Ok?
    ensures r.Ok? && r.value.Some? ==>
      r.value.value.chapter in chapters && r.value.value.chapter.id == chapterId
    ensures r.Ok? && r.value.Some? ==>
      forall p :: p in r.value.value.pages <==> p in pages && p.item.chapterId == chapterId
    ensures r.Ok? && Repository.UniqueIds(chapters) ==>
      (r.value.None? <==> !Repository.HasId(chapters, chapterId))
  {
    if fault.Some? then Err("Failed to fetch chapter with pages: " + fault.value)
    else
      match Repository.Lookup(chapters, chapterId)
      case None => Ok(None)
      case Some(c) =>
        var own := Filter(pages, (p: Row<Page>) => p.item.chapterId == chapterId);
        Ok(Some(ChapterWithPages(c, own)))
  }

  /** `findNext`: the first chapter of the version numbered above `current`,
      by ascending `chapter_number` (`gt`, `order`, `limit(1)`, `single()`),
      or null when there is none. */
  function FindNext(rows: seq<Row<Chapter>>, titleVersionId: int, current: int, fault: Option<string>): (r: Result<Option<Row<Chapter>>>)
    ensures fault.Some? ==> r == Err("Failed to fetch next chapter: " + fault.value)
    ensures fault.None? ==> r.Ok?
    ensures r.Ok? && r.value.Some? ==>
      r.value.value in rows && InVersion(r.value.value, titleVersionId) && r.value.value.item.chapterNumber > current
    ensures r.Ok? && r.value.Some? ==>
      forall c :: c in rows && InVersion(c, titleVersionId) && c.item.chapterNumber > current ==>
        r.value.value.item.chapterNumber <= c.item.chapterNumber
    ensures r.Ok? ==>
      (r.value.None? <==> forall c :: c in rows && InVersion(c, titleVersionId) ==> c.item.chapterNumber <= current)
  {
    if fault.Some? then Err("Failed to fetch next chapter: " + fault.value)
    else
      OrdersArePreorders();
      var later := Select(rows, (c: Row<Chapter>) => InVersion(c, titleVersionId) && c.item.chapterNumber > current,
                          ChapterNumberAscending);
      if later == [] then Ok(None)
      else
        SortedHeadIsLeast(later, ChapterNumberAscending);
        Ok(Some(later[0]))
  }

  /** `findPrevious`: the first chapter of the version numbered below `current`,
      by descending `chapter_number`, or null when there is none. */
  function FindPrevious(rows: seq<Row<Chapter>>, titleVersionId: int, current: int, fault: Option<string>): (r: Result<Option<Row<Chapter>>>)
    ensures fault.Some? ==> r == Err("Failed to fetch previous chapter: " + fault.value)
    ensures fault.None? ==> r.Ok?
    ensures r.Ok? && r.value.Some? ==>
      r.value.value in rows && InVersion(r.value.value, titleVersionId) && r.value.value.item.chapterNumber < current
    ensures r.Ok? && r.value.Some? ==>
      forall c :: c in rows && InVersion(c, titleVersionId) && c.item.chapterNumber < current ==>
        c.item.chapterNumber <= r.value.value.item.chapterNumber
    ensures r.Ok? ==>
      (r.value.None? <==> forall c :: c in rows && InVersion(c, titleVersionId) ==> c.item.chapterNumber >= current)
  {
    if fault.Some? then Err("Failed to fetch previous chapter: " + fault.value)
    else
      OrdersArePreorders();
      var earlier := Select(rows, (c: Row<Chapter>) => InVersion(c, titleVersionId) && c.item.chapterNumber < current,
                            ChapterNumberDescending);
      if earlier == [] then Ok(None)
      else
        SortedHeadIsLeast(earlier, ChapterNumberDescending);
        Ok(Some(earlier[0]))
  }

  /** The whole table by `created_at`, newest first. */
  function NewestFirst(rows: seq<Row<Chapter>>): (r: seq<Row<Chapter>>)
    ensures |r| == |rows| && multiset(r) == multiset(rows)
    ensures forall c :: c in r <==> c in rows
    ensures SortedBy(r, ChapterNewestFirst)
  {
    OrdersArePreorders();
    SortBySorted(rows, ChapterNewestFirst);
    SameMembers(SortBy(rows, ChapterNewestFirst), rows);
    SortBy(rows, ChapterNewestFirst)
  }

  /** `findLatest`: the `limit` most recently created chapters of every version,
      newest first, each row of the table at most once. */
  function FindLatest(rows: seq<Row<Chapter>>, limit: nat, fault: Option<string>): (r: Result<seq<Row<Chapter>>>)
    ensures fault.Some? ==> r == Err("Failed to fetch latest chapters: " + fault.value)
    ensures fault.None? ==> r.Ok?
    ensures r.Ok? ==> |r.value| == if limit < |rows| then limit else |rows|
    ensures r.Ok? ==> forall c :: c in r.value ==> c in rows
    ensures r.Ok? ==> multiset(r.value) <= multiset(rows)
    ensures r.Ok? ==> SortedBy(r.value, ChapterNewestFirst)
    ensures r.Ok? ==> forall c, d :: c in r.value && d in rows && d !in r.value ==> ChapterNewestFirst(c, d)
  {
    if fault.Some? then Err("Failed to fetch latest chapters: " + fault.value)
    else
      var ordered := NewestFirst(rows);
      LatestAreNewest(ordered, limit);
      PrefixSubMultiset(ordered, Take(ordered, limit));
      Ok(Take(ordered, limit))
  }

  lemma LatestAreNewest(ordered: seq<Row<Chapter>>, limit: nat)
    requires SortedBy(ordered, ChapterNewestFirst)
    ensures forall c, d :: c in Take(ordered, limit) && d in ordered && d !in Take(ordered, limit) ==>
      ChapterNewestFirst(c, d)
  {
    forall c, d | c in Take(ordered, limit) && d in ordered && d !in Take(ordered, limit)
      ensures ChapterNewestFirst(c, d)
    {
      SortedPrefixIsLeast(ordered, ChapterNewestFirst, limit, d);
      var i :| 0 <= i < |Take(ordered, limit)| && Take(ordered, limit)[i] == c;
    }
  }

  /** Next and previous are never the current chapter, nor of another version,
      and the previous chapter is numbered below the next one. */
  lemma NextAndPreviousAreNeighbours(rows: seq<Row<Chapter>>, titleVersionId: int, current: int)
    ensures var next := FindNext(rows, titleVersionId, current, None).value;
            var prev := FindPrevious(rows, titleVersionId, current, None).value;
            (next.Some? ==> next.value.item.chapterNumber != current && InVersion(next.value, titleVersionId)) &&
            (prev.Some? ==> prev.value.item.chapterNumber != current && InVersion(prev.value, titleVersionId)) &&
            (next.Some? && prev.Some? ==> prev.value.item.chapterNumber < next.value.item.chapterNumber)
  {
  }
}

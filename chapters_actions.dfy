/** The server actions on chapters: argument checks before any repository
    call, one repository call, and the envelope around its result or error.
    The reads are functions of the `chapters` (and `pages`) rows; the writes
    are methods on the `chapters` repository object. */
module ChaptersActions {
  import opened Wrappers
  import opened Text
  import opened Seqs
  import opened Entities
  import opened Envelope
  import Repository
  import ChaptersRepository
  import TitlesActions

  /** `getChaptersByTitleVersion`. */
  function GetChaptersByTitleVersion(rows: seq<Row<Chapter>>, titleVersionId: int, fault: Option<string>)
    : (r: ActionResult<seq<Row<Chapter>>>)
    ensures titleVersionId <= 0 ==> r == Fail("Invalid title version ID")
    ensures titleVersionId > 0 && fault.Some? ==> r == Fail("Failed to fetch chapters")
    ensures titleVersionId > 0 && fault.None? ==> r.success && r.data.Some?
    ensures r.success ==> SortedBy(r.data.value, ChapterNumberAscending)
    ensures r.success ==>
      forall c :: c in r.data.value <==> c in rows && ChaptersRepository.InVersion(c, titleVersionId)
  {
    if titleVersionId <= 0 then Fail("Invalid title version ID")
    else Catch(ChaptersRepository.FindByTitleVersion(rows, titleVersionId, fault), "Failed to fetch chapters")
  }

  /** `getChapterById`: a missing chapter is a success whose data is null. */
  function GetChapterById(rows: seq<Row<Chapter>>, id: int, fault: Option<string>): (r: ActionResult<Option<Row<Chapter>>>)
    ensures id <= 0 ==> r == Fail("Invalid chapter ID")
    ensures id > 0 && fault.Some? ==> r == Fail("Failed to fetch chapter")
    ensures id > 0 && fault.None? ==> r.success && r.data.Some?
    ensures r.success && r.data.value.Some? ==> r.data.value.value in rows && r.data.value.value.id == id
    ensures r.success && Repository.UniqueIds(rows) ==> (r.data.value.None? <==> !Repository.HasId(rows, id))
  {
    if id <= 0 then Fail("Invalid chapter ID")
    else Catch(Repository.FindById(ChaptersRepository.TableName, rows, id, fault), "Failed to fetch chapter")
  }

  /** `getChapterWithPages`: unlike `getChapterById`, a missing chapter is a
      failure, 'Chapter not found'. */
  function GetChapterWithPages(chapters: seq<Row<Chapter>>, pages: seq<Row<Page>>, id: int, fault: Option<string>)
    : (r: ActionResult<ChaptersRepository.ChapterWithPages>)
    ensures id <= 0 ==> r == Fail("Invalid chapter ID")
    ensures id > 0 && fault.Some? ==> r == Fail("Failed to fetch chapter with pages")
    ensures id > 0 && fault.None? && Repository.UniqueIds(chapters) ==>
      (r == Fail("Chapter not found") <==> !Repository.HasId(chapters, id))
    ensures r.success ==> r.data.Some? && r.data.value.chapter in chapters && r.data.value.chapter.id == id
    ensures r.success ==> forall p :: p in r.data.value.pages <==> p in pages && p.item.chapterId == id
  {
    if id <= 0 then Fail("Invalid chapter ID")
    else
      match ChaptersRepository.FindWithPages(chapters, pages, id, fault)
      case Err(_) => Fail("Failed to fetch chapter with pages")
      case Ok(None) => Fail("Chapter not found")
      case Ok(Some(c)) => Succeed(c)
  }

  /** `getNextChapter`: chapter number 0 is accepted, only negatives are not. */
  function GetNextChapter(rows: seq<Row<Chapter>>, titleVersionId: int, current: int, fault: Option<string>)
    : (r: ActionResult<Option<Row<Chapter>>>)
    ensures titleVersionId <= 0 ==> r == Fail("Invalid title version ID")
    ensures titleVersionId > 0 && current < 0 ==> r == Fail("Invalid chapter number")
    ensures titleVersionId > 0 && current >= 0 && fault.Some? ==> r == Fail("Failed to fetch next chapter")
    ensures titleVersionId > 0 && current >= 0 && fault.None? ==>
      r == Succeed(ChaptersRepository.FindNext(rows, titleVersionId, current, None).value)
  {
    if titleVersionId <= 0 then Fail("Invalid title version ID")
    else if current < 0 then Fail("Invalid chapter number")
    else Catch(ChaptersRepository.FindNext(rows, titleVersionId, current, fault), "Failed to fetch next chapter")
  }

  /** `getPreviousChapter`: chapter number 0 is rejected. */
  function GetPreviousChapter(rows: seq<Row<Chapter>>, titleVersionId: int, current: int, fault: Option<string>)
    : (r: ActionResult<Option<Row<Chapter>>>)
    ensures titleVersionId <= 0 ==> r == Fail("Invalid title version ID")
    ensures titleVersionId > 0 && current <= 0 ==> r == Fail("Invalid chapter number")
    ensures titleVersionId > 0 && current > 0 && fault.Some? ==> r == Fail("Failed to fetch previous chapter")
    ensures titleVersionId > 0 && current > 0 && fault.None? ==>
      r == Succeed(ChaptersRepository.FindPrevious(rows, titleVersionId, current, None).value)
  {
    if titleVersionId <= 0 then Fail("Invalid title version ID")
    else if current <= 0 then Fail("Invalid chapter number")
    else Catch(ChaptersRepository.FindPrevious(rows, titleVersionId, current, fault), "Failed to fetch previous chapter")
  }

  /** The two neighbour actions differ exactly at chapter number 0, which only
      `getNextChapter` accepts. */
  lemma NeighboursDisagreeOnlyAtZero(rows: seq<Row<Chapter>>, titleVersionId: int, current: int)
    requires titleVersionId > 0
    ensures (GetNextChapter(rows, titleVersionId, current, None).success &&
             !GetPreviousChapter(rows, titleVersionId, current, None).success) <==> current == 0
  {
  }

  /** `getLatestChapters(limit = 10)`: the limit must lie in [1, 50]. */
  function GetLatestChapters(rows: seq<Row<Chapter>>, limit: Option<int>, fault: Option<string>)
    : (r: ActionResult<seq<Row<Chapter>>>)
    ensures var l := limit.GetOr(10); l <= 0 || l > 50 ==> r == Fail("Limit must be between 1 and 50")
    ensures var l := limit.GetOr(10); 1 <= l <= 50 && fault.Some? ==> r == Fail("Failed to fetch latest chapters")
    ensures var l := limit.GetOr(10); 1 <= l <= 50 && fault.None? ==>
      r.success && r.data.Some? && |r.data.value| == (if l < |rows| then l else |rows|)
    ensures r.success ==> |r.data.value| <= 50 && SortedBy(r.data.value, ChapterNewestFirst)
    ensures r.success ==> forall c :: c in r.data.value ==> c in rows
    ensures r.success ==> multiset(r.data.value) <= multiset(rows)
    ensures r.success ==> forall c, d :: c in r.data.value && d in rows && d !in r.data.value ==>
      ChapterNewestFirst(c, d)
  {
    var l := limit.GetOr(10);
    if l <= 0 || l > 50 then Fail("Limit must be between 1 and 50")
    else Catch(ChaptersRepository.FindLatest(rows, l, fault), "Failed to fetch latest chapters")
  }

  /** The checks of `createChapter`, in order: version id, chapter number,
      then the trimmed title. */
  function CreateChapterError(data: Chapter): (e: Option<string>)
    ensures data.titleVersionId <= 0 ==> e == Some("Invalid title version ID")
    ensures data.titleVersionId > 0 && data.chapterNumber <= 0 ==> e == Some("Chapter number must be greater than 0")
    ensures data.titleVersionId > 0 && data.chapterNumber > 0 && data.title.Some? && |Trim(data.title.value)| > 255 ==>
      e == Some("Chapter title must be less than 255 characters")
    ensures e.None? <==>
      data.titleVersionId > 0 && data.chapterNumber > 0 && (data.title.None? || |Trim(data.title.value)| <= 255)
  {
    if data.titleVersionId <= 0 then Some("Invalid title version ID")
    else if data.chapterNumber <= 0 then Some("Chapter number must be greater than 0")
    else if data.title.Some? && data.title.value != [] && |Trim(data.title.value)| > 255 then
      Some("Chapter title must be less than 255 characters")
    else None
  }

  /** The record `createChapter` hands to the repository. */
  function NewChapterRecord(data: Chapter, now: Timestamp): (c: Chapter)
    ensures c.titleVersionId == data.titleVersionId && c.chapterNumber == data.chapterNumber
    ensures c.title == TitlesActions.TrimmedOrAbsent(data.title)
    ensures c.createdAt == Some(now) && c.updatedAt == Some(now)
  {
    data.(title := TitlesActions.TrimmedOrAbsent(data.title), createdAt := Some(now), updatedAt := Some(now))
  }

  /** A stored chapter passes the checks again, and normalising it again
      changes nothing. */
  lemma NewChapterRecordStable(data: Chapter, now: Timestamp)
    requires CreateChapterError(data).None?
    ensures CreateChapterError(NewChapterRecord(data, now)).None?
    ensures NewChapterRecord(NewChapterRecord(data, now), now) == NewChapterRecord(data, now)
  {
    TitlesActions.TrimmedOrAbsentStable(data.title);
    if data.title.Some? {
      TrimIdempotent(data.title.value);
    }
  }

  /** `createChapter`. */
  method CreateChapter(repo: Repository.BaseRepository<Chapter>, data: Chapter, now: Timestamp, fault: Option<string>)
    returns (r: ActionResult<Row<Chapter>>)
    requires repo.Valid()
    modifies repo
    ensures repo.Valid()
    ensures CreateChapterError(data).Some? ==> r == Fail(CreateChapterError(data).value) && unchanged(repo)
    ensures CreateChapterError(data).None? && fault.Some? ==>
      r == Fail("Failed to create chapter") && repo.rows == old(repo.rows)
    ensures CreateChapterError(data).None? && fault.None? ==>
      r == Succeed(Row(old(repo.nextId), NewChapterRecord(data, now))) &&
      repo.rows == old(repo.rows) + [r.data.value]
  {
    var check := CreateChapterError(data);
    if check.Some? {
      return Fail(check.value);
    }
    var created := repo.Create(NewChapterRecord(data, now), fault);
    r := Catch(created, "Failed to create chapter");
  }

  /** The checks of `updateChapter`, in order; a field not supplied is not checked. */
  function UpdateChapterError(id: int, patch: ChapterPatch): (e: Option<string>)
    ensures id <= 0 ==> e == Some("Invalid chapter ID")
    ensures id > 0 && patch.chapterNumber.Some? && patch.chapterNumber.value <= 0 ==>
      e == Some("Chapter number must be greater than 0")
    ensures e.None? <==>
      id > 0 && (patch.chapterNumber.None? || patch.chapterNumber.value > 0) &&
      (patch.title.None? || |Trim(patch.title.value)| <= 255)
  {
    if id <= 0 then Some("Invalid chapter ID")
    else if patch.chapterNumber.Some? && patch.chapterNumber.value <= 0 then
      Some("Chapter number must be greater than 0")
    else if patch.title.Some? && patch.title.value != [] && |Trim(patch.title.value)| > 255 then
      Some("Chapter title must be less than 255 characters")
    else None
  }

  /** The update `updateChapter` sends: the caller's fields, the title trimmed
      (a blank title is left out, so the stored title stays), and `updated_at`. */
  function ChapterUpdateSent(patch: ChapterPatch, now: Timestamp): (p: ChapterPatch)
    ensures p.titleVersionId == patch.titleVersionId && p.chapterNumber == patch.chapterNumber
    ensures p.title == TitlesActions.TrimmedOrAbsent(patch.title)
    ensures p.updatedAt == Some(now)
  {
    patch.(title := TitlesActions.TrimmedOrAbsent(patch.title), updatedAt := Some(now))
  }

  /** `updateChapter`. */
  method UpdateChapter(repo: Repository.BaseRepository<Chapter>, id: int, patch: ChapterPatch, now: Timestamp,
                       fault: Option<string>)
    returns (r: ActionResult<Row<Chapter>>)
    requires repo.Valid()
    modifies repo
    ensures repo.Valid()
    ensures UpdateChapterError(id, patch).Some? ==> r == Fail(UpdateChapterError(id, patch).value) && unchanged(repo)
    ensures UpdateChapterError(id, patch).None? && (fault.Some? || Repository.Lookup(old(repo.rows), id).None?) ==>
      r == Fail("Failed to update chapter") && repo.rows == old(repo.rows)
    ensures UpdateChapterError(id, patch).None? && fault.None? && Repository.Lookup(old(repo.rows), id).Some? ==>
      var sent := ChapterUpdateSent(patch, now);
      repo.rows == Repository.UpdatedRows(old(repo.rows), id, (c: Chapter) => ApplyChapterPatch(sent, c)) &&
      r == Succeed(Row(id, ApplyChapterPatch(sent, Repository.Lookup(old(repo.rows), id).value.item)))
  {
    var check := UpdateChapterError(id, patch);
    if check.Some? {
      return Fail(check.value);
    }
    var sent := ChapterUpdateSent(patch, now);
    var updated := repo.Update(id, (c: Chapter) => ApplyChapterPatch(sent, c), fault);
    r := Catch(updated, "Failed to update chapter");
  }

  /** An accepted update keeps the chapter number positive and refreshes
      `updated_at`, whatever the caller supplied for it. */
  lemma UpdatedChapterKeepsNumberPositive(id: int, patch: ChapterPatch, now: Timestamp, c: Chapter)
    requires UpdateChapterError(id, patch).None? && c.chapterNumber > 0
    ensures var stored := ApplyChapterPatch(ChapterUpdateSent(patch, now), c);
            stored.chapterNumber > 0 && stored.updatedAt == Some(now) && stored.createdAt == c.createdAt
  {
  }

  /** `deleteChapter`. */
  method DeleteChapter(repo: Repository.BaseRepository<Chapter>, id: int, fault: Option<string>)
    returns (r: ActionResult<()>)
    requires repo.Valid()
    modifies repo
    ensures repo.Valid()
    ensures id <= 0 ==> r == Fail("Invalid chapter ID") && unchanged(repo)
    ensures id > 0 && fault.Some? ==> r == Fail("Failed to delete chapter") && repo.rows == old(repo.rows)
    ensures id > 0 && fault.None? ==> r == SucceedEmpty() && repo.rows == Repository.WithoutId(old(repo.rows), id)
  {
    if id <= 0 {
      return Fail("Invalid chapter ID");
    }
    var deleted := repo.Delete(id, fault);
    if deleted.Err? {
      return Fail("Failed to delete chapter");
    }
    r := SucceedEmpty();
  }
}

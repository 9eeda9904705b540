/** The server actions on titles. Each checks its arguments first and answers a
    failed check with the failure envelope without touching the repository;
    otherwise it makes one repository call and wraps its result, or its error,
    in the envelope. The reads are functions of the `titles` rows; the writes
    are methods on the `titles` repository object. `now` is the clock reading
    `new Date().toISOString()` would give. */
module TitlesActions {
  import opened Wrappers
  import opened Text
  import opened Seqs
  import opened Entities
  import opened Envelope
  import Repository
  import TitlesRepository

  /** `getTitles`. */
  function GetTitles(rows: seq<Row<Title>>, fault: Option<string>): (r: ActionResult<seq<Row<Title>>>)
    ensures fault.Some? ==> r == Fail("Failed to fetch titles")
    ensures fault.None? ==> r.success && r.data.Some? && multiset(r.data.value) == multiset(rows)
  {
    Catch(Repository.FindAll(TitlesRepository.TableName, rows, fault), "Failed to fetch titles")
  }

  /** `getTitleById`: a non-positive id is rejected; a missing title is a
      success whose data is null. */
  function GetTitleById(rows: seq<Row<Title>>, id: int, fault: Option<string>): (r: ActionResult<Option<Row<Title>>>)
    ensures id <= 0 ==> r == Fail("Invalid title ID")
    ensures id > 0 && fault.Some? ==> r == Fail("Failed to fetch title")
    ensures id > 0 && fault.None? ==> r.success && r.data.Some?
    ensures r.success && r.data.value.Some? ==> r.data.value.value in rows && r.data.value.value.id == id
    ensures r.success && Repository.UniqueIds(rows) ==> (r.data.value.None? <==> !Repository.HasId(rows, id))
  {
    if id <= 0 then Fail("Invalid title ID")
    else Catch(Repository.FindById(TitlesRepository.TableName, rows, id, fault), "Failed to fetch title")
  }

  /** `getTitlesPaginated(page = 1, limit = 10)`: an omitted argument is `None`. */
  function GetTitlesPaginated(rows: seq<Row<Title>>, page: Option<int>, limit: Option<int>,
                              dataFault: Option<string>, countFault: Option<string>): (r: ActionResult<PaginationResult<Row<Title>>>)
    ensures var p := page.GetOr(1); var l := limit.GetOr(10);
            p <= 0 || l <= 0 ==> r == Fail("Invalid pagination parameters")
    ensures var p := page.GetOr(1); var l := limit.GetOr(10);
            p > 0 && l > 0 && (dataFault.Some? || countFault.Some?) ==> r == Fail("Failed to fetch paginated titles")
    ensures var p := page.GetOr(1); var l := limit.GetOr(10);
            p > 0 && l > 0 && dataFault.None? && countFault.None? ==>
              r.success && r.data.Some? &&
              r.data.value.page == p && r.data.value.limit == l &&
              r.data.value.total == |rows| &&
              r.data.value.totalPages == PageCount(|rows|, l) &&
              r.data.value.data == TitlesRepository.FindPaginated(rows, p, l, None, None).value.data
  {
    var p := page.GetOr(1);
    var l := limit.GetOr(10);
    if p <= 0 || l <= 0 then Fail("Invalid pagination parameters")
    else
      match TitlesRepository.FindPaginated(rows, p, l, dataFault, countFault)
      case Err(_) => Fail("Failed to fetch paginated titles")
      case Ok(found) =>
        Succeed(PaginationResult(found.data, found.total, p, l, PageCount(found.total, l)))
  }

  /** Every title is on exactly one of pages 1 to `totalPages`: the offset `k`
      of the newest-first order is on page `k / limit + 1`, and that page is
      within `totalPages`. */
  lemma EveryTitleOnSomePage(rows: seq<Row<Title>>, limit: int, k: int)
    requires limit >= 1 && 0 <= k < |rows|
    ensures var r := GetTitlesPaginated(rows, Some(k / limit + 1), Some(limit), None, None);
            r.success && 1 <= k / limit + 1 <= r.data.value.totalPages &&
            k % limit < |r.data.value.data| && r.data.value.data[k % limit] == TitlesRepository.NewestFirst(rows)[k]
  {
    var p := k / limit + 1;
    assert p >= 1;
    TitlesRepository.PagesCoverTable(rows, limit, k);
    var f := TitlesRepository.FindPaginated(rows, p, limit, None, None);
    var r := GetTitlesPaginated(rows, Some(p), Some(limit), None, None);
    assert r.data.value.data == f.value.data;
    PageOfOffset(|rows|, limit, k);
  }

  /** Offset `k` of `n` elements is on a page no later than the last. */
  lemma PageOfOffset(n: nat, limit: int, k: int)
    requires limit >= 1 && 0 <= k < n
    ensures k / limit + 1 <= PageCount(n, limit)
  {
    var q := k / limit;
    assert q * limit <= k;
    MultiplyCancel(PageCount(n, limit), q, limit);
  }

  /** Cancelling the page size: the step of `PageOfOffset` from "offset `k`
      lies before the last page's end" to "its page number is within
      `totalPages`". */
  lemma MultiplyCancel(a: int, b: int, c: int)
    requires c >= 1 && b * c < a * c
    ensures b < a
  {
  }

  /** `getTitlesByStatus`. */
  function GetTitlesByStatus(rows: seq<Row<Title>>, status: Status, fault: Option<string>): (r: ActionResult<seq<Row<Title>>>)
    ensures fault.Some? ==> r == Fail("Failed to fetch titles by status")
    ensures fault.None? ==> r.success && r.data.Some?
    ensures r.success ==> forall t :: t in r.data.value <==> t in rows && t.item.status == Some(status)
  {
    Catch(TitlesRepository.FindByStatus(rows, status, fault), "Failed to fetch titles by status")
  }

  /** `searchTitles`: the query must have at least 2 characters after trimming,
      and the trimmed query is what is searched for. */
  function SearchTitles(rows: seq<Row<Title>>, query: string, fault: Option<string>): (r: ActionResult<seq<Row<Title>>>)
    ensures |Trim(query)| < 2 ==> r == Fail("Search query must be at least 2 characters long")
    ensures |Trim(query)| >= 2 && fault.Some? ==> r == Fail("Failed to search titles")
    ensures |Trim(query)| >= 2 && fault.None? ==>
      r.success && r.data == Some(TitlesRepository.Search(rows, Trim(query), None).value)
    ensures r.success ==>
      forall t :: t in r.data.value <==> t in rows && TitlesRepository.TitleMatches(t.item, Trim(query))
  {
    if query == [] || |Trim(query)| < 2 then Fail("Search query must be at least 2 characters long")
    else Catch(TitlesRepository.Search(rows, Trim(query), fault), "Failed to search titles")
  }

  /** The checks of `createTitle`, in order: the first that fails gives the
      message; `None` when all pass. The title is measured trimmed, the
      description as given. */
  function CreateTitleError(data: Title): (e: Option<string>)
    ensures |Trim(data.title)| < 3 ==> e == Some("Title must be at least 3 characters long")
    ensures |Trim(data.title)| > 255 ==> e == Some("Title must be less than 255 characters")
    ensures 3 <= |Trim(data.title)| <= 255 && data.description.Some? && |data.description.value| > 1000 ==>
      e == Some("Description must be less than 1000 characters")
    ensures e.None? <==>
      3 <= |Trim(data.title)| <= 255 && (data.description.None? || |data.description.value| <= 1000)
  {
    if data.title == [] || |Trim(data.title)| < 3 then Some("Title must be at least 3 characters long")
    else if |Trim(data.title)| > 255 then Some("Title must be less than 255 characters")
    else if data.description.Some? && data.description.value != [] && |data.description.value| > 1000 then
      Some("Description must be less than 1000 characters")
    else None
  }

  /** `s?.trim() || undefined`: an absent or blank string is stored as absent. */
  function TrimmedOrAbsent(s: Option<string>): (r: Option<string>)
    ensures r.None? <==> s.None? || IsBlank(s.value)
    ensures r.Some? ==> r.value == Trim(s.value) && r.value != []
  {
    if s.Some? && Trim(s.value) != [] then Some(Trim(s.value)) else None
  }

  /** The record `createTitle` hands to the repository. */
  function NewTitleRecord(data: Title, now: Timestamp): (t: Title)
    ensures t.title == Trim(data.title)
    ensures t.description == TrimmedOrAbsent(data.description)
    ensures t.status == Some(data.status.GetOr(Ongoing))
    ensures t.createdAt == Some(now) && t.updatedAt == Some(now)
    ensures t.coverUrl == data.coverUrl && t.originalLanguage == data.originalLanguage && t.createdBy == data.createdBy
  {
    data.(title := Trim(data.title),
          description := TrimmedOrAbsent(data.description),
          status := Some(data.status.GetOr(Ongoing)),
          createdAt := Some(now),
          updatedAt := Some(now))
  }

  /** A stored title passes the checks it passed before it was normalised, and
      normalising it again changes nothing. */
  lemma {:induction false} NewTitleRecordStable(data: Title, now: Timestamp)
    requires CreateTitleError(data).None?
    ensures CreateTitleError(NewTitleRecord(data, now)).None?
    ensures NewTitleRecord(NewTitleRecord(data, now), now) == NewTitleRecord(data, now)
  {
    var t := NewTitleRecord(data, now);
    TrimIdempotent(data.title);
    assert Trim(t.title) == t.title;
    TrimmedOrAbsentStable(data.description);
    assert t.description.None? || |t.description.value| <= 1000;
  }

  /** A stored optional text is trimmed already and no longer than it was given. */
  lemma TrimmedOrAbsentStable(s: Option<string>)
    ensures TrimmedOrAbsent(TrimmedOrAbsent(s)) == TrimmedOrAbsent(s)
    ensures TrimmedOrAbsent(s).Some? ==> |TrimmedOrAbsent(s).value| <= |s.value|
  {
    if s.Some? {
      TrimIdempotent(s.value);
    }
  }

  /** `createTitle`. */
  method CreateTitle(repo: Repository.BaseRepository<Title>, data: Title, now: Timestamp, fault: Option<string>)
    returns (r: ActionResult<Row<Title>>)
    requires repo.Valid()
    modifies repo
    ensures repo.Valid()
    ensures CreateTitleError(data).Some? ==> r == Fail(CreateTitleError(data).value) && unchanged(repo)
    ensures CreateTitleError(data).None? && fault.Some? ==>
      r == Fail("Failed to create title") && repo.rows == old(repo.rows)
    ensures CreateTitleError(data).None? && fault.None? ==>
      r == Succeed(Row(old(repo.nextId), NewTitleRecord(data, now))) &&
      repo.rows == old(repo.rows) + [r.data.value]
  {
    var check := CreateTitleError(data);
    if check.Some? {
      return Fail(check.value);
    }
    var created := repo.Create(NewTitleRecord(data, now), fault);
    r := Catch(created, "Failed to create title");
  }

  /** The caller's `titleData` after the checks of `updateTitle`: a supplied
      title that passes its checks has been replaced by its trimmed form. */
  function CallerPatchAfterChecks(id: int, patch: TitlePatch): (p: TitlePatch)
    ensures p.(title := patch.title) == patch
    ensures id > 0 && patch.title.Some? && 3 <= |Trim(patch.title.value)| <= 255 ==>
      p.title == Some(Trim(patch.title.value))
    ensures !(id > 0 && patch.title.Some? && 3 <= |Trim(patch.title.value)| <= 255) ==> p == patch
  {
    if id > 0 && patch.title.Some? && 3 <= |Trim(patch.title.value)| <= 255 then
      patch.(title := Some(Trim(patch.title.value)))
    else patch
  }

  /** The checks of `updateTitle`, in order. A field not supplied is not checked. */
  function UpdateTitleError(id: int, patch: TitlePatch): (e: Option<string>)
    ensures id <= 0 ==> e == Some("Invalid title ID")
    ensures id > 0 && patch.title.Some? && |Trim(patch.title.value)| < 3 ==>
      e == Some("Title must be at least 3 characters long")
    ensures id > 0 && patch.title.Some? && |Trim(patch.title.value)| > 255 ==>
      e == Some("Title must be less than 255 characters")
    ensures id > 0 && (patch.title.None? || 3 <= |Trim(patch.title.value)| <= 255) &&
            patch.description.Some? && |patch.description.value| > 1000 ==>
      e == Some("Description must be less than 1000 characters")
    ensures e.None? <==>
      id > 0 &&
      (patch.title.None? || 3 <= |Trim(patch.title.value)| <= 255) &&
      (patch.description.None? || |patch.description.value| <= 1000)
  {
    if id <= 0 then Some("Invalid title ID")
    else if patch.title.Some? && (patch.title.value == [] || |Trim(patch.title.value)| < 3) then
      Some("Title must be at least 3 characters long")
    else if patch.title.Some? && |Trim(patch.title.value)| > 255 then
      Some("Title must be less than 255 characters")
    else if patch.description.Some? && patch.description.value != [] && |patch.description.value| > 1000 then
      Some("Description must be less than 1000 characters")
    else None
  }

  /** The update `updateTitle` sends: the caller's fields, title trimmed, with
      `updated_at` set to `now`. */
  function TitleUpdateSent(patch: TitlePatch, now: Timestamp): (p: TitlePatch)
    ensures p.updatedAt == Some(now)
    ensures p.(updatedAt := patch.updatedAt) == patch
  {
    patch.(updatedAt := Some(now))
  }

  /** `updateTitle`. Besides the envelope it returns the caller's `titleData`
      as the action leaves it, since the action trims its title in place. */
  method UpdateTitle(repo: Repository.BaseRepository<Title>, id: int, patch: TitlePatch, now: Timestamp,
                     fault: Option<string>)
    returns (r: ActionResult<Row<Title>>, callerPatch: TitlePatch)
    requires repo.Valid()
    modifies repo
    ensures repo.Valid()
    ensures callerPatch == CallerPatchAfterChecks(id, patch)
    ensures UpdateTitleError(id, patch).Some? ==> r == Fail(UpdateTitleError(id, patch).value) && unchanged(repo)
    ensures UpdateTitleError(id, patch).None? && (fault.Some? || Repository.Lookup(old(repo.rows), id).None?) ==>
      r == Fail("Failed to update title") && repo.rows == old(repo.rows)
    ensures UpdateTitleError(id, patch).None? && fault.None? && Repository.Lookup(old(repo.rows), id).Some? ==>
      var sent := TitleUpdateSent(callerPatch, now);
      repo.rows == Repository.UpdatedRows(old(repo.rows), id, (t: Title) => ApplyTitlePatch(sent, t)) &&
      r == Succeed(Row(id, ApplyTitlePatch(sent, Repository.Lookup(old(repo.rows), id).value.item)))
  {
    callerPatch := CallerPatchAfterChecks(id, patch);
    var check := UpdateTitleError(id, patch);
    if check.Some? {
      return Fail(check.value), callerPatch;
    }
    var sent := TitleUpdateSent(callerPatch, now);
    var updated := repo.Update(id, (t: Title) => ApplyTitlePatch(sent, t), fault);
    r := Catch(updated, "Failed to update title");
  }

  /** An accepted update of a title stores a title that `createTitle` would
      also accept, already trimmed. */
  lemma UpdatedTitleIsTrimmed(id: int, patch: TitlePatch, now: Timestamp, t: Title)
    requires UpdateTitleError(id, patch).None? && patch.title.Some?
    ensures var stored := ApplyTitlePatch(TitleUpdateSent(CallerPatchAfterChecks(id, patch), now), t);
            stored.title == Trim(patch.title.value) && Trim(stored.title) == stored.title &&
            3 <= |stored.title| <= 255
  {
    TrimIdempotent(patch.title.value);
  }

  /** `deleteTitle`: deleting a missing title also succeeds. */
  method DeleteTitle(repo: Repository.BaseRepository<Title>, id: int, fault: Option<string>)
    returns (r: ActionResult<()>)
    requires repo.Valid()
    modifies repo
    ensures repo.Valid()
    ensures id <= 0 ==> r == Fail("Invalid title ID") && unchanged(repo)
    ensures id > 0 && fault.Some? ==> r == Fail("Failed to delete title") && repo.rows == old(repo.rows)
    ensures id > 0 && fault.None? ==> r == SucceedEmpty() && repo.rows == Repository.WithoutId(old(repo.rows), id)
  {
    if id <= 0 {
      return Fail("Invalid title ID");
    }
    var deleted := repo.Delete(id, fault);
    if deleted.Err? {
      return Fail("Failed to delete title");
    }
    r := SucceedEmpty();
  }
}

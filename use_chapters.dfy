/** The chapter hooks: `useChapterNavigation` and the three mutation hooks.
    The list and item hooks are `FetchHooks.ListHook` and `FetchHooks.ItemHook`. */
module UseChapters {
  import opened Wrappers
  import opened Entities
  import opened Envelope
  import opened FetchHooks
  import ChaptersRepository
  import ChaptersActions

  const NavigationError := "Failed to fetch navigation data"

  /** `useChapterNavigation(titleVersionId, currentChapterNumber)`. */
  class ChapterNavigation {
    var nextChapter: Option<Row<Chapter>>
    var prevChapter: Option<Row<Chapter>>
    var loading: bool
    var error: Option<string>

    constructor ()
      ensures nextChapter.None? && prevChapter.None? && !loading && error.None?
    {
      nextChapter := None;
      prevChapter := None;
      loading := false;
      error := None;
    }

    /** `fetchNavigation`, given the two envelopes it awaits. It does nothing
        for a null or zero version id or a null chapter number (so chapter 0
        is fetched); a failed side becomes null and sets the one error. */
    method FetchNavigation(titleVersionId: Option<int>, current: Option<int>,
                           nextResult: ActionResult<Option<Row<Chapter>>>,
                           prevResult: ActionResult<Option<Row<Chapter>>>)
      modifies this
      ensures !IsSetId(titleVersionId) || current.None? ==>
        nextChapter == old(nextChapter) && prevChapter == old(prevChapter) &&
        loading == old(loading) && error == old(error)
      ensures IsSetId(titleVersionId) && current.Some? ==>
        !loading &&
        nextChapter == (if nextResult.success then Payload(nextResult) else None) &&
        prevChapter == (if prevResult.success then Payload(prevResult) else None) &&
        error == (if nextResult.success && prevResult.success then None else Some(NavigationError))
    {
      if !IsSetId(titleVersionId) || current.None? {
        return;
      }
      loading := true;
      error := None;
      nextChapter := if nextResult.success then Payload(nextResult) else None;
      prevChapter := if prevResult.success then Payload(prevResult) else None;
      if !nextResult.success || !prevResult.success {
        error := Some(NavigationError);
      }
      loading := false;
    }
  }

  /** `fetchNavigation` when the awaited envelopes are those of
      `getNextChapter` and `getPreviousChapter` over the chapters table. At
      chapter 0 the error is always recorded, since `getPreviousChapter`
      rejects 0 while `getNextChapter` accepts it. */
  method Navigate(nav: ChapterNavigation, rows: seq<Row<Chapter>>, titleVersionId: Option<int>, current: Option<int>,
                  nextFault: Option<string>, prevFault: Option<string>)
    modifies nav
    ensures !IsSetId(titleVersionId) || current.None? ==>
      nav.nextChapter == old(nav.nextChapter) && nav.prevChapter == old(nav.prevChapter) &&
      nav.loading == old(nav.loading) && nav.error == old(nav.error)
    ensures IsSetId(titleVersionId) && current.Some? ==> !nav.loading
    ensures IsSetId(titleVersionId) && current.Some? &&
            (titleVersionId.value < 0 || current.value < 0 || nextFault.Some?) ==>
      nav.error == Some(NavigationError) && nav.nextChapter.None?
    ensures IsSetId(titleVersionId) && current.Some? &&
            (titleVersionId.value < 0 || current.value <= 0 || prevFault.Some?) ==>
      nav.error == Some(NavigationError) && nav.prevChapter.None?
    ensures IsSetId(titleVersionId) && titleVersionId.value > 0 && current.Some? && current.value >= 0 &&
            nextFault.None? ==>
      nav.nextChapter == ChaptersRepository.FindNext(rows, titleVersionId.value, current.value, None).value
    ensures IsSetId(titleVersionId) && titleVersionId.value > 0 && current.Some? && current.value > 0 &&
            prevFault.None? ==>
      nav.prevChapter == ChaptersRepository.FindPrevious(rows, titleVersionId.value, current.value, None).value
    ensures IsSetId(titleVersionId) && titleVersionId.value > 0 && current.Some? && current.value > 0 &&
            nextFault.None? && prevFault.None? ==>
      nav.error.None?
  {
    if !IsSetId(titleVersionId) || current.None? {
      return;
    }
    var nextResult := ChaptersActions.GetNextChapter(rows, titleVersionId.value, current.value, nextFault);
    var prevResult := ChaptersActions.GetPreviousChapter(rows, titleVersionId.value, current.value, prevFault);
    nav.FetchNavigation(titleVersionId, current, nextResult, prevResult);
  }

  /** `useCreateChapter().create`. */
  method Create(hook: MutationHook, result: ActionResult<Row<Chapter>>) returns (out: Option<Row<Chapter>>)
    modifies hook
    ensures !hook.loading
    ensures result.success ==> out == result.data && hook.error.None?
    ensures !result.success ==> out.None? && hook.error == Some(MessageOr(result, "Failed to create chapter"))
  {
    out := hook.Complete(result, "Failed to create chapter");
  }

  /** `useUpdateChapter().update`. */
  method Update(hook: MutationHook, result: ActionResult<Row<Chapter>>) returns (out: Option<Row<Chapter>>)
    modifies hook
    ensures !hook.loading
    ensures result.success ==> out == result.data && hook.error.None?
    ensures !result.success ==> out.None? && hook.error == Some(MessageOr(result, "Failed to update chapter"))
  {
    out := hook.Complete(result, "Failed to update chapter");
  }

  /** `useDeleteChapter().delete`. */
  method Delete(hook: MutationHook, result: ActionResult<()>) returns (ok: bool)
    modifies hook
    ensures !hook.loading && ok == result.success
    ensures result.success ==> hook.error.None?
    ensures !result.success ==> hook.error == Some(MessageOr(result, "Failed to delete chapter"))
  {
    ok := hook.CompleteFlag(result, "Failed to delete chapter");
  }
}

/** The title hooks: `usePaginatedTitles` with its page guards, the search
    hook over `searchTitles`, and the three mutation hooks. The list and item
    hooks are `FetchHooks.ListHook` and `FetchHooks.ItemHook`. */
module UseTitles {
  import opened Wrappers
  import opened Text
  import opened Entities
  import opened Envelope
  import opened FetchHooks
  import TitlesActions

  /** `usePaginatedTitles(initialPage = 1, limit = 10)`. */
  class PaginatedTitles {
    const limit: int
    var data: Option<PaginationResult<Row<Title>>>
    var loading: bool
    var error: Option<string>
    var currentPage: int

    constructor (initialPage: Option<int>, limit: Option<int>)
      ensures this.limit == limit.GetOr(10) && currentPage == initialPage.GetOr(1)
      ensures data.None? && !loading && error.None?
    {
      this.limit := limit.GetOr(10);
      currentPage := initialPage.GetOr(1);
      data := None;
      loading := false;
      error := None;
    }

    /** `fetchTitles(page)`, given what `getTitlesPaginated(page, limit)`
        returned: on success the page record and the page become current; on
        failure both stay and the message is recorded. */
    method FetchTitles(page: int, result: ActionResult<PaginationResult<Row<Title>>>)
      modifies this
      ensures !loading
      ensures result.success ==> data == result.data && currentPage == page && error.None?
      ensures !result.success ==>
        data == old(data) && currentPage == old(currentPage) && error == Some(MessageOr(result, UnknownError))
    {
      loading := true;
      error := None;
      if result.success {
        data := result.data;
        currentPage := page;
      } else {
        error := Some(MessageOr(result, UnknownError));
      }
      loading := false;
    }

    /** The test of `goToPage`: a positive page, within `totalPages` once a
        page record is loaded. */
    predicate CanGoTo(page: int)
      reads this
    {
      page > 0 && (data.None? || page <= data.value.totalPages)
    }

    method GoToPage(page: int)
      modifies this
      ensures CanGoTo(page) ==> currentPage == page
      ensures !CanGoTo(page) ==> currentPage == old(currentPage)
      ensures data == old(data) && loading == old(loading) && error == old(error)
      ensures old(currentPage) >= 1 ==> currentPage >= 1
    {
      if CanGoTo(page) {
        currentPage := page;
      }
    }

    /** `nextPage`: nothing without a page record or on the last page. */
    method NextPage()
      modifies this
      ensures data.Some? && old(currentPage) < data.value.totalPages && old(currentPage) + 1 > 0 ==>
        currentPage == old(currentPage) + 1
      ensures !(data.Some? && old(currentPage) < data.value.totalPages && old(currentPage) + 1 > 0) ==>
        currentPage == old(currentPage)
      ensures data == old(data) && loading == old(loading) && error == old(error)
      ensures old(currentPage) >= 1 ==> currentPage >= 1
      ensures data.Some? && old(currentPage) <= data.value.totalPages ==> currentPage <= data.value.totalPages
    {
      if data.Some? && currentPage < data.value.totalPages {
        GoToPage(currentPage + 1);
      }
    }

    /** `prevPage`: nothing at page 1. */
    method PrevPage()
      modifies this
      ensures old(currentPage) > 1 && CanGoTo(old(currentPage) - 1) ==> currentPage == old(currentPage) - 1
      ensures !(old(currentPage) > 1 && CanGoTo(old(currentPage) - 1)) ==> currentPage == old(currentPage)
      ensures data == old(data) && loading == old(loading) && error == old(error)
      ensures old(currentPage) >= 1 ==> currentPage >= 1
    {
      if currentPage > 1 {
        GoToPage(currentPage - 1);
      }
    }
  }

  /** Only a page of at least 1 is ever fetched successfully, so a fetch of
      what `getTitlesPaginated` returns keeps `currentPage` positive. */
  lemma FetchedPageIsPositive(rows: seq<Row<Title>>, page: int, limit: int, dataFault: Option<string>,
                              countFault: Option<string>)
    ensures TitlesActions.GetTitlesPaginated(rows, Some(page), Some(limit), dataFault, countFault).success ==>
      page >= 1 && limit >= 1
  {
  }

  /** `useSearchTitles().search(q)` when the awaited action is `searchTitles(q)`:
      the raw query goes to the action, which trims it. */
  method SearchTitles(hook: SearchHook<Row<Title>>, rows: seq<Row<Title>>, searchQuery: string, fault: Option<string>)
    modifies hook
    ensures hook.query == searchQuery
    ensures IsBlank(searchQuery) ==> hook.items == [] && hook.loading == old(hook.loading) && hook.error == old(hook.error)
  ensures !IsBlank(searchQuery) ==> !hook.loading
    ensures !IsBlank(searchQuery) && |Trim(searchQuery)| < 2 ==>
      hook.items == old(hook.items) && hook.error == Some("Search query must be at least 2 characters long")
    ensures |Trim(searchQuery)| >= 2 && fault.None? ==>
      hook.items == TitlesActions.SearchTitles(rows, searchQuery, None).data.value && hook.error.None?
    ensures |Trim(searchQuery)| >= 2 && fault.Some? ==>
      hook.items == old(hook.items) && hook.error == Some("Failed to search titles")
  {
    hook.Search(searchQuery, TitlesActions.SearchTitles(rows, searchQuery, fault));
  }

  /** `useCreateTitle().create`. */
  method Create(hook: MutationHook, result: ActionResult<Row<Title>>) returns (out: Option<Row<Title>>)
    modifies hook
    ensures !hook.loading
    ensures result.success ==> out == result.data && hook.error.None?
    ensures !result.success ==> out.None? && hook.error == Some(MessageOr(result, "Failed to create title"))
  {
    out := hook.Complete(result, "Failed to create title");
  }

  /** `useUpdateTitle().update`. */
  method Update(hook: MutationHook, result: ActionResult<Row<Title>>) returns (out: Option<Row<Title>>)
    modifies hook
    ensures !hook.loading
    ensures result.success ==> out == result.data && hook.error.None?
    ensures !result.success ==> out.None? && hook.error == Some(MessageOr(result, "Failed to update title"))
  {
    out := hook.Complete(result, "Failed to update title");
  }

  /** `useDeleteTitle().delete`. */
  method Delete(hook: MutationHook, result: ActionResult<()>) returns (ok: bool)
    modifies hook
    ensures !hook.loading && ok == result.success
    ensures result.success ==> hook.error.None?
    ensures !result.success ==> hook.error == Some(MessageOr(result, "Failed to delete title"))
  {
    ok := hook.CompleteFlag(result, "Failed to delete title");
  }
}

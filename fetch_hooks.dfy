/** The state the client data hooks keep with `useState`, and the steps that
    change it. A fetch sets `loading` and clears `error`, awaits one server
    action, stores its data on success or its message on failure, and clears
    `loading`; here the awaited envelope is a parameter of the step. On a
    failure the data fetched before is kept. */
module FetchHooks {
  import opened Wrappers
  import opened Text
  import opened Envelope

  /** The message a fetch hook records when the envelope has none. */
  const UnknownError := "Unknown error"

  /** `result.data || null` for an action whose data may be null. */
  function Payload<T>(result: ActionResult<Option<T>>): (p: Option<T>)
    ensures result.data.None? ==> p.None?
    ensures result.data.Some? ==> p == result.data.value
  {
    if result.data.Some? then result.data.value else None
  }

  /** `if (!id) return`: a null or zero numeric id makes the fetch do nothing. */
  predicate IsSetId(id: Option<int>) {
    id.Some? && id.value != 0
  }

  /** `if (!id) return` on a string id: null or the empty string. */
  predicate IsSetKey(id: Option<string>) {
    id.Some? && id.value != []
  }

  /** A hook holding a list: `useTitles`, `useTitlesByStatus`,
      `useChaptersByTitleVersion`, `useLatestChapters`, `useUsersByRole`. */
  class ListHook<T> {
    var items: seq<T>
    var loading: bool
    var error: Option<string>

    constructor ()
      ensures items == [] && !loading && error.None?
    {
      items := [];
      loading := false;
      error := None;
    }

    /** One fetch: `result.data || []` on success, the message or
        'Unknown error' on failure, keeping the old list. */
    method Fetch(result: ActionResult<seq<T>>)
      modifies this
      ensures !loading
      ensures result.success ==> items == result.data.GetOr([]) && error.None?
      ensures !result.success ==> items == old(items) && error == Some(MessageOr(result, UnknownError))
    {
      loading := true;
      error := None;
      if result.success {
        items := result.data.GetOr([]);
      } else {
        error := Some(MessageOr(result, UnknownError));
      }
      loading := false;
    }

    /** A fetch guarded by `if (!id) return`. */
    method FetchById(id: Option<int>, result: ActionResult<seq<T>>)
      modifies this
      ensures !IsSetId(id) ==> items == old(items) && loading == old(loading) && error == old(error)
      ensures IsSetId(id) ==> !loading
      ensures IsSetId(id) && result.success ==> items == result.data.GetOr([]) && error.None?
      ensures IsSetId(id) && !result.success ==> items == old(items) && error == Some(MessageOr(result, UnknownError))
    {
      if !IsSetId(id) {
        return;
      }
      Fetch(result);
    }
  }

  /** A hook holding one record or null: `useTitle`, `useChapter`,
      `useChapterWithPages`, `useUser`. */
  class ItemHook<T> {
    var item: Option<T>
    var loading: bool
    var error: Option<string>

    constructor ()
      ensures item.None? && !loading && error.None?
    {
      item := None;
      loading := false;
      error := None;
    }

    /** One fetch of an action whose data may be null. */
    method Fetch(result: ActionResult<Option<T>>)
      modifies this
      ensures !loading
      ensures result.success ==> item == Payload(result) && error.None?
      ensures !result.success ==> item == old(item) && error == Some(MessageOr(result, UnknownError))
    {
      loading := true;
      error := None;
      if result.success {
        item := Payload(result);
      } else {
        error := Some(MessageOr(result, UnknownError));
      }
      loading := false;
    }

    /** One fetch of an action whose data is a record, `getChapterWithPages`. */
    method FetchRecord(result: ActionResult<T>)
      modifies this
      ensures !loading
      ensures result.success ==> item == result.data && error.None?
      ensures !result.success ==> item == old(item) && error == Some(MessageOr(result, UnknownError))
    {
      loading := true;
      error := None;
      if result.success {
        item := result.data;
      } else {
        error := Some(MessageOr(result, UnknownError));
      }
      loading := false;
    }

    /** `useTitle` and `useChapter`: a fetch guarded by a numeric id. */
    method FetchById(id: Option<int>, result: ActionResult<Option<T>>)
      modifies this
      ensures !IsSetId(id) ==> item == old(item) && loading == old(loading) && error == old(error)
      ensures IsSetId(id) ==> !loading
      ensures IsSetId(id) && result.success ==> item == Payload(result) && error.None?
      ensures IsSetId(id) && !result.success ==> item == old(item) && error == Some(MessageOr(result, UnknownError))
    {
      if !IsSetId(id) {
        return;
      }
      Fetch(result);
    }

    /** `useUser`: a fetch guarded by a string id. */
    method FetchByKey(id: Option<string>, result: ActionResult<Option<T>>)
      modifies this
      ensures !IsSetKey(id) ==> item == old(item) && loading == old(loading) && error == old(error)
      ensures IsSetKey(id) ==> !loading
      ensures IsSetKey(id) && result.success ==> item == Payload(result) && error.None?
      ensures IsSetKey(id) && !result.success ==> item == old(item) && error == Some(MessageOr(result, UnknownError))
    {
      if !IsSetKey(id) {
        return;
      }
      Fetch(result);
    }
  }

  /** A search hook: `useSearchTitles`, `useSearchUsers`. */
  class SearchHook<T> {
    var items: seq<T>
    var loading: bool
    var error: Option<string>
    var query: string

    constructor ()
      ensures items == [] && !loading && error.None? && query == []
    {
      items := [];
      loading := false;
      error := None;
      query := [];
    }

    /** `search(searchQuery)`: the raw query is recorded; a blank one empties
        the list without calling the action and without touching `loading`
        or `error`; otherwise one fetch. */
    method Search(searchQuery: string, result: ActionResult<seq<T>>)
      modifies this
      ensures query == searchQuery
      ensures IsBlank(searchQuery) ==> items == [] && loading == old(loading) && error == old(error)
      ensures !IsBlank(searchQuery) ==> !loading
      ensures !IsBlank(searchQuery) && result.success ==> items == result.data.GetOr([]) && error.None?
      ensures !IsBlank(searchQuery) && !result.success ==>
        items == old(items) && error == Some(MessageOr(result, UnknownError))
    {
      if searchQuery != query {
        query := searchQuery;
      }
      if IsBlank(searchQuery) {
        items := [];
        return;
      }
      loading := true;
      error := None;
      if result.success {
        items := result.data.GetOr([]);
      } else {
        error := Some(MessageOr(result, UnknownError));
      }
      loading := false;
    }

    /** `clearSearch`. */
    method ClearSearch()
      modifies this
      ensures query == [] && items == [] && error.None? && loading == old(loading)
    {
      query := [];
      items := [];
      error := None;
    }
  }

  /** A mutation hook: `useCreateTitle`, `useUpdateTitle`, `useDeleteTitle`
      and their chapter counterparts. */
  class MutationHook {
    var loading: bool
    var error: Option<string>

    constructor ()
      ensures !loading && error.None?
    {
      loading := false;
      error := None;
    }

    /** `create` and `update`: null on failure, with the envelope's message
        or the hook's own `fallback`; the data on success. */
    method Complete<T>(result: ActionResult<T>, fallback: string) returns (out: Option<T>)
      modifies this
      ensures !loading
      ensures result.success ==> out == result.data && error.None?
      ensures !result.success ==> out.None? && error == Some(MessageOr(result, fallback))
    {
      loading := true;
      error := None;
      loading := false;
      if !result.success {
        error := Some(MessageOr(result, fallback));
        return None;
      }
      out := result.data;
    }

    /** `delete`: false on failure, with the message or `fallback`; true on success. */
    method CompleteFlag<T>(result: ActionResult<T>, fallback: string) returns (ok: bool)
      modifies this
      ensures !loading
      ensures ok == result.success
      ensures result.success ==> error.None?
      ensures !result.success ==> error == Some(MessageOr(result, fallback))
    {
      loading := true;
      error := None;
      loading := false;
      if !result.success {
        error := Some(MessageOr(result, fallback));
        return false;
      }
      ok := true;
    }
  }
}

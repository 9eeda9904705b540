/** The user hooks. `useUser` is `FetchHooks.ItemHook.FetchByKey` and
    `useUsersByRole` is `FetchHooks.ListHook.Fetch`; `useSearchUsers` is a
    `FetchHooks.SearchHook` over `searchUsers`. */
module UseUsers {
  import opened Wrappers
  import opened Text
  import opened Entities
  import opened Envelope
  import opened FetchHooks
  import UsersActions

  /** `useSearchUsers().search(q)` when the awaited action is `searchUsers(q)`:
      a blank query never reaches the action; a query that is not blank but
      has fewer than two characters once trimmed reaches it and fails. */
  method SearchUsers(hook: SearchHook<UserProfile>, profiles: seq<UserProfile>, searchQuery: string,
                     collate: (string, string) -> bool, fault: Option<string>)
    modifies hook
    ensures hook.query == searchQuery
    ensures IsBlank(searchQuery) ==> hook.items == [] && hook.loading == old(hook.loading) && hook.error == old(hook.error)
    ensures !IsBlank(searchQuery) ==> !hook.loading
    ensures !IsBlank(searchQuery) && |Trim(searchQuery)| < 2 ==>
      hook.items == old(hook.items) && hook.error == Some("Search query must be at least 2 characters long")
    ensures |Trim(searchQuery)| >= 2 && fault.None? ==>
      hook.items == UsersActions.SearchUsers(profiles, searchQuery, collate, None).data.value && hook.error.None?
    ensures |Trim(searchQuery)| >= 2 && fault.Some? ==>
      hook.items == old(hook.items) && hook.error == Some("Failed to search users")
  {
    hook.Search(searchQuery, UsersActions.SearchUsers(profiles, searchQuery, collate, fault));
  }

  /** `useUser(id).fetchUser` when the awaited action is `getUserById(id)`:
      the empty string is skipped, while an id of spaces reaches the action,
      which rejects it and the old user stays. */
  method FetchUser(hook: ItemHook<UserProfile>, profiles: seq<UserProfile>, id: Option<string>, fault: Option<string>)
    modifies hook
    ensures !IsSetKey(id) ==> hook.item == old(hook.item) && hook.loading == old(hook.loading) && hook.error == old(hook.error)
    ensures IsSetKey(id) && IsBlank(id.value) ==> hook.item == old(hook.item) && hook.error == Some("Invalid user ID")
    ensures IsSetKey(id) && !IsBlank(id.value) && fault.None? ==>
      hook.item == UsersActions.GetUserById(profiles, id.value, None).data.value && hook.error.None?
    ensures IsSetKey(id) && !IsBlank(id.value) && fault.Some? ==>
      hook.item == old(hook.item) && hook.error == Some("Failed to fetch user")
    ensures IsSetKey(id) ==> !hook.loading
    ensures IsSetKey(id) && !UsersActions.GetUserById(profiles, id.value, fault).success ==>
      hook.item == old(hook.item) &&
      hook.error == Some(MessageOr(UsersActions.GetUserById(profiles, id.value, fault), UnknownError))
  {
    if !IsSetKey(id) {
      return;
    }
    hook.FetchByKey(id, UsersActions.GetUserById(profiles, id.value, fault));
  }
}

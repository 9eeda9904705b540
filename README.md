# A model of the mimiru-frontend core

mimiru-frontend is a Next.js front end for a manga and comic reading site
backed by Supabase. This project models its core in Dafny:

- **Repositories.** Each repository is a table over the Supabase client. The
  generic base repository is a class over a sequence of rows with a
  generated-id counter. The titles, chapters and genres repositories are
  queries over those rows. The users repository is a class over the
  `user_profiles` table, which is keyed by a string id.
- **Server actions.** These validate their arguments, call a repository and
  wrap the outcome in an `ActionResult` envelope (`success`, `data`,
  `error`). A repository error becomes the action's fixed failure message.
- **Client data hooks.** Their `useState` fields are fields of classes, and
  each fetch or mutation is a method. A step is given the envelope it
  awaits.
- **Zod schemas.** The schemas of `utils/validation.ts` and of the sign-up
  form are modelled as lists of issues, together with the formatter that
  turns issues into a map from field path to message.
- **Interactive pages.** These are:
  - the chapter list of the title page (filter, sort, pages of five, the
    description's "read more");
  - the drag-and-drop chapter reordering of the title dashboard;
  - the carousel;
  - the loading store;
  - the `cn` class-name joiner;
  - the route lists and the authentication middleware.

A Supabase failure that the client reports is the parameter
`fault: Option<string>`. The clock (`new Date()`) is the parameter `now`.
The checks zod makes with a regular expression or a library predicate
(email, URL, UUID) are predicate parameters. The database's text collation,
which `.order('name')` and `.order('username')` follow, is the parameter
`collate`: the model promises those orders only when `collate` is a total
preorder, and makes no assumption about which one it is
(`Entities.CodeOrderIsCollation` shows that comparing character codes is
one). The session lookup of the middleware is the boolean `hasSession`.

Some constants are not defined in the source files present:
`ROUTES.AUTH`, `ROUTES.SIGN_IN` and `ROUTES.SIGN_UP`. `constants/routes.ts`
defines no `AUTH`, `SIGN_IN` or `SIGN_UP`. These three routes are
therefore a parameter record of optional strings; a missing one is
`undefined`.

The titles, chapters and genres repositories issue their queries on
`this.supabase`. `BaseRepository` declares no such field; it only provides
`getSupabase()`. The model assumes that `this.supabase` is the client
`getSupabase()` returns, and evaluates those queries on the table (see
"## Left out").

Elsewhere, where the code and its description disagree, the model follows
the code:
- The username pre-check does not catch a case variant. The action looks up
  the trimmed username as typed, but it stores the name lower-cased. So
  "Alice" passes the check when "alice" is taken
  (`UsersActions.CaseVariantPassesPreCheck`).
- The title description is measured untrimmed.
- `getPreviousChapter` rejects chapter 0, which `getNextChapter` accepts.
- The search schema counts raw characters, while the search actions count
  trimmed ones.

## Model

| member | source | states |
|---|---|---|
| Repository.FindAll | lib/supabase/repositories/base.repository.ts:10-18 | On a client error, `Failed to fetch <table>: <message>`; otherwise exactly the rows of the table (same multiset). |
| Repository.FindById | lib/supabase/repositories/base.repository.ts:20-32 | `.single()` with the not-found exemption: a row found has that id and is in the table; with unique ids there is a row iff one has that id, and null otherwise, not an error. |
| Repository.SingleOrNull | lib/supabase/repositories/base.repository.ts:20-32 | `.single()` with the not-found code exempt: a row iff the query matched exactly one, and then that row. |
| Repository.Count | lib/supabase/repositories/base.repository.ts:69-77 | The number of rows, or `Failed to count <table>: <message>`. |
| Repository.BaseRepository.constructor | lib/supabase/repositories/base.repository.ts:8 | An empty table whose first generated id is 1. |
| Repository.BaseRepository.Create | lib/supabase/repositories/base.repository.ts:34-44 | The insert appends the item under the next generated id and returns that row; an error leaves the table unchanged. Ids remain unique. |
| Repository.BaseRepository.Update | lib/supabase/repositories/base.repository.ts:46-57 | Updating a missing id is the `.single()` error; otherwise the row with that id, and no other row, is changed, and the updated row is returned. |
| Repository.BaseRepository.Delete | lib/supabase/repositories/base.repository.ts:59-67 | The table loses exactly the rows with that id (none if there are none); an error changes nothing. |
| Repository.LookupAfterUpdate | lib/supabase/repositories/base.repository.ts:46-57 | After an update, other ids look up as before, the updated id looks up to the changed row, and a missing id stays missing. |
| Repository.LookupAfterDelete | lib/supabase/repositories/base.repository.ts:59-67 | After a delete, the id is gone and every other id looks up as before. |
| Repository.WithoutIdUnique | lib/supabase/repositories/base.repository.ts:59-67 | Deleting keeps the ids unique. |
| Repository.CreateThenFind | lib/supabase/repositories/base.repository.ts:20-44 | A row just created under a fresh id is what `findById` returns for that id. |
| TitlesRepository.FindByStatus | lib/supabase/repositories/titles.repository.ts:19-28 | Exactly the titles with that status, newest first; an error is `Failed to fetch titles by status: …`. |
| TitlesRepository.FindPaginated | lib/supabase/repositories/titles.repository.ts:31-53 | `total` is the table size. The page is `range((page-1)*limit, page*limit-1)` of the newest-first order, so it has `min(limit, total - offset)` rows or none. The data error is checked before the count error. |
| TitlesRepository.PagesCoverTable | lib/supabase/repositories/titles.repository.ts:31-53 | Every row of the newest-first order appears on page `k / limit + 1`, at position `k % limit`. |
| TitlesRepository.Search | lib/supabase/repositories/titles.repository.ts:56-65 | Exactly the titles whose title or description contains the query ignoring case, newest first. |
| TitlesRepository.FindByCreator | lib/supabase/repositories/titles.repository.ts:68-77 | Exactly the titles with that `created_by`, newest first. |
| ChaptersRepository.FindByTitleVersion | lib/supabase/repositories/chapters.repository.ts:28-37 | Exactly the chapters of that version, by ascending chapter number. |
| ChaptersRepository.FindWithPages | lib/supabase/repositories/chapters.repository.ts:40-58 | The chapter with that id together with exactly its pages; with unique ids, null iff no chapter has that id. |
| ChaptersRepository.FindNext | lib/supabase/repositories/chapters.repository.ts:61-75 | The chapter of the version with the least number above the current one; null iff no chapter of the version has a larger number. |
| ChaptersRepository.FindPrevious | lib/supabase/repositories/chapters.repository.ts:78-92 | The chapter of the version with the greatest number below the current one; null iff no chapter of the version has a smaller number. |
| ChaptersRepository.FindLatest | lib/supabase/repositories/chapters.repository.ts:95-115 | `min(limit, n)` rows of the table, each at most as often as in the table, newest first, each at least as new as every chapter left out. |
| ChaptersRepository.LatestAreNewest | lib/supabase/repositories/chapters.repository.ts:95-115 | A prefix of a newest-first order is at least as new as everything after it. |
| ChaptersRepository.NextAndPreviousAreNeighbours | lib/supabase/repositories/chapters.repository.ts:61-92 | Neither neighbour is the current chapter, both are in the version, and the previous one's number is below the next one's. |
| GenresRepository.FindByName | lib/supabase/repositories/genres.repository.ts:16-27 | A genre found has that name; null when none has it; the genre when exactly one has it. |
| GenresRepository.NamedGenres | lib/supabase/repositories/genres.repository.ts:16-27 | Filtering by name leaves nothing, or exactly the one genre so named. |
| GenresRepository.Search | lib/supabase/repositories/genres.repository.ts:45-54 | Exactly the genres whose name contains the query ignoring case, by ascending name under the collation `collate` whenever `collate` is a total preorder. |
| UsersRepository.FindAll | lib/supabase/repositories/base.repository.ts:10-18 | All profiles, or `Failed to fetch user_profiles: …`. |
| UsersRepository.FindByStringId | lib/supabase/repositories/users.repository.ts:10-22 | With unique ids, the profile iff one has that string id, otherwise null. |
| UsersRepository.FindByUsername | lib/supabase/repositories/users.repository.ts:55-67 | A profile found has exactly that username (case-sensitive); null when none has it; the profile when exactly one has it. |
| UsersRepository.NamedProfiles | lib/supabase/repositories/users.repository.ts:55-67 | Filtering by username leaves nothing, or exactly the one profile so named. |
| UsersRepository.FindByRole | lib/supabase/repositories/users.repository.ts:70-81 | Exactly the active profiles with that role, newest joined first. |
| UsersRepository.FindActive | lib/supabase/repositories/users.repository.ts:84-94 | Exactly the profiles with `is_active = true`, newest joined first. |
| UsersRepository.Search | lib/supabase/repositories/users.repository.ts:97-108 | Exactly the active profiles whose username or display name contains the query ignoring case, by ascending username under the collation `collate` whenever `collate` is a total preorder. |
| UsersRepository.DeactivateIdempotent | lib/supabase/repositories/users.repository.ts:125-136 | Deactivating twice is deactivating once. |
| UsersRepository.DeactivatedIsNotListed | lib/supabase/repositories/users.repository.ts:70-136 | After deactivation, the user is in none of the active list, the role list and the search. |
| UsersRepository.UsersRepository.constructor | lib/supabase/repositories/users.repository.ts:5-7 | An empty `user_profiles` table. |
| UsersRepository.UsersRepository.CreateProfile | lib/supabase/repositories/users.repository.ts:25-38 | The profile is appended with `joined_at` set to now. A taken id is the duplicate-key error and changes nothing. Ids remain unique. |
| UsersRepository.UsersRepository.UpdateProfile | lib/supabase/repositories/users.repository.ts:41-52 | The profile with that id gets the patch, and no other profile changes. A missing id is the `.single()` error. |
| UsersRepository.UsersRepository.UpdateRole | lib/supabase/repositories/users.repository.ts:111-122 | Only that profile's role changes, and the updated profile is returned. |
| UsersRepository.UsersRepository.Deactivate | lib/supabase/repositories/users.repository.ts:125-136 | Only that profile's `is_active` becomes false, and the updated profile is returned. |
| TitlesActions.GetTitles | app/actions/titles.actions.ts:8-16 | All titles on success; `Failed to fetch titles` on any repository error. |
| Envelope.Catch | app/actions/titles.actions.ts:8-16 | The `try`/`catch` of every action: a repository success becomes `{ success: true, data }` and any repository error the action's fixed failure message, whatever the error said. |
| Text.Trim | app/actions/titles.actions.ts:73 | `trim()`: no longer than the input, a piece of it after its leading white space (ECMAScript WhiteSpace and LineTerminator), neither starting nor ending with white space, and empty exactly when the input is all white space. A non-empty result ends where the trailing white space begins. |
| TitlesActions.GetTitleById | app/actions/titles.actions.ts:18-30 | A non-positive id is `Invalid title ID`. An error is `Failed to fetch title`. Otherwise the title with that id, or null. |
| TitlesActions.GetTitlesPaginated | app/actions/titles.actions.ts:32-57 | Page and limit default to 1 and 10. A non-positive one is `Invalid pagination parameters`. Otherwise the repository page with `page`, `limit`, `total` and `totalPages = ceil(total / limit)`. |
| TitlesActions.EveryTitleOnSomePage | app/actions/titles.actions.ts:32-57 | Every title is on a page between 1 and `totalPages`, at position `k % limit`. |
| TitlesActions.GetTitlesByStatus | app/actions/titles.actions.ts:59-69 | Exactly the titles with that status. |
| TitlesActions.SearchTitles | app/actions/titles.actions.ts:71-83 | A query with fewer than 2 characters once trimmed fails with the length message. Otherwise, the repository search for the trimmed query. |
| TitlesActions.CreateTitleError | app/actions/titles.actions.ts:107-117 | The first failing check, in source order. None iff the trimmed title has 3 to 255 characters and any description has at most 1000. |
| TitlesActions.TrimmedOrAbsent | app/actions/titles.actions.ts:120-128 | `s?.trim() \|\| undefined`: absent iff the string is missing or blank; otherwise the trimmed, non-empty string. |
| TitlesActions.NewTitleRecord | app/actions/titles.actions.ts:120-128 | The inserted record: trimmed title, trimmed-or-absent description, status defaulting to ongoing, both timestamps set to now, the other fields as given. |
| TitlesActions.NewTitleRecordStable | app/actions/titles.actions.ts:107-128 | The normalised record passes the checks again, and normalising it again changes nothing. |
| TitlesActions.CreateTitle | app/actions/titles.actions.ts:104-139 | A failed check returns its message and leaves the table unchanged. A repository error returns `Failed to create title`. Otherwise the normalised record is appended and returned. |
| TitlesActions.CallerPatchAfterChecks | app/actions/titles.actions.ts:151-159 | The caller's object after the action: only `title` can change, and it is trimmed in place once the title checks pass. |
| TitlesActions.UpdateTitleError | app/actions/titles.actions.ts:146-163 | An unsupplied field is not checked. The id, then the title (3 to 255 characters trimmed), then the description (at most 1000), each failure with its message; None iff all supplied fields pass. |
| TitlesActions.TitleUpdateSent | app/actions/titles.actions.ts:166-169 | The caller's fields with `updated_at` set to now, and nothing else changed. |
| TitlesActions.UpdateTitle | app/actions/titles.actions.ts:141-181 | A check failure changes nothing. A missing row or error gives `Failed to update title`. Otherwise that row gets the sent patch. The caller's object is left as `CallerPatchAfterChecks` says. |
| TitlesActions.UpdatedTitleIsTrimmed | app/actions/titles.actions.ts:151-169 | A stored updated title is trimmed and has 3 to 255 characters. |
| TitlesActions.DeleteTitle | app/actions/titles.actions.ts:183-200 | A non-positive id is `Invalid title ID` and changes nothing. Otherwise the rows with that id are removed, or `Failed to delete title`. |
| ChaptersActions.GetChaptersByTitleVersion | app/actions/chapters.actions.ts:8-22 | A non-positive version id is rejected. Otherwise exactly the chapters of that version, by ascending number. |
| ChaptersActions.GetChapterById | app/actions/chapters.actions.ts:24-36 | A non-positive id is `Invalid chapter ID`. Otherwise the chapter with that id, or null. |
| ChaptersActions.GetChapterWithPages | app/actions/chapters.actions.ts:46-61 | With unique ids, `Chapter not found` iff no chapter has the id. On success, the chapter with exactly its pages. |
| ChaptersActions.GetNextChapter | app/actions/chapters.actions.ts:63-82 | A version id below 1 or a number below 0 is rejected. Otherwise the repository's next chapter. |
| ChaptersActions.GetPreviousChapter | app/actions/chapters.actions.ts:84-103 | A version id below 1 or a number below 1 is rejected. Otherwise the repository's previous chapter. |
| ChaptersActions.NeighboursDisagreeOnlyAtZero | app/actions/chapters.actions.ts:63-103 | For a valid version, "next succeeds but previous fails" holds exactly at chapter 0. |
| ChaptersActions.GetLatestChapters | app/actions/chapters.actions.ts:105-117 | The limit defaults to 10 and must be 1 to 50. The result has `min(limit, n)` rows of the table, each at most as often as in the table, newest first, each at least as new as every chapter left out. |
| ChaptersActions.CreateChapterError | app/actions/chapters.actions.ts:122-132 | The first failing check. None iff the version id and number are positive and any title has at most 255 characters trimmed. |
| ChaptersActions.NewChapterRecord | app/actions/chapters.actions.ts:135-141 | The inserted record: a trimmed-or-absent title and both timestamps set to now. |
| ChaptersActions.NewChapterRecordStable | app/actions/chapters.actions.ts:122-141 | The normalised record passes the checks again and is a fixed point. |
| ChaptersActions.CreateChapter | app/actions/chapters.actions.ts:119-152 | A failed check or an error changes nothing. Otherwise the normalised record is appended under the next id. |
| ChaptersActions.UpdateChapterError | app/actions/chapters.actions.ts:159-170 | None iff the id is positive, any number is positive and any title has at most 255 characters trimmed. |
| ChaptersActions.ChapterUpdateSent | app/actions/chapters.actions.ts:173-177 | The caller's fields with the title trimmed-or-absent and `updated_at` set to now. |
| ChaptersActions.UpdateChapter | app/actions/chapters.actions.ts:154-188 | A check failure changes nothing. A missing row or error gives `Failed to update chapter`. Otherwise that row gets the sent patch. |
| ChaptersActions.UpdatedChapterKeepsNumberPositive | app/actions/chapters.actions.ts:159-177 | An accepted update keeps a positive chapter number and `created_at`, and it stamps `updated_at`. |
| ChaptersActions.DeleteChapter | app/actions/chapters.actions.ts:190-206 | A non-positive id is rejected and changes nothing. Otherwise the rows with that id are removed. |
| UsersActions.GetUsers | app/actions/users.actions.ts:8-16 | All profiles, or `Failed to fetch users`. |
| UsersActions.GetUserById | app/actions/users.actions.ts:18-30 | A blank id is `Invalid user ID`. With unique ids, the profile iff one has that id. |
| UsersActions.GetUserByUsername | app/actions/users.actions.ts:32-44 | A blank name is `Invalid username`. Otherwise the repository lookup of the trimmed name. |
| UsersActions.GetUsersByRole | app/actions/users.actions.ts:46-56 | Exactly the active profiles with that role, newest joined first. |
| UsersActions.GetActiveUsers | app/actions/users.actions.ts:58-66 | Exactly the active profiles. |
| UsersActions.SearchUsers | app/actions/users.actions.ts:68-80 | Fewer than 2 trimmed characters fails. Otherwise exactly the active profiles matching the trimmed query, by ascending username under `collate` whenever it is a total preorder. |
| UsersActions.UsernameError | app/actions/users.actions.ts:89-95 | None iff the trimmed username has 3 to 50 characters; otherwise the message for whichever bound failed. |
| UsersActions.CreateUserProfileError | app/actions/users.actions.ts:85-103 | The first failing check, in source order. Blank display names and bios are not checked. |
| UsersActions.NewProfileRecord | app/actions/users.actions.ts:111-118 | The record sent: username trimmed and lower-cased, display name and bio trimmed-or-absent, role defaulting to reader, `is_active ?? true`. |
| UsersActions.NewProfileRecordIsNormal | app/actions/users.actions.ts:85-118 | The stored username is trimmed, has no upper-case letter and has 3 to 50 characters; the display name and bio fit their bounds. |
| UsersActions.NewProfileRecordResubmits | app/actions/users.actions.ts:85-118 | Resubmitting the stored record passes the checks and yields the same record. |
| UsersActions.CreateUserProfile | app/actions/users.actions.ts:82-128 | Check failure, lookup error, username taken (exact match on the trimmed name), duplicate id and insert error each give their message and change nothing. Otherwise the normalised profile is appended with `joined_at = now`. |
| UsersActions.CaseVariantPassesPreCheck | app/actions/users.actions.ts:105-118 | When only a differently-cased username exists, the pre-check finds nothing, yet the stored name equals the existing one. |
| UsersActions.CaseVariantExample | app/actions/users.actions.ts:105-118 | A concrete case of the pre-check gap: "Alice" is looked up as typed and missed, although it is stored as the existing "alice". |
| UsersActions.CreatedProfileIsFoundByUsername | app/actions/users.actions.ts:32-44 | A profile whose username is unique and trimmed is what `getUserByUsername` returns for it. |
| UsersActions.UpdateUserProfileError | app/actions/users.actions.ts:135-156 | None iff the id is not blank, any username passes the length checks, and any non-empty display name or bio fits. |
| UsersActions.ProfileCallerPatchAfterChecks | app/actions/users.actions.ts:140-148 | Only `username` of the caller's object changes, and only once the username checks pass: to its trimmed lower-case form. |
| UsersActions.ProfileUpdateSent | app/actions/users.actions.ts:158-162 | Display name and bio are trimmed-or-absent; the other fields are as the caller's object has them. |
| UsersActions.UpdateUserProfile | app/actions/users.actions.ts:130-173 | A check failure changes nothing. A missing profile or error gives `Failed to update user profile`. Otherwise only that profile gets the sent patch. |
| UsersActions.UpdatedUsernameIsNormal | app/actions/users.actions.ts:140-162 | A stored updated username is trimmed, lower-cased and has 3 to 50 characters. |
| UsersActions.UpdateUserRole | app/actions/users.actions.ts:175-195 | A blank id is rejected. Otherwise only that profile's role changes. |
| UsersActions.DeactivateUser | app/actions/users.actions.ts:197-214 | A blank id is rejected. Otherwise only that profile becomes inactive. |
| FetchHooks.ListHook.constructor | hooks/data/useChapters.ts:19-21 | An empty list; not loading; no error. |
| Envelope.MessageOr | hooks/data/useChapters.ts:34 | `result.error` or else the fallback: the envelope's message when present and non-empty, otherwise the fallback. |
| FetchHooks.ListHook.Fetch | hooks/data/useChapters.ts:176-189 | On success the list is `data \|\| []` and the error cleared. On failure the old list stays and the error is the message or `Unknown error`. Loading ends false. |
| FetchHooks.ListHook.FetchById | hooks/data/useChapters.ts:23-38 | A null or zero id changes nothing; otherwise one fetch. |
| FetchHooks.ItemHook.constructor | hooks/data/useChapters.ts:54-56 | No item; not loading; no error. |
| FetchHooks.ItemHook.Fetch | hooks/data/useChapters.ts:61-72 | On success the item is `data \|\| null`. On failure the old item stays and the message is recorded. |
| FetchHooks.ItemHook.FetchRecord | hooks/data/useChapters.ts:96-107 | The same, for `getChapterWithPages`, whose data is a record. |
| FetchHooks.ItemHook.FetchById | hooks/data/useChapters.ts:58-73 | A null or zero id changes nothing; otherwise one fetch. |
| FetchHooks.ItemHook.FetchByKey | hooks/data/useUsers.ts:13-28 | A null or empty id changes nothing; otherwise one fetch. |
| FetchHooks.SearchHook.constructor | hooks/data/useUsers.ts:77-80 | Empty results and an empty query. |
| FetchHooks.SearchHook.Search | hooks/data/useUsers.ts:82-104 | The raw query is recorded. A blank query empties the results without fetching. Otherwise one fetch. |
| FetchHooks.SearchHook.ClearSearch | hooks/data/useUsers.ts:106-110 | Query, results and error are cleared. |
| FetchHooks.MutationHook.constructor | hooks/data/useChapters.ts:205-206 | Not loading; no error. |
| FetchHooks.MutationHook.Complete | hooks/data/useChapters.ts:208-222 | The data on success. On failure null, with the message or the hook's fallback. |
| FetchHooks.MutationHook.CompleteFlag | hooks/data/useChapters.ts:256-270 | True iff the action succeeded. On failure the message or the fallback is recorded. |
| UseTitles.PaginatedTitles.constructor | hooks/data/useTitles.ts:86-90 | The page defaults to 1 and the limit to 10. |
| UseTitles.PaginatedTitles.FetchTitles | hooks/data/useTitles.ts:92-106 | On success the page record and the page become current. On failure both stay and the message is recorded. |
| UseTitles.PaginatedTitles.GoToPage | hooks/data/useTitles.ts:112-116 | Moves iff the page is positive and, when a record is loaded, at most `totalPages`. |
| UseTitles.PaginatedTitles.NextPage | hooks/data/useTitles.ts:118-122 | Advances by one iff a record is loaded and this is not the last page. Never passes `totalPages`. |
| UseTitles.PaginatedTitles.PrevPage | hooks/data/useTitles.ts:124-128 | Goes back by one iff not on page 1. Never goes below 1. |
| UseTitles.FetchedPageIsPositive | app/actions/titles.actions.ts:32-57 | Only a page and limit of at least 1 can be fetched successfully. |
| UseTitles.SearchTitles | hooks/data/useTitles.ts:182-204 | The three outcomes of hook and action together. A blank query is not sent. A non-blank query shorter than 2 once trimmed is sent and fails. Otherwise the results are the action's search. `loading` is untouched for a blank query and false after any other. |
| UseTitles.Create | hooks/data/useTitles.ts:223-244 | The created title, or null with the message or `Failed to create title`. |
| UseTitles.Update | hooks/data/useTitles.ts:247-268 | The updated title, or null with the message or `Failed to update title`. |
| UseTitles.Delete | hooks/data/useTitles.ts:271-292 | `loading` false; true iff deleted, with the error cleared; otherwise the message or `Failed to delete title`. |
| UseChapters.ChapterNavigation.constructor | hooks/data/useChapters.ts:127-130 | No neighbours; not loading; no error. |
| UseChapters.ChapterNavigation.FetchNavigation | hooks/data/useChapters.ts:132-155 | A null or zero version id or a null number changes nothing. Otherwise each neighbour is its data or null, and one failure sets the navigation error. |
| UseChapters.Navigate | hooks/data/useChapters.ts:132-155 | Nothing changes for an unset version id or a null chapter number; otherwise `loading` ends false. A negative version id, a negative chapter number or a fault on one side sets "Failed to fetch navigation data" and leaves that side null; chapter 0 does so for the previous side. Each side that succeeds holds the repository's next or previous chapter, and the error is clear when both succeed. |
| UseChapters.Create | hooks/data/useChapters.ts:204-225 | The created chapter, or null with the message or `Failed to create chapter`. |
| UseChapters.Update | hooks/data/useChapters.ts:228-249 | The updated chapter, or null with the message or `Failed to update chapter`. |
| UseChapters.Delete | hooks/data/useChapters.ts:252-273 | `loading` false; true iff deleted, with the error cleared; otherwise the message or `Failed to delete chapter`. |
| UseUsers.SearchUsers | hooks/data/useUsers.ts:82-104 | `useSearchUsers` over `searchUsers`, with the same three outcomes as the title search, and the same effect on `loading`. |
| UseUsers.FetchUser | hooks/data/useUsers.ts:13-28 | An empty id is skipped, leaving user, `loading` and error as they were. An id of spaces reaches the action, which rejects it. A fetch error keeps the old user with "Failed to fetch user"; any failed result keeps it with the message or "Unknown error". Otherwise the user with that id. |
| TitleDetailPage.FilteredChapters | features/TitleDetailPage/TitleDetailPage.tsx:78-82 | Exactly the chapters whose lower-cased name contains the lower-cased search, or whose number's digits contain the search. |
| TitleDetailPage.EmptySearchKeepsAll | features/TitleDetailPage/TitleDetailPage.tsx:78-82 | An empty search keeps every chapter, in order. |
| TitleDetailPage.TotalPages | features/TitleDetailPage/TitleDetailPage.tsx:83 | `ceil(n / 5)`: enough pages for every match and no page beyond. |
| TitleDetailPage.SortedChapters | features/TitleDetailPage/TitleDetailPage.tsx:87-95 | A permutation of the filtered chapters, ordered by the chosen key in the chosen direction. |
| TitleDetailPage.Order | features/TitleDetailPage/TitleDetailPage.tsx:87-95 | The sort's comparator as "may come before": number or date, ascending or descending; `OrderIsPreorder` proves each is a total preorder. |
| TitleDetailPage.ShownChapters | features/TitleDetailPage/TitleDetailPage.tsx:96-99 | At most five chapters, consecutive in the sorted list from `(page-1)*5`. |
| TitleDetailPage.PageOf | features/TitleDetailPage/TitleDetailPage.tsx:96-99 | `slice((page-1)*5, page*5)` of any list: at most five entries, each the entry at `(page-1)*5` plus its row. |
| TitleDetailPage.ShownChaptersPassFilter | features/TitleDetailPage/TitleDetailPage.tsx:83-99 | Every chapter on a page is one of the title's chapters and passes the search filter. |
| TitleDetailPage.SortedLength | features/TitleDetailPage/TitleDetailPage.tsx:87-95 | Sorting keeps the number of filtered chapters, so `totalPages` also counts the sorted list. |
| TitleDetailPage.EveryMatchIsOnSomePage | features/TitleDetailPage/TitleDetailPage.tsx:83-99 | Sorted chapter `k` is row `k % 5` of page `k / 5 + 1`, which is within `totalPages`. |
| TitleDetailPage.ShownLength | features/TitleDetailPage/TitleDetailPage.tsx:96-99 | A page starting inside the list shows `min(5, n - start)` chapters. |
| TitleDetailPage.ShownDescription | features/TitleDetailPage/TitleDetailPage.tsx:192-195 | The first 180 characters plus "..." exactly when the text is longer than 180 and collapsed; otherwise the whole text. |
| TitleDetailPage.DetailPageState.constructor | features/TitleDetailPage/TitleDetailPage.tsx:71-86 | Empty search, page 1, ascending by number, description collapsed. |
| TitleDetailPage.DetailPageState.SetSearch | features/TitleDetailPage/TitleDetailPage.tsx:101-104 | The new search, with the page reset to 1. |
| TitleDetailPage.DetailPageState.PreviousPage | features/TitleDetailPage/TitleDetailPage.tsx:331 | `max(1, page - 1)`; sort key, direction and description flag kept. |
| TitleDetailPage.DetailPageState.NextPage | features/TitleDetailPage/TitleDetailPage.tsx:327-361 | `min(totalPages, page + 1)`, with the button present only when there are at least two pages; sort key, direction and description flag kept. |
| TitleDetailPage.DetailPageState.GoToPage | features/TitleDetailPage/TitleDetailPage.tsx:338-342 | A numbered button, 1 to `totalPages`, sets that page; sort key, direction and description flag kept. |
| TitleDetailPage.DetailPageState.SetSortBy | features/TitleDetailPage/TitleDetailPage.tsx:249 | Sets the key; direction, page, search text and description flag kept. |
| TitleDetailPage.DetailPageState.ToggleSortDir | features/TitleDetailPage/TitleDetailPage.tsx:257 | Flips the direction; key, page, search text and description flag kept. |
| TitleDetailPage.DetailPageState.ToggleDescription | features/TitleDetailPage/TitleDetailPage.tsx:200 | Flips the expanded flag; page, search text, sort key and direction kept. |
| TitleDetailDashboard.Remove | features/Dashboard/TitleDetailDashboard.tsx:64 | `splice(i, 1)`: one entry fewer, and the entries after `i` move down by one. |
| TitleDetailDashboard.InsertAt | features/Dashboard/TitleDetailDashboard.tsx:65 | `splice(i, 0, x)`: `x` at `i`, and the entries from `i` move up by one. |
| TitleDetailDashboard.Move | features/Dashboard/TitleDetailDashboard.tsx:62-66 | The two `splice` calls: the length is kept and the dragged entry lands at the entered index; `MoveIsPermutation`, `MoveForward` and `MoveBackward` give the rest. |
| TitleDetailDashboard.MoveIsPermutation | features/Dashboard/TitleDetailDashboard.tsx:58-70 | A move keeps the length and the multiset, puts the dragged entry at the target, and keeps the others in order. |
| TitleDetailDashboard.MoveBackUndoes | features/Dashboard/TitleDetailDashboard.tsx:58-70 | Dragging back from the target to the origin restores the order. |
| TitleDetailDashboard.MoveInPlace | features/Dashboard/TitleDetailDashboard.tsx:59-66 | The two splices done in place on the copied array give the move. |
| TitleDetailDashboard.VersionChapters | features/Dashboard/TitleDetailDashboard.tsx:41 | `find(...)?.chapters \|\| []`: empty when no version has the id. |
| TitleDetailDashboard.VersionChaptersIsFirstMatch | features/Dashboard/TitleDetailDashboard.tsx:41 | The first version with the id gives the chapters. |
| TitleDetailDashboard.Dashboard.constructor | features/Dashboard/TitleDetailDashboard.tsx:39-51 | The first version is active with its chapters; both drag refs are null. |
| TitleDetailDashboard.Dashboard.SwitchVersion | features/Dashboard/TitleDetailDashboard.tsx:39-47 | The clicked version becomes active. A different version resets the order to that version's chapters. Clicking the active version keeps the current, possibly reordered, order, because the effect depends on `activeVersion` alone. |
| TitleDetailDashboard.Dashboard.DragStart | features/Dashboard/TitleDetailDashboard.tsx:52-54 | Records the dragged index; the active version is kept. |
| TitleDetailDashboard.Dashboard.DragEnter | features/Dashboard/TitleDetailDashboard.tsx:55-57 | Records the entered index; the active version is kept. |
| TitleDetailDashboard.Dashboard.DragEnd | features/Dashboard/TitleDetailDashboard.tsx:58-70 | With both refs set and different, the order is the move; otherwise it is unchanged. The order keeps its multiset, and both refs are cleared. |
| Validation.UsernameIssues | utils/validation.ts:6-9 | No issue iff the name has 3 to 50 characters, all letters, digits, `_` or `-`. |
| Validation.UsernameSchemaPassesActionCheck | utils/validation.ts:6-9 | A name the schema accepts has no spaces to trim and passes the action's length check. |
| Validation.PaddedUsernameSplitsSchemaAndAction | utils/validation.ts:6-9 | " bob" passes the action's check but not the schema. |
| Validation.TitleFieldIssues | utils/validation.ts:12-22 | No issue iff every supplied field fits its bound and enum, and the cover URL is a URL or empty. A short or long title reports its own message; a cover URL that is not a URL reports `invalid_string`. |
| Validation.TitleIssues | utils/validation.ts:12-22 | The title is required; otherwise as the field checks. |
| Validation.TitleUpdateIssues | utils/validation.ts:24 | `.partial()`: as the field checks, with nothing required. |
| Validation.TitleUpdateIsWeaker | utils/validation.ts:12-24 | Whatever the create schema accepts, the update schema accepts, and it accepts the empty object too. |
| Validation.TitleSchemaVsAction | utils/validation.ts:12-22 | A trimmed title the schema accepts passes the create action's checks. |
| Validation.ChapterIssues | utils/validation.ts:27-33 | No issue iff the version id and number are positive integers and any title has at most 255 characters. |
| Validation.ChapterUpdateParse | utils/validation.ts:35 | `.partial().omit({titleVersionId})`: the parsed object drops the version id. |
| Validation.ChapterSchemaPassesActionCheck | utils/validation.ts:27-35 | A chapter the schema accepts passes the create action's checks and the update schema. |
| Validation.PaginationParse | utils/validation.ts:74-77 | Defaults 1 and 10; the page must be positive and the limit 1 to 100. |
| Validation.SearchIssues | utils/validation.ts:79-81 | No issue iff the query has at least 2 characters, untrimmed. |
| Validation.SearchActionImpliesSchema | utils/validation.ts:79-81 | A query the search action accepts passes the schema, but " a" passes the schema and not the action. |
| Validation.GenreIssues | utils/validation.ts:57-64 | No issue iff the name has 1 to 50 characters and any description at most 500. |
| Validation.PageIssues | utils/validation.ts:67-71 | No issue iff the ids are positive and the image URL is a URL or empty. A non-positive id reports its own message; a bad image URL reports "Invalid image URL". |
| Validation.ProfileFieldIssues | utils/validation.ts:38-50 | No issue iff the username (required or not), display name, bio, avatar URL and role pass. A long display name or bio reports its own message; an avatar URL that is not a URL reports `invalid_string`. |
| Validation.ProfileIssues | utils/validation.ts:38-50 | A UUID id and a username are required; otherwise as the field checks. |
| Validation.ProfileUpdateParse | utils/validation.ts:52-54 | `.partial().omit({id})`: optional fields; the parsed object drops the id. |
| Validation.SignInIssues | utils/validation.ts:84-87 | No issue iff the email is valid and the password non-empty. |
| Validation.SignUpIssues | utils/validation.ts:89-96 | No issue iff the email is valid, the password has at least 8 characters and the confirmation matches. A mismatch is the last issue, on `confirmPassword`. |
| Validation.FormatValidationErrors | utils/validation.ts:148-157 | The loop over the issues builds the fold `Formatted`. |
| Validation.FormattedKeys | utils/validation.ts:148-157 | A key is present iff some issue has that dotted path. |
| Validation.LastIssueWins | utils/validation.ts:148-157 | The message under a key is that of the last issue with that path. |
| SignUp.PasswordStrength | app/auth/sign-up/page.tsx:53-64 | Strong iff the password has at least 8 characters and all three classes; Medium iff it has at least 8 and exactly two; Weak iff non-empty and otherwise; empty iff empty. |
| SignUp.PasswordIssues | app/auth/sign-up/page.tsx:18-23 | No issue iff the password has at least 8 characters, an upper-case letter, a digit and a special character. |
| SignUp.PasswordAcceptedIffStrong | app/auth/sign-up/page.tsx:18-64 | The schema accepts the password iff the meter shows Strong. |
| SignUp.SignUpFormIssues | app/auth/sign-up/page.tsx:16-28 | No issue iff the email is valid, the password rules hold, and the confirmation is non-empty and matches. |
| SignUp.MismatchIsReportedOnConfirm | app/auth/sign-up/page.tsx:25-28 | With otherwise valid fields, a mismatch is exactly one issue, on `confirmPassword`. |
| SignUp.FormIsStricterThanSharedSchema | app/auth/sign-up/page.tsx:16-28 | Whatever the form accepts, the shared `signUpSchema` accepts too. |
| SignUp.LongLowercaseIsWeak | app/auth/sign-up/page.tsx:53-64 | A concrete case that length alone is not enough: "abcdefgh" meets the length rule and is still Weak. |
| Carousel.NextIndex | components/Carousel/Carousel.tsx:11 | `(prev + 1) % total`: the next slide, wrapping to 0; NaN when there are no slides. |
| Carousel.PrevIndex | components/Carousel/Carousel.tsx:12 | `(prev - 1 + total) % total`: the previous slide, wrapping to the last; NaN when there are no slides. |
| Carousel.NextPrevInverse | components/Carousel/Carousel.tsx:11-12 | Next and previous undo each other and stay in range. |
| Carousel.FullTurn | components/Carousel/Carousel.tsx:11 | `k` presses of next move `k` slides modulo the total; `total` presses return to the start. |
| Carousel.CarouselState.constructor | components/Carousel/Carousel.tsx:8-9 | Slide 0 of `children.length`. |
| Carousel.CarouselState.Next | components/Carousel/Carousel.tsx:11 | The next index, and in range when it was. |
| Carousel.CarouselState.Prev | components/Carousel/Carousel.tsx:12 | The previous index, and in range when it was. |
| LoadingStore.Store.constructor | lib/useLoading.ts:14-16 | Not loading; progress 0. |
| LoadingStore.Store.StartLoading | lib/useLoading.ts:17 | Loading, with progress 0. |
| LoadingStore.Store.SetProgress | lib/useLoading.ts:18 | The progress only. |
| LoadingStore.Store.CompleteLoading | lib/useLoading.ts:19 | Progress 100; `isLoading` untouched. |
| LoadingStore.Store.ResetLoading | lib/useLoading.ts:20 | Back to the initial state. |
| Cn.Names | utils/cn.ts:3-5 | `filter(Boolean)`: only non-empty strings, never more than the arguments. |
| Cn.Cn | utils/cn.ts:3-5 | `classes.filter(Boolean).join(' ')`. It has no contract of its own; `CnEmptyIffNoTruthy`, `CnAppend` and `CnSingle` state its properties. |
| Cn.CnEmptyIffNoTruthy | utils/cn.ts:3-5 | The class string is empty iff no argument is truthy. |
| Cn.CnAppend | utils/cn.ts:3-5 | `cn(a..., b...)` is `cn(a...)` and `cn(b...)` joined by a space, leaving out the empty one. |
| Cn.CnSingle | utils/cn.ts:3-5 | One truthy string is itself; a falsy argument gives "". |
| PublicRoutes.PublicList | constants/publicRoutes.ts:4-12 | Seven entries beginning with `/`. |
| PublicRoutes.IsPublicRoute | constants/publicRoutes.ts:37-39 | `includes`: exact membership in the public list, so an `undefined` entry matches nothing (`PublicIsExactMembership`). |
| PublicRoutes.IsAlwaysPublicRoute | constants/publicRoutes.ts:42-44 | Exact membership in the always-public list; every such route is public (`AlwaysPublicIsPublic`). |
| PublicRoutes.IsProtectedRoute | constants/publicRoutes.ts:47-49 | Exact membership in the protected list, which is empty, so it never holds (`NothingIsProtected`). |
| PublicRoutes.RequiresAuthentication | constants/publicRoutes.ts:52-54 | Exact membership in the authenticated-only list, which is empty, so it never holds (`NothingIsProtected`). |
| PublicRoutes.AlwaysPublicList | constants/publicRoutes.ts:15-22 | Six entries beginning with `/`. |
| PublicRoutes.AlwaysPublicIsPublic | constants/publicRoutes.ts:4-44 | Every always-public route is public. |
| PublicRoutes.TitlesIsPublicOnly | constants/publicRoutes.ts:4-44 | `/titles` is public but not always public. |
| PublicRoutes.PublicIsExactMembership | constants/publicRoutes.ts:37-39 | `includes` is exact: `/titles/1` and "" are not public, `/titles` is. |
| PublicRoutes.NothingIsProtected | constants/publicRoutes.ts:25-54 | No route is protected or authenticated-only, as both lists are empty. |
| PublicRoutes.Middleware | middleware.ts:7-19 | A redirect to the sign-in route iff there is no session and no public route prefixes the path; with a session, pass through. |
| PublicRoutes.IsPublicPath | middleware.ts:12 | Some public entry is a prefix of the path, `startsWith(undefined)` looking for the text "undefined"; "/" makes it hold of every path starting with "/" (`RootMakesEverythingPublic`). |
| PublicRoutes.RootMakesEverythingPublic | middleware.ts:12-16 | Since `/` is public and every path starts with `/`, the middleware never redirects. |
| PublicRoutes.PublicRouteIsPublicPath | middleware.ts:12 | A public route counts as a public path. |

## Left out

- Network and database I/O are not modelled. Each Supabase call is replaced by the table it reads and an optional client error (`fault`).
- Asynchrony, React rendering, effect scheduling and `Promise.all` are not modelled. Each hook step runs to completion on the envelope it is given.
- `revalidatePath` and `console.error` are left out, because they change no state the model holds.
- The joins `findWithGenres`, `findWithTitleCount` and `getTitlesWithGenres` are left out, along with the nested title payload of `findLatest`. Mock data is used instead of a schema of the joined tables.
- PostgREST error codes, `ilike` wildcard characters in the query, and Unicode case folding are not modelled. Case-insensitive matching lower-cases ASCII letters only.
- String lengths count Unicode scalar values, not the UTF-16 code units JavaScript's `.length` counts. A character outside the Basic Multilingual Plane, such as an emoji, counts 1 here and 2 in the source. This applies to every length bound of the actions, of the zod schemas and of the page (3, 50, 100, 255, 500, 1000, 180).
- Email, URL and UUID validity are predicate parameters, not zod's own definitions.
- Zod's default messages are replaced by zod's issue codes (`too_small`, `invalid_type`, …).
- The model always runs the sign-up refinement after the field checks, as zod 3 does when the fields are strings.
- Floating point is not modelled. Chapter numbers, progress and the pagination arguments are integers, and timestamps are opaque integers compared as numbers. Parsing date strings for the page's date sort is not modelled.
- Update patches cannot set a column to null: an absent field keeps the column's value.
- The client returning null data without an error is not modelled.
- TitlesRepository.FindByStatus, TitlesRepository.FindPaginated, TitlesRepository.Search and TitlesRepository.FindByCreator: the source queries `this.supabase`, which `BaseRepository` never defines, so as written each call throws a TypeError and the calling action returns its generic failure. The model assumes `this.supabase` is the client `getSupabase()` returns.
- ChaptersRepository.FindByTitleVersion, ChaptersRepository.FindWithPages, ChaptersRepository.FindNext, ChaptersRepository.FindPrevious and ChaptersRepository.FindLatest: under the same assumption about `this.supabase`.
- GenresRepository.FindByName and GenresRepository.Search: under the same assumption about `this.supabase`.
- No unique constraint of the database is modelled beyond the primary keys. Two profiles may share a username that differs only in case, and two chapters of a version may share a chapter number. Whether the database rejects these depends on constraints the source does not show.
- TitlesRepository.FindPaginated: requires `page >= 1` and `limit >= 1`, which the only caller ensures. The repository on its own would pass a negative range to PostgREST.
- ChaptersRepository.FindLatest: takes `limit: nat`, because the action rejects anything outside 1 to 50 first.
- TitleDetailPage.SortedChapters: does not state that chapters with equal keys keep their filtered order, the stability `Array.prototype.sort` guarantees; it states the order and the permutation only.
- TitleDetailPage.DetailPageState.NextPage: requires at least two pages, since the button is rendered only then.
- TitleDetailPage.DetailPageState.GoToPage: requires a page between 1 and `totalPages`, since those are the only buttons.
- TitleDetailDashboard.Dashboard.DragEnd: requires both refs to be in range, because they are indices of rendered rows.
- The dashboard's mock title versions are a constructor argument. The mock title, comments and router are left out.
- UseChapters.ChapterNavigation.FetchNavigation: leaves out the `catch` branch, which only runs when an awaited action throws; the actions catch their own errors.
- The middleware's session lookup is the parameter `hasSession`. The redirect target `ROUTES.SIGN_IN` is a parameter because its definition is not part of this model.
- The JSX markup, styling, animation, navigation links, images and the remaining pages (home, about, titles list, dashboards other than the title dashboard) are not part of this model.

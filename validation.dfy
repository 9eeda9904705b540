/** The zod schemas of the validation utilities, as the list of issues each
    one reports for an input (empty exactly when `safeParse` succeeds), and the
    formatter that turns the issues into a path-to-message record. Checks with
    a custom message carry that message; checks left at zod's default wording
    carry zod's issue code instead (`too_small`, `too_big`, `invalid_type`,
    `invalid_enum_value`, `invalid_string`). A URL field written as
    `url().optional().or(literal(''))` reports, for a non-empty string that is
    not a URL, the issue of its first option: the URL check's. The email, URL
    and UUID tests of the library are parameters. Every check of an object
    runs and reports, in the order the fields are declared. */
module Validation {
  import opened Wrappers
  import opened Text
  import UsersActions
  import TitlesActions
  import ChaptersActions
  import Entities

  datatype Issue = Issue(path: seq<string>, message: string)

  /** What `safeParse` returns: the parsed value, or the issues. */
  datatype ParseResult<T> = Success(data: T) | Failure(issues: seq<Issue>)

  /** One check: no issue when `ok`, else one issue at `path`. */
  function Check(ok: bool, path: seq<string>, message: string): (r: seq<Issue>)
    ensures r == [] <==> ok
    ensures !ok ==> r == [Issue(path, message)]
  {
    if ok then [] else [Issue(path, message)]
  }

  /** A check on an optional field: nothing to check when it is absent. */
  function CheckOptional<T>(x: Option<T>, ok: T -> bool, path: seq<string>, message: string): (r: seq<Issue>)
    ensures r == [] <==> x.None? || ok(x.value)
  {
    if x.Some? then Check(ok(x.value), path, message) else []
  }

  // ---------------------------------------------------------------- usernames

  /** The characters `/^[a-zA-Z0-9_-]+$/` admits. */
  predicate IsUsernameChar(c: char) {
    IsUpper(c) || IsLower(c) || IsDigit(c) || c == '_' || c == '-'
  }

  /** `usernameSchema`: its three checks, each reporting on its own. */
  function UsernameIssues(path: seq<string>, s: string): (r: seq<Issue>)
    ensures r == [] <==> 3 <= |s| <= 50 && forall i :: 0 <= i < |s| ==> IsUsernameChar(s[i])
    ensures |s| < 3 ==> Issue(path, "Username must be at least 3 characters") in r
    ensures |s| > 50 ==> Issue(path, "Username must be less than 50 characters") in r
  {
    Check(|s| >= 3, path, "Username must be at least 3 characters")
    + Check(|s| <= 50, path, "Username must be less than 50 characters")
    + Check(s != [] && forall i :: 0 <= i < |s| ==> IsUsernameChar(s[i]), path,
            "Username can only contain letters, numbers, underscores, and hyphens")
  }

  /** A username the schema accepts has no white space to trim, so the
      server action's own username test accepts it too. */
  lemma UsernameSchemaPassesActionCheck(s: string)
    requires UsernameIssues([], s) == []
    ensures Trim(s) == s
    ensures UsersActions.UsernameError(s).None?
  {
    assert !IsWhitespace(s[0]) && !IsWhitespace(s[|s| - 1]) by {
      assert IsUsernameChar(s[0]) && IsUsernameChar(s[|s| - 1]);
    }
    TrimOfTrimmed(s);
  }

  /** The action test trims and the schema does not: a padded name the
      action accepts is refused by the schema. */
  lemma PaddedUsernameSplitsSchemaAndAction()
    ensures UsersActions.UsernameError(" bob").None?
    ensures UsernameIssues([], " bob") != []
  {
    assert LeadingSpaces(" bob") == 1 by {
      assert " bob"[1..] == "bob";
    }
    assert TrailingSpaces(" bob") == 0;
    assert Trim(" bob") == "bob";
    assert !IsUsernameChar(" bob"[0]);
  }

  // ---------------------------------------------------------------- titles

  const TitleStatuses: seq<string> := ["ongoing", "completed", "hiatus"]

  /** The fields of `titleSchema`; `title` may be missing in an update. */
  datatype TitleForm = TitleForm(
    title: Option<string>,
    description: Option<string>,
    status: Option<string>,
    coverUrl: Option<string>,
    originalLanguage: Option<string>)

  /** `z.string().url().optional().or(z.literal(''))`. */
  predicate CoverUrlOk(u: Option<string>, isUrl: string -> bool) {
    u.None? || u.value == [] || isUrl(u.value)
  }

  /** The checks on every field except whether `title` is present. */
  function TitleFieldIssues(f: TitleForm, isUrl: string -> bool): (r: seq<Issue>)
    ensures r == [] <==>
      (f.title.None? || 3 <= |f.title.value| <= 255) &&
      (f.description.None? || |f.description.value| <= 1000) &&
      (f.status.None? || f.status.value in TitleStatuses) &&
      CoverUrlOk(f.coverUrl, isUrl) &&
      (f.originalLanguage.None? || |f.originalLanguage.value| <= 10)
    ensures f.title.Some? && |f.title.value| < 3 ==> Issue(["title"], "Title must be at least 3 characters") in r
    ensures f.title.Some? && |f.title.value| > 255 ==> Issue(["title"], "Title must be less than 255 characters") in r
    ensures !CoverUrlOk(f.coverUrl, isUrl) ==> Issue(["cover_url"], "invalid_string") in r
  {
    CheckOptional(f.title, (t: string) => |t| >= 3, ["title"], "Title must be at least 3 characters")
    + CheckOptional(f.title, (t: string) => |t| <= 255, ["title"], "Title must be less than 255 characters")
    + CheckOptional(f.description, (d: string) => |d| <= 1000, ["description"],
                    "Description must be less than 1000 characters")
    + CheckOptional(f.status, (st: string) => st in TitleStatuses, ["status"], "invalid_enum_value")
    + Check(CoverUrlOk(f.coverUrl, isUrl), ["cover_url"], "invalid_string")
    + CheckOptional(f.originalLanguage, (l: string) => |l| <= 10, ["original_language"], "too_big")
  }

  /** `titleSchema`: the title is required and measured untrimmed. */
  function TitleIssues(f: TitleForm, isUrl: string -> bool): (r: seq<Issue>)
    ensures r == [] <==> f.title.Some? && TitleFieldIssues(f, isUrl) == []
    ensures f.title.None? ==> Issue(["title"], "invalid_type") in r
  {
    Check(f.title.Some?, ["title"], "invalid_type") + TitleFieldIssues(f, isUrl)
  }

  /** `titleUpdateSchema = titleSchema.partial()`: every field optional. */
  function TitleUpdateIssues(f: TitleForm, isUrl: string -> bool): (r: seq<Issue>)
    ensures r == [] <==> TitleFieldIssues(f, isUrl) == []
  {
    TitleFieldIssues(f, isUrl)
  }

  /** What the full schema accepts the partial one accepts, and the empty
      update is always accepted. */
  lemma TitleUpdateIsWeaker(f: TitleForm, isUrl: string -> bool)
    ensures TitleIssues(f, isUrl) == [] ==> TitleUpdateIssues(f, isUrl) == []
    ensures TitleUpdateIssues(TitleForm(None, None, None, None, None), isUrl) == []
  {
  }

  /** The schema measures the title as typed, the action after trimming: a
      title the schema accepts with no space at either end passes the
      action's title test. */
  lemma TitleSchemaVsAction(f: TitleForm, isUrl: string -> bool, data: Entities.Title)
    requires TitleIssues(f, isUrl) == []
    requires data.title == f.title.value && data.description == f.description
    requires Trim(data.title) == data.title
    ensures TitlesActions.CreateTitleError(data).None?
  {
  }

  // ---------------------------------------------------------------- chapters

  datatype ChapterForm = ChapterForm(titleVersionId: Option<int>, chapterNumber: Option<int>, title: Option<string>)

  /** `chapterSchema`: both numbers required and positive, the title optional. */
  function ChapterIssues(f: ChapterForm): (r: seq<Issue>)
    ensures r == [] <==>
      f.titleVersionId.Some? && f.titleVersionId.value > 0 &&
      f.chapterNumber.Some? && f.chapterNumber.value > 0 &&
      (f.title.None? || |f.title.value| <= 255)
  {
    (if f.titleVersionId.None? then [Issue(["title_version_id"], "invalid_type")]
     else Check(f.titleVersionId.value > 0, ["title_version_id"], "Invalid title version ID"))
    + (if f.chapterNumber.None? then [Issue(["chapter_number"], "invalid_type")]
       else Check(f.chapterNumber.value > 0, ["chapter_number"], "Chapter number must be greater than 0"))
    + CheckOptional(f.title, (t: string) => |t| <= 255, ["title"], "Chapter title must be less than 255 characters")
  }

  /** `chapterSchema.partial().omit({ title_version_id: true })`: the version
      id is not a field any more, so whatever is given there is dropped. */
  function ChapterUpdateParse(f: ChapterForm): (r: ParseResult<ChapterForm>)
    ensures r.Success? <==>
      (f.chapterNumber.None? || f.chapterNumber.value > 0) && (f.title.None? || |f.title.value| <= 255)
    ensures r.Success? ==> r.data == f.(titleVersionId := None)
  {
    var issues :=
      CheckOptional(f.chapterNumber, (n: int) => n > 0, ["chapter_number"], "Chapter number must be greater than 0")
      + CheckOptional(f.title, (t: string) => |t| <= 255, ["title"], "Chapter title must be less than 255 characters");
    if issues == [] then Success(f.(titleVersionId := None)) else Failure(issues)
  }

  /** A chapter the schema accepts also passes `createChapter`'s checks,
      which measure the title after trimming, and its update schema. */
  lemma ChapterSchemaPassesActionCheck(f: ChapterForm)
    requires ChapterIssues(f) == []
    ensures ChaptersActions.CreateChapterError(
      Entities.Chapter(f.titleVersionId.value, f.chapterNumber.value, f.title, None, None)).None?
    ensures ChapterUpdateParse(f).Success?
  {
  }

  // ---------------------------------------------------------------- pagination and search

  datatype Pagination = Pagination(page: int, limit: int)

  /** `paginationSchema`: a missing page is 1 and a missing limit 10; a
      given page must be positive, a given limit positive and at most 100. */
  function PaginationParse(page: Option<int>, limit: Option<int>): (r: ParseResult<Pagination>)
    ensures r.Success? <==> page.GetOr(1) > 0 && 0 < limit.GetOr(10) <= 100
    ensures r.Success? ==> r.data == Pagination(page.GetOr(1), limit.GetOr(10))
    ensures r.Failure? ==> r.issues != []
  {
    var p := page.GetOr(1);
    var l := limit.GetOr(10);
    var issues := Check(p > 0, ["page"], "too_small") + Check(l > 0, ["limit"], "too_small")
      + Check(l <= 100, ["limit"], "too_big");
    if issues == [] then Success(Pagination(p, l)) else Failure(issues)
  }

  /** `searchSchema`: at least 2 characters, counted untrimmed. */
  function SearchIssues(query: string): (r: seq<Issue>)
    ensures r == [] <==> |query| >= 2
  {
    Check(|query| >= 2, ["query"], "Search query must be at least 2 characters")
  }

  /** Every query `searchTitles` accepts the schema accepts; the converse
      fails on padding. */
  lemma SearchActionImpliesSchema(rows: seq<Entities.Row<Entities.Title>>, query: string)
    ensures TitlesActions.SearchTitles(rows, query, None).success ==> SearchIssues(query) == []
    ensures SearchIssues(" a") == [] && !TitlesActions.SearchTitles(rows, " a", None).success
  {
    assert LeadingSpaces(" a") == 1 by {
      assert " a"[1..] == "a";
    }
    assert Trim(" a") == "a";
  }

  // ---------------------------------------------------------------- the other schemas

  /** `genreSchema`. */
  function GenreIssues(name: Option<string>, description: Option<string>): (r: seq<Issue>)
    ensures r == [] <==>
      name.Some? && 1 <= |name.value| <= 50 && (description.None? || |description.value| <= 500)
  {
    (if name.None? then [Issue(["name"], "invalid_type")]
     else Check(|name.value| >= 1, ["name"], "Genre name is required")
          + Check(|name.value| <= 50, ["name"], "Genre name must be less than 50 characters"))
    + CheckOptional(description, (d: string) => |d| <= 500, ["description"],
                    "Genre description must be less than 500 characters")
  }

  /** `pageSchema`. */
  function PageIssues(chapterId: Option<int>, pageNumber: Option<int>, imageUrl: Option<string>,
                      isUrl: string -> bool): (r: seq<Issue>)
    ensures r == [] <==>
      chapterId.Some? && chapterId.value > 0 && pageNumber.Some? && pageNumber.value > 0 &&
      CoverUrlOk(imageUrl, isUrl)
    ensures chapterId.Some? && chapterId.value <= 0 ==> Issue(["chapter_id"], "Invalid chapter ID") in r
    ensures pageNumber.Some? && pageNumber.value <= 0 ==> Issue(["page_number"], "Page number must be greater than 0") in r
    ensures !CoverUrlOk(imageUrl, isUrl) ==> Issue(["image_url"], "Invalid image URL") in r
  {
    (if chapterId.None? then [Issue(["chapter_id"], "invalid_type")]
     else Check(chapterId.value > 0, ["chapter_id"], "Invalid chapter ID"))
    + (if pageNumber.None? then [Issue(["page_number"], "invalid_type")]
       else Check(pageNumber.value > 0, ["page_number"], "Page number must be greater than 0"))
    + Check(CoverUrlOk(imageUrl, isUrl), ["image_url"], "Invalid image URL")
  }

  const Roles: seq<string> := ["reader", "author", "translator", "admin"]

  datatype ProfileForm = ProfileForm(
    id: Option<string>,
    username: Option<string>,
    displayName: Option<string>,
    bio: Option<string>,
    avatarUrl: Option<string>,
    role: Option<string>)

  /** The checks of `userProfileSchema` on everything but `id`. */
  function ProfileFieldIssues(f: ProfileForm, isUrl: string -> bool, required: bool): (r: seq<Issue>)
    ensures r == [] <==>
      (if f.username.None? then !required else UsernameIssues(["username"], f.username.value) == []) &&
      (f.displayName.None? || |f.displayName.value| <= 100) &&
      (f.bio.None? || |f.bio.value| <= 500) &&
      CoverUrlOk(f.avatarUrl, isUrl) &&
      (f.role.None? || f.role.value in Roles)
    ensures f.displayName.Some? && |f.displayName.value| > 100 ==>
      Issue(["display_name"], "Display name must be less than 100 characters") in r
    ensures f.bio.Some? && |f.bio.value| > 500 ==> Issue(["bio"], "Bio must be less than 500 characters") in r
    ensures !CoverUrlOk(f.avatarUrl, isUrl) ==> Issue(["avatar_url"], "invalid_string") in r
  {
    (if f.username.None? then Check(!required, ["username"], "invalid_type")
     else UsernameIssues(["username"], f.username.value))
    + CheckOptional(f.displayName, (d: string) => |d| <= 100, ["display_name"],
                    "Display name must be less than 100 characters")
    + CheckOptional(f.bio, (b: string) => |b| <= 500, ["bio"], "Bio must be less than 500 characters")
    + Check(CoverUrlOk(f.avatarUrl, isUrl), ["avatar_url"], "invalid_string")
    + CheckOptional(f.role, (x: string) => x in Roles, ["role"], "invalid_enum_value")
  }

  /** `userProfileSchema`: a UUID id and a schema-valid username are required. */
  function ProfileIssues(f: ProfileForm, isUuid: string -> bool, isUrl: string -> bool): (r: seq<Issue>)
    ensures r == [] <==> f.id.Some? && isUuid(f.id.value) && ProfileFieldIssues(f, isUrl, true) == []
  {
    (if f.id.None? then [Issue(["id"], "invalid_type")] else Check(isUuid(f.id.value), ["id"], "Invalid user ID"))
    + ProfileFieldIssues(f, isUrl, true)
  }

  /** `userProfileUpdateSchema`: everything optional and `id` dropped. */
  function ProfileUpdateParse(f: ProfileForm, isUrl: string -> bool): (r: ParseResult<ProfileForm>)
    ensures r.Success? <==> ProfileFieldIssues(f, isUrl, false) == []
    ensures r.Success? ==> r.data == f.(id := None)
  {
    var issues := ProfileFieldIssues(f, isUrl, false);
    if issues == [] then Success(f.(id := None)) else Failure(issues)
  }

  /** `signInSchema`. */
  function SignInIssues(email: string, password: string, isEmail: string -> bool): (r: seq<Issue>)
    ensures r == [] <==> isEmail(email) && password != []
  {
    Check(isEmail(email), ["email"], "Invalid email address")
    + Check(|password| >= 1, ["password"], "Password is required")
  }

  /** `signUpSchema`: the field checks, then the refinement comparing the
      two passwords, reported on `confirmPassword`. */
  function SignUpIssues(email: string, password: string, confirmPassword: string, isEmail: string -> bool)
    : (r: seq<Issue>)
    ensures r == [] <==> isEmail(email) && |password| >= 8 && password == confirmPassword
    ensures password != confirmPassword ==> r[|r| - 1] == Issue(["confirmPassword"], "Passwords do not match")
  {
    Check(isEmail(email), ["email"], "Invalid email address")
    + Check(|password| >= 8, ["password"], "Password must be at least 8 characters")
    + Check(|confirmPassword| >= 1, ["confirmPassword"], "Please confirm your password")
    + Check(password == confirmPassword, ["confirmPassword"], "Passwords do not match")
  }

  // ---------------------------------------------------------------- formatting

  /** `error.path.join('.')`. */
  function PathKey(issue: Issue): string {
    Join(issue.path, ".")
  }

  /** The record `formatValidationErrors` builds: each issue in turn writes
      its message under its key, so a later issue overwrites an earlier one. */
  function Formatted(issues: seq<Issue>): (m: map<string, string>)
  {
    if issues == [] then map[]
    else Formatted(issues[..|issues| - 1])[PathKey(issues[|issues| - 1]) := issues[|issues| - 1].message]
  }

  /** `formatValidationErrors`: the `forEach` over the issues. */
  method FormatValidationErrors(issues: seq<Issue>) returns (formatted: map<string, string>)
    ensures formatted == Formatted(issues)
  {
    formatted := map[];
    var i := 0;
    while i < |issues|
      invariant 0 <= i <= |issues|
      invariant formatted == Formatted(issues[..i])
    {
      assert issues[..i + 1][..i] == issues[..i];
      formatted := formatted[PathKey(issues[i]) := issues[i].message];
      i := i + 1;
    }
    assert issues[..i] == issues;
  }

  /** The keys are exactly the keys of the issues. */
  lemma {:induction false} FormattedKeys(issues: seq<Issue>, k: string)
    ensures k in Formatted(issues) <==> exists i :: 0 <= i < |issues| && PathKey(issues[i]) == k
  {
    if issues != [] {
      var init := issues[..|issues| - 1];
      FormattedKeys(init, k);
      if exists i :: 0 <= i < |init| && PathKey(init[i]) == k {
        var i :| 0 <= i < |init| && PathKey(init[i]) == k;
        assert issues[i] == init[i];
      }
      if exists i :: 0 <= i < |issues| && PathKey(issues[i]) == k {
        var i :| 0 <= i < |issues| && PathKey(issues[i]) == k;
        if i < |init| {
          assert init[i] == issues[i];
        }
      }
    }
  }

  /** The last issue with a given key decides its message. */
  lemma {:induction false} LastIssueWins(issues: seq<Issue>, j: int)
    requires 0 <= j < |issues|
    requires forall i :: j < i < |issues| ==> PathKey(issues[i]) != PathKey(issues[j])
    ensures PathKey(issues[j]) in Formatted(issues)
    ensures Formatted(issues)[PathKey(issues[j])] == issues[j].message
  {
    if j < |issues| - 1 {
      var init := issues[..|issues| - 1];
      assert init[j] == issues[j];
      forall i | j < i < |init|
        ensures PathKey(init[i]) != PathKey(init[j])
      {
        assert init[i] == issues[i];
      }
      LastIssueWins(init, j);
    }
  }
}

/** The records of the database tables and the partial records the update
    operations take. A stored row of an integer-keyed table is a `Row`: the
    generated `id` and the remaining fields (`T` and `Omit<T, 'id'>`).
    Timestamps are opaque integers; an absent timestamp is SQL NULL. */
module Entities {
  import opened Wrappers
  import opened Seqs
  import opened Text

  type Timestamp = int

  datatype Status = Ongoing | Completed | Hiatus

  datatype Role = Reader | Author | Translator | Admin

  datatype Row<T> = Row(id: int, item: T)

  datatype Title = Title(
    title: string,
    description: Option<string>,
    coverUrl: Option<string>,
    status: Option<Status>,
    originalLanguage: Option<string>,
    createdBy: Option<string>,
    createdAt: Option<Timestamp>,
    updatedAt: Option<Timestamp>)

  datatype Chapter = Chapter(
    titleVersionId: int,
    chapterNumber: int,
    title: Option<string>,
    createdAt: Option<Timestamp>,
    updatedAt: Option<Timestamp>)

  datatype Page = Page(chapterId: int, pageNumber: int, imageUrl: Option<string>)

  datatype Genre = Genre(name: string, description: Option<string>)

  datatype UserProfile = UserProfile(
    id: string,
    username: string,
    displayName: Option<string>,
    avatarUrl: Option<string>,
    bio: Option<string>,
    role: Role,
    isActive: Option<bool>,
    joinedAt: Option<Timestamp>)

  /** The fields of an update: `None` is a field the caller left undefined,
      which the JSON body of the request omits, so the column keeps its value. */
  datatype TitlePatch = TitlePatch(
    title: Option<string>,
    description: Option<string>,
    coverUrl: Option<string>,
    status: Option<Status>,
    originalLanguage: Option<string>,
    createdBy: Option<string>,
    updatedAt: Option<Timestamp>)

  datatype ChapterPatch = ChapterPatch(
    titleVersionId: Option<int>,
    chapterNumber: Option<int>,
    title: Option<string>,
    updatedAt: Option<Timestamp>)

  datatype ProfilePatch = ProfilePatch(
    username: Option<string>,
    displayName: Option<string>,
    avatarUrl: Option<string>,
    bio: Option<string>,
    role: Option<Role>,
    isActive: Option<bool>)

  const NoTitleChange := TitlePatch(None, None, None, None, None, None, None)
  const NoChapterChange := ChapterPatch(None, None, None, None)
  const NoProfileChange := ProfilePatch(None, None, None, None, None, None)

  /** The column after an update that may name it. */
  function Override<T>(given: Option<T>, current: T): T {
    given.GetOr(current)
  }

  /** A nullable column after an update that may name it. */
  function OverrideNullable<T>(given: Option<T>, current: Option<T>): Option<T> {
    if given.Some? then given else current
  }

  function ApplyTitlePatch(p: TitlePatch, t: Title): Title {
    Title(Override(p.title, t.title),
          OverrideNullable(p.description, t.description),
          OverrideNullable(p.coverUrl, t.coverUrl),
          OverrideNullable(p.status, t.status),
          OverrideNullable(p.originalLanguage, t.originalLanguage),
          OverrideNullable(p.createdBy, t.createdBy),
          t.createdAt,
          OverrideNullable(p.updatedAt, t.updatedAt))
  }

  function ApplyChapterPatch(p: ChapterPatch, c: Chapter): Chapter {
    Chapter(Override(p.titleVersionId, c.titleVersionId),
            Override(p.chapterNumber, c.chapterNumber),
            OverrideNullable(p.title, c.title),
            c.createdAt,
            OverrideNullable(p.updatedAt, c.updatedAt))
  }

  function ApplyProfilePatch(p: ProfilePatch, u: UserProfile): UserProfile {
    UserProfile(u.id,
                Override(p.username, u.username),
                OverrideNullable(p.displayName, u.displayName),
                OverrideNullable(p.avatarUrl, u.avatarUrl),
                OverrideNullable(p.bio, u.bio),
                Override(p.role, u.role),
                OverrideNullable(p.isActive, u.isActive),
                u.joinedAt)
  }

  /** An update that names no field leaves the row as it was: `updateTitle(id, {})`
      changes nothing but the `updated_at` the action adds. */
  lemma EmptyPatchesChangeNothing(t: Title, c: Chapter, u: UserProfile)
    ensures ApplyTitlePatch(NoTitleChange, t) == t
    ensures ApplyChapterPatch(NoChapterChange, c) == c
    ensures ApplyProfilePatch(NoProfileChange, u) == u
  {
  }

  /** The order of a nullable timestamp column: SQL NULL sorts after every value. */
  predicate TimestampLe(a: Option<Timestamp>, b: Option<Timestamp>) {
    b.None? || (a.Some? && a.value <= b.value)
  }

  /** `.order('created_at', { ascending: false })` on titles: newest first, NULL first. */
  predicate TitleNewestFirst(a: Row<Title>, b: Row<Title>) {
    TimestampLe(b.item.createdAt, a.item.createdAt)
  }

  /** `.order('created_at', { ascending: false })` on chapters. */
  predicate ChapterNewestFirst(a: Row<Chapter>, b: Row<Chapter>) {
    TimestampLe(b.item.createdAt, a.item.createdAt)
  }

  /** `.order('chapter_number', { ascending: true })`. */
  predicate ChapterNumberAscending(a: Row<Chapter>, b: Row<Chapter>) {
    a.item.chapterNumber <= b.item.chapterNumber
  }

  /** `.order('chapter_number', { ascending: false })`. */
  predicate ChapterNumberDescending(a: Row<Chapter>, b: Row<Chapter>) {
    b.item.chapterNumber <= a.item.chapterNumber
  }

  /** `.order('joined_at', { ascending: false })`. */
  predicate UserNewestFirst(a: UserProfile, b: UserProfile) {
    TimestampLe(b.joinedAt, a.joinedAt)
  }

  /** `.order('name', { ascending: true })` on genres, under the database's
      collation `collate` ("a may come before b"). */
  function GenreNameAscending(collate: (string, string) -> bool): (le: (Row<Genre>, Row<Genre>) -> bool) {
    (a: Row<Genre>, b: Row<Genre>) => collate(a.item.name, b.item.name)
  }

  /** `.order('username', { ascending: true })`, under the database's collation. */
  function UsernameAscending(collate: (string, string) -> bool): (le: (UserProfile, UserProfile) -> bool) {
    (a: UserProfile, b: UserProfile) => collate(a.username, b.username)
  }

  /** Ordering rows by a column is a total preorder when the collation is. */
  lemma TextOrdersArePreorders(collate: (string, string) -> bool)
    ensures TotalPreorder(collate) ==> TotalPreorder(GenreNameAscending(collate))
    ensures TotalPreorder(collate) ==> TotalPreorder(UsernameAscending(collate))
  {
    if TotalPreorder(collate) {
      var byName := GenreNameAscending(collate);
      forall a, b, c | byName(a, b) && byName(b, c)
        ensures byName(a, c)
      {
        assert collate(a.item.name, b.item.name) && collate(b.item.name, c.item.name);
      }
      forall a, b ensures byName(a, b) || byName(b, a) {
        assert collate(a.item.name, b.item.name) || collate(b.item.name, a.item.name);
      }
      var byUsername := UsernameAscending(collate);
      forall a, b, c | byUsername(a, b) && byUsername(b, c)
        ensures byUsername(a, c)
      {
        assert collate(a.username, b.username) && collate(b.username, c.username);
      }
      forall a, b ensures byUsername(a, b) || byUsername(b, a) {
        assert collate(a.username, b.username) || collate(b.username, a.username);
      }
    }
  }

  /** Comparing character codes, the `C` collation, is one such collation. */
  lemma CodeOrderIsCollation()
    ensures TotalPreorder(LexLe)
  {
    forall a: string, b: string
      ensures LexLe(a, b) || LexLe(b, a)
    {
      LexLeTotal(a, b);
    }
    forall a: string, b: string, c: string | LexLe(a, b) && LexLe(b, c)
      ensures LexLe(a, c)
    {
      LexLeTransitive(a, b, c);
    }
  }

  lemma OrdersArePreorders()
    ensures TotalPreorder(TitleNewestFirst)
    ensures TotalPreorder(ChapterNewestFirst)
    ensures TotalPreorder(ChapterNumberAscending)
    ensures TotalPreorder(ChapterNumberDescending)
    ensures TotalPreorder(UserNewestFirst)
  {
  }
}

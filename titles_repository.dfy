/** The title queries of `TitlesRepository`, over the rows of the `titles` table.
    Every one of them orders by `created_at` descending. The create, update and
    delete of titles are those of `Repository.BaseRepository`. The queries are
    modelled by what their query-builder chains state, as though they ran on the
    client `getSupabase()` returns. */
module TitlesRepository {
  import opened Wrappers
  import opened Seqs
  import opened Text
  import opened Entities

  const TableName := "titles"

  /** The whole table in the order every title query returns. */
  function NewestFirst(rows: seq<Row<Title>>): (r: seq<Row<Title>>)
    ensures multiset(r) == multiset(rows)
    ensures |r| == |rows|
    ensures SortedBy(r, TitleNewestFirst)
  {
    OrdersArePreorders();
    SortBySorted(rows, TitleNewestFirst);
    SortBy(rows, TitleNewestFirst)
  }

  /** `findByStatus`: exactly the titles with that status, newest first. */
  function FindByStatus(rows: seq<Row<Title>>, status: Status, fault: Option<string>): (r: Result<seq<Row<Title>>>)
    ensures fault.Some? ==> r == Err("Failed to fetch titles by status: " + fault.value)
    ensures fault.None? ==> r.Ok?
    ensures r.Ok? ==> forall t :: t in r.value <==> t in rows && t.item.status == Some(status)
    ensures r.Ok? ==> multiset(r.value) <= multiset(rows)
    ensures r.Ok? ==> SortedBy(r.value, TitleNewestFirst)
  {
    if fault.Some? then Err("Failed to fetch titles by status: " + fault.value)
    else
      OrdersArePreorders();
      Ok(Select(rows, (t: Row<Title>) => t.item.status == Some(status), TitleNewestFirst))
  }

  datatype TitlesPage = TitlesPage(data: seq<Row<Title>>, total: nat)

  /** The first offset of a page: `(page - 1) * limit`. */
  function Offset(page: int, limit: int): (from: nat)
    requires page >= 1 && limit >= 0
    ensures from == (page - 1) * limit
  {
    (page - 1) * limit
  }

  /** `findPaginated`: offsets `(page-1)*limit` to `(page-1)*limit + limit - 1`,
      inclusive, of the newest-first order, with the row count of the whole
      table. The data query's error is reported before the count's. */
  function FindPaginated(rows: seq<Row<Title>>, page: int, limit: int,
                         dataFault: Option<string>, countFault: Option<string>): (r: Result<TitlesPage>)
    requires page >= 1 && limit >= 1
    ensures dataFault.Some? ==> r == Err("Failed to fetch paginated titles: " + dataFault.value)
    ensures dataFault.None? && countFault.Some? ==> r == Err("Failed to count titles: " + countFault.value)
    ensures dataFault.None? && countFault.None? ==> r.Ok?
    ensures r.Ok? ==> r.value.total == |rows|
    ensures r.Ok? ==> |r.value.data| == if Offset(page, limit) >= |rows| then 0
                                        else if |rows| - Offset(page, limit) < limit then |rows| - Offset(page, limit)
                                        else limit
    ensures r.Ok? ==> forall i :: 0 <= i < |r.value.data| ==>
      Offset(page, limit) + i < |rows| && r.value.data[i] == NewestFirst(rows)[Offset(page, limit) + i]
  {
    var from := Offset(page, limit);
    if dataFault.Some? then Err("Failed to fetch paginated titles: " + dataFault.value)
    else if countFault.Some? then Err("Failed to count titles: " + countFault.value)
    else Ok(TitlesPage(Range(NewestFirst(rows), from, from + limit - 1), |rows|))
  }

  /** The pages of `findPaginated` cover the table: the title at offset `k` of
      the newest-first order is row `k % limit` of page `k / limit + 1`. */
  lemma PagesCoverTable(rows: seq<Row<Title>>, limit: int, k: int)
    requires limit >= 1 && 0 <= k < |rows|
    ensures var p := FindPaginated(rows, k / limit + 1, limit, None, None);
            k % limit < |p.value.data| && p.value.data[k % limit] == NewestFirst(rows)[k]
  {
    var from := Offset(k / limit + 1, limit);
    assert from == (k / limit) * limit;
    assert from + k % limit == k;
  }

  /** The search test: the query occurs in the title or in the description,
      ignoring case (`title.ilike.%q%,description.ilike.%q%`). */
  predicate TitleMatches(t: Title, query: string) {
    ContainsIgnoringCase(t.title, query) ||
    (t.description.Some? && ContainsIgnoringCase(t.description.value, query))
  }

  /** `search`: the titles whose title or description contains the query,
      ignoring case, newest first. */
  function Search(rows: seq<Row<Title>>, query: string, fault: Option<string>): (r: Result<seq<Row<Title>>>)
    ensures fault.Some? ==> r == Err("Failed to search titles: " + fault.value)
    ensures fault.None? ==> r.Ok?
    ensures r.Ok? ==> forall t :: t in r.value <==> t in rows && TitleMatches(t.item, query)
    ensures r.Ok? ==> multiset(r.value) <= multiset(rows)
    ensures r.Ok? ==> SortedBy(r.value, TitleNewestFirst)
  {
    if fault.Some? then Err("Failed to search titles: " + fault.value)
    else
      OrdersArePreorders();
      Ok(Select(rows, (t: Row<Title>) => TitleMatches(t.item, query), TitleNewestFirst))
  }

  /** `findByCreator`: exactly the titles `created_by` that user, newest first. */
  function FindByCreator(rows: seq<Row<Title>>, creatorId: string, fault: Option<string>): (r: Result<seq<Row<Title>>>)
    ensures fault.Some? ==> r == Err("Failed to fetch titles by creator: " + fault.value)
    ensures fault.None? ==> r.Ok?
    ensures r.Ok? ==> forall t :: t in r.value <==> t in rows && t.item.createdBy == Some(creatorId)
    ensures r.Ok? ==> multiset(r.value) <= multiset(rows)
    ensures r.Ok? ==> SortedBy(r.value, TitleNewestFirst)
  {
    if fault.Some? then Err("Failed to fetch titles by creator: " + fault.value)
    else
      OrdersArePreorders();
      Ok(Select(rows, (t: Row<Title>) => t.item.createdBy == Some(creatorId), TitleNewestFirst))
  }
}

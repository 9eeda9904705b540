/** The genre queries of `GenresRepository`, over the rows of the `genres`
    table; both only read it. They are modelled by what their query-builder
    chains state, as though they ran on the client `getSupabase()` returns. */
module GenresRepository {
  import opened Wrappers
  import opened Seqs
  import opened Text
  import opened Entities
  import Repository

  const TableName := "genres"

  /** `rows[i]` is the one genre named `name`. */
  predicate OnlyOneNamed(rows: seq<Row<Genre>>, i: int, name: string) {
    0 <= i < |rows| && rows[i].item.name == name &&
    forall j :: 0 <= j < |rows| && j != i ==> rows[j].item.name != name
  }

  /** `findByName`: the genre whose name is exactly `name`, or null when there
      is none; as `.single()` with the not-found exemption, also null when
      several genres share the name. */
  function FindByName(rows: seq<Row<Genre>>, name: string, fault: Option<string>): (r: Result<Option<Row<Genre>>>)
    ensures fault.Some? ==> r == Err("Failed to fetch genre by name: " + fault.value)
    ensures fault.None? ==> r.Ok?
    ensures r.Ok? && r.value.Some? ==> r.value.value in rows && r.value.value.item.name == name
    ensures r.Ok? && (forall g :: g in rows ==> g.item.name != name) ==> r.value.None?
    ensures r.Ok? ==> forall i :: OnlyOneNamed(rows, i, name) ==> r.value == Some(rows[i])
  {
    if fault.Some? then Err("Failed to fetch genre by name: " + fault.value)
    else
      var named := Filter(rows, (g: Row<Genre>) => g.item.name == name);
      NamedGenres(rows, name);
      Ok(Repository.SingleOrNull(named))
  }

  lemma NamedGenres(rows: seq<Row<Genre>>, name: string)
    ensures (forall g :: g in rows ==> g.item.name != name) ==>
      Filter(rows, (g: Row<Genre>) => g.item.name == name) == []
    ensures forall i :: OnlyOneNamed(rows, i, name) ==>
      Filter(rows, (g: Row<Genre>) => g.item.name == name) == [rows[i]]
  {
    if forall g :: g in rows ==> g.item.name != name {
      FilterNone(rows, (g: Row<Genre>) => g.item.name == name);
    }
    forall i | OnlyOneNamed(rows, i, name)
      ensures Filter(rows, (g: Row<Genre>) => g.item.name == name) == [rows[i]]
    {
      FilterSingleton(rows, (g: Row<Genre>) => g.item.name == name, i);
    }
  }

  /** `search`: exactly the genres whose name contains the query, ignoring
      case, by ascending name under the database's collation `collate`. */
  function Search(rows: seq<Row<Genre>>, query: string, collate: (string, string) -> bool, fault: Option<string>)
    : (r: Result<seq<Row<Genre>>>)
    ensures fault.Some? ==> r == Err("Failed to search genres: " + fault.value)
    ensures fault.None? ==> r.Ok?
    ensures r.Ok? ==> forall g :: g in r.value <==> g in rows && ContainsIgnoringCase(g.item.name, query)
    ensures r.Ok? ==> multiset(r.value) <= multiset(rows)
    ensures r.Ok? && TotalPreorder(collate) ==> SortedBy(r.value, GenreNameAscending(collate))
  {
    if fault.Some? then Err("Failed to search genres: " + fault.value)
    else
      TextOrdersArePreorders(collate);
      Ok(Select(rows, (g: Row<Genre>) => ContainsIgnoringCase(g.item.name, query), GenreNameAscending(collate)))
  }
}

/** The generic repository over one integer-keyed table: `findAll`, `findById`,
    `count`, and the three writes `create`, `update` and `delete`. The hosted
    table is the field `rows` of a `BaseRepository` object, in insertion order;
    `nextId` is the serial the next insert receives. A failure the client
    reports is the parameter `fault`; a thrown `Error` is `Err(message)`. */
module Repository {
  import opened Wrappers
  import opened Seqs
  import opened Entities

  /** The message PostgREST gives for code PGRST116: `.single()` found no row,
      or more than one. */
  const SingleRowViolation := "JSON object requested, multiple (or no) rows returned"

  predicate HasId<T>(rows: seq<Row<T>>, id: int) {
    exists i :: 0 <= i < |rows| && rows[i].id == id
  }

  /** The primary key: no two rows share an id. */
  predicate UniqueIds<T>(rows: seq<Row<T>>) {
    forall i, j :: 0 <= i < j < |rows| ==> rows[i].id != rows[j].id
  }

  /** `.eq('id', id)`: the rows with that id, in table order. */
  function WithId<T>(rows: seq<Row<T>>, id: int): (r: seq<Row<T>>)
    ensures forall i :: 0 <= i < |r| ==> r[i] in rows && r[i].id == id
    ensures !HasId(rows, id) ==> r == []
  {
    if rows == [] then []
    else (if rows[0].id == id then [rows[0]] else []) + WithId(rows[1..], id)
  }

  /** `.single()` with the PGRST116 error exempted, as the finders do: the one
      matching row, or null when there are none or several. */
  function SingleOrNull<T>(s: seq<T>): (r: Option<T>)
    ensures r.Some? <==> |s| == 1
    ensures r.Some? ==> r.value == s[0]
  {
    if |s| == 1 then Some(s[0]) else None
  }

  /** The row a primary-key lookup finds. */
  function Lookup<T>(rows: seq<Row<T>>, id: int): (r: Option<Row<T>>)
    ensures r.Some? ==> r.value in rows && r.value.id == id
    ensures !HasId(rows, id) ==> r.None?
    ensures UniqueIds(rows) && HasId(rows, id) ==> r.Some?
  {
    WithIdCount(rows, id);
    SingleOrNull(WithId(rows, id))
  }

  lemma WithIdCount<T>(rows: seq<Row<T>>, id: int)
    ensures !HasId(rows, id) ==> WithId(rows, id) == []
    ensures UniqueIds(rows) && HasId(rows, id) ==> |WithId(rows, id)| == 1
  {
    if UniqueIds(rows) && HasId(rows, id) {
      var i :| 0 <= i < |rows| && rows[i].id == id;
      WithIdOfUnique(rows, i);
    }
  }

  /** With unique ids, the rows with the id of `rows[i]` are exactly `rows[i]`. */
  lemma {:induction false} WithIdOfUnique<T>(rows: seq<Row<T>>, i: int)
    requires UniqueIds(rows) && 0 <= i < |rows|
    ensures WithId(rows, rows[i].id) == [rows[i]]
  {
    var id := rows[i].id;
    if i == 0 {
      assert !HasId(rows[1..], id);
    } else {
      WithIdOfUnique(rows[1..], i - 1);
    }
  }

  /** `findAll`: every row of the table (`data || []`). */
  function FindAll<T>(tableName: string, rows: seq<Row<T>>, fault: Option<string>): (r: Result<seq<Row<T>>>)
    ensures fault.Some? ==> r == Err("Failed to fetch " + tableName + ": " + fault.value)
    ensures fault.None? ==> r.Ok? && multiset(r.value) == multiset(rows)
  {
    if fault.Some? then Err("Failed to fetch " + tableName + ": " + fault.value) else Ok(rows)
  }

  /** `findById`: the row with that id, or null; "not found" is not an error. */
  function FindById<T>(tableName: string, rows: seq<Row<T>>, id: int, fault: Option<string>): (r: Result<Option<Row<T>>>)
    ensures fault.Some? ==> r == Err("Failed to fetch " + tableName + ": " + fault.value)
    ensures fault.None? ==> r.Ok?
    ensures r.Ok? && r.value.Some? ==> r.value.value in rows && r.value.value.id == id
    ensures r.Ok? && UniqueIds(rows) ==> (r.value.Some? <==> HasId(rows, id))
  {
    if fault.Some? then Err("Failed to fetch " + tableName + ": " + fault.value) else Ok(Lookup(rows, id))
  }

  /** `count`: the number of rows (`count || 0`). */
  function Count<T>(tableName: string, rows: seq<Row<T>>, fault: Option<string>): (r: Result<nat>)
    ensures fault.Some? ==> r == Err("Failed to count " + tableName + ": " + fault.value)
    ensures fault.None? ==> r == Ok(|rows|)
  {
    if fault.Some? then Err("Failed to count " + tableName + ": " + fault.value) else Ok(|rows|)
  }

  /** The table after `UPDATE ... SET ... WHERE id = id`, the new fields given by `change`. */
  function UpdatedRows<T>(rows: seq<Row<T>>, id: int, change: T -> T): (r: seq<Row<T>>)
    ensures |r| == |rows|
    ensures forall i :: 0 <= i < |r| ==> r[i].id == rows[i].id
    ensures forall i :: 0 <= i < |r| && rows[i].id != id ==> r[i] == rows[i]
    ensures forall i :: 0 <= i < |r| && rows[i].id == id ==> r[i].item == change(rows[i].item)
  {
    if rows == [] then []
    else
      [if rows[0].id == id then Row(id, change(rows[0].item)) else rows[0]] + UpdatedRows(rows[1..], id, change)
  }

  /** The table after `DELETE ... WHERE id = id`. */
  function WithoutId<T>(rows: seq<Row<T>>, id: int): (r: seq<Row<T>>)
    ensures forall i :: 0 <= i < |r| ==> r[i] in rows && r[i].id != id
    ensures !HasId(rows, id) ==> r == rows
  {
    if rows == [] then []
    else (if rows[0].id != id then [rows[0]] else []) + WithoutId(rows[1..], id)
  }

  /** The lookups after an update: the updated row carries the changed fields,
      and every other id finds what it found before. */
  lemma {:induction false} LookupAfterUpdate<T>(rows: seq<Row<T>>, id: int, change: T -> T, other: int)
    requires UniqueIds(rows)
    ensures other != id ==> Lookup(UpdatedRows(rows, id, change), other) == Lookup(rows, other)
    ensures Lookup(rows, id).Some? ==>
      Lookup(UpdatedRows(rows, id, change), id) == Some(Row(id, change(Lookup(rows, id).value.item)))
    ensures Lookup(rows, id).None? ==> Lookup(UpdatedRows(rows, id, change), id).None?
  {
    var updated := UpdatedRows(rows, id, change);
    assert UniqueIds(updated);
    if other != id {
      WithIdUpdatedOther(rows, id, change, other);
    }
    if HasId(rows, id) {
      var i :| 0 <= i < |rows| && rows[i].id == id;
      WithIdOfUnique(rows, i);
      WithIdOfUnique(updated, i);
    } else {
      assert !HasId(updated, id);
    }
  }

  lemma {:induction false} WithIdUpdatedOther<T>(rows: seq<Row<T>>, id: int, change: T -> T, other: int)
    requires other != id
    ensures WithId(UpdatedRows(rows, id, change), other) == WithId(rows, other)
  {
    if rows != [] {
      WithIdUpdatedOther(rows[1..], id, change, other);
    }
  }

  lemma {:induction false} WithIdWithoutOther<T>(rows: seq<Row<T>>, id: int, other: int)
    requires other != id
    ensures WithId(WithoutId(rows, id), other) == WithId(rows, other)
  {
    if rows != [] {
      WithIdWithoutOther(rows[1..], id, other);
      var rest := WithoutId(rows[1..], id);
      if rows[0].id != id {
        var kept := [rows[0]] + rest;
        assert WithoutId(rows, id) == kept;
        assert kept[0] == rows[0] && kept[1..] == rest;
        assert WithId(kept, other) == (if rows[0].id == other then [rows[0]] else []) + WithId(rest, other);
      } else {
        assert WithoutId(rows, id) == rest;
      }
    }
  }

  /** The lookups after a delete: the deleted id finds nothing, every other id
      finds what it found before, and deleting a missing id changes nothing. */
  lemma LookupAfterDelete<T>(rows: seq<Row<T>>, id: int, other: int)
    ensures Lookup(WithoutId(rows, id), id).None?
    ensures other != id ==> Lookup(WithoutId(rows, id), other) == Lookup(rows, other)
    ensures !HasId(rows, id) ==> WithoutId(rows, id) == rows
  {
    var rest := WithoutId(rows, id);
    assert !HasId(rest, id);
    if other != id {
      WithIdWithoutOther(rows, id, other);
    }
  }

  class BaseRepository<T> {
    const tableName: string
    var rows: seq<Row<T>>
    var nextId: int

    /** Ids are positive, unique, and below the next serial value. */
    ghost predicate Valid()
      reads this
    {
      1 <= nextId && UniqueIds(rows) && forall r :: r in rows ==> 1 <= r.id < nextId
    }

    constructor (tableName: string)
      ensures this.tableName == tableName && rows == [] && nextId == 1
      ensures Valid()
    {
      this.tableName := tableName;
      rows := [];
      nextId := 1;
    }

    /** `create`: inserts one row under the next id and returns the stored row. */
    method Create(item: T, fault: Option<string>) returns (r: Result<Row<T>>)
      requires Valid()
      modifies this
      ensures Valid()
      ensures fault.Some? ==>
        r == Err("Failed to create " + tableName + ": " + fault.value) && unchanged(this)
      ensures fault.None? ==>
        r == Ok(Row(old(nextId), item)) && rows == old(rows) + [r.value] && nextId == old(nextId) + 1
    {
      if fault.Some? {
        return Err("Failed to create " + tableName + ": " + fault.value);
      }
      var row := Row(nextId, item);
      rows := rows + [row];
      nextId := nextId + 1;
      r := Ok(row);
    }

    /** `update`: changes the row with that id and returns it. `.single()` has
        no not-found exemption here, so a missing id is an error. */
    method Update(id: int, change: T -> T, fault: Option<string>) returns (r: Result<Row<T>>)
      requires Valid()
      modifies this
      ensures Valid() && nextId == old(nextId)
      ensures fault.Some? ==>
        r == Err("Failed to update " + tableName + ": " + fault.value) && rows == old(rows)
      ensures fault.None? && Lookup(old(rows), id).None? ==>
        r == Err("Failed to update " + tableName + ": " + SingleRowViolation) && rows == old(rows)
      ensures fault.None? && Lookup(old(rows), id).Some? ==>
        rows == UpdatedRows(old(rows), id, change) &&
        r == Ok(Row(id, change(Lookup(old(rows), id).value.item)))
    {
      if fault.Some? {
        return Err("Failed to update " + tableName + ": " + fault.value);
      }
      var found := Lookup(rows, id);
      if found.None? {
        return Err("Failed to update " + tableName + ": " + SingleRowViolation);
      }
      rows := UpdatedRows(rows, id, change);
      r := Ok(Row(id, change(found.value.item)));
    }

    /** `delete`: removes the row with that id; a missing id is not an error. */
    method Delete(id: int, fault: Option<string>) returns (r: Result<()>)
      requires Valid()
      modifies this
      ensures Valid() && nextId == old(nextId)
      ensures fault.Some? ==>
        r == Err("Failed to delete " + tableName + ": " + fault.value) && rows == old(rows)
      ensures fault.None? ==> r == Ok(()) && rows == WithoutId(old(rows), id)
    {
      if fault.Some? {
        return Err("Failed to delete " + tableName + ": " + fault.value);
      }
      rows := WithoutId(rows, id);
      r := Ok(());
      assert forall i :: 0 <= i < |rows| ==> rows[i] in old(rows);
      WithoutIdUnique(old(rows), id);
    }
  }

  lemma {:induction false} WithoutIdUnique<T>(rows: seq<Row<T>>, id: int)
    requires UniqueIds(rows)
    ensures UniqueIds(WithoutId(rows, id))
  {
    if rows != [] {
      WithoutIdUnique(rows[1..], id);
      var rest := WithoutId(rows[1..], id);
      assert forall k :: 0 <= k < |rest| ==> rest[k] in rows[1..];
    }
  }

  /** A row just created is found by its id: `create` then `findById` is the identity. */
  lemma CreateThenFind<T>(rows: seq<Row<T>>, nextId: int, item: T)
    requires UniqueIds(rows) && forall i :: 0 <= i < |rows| ==> rows[i].id < nextId
    ensures Lookup(rows + [Row(nextId, item)], nextId) == Some(Row(nextId, item))
  {
    var s := rows + [Row(nextId, item)];
    assert UniqueIds(s);
    WithIdOfUnique(s, |rows|);
  }
}

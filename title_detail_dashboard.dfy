/** The chapter reordering of the title dashboard: drag a chapter, enter
    another position, drop; and switching the active title version. The drop
    copies the order into a fresh array and moves the dragged entry in place
    (the two `splice` calls: remove at the dragged index, insert at the
    entered one), which `Move` specifies. */
module TitleDetailDashboard {
  import opened Wrappers

  datatype DashChapter = DashChapter(id: int, number: int, title: string)
  datatype TitleVersion = TitleVersion(id: int, team: string, chapters: seq<DashChapter>)

  /** `items.splice(i, 1)`. */
  function Remove<T>(s: seq<T>, i: int): (r: seq<T>)
    requires 0 <= i < |s|
    ensures |r| == |s| - 1
    ensures forall k :: 0 <= k < i ==> r[k] == s[k]
    ensures forall k :: i <= k < |r| ==> r[k] == s[k + 1]
  {
    s[..i] + s[i + 1..]
  }

  /** `items.splice(i, 0, x)`. */
  function InsertAt<T>(s: seq<T>, i: int, x: T): (r: seq<T>)
    requires 0 <= i <= |s|
    ensures |r| == |s| + 1 && r[i] == x
    ensures forall k :: 0 <= k < i ==> r[k] == s[k]
    ensures forall k :: i < k < |r| ==> r[k] == s[k - 1]
  {
    s[..i] + [x] + s[i..]
  }

  /** The order after dropping the entry at `from` onto position `to`. */
  function Move<T>(s: seq<T>, from: int, to: int): (r: seq<T>)
    requires 0 <= from < |s| && 0 <= to < |s|
    ensures |r| == |s| && r[to] == s[from]
  {
    InsertAt(Remove(s, from), to, s[from])
  }

  /** The entries of `Move` one by one, for a move towards the end. */
  lemma MoveForward<T>(s: seq<T>, from: int, to: int)
    requires 0 <= from < to < |s|
    ensures |Move(s, from, to)| == |s|
    ensures forall k :: 0 <= k < from ==> Move(s, from, to)[k] == s[k]
    ensures forall k :: from <= k < to ==> Move(s, from, to)[k] == s[k + 1]
    ensures Move(s, from, to)[to] == s[from]
    ensures forall k :: to < k < |s| ==> Move(s, from, to)[k] == s[k]
  {
  }

  /** The entries of `Move` one by one, for a move towards the start. */
  lemma MoveBackward<T>(s: seq<T>, from: int, to: int)
    requires 0 <= to < from < |s|
    ensures |Move(s, from, to)| == |s|
    ensures forall k :: 0 <= k < to ==> Move(s, from, to)[k] == s[k]
    ensures Move(s, from, to)[to] == s[from]
    ensures forall k :: to < k <= from ==> Move(s, from, to)[k] == s[k - 1]
    ensures forall k :: from < k < |s| ==> Move(s, from, to)[k] == s[k]
  {
  }

  /** A move keeps the length and the entries, puts the dragged entry at
      `to`, and keeps the relative order of all the others. */
  lemma MoveIsPermutation<T>(s: seq<T>, from: int, to: int)
    requires 0 <= from < |s| && 0 <= to < |s|
    ensures |Move(s, from, to)| == |s|
    ensures Move(s, from, to)[to] == s[from]
    ensures multiset(Move(s, from, to)) == multiset(s)
    ensures Remove(Move(s, from, to), to) == Remove(s, from)
  {
    var rest := Remove(s, from);
    assert s == s[..from] + [s[from]] + s[from + 1..];
    assert multiset(rest) + multiset{s[from]} == multiset(s);
    var r := Move(s, from, to);
    assert r == rest[..to] + [s[from]] + rest[to..];
    assert multiset(r) == multiset(rest[..to]) + multiset{s[from]} + multiset(rest[to..]);
    assert rest == rest[..to] + rest[to..];
    assert Remove(r, to) == rest[..to] + rest[to..];
  }

  /** Dropping back where it came from undoes a move. */
  lemma MoveBackUndoes<T>(s: seq<T>, from: int, to: int)
    requires 0 <= from < |s| && 0 <= to < |s|
    ensures Move(Move(s, from, to), to, from) == s
  {
    MoveIsPermutation(s, from, to);
    var r := Move(s, from, to);
    assert Remove(r, to) == Remove(s, from);
    assert r[to] == s[from];
    assert Move(r, to, from) == InsertAt(Remove(s, from), from, s[from]);
    assert s == s[..from] + [s[from]] + s[from + 1..];
  }

  /** The two `splice` calls on the copied array, done in place: the entries
      between the two positions shift by one and the dragged one lands on `to`. */
  method MoveInPlace<T>(a: array<T>, from: int, to: int)
    requires 0 <= from < a.Length && 0 <= to < a.Length
    modifies a
    ensures a[..] == Move(old(a[..]), from, to)
  {
    ghost var s := a[..];
    var dragged := a[from];
    if from < to {
      var i := from;
      while i < to
        invariant from <= i <= to
        invariant forall k :: 0 <= k < from ==> a[k] == s[k]
        invariant forall k :: from <= k < i ==> a[k] == s[k + 1]
        invariant forall k :: i <= k < a.Length ==> a[k] == s[k]
      {
        a[i] := a[i + 1];
        i := i + 1;
      }
      a[to] := dragged;
      MoveForward(s, from, to);
    } else if to < from {
      var i := from;
      while i > to
        invariant to <= i <= from
        invariant forall k :: 0 <= k <= i ==> a[k] == s[k]
        invariant forall k :: i < k <= from ==> a[k] == s[k - 1]
        invariant forall k :: from < k < a.Length ==> a[k] == s[k]
      {
        a[i] := a[i - 1];
        i := i - 1;
      }
      a[to] := dragged;
      MoveBackward(s, from, to);
    } else {
      assert Move(s, from, to) == s by {
        MoveIsPermutation(s, from, to);
        assert s == s[..from] + [s[from]] + s[from + 1..];
      }
    }
    assert a[..] == Move(s, from, to);
  }

  /** `titleVersions.find(v => v.id === id)?.chapters || []`. */
  function VersionChapters(versions: seq<TitleVersion>, id: int): (r: seq<DashChapter>)
    ensures (forall v :: v in versions ==> v.id != id) ==> r == []
    ensures versions != [] && versions[0].id == id ==> r == versions[0].chapters
    ensures versions != [] && versions[0].id != id ==> r == VersionChapters(versions[1..], id)
  {
    if versions == [] then []
    else if versions[0].id == id then versions[0].chapters
    else VersionChapters(versions[1..], id)
  }

  /** The first version with that id decides. */
  lemma {:induction false} VersionChaptersIsFirstMatch(versions: seq<TitleVersion>, id: int, i: int)
    requires 0 <= i < |versions| && versions[i].id == id
    requires forall j :: 0 <= j < i ==> versions[j].id != id
    ensures VersionChapters(versions, id) == versions[i].chapters
  {
    if i > 0 {
      VersionChaptersIsFirstMatch(versions[1..], id, i - 1);
    }
  }

  /** The dashboard's state: the active version, the order shown, and the
      two drag refs. */
  class Dashboard {
    const versions: seq<TitleVersion>
    var activeVersion: int
    var chapterOrder: seq<DashChapter>
    var dragItem: Option<int>
    var dragOverItem: Option<int>

    constructor (versions: seq<TitleVersion>)
      requires versions != []
      ensures this.versions == versions && activeVersion == versions[0].id
      ensures chapterOrder == versions[0].chapters && dragItem.None? && dragOverItem.None?
    {
      this.versions := versions;
      activeVersion := versions[0].id;
      chapterOrder := versions[0].chapters;
      dragItem := None;
      dragOverItem := None;
    }

    /** Picking a version tab. The effect that resets the order depends on
        `activeVersion` only, so it runs only when the version changes; the
        tab already active keeps the current, possibly reordered, order. */
    method SwitchVersion(id: int)
      modifies this
      ensures activeVersion == id
      ensures old(activeVersion) != id ==> chapterOrder == VersionChapters(versions, id)
      ensures old(activeVersion) == id ==> chapterOrder == old(chapterOrder)
      ensures dragItem == old(dragItem) && dragOverItem == old(dragOverItem)
    {
      if id != activeVersion {
        activeVersion := id;
        chapterOrder := VersionChapters(versions, id);
      }
    }

    method DragStart(index: int)
      modifies this
      ensures dragItem == Some(index) && dragOverItem == old(dragOverItem) && chapterOrder == old(chapterOrder)
      ensures activeVersion == old(activeVersion)
    {
      dragItem := Some(index);
    }

    method DragEnter(index: int)
      modifies this
      ensures dragOverItem == Some(index) && dragItem == old(dragItem) && chapterOrder == old(chapterOrder)
      ensures activeVersion == old(activeVersion)
    {
      dragOverItem := Some(index);
    }

    /** `handleDragEnd`: with both refs set and different, the dragged entry
        moves; otherwise the order stays. Both refs are cleared either way.
        The refs hold indices of rendered rows, so they are in range. */
    method DragEnd()
      requires dragItem.Some? ==> 0 <= dragItem.value < |chapterOrder|
      requires dragOverItem.Some? ==> 0 <= dragOverItem.value < |chapterOrder|
      modifies this
      ensures old(dragItem).Some? && old(dragOverItem).Some? && old(dragItem) != old(dragOverItem) ==>
        chapterOrder == Move(old(chapterOrder), old(dragItem).value, old(dragOverItem).value)
      ensures !(old(dragItem).Some? && old(dragOverItem).Some? && old(dragItem) != old(dragOverItem)) ==>
        chapterOrder == old(chapterOrder)
      ensures multiset(chapterOrder) == multiset(old(chapterOrder))
      ensures dragItem.None? && dragOverItem.None? && activeVersion == old(activeVersion)
    {
      if dragItem.Some? && dragOverItem.Some? && dragItem != dragOverItem {
        var items := new DashChapter[|chapterOrder|](k requires 0 <= k < |chapterOrder| reads this => chapterOrder[k]);
        assert items[..] == chapterOrder;
        MoveInPlace(items, dragItem.value, dragOverItem.value);
        MoveIsPermutation(chapterOrder, dragItem.value, dragOverItem.value);
        chapterOrder := items[..];
      }
      dragItem := None;
      dragOverItem := None;
    }
  }
}

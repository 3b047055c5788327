/** The find-then-delete-or-create transition shared by toggleSubscription and
    the three like toggles: a two-state machine over the existence of a row
    for one (target, actor) pair. `m` recognises the pair's rows. */
module Toggle {
  import opened Basics
  import opened Aggregation

  datatype State = Absent | Present

  /** How many rows the pair has. */
  function Matches<T>(rows: seq<T>, m: T -> bool): nat {
    |Filter(rows, m)|
  }

  /** The collection after one toggle: the row `findOne` finds is deleted or,
      when there is none, `created` is inserted. */
  function Toggled<T>(rows: seq<T>, m: T -> bool, created: T): seq<T> {
    match FirstIndex(rows, m)
    case Some(i) => RemoveAt(rows, i)
    case None => rows + [created]
  }

  /** The state of the pair a toggle leaves behind, as the handler reports it. */
  function Resulting<T>(rows: seq<T>, m: T -> bool): State {
    if FirstIndex(rows, m).Some? then Absent else Present
  }

  /** A pair has no row exactly when `findOne` finds none. */
  lemma NoMatchesIffNotFound<T>(rows: seq<T>, m: T -> bool)
    ensures Matches(rows, m) == 0 <==> FirstIndex(rows, m).None?
  {
    if FirstIndex(rows, m).Some? {
      assert rows[FirstIndex(rows, m).value] in Filter(rows, m);
    }
    if Filter(rows, m) != [] {
      var x := Filter(rows, m)[0];
      var j :| 0 <= j < |rows| && rows[j] == x;
      assert m(rows[j]);
    }
  }

  /** Each toggle changes the number of rows of its pair by exactly one:
      up from none, down otherwise. */
  lemma ToggleCount<T>(rows: seq<T>, m: T -> bool, created: T)
    requires m(created)
    ensures Matches(Toggled(rows, m, created), m)
            == if Matches(rows, m) == 0 then 1 else Matches(rows, m) - 1
  {
    NoMatchesIffNotFound(rows, m);
    match FirstIndex(rows, m)
    case Some(i) =>
      FilterRemoveAt(rows, i, m);
    case None =>
      FilterAppend(rows, created, m);
  }

  /** The rows a toggle does not match are kept, in order. */
  lemma ToggleKeepsOthers<T>(rows: seq<T>, m: T -> bool, created: T, q: T -> bool)
    requires m(created)
    requires forall x :: q(x) ==> !m(x)
    ensures Filter(Toggled(rows, m, created), q) == Filter(rows, q)
  {
    match FirstIndex(rows, m)
    case Some(i) =>
      FilterRemoveAt(rows, i, q);
    case None =>
      FilterAppend(rows, created, q);
  }

  /** From Absent, a second toggle undoes the first exactly. */
  lemma ToggleTwiceFromAbsent<T>(rows: seq<T>, m: T -> bool, created1: T, created2: T)
    requires m(created1) && Matches(rows, m) == 0
    ensures Toggled(Toggled(rows, m, created1), m, created2) == rows
  {
    NoMatchesIffNotFound(rows, m);
    var once := rows + [created1];
    assert Toggled(rows, m, created1) == once;
    var k := FirstIndex(once, m);
    assert k.Some? by {
      assert !(forall j :: 0 <= j < |once| ==> !m(once[j])) by {
        assert m(once[|rows|]);
      }
    }
    assert k.value == |rows| by {
      assert forall j :: 0 <= j < |rows| ==> once[j] == rows[j] && !m(rows[j]);
    }
    assert RemoveAt(once, |rows|) == rows;
  }

  /** From Present with a single row, two toggles delete that row and insert
      the second toggle's row at the end. */
  lemma ToggleTwiceFromPresent<T>(rows: seq<T>, m: T -> bool, created1: T, created2: T)
    requires m(created1) && Matches(rows, m) == 1
    ensures FirstIndex(rows, m).Some?
    ensures Toggled(Toggled(rows, m, created1), m, created2)
            == RemoveAt(rows, FirstIndex(rows, m).value) + [created2]
  {
    NoMatchesIffNotFound(rows, m);
    var i := FirstIndex(rows, m).value;
    var once := RemoveAt(rows, i);
    FilterRemoveAt(rows, i, m);
    NoMatchesIffNotFound(once, m);
  }
}

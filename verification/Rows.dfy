/** Append-only tables whose rows carry the instant they were recorded.

    A row's position in the sequence plays the part of its primary key, so the
    database ordering "-occurred_at, -id" picks the row that is latest in time and,
    among equals, latest in insertion order. */
module Rows {

  datatype Option<+T> = None | Some(value: T)

  datatype Row<+T> = Row(value: T, at: int)

  /** The rows a reader with cutoff `asOf` can see, in insertion order. */
  function Visible<T>(rows: seq<Row<T>>, asOf: int): seq<Row<T>> {
    if rows == [] then []
    else
      var rest := Visible(rows[..|rows| - 1], asOf);
      var last := rows[|rows| - 1];
      if last.at <= asOf then rest + [last] else rest
  }

  /** First row under the ordering "-occurred_at, -id". */
  function Latest<T>(rows: seq<Row<T>>): (r: Option<Row<T>>)
    ensures r.None? <==> rows == []
  {
    if rows == [] then None
    else
      var rest := Latest(rows[..|rows| - 1]);
      var last := rows[|rows| - 1];
      if rest.None? || rest.value.at <= last.at then Some(last) else rest
  }

  function LatestAt<T>(rows: seq<Row<T>>, asOf: int): Option<Row<T>> {
    Latest(Visible(rows, asOf))
  }

  ghost predicate Ordered<T>(rows: seq<Row<T>>) {
    forall i, j :: 0 <= i < j < |rows| ==> rows[i].at <= rows[j].at
  }

  /** In a table whose instants never decrease, the database's first row is the tail. */
  lemma {:induction false} LatestIsTail<T>(rows: seq<Row<T>>)
    requires Ordered(rows) && rows != []
    ensures Latest(rows) == Some(rows[|rows| - 1])
  {
    var init := rows[..|rows| - 1];
    if init != [] {
      LatestIsTail(init);
    }
  }

  /** The ordering's first row really is the latest: nothing is stamped after it. */
  lemma {:induction false} LatestIsMaximal<T>(rows: seq<Row<T>>, k: nat)
    requires k < |rows|
    ensures Latest(rows).Some? && Latest(rows).value in rows && rows[k].at <= Latest(rows).value.at
  {
    var init := rows[..|rows| - 1];
    if init != [] {
      LatestIsMaximal(init, if k < |init| then k else 0);
      assert init[0] == rows[0];
    }
  }

  lemma {:induction false} VisibleAll<T>(rows: seq<Row<T>>, asOf: int)
    requires forall k :: 0 <= k < |rows| ==> rows[k].at <= asOf
    ensures Visible(rows, asOf) == rows
  {
    if rows != [] {
      VisibleAll(rows[..|rows| - 1], asOf);
    }
  }

  /** A cutoff cuts an ordered table into a visible prefix and a hidden suffix. */
  lemma {:induction false} VisibleIsPrefix<T>(rows: seq<Row<T>>, asOf: int) returns (n: nat)
    requires Ordered(rows)
    ensures n <= |rows| && Visible(rows, asOf) == rows[..n]
    ensures forall k :: 0 <= k < n ==> rows[k].at <= asOf
    ensures forall k :: n <= k < |rows| ==> asOf < rows[k].at
  {
    if rows == [] {
      return 0;
    }
    var init, last := rows[..|rows| - 1], rows[|rows| - 1];
    if last.at <= asOf {
      VisibleAll(rows, asOf);
      return |rows|;
    }
    n := VisibleIsPrefix(init, asOf);
    assert Visible(rows, asOf) == Visible(init, asOf);
    assert rows[..n] == init[..n];
    forall k | n <= k < |rows|
      ensures asOf < rows[k].at
    {
      if k < |init| { assert init[k] == rows[k]; }
    }
  }

  /** Rows stamped after a cutoff are invisible at it. */
  lemma {:induction false} LaterRowsInvisible<T>(rows: seq<Row<T>>, more: seq<Row<T>>, asOf: int)
    requires forall k :: 0 <= k < |more| ==> asOf < more[k].at
    ensures Visible(rows + more, asOf) == Visible(rows, asOf)
  {
    if more == [] {
      assert rows + more == rows;
    } else {
      var all := rows + more;
      assert all[..|all| - 1] == rows + more[..|more| - 1];
      LaterRowsInvisible(rows, more[..|more| - 1], asOf);
    }
  }
}

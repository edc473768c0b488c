/**
 * The "Create Playlist" dialog's list of chosen files and its Up/Down
 * buttons (CreatePlaylistDialog._move_sel in main.py), as list logic: the
 * widget's rows are a sequence of file names and the selection is the
 * ascending list of selected rows.
 */
module PlaylistDialog {
  import opened Wrappers

  /** Strictly increasing, as `sorted({...})` over a set of rows yields. */
  predicate Ascending(rows: seq<int>) {
    forall i, j :: 0 <= i < j < |rows| ==> rows[i] < rows[j]
  }

  /** Every row names an item of a list of `count` items. */
  predicate RowsIn(rows: seq<int>, count: int) {
    forall i :: 0 <= i < |rows| ==> 0 <= rows[i] < count
  }

  /** `[r + delta for r in rows]`. */
  function Shift(rows: seq<int>, delta: int): (r: seq<int>)
    ensures |r| == |rows|
    ensures forall i :: 0 <= i < |rows| ==> r[i] == rows[i] + delta
  {
    seq(|rows|, i requires 0 <= i < |rows| => rows[i] + delta)
  }

  /** A move happens only when something is selected and every shifted row is still a row. */
  predicate CanMove(rows: seq<int>, delta: int, count: int) {
    rows != [] && RowsIn(Shift(rows, delta), count)
  }

  /** QListWidget.insertItem: a row past either end inserts at that end. */
  function Insert(s: seq<string>, row: int, x: string): (r: seq<string>)
    ensures |r| == |s| + 1
  {
    if row < 0 then [x] + s
    else if row > |s| then s + [x]
    else s[..row] + [x] + s[row..]
  }

  /** The item lands at the row clamped into the list, and taking it out again gives back the list. */
  lemma InsertPlaces(s: seq<string>, row: int, x: string)
    ensures var k := if row < 0 then 0 else if row > |s| then |s| else row;
      Insert(s, row, x)[k] == x && Insert(s, row, x)[..k] + Insert(s, row, x)[k + 1..] == s
  {
    var k := if row < 0 then 0 else if row > |s| then |s| else row;
    var r := Insert(s, row, x);
    assert r == s[..k] + [x] + s[k..];
    assert r[..k] == s[..k] && r[k + 1..] == s[k..];
  }

  /** Inserting xs[j] at rows[j], in the order given. */
  function InsertAll(s: seq<string>, rows: seq<int>, xs: seq<string>): (r: seq<string>)
    requires |rows| == |xs|
    ensures |r| == |s| + |xs|
    decreases |rows|
  {
    if rows == [] then s else InsertAll(Insert(s, rows[0], xs[0]), rows[1..], xs[1..])
  }

  /** The items whose index is not in K, in order. */
  function Without(s: seq<string>, K: set<int>): (r: seq<string>)
    decreases |s|
  {
    if s == [] then []
    else Without(s[..|s| - 1], K) + (if |s| - 1 in K then [] else [s[|s| - 1]])
  }

  /** The items whose index is in K, in order. */
  function Selected(s: seq<string>, K: set<int>): (r: seq<string>)
    decreases |s|
  {
    if s == [] then []
    else Selected(s[..|s| - 1], K) + (if |s| - 1 in K then [s[|s| - 1]] else [])
  }

  /** `[items[r] for r in rows]`. */
  function Picked(s: seq<string>, rows: seq<int>): (r: seq<string>)
    requires RowsIn(rows, |s|)
    ensures |r| == |rows|
  {
    seq(|rows|, j requires 0 <= j < |rows| => s[rows[j]])
  }

  function RowSet(rows: seq<int>): set<int> {
    set r | r in rows
  }

  // ---------------------------------------------------------------------
  // _move_sel as written: the items are taken in ascending row order, so
  // every take after the first reads a list the earlier takes have shifted.
  // ---------------------------------------------------------------------

  /**
   * `[self.list.takeItem(r) for r in rows]`: each take removes from the list
   * as it stands; a row past the end takes nothing (None).
   */
  function TakeShifting(s: seq<string>, rows: seq<int>): (r: (seq<string>, seq<Option<string>>))
    requires forall i :: 0 <= i < |rows| ==> 0 <= rows[i]
    ensures |r.1| == |rows|
    decreases |rows|
  {
    if rows == [] then (s, [])
    else if rows[0] < |s| then
      var rest := TakeShifting(s[..rows[0]] + s[rows[0] + 1..], rows[1..]);
      (rest.0, [Some(s[rows[0]])] + rest.1)
    else
      var rest := TakeShifting(s, rows[1..]);
      (rest.0, [None] + rest.1)
  }

  /** Taking rows a + b takes a, then takes b from what a left. */
  lemma {:induction false} TakeShiftingSplit(s: seq<string>, a: seq<int>, b: seq<int>)
    requires forall i :: 0 <= i < |a| ==> 0 <= a[i]
    requires forall i :: 0 <= i < |b| ==> 0 <= b[i]
    ensures var first := TakeShifting(s, a); var second := TakeShifting(first.0, b);
      TakeShifting(s, a + b) == (second.0, first.1 + second.1)
    decreases |a|
  {
    if a == [] {
      assert a + b == b;
      assert TakeShifting(s, a) == (s, []);
      assert [] + TakeShifting(s, b).1 == TakeShifting(s, b).1;
    } else {
      assert (a + b)[0] == a[0] && (a + b)[1..] == a[1..] + b;
      if a[0] < |s| {
        var s' := s[..a[0]] + s[a[0] + 1..];
        TakeShiftingSplit(s', a[1..], b);
        var first', second := TakeShifting(s', a[1..]), TakeShifting(TakeShifting(s, a).0, b);
        assert TakeShifting(s, a).1 == [Some(s[a[0]])] + first'.1;
        assert [Some(s[a[0]])] + (first'.1 + second.1) == ([Some(s[a[0]])] + first'.1) + second.1;
      } else {
        TakeShiftingSplit(s, a[1..], b);
        var first', second := TakeShifting(s, a[1..]), TakeShifting(TakeShifting(s, a).0, b);
        assert TakeShifting(s, a).1 == [None] + first'.1;
        assert [None] + (first'.1 + second.1) == ([None] + first'.1) + second.1;
      }
    }
  }

  /**
   * Take j finds the item at row rows[j] of the list as the earlier takes left it,
   * or nothing when that list is too short.
   */
  lemma TakeShiftingFinds(s: seq<string>, rows: seq<int>, j: int)
    requires forall i :: 0 <= i < |rows| ==> 0 <= rows[i]
    requires 0 <= j < |rows|
    ensures var now := TakeShifting(s, rows[..j]).0;
      TakeShifting(s, rows).1[j] == if rows[j] < |now| then Some(now[rows[j]]) else None
  {
    TakeShiftingSplit(s, rows[..j], rows[j..]);
    assert rows[..j] + rows[j..] == rows;
    assert rows[j..][0] == rows[j];
  }

  /** The items a run of takes found, in order. */
  function Present(xs: seq<Option<string>>): (r: seq<string>)
    ensures |r| <= |xs|
  {
    if xs == [] then []
    else (if xs[0].Some? then [xs[0].value] else []) + Present(xs[1..])
  }

  /**
   * `for r, it in sorted(zip(new_rows, items)): self.list.insertItem(r, it)`, with
   * new_rows ascending so that the sort keeps the order: each found item is
   * inserted at its row, and a missing one (None) inserts nothing, as
   * QListWidget.insertItem ignores a null item.
   */
  function InsertTaken(s: seq<string>, rows: seq<int>, xs: seq<Option<string>>): (r: seq<string>)
    requires |rows| == |xs|
    decreases |rows|
  {
    if rows == [] then s
    else InsertTaken(if xs[0].Some? then Insert(s, rows[0], xs[0].value) else s, rows[1..], xs[1..])
  }

  /** _move_sel as written: take by the shifting rows, then insert what was found. */
  function MoveAsWritten(items: seq<string>, rows: seq<int>, delta: int): (r: seq<string>)
    requires Ascending(rows) && RowsIn(rows, |items|)
    ensures !CanMove(rows, delta, |items|) ==> r == items
  {
    if !CanMove(rows, delta, |items|) then items
    else
      var taken := TakeShifting(items, rows);
      InsertTaken(taken.0, Shift(rows, delta), taken.1)
  }

  /** Taking removes exactly the items it finds. */
  lemma {:induction false} TakeShiftingKeeps(s: seq<string>, rows: seq<int>)
    requires forall i :: 0 <= i < |rows| ==> 0 <= rows[i]
    ensures multiset(TakeShifting(s, rows).0) + multiset(Present(TakeShifting(s, rows).1)) == multiset(s)
    decreases |rows|
  {
    if rows != [] {
      var r := rows[0];
      var t := TakeShifting(s, rows);
      if r < |s| {
        var s' := s[..r] + s[r + 1..];
        var t' := TakeShifting(s', rows[1..]);
        TakeShiftingKeeps(s', rows[1..]);
        assert t.0 == t'.0 && t.1 == [Some(s[r])] + t'.1;
        assert Present(t.1) == [s[r]] + Present(t'.1);
        assert s == s[..r] + [s[r]] + s[r + 1..];
        assert multiset(s) == multiset(s') + multiset{s[r]};
      } else {
        var t' := TakeShifting(s, rows[1..]);
        TakeShiftingKeeps(s, rows[1..]);
        assert t.0 == t'.0 && t.1 == [None] + t'.1;
        assert Present(t.1) == Present(t'.1);
      }
    }
  }

  /** Inserting adds exactly the items found. */
  lemma {:induction false} InsertTakenAdds(s: seq<string>, rows: seq<int>, xs: seq<Option<string>>)
    requires |rows| == |xs|
    ensures multiset(InsertTaken(s, rows, xs)) == multiset(s) + multiset(Present(xs))
    decreases |rows|
  {
    if rows != [] {
      if xs[0].Some? {
        var s' := Insert(s, rows[0], xs[0].value);
        InsertAdds(s, rows[0], xs[0].value);
        InsertTakenAdds(s', rows[1..], xs[1..]);
      } else {
        InsertTakenAdds(s, rows[1..], xs[1..]);
      }
    }
  }

  lemma InsertAdds(s: seq<string>, row: int, x: string)
    ensures multiset(Insert(s, row, x)) == multiset(s) + multiset{x}
  {
    if 0 <= row <= |s| {
      assert s == s[..row] + s[row..];
    }
  }

  /** As written, a move loses no item and duplicates none: the list is a permutation of the old one. */
  lemma MoveAsWrittenKeepsItems(items: seq<string>, rows: seq<int>, delta: int)
    requires Ascending(rows) && RowsIn(rows, |items|)
    ensures multiset(MoveAsWritten(items, rows, delta)) == multiset(items)
    ensures |MoveAsWritten(items, rows, delta)| == |items|
  {
    if CanMove(rows, delta, |items|) {
      var t := TakeShifting(items, rows);
      TakeShiftingKeeps(items, rows);
      InsertTakenAdds(t.0, Shift(rows, delta), t.1);
    }
    assert |multiset(MoveAsWritten(items, rows, delta))| == |multiset(items)|;
  }

  /**
   * Moving rows 1 and 2 up in [a, b, c, d, e] takes b and then d (row 2 of
   * [a, c, d, e]) and produces [b, d, a, c, e]; the intended result is
   * [b, c, a, d, e].
   */
  lemma MoveAsWrittenMisplaces()
    ensures MoveAsWritten(["a", "b", "c", "d", "e"], [1, 2], -1) == ["b", "d", "a", "c", "e"]
    ensures Moved(["a", "b", "c", "d", "e"], [1, 2], -1) == ["b", "c", "a", "d", "e"]
  {
    AsWrittenTakes();
    IntendedKeeps();
    assert Shift([1, 2], -1) == [0, 1];
    var rest: seq<string> := ["a", "c", "e"];
    assert Insert(rest, 0, "b") == ["b", "a", "c", "e"];
    assert Insert(["b", "a", "c", "e"], 1, "d") == ["b", "d", "a", "c", "e"];
    var found: seq<Option<string>> := [Some("b"), Some("d")];
    assert found[1..] == [Some("d")] && found[1..][1..] == [];
    assert InsertTaken(["b", "d", "a", "c", "e"], [], []) == ["b", "d", "a", "c", "e"];
    assert InsertTaken(rest, [0, 1], found) == ["b", "d", "a", "c", "e"];
    var kept: seq<string> := ["a", "d", "e"];
    assert Insert(kept, 0, "b") == ["b", "a", "d", "e"];
    assert Insert(["b", "a", "d", "e"], 1, "c") == ["b", "c", "a", "d", "e"];
    assert InsertAll(["b", "c", "a", "d", "e"], [], []) == ["b", "c", "a", "d", "e"];
    assert InsertAll(kept, [0, 1], ["b", "c"]) == ["b", "c", "a", "d", "e"];
  }

  /** The two takes of the code as written: b, then d. */
  lemma AsWrittenTakes()
    ensures CanMove([1, 2], -1, 5)
    ensures TakeShifting(["a", "b", "c", "d", "e"], [1, 2]).0 == ["a", "c", "e"]
    ensures TakeShifting(["a", "b", "c", "d", "e"], [1, 2]).1 == [Some("b"), Some("d")]
  {
    assert Shift([1, 2], -1) == [0, 1];
    var items: seq<string> := ["a", "b", "c", "d", "e"];
    var rest1 := items[..1] + items[2..];
    assert rest1 == ["a", "c", "d", "e"];
    var rest2 := rest1[..2] + rest1[3..];
    assert rest2 == ["a", "c", "e"];
    var rows: seq<int> := [1, 2];
    assert rows[1..] == [2] && [2][1..] == [];
    assert TakeShifting(rest2, []) == (rest2, []);
    var t1 := TakeShifting(rest1, [2]);
    assert t1.0 == rest2 && t1.1 == [Some("d")];
  }

  /** The intended move keeps a, d, e and picks b, c. */
  lemma IntendedKeeps()
    ensures Without(["a", "b", "c", "d", "e"], RowSet([1, 2])) == ["a", "d", "e"]
    ensures Picked(["a", "b", "c", "d", "e"], [1, 2]) == ["b", "c"]
  {
    var items: seq<string> := ["a", "b", "c", "d", "e"];
    var R := RowSet([1, 2]);
    assert R == {1, 2};
    assert items[..1][..0] == [] && items[..2][..1] == items[..1] && items[..3][..2] == items[..2];
    assert items[..4][..3] == items[..3] && items[..4] == items[..5][..4] && items[..5] == items;
    assert Without(items[..0], R) == [];
    assert Without(items[..1], R) == ["a"];
    assert Without(items[..2], R) == ["a"];
    assert Without(items[..3], R) == ["a"];
    assert Without(items[..4], R) == ["a", "d"];
  }

  /**
   * Moving rows 1 and 2 up in [a, b, c]: the second take finds row 2 gone, so c
   * is never moved and the list becomes [b, a, c] instead of [b, c, a].
   */
  lemma MoveAsWrittenMissesItem()
    ensures MoveAsWritten(["a", "b", "c"], [1, 2], -1) == ["b", "a", "c"]
    ensures Moved(["a", "b", "c"], [1, 2], -1) == ["b", "c", "a"]
  {
    var items: seq<string> := ["a", "b", "c"];
    assert Shift([1, 2], -1) == [0, 1];
    var rest1 := items[..1] + items[2..];
    assert rest1 == ["a", "c"];
    var rows: seq<int> := [1, 2];
    assert rows[1..] == [2] && [2][1..] == [];
    var t1 := TakeShifting(rest1, [2]);
    assert t1.0 == rest1 && t1.1 == [None];
    var t := TakeShifting(items, rows);
    assert t.0 == rest1 && t.1 == [Some("b"), None];
    var found: seq<Option<string>> := [Some("b"), None];
    assert found[1..] == [None] && found[1..][1..] == [];
    assert Insert(rest1, 0, "b") == ["b", "a", "c"];
    assert InsertTaken(["b", "a", "c"], [1], [None]) == ["b", "a", "c"];
    IntendedKeepsFirst();
    var kept: seq<string> := ["a"];
    assert Insert(kept, 0, "b") == ["b", "a"];
    assert Insert(["b", "a"], 1, "c") == ["b", "c", "a"];
    assert InsertAll(["b", "c", "a"], [], []) == ["b", "c", "a"];
    assert InsertAll(kept, [0, 1], ["b", "c"]) == ["b", "c", "a"];
  }

  /** The intended move of rows 1 and 2 in [a, b, c] keeps a and picks b, c. */
  lemma IntendedKeepsFirst()
    ensures Without(["a", "b", "c"], RowSet([1, 2])) == ["a"]
    ensures Picked(["a", "b", "c"], [1, 2]) == ["b", "c"]
  {
    var items: seq<string> := ["a", "b", "c"];
    var R := RowSet([1, 2]);
    assert R == {1, 2};
    assert items[..1][..0] == [] && items[..2][..1] == items[..1] && items[..3][..2] == items[..2];
    assert items[..3] == items;
    assert Without(items[..0], R) == [];
    assert Without(items[..1], R) == ["a"];
    assert Without(items[..2], R) == ["a"];
  }

  /**
   * _move_sel as written on a Qt 6 binding, where QListWidget has no
   * setItemSelected: the call after the first insert raises, so the first
   * found item goes back at its new row and the items taken after it are
   * never inserted.
   */
  function MoveRaising(items: seq<string>, rows: seq<int>, delta: int): (r: seq<string>)
    requires Ascending(rows) && RowsIn(rows, |items|)
    ensures !CanMove(rows, delta, |items|) ==> r == items
  {
    if !CanMove(rows, delta, |items|) then items
    else
      var taken := TakeShifting(items, rows);
      InsertTaken(taken.0, Shift(rows, delta)[..1], taken.1[..1])
  }

  /** On such a binding a move drops every item found after the first one. */
  lemma MoveRaisingLosesItems(items: seq<string>, rows: seq<int>, delta: int)
    requires Ascending(rows) && RowsIn(rows, |items|) && CanMove(rows, delta, |items|)
    ensures var lost := Present(TakeShifting(items, rows).1[1..]);
      multiset(MoveRaising(items, rows, delta)) + multiset(lost) == multiset(items)
      && |MoveRaising(items, rows, delta)| + |lost| == |items|
  {
    var t := TakeShifting(items, rows);
    var r := MoveRaising(items, rows, delta);
    assert r == InsertTaken(t.0, Shift(rows, delta)[..1], t.1[..1]);
    TakeShiftingKeeps(items, rows);
    InsertTakenAdds(t.0, Shift(rows, delta)[..1], t.1[..1]);
    PresentHead(t.1);
    var lost := Present(t.1[1..]);
    assert multiset(r) + multiset(lost) == multiset(items);
    assert |multiset(r)| + |multiset(lost)| == |multiset(items)|;
  }

  lemma PresentHead(xs: seq<Option<string>>)
    requires xs != []
    ensures multiset(Present(xs)) == multiset(Present(xs[..1])) + multiset(Present(xs[1..]))
  {
    assert xs[..1][1..] == [];
  }

  /** Moving rows 1 and 2 up in [a, b, c, d, e] on such a binding leaves [b, a, c, e]: d is lost. */
  lemma MoveRaisingDropsD()
    ensures MoveRaising(["a", "b", "c", "d", "e"], [1, 2], -1) == ["b", "a", "c", "e"]
  {
    AsWrittenTakes();
    var found: seq<Option<string>> := [Some("b"), Some("d")];
    assert found[..1] == [Some("b")] && [Some("b")][1..] == [];
    assert Shift([1, 2], -1)[..1] == [0] && [0][1..] == [];
    var rest: seq<string> := ["a", "c", "e"];
    assert Insert(rest, 0, "b") == ["b", "a", "c", "e"];
    assert InsertTaken(["b", "a", "c", "e"], [], []) == ["b", "a", "c", "e"];
  }

  // ---------------------------------------------------------------------
  // The move as intended: take the selected items by their original rows,
  // then insert each at its row plus delta.
  // ---------------------------------------------------------------------

  /** The list after moving the selected rows by delta, when the move is allowed. */
  function Moved(items: seq<string>, rows: seq<int>, delta: int): (r: seq<string>)
    requires Ascending(rows) && RowsIn(rows, |items|)
    ensures !CanMove(rows, delta, |items|) ==> r == items
  {
    if !CanMove(rows, delta, |items|) then items
    else InsertAll(Without(items, RowSet(rows)), Shift(rows, delta), Picked(items, rows))
  }

  /**
   * A move keeps the length, puts each selected item at its row plus delta
   * and leaves the other items in their old relative order.
   */
  lemma MovedSpec(items: seq<string>, rows: seq<int>, delta: int)
    requires Ascending(rows) && RowsIn(rows, |items|) && CanMove(rows, delta, |items|)
    ensures |Moved(items, rows, delta)| == |items|
    ensures forall j :: 0 <= j < |rows| ==> Moved(items, rows, delta)[rows[j] + delta] == items[rows[j]]
    ensures Without(Moved(items, rows, delta), RowSet(Shift(rows, delta))) == Without(items, RowSet(rows))
  {
    var U, N, X := Without(items, RowSet(rows)), Shift(rows, delta), Picked(items, rows);
    SplitLength(items, RowSet(rows));
    SelectedIsPicked(items, rows);
    assert |U| == |items| - |rows|;
    assert Ascending(N);
    forall j | 0 <= j < |N|
      ensures 0 <= N[j] <= |U| + j
    {
      Gap(N, j, |N| - 1);
    }
    InsertAllPlaces(U, N, X);
    InsertAllKeepsOthers(U, N, X);
  }

  /** One selected row: the code as written and the intended move agree. */
  lemma MoveSingleRowAgrees(items: seq<string>, r: int, delta: int)
    requires 0 <= r < |items|
    ensures MoveAsWritten(items, [r], delta) == Moved(items, [r], delta)
  {
    if CanMove([r], delta, |items|) {
      var rest := items[..r] + items[r + 1..];
      assert [r][1..] == [];
      assert TakeShifting(rest, []) == (rest, []);
      var t := TakeShifting(items, [r]);
      assert t.0 == rest && t.1 == [Some(items[r])];
      var found: seq<Option<string>> := [Some(items[r])];
      assert found[1..] == [];
      var n := Shift([r], delta);
      assert InsertTaken(rest, n, found) == InsertAll(rest, n, [items[r]]);
      assert RowSet([r]) == {r};
      WithoutNone(items, {});
      WithoutDropAt(items, {}, r);
      assert {} + {r} == {r};
      assert Picked(items, [r]) == [items[r]];
    }
  }

  /** A strictly increasing run climbs by at least one per step. */
  lemma {:induction false} Gap(N: seq<int>, j: int, k: int)
    requires Ascending(N) && 0 <= j <= k < |N|
    ensures N[j] + (k - j) <= N[k]
    decreases k - j
  {
    if j < k {
      Gap(N, j + 1, k);
    }
  }

  /** Each item is either kept or selected. */
  lemma {:induction false} SplitLength(s: seq<string>, K: set<int>)
    ensures |Without(s, K)| + |Selected(s, K)| == |s|
    decreases |s|
  {
    if s != [] {
      SplitLength(s[..|s| - 1], K);
    }
  }

  /** Selecting the rows of an ascending list picks them in list order. */
  lemma {:induction false} SelectedIsPicked(s: seq<string>, rows: seq<int>)
    requires Ascending(rows) && RowsIn(rows, |s|)
    ensures Selected(s, RowSet(rows)) == Picked(s, rows)
    decreases |s|
  {
    if s != [] {
      var n := |s| - 1;
      var s' := s[..n];
      if rows != [] && rows[|rows| - 1] == n {
        var k := |rows| - 1;
        var rows' := rows[..k];
        assert rows == rows' + [n];
        assert RowSet(rows) == RowSet(rows') + {n};
        assert RowsIn(rows', |s'|) by {
          forall i | 0 <= i < |rows'|
            ensures 0 <= rows'[i] < |s'|
          {
            assert rows[i] < rows[k];
          }
        }
        SelectedIsPicked(s', rows');
        SelectedSameBelow(s', RowSet(rows'), RowSet(rows));
        assert n in RowSet(rows);
        assert Picked(s, rows) == Picked(s', rows') + [s[n]];
      } else {
        assert RowsIn(rows, |s'|) by {
          forall i | 0 <= i < |rows|
            ensures rows[i] < n
          {
            var last := |rows| - 1;
            assert i < last ==> rows[i] < rows[last];
          }
        }
        assert n !in RowSet(rows);
        SelectedIsPicked(s', rows);
        SelectedSameBelow(s', RowSet(rows), RowSet(rows));
        assert Picked(s, rows) == Picked(s', rows);
      }
    }
  }

  /** Only the indices below |s| matter for Selected. */
  lemma {:induction false} SelectedSameBelow(s: seq<string>, K: set<int>, L: set<int>)
    requires forall i :: 0 <= i < |s| ==> (i in K <==> i in L)
    ensures Selected(s, K) == Selected(s, L)
    decreases |s|
  {
    if s != [] {
      SelectedSameBelow(s[..|s| - 1], K, L);
    }
  }

  /** With no index of s removed, Without is the identity. */
  lemma {:induction false} WithoutNone(s: seq<string>, K: set<int>)
    requires forall i :: 0 <= i < |s| ==> i !in K
    ensures Without(s, K) == s
    decreases |s|
  {
    if s != [] {
      WithoutNone(s[..|s| - 1], K);
    }
  }

  /** Removing only indices at or past p keeps the first p items. */
  lemma {:induction false} WithoutPrefix(t: seq<string>, K: set<int>, p: int)
    requires 0 <= p <= |t|
    requires forall k :: k in K ==> k >= p
    ensures |Without(t, K)| >= p && Without(t, K)[..p] == t[..p]
    decreases |t|
  {
    if |t| > p {
      var t' := t[..|t| - 1];
      WithoutPrefix(t', K, p);
      var w := Without(t', K);
      assert Without(t, K) == w + (if |t| - 1 in K then [] else [t[|t| - 1]]);
      assert Without(t, K)[..p] == w[..p];
      assert t'[..p] == t[..p];
    } else {
      WithoutNone(t, K);
    }
  }

  /** Removing one more index p, below all others, drops the item at p of what was left. */
  lemma {:induction false} WithoutDropAt(t: seq<string>, K: set<int>, p: int)
    requires 0 <= p < |t|
    requires forall k :: k in K ==> k > p
    ensures |Without(t, K)| > p
    ensures Without(t, K + {p}) == Without(t, K)[..p] + Without(t, K)[p + 1..]
    decreases |t|
  {
    var n := |t| - 1;
    if n == p {
      WithoutNone(t, K);
      WithoutNone(t[..n], K + {p});
    } else {
      WithoutDropAt(t[..n], K, p);
      WithoutPrefix(t[..n], K, p + 1);
    }
  }

  /** Inserting at row p, below every later row, leaves the first p items alone. */
  lemma {:induction false} InsertAllKeepsBelow(s: seq<string>, rows: seq<int>, xs: seq<string>, p: int)
    requires |rows| == |xs| && 0 <= p <= |s|
    requires forall j :: 0 <= j < |rows| ==> rows[j] >= p
    ensures InsertAll(s, rows, xs)[..p] == s[..p]
    decreases |rows|
  {
    if rows != [] {
      var s' := Insert(s, rows[0], xs[0]);
      assert s'[..p] == s[..p];
      InsertAllKeepsBelow(s', rows[1..], xs[1..], p);
    }
  }

  /** Ascending insertions at rows that fit land every item at its row. */
  lemma {:induction false} InsertAllPlaces(s: seq<string>, rows: seq<int>, xs: seq<string>)
    requires |rows| == |xs| && Ascending(rows)
    requires forall j :: 0 <= j < |rows| ==> 0 <= rows[j] <= |s| + j
    ensures forall j :: 0 <= j < |rows| ==> InsertAll(s, rows, xs)[rows[j]] == xs[j]
    decreases |rows|
  {
    if rows != [] {
      var s' := Insert(s, rows[0], xs[0]);
      var r := InsertAll(s, rows, xs);
      assert r == InsertAll(s', rows[1..], xs[1..]);
      InsertAllPlaces(s', rows[1..], xs[1..]);
      InsertAllKeepsBelow(s', rows[1..], xs[1..], rows[0] + 1);
      assert r[..rows[0] + 1] == s'[..rows[0] + 1];
      assert r[rows[0]] == s'[rows[0]] == xs[0];
      forall j | 1 <= j < |rows|
        ensures r[rows[j]] == xs[j]
      {
        assert rows[1..][j - 1] == rows[j];
      }
    }
  }

  /** Removing the inserted rows gives back the list inserted into. */
  lemma {:induction false} InsertAllKeepsOthers(s: seq<string>, rows: seq<int>, xs: seq<string>)
    requires |rows| == |xs| && Ascending(rows)
    requires forall j :: 0 <= j < |rows| ==> 0 <= rows[j] <= |s| + j
    ensures Without(InsertAll(s, rows, xs), RowSet(rows)) == s
    decreases |rows|
  {
    if rows == [] {
      assert RowSet(rows) == {};
      WithoutNone(s, {});
    } else {
      var p := rows[0];
      var s' := Insert(s, p, xs[0]);
      var t := InsertAll(s', rows[1..], xs[1..]);
      var K := RowSet(rows[1..]);
      InsertAllKeepsOthers(s', rows[1..], xs[1..]);
      RowSetTail(rows);
      WithoutDropAt(t, K, p);
      assert s' == s[..p] + [xs[0]] + s[p..];
      assert s'[..p] + s'[p + 1..] == s;
    }
  }

  /** The head of an ascending list is below the rest, and joins their set. */
  lemma RowSetTail(rows: seq<int>)
    requires rows != [] && Ascending(rows)
    ensures RowSet(rows) == RowSet(rows[1..]) + {rows[0]}
    ensures forall k :: k in RowSet(rows[1..]) ==> k > rows[0]
  {
    assert rows == [rows[0]] + rows[1..];
    forall k | k in RowSet(rows[1..])
      ensures k > rows[0]
    {
      var i :| 0 <= i < |rows[1..]| && rows[1..][i] == k;
      assert rows[i + 1] == k;
    }
  }

  /** The file list of the Create Playlist dialog. */
  class CreatePlaylistDialog {
    var items: seq<string>

    constructor ()
      ensures items == []
    {
      items := [];
    }

    /**
     * _move_sel as written: nothing moves when nothing is selected or a row
     * would leave the list; otherwise the selected items are taken out and
     * what was found is inserted at the shifted rows.
     */
    method MoveSel(rows: seq<int>, delta: int)
      requires Ascending(rows) && RowsIn(rows, |items|)
      modifies this
      ensures items == MoveAsWritten(old(items), rows, delta)
    {
      if rows == [] {
        return;
      }
      var newRows := Shift(rows, delta);
      if exists j :: 0 <= j < |newRows| && !(0 <= newRows[j] < |items|) {
        return;
      }
      assert CanMove(rows, delta, |items|);
      var taken := TakeRows(rows);
      InsertRows(newRows, taken);
    }

    /** `[self.list.takeItem(r) for r in rows]`: each take removes from the list as it stands. */
    method TakeRows(rows: seq<int>) returns (taken: seq<Option<string>>)
      requires forall i :: 0 <= i < |rows| ==> 0 <= rows[i]
      modifies this
      ensures (items, taken) == TakeShifting(old(items), rows)
    {
      var i := 0;
      taken := [];
      while i < |rows|
        invariant 0 <= i <= |rows|
        invariant TakeShifting(items, rows[i..]).0 == TakeShifting(old(items), rows).0
        invariant taken + TakeShifting(items, rows[i..]).1 == TakeShifting(old(items), rows).1
      {
        var r := rows[i];
        assert rows[i..][1..] == rows[i + 1..];
        if r < |items| {
          taken := taken + [Some(items[r])];
          items := items[..r] + items[r + 1..];
        } else {
          taken := taken + [None];
        }
        i := i + 1;
      }
      assert rows[i..] == [];
      assert TakeShifting(items, rows[i..]) == (items, []);
      assert taken + [] == taken;
    }

    /** The insert loop: each found item goes in at its row; a missing one inserts nothing. */
    method InsertRows(rows: seq<int>, taken: seq<Option<string>>)
      requires |rows| == |taken|
      modifies this
      ensures items == InsertTaken(old(items), rows, taken)
    {
      var j := 0;
      assert rows[0..] == rows && taken[0..] == taken;
      while j < |rows|
        invariant 0 <= j <= |rows|
        invariant InsertTaken(items, rows[j..], taken[j..]) == InsertTaken(old(items), rows, taken)
      {
        assert rows[j..][1..] == rows[j + 1..] && taken[j..][1..] == taken[j + 1..];
        if taken[j].Some? {
          items := Insert(items, rows[j], taken[j].value);
        }
        j := j + 1;
      }
    }
  }
}

/**
 What an answer is, in terms of the query alone: which rows it holds, in which order, and
 what the window and DISTINCT do to it.
 */
module AnswerLaws {
  import opened Wrappers
  import opened Schema
  import opened Relational

  // ------------------------------------------------------------------------------ contents

  /** Every row of an answer is stored and passes each predicate itself: a custom test, or a
      key column that holds one of the asked integers. */
  lemma EveryRowPasses(st: Store, table: seq<Row>, sel: Sel, r: Row, i: nat)
    requires r in Rows(st, table, sel) && i < |sel.preds|
    ensures r in table
    ensures match sel.preds[i]
            case Custom(test) => test(r)
            case In(c, ids) => c in r && r[c].I? && r[c].i in ids
            case Joins(_) => true
  {
    RowsAreMatching(st, table, sel);
    assert Holds(sel.preds[i], r);
  }

  // The row passes each predicate.
  ghost predicate Qualifies(ps: seq<Pred>, r: Row) {
    && (forall i :: 0 <= i < |ps| && ps[i].Custom? ==> ps[i].test(r))
    && (forall i :: 0 <= i < |ps| && ps[i].In? ==> exists k :: k in ps[i].ids && CellAt(r, ps[i].col) == I(k))
  }

  lemma QualifiesExact(ps: seq<Pred>, r: Row)
    ensures HoldsAll(ps, r) <==> Qualifies(ps, r)
  {
    forall i | 0 <= i < |ps| && ps[i].In?
      ensures Holds(ps[i], r) <==> exists k :: k in ps[i].ids && CellAt(r, ps[i].col) == I(k)
    {
      var cell := CellAt(r, ps[i].col);
      if Holds(ps[i], r) { assert cell == I(cell.i) && cell.i in ps[i].ids; }
    }
    if Qualifies(ps, r) {
      forall i | 0 <= i < |ps| ensures Holds(ps[i], r) {
      }
    }
  }

  /** Without a window and without a traversal an answer holds exactly the stored rows that
      pass. */
  lemma AnswerExactly(st: Store, table: seq<Row>, sel: Sel, r: Row)
    requires sel.Unwindowed() && sel.path.None?
    ensures r in Rows(st, table, sel) <==> r in table && Qualifies(sel.preds, r)
  {
    QualifiesExact(sel.preds, r);
    var kept := Where(sel.preds, table);
    var sorted := Sort(sel.order, kept);
    assert r in sorted <==> r in kept by {
      assert r in multiset(sorted) <==> r in multiset(kept);
    }
  }

  /** A traversal that stays within its table loses no row and keeps its order. */
  lemma {:induction false} WalkIsKept(rows: seq<Row>, table: seq<Row>)
    requires forall r :: r in rows ==> r in table
    ensures Present(rows, table) == rows
  {
    if rows != [] {
      WalkIsKept(rows[1..], table);
      assert rows == [rows[0]] + rows[1..];
    }
  }

  // --------------------------------------------------------------------------------- order

  /** Of two rows of an answer that agree on the first n order options, the one that comes
      first has no larger value of the next option; with one option its values never decrease. */
  lemma AnswerAscends(st: Store, table: seq<Row>, sel: Sel, i: nat, j: nat, n: nat)
    requires i < j < |Rows(st, table, sel)| && n < |sel.order|
    requires forall m :: 0 <= m < n ==>
               sel.order[m](Rows(st, table, sel)[i]) == sel.order[m](Rows(st, table, sel)[j])
    ensures sel.order[n](Rows(st, table, sel)[i]) <= sel.order[n](Rows(st, table, sel)[j])
  {
    RowsAreSorted(st, table, sel);
    var rows := Rows(st, table, sel);
    NotBefore(sel.order, rows[j], rows[i], n);
  }

  lemma {:induction false} NotBefore(keys: seq<Row -> int>, a: Row, b: Row, n: nat)
    requires n < |keys| && !Before(keys, a, b) && forall m :: 0 <= m < n ==> keys[m](a) == keys[m](b)
    ensures keys[n](b) <= keys[n](a)
  {
    if n > 0 {
      assert keys[0](a) == keys[0](b);
      assert forall m :: 0 <= m < n - 1 ==> keys[1..][m] == keys[m + 1];
      NotBefore(keys[1..], a, b, n - 1);
    }
  }

  // No row comes before another.
  ghost predicate Tied(keys: seq<Row -> int>, rows: seq<Row>) {
    forall a, b :: a in rows && b in rows ==> !Before(keys, a, b)
  }

  lemma {:induction false} SortedAlready(keys: seq<Row -> int>, rows: seq<Row>)
    requires Tied(keys, rows)
    ensures Sort(keys, rows) == rows
  {
    if rows != [] {
      SortedAlready(keys, rows[1..]);
      if rows[1..] != [] { assert rows[1] in rows && !Before(keys, rows[1], rows[0]); }
      assert rows == [rows[0]] + rows[1..];
    }
  }

  /** Rows that tie on every order option stay in the order in which they are stored. */
  lemma TiesKeepOrder(keys: seq<Row -> int>, rows: seq<Row>, p: Pred)
    requires Tied(keys, Where([p], rows))
    ensures Where([p], Sort(keys, rows)) == Where([p], rows)
  {
    WhereSort([p], keys, rows);
    SortedAlready(keys, Where([p], rows));
  }

  // --------------------------------------------------------------------- window and DISTINCT

  lemma WindowAt<T>(offset: nat, limit: nat, xs: seq<T>, i: nat)
    ensures i < |Window(offset, limit, xs)| <==> (limit == 0 || i < limit) && offset + i < |xs|
    ensures i < |Window(offset, limit, xs)| ==> Window(offset, limit, xs)[i] == xs[offset + i]
  {
  }

  /** An offset drops that many rows, or all there are, and a limit that is not zero keeps that
      many of the rest. */
  lemma WindowOf(st: Store, table: seq<Row>, sel: Sel, i: nat)
    ensures var all := Rows(st, table, sel.(limit := None, offset := None));
            var rows := Rows(st, table, sel);
            var skip := if sel.offset.Some? then sel.offset.value else 0;
            && (i < |rows| <==> (sel.limit.Some? && sel.limit.value != 0 ==> i < sel.limit.value) && skip + i < |all|)
            && (i < |rows| ==> rows[i] == all[skip + i])
  {
    var all := Rows(st, table, sel.(limit := None, offset := None));
    assert all == Matching(st, table, sel);
    WindowAt(sel.SpecOffset(), sel.SpecLimit(), all, i);
  }

  /** A traversal is distinct unless the builder says otherwise, and a query of a table only
      when the builder says so; otherwise the rows are those that pass, repeats included. */
  lemma DistinctDefault(st: Store, table: seq<Row>, sel: Sel)
    ensures sel.unique == Some(true) || (sel.unique.None? && sel.path.Some?) ==> NoDuplicates(Rows(st, table, sel))
    ensures sel.unique == Some(false) || (sel.unique.None? && sel.path.None?) ==>
              sel.Unwindowed() ==>
              multiset(Rows(st, table, sel)) == multiset(Where(sel.preds, Base(st, table, sel)))
  {
    var sorted := Sort(sel.order, Where(sel.preds, Base(st, table, sel)));
    if sel.Distinct() { assert NoDuplicates(Dedup(sorted)); }
  }
}

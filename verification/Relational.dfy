/**
 The database as the query builders see it: tables of rows, and a selection that
 filters, orders, optionally de-duplicates and windows them.  It replaces the SQL
 text and sqlgraph.QueryNodes.
 */
module Relational {
  import opened Wrappers
  import opened Schema

  datatype Store = Store(
    accounts: seq<Row>,
    groups: seq<Row>,
    proxies: seq<Row>,
    accountGroups: seq<Row>)

  datatype Pred =
    | Custom(test: Row -> bool)
    | In(col: Column, ids: seq<int>)
    // the join with the junction table that loadGroups adds to a group query; it filters
    // no row of the group table by itself
    | Joins(accs: seq<int>)

  // The joins among the predicates, in the order they were added.
  function JoinsOf(ps: seq<Pred>): (res: seq<seq<int>>)
    ensures res == [] <==> forall i :: 0 <= i < |ps| ==> !ps[i].Joins?
  {
    if ps == [] then []
    else
      var n := |ps| - 1;
      assert forall i :: 0 <= i < n ==> ps[..n][i] == ps[i];
      JoinsOf(ps[..n]) + (if ps[n].Joins? then [ps[n].accs] else [])
  }

  // What a query builder holds besides its eager-loading edges.  A path gives the
  // rows of the traversal the query was chained from, repeats included.
  datatype Sel = Sel(
    path: Option<Store -> seq<Row>>,
    preds: seq<Pred>,
    order: seq<Row -> int>,
    fields: seq<Column>,
    limit: Option<nat>,
    offset: Option<nat>,
    unique: Option<bool>)
  {
    function And(p: Pred): Sel {
      this.(preds := preds + [p])
    }

    // AppendFieldOnce, guarded by a non-empty selection
    function Need(c: Column): Sel {
      if fields == [] then this else this.(fields := AddOnce(fields, c))
    }

    // querySpec: an explicit setting wins, otherwise a traversal is distinct.
    predicate Distinct() {
      if unique.Some? then unique.value else path.Some?
    }

    // The integers copied into the spec, whose zero value means "not set".
    function SpecLimit(): nat {
      if limit.Some? then limit.value else 0
    }

    function SpecOffset(): nat {
      if offset.Some? then offset.value else 0
    }

    predicate Unwindowed() {
      SpecLimit() == 0 && SpecOffset() == 0
    }

    // No join was left on it.
    predicate Unjoined() {
      JoinsOf(preds) == []
    }

    // No row can come back twice.
    predicate NoRepeats() {
      path.None? || Distinct()
    }
  }

  // Client.Account.Query()
  const EVERYTHING: Sel := Sel(None, [], [], [], None, None, None)

  function AddOnce(cs: seq<Column>, c: Column): (r: seq<Column>)
    ensures c in r && forall d :: d in r <==> d in cs || d == c
  {
    if c in cs then cs else cs + [c]
  }

  // ---------------------------------------------------------------- selection

  predicate Holds(p: Pred, r: Row) {
    match p
    case Custom(test) => test(r)
    case In(c, ids) => Key(r, c).Some? && Key(r, c).value in ids
    case Joins(_) => true
  }

  predicate HoldsAll(ps: seq<Pred>, r: Row) {
    forall i :: 0 <= i < |ps| ==> Holds(ps[i], r)
  }

  function Where(ps: seq<Pred>, rows: seq<Row>): (res: seq<Row>)
    ensures forall r :: r in res <==> r in rows && HoldsAll(ps, r)
  {
    if rows == [] then []
    else if HoldsAll(ps, rows[0]) then [rows[0]] + Where(ps, rows[1..])
    else Where(ps, rows[1..])
  }

  // Strict lexicographic comparison on the order options.
  predicate Before(keys: seq<Row -> int>, a: Row, b: Row) {
    keys != [] &&
    (keys[0](a) < keys[0](b) || (keys[0](a) == keys[0](b) && Before(keys[1..], a, b)))
  }

  function Insert(keys: seq<Row -> int>, x: Row, rows: seq<Row>): (res: seq<Row>)
    ensures multiset(res) == multiset(rows) + multiset{x}
  {
    if rows == [] || !Before(keys, rows[0], x) then [x] + rows
    else
      assert rows == [rows[0]] + rows[1..];
      [rows[0]] + Insert(keys, x, rows[1..])
  }

  // Stable: rows that tie keep their stored order.
  function Sort(keys: seq<Row -> int>, rows: seq<Row>): (res: seq<Row>)
    ensures multiset(res) == multiset(rows)
  {
    if rows == [] then []
    else
      assert rows == [rows[0]] + rows[1..];
      Insert(keys, rows[0], Sort(keys, rows[1..]))
  }

  // SELECT DISTINCT: the first of equal rows stays.
  function Dedup(rows: seq<Row>): (res: seq<Row>)
    ensures forall r :: r in res <==> r in rows
    ensures forall i, j :: 0 <= i < j < |res| ==> res[i] != res[j]
  {
    if rows == [] then []
    else
      var init := Dedup(rows[..|rows| - 1]);
      if rows[|rows| - 1] in init then init else init + [rows[|rows| - 1]]
  }

  function Window<T>(offset: nat, limit: nat, xs: seq<T>): seq<T> {
    var rest := if offset <= |xs| then xs[offset..] else [];
    if limit == 0 || |rest| <= limit then rest else rest[..limit]
  }

  // A traversal only reaches rows of the table it ends in.
  function Base(st: Store, table: seq<Row>, sel: Sel): seq<Row> {
    match sel.path
    case None => table
    case Some(walk) => Present(walk(st), table)
  }

  function Present(rows: seq<Row>, table: seq<Row>): (res: seq<Row>)
    ensures forall r :: r in res ==> r in table
  {
    if rows == [] then []
    else if rows[0] in table then [rows[0]] + Present(rows[1..], table)
    else Present(rows[1..], table)
  }

  // The matching rows in order, before any window.
  function Matching(st: Store, table: seq<Row>, sel: Sel): (res: seq<Row>) {
    var sorted := Sort(sel.order, Where(sel.preds, Base(st, table, sel)));
    if sel.Distinct() then Dedup(sorted) else sorted
  }

  function Rows(st: Store, table: seq<Row>, sel: Sel): seq<Row> {
    Window(sel.SpecOffset(), sel.SpecLimit(), Matching(st, table, sel))
  }

  // ------------------------------------------------------------ well-formedness

  ghost predicate KeyedBy(rows: seq<Row>, c: Column) {
    && (forall i :: 0 <= i < |rows| ==> Key(rows[i], c).Some?)
    && (forall i, j :: 0 <= i < j < |rows| ==> Key(rows[i], c) != Key(rows[j], c))
  }

  // Primary keys are present and unique; (account_id, group_id) is the key of the
  // junction table.
  ghost predicate WellFormed(st: Store) {
    && KeyedBy(st.accounts, ID)
    && KeyedBy(st.groups, ID)
    && KeyedBy(st.proxies, ID)
    && (forall i :: 0 <= i < |st.accountGroups| ==>
          Key(st.accountGroups[i], AccountID).Some? && Key(st.accountGroups[i], GroupID).Some?)
    && (forall i, j :: 0 <= i < j < |st.accountGroups| ==>
          Key(st.accountGroups[i], AccountID) != Key(st.accountGroups[j], AccountID)
          || Key(st.accountGroups[i], GroupID) != Key(st.accountGroups[j], GroupID))
  }

  // ---------------------------------------------------------------- filter laws

  lemma WhereCons(ps: seq<Pred>, x: Row, rows: seq<Row>)
    ensures Where(ps, [x] + rows) == if HoldsAll(ps, x) then [x] + Where(ps, rows) else Where(ps, rows)
  {
    assert ([x] + rows)[1..] == rows;
  }

  lemma {:induction false} WhereAnd(ps: seq<Pred>, p: Pred, rows: seq<Row>)
    ensures Where(ps + [p], rows) == Where([p], Where(ps, rows))
  {
    if rows != [] {
      WhereAnd(ps, p, rows[1..]);
      var r := rows[0];
      assert HoldsAll(ps + [p], r) <==> HoldsAll(ps, r) && Holds(p, r) by {
        assert (ps + [p])[|ps|] == p;
        forall i | 0 <= i < |ps| ensures (ps + [p])[i] == ps[i] {}
      }
      assert HoldsAll([p], r) <==> Holds(p, r) by { assert [p][0] == p; }
      if HoldsAll(ps, r) {
        assert Where(ps, rows)[1..] == Where(ps, rows[1..]);
      }
    }
  }

  lemma {:induction false} BeforeIsStrictWeak(keys: seq<Row -> int>, a: Row, b: Row, c: Row)
    ensures Before(keys, a, b) ==> !Before(keys, b, a)
    ensures !Before(keys, a, b) && !Before(keys, b, c) ==> !Before(keys, a, c)
  {
    if keys != [] {
      BeforeIsStrictWeak(keys[1..], a, b, c);
    }
  }

  // Each row is not after any later one.
  ghost predicate Sorted(keys: seq<Row -> int>, rows: seq<Row>) {
    forall i, j :: 0 <= i < j < |rows| ==> !Before(keys, rows[j], rows[i])
  }

  lemma {:induction false} InsertKeepsSorted(keys: seq<Row -> int>, x: Row, rows: seq<Row>)
    requires Sorted(keys, rows)
    ensures Sorted(keys, Insert(keys, x, rows))
  {
    if rows == [] {
    } else if !Before(keys, rows[0], x) {
      forall j | 0 <= j < |rows| ensures !Before(keys, rows[j], x) {
        BeforeIsStrictWeak(keys, rows[j], rows[0], x);
        if j > 0 { assert !Before(keys, rows[j], rows[0]); }
      }
    } else {
      InsertKeepsSorted(keys, x, rows[1..]);
      var tail := Insert(keys, x, rows[1..]);
      forall j | 0 <= j < |tail| ensures !Before(keys, tail[j], rows[0]) {
        assert tail[j] in multiset(tail);
        if tail[j] == x {
          BeforeIsStrictWeak(keys, rows[0], x, x);
        } else {
          assert tail[j] in multiset(rows[1..]);
          var k :| 0 <= k < |rows[1..]| && rows[1..][k] == tail[j];
          assert rows[k + 1] == tail[j];
        }
      }
    }
  }

  lemma {:induction false} SortIsSorted(keys: seq<Row -> int>, rows: seq<Row>)
    ensures Sorted(keys, Sort(keys, rows))
  {
    if rows != [] {
      SortIsSorted(keys, rows[1..]);
      InsertKeepsSorted(keys, rows[0], Sort(keys, rows[1..]));
    }
  }

  // A row that may go first in a sorted list may go first in any filtering of it.
  lemma InsertFirst(ps: seq<Pred>, keys: seq<Row -> int>, x: Row, rows: seq<Row>)
    requires Sorted(keys, rows) && (rows == [] || !Before(keys, rows[0], x))
    ensures Insert(keys, x, Where(ps, rows)) == [x] + Where(ps, rows)
  {
    var kept := Where(ps, rows);
    if kept != [] {
      assert kept[0] in rows;
      var k :| 0 <= k < |rows| && rows[k] == kept[0];
      BeforeIsStrictWeak(keys, kept[0], rows[0], x);
      if k > 0 { assert !Before(keys, rows[k], rows[0]); }
    }
  }

  lemma InsertLater(keys: seq<Row -> int>, x: Row, h: Row, rows: seq<Row>)
    requires Before(keys, h, x)
    ensures Insert(keys, x, [h] + rows) == [h] + Insert(keys, x, rows)
  {
    assert ([h] + rows)[1..] == rows;
  }

  lemma {:induction false} WhereInsert(ps: seq<Pred>, keys: seq<Row -> int>, x: Row, rows: seq<Row>)
    requires Sorted(keys, rows)
    ensures Where(ps, Insert(keys, x, rows))
         == if HoldsAll(ps, x) then Insert(keys, x, Where(ps, rows)) else Where(ps, rows)
    decreases |rows|
  {
    if rows == [] || !Before(keys, rows[0], x) {
      WhereCons(ps, x, rows);
      InsertFirst(ps, keys, x, rows);
    } else {
      var h, tail := rows[0], rows[1..];
      assert rows == [h] + tail;
      WhereInsert(ps, keys, x, tail);
      InsertLater(keys, x, h, tail);
      WhereCons(ps, h, tail);
      WhereCons(ps, h, Insert(keys, x, tail));
      InsertLater(keys, x, h, Where(ps, tail));
    }
  }

  lemma {:induction false} WhereSort(ps: seq<Pred>, keys: seq<Row -> int>, rows: seq<Row>)
    ensures Where(ps, Sort(keys, rows)) == Sort(keys, Where(ps, rows))
  {
    if rows != [] {
      WhereSort(ps, keys, rows[1..]);
      SortIsSorted(keys, rows[1..]);
      WhereInsert(ps, keys, rows[0], Sort(keys, rows[1..]));
      if HoldsAll(ps, rows[0]) {
        var kept := Where(ps, rows);
        assert kept[0] == rows[0] && kept[1..] == Where(ps, rows[1..]);
      }
    }
  }

  lemma ConsAssociates(x: Row, a: seq<Row>, b: seq<Row>)
    ensures ([x] + a) + b == [x] + (a + b)
  {
  }

  lemma {:induction false} WhereConcat(ps: seq<Pred>, a: seq<Row>, b: seq<Row>)
    ensures Where(ps, a + b) == Where(ps, a) + Where(ps, b)
  {
    if a == [] {
      assert a + b == b;
    } else {
      var x, tail := a[0], a[1..];
      WhereConcat(ps, tail, b);
      assert a + b == [x] + (tail + b) && a == [x] + tail;
      WhereCons(ps, x, tail + b);
      WhereCons(ps, x, tail);
      ConsAssociates(x, Where(ps, tail), Where(ps, b));
    }
  }

  lemma WhereSnoc(ps: seq<Pred>, rows: seq<Row>, x: Row)
    ensures Where(ps, rows + [x]) == if HoldsAll(ps, x) then Where(ps, rows) + [x] else Where(ps, rows)
  {
    WhereConcat(ps, rows, [x]);
    WhereCons(ps, x, []);
  }

  lemma DedupSnoc(rows: seq<Row>, x: Row)
    ensures Dedup(rows + [x]) == if x in rows then Dedup(rows) else Dedup(rows) + [x]
  {
    assert (rows + [x])[..|rows|] == rows;
  }

  lemma {:induction false} WhereDedup(ps: seq<Pred>, rows: seq<Row>)
    ensures Where(ps, Dedup(rows)) == Dedup(Where(ps, rows))
  {
    if rows != [] {
      var init, x := rows[..|rows| - 1], rows[|rows| - 1];
      assert rows == init + [x];
      WhereDedup(ps, init);
      WhereSnoc(ps, init, x);
      DedupSnoc(init, x);
      WhereSnoc(ps, Dedup(init), x);
      DedupSnoc(Where(ps, init), x);
    }
  }

  /** One more condition on an unwindowed selection filters its answer: the key fact
      behind batching, since asking for many keys and then splitting by key is the
      same as asking key by key. */
  lemma AndFiltersRows(st: Store, table: seq<Row>, sel: Sel, p: Pred)
    requires sel.Unwindowed()
    ensures Rows(st, table, sel.And(p)) == Where([p], Rows(st, table, sel))
  {
    var base := Base(st, table, sel);
    WhereAnd(sel.preds, p, base);
    WhereSort([p], sel.order, Where(sel.preds, base));
    WhereDedup([p], Sort(sel.order, Where(sel.preds, base)));
  }

  // Every answer comes from the table and satisfies the predicates.
  lemma RowsAreMatching(st: Store, table: seq<Row>, sel: Sel)
    ensures forall r :: r in Rows(st, table, sel) ==> r in table && HoldsAll(sel.preds, r)
  {
    var base := Base(st, table, sel);
    var kept := Where(sel.preds, base);
    var sorted := Sort(sel.order, kept);
    forall r | r in Rows(st, table, sel) ensures r in table && HoldsAll(sel.preds, r) {
      assert r in Matching(st, table, sel);
      assert r in sorted;
      assert r in multiset(sorted);
      assert r in multiset(kept);
      assert r in kept;
    }
  }

  // ------------------------------------------------------------ distinct answers

  ghost predicate NoDuplicates(rows: seq<Row>) {
    forall i, j :: 0 <= i < j < |rows| ==> rows[i] != rows[j]
  }

  lemma {:induction false} WhereKeepsDistinct(ps: seq<Pred>, rows: seq<Row>)
    requires NoDuplicates(rows)
    ensures NoDuplicates(Where(ps, rows))
  {
    if rows != [] {
      WhereKeepsDistinct(ps, rows[1..]);
      assert forall r :: r in rows[1..] ==> r != rows[0];
    }
  }

  lemma {:induction false} DistinctByCount(rows: seq<Row>)
    ensures NoDuplicates(rows) <==> forall r :: multiset(rows)[r] <= 1
  {
    if rows != [] {
      assert rows == [rows[0]] + rows[1..];
      DistinctByCount(rows[1..]);
      if NoDuplicates(rows) {
        assert forall r :: r in rows[1..] ==> r != rows[0];
        assert rows[0] !in rows[1..];
        assert rows[0] !in multiset(rows[1..]);
      }
      if forall r :: multiset(rows)[r] <= 1 {
        assert multiset(rows)[rows[0]] == 1 + multiset(rows[1..])[rows[0]];
        assert rows[0] !in multiset(rows[1..]);
        forall r ensures multiset(rows[1..])[r] <= 1 { assert multiset(rows)[r] <= 1; }
        assert NoDuplicates(rows[1..]);
        forall i, j | 0 <= i < j < |rows| ensures rows[i] != rows[j] {
          assert rows[j] == rows[1..][j - 1];
          if i > 0 { assert rows[i] == rows[1..][i - 1]; }
          assert rows[j] in multiset(rows[1..]);
        }
      }
    }
  }

  // Over a keyed table, an answer without repeats has distinct keys.
  lemma RowsAreKeyed(st: Store, table: seq<Row>, sel: Sel)
    requires KeyedBy(table, ID) && sel.NoRepeats()
    ensures KeyedBy(Rows(st, table, sel), ID)
  {
    var base := Base(st, table, sel);
    var kept := Where(sel.preds, base);
    var sorted := Sort(sel.order, kept);
    if sel.path.None? {
      assert NoDuplicates(table);
      WhereKeepsDistinct(sel.preds, table);
      DistinctByCount(kept);
      DistinctByCount(sorted);
    }
    var all := Matching(st, table, sel);
    assert NoDuplicates(all);
    var res := Rows(st, table, sel);
    RowsAreMatching(st, table, sel);
    assert NoDuplicates(res);
    forall i | 0 <= i < |res| ensures Key(res[i], ID).Some? {
      assert res[i] in table;
    }
    forall i, j | 0 <= i < j < |res| ensures Key(res[i], ID) != Key(res[j], ID) {
      assert res[i] in table && res[j] in table && res[i] != res[j];
    }
  }

  lemma {:induction false} DedupKeepsSorted(keys: seq<Row -> int>, rows: seq<Row>)
    requires Sorted(keys, rows)
    ensures Sorted(keys, Dedup(rows))
  {
    if rows != [] {
      var n := |rows| - 1;
      var init := Dedup(rows[..n]);
      DedupKeepsSorted(keys, rows[..n]);
      forall j | 0 <= j < |init| ensures !Before(keys, rows[n], init[j]) {
        assert init[j] in rows[..n];
        var k :| 0 <= k < n && rows[..n][k] == init[j];
        assert !Before(keys, rows[n], rows[k]);
      }
    }
  }

  /** Every answer is in the order of the query, DISTINCT and windows included. */
  lemma RowsAreSorted(st: Store, table: seq<Row>, sel: Sel)
    ensures Sorted(sel.order, Rows(st, table, sel))
  {
    var kept := Where(sel.preds, Base(st, table, sel));
    SortIsSorted(sel.order, kept);
    DedupKeepsSorted(sel.order, Sort(sel.order, kept));
  }
}

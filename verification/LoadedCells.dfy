/**
 The same for the objects of a run: what the fields of a returned entity, and of everything
 hung on its edges, have to do with the stored rows.
 */
module LoadedCells {
  import opened Wrappers
  import opened Schema
  import opened Relational
  import opened EagerSpec
  import opened EagerCells
  import opened QueryGraph

  // The entity shows the selected cells of the stored row, and each object on any of its
  // edges, at every depth, those of some row of the table the edge leads to.
  ghost predicate Entity(n: Account, st: Store, stored: Row, sel: Sel, e: Edges, s: set<object>)
    reads s
    decreases e, 1
  {
    && n in s
    && Cells(n.fields, stored, AccountColumnsShown(sel, e))
    && (n.edges.groups != [] ==> e.groups.Some?)
    && (forall k :: 0 <= k < |n.edges.groups| ==>
          CellsOfSome(n.edges.groups[k].fields, st.groups, LeafColumnsShown(e.groups.value)))
    && (n.edges.proxy.Some? ==>
          e.proxy.Some? && CellsOfSome(n.edges.proxy.value.fields, st.proxies, LeafColumnsShown(e.proxy.value)))
    && (n.edges.parent.Some? ==>
          e.parent.Some? && SomeEntity(n.edges.parent.value, st, e.parent.value.sel, e.parent.value.edges, s))
    && (n.edges.children != [] ==> e.children.Some?)
    && (forall k :: 0 <= k < |n.edges.children| ==>
          SomeEntity(n.edges.children[k], st, e.children.value.sel.Need(ParentAccountID), e.children.value.edges, s))
    && (n.edges.accountGroups != [] ==> e.accountGroups.Some?)
    && (forall k :: 0 <= k < |n.edges.accountGroups| ==>
          SomePair(n.edges.accountGroups[k], st, e.accountGroups.value.sel.Need(AccountID),
                   e.accountGroups.value.edges, s))
  }

  ghost predicate SomeEntity(n: Account, st: Store, sel: Sel, e: Edges, s: set<object>)
    reads s
    decreases e, 2
  {
    exists i :: 0 <= i < |st.accounts| && Entity(n, st, st.accounts[i], sel, e, s)
  }

  ghost predicate PairEntity(n: AccountGroup, st: Store, stored: Row, sel: Sel, e: JunctionEdges, s: set<object>)
    reads s
    decreases e, 1
  {
    && n in s
    && Cells(n.fields, stored, PairColumnsShown(sel, e))
    && (n.edges.account.Some? ==>
          e.account.Some? && SomeEntity(n.edges.account.value, st, e.account.value.sel, e.account.value.edges, s))
    && (n.edges.group.Some? ==>
          e.group.Some? && CellsOfSome(n.edges.group.value.fields, st.groups, LeafColumnsShown(e.group.value)))
  }

  ghost predicate SomePair(n: AccountGroup, st: Store, sel: Sel, e: JunctionEdges, s: set<object>)
    reads s
    decreases e, 2
  {
    exists i :: 0 <= i < |st.accountGroups| && PairEntity(n, st, st.accountGroups[i], sel, e, s)
  }

  lemma SomeShown(n: Account, t: Tree, st: Store, sel: Sel, e: Edges, s: set<object>)
    requires Shows(n, t, s) && GraphOfSome(st, t, sel, e)
    ensures SomeEntity(n, st, sel, e, s)
    decreases e, 4
  {
    var i :| 0 <= i < |st.accounts| && GraphOf(st, t, st.accounts[i], sel, e);
    Shown(n, t, st, st.accounts[i], sel, e, s);
  }

  lemma SomePairShown(n: AccountGroup, t: JunctionTree, st: Store, sel: Sel, e: JunctionEdges, s: set<object>)
    requires ShowsJunction(n, t, s) && PairOfSome(st, t, sel, e)
    ensures SomePair(n, st, sel, e, s)
    decreases e, 4
  {
    var i :| 0 <= i < |st.accountGroups| && PairGraphOf(st, t, st.accountGroups[i], sel, e);
    PairShown(n, t, st, st.accountGroups[i], sel, e, s);
  }

  lemma LeavesShown(n: Account, t: Tree, st: Store, stored: Row, sel: Sel, e: Edges, s: set<object>)
    requires Shows(n, t, s) && GraphOf(st, t, stored, sel, e)
    ensures n.edges.groups != [] ==> e.groups.Some?
    ensures forall k :: 0 <= k < |n.edges.groups| ==>
              CellsOfSome(n.edges.groups[k].fields, st.groups, LeafColumnsShown(e.groups.value))
    ensures n.edges.proxy.Some? ==>
              e.proxy.Some? && CellsOfSome(n.edges.proxy.value.fields, st.proxies, LeafColumnsShown(e.proxy.value))
  {
    forall k | 0 <= k < |n.edges.groups|
      ensures CellsOfSome(n.edges.groups[k].fields, st.groups, LeafColumnsShown(e.groups.value))
    {
      assert RowsOf(n.edges.groups)[k] == t.groups[k];
    }
  }

  lemma ChildrenShown(n: Account, t: Tree, st: Store, stored: Row, sel: Sel, e: Edges, s: set<object>)
    requires Shows(n, t, s) && GraphOf(st, t, stored, sel, e)
    ensures n.edges.children != [] ==> e.children.Some?
    ensures forall k :: 0 <= k < |n.edges.children| ==>
              SomeEntity(n.edges.children[k], st, e.children.value.sel.Need(ParentAccountID), e.children.value.edges, s)
    decreases e, 0
  {
    if e.children.Some? {
      var plan := e.children.value;
      forall k | 0 <= k < |n.edges.children|
        ensures SomeEntity(n.edges.children[k], st, plan.sel.Need(ParentAccountID), plan.edges, s)
      {
        SomeShown(n.edges.children[k], t.children[k], st, plan.sel.Need(ParentAccountID), plan.edges, s);
      }
    }
  }

  lemma PairsShown(n: Account, t: Tree, st: Store, stored: Row, sel: Sel, e: Edges, s: set<object>)
    requires Shows(n, t, s) && GraphOf(st, t, stored, sel, e)
    ensures n.edges.accountGroups != [] ==> e.accountGroups.Some?
    ensures forall k :: 0 <= k < |n.edges.accountGroups| ==>
              SomePair(n.edges.accountGroups[k], st, e.accountGroups.value.sel.Need(AccountID),
                       e.accountGroups.value.edges, s)
    decreases e, 0
  {
    if e.accountGroups.Some? {
      var plan := e.accountGroups.value;
      forall k | 0 <= k < |n.edges.accountGroups|
        ensures SomePair(n.edges.accountGroups[k], st, plan.sel.Need(AccountID), plan.edges, s)
      {
        SomePairShown(n.edges.accountGroups[k], t.accountGroups[k], st, plan.sel.Need(AccountID), plan.edges, s);
      }
    }
  }

  lemma {:induction false} Shown(n: Account, t: Tree, st: Store, stored: Row, sel: Sel, e: Edges, s: set<object>)
    requires Shows(n, t, s) && GraphOf(st, t, stored, sel, e)
    ensures Entity(n, st, stored, sel, e, s)
    decreases e, 3
  {
    LeavesShown(n, t, st, stored, sel, e, s);
    if t.parent.Some? {
      SomeShown(n.edges.parent.value, t.parent.value, st, e.parent.value.sel, e.parent.value.edges, s);
    }
    ChildrenShown(n, t, st, stored, sel, e, s);
    PairsShown(n, t, st, stored, sel, e, s);
  }

  lemma {:induction false} PairShown(
      n: AccountGroup, t: JunctionTree, st: Store, stored: Row, sel: Sel, e: JunctionEdges, s: set<object>)
    requires ShowsJunction(n, t, s) && PairGraphOf(st, t, stored, sel, e)
    ensures PairEntity(n, st, stored, sel, e, s)
    decreases e, 3
  {
    if t.account.Some? {
      SomeShown(n.edges.account.value, t.account.value, st, e.account.value.sel, e.account.value.edges, s);
    }
  }

  // One entity for each row of the answer, in order.
  ghost predicate Entities(ns: seq<Account>, st: Store, sel: Sel, e: Edges, s: set<object>)
    reads s
  {
    var rows := Rows(st, st.accounts, sel);
    |ns| == |rows| && forall i :: 0 <= i < |ns| ==> Entity(ns[i], st, rows[i], sel, e, s)
  }

  /** The objects that a run returns: the i-th one shows of the i-th row of the answer exactly
      the selected columns, as stored, and all that hangs on its edges does likewise. */
  lemma AllShown(ns: seq<Account>, st: Store, sel: Sel, e: Edges, s: set<object>)
    requires ShowsAll(ns, Run(st, sel, e), s)
    ensures Entities(ns, st, sel, e, s)
    ensures forall i, c :: 0 <= i < |ns| ==>
              CellAt(ns[i].fields, c)
              == if AccountShows(sel, e, c) then CellAt(Rows(st, st.accounts, sel)[i], c) else Null
  {
    var rows := Rows(st, st.accounts, sel);
    forall i | 0 <= i < |rows| ensures Entity(ns[i], st, rows[i], sel, e, s) {
      RunCells(st, sel, e, i);
      Shown(ns[i], Run(st, sel, e)[i], st, rows[i], sel, e, s);
    }
    forall i, c | 0 <= i < |ns|
      ensures CellAt(ns[i].fields, c) == if AccountShows(sel, e, c) then CellAt(rows[i], c) else Null
    {
      assert Cells(ns[i].fields, rows[i], AccountColumnsShown(sel, e));
    }
  }

  lemma AllJunctionShown(ns: seq<AccountGroup>, st: Store, sel: Sel, e: JunctionEdges, s: set<object>)
    requires ShowsAllJunction(ns, RunJunction(st, sel, e), s)
    ensures |ns| == |Rows(st, st.accountGroups, sel)|
    ensures forall i :: 0 <= i < |ns| ==> PairEntity(ns[i], st, Rows(st, st.accountGroups, sel)[i], sel, e, s)
  {
    var rows := Rows(st, st.accountGroups, sel);
    forall i | 0 <= i < |rows| ensures PairEntity(ns[i], st, rows[i], sel, e, s) {
      RunJunctionCells(st, sel, e, i);
      PairShown(ns[i], RunJunction(st, sel, e)[i], st, rows[i], sel, e, s);
    }
  }
}

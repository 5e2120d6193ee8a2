/**
 What the loaded entities show: of every selected column the stored cell, whatever its type,
 and nothing of any other column, at every depth of the graph.
 */
module EagerCells {
  import opened Wrappers
  import opened Schema
  import opened Relational
  import opened EagerSpec
  import opened EagerLaws

  // ---------------------------------------------------------------- selected columns

  // No field list selects everything; otherwise the ID comes along, and so do the foreign
  // keys that the edge queries follow.
  predicate AccountShows(sel: Sel, e: Edges, c: Column) {
    || sel.fields == [] || c in sel.fields || c == ID
    || (c == ProxyID && e.proxy.Some?) || (c == ParentAccountID && e.parent.Some?)
  }

  predicate LeafShows(sel: Sel, c: Column) {
    sel.fields == [] || c in sel.fields || c == ID
  }

  predicate PairShows(sel: Sel, e: JunctionEdges, c: Column) {
    || sel.fields == [] || c in sel.fields
    || (c == AccountID && e.account.Some?) || (c == GroupID && e.group.Some?)
  }

  // The node shows exactly those cells of the stored row.
  ghost predicate Cells(node: Row, stored: Row, shows: Column -> bool) {
    forall c :: CellAt(node, c) == if shows(c) then CellAt(stored, c) else Null
  }

  ghost predicate CellsOfSome(node: Row, table: seq<Row>, shows: Column -> bool) {
    exists i :: 0 <= i < |table| && Cells(node, table[i], shows)
  }

  function AccountColumnsShown(sel: Sel, e: Edges): Column -> bool {
    (c: Column) => AccountShows(sel, e, c)
  }

  function LeafColumnsShown(sel: Sel): Column -> bool {
    (c: Column) => LeafShows(sel, c)
  }

  function PairColumnsShown(sel: Sel, e: JunctionEdges): Column -> bool {
    (c: Column) => PairShows(sel, e, c)
  }

  lemma AccountCells(sel: Sel, e: Edges, r: Row)
    ensures Cells(ReadRow(AccountColumns(sel, e), r), r, AccountColumnsShown(sel, e))
  {
  }

  lemma LeafCells(sel: Sel, r: Row)
    ensures Cells(ReadRow(LeafColumns(sel), r), r, LeafColumnsShown(sel))
  {
  }

  lemma PairCells(sel: Sel, e: JunctionEdges, r: Row)
    ensures Cells(ReadRow(JunctionColumns(sel, e), r), r, PairColumnsShown(sel, e))
  {
  }

  // -------------------------------------------------------------------- whole graphs

  // A graph over a stored row: each node on any edge shows the selected cells of some row of
  // the table its edge leads to.
  ghost predicate GraphOf(st: Store, t: Tree, stored: Row, sel: Sel, e: Edges)
    decreases e, 1
  {
    && Cells(t.fields, stored, AccountColumnsShown(sel, e))
    && (t.groups != [] ==> e.groups.Some?)
    && (forall i :: 0 <= i < |t.groups| ==> CellsOfSome(t.groups[i], st.groups, LeafColumnsShown(e.groups.value)))
    && (t.proxy.Some? ==> e.proxy.Some? && CellsOfSome(t.proxy.value, st.proxies, LeafColumnsShown(e.proxy.value)))
    && (t.parent.Some? ==>
          e.parent.Some? && GraphOfSome(st, t.parent.value, e.parent.value.sel, e.parent.value.edges))
    && (t.children != [] ==> e.children.Some?)
    && (forall i :: 0 <= i < |t.children| ==>
          GraphOfSome(st, t.children[i], e.children.value.sel.Need(ParentAccountID), e.children.value.edges))
    && (t.accountGroups != [] ==> e.accountGroups.Some?)
    && (forall i :: 0 <= i < |t.accountGroups| ==>
          PairOfSome(st, t.accountGroups[i], e.accountGroups.value.sel.Need(AccountID), e.accountGroups.value.edges))
  }

  ghost predicate GraphOfSome(st: Store, t: Tree, sel: Sel, e: Edges)
    decreases e, 2
  {
    exists i :: 0 <= i < |st.accounts| && GraphOf(st, t, st.accounts[i], sel, e)
  }

  ghost predicate PairGraphOf(st: Store, t: JunctionTree, stored: Row, sel: Sel, e: JunctionEdges)
    decreases e, 1
  {
    && Cells(t.fields, stored, PairColumnsShown(sel, e))
    && (t.account.Some? ==>
          e.account.Some? && GraphOfSome(st, t.account.value, e.account.value.sel, e.account.value.edges))
    && (t.group.Some? ==> e.group.Some? && CellsOfSome(t.group.value, st.groups, LeafColumnsShown(e.group.value)))
  }

  ghost predicate PairOfSome(st: Store, t: JunctionTree, sel: Sel, e: JunctionEdges)
    decreases e, 2
  {
    exists i :: 0 <= i < |st.accountGroups| && PairGraphOf(st, t, st.accountGroups[i], sel, e)
  }

  // -------------------------------------------------------------------------- leaves

  lemma SomeRow(node: Row, table: seq<Row>, r: Row, shows: Column -> bool)
    requires r in table && Cells(node, r, shows)
    ensures CellsOfSome(node, table, shows)
  {
    var i :| 0 <= i < |table| && table[i] == r;
  }

  lemma LeafAnswerCells(st: Store, table: seq<Row>, sel: Sel, i: nat)
    requires i < |FetchLeaf(st, table, sel)|
    ensures CellsOfSome(FetchLeaf(st, table, sel)[i], table, LeafColumnsShown(sel))
  {
    var r := Rows(st, table, sel)[i];
    RowsAreMatching(st, table, sel);
    LeafCells(sel, r);
    SomeRow(FetchLeaf(st, table, sel)[i], table, r, LeafColumnsShown(sel));
  }

  lemma {:induction false} JoinedAreGroups(groups: seq<Row>, junction: seq<Row>, accs: seq<int>)
    ensures forall l :: l in JoinRows(groups, junction, accs) ==> l.group in groups
  {
    if groups != [] { JoinedAreGroups(groups[..|groups| - 1], junction, accs); }
  }

  lemma {:induction false} FirstsAreJoined(links: seq<Link>)
    ensures forall g :: g in Firsts(links) ==> exists l :: l in links && l.group == g
  {
    if links != [] {
      var n := |links| - 1;
      FirstsAreJoined(links[..n]);
      FirstsSnoc(links[..n], links[n]);
      assert links == links[..n] + [links[n]];
    }
  }

  lemma ReadGroupsAreStored(st: Store, sel: Sel, accs: seq<int>)
    ensures forall g :: g in Firsts(ReadLinks(st, sel, accs)) ==> g in st.groups
  {
    var sorted := Sort(sel.order, Where(sel.preds, Base(st, st.groups, sel)));
    var links := ReadLinks(st, sel, accs);
    JoinedAreGroups(sorted, st.accountGroups, accs);
    FirstsAreJoined(links);
    forall g | g in Firsts(links) ensures g in st.groups {
      var l :| l in links && l.group == g;
      assert l in JoinRows(sorted, st.accountGroups, accs);
      assert g in multiset(sorted);
    }
  }

  lemma NoGroups(st: Store, nodes: seq<Row>, e: Edges, i: nat)
    requires i < |nodes| && e.groups.None?
    ensures GroupsEdge(st, nodes, e, i) == []
  {
    var acc := Ids(nodes)[i];
    assert LinkMarks([], acc, Ids([])) == [] && Trues([]) == [];
    assert GroupsOf([], [], acc) == [];
  }

  lemma GroupsCells(st: Store, nodes: seq<Row>, e: Edges, i: nat)
    requires i < |nodes|
    ensures GroupsEdge(st, nodes, e, i) != [] ==> e.groups.Some?
    ensures forall k :: 0 <= k < |GroupsEdge(st, nodes, e, i)| ==>
              CellsOfSome(GroupsEdge(st, nodes, e, i)[k], st.groups, LeafColumnsShown(e.groups.value))
  {
    var got := GroupsEdge(st, nodes, e, i);
    if e.groups.Some? {
      var sel := e.groups.value;
      var firsts := Firsts(ReadLinks(st, sel, Ids(nodes)));
      ReadGroupsAreStored(st, sel, Ids(nodes));
      forall k | 0 <= k < |got| ensures CellsOfSome(got[k], st.groups, LeafColumnsShown(sel)) {
        var at := Trues(LinkMarks(NodeLinks(st, nodes, e), Ids(nodes)[i], Ids(GroupNeighbors(st, nodes, e))));
        var r := firsts[at[k]];
        LeafCells(sel, r);
        SomeRow(got[k], st.groups, r, LeafColumnsShown(sel));
      }
    } else {
      NoGroups(st, nodes, e, i);
    }
  }

  lemma ProxyCells(st: Store, nodes: seq<Row>, e: Edges, i: nat)
    requires i < |nodes| && ProxyEdge(st, nodes, e, i).Some?
    ensures e.proxy.Some?
    ensures CellsOfSome(ProxyEdge(st, nodes, e, i).value, st.proxies, LeafColumnsShown(e.proxy.value))
  {
    var got := ProxyNeighbors(st, nodes, e);
    var k := LastWith(Ids(got), Key(nodes[i], ProxyID).value);
    LeafAnswerCells(st, st.proxies, ProxySel(nodes, e.proxy.value), k);
  }

  lemma MemberCells(st: Store, nodes: seq<Row>, e: JunctionEdges, i: nat)
    requires i < |nodes| && MemberEdge(st, nodes, e, i).Some?
    ensures e.group.Some?
    ensures CellsOfSome(MemberEdge(st, nodes, e, i).value, st.groups, LeafColumnsShown(e.group.value))
  {
    var got := MemberNeighbors(st, nodes, e);
    var k := LastWith(Ids(got), KeyOrZero(nodes[i], GroupID));
    LeafAnswerCells(st, st.groups, MemberSel(nodes, e.group.value), k);
  }

  // --------------------------------------------------------------- edges with edges below

  // Only the field list of a selection decides what is shown.
  lemma SameFields(st: Store, t: Tree, stored: Row, sel: Sel, other: Sel, e: Edges)
    requires GraphOf(st, t, stored, sel, e) && sel.fields == other.fields
    ensures GraphOf(st, t, stored, other, e)
  {
  }

  lemma SameJunctionFields(st: Store, t: JunctionTree, stored: Row, sel: Sel, other: Sel, e: JunctionEdges)
    requires PairGraphOf(st, t, stored, sel, e) && sel.fields == other.fields
    ensures PairGraphOf(st, t, stored, other, e)
  {
  }

  // One graph of an answer, seen with the selection the edge query was built with.
  lemma AnsweredGraph(st: Store, asked: Sel, sel: Sel, e: Edges, j: nat)
    requires j < |Run(st, asked, e)| && asked.fields == sel.fields
    ensures GraphOfSome(st, Run(st, asked, e)[j], sel, e)
    decreases e, 4
  {
    RunCells(st, asked, e, j);
    var rows := Rows(st, st.accounts, asked);
    RowsAreMatching(st, st.accounts, asked);
    SameFields(st, Run(st, asked, e)[j], rows[j], asked, sel, e);
    assert rows[j] in st.accounts;
    var k :| 0 <= k < |st.accounts| && st.accounts[k] == rows[j];
  }

  lemma AnsweredPair(st: Store, asked: Sel, sel: Sel, e: JunctionEdges, j: nat)
    requires j < |RunJunction(st, asked, e)| && asked.fields == sel.fields
    ensures PairOfSome(st, RunJunction(st, asked, e)[j], sel, e)
    decreases e, 4
  {
    RunJunctionCells(st, asked, e, j);
    var rows := Rows(st, st.accountGroups, asked);
    RowsAreMatching(st, st.accountGroups, asked);
    SameJunctionFields(st, RunJunction(st, asked, e)[j], rows[j], asked, sel, e);
    assert rows[j] in st.accountGroups;
    var k :| 0 <= k < |st.accountGroups| && st.accountGroups[k] == rows[j];
  }

  lemma ParentCells(st: Store, nodes: seq<Row>, e: Edges, i: nat)
    requires i < |nodes| && ParentEdge(st, nodes, e, i).Some?
    ensures e.parent.Some?
    ensures GraphOfSome(st, ParentEdge(st, nodes, e, i).value, e.parent.value.sel, e.parent.value.edges)
    decreases e, 0
  {
    var got := ParentNeighbors(st, nodes, e);
    var k := LastWith(Ids(TreeRows(got)), Key(nodes[i], ParentAccountID).value);
    var plan := e.parent.value;
    AnsweredGraph(st, ParentSel(nodes, plan.sel), plan.sel, plan.edges, k);
  }

  lemma ChildrenCells(st: Store, nodes: seq<Row>, e: Edges, i: nat, k: nat)
    requires i < |nodes| && k < |ChildrenEdge(st, nodes, e, i)|
    ensures e.children.Some?
    ensures var plan := e.children.value;
            GraphOfSome(st, ChildrenEdge(st, nodes, e, i)[k], plan.sel.Need(ParentAccountID), plan.edges)
    decreases e, 0
  {
    var got := ChildNeighbors(st, nodes, e);
    var at := Trues(Marks(KeyList(TreeRows(got), ParentAccountID), Ids(nodes)[i]));
    var plan := e.children.value;
    AnsweredGraph(st, ChildrenSel(nodes, plan.sel), plan.sel.Need(ParentAccountID), plan.edges, at[k]);
  }

  lemma AccountGroupsCells(st: Store, nodes: seq<Row>, e: Edges, i: nat, k: nat)
    requires i < |nodes| && k < |AccountGroupsEdge(st, nodes, e, i)|
    ensures e.accountGroups.Some?
    ensures var plan := e.accountGroups.value;
            PairOfSome(st, AccountGroupsEdge(st, nodes, e, i)[k], plan.sel.Need(AccountID), plan.edges)
    decreases e, 0
  {
    var got := JunctionNeighbors(st, nodes, e);
    var at := Trues(Marks(JunctionKeys(JunctionRows(got), AccountID), Ids(nodes)[i]));
    var plan := e.accountGroups.value;
    AnsweredPair(st, AccountGroupsSel(nodes, plan.sel), plan.sel.Need(AccountID), plan.edges, at[k]);
  }

  lemma OwnerCells(st: Store, nodes: seq<Row>, e: JunctionEdges, i: nat)
    requires i < |nodes| && OwnerEdge(st, nodes, e, i).Some?
    ensures e.account.Some?
    ensures GraphOfSome(st, OwnerEdge(st, nodes, e, i).value, e.account.value.sel, e.account.value.edges)
    decreases e, 0
  {
    var got := OwnerNeighbors(st, nodes, e);
    var k := LastWith(Ids(TreeRows(got)), KeyOrZero(nodes[i], AccountID));
    var plan := e.account.value;
    AnsweredGraph(st, OwnerSel(nodes, plan.sel), plan.sel, plan.edges, k);
  }

  /** Loading shows what is stored: the i-th graph of a run shows of the i-th row of the
      answer, and every node below it of some row of the table its edge leads to, each
      selected column as it is stored, text, times, floats, flags and JSON included, and no
      other column.  Any store, any plan, windows or not. */
  lemma {:induction false} RunCells(st: Store, sel: Sel, e: Edges, i: nat)
    requires i < |Rows(st, st.accounts, sel)|
    ensures |Run(st, sel, e)| == |Rows(st, st.accounts, sel)|
    ensures GraphOf(st, Run(st, sel, e)[i], Rows(st, st.accounts, sel)[i], sel, e)
    decreases e, 3
  {
    var nodes := Fetch(st, sel, e);
    AccountCells(sel, e, Rows(st, st.accounts, sel)[i]);
    AttachedCells(st, nodes, e, i, Rows(st, st.accounts, sel)[i], sel);
  }

  lemma Attached(st: Store, nodes: seq<Row>, e: Edges, i: nat)
    requires i < |nodes|
    ensures Attach(st, nodes, e)[i]
         == Tree(nodes[i], LoadedTypes(e), GroupsEdge(st, nodes, e, i), ProxyEdge(st, nodes, e, i),
                 ParentEdge(st, nodes, e, i), ChildrenEdge(st, nodes, e, i), AccountGroupsEdge(st, nodes, e, i))
  {
  }

  lemma AttachedCells(st: Store, nodes: seq<Row>, e: Edges, i: nat, stored: Row, sel: Sel)
    requires i < |nodes| && Cells(nodes[i], stored, AccountColumnsShown(sel, e))
    ensures GraphOf(st, Attach(st, nodes, e)[i], stored, sel, e)
    decreases e, 2
  {
    Attached(st, nodes, e, i);
    GroupsCells(st, nodes, e, i);
    if ProxyEdge(st, nodes, e, i).Some? { ProxyCells(st, nodes, e, i); }
    if ParentEdge(st, nodes, e, i).Some? { ParentCells(st, nodes, e, i); }
    ChildrenAll(st, nodes, e, i);
    AccountGroupsAll(st, nodes, e, i);
  }

  lemma NoChildren(st: Store, nodes: seq<Row>, e: Edges, i: nat)
    requires i < |nodes| && e.children.None?
    ensures ChildrenEdge(st, nodes, e, i) == []
  {
    assert KeyList(TreeRows([]), ParentAccountID) == [];
    assert Marks([], Ids(nodes)[i]) == [] && Trues([]) == [];
    assert HaveKey<Tree>([], [], Ids(nodes)[i]) == [];
  }

  lemma NoAccountGroups(st: Store, nodes: seq<Row>, e: Edges, i: nat)
    requires i < |nodes| && e.accountGroups.None?
    ensures AccountGroupsEdge(st, nodes, e, i) == []
  {
    assert JunctionKeys(JunctionRows([]), AccountID) == [];
    assert Marks([], Ids(nodes)[i]) == [] && Trues([]) == [];
    assert HaveKey<JunctionTree>([], [], Ids(nodes)[i]) == [];
  }

  lemma ChildrenAll(st: Store, nodes: seq<Row>, e: Edges, i: nat)
    requires i < |nodes|
    ensures ChildrenEdge(st, nodes, e, i) != [] ==> e.children.Some?
    ensures forall k :: 0 <= k < |ChildrenEdge(st, nodes, e, i)| ==>
              GraphOfSome(st, ChildrenEdge(st, nodes, e, i)[k], e.children.value.sel.Need(ParentAccountID),
                          e.children.value.edges)
    decreases e, 1
  {
    if e.children.Some? {
      forall k | 0 <= k < |ChildrenEdge(st, nodes, e, i)|
        ensures GraphOfSome(st, ChildrenEdge(st, nodes, e, i)[k], e.children.value.sel.Need(ParentAccountID),
                            e.children.value.edges)
      {
        ChildrenCells(st, nodes, e, i, k);
      }
    } else {
      NoChildren(st, nodes, e, i);
    }
  }

  lemma AccountGroupsAll(st: Store, nodes: seq<Row>, e: Edges, i: nat)
    requires i < |nodes|
    ensures AccountGroupsEdge(st, nodes, e, i) != [] ==> e.accountGroups.Some?
    ensures forall k :: 0 <= k < |AccountGroupsEdge(st, nodes, e, i)| ==>
              PairOfSome(st, AccountGroupsEdge(st, nodes, e, i)[k], e.accountGroups.value.sel.Need(AccountID),
                         e.accountGroups.value.edges)
    decreases e, 1
  {
    if e.accountGroups.Some? {
      forall k | 0 <= k < |AccountGroupsEdge(st, nodes, e, i)|
        ensures PairOfSome(st, AccountGroupsEdge(st, nodes, e, i)[k], e.accountGroups.value.sel.Need(AccountID),
                           e.accountGroups.value.edges)
      {
        AccountGroupsCells(st, nodes, e, i, k);
      }
    } else {
      NoAccountGroups(st, nodes, e, i);
    }
  }

  lemma {:induction false} RunJunctionCells(st: Store, sel: Sel, e: JunctionEdges, i: nat)
    requires i < |Rows(st, st.accountGroups, sel)|
    ensures |RunJunction(st, sel, e)| == |Rows(st, st.accountGroups, sel)|
    ensures PairGraphOf(st, RunJunction(st, sel, e)[i], Rows(st, st.accountGroups, sel)[i], sel, e)
    decreases e, 3
  {
    var nodes := FetchJunction(st, sel, e);
    PairCells(sel, e, Rows(st, st.accountGroups, sel)[i]);
    AttachedPairCells(st, nodes, e, i, Rows(st, st.accountGroups, sel)[i], sel);
  }

  lemma AttachedPair(st: Store, nodes: seq<Row>, e: JunctionEdges, i: nat)
    requires i < |nodes|
    ensures AttachJunction(st, nodes, e)[i]
         == JunctionTree(nodes[i], e.account.Some?, e.group.Some?, OwnerEdge(st, nodes, e, i),
                         MemberEdge(st, nodes, e, i))
  {
  }

  lemma AttachedPairCells(st: Store, nodes: seq<Row>, e: JunctionEdges, i: nat, stored: Row, sel: Sel)
    requires i < |nodes| && Cells(nodes[i], stored, PairColumnsShown(sel, e))
    ensures PairGraphOf(st, AttachJunction(st, nodes, e)[i], stored, sel, e)
    decreases e, 2
  {
    AttachedPair(st, nodes, e, i);
    if OwnerEdge(st, nodes, e, i).Some? { OwnerCells(st, nodes, e, i); }
    if MemberEdge(st, nodes, e, i).Some? { MemberCells(st, nodes, e, i); }
  }
}

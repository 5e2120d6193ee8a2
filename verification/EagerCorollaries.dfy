/**
 What the agreement with per-node lookup gives: exactly when repeated nodes and edge
 windows break it, independence of the selected columns, and the relations between
 edges that reach the same rows by different routes.
 */
module EagerCorollaries {
  import opened Wrappers
  import opened Schema
  import opened Relational
  import opened EagerSpec
  import opened EagerLaws

  // ------------------------------------------------------------ selecting everything

  lemma {:induction false} AllKept(rows: seq<Row>)
    ensures Where([], rows) == rows
  {
    if rows != [] { AllKept(rows[1..]); }
  }

  lemma {:induction false} UnorderedSort(rows: seq<Row>)
    ensures Sort([], rows) == rows
  {
    if rows != [] { UnorderedSort(rows[1..]); }
  }

  lemma EverythingRows(st: Store)
    ensures Rows(st, st.accounts, EVERYTHING) == st.accounts
  {
    AllKept(st.accounts);
    UnorderedSort(st.accounts);
  }

  // Only the children edge, and all of it.
  ghost predicate OnlyChildren(e: Edges) {
    e == NO_EDGES.(children := Some(Plan(EVERYTHING, NO_EDGES)))
  }

  lemma OnlyChildrenIsPlain(e: Edges)
    requires OnlyChildren(e)
    ensures Plain(e)
  {
    assert Plain(NO_EDGES);
  }

  lemma ChildFound(st: Store, e: Edges, k: nat, id: int)
    requires OnlyChildren(e) && k < |st.accounts| && Key(st.accounts[k], ParentAccountID) == Some(id)
    ensures NaiveChildren(st, id, e) != []
  {
    var p := In(ParentAccountID, [id]);
    var kept := Where([p], st.accounts);
    InOnly(ParentAccountID, [id], st.accounts[k]);
    assert st.accounts[k] in kept;
    assert |Sort([], kept)| == |multiset(Sort([], kept))| == |kept|;
    assert EVERYTHING.And(p).preds == [p] && EVERYTHING.Need(ParentAccountID) == EVERYTHING;
    assert NaiveChildren(st, id, e) == Naive(st, EVERYTHING.And(p), NO_EDGES);
  }

  // ------------------------------------------------------------- repeated nodes

  lemma RunIsNaiveOrBare(st: Store, sel: Sel, e: Edges, i: nat)
    requires WellFormed(st) && Plain(e) && i < |Rows(st, st.accounts, sel)|
    ensures i < |Run(st, sel, e)| == |Naive(st, sel, e)|
    ensures Run(st, sel, e)[i]
         == if IsLast(Ids(Rows(st, st.accounts, sel)), i) then Naive(st, sel, e)[i] else ToOneOnly(Naive(st, sel, e)[i])
  {
    AccountColumnsCarry(sel, e);
    AttachIsNaive(st, AccountColumns(sel, e), Rows(st, st.accounts, sel), e, i);
  }

  // Nothing to attach on any to-many edge.
  predicate NoToMany(t: Tree) {
    t.groups == [] && t.children == [] && t.accountGroups == []
  }

  /** A traversal with Unique(false) may return an account twice.  Batched loading
      then agrees with per-node lookup exactly when every earlier copy has nothing to
      attach on its to-many edges. */
  lemma RepeatsExact(st: Store, sel: Sel, e: Edges)
    requires WellFormed(st) && Plain(e)
    ensures |Naive(st, sel, e)| == |Rows(st, st.accounts, sel)|
    ensures Run(st, sel, e) == Naive(st, sel, e)
       <==> forall i :: 0 <= i < |Naive(st, sel, e)| ==>
              IsLast(Ids(Rows(st, st.accounts, sel)), i) || NoToMany(Naive(st, sel, e)[i])
  {
    var run, naive := Run(st, sel, e), Naive(st, sel, e);
    var ids := Ids(Rows(st, st.accounts, sel));
    forall i | 0 <= i < |naive|
      ensures run[i] == naive[i] <==> IsLast(ids, i) || NoToMany(naive[i])
    {
      RunIsNaiveOrBare(st, sel, e, i);
    }
    assert |run| == |naive|;
    if forall i :: 0 <= i < |naive| ==> IsLast(ids, i) || NoToMany(naive[i]) {
      assert forall i :: 0 <= i < |naive| ==> run[i] == naive[i];
    }
  }

  // The traversal of Query().QueryParent(): for every account with a parent, the parent.
  function ParentsOf(children: seq<Row>, accounts: seq<Row>): seq<Row> {
    if children == [] then []
    else
      var k := Key(children[|children| - 1], ParentAccountID);
      ParentsOf(children[..|children| - 1], accounts) + (if k.None? then [] else Where([In(ID, [k.value])], accounts))
  }

  function AllParents(st: Store): seq<Row> {
    ParentsOf(st.accounts, st.accounts)
  }

  // Query().QueryParent().Unique(false)
  ghost predicate ParentsWithRepeats(sel: Sel) {
    sel == EVERYTHING.(path := Some(AllParents), unique := Some(false))
  }

  lemma ParentsOfSnoc(children: seq<Row>, c: Row, accounts: seq<Row>)
    ensures ParentsOf(children + [c], accounts)
         == ParentsOf(children, accounts)
            + (if Key(c, ParentAccountID).None? then [] else Where([In(ID, [Key(c, ParentAccountID).value])], accounts))
  {
    assert (children + [c])[..|children|] == children;
  }

  lemma {:induction false} AllPresent(rows: seq<Row>, table: seq<Row>)
    requires forall r :: r in rows ==> r in table
    ensures Present(rows, table) == rows
  {
    if rows != [] { AllPresent(rows[1..], table); }
  }

  lemma RepeatedRows(st: Store, sel: Sel)
    requires ParentsWithRepeats(sel) && forall r :: r in AllParents(st) ==> r in st.accounts
    ensures Rows(st, st.accounts, sel) == AllParents(st)
  {
    AllPresent(AllParents(st), st.accounts);
    AllKept(AllParents(st));
    UnorderedSort(AllParents(st));
  }

  /** For instance the first copy of an account that comes twice loses its children. */
  lemma RepeatLosesChildren(st: Store, sel: Sel, e: Edges, a: Row, k: nat)
    requires WellFormed(st) && OnlyChildren(e) && Rows(st, st.accounts, sel) == [a, a]
    requires k < |st.accounts| && Key(st.accounts[k], ParentAccountID) == Some(KeyOrZero(a, ID))
    ensures |Run(st, sel, e)| == |Naive(st, sel, e)| == 2
    ensures Run(st, sel, e)[0].children == [] && Naive(st, sel, e)[0].children != []
  {
    var rows := Rows(st, st.accounts, sel);
    OnlyChildrenIsPlain(e);
    RunIsNaiveOrBare(st, sel, e, 0);
    assert Ids(rows)[0] == Ids(rows)[1];
    assert !IsLast(Ids(rows), 0);
    ChildFound(st, e, k, KeyOrZero(a, ID));
  }

  // Account 1 and its children 2 and 3.
  function ChildOf(id: int, parent: int): Row {
    map[ID := I(id), ParentAccountID := I(parent)]
  }

  const FAMILY: Store := Store([map[ID := I(1)], ChildOf(2, 1), ChildOf(3, 1)], [], [], [])

  lemma FamilyIsWellFormed()
    ensures WellFormed(FAMILY) && |FAMILY.accounts| == 3 && Key(FAMILY.accounts[0], ID) == Some(1)
    ensures Key(FAMILY.accounts[1], ParentAccountID) == Some(1)
  {
  }

  lemma OnlyTheFirst(a: Row, b: Row, c: Row)
    requires Key(a, ID) == Some(1) && Key(b, ID) == Some(2) && Key(c, ID) == Some(3)
    ensures Where([In(ID, [1])], [a, b, c]) == [a]
  {
    InOnly(ID, [1], a);
    InOnly(ID, [1], b);
    InOnly(ID, [1], c);
    assert [a, b, c] == [a] + ([b] + ([c] + []));
    WhereCons([In(ID, [1])], a, [b] + ([c] + []));
    WhereCons([In(ID, [1])], b, [c] + []);
    WhereCons([In(ID, [1])], c, []);
  }

  lemma TwoParents(a: Row, b: Row, c: Row)
    requires Key(a, ID) == Some(1) && Key(b, ID) == Some(2) && Key(c, ID) == Some(3)
    requires Key(a, ParentAccountID).None? && Key(b, ParentAccountID) == Key(c, ParentAccountID) == Some(1)
    ensures ParentsOf([a, b, c], [a, b, c]) == [a, a]
  {
    var all := [a, b, c];
    OnlyTheFirst(a, b, c);
    assert [] + [a] == [a] && [a] + [b] == [a, b] && [a, b] + [c] == all;
    ParentsOfSnoc([], a, all);
    ParentsOfSnoc([a], b, all);
    ParentsOfSnoc([a, b], c, all);
  }

  lemma RepeatsWitness(sel: Sel, e: Edges)
    requires ParentsWithRepeats(sel) && OnlyChildren(e)
    ensures WellFormed(FAMILY) && Plain(e) && Run(FAMILY, sel, e) != Naive(FAMILY, sel, e)
  {
    FamilyIsWellFormed();
    OnlyChildrenIsPlain(e);
    var a: Row := map[ID := I(1)];
    TwoParents(a, ChildOf(2, 1), ChildOf(3, 1));
    assert AllParents(FAMILY) == [a, a];
    RepeatedRows(FAMILY, sel);
    RepeatLosesChildren(FAMILY, sel, e, a, 1);
  }

  // ---------------------------------------------------------- column projection

  // A node without its own columns.
  function EdgesOf(t: Tree): Tree {
    t.(fields := map[])
  }

  lemma SameNeighbors(st: Store, a: seq<Row>, b: seq<Row>, e: Edges)
    requires |a| == |b| && Ids(a) == Ids(b)
    requires e.proxy.Some? ==> KeyList(a, ProxyID) == KeyList(b, ProxyID)
    requires e.parent.Some? ==> KeyList(a, ParentAccountID) == KeyList(b, ParentAccountID)
    ensures ParentNeighbors(st, a, e) == ParentNeighbors(st, b, e)
    ensures ChildNeighbors(st, a, e) == ChildNeighbors(st, b, e)
    ensures JunctionNeighbors(st, a, e) == JunctionNeighbors(st, b, e)
    ensures ProxyNeighbors(st, a, e) == ProxyNeighbors(st, b, e)
  {
  }

  lemma SameEdges(st: Store, a: seq<Row>, b: seq<Row>, e: Edges, i: nat)
    requires i < |a| == |b| && Ids(a) == Ids(b)
    requires e.proxy.Some? ==> KeyList(a, ProxyID) == KeyList(b, ProxyID)
    requires e.parent.Some? ==> KeyList(a, ParentAccountID) == KeyList(b, ParentAccountID)
    ensures EdgesOf(Attach(st, a, e)[i]) == EdgesOf(Attach(st, b, e)[i])
  {
    SameNeighbors(st, a, b, e);
    assert GroupsEdge(st, a, e, i) == GroupsEdge(st, b, e, i);
    assert ProxyEdge(st, a, e, i) == ProxyEdge(st, b, e, i) by {
      assert e.proxy.Some? ==> KeyList(a, ProxyID)[i] == KeyList(b, ProxyID)[i];
    }
    assert ParentEdge(st, a, e, i) == ParentEdge(st, b, e, i) by {
      assert e.parent.Some? ==> KeyList(a, ParentAccountID)[i] == KeyList(b, ParentAccountID)[i];
    }
    assert ChildrenEdge(st, a, e, i) == ChildrenEdge(st, b, e, i);
    assert AccountGroupsEdge(st, a, e, i) == AccountGroupsEdge(st, b, e, i);
  }

  /** The chosen columns never change what is loaded: for any field list, any plan and
      any windows, every node has the same ID and the same edges as when all columns
      are selected. */
  lemma ColumnsDoNotMatter(st: Store, sel: Sel, fields: seq<Column>, e: Edges, i: nat)
    requires i < |Rows(st, st.accounts, sel)|
    ensures var some, all := Run(st, sel.(fields := fields), e), Run(st, sel.(fields := []), e);
            i < |some| == |all|
            && Key(some[i].fields, ID) == Key(all[i].fields, ID)
            && EdgesOf(some[i]) == EdgesOf(all[i])
  {
    var p, q := sel.(fields := fields), sel.(fields := []);
    var rows := Rows(st, st.accounts, sel);
    var cols, every := AccountColumns(p, e), AccountColumns(q, e);
    AccountColumnsCarry(p, e);
    AccountColumnsCarry(q, e);
    SameKeysRead(cols, every, rows, e);
    SameEdges(st, ReadAll(cols, rows), ReadAll(every, rows), e, i);
    assert Fetch(st, p, e) == ReadAll(cols, rows) && Fetch(st, q, e) == ReadAll(every, rows);
    assert Run(st, p, e)[i].fields == ReadRow(cols, rows[i]);
    assert Run(st, q, e)[i].fields == ReadRow(every, rows[i]);
  }

  lemma SameKeysRead(a: Option<seq<Column>>, b: Option<seq<Column>>, rows: seq<Row>, e: Edges)
    requires Carries(a, e) && Carries(b, e)
    ensures Ids(ReadAll(a, rows)) == Ids(ReadAll(b, rows))
    ensures e.proxy.Some? ==> KeyList(ReadAll(a, rows), ProxyID) == KeyList(ReadAll(b, rows), ProxyID)
    ensures e.parent.Some? ==> KeyList(ReadAll(a, rows), ParentAccountID) == KeyList(ReadAll(b, rows), ParentAccountID)
  {
    ReadIds(a, rows);
    ReadIds(b, rows);
    if e.proxy.Some? { ReadKeys(a, rows, ProxyID); ReadKeys(b, rows, ProxyID); }
    if e.parent.Some? { ReadKeys(a, rows, ParentAccountID); ReadKeys(b, rows, ParentAccountID); }
  }

  // ------------------------------------------------------------- invalid fields

  predicate AllValid(fields: seq<Column>, valid: Column -> bool) {
    forall i :: 0 <= i < |fields| ==> valid(fields[i])
  }

  // Every field selected anywhere in the plan is a column of its table, and no group query
  // has been run before.
  ghost predicate Runnable(e: Edges)
    decreases e
  {
    && (e.groups.Some? ==> AllValid(e.groups.value.fields, ValidGroupColumn) && e.groups.value.Unjoined())
    && (e.proxy.Some? ==> AllValid(e.proxy.value.fields, ValidProxyColumn))
    && (e.parent.Some? ==> AllValid(e.parent.value.sel.fields, ValidAccountColumn) && Runnable(e.parent.value.edges))
    && (e.children.Some? ==>
          AllValid(e.children.value.sel.fields, ValidAccountColumn) && Runnable(e.children.value.edges))
    && (e.accountGroups.Some? ==>
          AllValid(e.accountGroups.value.sel.fields, ValidJunctionColumn)
            && JunctionRunnable(e.accountGroups.value.edges))
  }

  ghost predicate JunctionRunnable(e: JunctionEdges)
    decreases e
  {
    && (e.account.Some? ==>
        AllValid(e.account.value.sel.fields, ValidAccountColumn) && Runnable(e.account.value.edges))
    && (e.group.Some? ==> AllValid(e.group.value.fields, ValidGroupColumn))
  }

  lemma PreparedExact(fields: seq<Column>, valid: Column -> bool)
    ensures Prepared(fields, valid).None? <==> AllValid(fields, valid)
  {
    BadFieldExact(fields, valid);
  }

  lemma {:induction false} BadFieldExact(fields: seq<Column>, valid: Column -> bool)
    ensures BadField(fields, valid).None? <==> AllValid(fields, valid)
    ensures BadField(fields, valid).Some? ==>
              BadField(fields, valid).value in fields && !valid(BadField(fields, valid).value)
  {
    if fields != [] && valid(fields[0]) {
      BadFieldExact(fields[1..], valid);
      assert forall i :: 1 <= i < |fields| ==> fields[i] == fields[1..][i - 1];
    }
  }

  /** A first run fails over a field somebody selected, and over nothing else: with valid fields
      throughout the plan it succeeds on every store. */
  lemma {:induction false} ValidFieldsNeverFail(st: Store, sel: Sel, e: Edges)
    requires AllValid(sel.fields, ValidAccountColumn) && Runnable(e)
    ensures RunError(st, sel, e).None?
    decreases e, 1
  {
    PreparedExact(sel.fields, ValidAccountColumn);
    LoadersNeverFail(st, Fetch(st, sel, e), e);
  }

  lemma NeededIsValid(sel: Sel, c: Column, valid: Column -> bool)
    requires AllValid(sel.fields, valid) && valid(c)
    ensures AllValid(sel.Need(c).fields, valid)
  {
  }

  lemma LeavesNeverFail(st: Store, nodes: seq<Row>, e: Edges)
    requires Runnable(e)
    ensures GroupsError(st, nodes, e).None? && ProxyError(nodes, e).None?
  {
    if e.groups.Some? { PreparedExact(e.groups.value.fields, ValidGroupColumn); }
    if e.proxy.Some? { PreparedExact(e.proxy.value.fields, ValidProxyColumn); }
  }

  lemma LoadersNeverFail(st: Store, nodes: seq<Row>, e: Edges)
    requires Runnable(e)
    ensures AttachError(st, nodes, e).None?
    decreases e, 0
  {
    LeavesNeverFail(st, nodes, e);
    assert ParentError(st, nodes, e).None? by {
      if e.parent.Some? { ValidFieldsNeverFail(st, ParentSel(nodes, e.parent.value.sel), e.parent.value.edges); }
    }
    assert ChildrenError(st, nodes, e).None? by {
      if e.children.Some? {
        NeededIsValid(e.children.value.sel, ParentAccountID, ValidAccountColumn);
        ValidFieldsNeverFail(st, ChildrenSel(nodes, e.children.value.sel), e.children.value.edges);
      }
    }
    assert AccountGroupsError(st, nodes, e).None? by {
      if e.accountGroups.Some? {
        NeededIsValid(e.accountGroups.value.sel, AccountID, ValidJunctionColumn);
        JunctionNeverFails(st, AccountGroupsSel(nodes, e.accountGroups.value.sel), e.accountGroups.value.edges);
      }
    }
  }

  lemma MembersNeverFail(nodes: seq<Row>, e: JunctionEdges)
    requires JunctionRunnable(e)
    ensures MemberError(nodes, e).None?
  {
    if e.group.Some? { PreparedExact(e.group.value.fields, ValidGroupColumn); }
  }

  lemma OwnersNeverFail(st: Store, nodes: seq<Row>, e: JunctionEdges)
    requires JunctionRunnable(e)
    ensures OwnerError(st, nodes, e).None?
    decreases e, 0
  {
    if e.account.Some? { ValidFieldsNeverFail(st, OwnerSel(nodes, e.account.value.sel), e.account.value.edges); }
  }

  lemma {:induction false} JunctionNeverFails(st: Store, sel: Sel, e: JunctionEdges)
    requires AllValid(sel.fields, ValidJunctionColumn) && JunctionRunnable(e)
    ensures JunctionError(st, sel, e).None?
    decreases e, 1
  {
    PreparedExact(sel.fields, ValidJunctionColumn);
    OwnersNeverFail(st, FetchJunction(st, sel, e), e);
    MembersNeverFail(FetchJunction(st, sel, e), e);
  }

  // ------------------------------------------------------------------------- order

  ghost predicate Ascending(at: seq<nat>, n: nat) {
    && (forall j :: 0 <= j < |at| ==> at[j] < n)
    && (forall i, j :: 0 <= i < j < |at| ==> at[i] < at[j])
  }

  lemma PickedInOrder(marks: seq<bool>)
    ensures Ascending(Trues(marks), |marks|)
    ensures forall k :: 0 <= k < |marks| ==> (k in Trues(marks) <==> marks[k])
  {
    TruesAscending(marks);
  }

  lemma SortedPicks(keys: seq<Row -> int>, rows: seq<Row>, at: seq<nat>)
    requires Sorted(keys, rows) && Ascending(at, |rows|)
    ensures Sorted(keys, Gather(rows, at))
  {
    var got := Gather(rows, at);
    forall i, j | 0 <= i < j < |got| ensures !Before(keys, got[j], got[i]) {
      assert at[i] < at[j];
    }
  }

  lemma ChildKeys(st: Store, nodes: seq<Row>, e: Edges)
    requires e.children.Some?
    ensures KeyList(TreeRows(ChildNeighbors(st, nodes, e)), ParentAccountID)
         == KeyList(Rows(st, st.accounts, ChildrenSel(nodes, e.children.value.sel)), ParentAccountID)
  {
    var c := e.children.value;
    var asked := ChildrenSel(nodes, c.sel);
    AccountColumnsCarry(asked, c.edges);
    ReadKeys(AccountColumns(asked, c.edges), Rows(st, st.accounts, asked), ParentAccountID);
  }

  /** The children of a node stand in the order of the one answer they come from: they are the
      neighbors at ascending positions, exactly those with the node's ID as their key, and
      their rows are sorted by the order options of the children query. */
  lemma ChildrenInOrder(st: Store, nodes: seq<Row>, e: Edges, i: nat) returns (at: seq<nat>)
    requires i < |nodes| && e.children.Some? && IsLast(Ids(nodes), i)
    ensures var got := ChildNeighbors(st, nodes, e);
            var rows := Rows(st, st.accounts, ChildrenSel(nodes, e.children.value.sel));
            && |got| == |rows| && Ascending(at, |got|)
            && (forall k :: 0 <= k < |got| ==> (k in at <==> Key(rows[k], ParentAccountID) == Some(Ids(nodes)[i])))
            && ChildrenEdge(st, nodes, e, i) == Gather(got, at)
            && Sorted(e.children.value.sel.order, Gather(rows, at))
  {
    var asked := ChildrenSel(nodes, e.children.value.sel);
    var rows := Rows(st, st.accounts, asked);
    var marks := Marks(KeyList(rows, ParentAccountID), Ids(nodes)[i]);
    ChildKeys(st, nodes, e);
    assert |KeyList(TreeRows(ChildNeighbors(st, nodes, e)), ParentAccountID)| == |rows|;
    at := Trues(marks);
    PickedInOrder(marks);
    RowsAreSorted(st, st.accounts, asked);
    SortedPicks(asked.order, rows, at);
    assert ChildrenEdge(st, nodes, e, i) == Gather(ChildNeighbors(st, nodes, e), at);
  }

  // ---------------------------------------------------------------- many to many

  lemma PickedExact(ids: seq<int>, marks: seq<bool>, x: int)
    requires |ids| == |marks| && forall i, j :: 0 <= i < j < |ids| ==> ids[i] != ids[j]
    ensures var got := Gather(ids, Trues(marks));
            && (x in got <==> exists k :: 0 <= k < |ids| && ids[k] == x && marks[k])
            && (forall i, j :: 0 <= i < j < |got| ==> got[i] != got[j])
  {
    var at, got := Trues(marks), Gather(ids, Trues(marks));
    TruesAscending(marks);
    if k :| 0 <= k < |ids| && ids[k] == x && marks[k] {
      var j :| 0 <= j < |at| && at[j] == k;
      assert got[j] == x;
    }
    forall i, j | 0 <= i < j < |got| ensures got[i] != got[j] {
      assert at[i] < at[j];
    }
  }

  /** For any joined rows, in any order and with any window: the groups loaded for an
      account are distinct, and a group is among them iff a joined row links the two. */
  lemma GroupsExact(links: seq<Link>, cols: Option<seq<Column>>, acc: int, gid: int)
    requires Reads(cols, ID)
    ensures var got := GroupsOf(links, ReadAll(cols, Firsts(links)), acc);
            && (gid in Ids(got) <==> Linked(links, acc, gid))
            && (forall i, j :: 0 <= i < j < |got| ==> Ids(got)[i] != Ids(got)[j])
  {
    var gids := Ids(Firsts(links));
    ReadIds(cols, Firsts(links));
    var marks := LinkMarks(links, acc, gids);
    PickedExact(gids, marks, gid);
    assert Ids(GroupsOf(links, ReadAll(cols, Firsts(links)), acc)) == Gather(gids, Trues(marks));
    if Linked(links, acc, gid) {
      LinkedIsFirst(links, acc, gid);
    }
  }

  lemma LinkedIsFirst(links: seq<Link>, acc: int, gid: int)
    requires Linked(links, acc, gid)
    ensures gid in Ids(Firsts(links))
  {
  }

  // A joined row exists iff the junction table has the pair and the group matches.
  lemma {:induction false} JoinExact(groups: seq<Row>, junction: seq<Row>, accs: seq<int>, acc: int, gid: int)
    ensures Linked(JoinRows(groups, junction, accs), acc, gid)
       <==> acc in accs && Joined(junction, acc, gid) && gid in Ids(groups)
  {
    if groups != [] {
      var n := |groups| - 1;
      var ms := Members(junction, KeyOrZero(groups[n], ID), accs);
      JoinExact(groups[..n], junction, accs, acc, gid);
      LinkedSplit(JoinRows(groups[..n], junction, accs), LinksTo(ms, groups[n]), acc, gid);
      LinkedInBlock(ms, groups[n], acc, gid);
      MembersExact(junction, KeyOrZero(groups[n], ID), accs, acc);
      assert groups == groups[..n] + [groups[n]];
      IdsSnoc(groups[..n], groups[n]);
    }
  }

  ghost predicate HasID(rows: seq<Row>, id: int) {
    exists i :: 0 <= i < |rows| && KeyOrZero(rows[i], ID) == id
  }

  lemma IdsHave(rows: seq<Row>, id: int)
    ensures id in Ids(rows) <==> HasID(rows, id)
  {
    if HasID(rows, id) {
      var i :| 0 <= i < |rows| && KeyOrZero(rows[i], ID) == id;
      assert Ids(rows)[i] == id;
    }
  }

  // A group of the store that passes the predicates.
  ghost predicate GroupMatches(st: Store, sel: Sel, gid: int) {
    HasID(Where(sel.preds, st.groups), gid)
  }

  lemma SortHasSameIds(keys: seq<Row -> int>, rows: seq<Row>, id: int)
    ensures HasID(Sort(keys, rows), id) <==> HasID(rows, id)
  {
    var sorted := Sort(keys, rows);
    if HasID(rows, id) {
      var i :| 0 <= i < |rows| && KeyOrZero(rows[i], ID) == id;
      assert rows[i] in multiset(rows);
      assert rows[i] in multiset(sorted);
      assert rows[i] in sorted;
      var j :| 0 <= j < |sorted| && sorted[j] == rows[i];
    }
    if HasID(sorted, id) {
      var i :| 0 <= i < |sorted| && KeyOrZero(sorted[i], ID) == id;
      assert sorted[i] in multiset(sorted);
      assert sorted[i] in multiset(rows);
      assert sorted[i] in rows;
      var j :| 0 <= j < |rows| && rows[j] == sorted[i];
    }
  }

  /** The many-to-many edge over the store: group g is loaded for an account iff the
      junction table pairs them and g passes the edge predicates. */
  lemma NaiveGroupsExact(st: Store, sel: Sel, acc: int, gid: int)
    requires WellFormed(st) && PlainSel(sel)
    ensures gid in Ids(NaiveGroups(st, sel, acc))
       <==> Joined(st.accountGroups, acc, gid) && GroupMatches(st, sel, gid)
  {
    var links := Links(st, sel, [acc]);
    GroupsAgree(st, sel, [acc], acc);
    GroupsExact(links, LeafColumns(sel), acc, gid);
    var groups := Where(sel.preds, st.groups);
    JoinExact(Sort(sel.order, groups), st.accountGroups, [acc], acc, gid);
    IdsHave(Sort(sel.order, groups), gid);
    SortHasSameIds(sel.order, groups, gid);
  }

  // ------------------------------------------------------------------ two routes

  // An unwindowed edge query for one key answers with exactly the matching rows of the
  // table that carry it.
  lemma AnswerForKey(st: Store, table: seq<Row>, sel: Sel, c: Column, k: int, r: Row)
    requires PlainSel(sel)
    ensures r in Rows(st, table, sel.And(In(c, [k]))) <==> r in Where(sel.preds, table) && Key(r, c) == Some(k)
  {
    AndFiltersRows(st, table, sel, In(c, [k]));
    InOnly(c, [k], r);
    var kept := Where(sel.preds, table);
    assert r in kept <==> r in multiset(kept);
    assert r in Sort(sel.order, kept) <==> r in multiset(Sort(sel.order, kept));
  }

  lemma FetchOne(st: Store, sel: Sel, gid: int)
    requires WellFormed(st) && PlainSel(sel)
    ensures NaiveLeaf(st, st.groups, sel, gid).Some? <==> GroupMatches(st, sel, gid)
    ensures NaiveLeaf(st, st.groups, sel, gid).Some? ==>
              Key(NaiveLeaf(st, st.groups, sel, gid).value, ID) == Some(gid)
  {
    var kept := Where(sel.preds, st.groups);
    var hits := Rows(st, st.groups, sel.And(In(ID, [gid])));
    if GroupMatches(st, sel, gid) {
      var i :| 0 <= i < |kept| && KeyOrZero(kept[i], ID) == gid;
      assert kept[i] in st.groups;
      AnswerForKey(st, st.groups, sel, ID, gid, kept[i]);
      assert kept[i] in hits;
    }
    if hits != [] {
      AnswerForKey(st, st.groups, sel, ID, gid, hits[0]);
      var i :| 0 <= i < |kept| && kept[i] == hits[0];
      assert FetchLeaf(st, st.groups, sel.And(In(ID, [gid])))[0] == ReadRow(LeafColumns(sel), hits[0]);
    }
  }

  // The group IDs reached through the loaded junction rows.
  ghost predicate ReachedThroughJunction(ts: seq<JunctionTree>, gid: int) {
    exists j :: 0 <= j < |ts| && ts[j].group.Some? && KeyOrZero(ts[j].group.value, ID) == gid
  }

  lemma JunctionRowOf(st: Store, sel: Sel, acc: int, gid: int)
    requires WellFormed(st) && PlainSel(sel)
    ensures var rows := Rows(st, st.accountGroups, sel.And(In(AccountID, [acc])));
            Joined(Where(sel.preds, st.accountGroups), acc, gid)
            <==> exists j :: 0 <= j < |rows| && KeyOrZero(rows[j], GroupID) == gid
  {
    var js := Where(sel.preds, st.accountGroups);
    var rows := Rows(st, st.accountGroups, sel.And(In(AccountID, [acc])));
    if Joined(js, acc, gid) {
      var i :| 0 <= i < |js| && KeyOrZero(js[i], AccountID) == acc && KeyOrZero(js[i], GroupID) == gid;
      assert js[i] in st.accountGroups;
      AnswerForKey(st, st.accountGroups, sel, AccountID, acc, js[i]);
      assert js[i] in rows;
      var j :| 0 <= j < |rows| && rows[j] == js[i];
    }
    if j :| 0 <= j < |rows| && KeyOrZero(rows[j], GroupID) == gid {
      AnswerForKey(st, st.accountGroups, sel, AccountID, acc, rows[j]);
      var i :| 0 <= i < |js| && js[i] == rows[j];
    }
  }

  lemma LoadedJunctionGroup(st: Store, p: JunctionPlan, acc: int, j: nat, gid: int)
    requires WellFormed(st) && p.edges.group.Some? && PlainSel(p.edges.group.value)
    requires j < |Rows(st, st.accountGroups, p.sel.Need(AccountID).And(In(AccountID, [acc])))|
    ensures var sel := p.sel.Need(AccountID).And(In(AccountID, [acc]));
            var t, row := NaiveJunction(st, sel, p.edges)[j], Rows(st, st.accountGroups, sel)[j];
            t.group.Some? && KeyOrZero(t.group.value, ID) == gid
            <==> KeyOrZero(row, GroupID) == gid && GroupMatches(st, p.edges.group.value, gid)
  {
    var row := Rows(st, st.accountGroups, p.sel.Need(AccountID).And(In(AccountID, [acc])))[j];
    FetchOne(st, p.edges.group.value, KeyOrZero(row, GroupID));
  }

  lemma WalkReaches(st: Store, p: JunctionPlan, acc: int, gid: int)
    requires WellFormed(st) && PlainSel(p.sel) && p.edges.group.Some? && PlainSel(p.edges.group.value)
    ensures ReachedThroughJunction(NaiveJunction(st, p.sel.Need(AccountID).And(In(AccountID, [acc])), p.edges), gid)
       <==> Joined(Where(p.sel.preds, st.accountGroups), acc, gid) && GroupMatches(st, p.edges.group.value, gid)
  {
    var sel := p.sel.Need(AccountID).And(In(AccountID, [acc]));
    var ts, rows := NaiveJunction(st, sel, p.edges), Rows(st, st.accountGroups, sel);
    JunctionRowOf(st, p.sel.Need(AccountID), acc, gid);
    assert |ts| == |rows|;
    forall j | 0 <= j < |rows|
      ensures ts[j].group.Some? && KeyOrZero(ts[j].group.value, ID) == gid
         <==> KeyOrZero(rows[j], GroupID) == gid && GroupMatches(st, p.edges.group.value, gid)
    {
      LoadedJunctionGroup(st, p, acc, j, gid);
    }
  }

  lemma JoinedAtAll(ps: seq<Pred>, junction: seq<Row>, acc: int, gid: int)
    requires Joined(Where(ps, junction), acc, gid)
    ensures Joined(junction, acc, gid)
  {
    var kept := Where(ps, junction);
    var i :| 0 <= i < |kept| && KeyOrZero(kept[i], AccountID) == acc && KeyOrZero(kept[i], GroupID) == gid;
    assert kept[i] in junction;
    var j :| 0 <= j < |junction| && junction[j] == kept[i];
  }

  lemma RoutesAgreeFor(st: Store, e: Edges, acc: int, gid: int)
    requires WellFormed(st) && Plain(e) && e.groups.Some? && e.accountGroups.Some?
    requires e.accountGroups.value.edges.group.Some?
    ensures var a := e.accountGroups.value;
            gid in Ids(NaiveGroups(st, e.groups.value, acc))
            && Joined(Where(a.sel.preds, st.accountGroups), acc, gid) && GroupMatches(st, a.edges.group.value, gid)
            <==> ReachedThroughJunction(NaiveAccountGroups(st, acc, e), gid) && GroupMatches(st, e.groups.value, gid)
  {
    var a := e.accountGroups.value;
    NaiveGroupsExact(st, e.groups.value, acc, gid);
    WalkReaches(st, a, acc, gid);
    if Joined(Where(a.sel.preds, st.accountGroups), acc, gid) {
      JoinedAtAll(a.sel.preds, st.accountGroups, acc, gid);
    }
    assert NaiveAccountGroups(st, acc, e)
        == NaiveJunction(st, a.sel.Need(AccountID).And(In(AccountID, [acc])), a.edges);
  }

  lemma RunEdges(st: Store, sel: Sel, e: Edges, i: nat)
    requires WellFormed(st) && Plain(e) && sel.NoRepeats() && e.groups.Some? && e.accountGroups.Some?
    ensures |Run(st, sel, e)| == |Rows(st, st.accounts, sel)|
    ensures i < |Rows(st, st.accounts, sel)| ==>
              var t, acc := Run(st, sel, e)[i], KeyOrZero(Rows(st, st.accounts, sel)[i], ID);
              t.groups == NaiveGroups(st, e.groups.value, acc) && t.accountGroups == NaiveAccountGroups(st, acc, e)
  {
    RunIsNaive(st, sel, e);
  }

  /** The direct many-to-many edge and the walk through the junction entity, for every
      account of every answer and whatever the three queries select: a group of the edge
      is reached by the walk if its pair and the group pass the walk's predicates, and a
      group the walk reaches is on the edge if it passes the edge's. */
  lemma TwoRoutesAgree(st: Store, sel: Sel, e: Edges, i: nat, gid: int)
    requires WellFormed(st) && Plain(e) && sel.NoRepeats() && e.groups.Some? && e.accountGroups.Some?
    requires e.accountGroups.value.edges.group.Some?
    requires i < |Run(st, sel, e)|
    ensures |Run(st, sel, e)| == |Rows(st, st.accounts, sel)|
    ensures var t, a := Run(st, sel, e)[i], e.accountGroups.value;
            var acc := KeyOrZero(Rows(st, st.accounts, sel)[i], ID);
            gid in Ids(t.groups)
            && Joined(Where(a.sel.preds, st.accountGroups), acc, gid) && GroupMatches(st, a.edges.group.value, gid)
            <==> ReachedThroughJunction(t.accountGroups, gid) && GroupMatches(st, e.groups.value, gid)
  {
    RunEdges(st, sel, e, i);
    RoutesAgreeFor(st, e, KeyOrZero(Rows(st, st.accounts, sel)[i], ID), gid);
  }

  /** In particular they reach the same groups when both select groups alike and the
      junction query selects nothing of its own. */
  lemma UnfilteredRoutesAgree(st: Store, sel: Sel, e: Edges, i: nat, gid: int)
    requires WellFormed(st) && Plain(e) && sel.NoRepeats()
    requires e.groups.Some? && e.accountGroups.Some? && e.accountGroups.value.edges.group == e.groups
    requires e.accountGroups.value.sel.preds == []
    requires i < |Run(st, sel, e)|
    ensures var t := Run(st, sel, e)[i];
            gid in Ids(t.groups) <==> ReachedThroughJunction(t.accountGroups, gid)
  {
    RunEdges(st, sel, e, i);
    var acc := KeyOrZero(Rows(st, st.accounts, sel)[i], ID);
    AllKept(st.accountGroups);
    NaiveGroupsExact(st, e.groups.value, acc, gid);
    WalkReaches(st, e.accountGroups.value, acc, gid);
  }

  // ------------------------------------------------------------ parent and children

  lemma ParentFound(st: Store, p: Plan, k: int)
    requires WellFormed(st) && PlainSel(p.sel)
    ensures NaiveOne(st, p, k).Some? <==> HasID(Where(p.sel.preds, st.accounts), k)
    ensures NaiveOne(st, p, k).Some? ==> KeyOrZero(NaiveOne(st, p, k).value.fields, ID) == k
  {
    AccountColumnsCarry(p.sel, p.edges);
    var kept := Where(p.sel.preds, st.accounts);
    var hits := Rows(st, st.accounts, p.sel.And(In(ID, [k])));
    if HasID(kept, k) {
      var i :| 0 <= i < |kept| && KeyOrZero(kept[i], ID) == k;
      assert kept[i] in st.accounts;
      AnswerForKey(st, st.accounts, p.sel, ID, k, kept[i]);
      assert kept[i] in hits;
    }
    if hits != [] {
      AnswerForKey(st, st.accounts, p.sel, ID, k, hits[0]);
      var i :| 0 <= i < |kept| && kept[i] == hits[0];
    }
  }

  lemma NaiveIds(st: Store, sel: Sel, e: Edges)
    ensures Ids(TreeRows(Naive(st, sel, e))) == Ids(Rows(st, st.accounts, sel))
  {
    var rows, cols := Rows(st, st.accounts, sel), AccountColumns(sel, e);
    AccountColumnsCarry(sel, e);
    ReadIds(cols, rows);
    assert TreeRows(NaiveTrees(st, cols, rows, e)) == ReadAll(cols, rows);
  }

  lemma ChildListed(st: Store, p: Plan, x: int, y: Row)
    requires WellFormed(st) && PlainSel(p.sel) && y in st.accounts
    ensures var kids := Naive(st, p.sel.Need(ParentAccountID).And(In(ParentAccountID, [x])), p.edges);
            KeyOrZero(y, ID) in Ids(TreeRows(kids)) <==> Key(y, ParentAccountID) == Some(x) && HoldsAll(p.sel.preds, y)
  {
    var need := p.sel.Need(ParentAccountID);
    var one := need.And(In(ParentAccountID, [x]));
    NaiveIds(st, one, p.edges);
    RowsAreMatching(st, st.accounts, one);
    RowByID(st, Rows(st, st.accounts, one), y);
    AnswerForKey(st, st.accounts, need, ParentAccountID, x, y);
  }

  lemma RowByID(st: Store, rows: seq<Row>, y: Row)
    requires WellFormed(st) && y in st.accounts && forall r :: r in rows ==> r in st.accounts
    ensures KeyOrZero(y, ID) in Ids(rows) <==> y in rows
  {
    IdsHave(rows, KeyOrZero(y, ID));
    if HasID(rows, KeyOrZero(y, ID)) {
      var j :| 0 <= j < |rows| && KeyOrZero(rows[j], ID) == KeyOrZero(y, ID);
      SameIDSameRow(st, rows[j], y);
    }
  }

  lemma SameIDSameRow(st: Store, a: Row, b: Row)
    requires WellFormed(st) && a in st.accounts && b in st.accounts && KeyOrZero(a, ID) == KeyOrZero(b, ID)
    ensures a == b
  {
    var i :| 0 <= i < |st.accounts| && st.accounts[i] == a;
    var j :| 0 <= j < |st.accounts| && st.accounts[j] == b;
    assert Key(a, ID).Some? && Key(b, ID).Some?;
    if i < j { assert Key(st.accounts[i], ID) != Key(st.accounts[j], ID); }
    if j < i { assert Key(st.accounts[j], ID) != Key(st.accounts[i], ID); }
  }

  lemma KeptByID(st: Store, ps: seq<Pred>, x: Row)
    requires WellFormed(st) && x in st.accounts
    ensures HasID(Where(ps, st.accounts), KeyOrZero(x, ID)) <==> HoldsAll(ps, x)
  {
    var kept := Where(ps, st.accounts);
    if HasID(kept, KeyOrZero(x, ID)) {
      var i :| 0 <= i < |kept| && KeyOrZero(kept[i], ID) == KeyOrZero(x, ID);
      assert kept[i] in st.accounts;
      SameIDSameRow(st, kept[i], x);
    }
    if x in kept {
      var i :| 0 <= i < |kept| && kept[i] == x;
    }
  }

  // The loaded parent is the account with this ID.
  predicate ParentIs(t: Option<Tree>, id: int) {
    t.Some? && KeyOrZero(t.value.fields, ID) == id
  }

  lemma ParentOf(st: Store, e: Edges, x: Row, y: Row)
    requires WellFormed(st) && Plain(e) && x in st.accounts && e.parent.Some?
    ensures ParentIs(NaiveParent(st, y, e), KeyOrZero(x, ID))
       <==> Key(y, ParentAccountID) == Some(KeyOrZero(x, ID)) && HoldsAll(e.parent.value.sel.preds, x)
  {
    var fk := Key(y, ParentAccountID);
    KeptByID(st, e.parent.value.sel.preds, x);
    if fk.Some? {
      ParentFound(st, e.parent.value, fk.value);
      assert NaiveParent(st, y, e) == NaiveOne(st, e.parent.value, fk.value);
    } else {
      assert NaiveParent(st, y, e).None?;
    }
  }

  lemma ConverseRows(st: Store, e: Edges, x: Row, y: Row)
    requires WellFormed(st) && Plain(e) && x in st.accounts && y in st.accounts && e.parent.Some? && e.children.Some?
    ensures KeyOrZero(y, ID) in Ids(TreeRows(NaiveChildren(st, KeyOrZero(x, ID), e)))
            && HoldsAll(e.parent.value.sel.preds, x)
       <==> ParentIs(NaiveParent(st, y, e), KeyOrZero(x, ID)) && HoldsAll(e.children.value.sel.preds, y)
  {
    var xid, c := KeyOrZero(x, ID), e.children.value;
    assert NaiveChildren(st, xid, e) == Naive(st, c.sel.Need(ParentAccountID).And(In(ParentAccountID, [xid])), c.edges);
    ChildListed(st, c, xid, y);
    ParentOf(st, e, x, y);
  }

  /** Parent and Children are converse edges, whatever predicates the two edge queries
      have: among any loaded accounts, y is listed under x and x passes the parent query
      iff y's loaded parent is x and y passes the children query. */
  lemma ParentChildrenConverse(st: Store, sel: Sel, e: Edges, x: nat, y: nat)
    requires WellFormed(st) && Plain(e) && sel.NoRepeats() && e.parent.Some? && e.children.Some?
    requires x < |Run(st, sel, e)| && y < |Run(st, sel, e)|
    ensures |Run(st, sel, e)| == |Rows(st, st.accounts, sel)|
    ensures var ts, rows := Run(st, sel, e), Rows(st, st.accounts, sel);
            KeyOrZero(ts[y].fields, ID) in Ids(TreeRows(ts[x].children)) && HoldsAll(e.parent.value.sel.preds, rows[x])
            <==> ParentIs(ts[y].parent, KeyOrZero(ts[x].fields, ID)) && HoldsAll(e.children.value.sel.preds, rows[y])
  {
    RunIsNaive(st, sel, e);
    AccountColumnsCarry(sel, e);
    RowsAreMatching(st, st.accounts, sel);
    var rows := Rows(st, st.accounts, sel);
    assert rows[x] in rows && rows[y] in rows;
    ConverseRows(st, e, rows[x], rows[y]);
  }

  /** Without predicates: y is among x's children iff y's parent is x. */
  lemma UnfilteredConverse(st: Store, sel: Sel, e: Edges, x: nat, y: nat)
    requires WellFormed(st) && Plain(e) && sel.NoRepeats()
    requires e.parent.Some? && e.parent.value.sel.preds == []
    requires e.children.Some? && e.children.value.sel.preds == []
    requires x < |Run(st, sel, e)| && y < |Run(st, sel, e)|
    ensures var ts := Run(st, sel, e);
            KeyOrZero(ts[y].fields, ID) in Ids(TreeRows(ts[x].children))
            <==> ParentIs(ts[y].parent, KeyOrZero(ts[x].fields, ID))
  {
    ParentChildrenConverse(st, sel, e, x, y);
  }
}

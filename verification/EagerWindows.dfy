/**
 A limit or offset on an edge query is applied to the one batched query, not to each
 node.  For each of the five edges of an account there is a store on which that shows:
 some account is given a neighbor its own query would skip, or is denied one it would
 find.
 */
module EagerWindows {
  import opened Wrappers
  import opened Schema
  import opened Relational
  import opened EagerSpec
  import opened EagerLaws
  import opened EagerCorollaries

  // ------------------------------------------------------------------- bare plans

  // The query matches every row of its table.
  ghost predicate BareSel(sel: Sel) {
    sel.path.None? && sel.preds == []
  }

  // Every edge query, at any depth, is bare.
  ghost predicate Bare(e: Edges)
    decreases e
  {
    && (e.groups.Some? ==> BareSel(e.groups.value))
    && (e.proxy.Some? ==> BareSel(e.proxy.value))
    && (e.parent.Some? ==> BareSel(e.parent.value.sel) && Bare(e.parent.value.edges))
    && (e.children.Some? ==> BareSel(e.children.value.sel) && Bare(e.children.value.edges))
    && (e.accountGroups.Some? ==> BareSel(e.accountGroups.value.sel) && BareJunction(e.accountGroups.value.edges))
  }

  ghost predicate BareJunction(e: JunctionEdges)
    decreases e
  {
    && (e.account.Some? ==> BareSel(e.account.value.sel) && Bare(e.account.value.edges))
    && (e.group.Some? ==> BareSel(e.group.value))
  }

  // ------------------------------------------------------------ the witness store

  // Account i is its own parent, uses proxy i and is in group i only.
  function Mirror(n: nat): Store {
    Store(seq(n, i => map[ID := I(i), ParentAccountID := I(i), ProxyID := I(i)]),
          seq(n, i => map[ID := I(i)]),
          seq(n, i => map[ID := I(i)]),
          seq(n, i => map[AccountID := I(i), GroupID := I(i)]))
  }

  // Row i carries i in the column.
  ghost predicate Numbered(table: seq<Row>, c: Column) {
    forall i :: 0 <= i < |table| ==> Key(table[i], c) == Some(i)
  }

  lemma MirrorIsNumbered(n: nat)
    ensures var st := Mirror(n);
            && |st.accounts| == |st.groups| == |st.proxies| == |st.accountGroups| == n
            && Numbered(st.accounts, ID) && Numbered(st.accounts, ParentAccountID) && Numbered(st.accounts, ProxyID)
            && Numbered(st.groups, ID) && Numbered(st.proxies, ID)
            && Numbered(st.accountGroups, AccountID) && Numbered(st.accountGroups, GroupID)
    ensures WellFormed(Mirror(n))
  {
  }

  // The same rows in some order, none twice.
  ghost predicate Shuffled(rows: seq<Row>, table: seq<Row>) {
    multiset(rows) == multiset(table) && NoDuplicates(rows)
  }

  lemma ShuffledRows(rows: seq<Row>, table: seq<Row>)
    requires Shuffled(rows, table)
    ensures |rows| == |table|
    ensures forall r :: r in rows <==> r in table
  {
    assert |multiset(rows)| == |rows| && |multiset(table)| == |table|;
    forall r ensures r in rows <==> r in table {
      assert r in rows <==> r in multiset(rows);
      assert r in table <==> r in multiset(table);
    }
  }

  // ------------------------------------------------ one bare query on a numbered table

  lemma {:induction false} WhereAll(p: Pred, rows: seq<Row>)
    requires forall r :: r in rows ==> Holds(p, r)
    ensures Where([p], rows) == rows
  {
    if rows != [] {
      assert [p][0] == p;
      WhereAll(p, rows[1..]);
    }
  }

  lemma {:induction false} DedupOfDistinct(rows: seq<Row>)
    requires NoDuplicates(rows)
    ensures Dedup(rows) == rows
  {
    if rows != [] {
      DedupOfDistinct(rows[..|rows| - 1]);
    }
  }

  lemma SortShuffles(sel: Sel, rows: seq<Row>)
    requires NoDuplicates(rows)
    ensures Shuffled(Sort(sel.order, rows), rows) && Dedup(Sort(sel.order, rows)) == Sort(sel.order, rows)
  {
    DistinctByCount(rows);
    DistinctByCount(Sort(sel.order, rows));
    DedupOfDistinct(Sort(sel.order, rows));
  }

  lemma EveryRowHolds(table: seq<Row>, c: Column, keys: seq<int>)
    requires Numbered(table, c) && forall i :: 0 <= i < |table| ==> i in keys
    ensures forall r :: r in table ==> Holds(In(c, keys), r)
  {
    forall r | r in table ensures Holds(In(c, keys), r) {
      var i :| 0 <= i < |table| && table[i] == r;
    }
  }

  lemma NumberedDiffer(table: seq<Row>, c: Column)
    requires Numbered(table, c)
    ensures NoDuplicates(table)
  {
    forall i, j | 0 <= i < j < |table| ensures table[i] != table[j] { assert Key(table[i], c) != Key(table[j], c); }
  }

  lemma AllMatch(st: Store, table: seq<Row>, sel: Sel)
    requires sel.path.None? && Where(sel.preds, table) == table
    requires Dedup(Sort(sel.order, table)) == Sort(sel.order, table)
    ensures Matching(st, table, sel) == Sort(sel.order, table)
  {
  }

  // Asking for every key matches every row.
  lemma AskedForAll(st: Store, table: seq<Row>, sel: Sel, c: Column, keys: seq<int>)
    requires Numbered(table, c) && BareSel(sel) && forall i :: 0 <= i < |table| ==> i in keys
    ensures Shuffled(Matching(st, table, sel.And(In(c, keys))), table)
  {
    var p := In(c, keys);
    assert sel.And(p).preds == [p];
    EveryRowHolds(table, c, keys);
    WhereAll(p, table);
    NumberedDiffer(table, c);
    SortShuffles(sel, table);
    AllMatch(st, table, sel.And(p));
  }

  lemma {:induction false} WhereOne(table: seq<Row>, c: Column, k: nat, from: nat)
    requires Numbered(table, c) && k < |table| && from <= |table|
    ensures Where([In(c, [k])], table[from..]) == if from <= k then [table[k]] else []
    decreases |table| - from
  {
    if from < |table| {
      WhereOne(table, c, k, from + 1);
      InOnly(c, [k], table[from]);
      assert table[from..] == [table[from]] + table[from + 1..];
      WhereCons([In(c, [k])], table[from], table[from + 1..]);
    }
  }

  // Asking for one key gives its row, unless an offset skips it.
  lemma AskedForOne(st: Store, table: seq<Row>, sel: Sel, c: Column, k: nat)
    requires Numbered(table, c) && BareSel(sel) && k < |table|
    ensures Rows(st, table, sel.And(In(c, [k]))) == if sel.SpecOffset() == 0 then [table[k]] else []
  {
    var p := In(c, [k]);
    assert sel.And(p).preds == [p];
    WhereOne(table, c, k, 0);
    assert table[0..] == table;
    OneMatches(st, table, sel.And(p), table[k]);
    WindowOfOne(sel.SpecOffset(), sel.SpecLimit(), table[k]);
  }

  lemma OneMatches(st: Store, table: seq<Row>, sel: Sel, r: Row)
    requires sel.path.None? && Where(sel.preds, table) == [r]
    ensures Matching(st, table, sel) == [r]
  {
    assert [r][1..] == [] && [r][..0] == [];
    assert Sort(sel.order, [r]) == Insert(sel.order, r, []) == [r];
    assert Dedup([r]) == [r];
  }

  lemma WindowOfOne(offset: nat, limit: nat, r: Row)
    ensures Window(offset, limit, [r]) == if offset == 0 then [r] else []
  {
    assert [r][0..] == [r] && [r][1..] == [];
  }

  // A table size at which the window leaves out some row it should not, or the other
  // way round.
  function Telling(sel: Sel): (n: nat)
    ensures n > 0
  {
    if sel.SpecOffset() > 0 then sel.SpecOffset() + 1 else sel.SpecLimit() + 1
  }

  lemma WindowTells(sel: Sel, all: seq<Row>, table: seq<Row>) returns (k: nat)
    requires !sel.Unwindowed() && Shuffled(all, table) && |table| == Telling(sel)
    ensures k < |table| && (table[k] in Window(sel.SpecOffset(), sel.SpecLimit(), all) <==> sel.SpecOffset() > 0)
  {
    ShuffledRows(all, table);
    var m := |all| - 1;
    assert all[m] in table;
    k :| 0 <= k < |table| && table[k] == all[m];
  }

  // The row for which one batched query and its own query disagree.
  lemma QueryTells(st: Store, table: seq<Row>, sel: Sel, c: Column, keys: seq<int>) returns (k: nat)
    requires Numbered(table, c) && BareSel(sel) && !sel.Unwindowed() && |table| == Telling(sel)
    requires forall i :: 0 <= i < |table| ==> i in keys
    ensures k < |table|
    ensures table[k] in Rows(st, table, sel.And(In(c, keys))) <==> Rows(st, table, sel.And(In(c, [k]))) == []
  {
    AskedForAll(st, table, sel, c, keys);
    k := WindowTells(sel, Matching(st, table, sel.And(In(c, keys))), table);
    AskedForOne(st, table, sel, c, k);
  }

  // ------------------------------------------------------- what an answer attaches

  lemma KeyInBatch(table: seq<Row>, c: Column, batch: seq<Row>, k: nat)
    requires Numbered(table, c) && k < |table| && forall r :: r in batch ==> r in table
    ensures Some(k as int) in KeyList(batch, c) <==> table[k] in batch
    ensures c == ID ==> (k in Ids(batch) <==> table[k] in batch)
    ensures Some(k as int) in JunctionKeys(batch, c) <==> table[k] in batch
  {
    if table[k] in batch {
      var i :| 0 <= i < |batch| && batch[i] == table[k];
      assert KeyList(batch, c)[i] == Some(k) && JunctionKeys(batch, c)[i] == Some(k);
      assert c == ID ==> Ids(batch)[i] == k;
    }
    forall i | 0 <= i < |batch| && KeyOrZero(batch[i], c) == k ensures batch[i] == table[k] {
      assert batch[i] in table;
      var m :| 0 <= m < |table| && table[m] == batch[i];
    }
  }

  lemma HaveKeyExact<X>(xs: seq<X>, ks: seq<Option<int>>, k: int)
    requires |xs| == |ks|
    ensures HaveKey(xs, ks, k) != [] <==> Some(k) in ks
    ensures forall i :: 0 <= i < |ks| && ks[i] == Some(k) ==> xs[i] in HaveKey(xs, ks, k)
  {
    var marks := Marks(ks, k);
    TruesAscending(marks);
    forall i | 0 <= i < |ks| && ks[i] == Some(k) ensures xs[i] in HaveKey(xs, ks, k) {
      var j :| 0 <= j < |Trues(marks)| && Trues(marks)[j] == i;
      assert HaveKey(xs, ks, k)[j] == xs[i];
    }
    if HaveKey(xs, ks, k) != [] { assert marks[Trues(marks)[0]]; }
  }

  // ------------------------------------------------------------------ the nodes

  // The root query answers with every account once.
  ghost predicate Full(n: nat, sel: Sel) {
    Shuffled(Rows(Mirror(n), Mirror(n).accounts, sel), Mirror(n).accounts)
  }

  // A graph that differs from its lookup.
  ghost predicate Off(st: Store, sel: Sel, e: Edges, j: nat) {
    j < |Run(st, sel, e)| == |Naive(st, sel, e)| && Run(st, sel, e)[j] != Naive(st, sel, e)[j]
  }

  ghost predicate Differs(n: nat, sel: Sel, e: Edges, j: nat) {
    Off(Mirror(n), sel, e, j)
  }

  lemma EverythingIsFull(n: nat)
    ensures Full(n, EVERYTHING)
  {
    MirrorIsNumbered(n);
    AllKept(Mirror(n).accounts);
    NumberedDiffer(Mirror(n).accounts, ID);
    SortShuffles(EVERYTHING, Mirror(n).accounts);
  }

  lemma Sized(n: nat, sel: Sel, e: Edges)
    requires Full(n, sel)
    ensures |Fetch(Mirror(n), sel, e)| == |Run(Mirror(n), sel, e)| == |Naive(Mirror(n), sel, e)| == n
  {
    MirrorIsNumbered(n);
    ShuffledRows(Rows(Mirror(n), Mirror(n).accounts, sel), Mirror(n).accounts);
  }

  // The node that shows account k.
  lemma NodeOf(n: nat, sel: Sel, e: Edges, k: nat) returns (j: nat)
    requires Full(n, sel) && k < n
    ensures var st := Mirror(n);
            var nodes := Fetch(st, sel, e);
            && j < |nodes| == |Rows(st, st.accounts, sel)| && Rows(st, st.accounts, sel)[j] == st.accounts[k]
            && Ids(nodes)[j] == k && IsLast(Ids(nodes), j)
            && (e.parent.Some? ==> Key(nodes[j], ParentAccountID) == Some(k))
            && (e.proxy.Some? ==> Key(nodes[j], ProxyID) == Some(k))
  {
    var st := Mirror(n);
    MirrorIsNumbered(n);
    j := RowOf(Rows(st, st.accounts, sel), st.accounts, k);
    ShuffledIsKeyed(Rows(st, st.accounts, sel), st.accounts);
    FetchedKeys(st, sel, e, j);
  }

  lemma RowOf(rows: seq<Row>, table: seq<Row>, k: nat) returns (j: nat)
    requires Shuffled(rows, table) && k < |table|
    ensures j < |rows| && rows[j] == table[k]
  {
    ShuffledRows(rows, table);
    assert table[k] in rows;
    j :| 0 <= j < |rows| && rows[j] == table[k];
  }

  lemma FetchedKeys(st: Store, sel: Sel, e: Edges, j: nat)
    requires KeyedBy(Rows(st, st.accounts, sel), ID) && j < |Rows(st, st.accounts, sel)|
    ensures var rows, nodes := Rows(st, st.accounts, sel), Fetch(st, sel, e);
            && |nodes| == |rows| && Ids(nodes)[j] == KeyOrZero(rows[j], ID) && IsLast(Ids(nodes), j)
            && (e.parent.Some? ==> Key(nodes[j], ParentAccountID) == Key(rows[j], ParentAccountID))
            && (e.proxy.Some? ==> Key(nodes[j], ProxyID) == Key(rows[j], ProxyID))
  {
    var rows, cols := Rows(st, st.accounts, sel), AccountColumns(sel, e);
    AccountColumnsCarry(sel, e);
    ReadIds(cols, rows);
    KeyedRowsAreLast(rows, j);
  }

  lemma ShuffledIsKeyed(rows: seq<Row>, table: seq<Row>)
    requires Shuffled(rows, table) && Numbered(table, ID)
    ensures KeyedBy(rows, ID)
  {
    ShuffledRows(rows, table);
    forall i | 0 <= i < |rows| ensures Key(rows[i], ID).Some? {
      assert rows[i] in table;
      var k :| 0 <= k < |table| && table[k] == rows[i];
    }
    forall i, j | 0 <= i < j < |rows| ensures Key(rows[i], ID) != Key(rows[j], ID) {
      assert rows[i] in table && rows[j] in table;
      var a :| 0 <= a < |table| && table[a] == rows[i];
      var b :| 0 <= b < |table| && table[b] == rows[j];
    }
  }

  // The nodes ask for every key.
  lemma KeysAsked(n: nat, sel: Sel, e: Edges)
    requires Full(n, sel)
    ensures var nodes := Fetch(Mirror(n), sel, e);
            forall k :: 0 <= k < n ==>
              && k in Ids(nodes)
              && (e.parent.Some? ==> k in Refs(KeyList(nodes, ParentAccountID)))
              && (e.proxy.Some? ==> k in Refs(KeyList(nodes, ProxyID)))
  {
    var nodes := Fetch(Mirror(n), sel, e);
    forall k | 0 <= k < n
      ensures k in Ids(nodes)
      ensures e.parent.Some? ==> k in Refs(KeyList(nodes, ParentAccountID))
      ensures e.proxy.Some? ==> k in Refs(KeyList(nodes, ProxyID))
    {
      var j := NodeOf(n, sel, e, k);
      assert KeyList(nodes, ParentAccountID)[j] == Key(nodes[j], ParentAccountID);
      assert KeyList(nodes, ProxyID)[j] == Key(nodes[j], ProxyID);
    }
  }

  lemma RunNode(st: Store, sel: Sel, e: Edges, j: nat)
    requires j < |Fetch(st, sel, e)|
    ensures var nodes := Fetch(st, sel, e);
            && j < |Run(st, sel, e)|
            && Run(st, sel, e)[j].groups == GroupsEdge(st, nodes, e, j)
            && Run(st, sel, e)[j].proxy == ProxyEdge(st, nodes, e, j)
            && Run(st, sel, e)[j].parent == ParentEdge(st, nodes, e, j)
            && Run(st, sel, e)[j].children == ChildrenEdge(st, nodes, e, j)
            && Run(st, sel, e)[j].accountGroups == AccountGroupsEdge(st, nodes, e, j)
  {
  }

  lemma NaiveNode(st: Store, sel: Sel, e: Edges, j: nat)
    requires j < |Rows(st, st.accounts, sel)|
    ensures j < |Naive(st, sel, e)|
    ensures Naive(st, sel, e)[j] == NaiveTree(st, AccountColumns(sel, e), Rows(st, st.accounts, sel)[j], e)
  {
  }

  // ------------------------------------------------------------ a window on children

  // What the children loader gives account k, and what a lookup gives it.
  lemma ChildAnswer(st: Store, nodes: seq<Row>, e: Edges, k: nat)
    requires Numbered(st.accounts, ParentAccountID) && k < |st.accounts| && e.children.Some?
    ensures var got := ChildNeighbors(st, nodes, e);
            HaveKey(got, KeyList(TreeRows(got), ParentAccountID), k) != []
            <==> st.accounts[k] in Rows(st, st.accounts, ChildrenSel(nodes, e.children.value.sel))
    ensures NaiveChildren(st, k, e) != []
       <==> Rows(st, st.accounts, e.children.value.sel.Need(ParentAccountID).And(In(ParentAccountID, [k]))) != []
  {
    var c := e.children.value;
    var asked := ChildrenSel(nodes, c.sel);
    var batch, got := Rows(st, st.accounts, asked), ChildNeighbors(st, nodes, e);
    ChildKeys(st, nodes, e);
    RowsAreMatching(st, st.accounts, asked);
    KeyInBatch(st.accounts, ParentAccountID, batch, k);
    HaveKeyExact(got, KeyList(TreeRows(got), ParentAccountID), k);
    var one := c.sel.Need(ParentAccountID).And(In(ParentAccountID, [k]));
    assert NaiveChildren(st, k, e) == Naive(st, one, c.edges);
    assert |Naive(st, one, c.edges)| == |Rows(st, st.accounts, one)|;
  }

  lemma ChildrenTell(sel: Sel, e: Edges) returns (j: nat)
    requires e.children.Some? && BareSel(e.children.value.sel) && !e.children.value.sel.Unwindowed()
    requires Full(Telling(e.children.value.sel), sel)
    ensures Differs(Telling(e.children.value.sel), sel, e, j)
  {
    var n := Telling(e.children.value.sel);
    var st, need := Mirror(n), e.children.value.sel.Need(ParentAccountID);
    var nodes := Fetch(st, sel, e);
    MirrorIsNumbered(n);
    KeysAsked(n, sel, e);
    var k := QueryTells(st, st.accounts, need, ParentAccountID, Ids(nodes));
    j := NodeOf(n, sel, e, k);
    ChildAnswer(st, nodes, e, k);
    RunNode(st, sel, e, j);
    NaiveNode(st, sel, e, j);
    Sized(n, sel, e);
  }

  // -------------------------------------------------------- a window on account groups

  lemma JunctionAnswer(st: Store, nodes: seq<Row>, e: Edges, k: nat)
    requires Numbered(st.accountGroups, AccountID) && k < |st.accountGroups| && e.accountGroups.Some?
    ensures var got := JunctionNeighbors(st, nodes, e);
            HaveKey(got, JunctionKeys(JunctionRows(got), AccountID), k) != []
            <==> st.accountGroups[k] in Rows(st, st.accountGroups, AccountGroupsSel(nodes, e.accountGroups.value.sel))
    ensures NaiveAccountGroups(st, k, e) != []
       <==> Rows(st, st.accountGroups, e.accountGroups.value.sel.Need(AccountID).And(In(AccountID, [k]))) != []
  {
    var a := e.accountGroups.value;
    var asked := AccountGroupsSel(nodes, a.sel);
    var batch, got := Rows(st, st.accountGroups, asked), JunctionNeighbors(st, nodes, e);
    JunctionRowKeys(st, nodes, e);
    RowsAreMatching(st, st.accountGroups, asked);
    KeyInBatch(st.accountGroups, AccountID, batch, k);
    HaveKeyExact(got, JunctionKeys(JunctionRows(got), AccountID), k);
    var one := a.sel.Need(AccountID).And(In(AccountID, [k]));
    assert NaiveAccountGroups(st, k, e) == NaiveJunction(st, one, a.edges);
    assert |NaiveJunction(st, one, a.edges)| == |Rows(st, st.accountGroups, one)|;
  }

  lemma JunctionRowKeys(st: Store, nodes: seq<Row>, e: Edges)
    requires e.accountGroups.Some?
    ensures JunctionKeys(JunctionRows(JunctionNeighbors(st, nodes, e)), AccountID)
         == JunctionKeys(Rows(st, st.accountGroups, AccountGroupsSel(nodes, e.accountGroups.value.sel)), AccountID)
  {
    var a := e.accountGroups.value;
    var asked := AccountGroupsSel(nodes, a.sel);
    JunctionColumnsCarry(asked, a.edges);
    ReadKeys(JunctionColumns(asked, a.edges), Rows(st, st.accountGroups, asked), AccountID);
  }

  lemma AccountGroupsTell(sel: Sel, e: Edges) returns (j: nat)
    requires e.accountGroups.Some? && BareSel(e.accountGroups.value.sel) && !e.accountGroups.value.sel.Unwindowed()
    requires Full(Telling(e.accountGroups.value.sel), sel)
    ensures Differs(Telling(e.accountGroups.value.sel), sel, e, j)
  {
    var n := Telling(e.accountGroups.value.sel);
    var st, need := Mirror(n), e.accountGroups.value.sel.Need(AccountID);
    var nodes := Fetch(st, sel, e);
    MirrorIsNumbered(n);
    KeysAsked(n, sel, e);
    var k := QueryTells(st, st.accountGroups, need, AccountID, Ids(nodes));
    j := NodeOf(n, sel, e, k);
    JunctionAnswer(st, nodes, e, k);
    RunNode(st, sel, e, j);
    NaiveNode(st, sel, e, j);
    Sized(n, sel, e);
  }

  // -------------------------------------------------------- a window on a to-one edge

  lemma ParentAnswer(st: Store, nodes: seq<Row>, e: Edges, k: nat)
    requires Numbered(st.accounts, ID) && k < |st.accounts| && e.parent.Some?
    requires Refs(KeyList(nodes, ParentAccountID)) != []
    ensures var got := ParentNeighbors(st, nodes, e);
            Lookup(got, Ids(TreeRows(got)), Some(k)).Some?
            <==> st.accounts[k] in Rows(st, st.accounts, ParentSel(nodes, e.parent.value.sel))
    ensures NaiveOne(st, e.parent.value, k).Some?
       <==> Rows(st, st.accounts, e.parent.value.sel.And(In(ID, [k]))) != []
  {
    var p := e.parent.value;
    TreesForIDs(st, ParentSel(nodes, p.sel), p.edges, k);
    assert |Naive(st, p.sel.And(In(ID, [k])), p.edges)| == |Rows(st, st.accounts, p.sel.And(In(ID, [k])))|;
  }

  lemma TreesForIDs(st: Store, sel: Sel, e: Edges, k: nat)
    requires Numbered(st.accounts, ID) && k < |st.accounts|
    ensures var got := Run(st, sel, e);
            Lookup(got, Ids(TreeRows(got)), Some(k)).Some? <==> st.accounts[k] in Rows(st, st.accounts, sel)
  {
    var rows := Rows(st, st.accounts, sel);
    AccountColumnsCarry(sel, e);
    ReadIds(AccountColumns(sel, e), rows);
    RowsAreMatching(st, st.accounts, sel);
    KeyInBatch(st.accounts, ID, rows, k);
  }

  // Both sides of a node's parent.
  lemma ParentSides(st: Store, sel: Sel, e: Edges, j: nat, k: int)
    requires e.parent.Some? && j < |Fetch(st, sel, e)| && j < |Rows(st, st.accounts, sel)|
    requires Key(Fetch(st, sel, e)[j], ParentAccountID) == Some(k)
    requires Key(Rows(st, st.accounts, sel)[j], ParentAccountID) == Some(k)
    ensures j < |Run(st, sel, e)| && j < |Naive(st, sel, e)|
    ensures var got := ParentNeighbors(st, Fetch(st, sel, e), e);
            Run(st, sel, e)[j].parent == Lookup(got, Ids(TreeRows(got)), Some(k))
    ensures Naive(st, sel, e)[j].parent == NaiveOne(st, e.parent.value, k)
  {
    RunNode(st, sel, e, j);
    NaiveNode(st, sel, e, j);
  }

  lemma ProxySides(st: Store, sel: Sel, e: Edges, j: nat, k: int)
    requires e.proxy.Some? && j < |Fetch(st, sel, e)| && j < |Rows(st, st.accounts, sel)|
    requires Key(Fetch(st, sel, e)[j], ProxyID) == Some(k)
    requires Key(Rows(st, st.accounts, sel)[j], ProxyID) == Some(k)
    ensures j < |Run(st, sel, e)| && j < |Naive(st, sel, e)|
    ensures var got := ProxyNeighbors(st, Fetch(st, sel, e), e);
            Run(st, sel, e)[j].proxy == Lookup(got, Ids(got), Some(k))
    ensures Naive(st, sel, e)[j].proxy == NaiveLeaf(st, st.proxies, e.proxy.value, k)
  {
    RunNode(st, sel, e, j);
    NaiveNode(st, sel, e, j);
  }

  lemma ParentTells(sel: Sel, e: Edges) returns (j: nat)
    requires e.parent.Some? && BareSel(e.parent.value.sel) && !e.parent.value.sel.Unwindowed()
    requires Full(Telling(e.parent.value.sel), sel)
    ensures Differs(Telling(e.parent.value.sel), sel, e, j)
  {
    var n := Telling(e.parent.value.sel);
    var st := Mirror(n);
    var nodes := Fetch(st, sel, e);
    MirrorIsNumbered(n);
    KeysAsked(n, sel, e);
    var k := QueryTells(st, st.accounts, e.parent.value.sel, ID, Refs(KeyList(nodes, ParentAccountID)));
    j := NodeOf(n, sel, e, k);
    ParentAnswer(st, nodes, e, k);
    ParentSides(st, sel, e, j, k);
    Sized(n, sel, e);
  }

  // A leaf query sent for several keys, and for one.
  lemma LeafAnswers(st: Store, table: seq<Row>, sel: Sel, keys: seq<int>, k: nat)
    requires Numbered(table, ID) && k < |table|
    ensures var got := FetchLeaf(st, table, sel.And(In(ID, keys)));
            Lookup(got, Ids(got), Some(k)).Some? <==> table[k] in Rows(st, table, sel.And(In(ID, keys)))
    ensures NaiveLeaf(st, table, sel, k).Some? <==> Rows(st, table, sel.And(In(ID, [k]))) != []
  {
    var asked := sel.And(In(ID, keys));
    var rows := Rows(st, table, asked);
    ReadIds(LeafColumns(asked), rows);
    RowsAreMatching(st, table, asked);
    KeyInBatch(table, ID, rows, k);
  }

  lemma ProxyAnswer(st: Store, nodes: seq<Row>, e: Edges, k: nat)
    requires Numbered(st.proxies, ID) && k < |st.proxies| && e.proxy.Some? && Refs(KeyList(nodes, ProxyID)) != []
    ensures var got := ProxyNeighbors(st, nodes, e);
            Lookup(got, Ids(got), Some(k)).Some?
            <==> st.proxies[k] in Rows(st, st.proxies, ProxySel(nodes, e.proxy.value))
    ensures NaiveLeaf(st, st.proxies, e.proxy.value, k).Some?
       <==> Rows(st, st.proxies, e.proxy.value.And(In(ID, [k]))) != []
  {
    LeafAnswers(st, st.proxies, e.proxy.value, Refs(KeyList(nodes, ProxyID)), k);
  }

  lemma ProxyTells(sel: Sel, e: Edges) returns (j: nat)
    requires e.proxy.Some? && BareSel(e.proxy.value) && !e.proxy.value.Unwindowed()
    requires Full(Telling(e.proxy.value), sel)
    ensures Differs(Telling(e.proxy.value), sel, e, j)
  {
    var n := Telling(e.proxy.value);
    var st := Mirror(n);
    var nodes := Fetch(st, sel, e);
    MirrorIsNumbered(n);
    KeysAsked(n, sel, e);
    var k := QueryTells(st, st.proxies, e.proxy.value, ID, Refs(KeyList(nodes, ProxyID)));
    j := NodeOf(n, sel, e, k);
    ProxyAnswer(st, nodes, e, k);
    ProxySides(st, sel, e, j, k);
    Sized(n, sel, e);
  }

  // ------------------------------------------------------------- a window on groups

  // Each group joined to the account of its own number.
  function OwnLinks(groups: seq<Row>): (res: seq<Link>)
    ensures |res| == |groups| && forall i :: 0 <= i < |res| ==> res[i] == Link(KeyOrZero(groups[i], ID), groups[i])
  {
    seq(|groups|, i requires 0 <= i < |groups| => Link(KeyOrZero(groups[i], ID), groups[i]))
  }

  lemma {:induction false} MembersNumbered(junction: seq<Row>, gid: nat, accs: seq<int>, from: nat)
    requires Numbered(junction, AccountID) && Numbered(junction, GroupID) && gid < |junction| && from <= |junction|
    ensures Members(junction[from..], gid, accs) == if from <= gid && gid in accs then [gid] else []
    decreases |junction| - from
  {
    if from < |junction| {
      MembersNumbered(junction, gid, accs, from + 1);
      assert junction[from..][0] == junction[from] && junction[from..][1..] == junction[from + 1..];
      assert Key(junction[from], AccountID) == Key(junction[from], GroupID) == Some(from);
      assert [from as int] + [] == [from as int];
    }
  }

  ghost predicate Belongs(groups: seq<Row>, n: nat) {
    forall i :: 0 <= i < |groups| ==> Key(groups[i], ID).Some? && 0 <= Key(groups[i], ID).value < n
  }

  lemma {:induction false} JoinIsOwn(groups: seq<Row>, junction: seq<Row>, accs: seq<int>)
    requires Numbered(junction, AccountID) && Numbered(junction, GroupID) && Belongs(groups, |junction|)
    ensures JoinRows(groups, junction, accs) == OwnLinks(Where([In(ID, accs)], groups))
  {
    if groups != [] {
      var init, g := groups[..|groups| - 1], groups[|groups| - 1];
      JoinIsOwn(init, junction, accs);
      assert groups == init + [g] && junction[0..] == junction;
      MembersNumbered(junction, KeyOrZero(g, ID), accs, 0);
      InOnly(ID, accs, g);
      WhereSnoc([In(ID, accs)], init, g);
      JoinLast(Where([In(ID, accs)], init), g, KeyOrZero(g, ID) in accs);
    }
  }

  lemma JoinLast(before: seq<Row>, g: Row, linked: bool)
    ensures OwnLinks(if linked then before + [g] else before)
         == OwnLinks(before) + LinksTo(if linked then [KeyOrZero(g, ID)] else [], g)
  {
  }

  lemma ShuffledBelongs(rows: seq<Row>, table: seq<Row>)
    requires Shuffled(rows, table) && Numbered(table, ID)
    ensures Belongs(rows, |table|)
  {
    ShuffledRows(rows, table);
    forall i | 0 <= i < |rows| ensures Key(rows[i], ID).Some? && 0 <= Key(rows[i], ID).value < |table| {
      assert rows[i] in table;
      var k :| 0 <= k < |table| && table[k] == rows[i];
    }
  }

  lemma WindowOfLinks(offset: nat, limit: nat, groups: seq<Row>)
    ensures Window(offset, limit, OwnLinks(groups)) == OwnLinks(Window(offset, limit, groups))
  {
  }

  // The joined rows are the answer of a plain query for those groups.
  lemma LinksAreOwn(st: Store, sel: Sel, accs: seq<int>)
    requires Numbered(st.groups, ID) && Numbered(st.accountGroups, AccountID) && Numbered(st.accountGroups, GroupID)
    requires |st.groups| == |st.accountGroups| && BareSel(sel)
    ensures Links(st, sel, accs) == OwnLinks(Rows(st, st.groups, sel.And(In(ID, accs))))
  {
    AllKept(st.groups);
    NumberedDiffer(st.groups, ID);
    SortShuffles(sel, st.groups);
    ShuffledBelongs(Sort(sel.order, st.groups), st.groups);
    JoinIsOwn(Sort(sel.order, st.groups), st.accountGroups, accs);
    WhereSort([In(ID, accs)], sel.order, st.groups);
    GroupsMatching(st, sel, In(ID, accs));
    WindowOfLinks(sel.SpecOffset(), sel.SpecLimit(), Sort(sel.order, Where([In(ID, accs)], st.groups)));
  }

  lemma GroupsMatching(st: Store, sel: Sel, p: Pred)
    requires NoDuplicates(st.groups) && BareSel(sel)
    ensures Matching(st, st.groups, sel.And(p)) == Sort(sel.order, Where([p], st.groups))
  {
    WhereKeepsDistinct([p], st.groups);
    SortShuffles(sel, Where([p], st.groups));
    assert sel.And(p).preds == [p];
  }

  lemma OwnLinked(rows: seq<Row>, k: int)
    ensures Linked(OwnLinks(rows), k, k) <==> k in Ids(rows)
    ensures LinkedGroups(OwnLinks(rows)) == rows
  {
    if k in Ids(rows) {
      var i :| 0 <= i < |rows| && Ids(rows)[i] == k;
      assert OwnLinks(rows)[i].account == k;
    }
    if Linked(OwnLinks(rows), k, k) {
      var i :| 0 <= i < |rows| && OwnLinks(rows)[i].account == k && KeyOrZero(OwnLinks(rows)[i].group, ID) == k;
      assert Ids(rows)[i] == k;
    }
  }

  lemma GroupAnswer(st: Store, sel: Sel, accs: seq<int>, k: nat)
    requires Numbered(st.groups, ID) && Numbered(st.accountGroups, AccountID) && Numbered(st.accountGroups, GroupID)
    requires |st.groups| == |st.accountGroups| && BareSel(sel) && k < |st.groups|
    ensures var links := Links(st, sel, accs);
            k in Ids(GroupsOf(links, ReadAll(LeafColumns(sel), Firsts(links)), k))
            <==> st.groups[k] in Rows(st, st.groups, sel.And(In(ID, accs)))
    ensures k in Ids(NaiveGroups(st, sel, k)) <==> Rows(st, st.groups, sel.And(In(ID, [k]))) != []
  {
    var rows, one := Rows(st, st.groups, sel.And(In(ID, accs))), Rows(st, st.groups, sel.And(In(ID, [k])));
    LinksAreOwn(st, sel, accs);
    LinksAreOwn(st, sel, [k]);
    GroupsExact(Links(st, sel, accs), LeafColumns(sel), k, k);
    OwnLinked(rows, k);
    OwnLinked(one, k);
    ReadIds(LeafColumns(sel), one);
    RowsAreMatching(st, st.groups, sel.And(In(ID, accs)));
    KeyInBatch(st.groups, ID, rows, k);
    AskedForOne(st, st.groups, sel, ID, k);
    if one != [] { assert Ids(one)[0] == k; }
  }

  lemma GroupsTell(sel: Sel, e: Edges) returns (j: nat)
    requires e.groups.Some? && BareSel(e.groups.value) && !e.groups.value.Unwindowed()
    requires Full(Telling(e.groups.value), sel)
    ensures Differs(Telling(e.groups.value), sel, e, j)
  {
    var n := Telling(e.groups.value);
    var st := Mirror(n);
    var nodes := Fetch(st, sel, e);
    MirrorIsNumbered(n);
    KeysAsked(n, sel, e);
    var k := QueryTells(st, st.groups, e.groups.value, ID, Ids(nodes));
    j := NodeOf(n, sel, e, k);
    GroupAnswer(st, e.groups.value, Ids(nodes), k);
    RunNode(st, sel, e, j);
    NaiveNode(st, sel, e, j);
    Sized(n, sel, e);
  }
}

/**
 Windows are exactly what makes eager loading differ from looking the edges up node by
 node: a plan of bare edge queries is loaded correctly on every store iff no query in
 it, at any depth, has a limit or an offset.
 */
module EagerDepth {
  import opened Wrappers
  import opened Schema
  import opened Relational
  import opened EagerSpec
  import opened EagerLaws
  import opened EagerCorollaries
  import opened EagerWindows

  // ----------------------------------------------------------------- windows below

  lemma AskedIsFull(st: Store, table: seq<Row>, sel: Sel, c: Column, keys: seq<int>)
    requires Numbered(table, c) && BareSel(sel) && sel.Unwindowed() && forall i :: 0 <= i < |table| ==> i in keys
    ensures Shuffled(Rows(st, table, sel.And(In(c, keys))), table)
  {
    AskedForAll(st, table, sel, c, keys);
    var all := Matching(st, table, sel.And(In(c, keys)));
    assert all[0..] == all;
  }

  // A lookup of one account, as a graph.
  lemma NaiveOnly(st: Store, sel: Sel, e: Edges, c: Column, k: nat)
    requires Numbered(st.accounts, c) && BareSel(sel) && sel.Unwindowed() && k < |st.accounts|
    ensures Naive(st, sel.And(In(c, [k])), e) == [NaiveTree(st, AccountColumns(sel, e), st.accounts[k], e)]
  {
    AskedForOne(st, st.accounts, sel, c, k);
  }

  // The account shown by a node of a full answer.
  lemma AccountAt(n: nat, sel: Sel, j: nat) returns (k: nat)
    requires Full(n, sel) && j < |Rows(Mirror(n), Mirror(n).accounts, sel)|
    ensures k < n == |Mirror(n).accounts| && Rows(Mirror(n), Mirror(n).accounts, sel)[j] == Mirror(n).accounts[k]
  {
    var rows, table := Rows(Mirror(n), Mirror(n).accounts, sel), Mirror(n).accounts;
    ShuffledRows(rows, table);
    assert rows[j] in table;
    k :| 0 <= k < |table| && table[k] == rows[j];
  }

  // The graph of one account is found by its ID.
  lemma FoundTree(st: Store, sel: Sel, e: Edges, j: nat, k: nat)
    requires Shuffled(Rows(st, st.accounts, sel), st.accounts) && Numbered(st.accounts, ID) && k < |st.accounts|
    requires j < |Rows(st, st.accounts, sel)| && Rows(st, st.accounts, sel)[j] == st.accounts[k]
    ensures var got := Run(st, sel, e); j < |got| && Lookup(got, Ids(TreeRows(got)), Some(k)) == Some(got[j])
  {
    var rows := Rows(st, st.accounts, sel);
    AccountColumnsCarry(sel, e);
    ReadIds(AccountColumns(sel, e), rows);
    ShuffledIsKeyed(rows, st.accounts);
    KeyedRowsAreLast(rows, j);
  }

  // A wrong graph in the answer for several IDs is found there, and not by a lookup.
  lemma OneOff(st: Store, p: Plan, keys: seq<int>, below: nat, k: nat)
    requires Numbered(st.accounts, ID) && k < |st.accounts| && BareSel(p.sel) && p.sel.Unwindowed()
    requires var asked := p.sel.And(In(ID, keys));
             && Shuffled(Rows(st, st.accounts, asked), st.accounts) && Off(st, asked, p.edges, below)
             && below < |Rows(st, st.accounts, asked)| && Rows(st, st.accounts, asked)[below] == st.accounts[k]
    ensures var got := Run(st, p.sel.And(In(ID, keys)), p.edges);
            Lookup(got, Ids(TreeRows(got)), Some(k)) != NaiveOne(st, p, k)
  {
    var asked := p.sel.And(In(ID, keys));
    FoundTree(st, asked, p.edges, below, k);
    NaiveNode(st, asked, p.edges, below);
    NaiveOnly(st, p.sel, p.edges, ID, k);
    assert AccountColumns(asked, p.edges) == AccountColumns(p.sel, p.edges);
  }

  lemma NotAlone<X>(xs: seq<X>, x: X, y: X)
    requires x in xs && x != y
    ensures xs != [y]
  {
  }

  // Such a graph is what the children loader attaches, and not what a lookup attaches.
  lemma ChildOff(st: Store, nodes: seq<Row>, e: Edges, below: nat, k: nat)
    requires Numbered(st.accounts, ParentAccountID) && k < |st.accounts|
    requires e.children.Some? && BareSel(e.children.value.sel) && e.children.value.sel.Unwindowed()
    requires var asked := ChildrenSel(nodes, e.children.value.sel);
             && Off(st, asked, e.children.value.edges, below) && below < |Rows(st, st.accounts, asked)|
             && Rows(st, st.accounts, asked)[below] == st.accounts[k]
    ensures var got := ChildNeighbors(st, nodes, e);
            HaveKey(got, KeyList(TreeRows(got), ParentAccountID), k) != NaiveChildren(st, k, e)
  {
    var c := e.children.value;
    var asked, need := ChildrenSel(nodes, c.sel), c.sel.Need(ParentAccountID);
    ChildKeys(st, nodes, e);
    var got := Run(st, asked, c.edges);
    assert ChildNeighbors(st, nodes, e) == got;
    var keys := KeyList(TreeRows(got), ParentAccountID);
    assert keys == KeyList(Rows(st, st.accounts, asked), ParentAccountID);
    assert keys[below] == Some(k);
    HaveKeyExact(got, keys, k);
    NaiveNode(st, asked, c.edges, below);
    NaiveOnly(st, need, c.edges, ParentAccountID, k);
    assert NaiveChildren(st, k, e) == Naive(st, need.And(In(ParentAccountID, [k])), c.edges);
    assert AccountColumns(asked, c.edges) == AccountColumns(need, c.edges);
    NotAlone(HaveKey(got, keys, k), got[below], Naive(st, asked, c.edges)[below]);
  }

  lemma ChildrenBelow(n: nat, sel: Sel, e: Edges, below: nat) returns (j: nat)
    requires Full(n, sel) && e.children.Some? && BareSel(e.children.value.sel) && e.children.value.sel.Unwindowed()
    requires Differs(n, ChildrenSel(Fetch(Mirror(n), sel, e), e.children.value.sel), e.children.value.edges, below)
    ensures Differs(n, sel, e, j)
  {
    var st, c := Mirror(n), e.children.value;
    var nodes := Fetch(st, sel, e);
    MirrorIsNumbered(n);
    KeysAsked(n, sel, e);
    AskedIsFull(st, st.accounts, c.sel.Need(ParentAccountID), ParentAccountID, Ids(nodes));
    Sized(n, ChildrenSel(nodes, c.sel), c.edges);
    var k := AccountAt(n, ChildrenSel(nodes, c.sel), below);
    j := NodeOf(n, sel, e, k);
    ChildOff(st, nodes, e, below, k);
    RunNode(st, sel, e, j);
    NaiveNode(st, sel, e, j);
    Sized(n, sel, e);
  }

  lemma ParentOff(st: Store, nodes: seq<Row>, e: Edges, below: nat, k: nat)
    requires Numbered(st.accounts, ID) && k < |st.accounts| && Refs(KeyList(nodes, ParentAccountID)) != []
    requires e.parent.Some? && BareSel(e.parent.value.sel) && e.parent.value.sel.Unwindowed()
    requires var asked := ParentSel(nodes, e.parent.value.sel);
             && Shuffled(Rows(st, st.accounts, asked), st.accounts) && Off(st, asked, e.parent.value.edges, below)
             && below < |Rows(st, st.accounts, asked)| && Rows(st, st.accounts, asked)[below] == st.accounts[k]
    ensures var got := ParentNeighbors(st, nodes, e);
            Lookup(got, Ids(TreeRows(got)), Some(k)) != NaiveOne(st, e.parent.value, k)
  {
    OneOff(st, e.parent.value, Refs(KeyList(nodes, ParentAccountID)), below, k);
  }

  lemma ParentBelow(n: nat, sel: Sel, e: Edges, below: nat) returns (j: nat)
    requires Full(n, sel) && e.parent.Some? && BareSel(e.parent.value.sel) && e.parent.value.sel.Unwindowed()
    requires Differs(n, ParentSel(Fetch(Mirror(n), sel, e), e.parent.value.sel), e.parent.value.edges, below)
    ensures Differs(n, sel, e, j)
  {
    var st, p := Mirror(n), e.parent.value;
    var nodes := Fetch(st, sel, e);
    MirrorIsNumbered(n);
    KeysAsked(n, sel, e);
    AskedIsFull(st, st.accounts, p.sel, ID, Refs(KeyList(nodes, ParentAccountID)));
    Sized(n, ParentSel(nodes, p.sel), p.edges);
    var k := AccountAt(n, ParentSel(nodes, p.sel), below);
    j := NodeOf(n, sel, e, k);
    ParentOff(st, nodes, e, below, k);
    ParentSides(st, sel, e, j, k);
    Sized(n, sel, e);
  }

  // ------------------------------------------------------------------- junction nodes

  // The junction query answers with every pair once.
  ghost predicate FullJunction(n: nat, sel: Sel) {
    Shuffled(Rows(Mirror(n), Mirror(n).accountGroups, sel), Mirror(n).accountGroups)
  }

  ghost predicate JunctionOff(st: Store, sel: Sel, e: JunctionEdges, j: nat) {
    && j < |RunJunction(st, sel, e)| == |NaiveJunction(st, sel, e)|
    && RunJunction(st, sel, e)[j] != NaiveJunction(st, sel, e)[j]
  }

  ghost predicate JunctionDiffers(n: nat, sel: Sel, e: JunctionEdges, j: nat) {
    JunctionOff(Mirror(n), sel, e, j)
  }

  lemma EverythingIsFullJunction(n: nat)
    ensures FullJunction(n, EVERYTHING)
  {
    MirrorIsNumbered(n);
    AllKept(Mirror(n).accountGroups);
    NumberedDiffer(Mirror(n).accountGroups, AccountID);
    SortShuffles(EVERYTHING, Mirror(n).accountGroups);
  }

  lemma SizedJunction(n: nat, sel: Sel, e: JunctionEdges)
    requires FullJunction(n, sel)
    ensures |FetchJunction(Mirror(n), sel, e)| == |Rows(Mirror(n), Mirror(n).accountGroups, sel)| == n
    ensures |RunJunction(Mirror(n), sel, e)| == |NaiveJunction(Mirror(n), sel, e)| == n
  {
    MirrorIsNumbered(n);
    ShuffledRows(Rows(Mirror(n), Mirror(n).accountGroups, sel), Mirror(n).accountGroups);
  }

  lemma PairOf(n: nat, sel: Sel, e: JunctionEdges, k: nat) returns (j: nat)
    requires FullJunction(n, sel) && k < n
    ensures var st := Mirror(n);
            var rows, nodes := Rows(st, st.accountGroups, sel), FetchJunction(st, sel, e);
            && j < |nodes| == |rows| && KeyOrZero(rows[j], AccountID) == KeyOrZero(rows[j], GroupID) == k
            && (e.account.Some? ==> KeyOrZero(nodes[j], AccountID) == k && JunctionKeys(nodes, AccountID)[j] == Some(k))
            && (e.group.Some? ==> KeyOrZero(nodes[j], GroupID) == k && JunctionKeys(nodes, GroupID)[j] == Some(k))
  {
    var st := Mirror(n);
    MirrorIsNumbered(n);
    j := RowOf(Rows(st, st.accountGroups, sel), st.accountGroups, k);
    JunctionColumnsCarry(sel, e);
  }

  lemma PairsAsked(n: nat, sel: Sel, e: JunctionEdges)
    requires FullJunction(n, sel)
    ensures var nodes := FetchJunction(Mirror(n), sel, e);
            forall k :: 0 <= k < n ==>
              && (e.account.Some? ==> k in Refs(JunctionKeys(nodes, AccountID)))
              && (e.group.Some? ==> k in Refs(JunctionKeys(nodes, GroupID)))
  {
    var nodes := FetchJunction(Mirror(n), sel, e);
    forall k | 0 <= k < n
      ensures e.account.Some? ==> k in Refs(JunctionKeys(nodes, AccountID))
      ensures e.group.Some? ==> k in Refs(JunctionKeys(nodes, GroupID))
    {
      var j := PairOf(n, sel, e, k);
    }
  }

  lemma RunPair(st: Store, sel: Sel, e: JunctionEdges, j: nat)
    requires j < |FetchJunction(st, sel, e)|
    ensures var nodes := FetchJunction(st, sel, e);
            && j < |RunJunction(st, sel, e)|
            && RunJunction(st, sel, e)[j].account == OwnerEdge(st, nodes, e, j)
            && RunJunction(st, sel, e)[j].group == MemberEdge(st, nodes, e, j)
  {
  }

  lemma NaivePair(st: Store, sel: Sel, e: JunctionEdges, j: nat)
    requires j < |Rows(st, st.accountGroups, sel)|
    ensures j < |NaiveJunction(st, sel, e)|
    ensures NaiveJunction(st, sel, e)[j]
         == NaiveJunctionTree(st, JunctionColumns(sel, e), Rows(st, st.accountGroups, sel)[j], e)
  {
  }

  // Both sides of a junction entity's account, and of its group.
  lemma OwnerSides(st: Store, sel: Sel, e: JunctionEdges, j: nat, k: int)
    requires e.account.Some? && j < |FetchJunction(st, sel, e)| && j < |Rows(st, st.accountGroups, sel)|
    requires KeyOrZero(FetchJunction(st, sel, e)[j], AccountID)
          == KeyOrZero(Rows(st, st.accountGroups, sel)[j], AccountID) == k
    ensures j < |RunJunction(st, sel, e)| && j < |NaiveJunction(st, sel, e)|
    ensures var got := OwnerNeighbors(st, FetchJunction(st, sel, e), e);
            RunJunction(st, sel, e)[j].account == Lookup(got, Ids(TreeRows(got)), Some(k))
    ensures NaiveJunction(st, sel, e)[j].account == NaiveOne(st, e.account.value, k)
  {
    RunPair(st, sel, e, j);
    NaivePair(st, sel, e, j);
  }

  lemma MemberSides(st: Store, sel: Sel, e: JunctionEdges, j: nat, k: int)
    requires e.group.Some? && j < |FetchJunction(st, sel, e)| && j < |Rows(st, st.accountGroups, sel)|
    requires KeyOrZero(FetchJunction(st, sel, e)[j], GroupID) == KeyOrZero(Rows(st, st.accountGroups, sel)[j], GroupID)
    requires KeyOrZero(Rows(st, st.accountGroups, sel)[j], GroupID) == k
    ensures j < |RunJunction(st, sel, e)| && j < |NaiveJunction(st, sel, e)|
    ensures var got := MemberNeighbors(st, FetchJunction(st, sel, e), e);
            RunJunction(st, sel, e)[j].group == Lookup(got, Ids(got), Some(k))
    ensures NaiveJunction(st, sel, e)[j].group == NaiveLeaf(st, st.groups, e.group.value, k)
  {
    RunPair(st, sel, e, j);
    NaivePair(st, sel, e, j);
  }

  lemma OwnerTells(sel: Sel, e: JunctionEdges) returns (j: nat)
    requires e.account.Some? && BareSel(e.account.value.sel) && !e.account.value.sel.Unwindowed()
    requires FullJunction(Telling(e.account.value.sel), sel)
    ensures JunctionDiffers(Telling(e.account.value.sel), sel, e, j)
  {
    var p := e.account.value;
    var n := Telling(p.sel);
    var st := Mirror(n);
    var nodes := FetchJunction(st, sel, e);
    var keys := Refs(JunctionKeys(nodes, AccountID));
    MirrorIsNumbered(n);
    PairsAsked(n, sel, e);
    var k := QueryTells(st, st.accounts, p.sel, ID, keys);
    j := PairOf(n, sel, e, k);
    TreesForIDs(st, OwnerSel(nodes, p.sel), p.edges, k);
    assert |Naive(st, p.sel.And(In(ID, [k])), p.edges)| == |Rows(st, st.accounts, p.sel.And(In(ID, [k])))|;
    OwnerSides(st, sel, e, j, k);
    SizedJunction(n, sel, e);
  }

  lemma MemberTells(sel: Sel, e: JunctionEdges) returns (j: nat)
    requires e.group.Some? && BareSel(e.group.value) && !e.group.value.Unwindowed()
    requires FullJunction(Telling(e.group.value), sel)
    ensures JunctionDiffers(Telling(e.group.value), sel, e, j)
  {
    var n := Telling(e.group.value);
    var st := Mirror(n);
    var nodes := FetchJunction(st, sel, e);
    var keys := Refs(JunctionKeys(nodes, GroupID));
    MirrorIsNumbered(n);
    PairsAsked(n, sel, e);
    var k := QueryTells(st, st.groups, e.group.value, ID, keys);
    j := PairOf(n, sel, e, k);
    LeafAnswers(st, st.groups, e.group.value, keys, k);
    MemberSides(st, sel, e, j, k);
    SizedJunction(n, sel, e);
  }

  lemma OwnerOff(st: Store, nodes: seq<Row>, e: JunctionEdges, below: nat, k: nat)
    requires Numbered(st.accounts, ID) && k < |st.accounts| && Refs(JunctionKeys(nodes, AccountID)) != []
    requires e.account.Some? && BareSel(e.account.value.sel) && e.account.value.sel.Unwindowed()
    requires var asked := OwnerSel(nodes, e.account.value.sel);
             && Shuffled(Rows(st, st.accounts, asked), st.accounts) && Off(st, asked, e.account.value.edges, below)
             && below < |Rows(st, st.accounts, asked)| && Rows(st, st.accounts, asked)[below] == st.accounts[k]
    ensures var got := OwnerNeighbors(st, nodes, e);
            Lookup(got, Ids(TreeRows(got)), Some(k)) != NaiveOne(st, e.account.value, k)
  {
    OneOff(st, e.account.value, Refs(JunctionKeys(nodes, AccountID)), below, k);
  }

  lemma OwnerBelow(n: nat, sel: Sel, e: JunctionEdges, below: nat) returns (j: nat)
    requires FullJunction(n, sel) && e.account.Some? && BareSel(e.account.value.sel) && e.account.value.sel.Unwindowed()
    requires Differs(n, OwnerSel(FetchJunction(Mirror(n), sel, e), e.account.value.sel), e.account.value.edges, below)
    ensures JunctionDiffers(n, sel, e, j)
  {
    var st, p := Mirror(n), e.account.value;
    var nodes := FetchJunction(st, sel, e);
    MirrorIsNumbered(n);
    PairsAsked(n, sel, e);
    AskedIsFull(st, st.accounts, p.sel, ID, Refs(JunctionKeys(nodes, AccountID)));
    Sized(n, OwnerSel(nodes, p.sel), p.edges);
    var k := AccountAt(n, OwnerSel(nodes, p.sel), below);
    j := PairOf(n, sel, e, k);
    OwnerOff(st, nodes, e, below, k);
    OwnerSides(st, sel, e, j, k);
    SizedJunction(n, sel, e);
  }

  // A lookup of the junction entities of one account.
  lemma NaiveOnlyPair(st: Store, sel: Sel, e: JunctionEdges, k: nat)
    requires Numbered(st.accountGroups, AccountID) && BareSel(sel) && sel.Unwindowed() && k < |st.accountGroups|
    ensures NaiveJunction(st, sel.And(In(AccountID, [k])), e)
         == [NaiveJunctionTree(st, JunctionColumns(sel, e), st.accountGroups[k], e)]
  {
    AskedForOne(st, st.accountGroups, sel, AccountID, k);
  }

  lemma PairAt(n: nat, sel: Sel, j: nat) returns (k: nat)
    requires FullJunction(n, sel) && j < |Rows(Mirror(n), Mirror(n).accountGroups, sel)|
    ensures k < n == |Mirror(n).accountGroups|
    ensures Rows(Mirror(n), Mirror(n).accountGroups, sel)[j] == Mirror(n).accountGroups[k]
  {
    var rows, table := Rows(Mirror(n), Mirror(n).accountGroups, sel), Mirror(n).accountGroups;
    ShuffledRows(rows, table);
    assert rows[j] in table;
    k :| 0 <= k < |table| && table[k] == rows[j];
  }

  lemma PairOff(st: Store, nodes: seq<Row>, e: Edges, below: nat, k: nat)
    requires Numbered(st.accountGroups, AccountID) && k < |st.accountGroups|
    requires e.accountGroups.Some? && BareSel(e.accountGroups.value.sel) && e.accountGroups.value.sel.Unwindowed()
    requires var asked := AccountGroupsSel(nodes, e.accountGroups.value.sel);
             && JunctionOff(st, asked, e.accountGroups.value.edges, below)
             && below < |Rows(st, st.accountGroups, asked)|
             && Rows(st, st.accountGroups, asked)[below] == st.accountGroups[k]
    ensures var got := JunctionNeighbors(st, nodes, e);
            HaveKey(got, JunctionKeys(JunctionRows(got), AccountID), k) != NaiveAccountGroups(st, k, e)
  {
    var a := e.accountGroups.value;
    var asked, need := AccountGroupsSel(nodes, a.sel), a.sel.Need(AccountID);
    JunctionRowKeys(st, nodes, e);
    var got := RunJunction(st, asked, a.edges);
    assert JunctionNeighbors(st, nodes, e) == got;
    var keys := JunctionKeys(JunctionRows(got), AccountID);
    assert keys == JunctionKeys(Rows(st, st.accountGroups, asked), AccountID);
    assert keys[below] == Some(k);
    HaveKeyExact(got, keys, k);
    NaivePair(st, asked, a.edges, below);
    NaiveOnlyPair(st, need, a.edges, k);
    assert NaiveAccountGroups(st, k, e) == NaiveJunction(st, need.And(In(AccountID, [k])), a.edges);
    assert JunctionColumns(asked, a.edges) == JunctionColumns(need, a.edges);
    NotAlone(HaveKey(got, keys, k), got[below], NaiveJunction(st, asked, a.edges)[below]);
  }

  lemma PairsBelow(n: nat, sel: Sel, e: Edges, below: nat) returns (j: nat)
    requires Full(n, sel) && e.accountGroups.Some?
    requires BareSel(e.accountGroups.value.sel) && e.accountGroups.value.sel.Unwindowed()
    requires JunctionDiffers(n, AccountGroupsSel(Fetch(Mirror(n), sel, e), e.accountGroups.value.sel),
                             e.accountGroups.value.edges, below)
    ensures Differs(n, sel, e, j)
  {
    var st, a := Mirror(n), e.accountGroups.value;
    var nodes := Fetch(st, sel, e);
    MirrorIsNumbered(n);
    KeysAsked(n, sel, e);
    AskedIsFull(st, st.accountGroups, a.sel.Need(AccountID), AccountID, Ids(nodes));
    SizedJunction(n, AccountGroupsSel(nodes, a.sel), a.edges);
    var k := PairAt(n, AccountGroupsSel(nodes, a.sel), below);
    j := NodeOf(n, sel, e, k);
    PairOff(st, nodes, e, below, k);
    RunNode(st, sel, e, j);
    NaiveNode(st, sel, e, j);
    Sized(n, sel, e);
  }

  // ---------------------------------------------------------------- the whole plan

  ghost predicate Windowed(sel: Option<Sel>) {
    sel.Some? && !sel.value.Unwindowed()
  }

  // The size of a store that tells the plan apart from lookups: that of the first
  // windowed query on it.
  ghost function Size(e: Edges): nat
    decreases e
  {
    if Windowed(e.groups) then Telling(e.groups.value)
    else if Windowed(e.proxy) then Telling(e.proxy.value)
    else if e.parent.Some? && !e.parent.value.sel.Unwindowed() then Telling(e.parent.value.sel)
    else if e.parent.Some? && !Plain(e.parent.value.edges) then Size(e.parent.value.edges)
    else if e.children.Some? && !e.children.value.sel.Unwindowed() then Telling(e.children.value.sel)
    else if e.children.Some? && !Plain(e.children.value.edges) then Size(e.children.value.edges)
    else if e.accountGroups.Some? && !e.accountGroups.value.sel.Unwindowed() then Telling(e.accountGroups.value.sel)
    else if e.accountGroups.Some? then JunctionSize(e.accountGroups.value.edges)
    else 0
  }

  ghost function JunctionSize(e: JunctionEdges): nat
    decreases e
  {
    if Windowed(e.group) then Telling(e.group.value)
    else if e.account.Some? && !e.account.value.sel.Unwindowed() then Telling(e.account.value.sel)
    else if e.account.Some? then Size(e.account.value.edges)
    else 0
  }

  lemma ParentTellsDeep(sel: Sel, e: Edges) returns (j: nat)
    requires e.parent.Some? && BareSel(e.parent.value.sel) && Bare(e.parent.value.edges)
    requires e.parent.value.sel.Unwindowed() && !Plain(e.parent.value.edges) && Full(Size(e.parent.value.edges), sel)
    ensures Differs(Size(e.parent.value.edges), sel, e, j)
    decreases e, 0
  {
    var p, n := e.parent.value, Size(e.parent.value.edges);
    var nodes := Fetch(Mirror(n), sel, e);
    MirrorIsNumbered(n);
    KeysAsked(n, sel, e);
    AskedIsFull(Mirror(n), Mirror(n).accounts, p.sel, ID, Refs(KeyList(nodes, ParentAccountID)));
    var below := PlanTells(ParentSel(nodes, p.sel), p.edges);
    j := ParentBelow(n, sel, e, below);
  }

  lemma ChildrenTellDeep(sel: Sel, e: Edges) returns (j: nat)
    requires e.children.Some? && BareSel(e.children.value.sel) && Bare(e.children.value.edges)
    requires e.children.value.sel.Unwindowed() && !Plain(e.children.value.edges)
             && Full(Size(e.children.value.edges), sel)
    ensures Differs(Size(e.children.value.edges), sel, e, j)
    decreases e, 0
  {
    var c, n := e.children.value, Size(e.children.value.edges);
    var nodes := Fetch(Mirror(n), sel, e);
    MirrorIsNumbered(n);
    KeysAsked(n, sel, e);
    AskedIsFull(Mirror(n), Mirror(n).accounts, c.sel.Need(ParentAccountID), ParentAccountID, Ids(nodes));
    var below := PlanTells(ChildrenSel(nodes, c.sel), c.edges);
    j := ChildrenBelow(n, sel, e, below);
  }

  lemma PairsTellDeep(sel: Sel, e: Edges) returns (j: nat)
    requires e.accountGroups.Some? && BareSel(e.accountGroups.value.sel) && BareJunction(e.accountGroups.value.edges)
    requires e.accountGroups.value.sel.Unwindowed() && !PlainJunction(e.accountGroups.value.edges)
    requires Full(JunctionSize(e.accountGroups.value.edges), sel)
    ensures Differs(JunctionSize(e.accountGroups.value.edges), sel, e, j)
    decreases e, 0
  {
    var a, n := e.accountGroups.value, JunctionSize(e.accountGroups.value.edges);
    var nodes := Fetch(Mirror(n), sel, e);
    MirrorIsNumbered(n);
    KeysAsked(n, sel, e);
    AskedIsFull(Mirror(n), Mirror(n).accountGroups, a.sel.Need(AccountID), AccountID, Ids(nodes));
    var below := JunctionPlanTells(AccountGroupsSel(nodes, a.sel), a.edges);
    j := PairsBelow(n, sel, e, below);
  }

  // On the store of that size some account is loaded wrongly.
  lemma {:induction false} PlanTells(sel: Sel, e: Edges) returns (j: nat)
    requires Bare(e) && !Plain(e) && Full(Size(e), sel)
    ensures Differs(Size(e), sel, e, j)
    decreases e, 1
  {
    if Windowed(e.groups) {
      j := GroupsTell(sel, e);
    } else if Windowed(e.proxy) {
      j := ProxyTells(sel, e);
    } else if e.parent.Some? && !e.parent.value.sel.Unwindowed() {
      j := ParentTells(sel, e);
    } else if e.parent.Some? && !Plain(e.parent.value.edges) {
      j := ParentTellsDeep(sel, e);
    } else if e.children.Some? && !e.children.value.sel.Unwindowed() {
      j := ChildrenTell(sel, e);
    } else if e.children.Some? && !Plain(e.children.value.edges) {
      j := ChildrenTellDeep(sel, e);
    } else if e.accountGroups.Some? && !e.accountGroups.value.sel.Unwindowed() {
      j := AccountGroupsTell(sel, e);
    } else {
      j := PairsTellDeep(sel, e);
    }
  }

  lemma OwnerTellsDeep(sel: Sel, e: JunctionEdges) returns (j: nat)
    requires e.account.Some? && BareSel(e.account.value.sel) && Bare(e.account.value.edges)
    requires e.account.value.sel.Unwindowed() && !Plain(e.account.value.edges)
             && FullJunction(Size(e.account.value.edges), sel)
    ensures JunctionDiffers(Size(e.account.value.edges), sel, e, j)
    decreases e, 0
  {
    var p, n := e.account.value, Size(e.account.value.edges);
    var nodes := FetchJunction(Mirror(n), sel, e);
    MirrorIsNumbered(n);
    PairsAsked(n, sel, e);
    AskedIsFull(Mirror(n), Mirror(n).accounts, p.sel, ID, Refs(JunctionKeys(nodes, AccountID)));
    var below := PlanTells(OwnerSel(nodes, p.sel), p.edges);
    j := OwnerBelow(n, sel, e, below);
  }

  lemma {:induction false} JunctionPlanTells(sel: Sel, e: JunctionEdges) returns (j: nat)
    requires BareJunction(e) && !PlainJunction(e) && FullJunction(JunctionSize(e), sel)
    ensures JunctionDiffers(JunctionSize(e), sel, e, j)
    decreases e, 1
  {
    if Windowed(e.group) {
      j := MemberTells(sel, e);
    } else if e.account.Some? && !e.account.value.sel.Unwindowed() {
      j := OwnerTells(sel, e);
    } else {
      j := OwnerTellsDeep(sel, e);
    }
  }

  /** Exactly which plans are safe to batch: with edge queries that select nothing, in any
      combination of edges and to any depth, the batched graph equals the one of per-node
      lookups on every store iff no edge query has a limit or an offset. */
  lemma WindowsExact(e: Edges)
    requires Bare(e)
    ensures Plain(e) <==> forall st :: WellFormed(st) ==> Run(st, EVERYTHING, e) == Naive(st, EVERYTHING, e)
  {
    if Plain(e) {
      forall st | WellFormed(st) ensures Run(st, EVERYTHING, e) == Naive(st, EVERYTHING, e) {
        RunIsNaive(st, EVERYTHING, e);
      }
    } else {
      var st := Mirror(Size(e));
      MirrorIsNumbered(Size(e));
      EverythingIsFull(Size(e));
      var j := PlanTells(EVERYTHING, e);
      assert WellFormed(st) && Run(st, EVERYTHING, e) != Naive(st, EVERYTHING, e);
    }
  }

  /** The same for junction queries. */
  lemma JunctionWindowsExact(e: JunctionEdges)
    requires BareJunction(e)
    ensures PlainJunction(e)
       <==> forall st :: WellFormed(st) ==> RunJunction(st, EVERYTHING, e) == NaiveJunction(st, EVERYTHING, e)
  {
    if PlainJunction(e) {
      forall st | WellFormed(st) ensures RunJunction(st, EVERYTHING, e) == NaiveJunction(st, EVERYTHING, e) {
        RunJunctionIsNaive(st, EVERYTHING, e);
      }
    } else {
      var st := Mirror(JunctionSize(e));
      MirrorIsNumbered(JunctionSize(e));
      EverythingIsFullJunction(JunctionSize(e));
      var j := JunctionPlanTells(EVERYTHING, e);
      assert WellFormed(st) && RunJunction(st, EVERYTHING, e) != NaiveJunction(st, EVERYTHING, e);
    }
  }
}

/**
 When a builder may be run again, read off its first answer: a second run on the same store
 panics iff the first one loaded a group on some groups edge.
 */
module EagerVisible {
  import opened Wrappers
  import opened Schema
  import opened Relational
  import opened EagerSpec
  import opened EagerLaws
  import opened EagerCorollaries
  import opened EagerWindows
  import opened EagerRerun
  import EagerLoad

  // Some groups edge of the graph holds a group.
  ghost predicate GroupBelow(t: Tree)
    decreases t
  {
    || t.groups != []
    || (t.parent.Some? && GroupBelow(t.parent.value))
    || (exists i :: 0 <= i < |t.children| && GroupBelow(t.children[i]))
    || (exists i :: 0 <= i < |t.accountGroups| && PairBelow(t.accountGroups[i]))
  }

  ghost predicate PairBelow(t: JunctionTree)
    decreases t
  {
    t.account.Some? && GroupBelow(t.account.value)
  }

  // Edge queries as the With methods make them, not run before, and no offset on a group
  // query.
  ghost predicate FirstUse(e: Edges)
    decreases e
  {
    && (e.groups.Some? ==> e.groups.value.Unjoined() && e.groups.value.SpecOffset() == 0)
    && (e.parent.Some? ==> e.parent.value.sel.path.None? && FirstUse(e.parent.value.edges))
    && (e.children.Some? ==> e.children.value.sel.path.None? && FirstUse(e.children.value.edges))
    && (e.accountGroups.Some? ==>
          e.accountGroups.value.sel.path.None? && FirstUseJunction(e.accountGroups.value.edges))
  }

  ghost predicate FirstUseJunction(e: JunctionEdges)
    decreases e
  {
    e.account.Some? ==> e.account.value.sel.path.None? && FirstUse(e.account.value.edges)
  }

  // ------------------------------------------------------------------ the groups edge

  ghost predicate SomeGroups(st: Store, nodes: seq<Row>, e: Edges) {
    exists j :: 0 <= j < |nodes| && GroupsEdge(st, nodes, e, j) != []
  }

  lemma LastOf(ids: seq<int>, k: int) returns (j: nat)
    requires k in ids
    ensures j < |ids| && ids[j] == k && IsLast(ids, j)
  {
    j := LastWith(ids, k);
  }

  lemma GroupsVisible(st: Store, nodes: seq<Row>, e: Edges)
    requires FirstUse(e)
    ensures QuietGroups(st, nodes, e) <==> !SomeGroups(st, nodes, e)
  {
    if e.groups.Some? {
      var sel, ids := e.groups.value, Ids(nodes);
      RowsOfTwoJoins(st, sel, ids);
      NoLinksExact(st, sel, ids);
      var links := NodeLinks(st, nodes, e);
      if links == [] {
        NoGroupsAttached(st, nodes, e);
      } else {
        var j := LinkShows(st, nodes, e, links);
      }
    } else {
      NoGroupsAttached(st, nodes, e);
    }
  }

  lemma LinkShows(st: Store, nodes: seq<Row>, e: Edges, links: seq<Link>) returns (j: nat)
    requires e.groups.Some? && links == NodeLinks(st, nodes, e) != []
    ensures j < |nodes| && GroupsEdge(st, nodes, e, j) != []
  {
    var cols, ids := LeafColumns(e.groups.value), Ids(nodes);
    EagerLoad.WindowedLinksWereAsked(st, e.groups.value, ids);
    j := LastOf(ids, links[0].account);
    var gid := KeyOrZero(links[0].group, ID);
    assert Linked(links, ids[j], gid);
    GroupsExact(links, cols, ids[j], gid);
  }

  // ------------------------------------------------------------------ the other edges

  ghost predicate Has<X>(xs: seq<X>, p: X -> bool) {
    exists i :: 0 <= i < |xs| && p(xs[i])
  }

  ghost predicate Holding(t: Option<Tree>, p: Tree -> bool) {
    t.Some? && p(t.value)
  }

  ghost predicate HasSome(ts: seq<Option<Tree>>, p: Tree -> bool) {
    exists i :: 0 <= i < |ts| && Holding(ts[i], p)
  }

  ghost predicate HasIn<X>(tss: seq<seq<X>>, p: X -> bool) {
    exists i :: 0 <= i < |tss| && Has(tss[i], p)
  }

  function Lookups(ts: seq<Tree>, ids: seq<int>, keys: seq<Option<int>>): (res: seq<Option<Tree>>)
    requires |ts| == |ids|
    ensures |res| == |keys| && forall j :: 0 <= j < |res| ==> res[j] == Lookup(ts, ids, keys[j])
  {
    seq(|keys|, j requires 0 <= j < |keys| => Lookup(ts, ids, keys[j]))
  }

  // The IDs occur once each, and are all among the keys.
  ghost predicate EachOnce(ids: seq<int>, keys: seq<Option<int>>) {
    forall k :: 0 <= k < |ids| ==> IsLast(ids, k) && Some(ids[k]) in keys
  }

  // An answer to keys that were asked is looked up by some key, and nothing else is.
  lemma LookupsFind(ts: seq<Tree>, ids: seq<int>, keys: seq<Option<int>>, p: Tree -> bool)
    requires |ts| == |ids| && EachOnce(ids, keys)
    ensures Has(ts, p) <==> HasSome(Lookups(ts, ids, keys), p)
  {
    var found := Lookups(ts, ids, keys);
    if k :| 0 <= k < |ts| && p(ts[k]) {
      assert IsLast(ids, k);
      var j :| 0 <= j < |keys| && keys[j] == Some(ids[k]);
      assert Holding(found[j], p);
    }
    if j :| 0 <= j < |found| && Holding(found[j], p) {
      assert p(ts[LastWith(ids, keys[j].value)]);
    }
  }

  // Every neighbor whose key is an ID goes to the last node of it, and nothing else does.
  function HandedOut<X>(xs: seq<X>, ks: seq<Option<int>>, ids: seq<int>): (res: seq<seq<X>>)
    requires |xs| == |ks|
    ensures |res| == |ids|
    ensures forall j :: 0 <= j < |res| ==> res[j] == if IsLast(ids, j) then HaveKey(xs, ks, ids[j]) else []
  {
    seq(|ids|, j requires 0 <= j < |ids| => if IsLast(ids, j) then HaveKey(xs, ks, ids[j]) else [])
  }

  lemma HandedTo<X>(xs: seq<X>, ks: seq<Option<int>>, ids: seq<int>, k: nat) returns (j: nat, i: nat)
    requires |xs| == |ks| && k < |ks| && ks[k].Some? && ks[k].value in ids
    ensures var out := HandedOut(xs, ks, ids); j < |out| && i < |out[j]| && out[j][i] == xs[k]
  {
    j := LastOf(ids, ks[k].value);
    HaveKeyExact(xs, ks, ids[j]);
    assert xs[k] in HaveKey(xs, ks, ids[j]);
    i :| 0 <= i < |HaveKey(xs, ks, ids[j])| && HaveKey(xs, ks, ids[j])[i] == xs[k];
  }

  lemma HandedFrom<X>(xs: seq<X>, ks: seq<Option<int>>, ids: seq<int>, j: nat, i: nat) returns (k: nat)
    requires |xs| == |ks| && j < |ids| && i < |HandedOut(xs, ks, ids)[j]|
    ensures k < |xs| && xs[k] == HandedOut(xs, ks, ids)[j][i]
  {
    assert IsLast(ids, j);
    k := Trues(Marks(ks, ids[j]))[i];
  }

  lemma AllHandedOut<X>(xs: seq<X>, ks: seq<Option<int>>, ids: seq<int>, p: X -> bool)
    requires |xs| == |ks| && forall k :: 0 <= k < |ks| ==> ks[k].Some? && ks[k].value in ids
    ensures Has(xs, p) <==> HasIn(HandedOut(xs, ks, ids), p)
  {
    var out := HandedOut(xs, ks, ids);
    if k :| 0 <= k < |xs| && p(xs[k]) {
      var j, i := HandedTo(xs, ks, ids, k);
      assert Has(out[j], p);
    }
    if j :| 0 <= j < |out| && Has(out[j], p) {
      var i :| 0 <= i < |out[j]| && p(out[j][i]);
      var k := HandedFrom(xs, ks, ids, j, i);
    }
  }

  // ------------------------------------------------------------ the edges of all nodes

  function ParentEdges(st: Store, nodes: seq<Row>, e: Edges): (res: seq<Option<Tree>>) {
    seq(|nodes|, j requires 0 <= j < |nodes| => ParentEdge(st, nodes, e, j))
  }

  function OwnerEdges(st: Store, nodes: seq<Row>, e: JunctionEdges): (res: seq<Option<Tree>>) {
    seq(|nodes|, j requires 0 <= j < |nodes| => OwnerEdge(st, nodes, e, j))
  }

  function ChildrenEdges(st: Store, nodes: seq<Row>, e: Edges): (res: seq<seq<Tree>>) {
    seq(|nodes|, j requires 0 <= j < |nodes| => ChildrenEdge(st, nodes, e, j))
  }

  function PairEdges(st: Store, nodes: seq<Row>, e: Edges): (res: seq<seq<JunctionTree>>) {
    seq(|nodes|, j requires 0 <= j < |nodes| => AccountGroupsEdge(st, nodes, e, j))
  }

  lemma ParentEdgesAre(st: Store, nodes: seq<Row>, e: Edges)
    ensures var got := ParentNeighbors(st, nodes, e);
            ParentEdges(st, nodes, e) == Lookups(got, Ids(TreeRows(got)), KeyList(nodes, ParentAccountID))
  {
  }

  lemma OwnerEdgesAre(st: Store, nodes: seq<Row>, e: JunctionEdges)
    ensures var got := OwnerNeighbors(st, nodes, e);
            OwnerEdges(st, nodes, e) == Lookups(got, Ids(TreeRows(got)), JunctionKeys(nodes, AccountID))
  {
    var got := OwnerNeighbors(st, nodes, e);
    if e.account.None? { assert Ids(TreeRows(got)) == []; }
  }

  lemma ChildrenEdgesAre(st: Store, nodes: seq<Row>, e: Edges)
    ensures var got := ChildNeighbors(st, nodes, e);
            ChildrenEdges(st, nodes, e) == HandedOut(got, KeyList(TreeRows(got), ParentAccountID), Ids(nodes))
  {
  }

  lemma PairEdgesAre(st: Store, nodes: seq<Row>, e: Edges)
    ensures var got := JunctionNeighbors(st, nodes, e);
            PairEdges(st, nodes, e) == HandedOut(got, JunctionKeys(JunctionRows(got), AccountID), Ids(nodes))
  {
  }

  // The answer to a query for the keys.
  lemma AnswerIds(st: Store, sel: Sel, e: Edges, keys: seq<Option<int>>)
    requires WellFormed(st) && sel.path.None?
    ensures EachOnce(Ids(TreeRows(Run(st, sel.And(In(ID, Refs(keys))), e))), keys)
  {
    var asked := sel.And(In(ID, Refs(keys)));
    var rows, cols := Rows(st, st.accounts, asked), AccountColumns(asked, e);
    AccountColumnsCarry(asked, e);
    ReadIds(cols, rows);
    assert TreeRows(Run(st, asked, e)) == ReadAll(cols, rows);
    RowsAreKeyed(st, st.accounts, asked);
    forall k | 0 <= k < |rows| ensures IsLast(Ids(rows), k) && Some(Ids(rows)[k]) in keys {
      KeyedRowsAreLast(rows, k);
      EagerLoad.AnswersWereAsked(st, st.accounts, sel, ID, Refs(keys), rows[k]);
    }
  }

  lemma ParentIds(st: Store, nodes: seq<Row>, e: Edges)
    requires WellFormed(st) && (e.parent.Some? ==> e.parent.value.sel.path.None?)
    ensures EachOnce(Ids(TreeRows(ParentNeighbors(st, nodes, e))), KeyList(nodes, ParentAccountID))
  {
    if e.parent.Some? && Refs(KeyList(nodes, ParentAccountID)) != [] {
      AnswerIds(st, e.parent.value.sel, e.parent.value.edges, KeyList(nodes, ParentAccountID));
    } else {
      assert Ids(TreeRows([])) == [];
    }
  }

  lemma OwnerIds(st: Store, nodes: seq<Row>, e: JunctionEdges)
    requires WellFormed(st) && (e.account.Some? ==> e.account.value.sel.path.None?)
    ensures EachOnce(Ids(TreeRows(OwnerNeighbors(st, nodes, e))), JunctionKeys(nodes, AccountID))
  {
    if e.account.Some? && Refs(JunctionKeys(nodes, AccountID)) != [] {
      AnswerIds(st, e.account.value.sel, e.account.value.edges, JunctionKeys(nodes, AccountID));
    } else {
      assert Ids(TreeRows([])) == [];
    }
  }

  lemma ParentsHanded(st: Store, nodes: seq<Row>, e: Edges, p: Tree -> bool)
    requires WellFormed(st) && (e.parent.Some? ==> e.parent.value.sel.path.None?)
    ensures Has(ParentNeighbors(st, nodes, e), p) <==> HasSome(ParentEdges(st, nodes, e), p)
  {
    var got := ParentNeighbors(st, nodes, e);
    ParentEdgesAre(st, nodes, e);
    ParentIds(st, nodes, e);
    LookupsFind(got, Ids(TreeRows(got)), KeyList(nodes, ParentAccountID), p);
  }

  lemma OwnersHanded(st: Store, nodes: seq<Row>, e: JunctionEdges, p: Tree -> bool)
    requires WellFormed(st) && (e.account.Some? ==> e.account.value.sel.path.None?)
    ensures Has(OwnerNeighbors(st, nodes, e), p) <==> HasSome(OwnerEdges(st, nodes, e), p)
  {
    var got := OwnerNeighbors(st, nodes, e);
    OwnerEdgesAre(st, nodes, e);
    OwnerIds(st, nodes, e);
    LookupsFind(got, Ids(TreeRows(got)), JunctionKeys(nodes, AccountID), p);
  }

  lemma ChildKeysAsked(st: Store, nodes: seq<Row>, e: Edges)
    ensures var keys := KeyList(TreeRows(ChildNeighbors(st, nodes, e)), ParentAccountID);
            forall k :: 0 <= k < |keys| ==> keys[k].Some? && keys[k].value in Ids(nodes)
  {
    if e.children.Some? {
      var c := e.children.value;
      ChildKeys(st, nodes, e);
      var rows := Rows(st, st.accounts, ChildrenSel(nodes, c.sel));
      forall k | 0 <= k < |rows|
        ensures Key(rows[k], ParentAccountID).Some? && Key(rows[k], ParentAccountID).value in Ids(nodes)
      {
        EagerLoad.AnswersWereAsked(st, st.accounts, c.sel.Need(ParentAccountID), ParentAccountID, Ids(nodes), rows[k]);
      }
    }
  }

  lemma ChildrenHanded(st: Store, nodes: seq<Row>, e: Edges, p: Tree -> bool)
    ensures Has(ChildNeighbors(st, nodes, e), p) <==> HasIn(ChildrenEdges(st, nodes, e), p)
  {
    var got := ChildNeighbors(st, nodes, e);
    ChildKeysAsked(st, nodes, e);
    ChildrenEdgesAre(st, nodes, e);
    AllHandedOut(got, KeyList(TreeRows(got), ParentAccountID), Ids(nodes), p);
  }

  lemma PairKeysAsked(st: Store, nodes: seq<Row>, e: Edges)
    ensures var keys := JunctionKeys(JunctionRows(JunctionNeighbors(st, nodes, e)), AccountID);
            forall k :: 0 <= k < |keys| ==> keys[k].Some? && keys[k].value in Ids(nodes)
  {
    if e.accountGroups.Some? {
      var a := e.accountGroups.value;
      JunctionRowKeys(st, nodes, e);
      var rows := Rows(st, st.accountGroups, AccountGroupsSel(nodes, a.sel));
      forall k | 0 <= k < |rows| ensures KeyOrZero(rows[k], AccountID) in Ids(nodes) {
        EagerLoad.AnswersWereAsked(st, st.accountGroups, a.sel.Need(AccountID), AccountID, Ids(nodes), rows[k]);
      }
    }
  }

  lemma PairsHanded(st: Store, nodes: seq<Row>, e: Edges, p: JunctionTree -> bool)
    ensures Has(JunctionNeighbors(st, nodes, e), p) <==> HasIn(PairEdges(st, nodes, e), p)
  {
    var got := JunctionNeighbors(st, nodes, e);
    PairKeysAsked(st, nodes, e);
    PairEdgesAre(st, nodes, e);
    AllHandedOut(got, JunctionKeys(JunctionRows(got), AccountID), Ids(nodes), p);
  }

  // ---------------------------------------------------------------------- the graph

  // What one node shows, edge by edge.
  lemma NodeBelow(st: Store, nodes: seq<Row>, e: Edges, j: nat)
    requires j < |nodes|
    ensures GroupBelow(Attach(st, nodes, e)[j])
       <==> || GroupsEdge(st, nodes, e, j) != [] || Holding(ParentEdge(st, nodes, e, j), GroupBelow)
            || Has(ChildrenEdge(st, nodes, e, j), GroupBelow) || Has(AccountGroupsEdge(st, nodes, e, j), PairBelow)
  {
    TreeBelow(Attach(st, nodes, e)[j]);
  }

  lemma TreeBelow(t: Tree)
    ensures GroupBelow(t)
       <==> || t.groups != [] || Holding(t.parent, GroupBelow)
            || Has(t.children, GroupBelow) || Has(t.accountGroups, PairBelow)
  {
  }

  // And what all of them show.
  lemma LevelBelow(st: Store, nodes: seq<Row>, e: Edges)
    requires WellFormed(st) && FirstUse(e)
    ensures Has(Attach(st, nodes, e), GroupBelow)
       <==> || SomeGroups(st, nodes, e) || Has(ParentNeighbors(st, nodes, e), GroupBelow)
            || Has(ChildNeighbors(st, nodes, e), GroupBelow) || Has(JunctionNeighbors(st, nodes, e), PairBelow)
  {
    ParentsHanded(st, nodes, e, GroupBelow);
    ChildrenHanded(st, nodes, e, GroupBelow);
    PairsHanded(st, nodes, e, PairBelow);
    NodesBelow(st, nodes, e);
  }

  lemma NodesBelow(st: Store, nodes: seq<Row>, e: Edges)
    ensures Has(Attach(st, nodes, e), GroupBelow)
       <==> || SomeGroups(st, nodes, e) || HasSome(ParentEdges(st, nodes, e), GroupBelow)
            || HasIn(ChildrenEdges(st, nodes, e), GroupBelow) || HasIn(PairEdges(st, nodes, e), PairBelow)
  {
    var ts, ps, cs, qs :=
      Attach(st, nodes, e), ParentEdges(st, nodes, e), ChildrenEdges(st, nodes, e), PairEdges(st, nodes, e);
    forall j | 0 <= j < |nodes|
      ensures GroupBelow(ts[j])
         <==> || GroupsEdge(st, nodes, e, j) != [] || Holding(ps[j], GroupBelow)
              || Has(cs[j], GroupBelow) || Has(qs[j], PairBelow)
    {
      NodeBelow(st, nodes, e, j);
    }
  }

  lemma PairBelowIs(t: JunctionTree)
    ensures PairBelow(t) <==> Holding(t.account, GroupBelow)
  {
  }

  lemma JunctionLevelBelow(st: Store, nodes: seq<Row>, e: JunctionEdges)
    requires WellFormed(st) && FirstUseJunction(e)
    ensures Has(AttachJunction(st, nodes, e), PairBelow) <==> Has(OwnerNeighbors(st, nodes, e), GroupBelow)
  {
    OwnersHanded(st, nodes, e, GroupBelow);
    var ts, os := AttachJunction(st, nodes, e), OwnerEdges(st, nodes, e);
    forall j | 0 <= j < |nodes| ensures PairBelow(ts[j]) <==> Holding(os[j], GroupBelow) {
      PairBelowIs(ts[j]);
    }
  }

  lemma NothingAsked(st: Store, nodes: seq<Row>, e: Edges)
    ensures e.parent.None? || Refs(KeyList(nodes, ParentAccountID)) == [] ==> ParentNeighbors(st, nodes, e) == []
    ensures e.children.None? ==> ChildNeighbors(st, nodes, e) == []
    ensures e.accountGroups.None? ==> JunctionNeighbors(st, nodes, e) == []
  {
  }

  /** The condition of a second run in the caller's terms: with edge queries that were not run
      before and no offset on a group query, it is met iff the graph of the first run holds no
      group on any groups edge, at any depth. */
  lemma {:induction false} QuietIsVisible(st: Store, sel: Sel, e: Edges)
    requires WellFormed(st) && FirstUse(e)
    ensures Quiet(st, sel, e) <==> !Has(Run(st, sel, e), GroupBelow)
    decreases e
  {
    var nodes := Fetch(st, sel, e);
    GroupsVisible(st, nodes, e);
    LevelBelow(st, nodes, e);
    NothingAsked(st, nodes, e);
    if e.parent.Some? { QuietIsVisible(st, ParentSel(nodes, e.parent.value.sel), e.parent.value.edges); }
    if e.children.Some? { QuietIsVisible(st, ChildrenSel(nodes, e.children.value.sel), e.children.value.edges); }
    if e.accountGroups.Some? {
      QuietJunctionIsVisible(st, AccountGroupsSel(nodes, e.accountGroups.value.sel), e.accountGroups.value.edges);
    }
  }

  lemma {:induction false} QuietJunctionIsVisible(st: Store, sel: Sel, e: JunctionEdges)
    requires WellFormed(st) && FirstUseJunction(e)
    ensures QuietJunction(st, sel, e) <==> !Has(RunJunction(st, sel, e), PairBelow)
    decreases e
  {
    var nodes := FetchJunction(st, sel, e);
    JunctionLevelBelow(st, nodes, e);
    if e.account.Some? { QuietIsVisible(st, OwnerSel(nodes, e.account.value.sel), e.account.value.edges); }
  }

  /** So a second run of a builder on the same store panics iff the first answer holds a group
      somewhere, and otherwise gives that answer again. */
  lemma RerunIsVisible(st: Store, sel: Sel, e: Edges)
    requires WellFormed(st) && FirstUse(e) && RunError(st, sel, e).None?
    ensures var used := After(st, Fetch(st, sel, e), e);
            if Has(Run(st, sel, e), GroupBelow) then RunError(st, sel, used) == Some(ScanPanic)
            else RunError(st, sel, used).None? && Run(st, sel, used) == Run(st, sel, e)
  {
    RerunExact(st, sel, e);
    QuietIsVisible(st, sel, e);
  }

  // --------------------------------------------------------------------- an instance

  // Only the groups edge, and all of it.
  ghost predicate OnlyGroups(e: Edges) {
    e == NO_EDGES.(groups := Some(EVERYTHING))
  }

  lemma OnlyGroupsIsPlain(e: Edges)
    requires OnlyGroups(e)
    ensures Plain(e) && FirstUse(e) && Runnable(e)
  {
    assert JoinsOf([]) == [];
  }

  lemma GroupLoaded(st: Store, e: Edges, i: nat, gid: int)
    requires WellFormed(st) && OnlyGroups(e) && i < |st.accounts|
    requires Joined(st.accountGroups, KeyOrZero(st.accounts[i], ID), gid) && HasID(st.groups, gid)
    ensures Has(Run(st, EVERYTHING, e), GroupBelow)
  {
    OnlyGroupsIsPlain(e);
    EverythingRows(st);
    RunIsNaive(st, EVERYTHING, e);
    AllKept(st.groups);
    NaiveGroupsExact(st, EVERYTHING, KeyOrZero(st.accounts[i], ID), gid);
    assert Naive(st, EVERYTHING, e)[i].groups == NaiveGroups(st, EVERYTHING, KeyOrZero(st.accounts[i], ID));
    assert GroupBelow(Run(st, EVERYTHING, e)[i]);
  }

  /** For instance: once an account is in some group, loading the groups of all accounts a
      second time with the same builder panics. */
  lemma SecondLoadPanics(st: Store, e: Edges, i: nat, gid: int)
    requires WellFormed(st) && OnlyGroups(e) && i < |st.accounts|
    requires Joined(st.accountGroups, KeyOrZero(st.accounts[i], ID), gid) && HasID(st.groups, gid)
    ensures RunError(st, EVERYTHING, e).None?
    ensures RunError(st, EVERYTHING, After(st, Fetch(st, EVERYTHING, e), e)) == Some(ScanPanic)
  {
    OnlyGroupsIsPlain(e);
    ValidFieldsNeverFail(st, EVERYTHING, e);
    GroupLoaded(st, e, i, gid);
    RerunIsVisible(st, EVERYTHING, e);
  }

  // Account 1 in group 7.
  const GROUPED: Store := Store(
    [map[ID := I(1)]], [map[ID := I(7)]], [], [map[AccountID := I(1), GroupID := I(7)]])

  lemma GroupedStore()
    ensures WellFormed(GROUPED) && |GROUPED.accounts| == 1 && KeyOrZero(GROUPED.accounts[0], ID) == 1
    ensures Joined(GROUPED.accountGroups, 1, 7) && HasID(GROUPED.groups, 7)
  {
    assert KeyOrZero(GROUPED.accountGroups[0], AccountID) == 1 && KeyOrZero(GROUPED.accountGroups[0], GroupID) == 7;
    assert KeyOrZero(GROUPED.groups[0], ID) == 7;
  }

  lemma PanicWitness(e: Edges)
    requires OnlyGroups(e)
    ensures RunError(GROUPED, EVERYTHING, e).None?
    ensures RunError(GROUPED, EVERYTHING, After(GROUPED, Fetch(GROUPED, EVERYTHING, e), e)) == Some(ScanPanic)
  {
    GroupedStore();
    SecondLoadPanics(GROUPED, e, 0, 7);
  }
}

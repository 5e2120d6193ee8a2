/**
 Running a builder a second time.  The loaders leave their conditions on the edge queries,
 and loadGroups leaves its join.  On an unchanged store the conditions are harmless, while
 a second join makes every row of a group query panic; on a changed store the accounts
 that are new get no children.
 */
module EagerRerun {
  import opened Wrappers
  import opened Schema
  import opened Relational
  import opened EagerSpec
  import opened EagerLaws
  import opened EagerCorollaries

  lemma {:induction false} WhereTwice(ps: seq<Pred>, p: Pred, rows: seq<Row>)
    ensures Where((ps + [p]) + [p], rows) == Where(ps + [p], rows)
  {
    WhereAnd(ps + [p], p, rows);
    WhereAnd(ps, p, rows);
    WhereSame([p], Where(ps, rows));
  }

  lemma {:induction false} WhereSame(ps: seq<Pred>, rows: seq<Row>)
    ensures Where(ps, Where(ps, rows)) == Where(ps, rows)
  {
    if rows != [] {
      WhereSame(ps, rows[1..]);
      if HoldsAll(ps, rows[0]) { WhereCons(ps, rows[0], Where(ps, rows[1..])); }
    }
  }

  lemma AskedTwice(st: Store, table: seq<Row>, sel: Sel, p: Pred)
    ensures Rows(st, table, sel.And(p).And(p)) == Rows(st, table, sel.And(p))
  {
    WhereTwice(sel.preds, p, Base(st, table, sel));
  }

  lemma NeedTwice(sel: Sel, c: Column, p: Pred)
    ensures sel.Need(c).And(p).Need(c) == sel.Need(c).And(p)
  {
  }

  // A run depends on the selection only through its answer and its columns.
  lemma SameAnswerSameRun(st: Store, sel: Sel, p: Pred, e: Edges)
    ensures Run(st, sel.And(p).And(p), e) == Run(st, sel.And(p), e)
    ensures RunError(st, sel.And(p).And(p), e) == RunError(st, sel.And(p), e)
  {
    AskedTwice(st, st.accounts, sel, p);
    assert Fetch(st, sel.And(p).And(p), e) == Fetch(st, sel.And(p), e);
  }

  lemma SameAnswerSameJunctionRun(st: Store, sel: Sel, p: Pred, e: JunctionEdges)
    ensures RunJunction(st, sel.And(p).And(p), e) == RunJunction(st, sel.And(p), e)
    ensures JunctionError(st, sel.And(p).And(p), e) == JunctionError(st, sel.And(p), e)
  {
    AskedTwice(st, st.accountGroups, sel, p);
    assert FetchJunction(st, sel.And(p).And(p), e) == FetchJunction(st, sel.And(p), e);
  }

  // --------------------------------------------------------------------- two joins

  lemma JoinsSnoc(ps: seq<Pred>, accs: seq<int>)
    ensures JoinsOf(ps + [Joins(accs)]) == JoinsOf(ps) + [accs]
  {
    assert (ps + [Joins(accs)])[..|ps|] == ps;
  }

  // A join filters no group by itself.
  lemma WhereJoins(ps: seq<Pred>, accs: seq<int>, rows: seq<Row>)
    ensures Where(ps + [Joins(accs)], rows) == Where(ps, rows)
  {
    WhereAnd(ps, Joins(accs), rows);
    AllJoin(accs, Where(ps, rows));
  }

  lemma {:induction false} AllJoin(accs: seq<int>, rows: seq<Row>)
    ensures Where([Joins(accs)], rows) == rows
  {
    if rows != [] {
      assert [Joins(accs)][0] == Joins(accs);
      AllJoin(accs, rows[1..]);
    }
  }

  lemma TimesSnoc(junction: seq<Row>, gid: int, joins: seq<seq<int>>, accs: seq<int>)
    ensures TimesJoined(junction, gid, joins + [accs])
         == TimesJoined(junction, gid, joins) * |Members(junction, gid, accs)|
  {
    assert (joins + [accs])[..|joins|] == joins;
  }

  /** Joined once, the count is that of the joined rows themselves. */
  lemma {:induction false} CountOnce(groups: seq<Row>, junction: seq<Row>, accs: seq<int>)
    ensures CountJoined(groups, junction, [accs]) == |JoinRows(groups, junction, accs)|
  {
    if groups != [] {
      var n := |groups| - 1;
      CountOnce(groups[..n], junction, accs);
      TimesOnce(junction, KeyOrZero(groups[n], ID), accs);
    }
  }

  lemma TimesOnce(junction: seq<Row>, gid: int, accs: seq<int>)
    ensures TimesJoined(junction, gid, [accs]) == |Members(junction, gid, accs)|
  {
    TimesSnoc(junction, gid, [], accs);
    assert [] + [accs] == [accs];
  }

  lemma Squares(t: nat, m: nat)
    ensures t * m <= (t * m) * m
    ensures (t * m) * m == 0 <==> t * m == 0
  {
    if m > 0 {
      assert (t * m) * m == t * m + (t * m) * (m - 1);
    }
  }

  lemma {:induction false} CountTwice(groups: seq<Row>, junction: seq<Row>, joins: seq<seq<int>>, accs: seq<int>)
    ensures CountJoined(groups, junction, joins + [accs]) <= CountJoined(groups, junction, (joins + [accs]) + [accs])
    ensures CountJoined(groups, junction, (joins + [accs]) + [accs]) == 0
       <==> CountJoined(groups, junction, joins + [accs]) == 0
  {
    if groups != [] {
      var n := |groups| - 1;
      var gid := KeyOrZero(groups[n], ID);
      CountTwice(groups[..n], junction, joins, accs);
      TimesSnoc(junction, gid, joins, accs);
      TimesSnoc(junction, gid, joins + [accs], accs);
      Squares(TimesJoined(junction, gid, joins), |Members(junction, gid, accs)|);
    }
  }

  // The group query as a second run over the same nodes sends it.
  function GroupsSelTwice(nodes: seq<Row>, sel: Sel): Sel {
    GroupsSel(nodes, GroupsSel(nodes, sel))
  }

  lemma RowsOfJoin(st: Store, sel: Sel, accs: seq<int>)
    ensures JoinedRows(st, sel.And(Joins(accs)))
         == CountJoined(Sort(sel.order, Where(sel.preds, Base(st, st.groups, sel))), st.accountGroups,
                        JoinsOf(sel.preds) + [accs])
  {
    JoinsSnoc(sel.preds, accs);
    WhereJoins(sel.preds, accs, Base(st, st.groups, sel));
  }

  lemma RowsOfTwoJoins(st: Store, sel: Sel, accs: seq<int>)
    ensures JoinedRows(st, sel.And(Joins(accs))) <= JoinedRows(st, sel.And(Joins(accs)).And(Joins(accs)))
    ensures JoinedRows(st, sel.And(Joins(accs)).And(Joins(accs))) == 0 <==> JoinedRows(st, sel.And(Joins(accs))) == 0
  {
    var once := sel.And(Joins(accs));
    RowsOfJoin(st, sel, accs);
    RowsOfJoin(st, once, accs);
    JoinsSnoc(sel.preds, accs);
    WhereJoins(sel.preds, accs, Base(st, st.groups, sel));
    CountTwice(Sort(sel.order, Where(sel.preds, Base(st, st.groups, sel))), st.accountGroups, JoinsOf(sel.preds), accs);
  }

  // The answer of a first load has no rows iff nothing is left behind the offset.
  lemma NoLinksExact(st: Store, sel: Sel, accs: seq<int>)
    requires sel.Unjoined()
    ensures Links(st, sel, accs) == [] <==> !Answers(st, sel.And(Joins(accs)))
  {
    RowsOfJoin(st, sel, accs);
    assert [] + [accs] == [accs];
    CountOnce(Sort(sel.order, Where(sel.preds, Base(st, st.groups, sel))), st.accountGroups, accs);
  }

  // ------------------------------------------------------------------ the condition

  // Joined once more, the group query would have no row to scan.
  ghost predicate QuietGroups(st: Store, nodes: seq<Row>, e: Edges) {
    e.groups.Some? ==> !Answers(st, GroupsSelTwice(nodes, e.groups.value))
  }

  // So for every group query that the run sends.
  ghost predicate Quiet(st: Store, sel: Sel, e: Edges)
    decreases e, 1
  {
    var nodes := Fetch(st, sel, e);
    nodes != [] ==>
      && QuietGroups(st, nodes, e) && QuietParent(st, nodes, e)
      && QuietChildren(st, nodes, e) && QuietAccountGroups(st, nodes, e)
  }

  ghost predicate QuietParent(st: Store, nodes: seq<Row>, e: Edges)
    decreases e, 0
  {
    e.parent.Some? && Refs(KeyList(nodes, ParentAccountID)) != [] ==>
      Quiet(st, ParentSel(nodes, e.parent.value.sel), e.parent.value.edges)
  }

  ghost predicate QuietChildren(st: Store, nodes: seq<Row>, e: Edges)
    decreases e, 0
  {
    e.children.Some? ==> Quiet(st, ChildrenSel(nodes, e.children.value.sel), e.children.value.edges)
  }

  ghost predicate QuietAccountGroups(st: Store, nodes: seq<Row>, e: Edges)
    decreases e, 0
  {
    e.accountGroups.Some? ==>
      QuietJunction(st, AccountGroupsSel(nodes, e.accountGroups.value.sel), e.accountGroups.value.edges)
  }

  ghost predicate QuietJunction(st: Store, sel: Sel, e: JunctionEdges)
    decreases e, 0
  {
    var nodes := FetchJunction(st, sel, e);
    e.account.Some? && Refs(JunctionKeys(nodes, AccountID)) != [] ==>
      Quiet(st, OwnerSel(nodes, e.account.value.sel), e.account.value.edges)
  }

  // How a part of the second run ends.
  function Outcome(quiet: bool): Option<QueryError> {
    if quiet then None else Some(ScanPanic)
  }

  // ----------------------------------------------------------------- edge by edge

  lemma GroupsAgain(st: Store, nodes: seq<Row>, e: Edges, again: Edges)
    requires GroupsError(st, nodes, e).None? && again.groups == GroupsAfter(nodes, e)
    ensures GroupsError(st, nodes, again) == Outcome(QuietGroups(st, nodes, e))
    ensures QuietGroups(st, nodes, e) ==> NodeLinks(st, nodes, again) == [] && NodeLinks(st, nodes, e) == []
  {
    if e.groups.Some? {
      var sel, ids := e.groups.value, Ids(nodes);
      JoinsSnoc(sel.preds, ids);
      RowsOfTwoJoins(st, sel, ids);
      assert !GroupsSel(nodes, sel).Unjoined();
      if sel.Unjoined() { NoLinksExact(st, sel, ids); }
    }
  }

  lemma ProxyAgain(st: Store, nodes: seq<Row>, e: Edges, again: Edges)
    requires again.proxy == ProxyAfter(nodes, e)
    ensures ProxyNeighbors(st, nodes, again) == ProxyNeighbors(st, nodes, e)
    ensures ProxyError(nodes, again) == ProxyError(nodes, e)
  {
    if e.proxy.Some? && Refs(KeyList(nodes, ProxyID)) != [] {
      AskedTwice(st, st.proxies, e.proxy.value, In(ID, Refs(KeyList(nodes, ProxyID))));
    }
  }

  // If the edge plan was left as (its query, used), asking again runs used.
  lemma ParentAgainIs(st: Store, nodes: seq<Row>, e: Edges, again: Edges, used: Edges)
    requires e.parent.Some? && Refs(KeyList(nodes, ParentAccountID)) != []
    requires again.parent == Some(Plan(ParentSel(nodes, e.parent.value.sel), used))
    ensures ParentNeighbors(st, nodes, again) == Run(st, ParentSel(nodes, e.parent.value.sel), used)
    ensures ParentError(st, nodes, again) == RunError(st, ParentSel(nodes, e.parent.value.sel), used)
  {
    SameAnswerSameRun(st, e.parent.value.sel, In(ID, Refs(KeyList(nodes, ParentAccountID))), used);
  }

  lemma ParentAgain(st: Store, nodes: seq<Row>, e: Edges, again: Edges)
    requires ParentError(st, nodes, e).None? && again.parent == ParentAfter(st, nodes, e)
    ensures ParentError(st, nodes, again) == Outcome(QuietParent(st, nodes, e))
    ensures QuietParent(st, nodes, e) ==> ParentNeighbors(st, nodes, again) == ParentNeighbors(st, nodes, e)
    decreases e, 0
  {
    if e.parent.Some? && Refs(KeyList(nodes, ParentAccountID)) != [] {
      var p := e.parent.value;
      var sel := ParentSel(nodes, p.sel);
      RerunExact(st, sel, p.edges);
      ParentAgainIs(st, nodes, e, again, After(st, Fetch(st, sel, p.edges), p.edges));
    }
  }

  lemma ChildrenAgainIs(st: Store, nodes: seq<Row>, e: Edges, again: Edges, used: Edges)
    requires e.children.Some?
    requires again.children == Some(Plan(ChildrenSel(nodes, e.children.value.sel), used))
    ensures ChildNeighbors(st, nodes, again) == Run(st, ChildrenSel(nodes, e.children.value.sel), used)
    ensures ChildrenError(st, nodes, again) == RunError(st, ChildrenSel(nodes, e.children.value.sel), used)
  {
    var sel := e.children.value.sel;
    NeedTwice(sel, ParentAccountID, In(ParentAccountID, Ids(nodes)));
    SameAnswerSameRun(st, sel.Need(ParentAccountID), In(ParentAccountID, Ids(nodes)), used);
  }

  lemma ChildrenAgain(st: Store, nodes: seq<Row>, e: Edges, again: Edges)
    requires ChildrenError(st, nodes, e).None? && again.children == ChildrenAfter(st, nodes, e)
    ensures ChildrenError(st, nodes, again) == Outcome(QuietChildren(st, nodes, e))
    ensures QuietChildren(st, nodes, e) ==> ChildNeighbors(st, nodes, again) == ChildNeighbors(st, nodes, e)
    decreases e, 0
  {
    if e.children.Some? {
      var c := e.children.value;
      var sel := ChildrenSel(nodes, c.sel);
      RerunExact(st, sel, c.edges);
      ChildrenAgainIs(st, nodes, e, again, After(st, Fetch(st, sel, c.edges), c.edges));
    }
  }

  lemma AccountGroupsAgainIs(st: Store, nodes: seq<Row>, e: Edges, again: Edges, used: JunctionEdges)
    requires e.accountGroups.Some?
    requires again.accountGroups == Some(JunctionPlan(AccountGroupsSel(nodes, e.accountGroups.value.sel), used))
    ensures JunctionNeighbors(st, nodes, again)
         == RunJunction(st, AccountGroupsSel(nodes, e.accountGroups.value.sel), used)
    ensures AccountGroupsError(st, nodes, again)
         == JunctionError(st, AccountGroupsSel(nodes, e.accountGroups.value.sel), used)
  {
    var sel := e.accountGroups.value.sel;
    NeedTwice(sel, AccountID, In(AccountID, Ids(nodes)));
    SameAnswerSameJunctionRun(st, sel.Need(AccountID), In(AccountID, Ids(nodes)), used);
  }

  lemma AccountGroupsAgain(st: Store, nodes: seq<Row>, e: Edges, again: Edges)
    requires AccountGroupsError(st, nodes, e).None? && again.accountGroups == AccountGroupsAfter(st, nodes, e)
    ensures AccountGroupsError(st, nodes, again) == Outcome(QuietAccountGroups(st, nodes, e))
    ensures QuietAccountGroups(st, nodes, e) ==> JunctionNeighbors(st, nodes, again) == JunctionNeighbors(st, nodes, e)
    decreases e, 0
  {
    if e.accountGroups.Some? {
      var a := e.accountGroups.value;
      var sel := AccountGroupsSel(nodes, a.sel);
      JunctionRerun(st, sel, a.edges);
      AccountGroupsAgainIs(st, nodes, e, again, AfterJunction(st, FetchJunction(st, sel, a.edges), a.edges));
    }
  }

  lemma AttachSame(st: Store, nodes: seq<Row>, a: Edges, b: Edges)
    requires LoadedTypes(a) == LoadedTypes(b)
    requires forall i :: 0 <= i < |nodes| ==> GroupsEdge(st, nodes, a, i) == GroupsEdge(st, nodes, b, i)
    requires ProxyNeighbors(st, nodes, a) == ProxyNeighbors(st, nodes, b)
    requires ParentNeighbors(st, nodes, a) == ParentNeighbors(st, nodes, b)
    requires ChildNeighbors(st, nodes, a) == ChildNeighbors(st, nodes, b)
    requires JunctionNeighbors(st, nodes, a) == JunctionNeighbors(st, nodes, b)
    ensures Attach(st, nodes, a) == Attach(st, nodes, b)
  {
    forall i | 0 <= i < |nodes| ensures Attach(st, nodes, a)[i] == Attach(st, nodes, b)[i] {
      assert GroupsEdge(st, nodes, a, i) == GroupsEdge(st, nodes, b, i);
    }
  }

  // Without joined rows nobody gets a group.
  lemma NoGroupsAttached(st: Store, nodes: seq<Row>, e: Edges)
    requires NodeLinks(st, nodes, e) == []
    ensures forall i :: 0 <= i < |nodes| ==> GroupsEdge(st, nodes, e, i) == []
  {
    assert GroupNeighbors(st, nodes, e) == [];
    forall i | 0 <= i < |nodes| ensures GroupsEdge(st, nodes, e, i) == [] {
      assert GroupsOf([], [], Ids(nodes)[i]) == [];
    }
  }

  lemma AfterKeepsEdges(st: Store, nodes: seq<Row>, e: Edges)
    requires nodes != []
    ensures LoadedTypes(After(st, nodes, e)) == LoadedTypes(e)
    ensures After(st, nodes, e) == Edges(GroupsAfter(nodes, e), ProxyAfter(nodes, e), ParentAfter(st, nodes, e),
                                         ChildrenAfter(st, nodes, e), AccountGroupsAfter(st, nodes, e))
  {
    assert ParentAfter(st, nodes, e).Some? == e.parent.Some?;
    assert ChildrenAfter(st, nodes, e).Some? == e.children.Some?;
    assert AccountGroupsAfter(st, nodes, e).Some? == e.accountGroups.Some?;
  }

  lemma SameColumns(st: Store, sel: Sel, e: Edges, again: Edges)
    requires LoadedTypes(e) == LoadedTypes(again)
    ensures Fetch(st, sel, again) == Fetch(st, sel, e)
  {
  }

  lemma ErrorsCombine(st: Store, nodes: seq<Row>, again: Edges, g: bool, p: bool, c: bool, a: bool)
    requires nodes != [] && ProxyError(nodes, again).None?
    requires GroupsError(st, nodes, again) == Outcome(g) && ParentError(st, nodes, again) == Outcome(p)
    requires ChildrenError(st, nodes, again) == Outcome(c) && AccountGroupsError(st, nodes, again) == Outcome(a)
    ensures AttachError(st, nodes, again) == Outcome(g && p && c && a)
  {
  }

  lemma LevelAgain(st: Store, nodes: seq<Row>, e: Edges, again: Edges)
    requires nodes != [] && AttachError(st, nodes, e).None? && again == After(st, nodes, e)
    ensures var quiet := QuietGroups(st, nodes, e) && QuietParent(st, nodes, e)
                         && QuietChildren(st, nodes, e) && QuietAccountGroups(st, nodes, e);
            && AttachError(st, nodes, again) == Outcome(quiet)
            && (quiet ==> Attach(st, nodes, again) == Attach(st, nodes, e))
    decreases e, 1
  {
    AfterKeepsEdges(st, nodes, e);
    GroupsAgain(st, nodes, e, again);
    ProxyAgain(st, nodes, e, again);
    ParentAgain(st, nodes, e, again);
    ChildrenAgain(st, nodes, e, again);
    AccountGroupsAgain(st, nodes, e, again);
    ErrorsCombine(st, nodes, again, QuietGroups(st, nodes, e), QuietParent(st, nodes, e),
                  QuietChildren(st, nodes, e), QuietAccountGroups(st, nodes, e));
    if QuietGroups(st, nodes, e) && QuietParent(st, nodes, e)
       && QuietChildren(st, nodes, e) && QuietAccountGroups(st, nodes, e) {
      NoGroupsAttached(st, nodes, e);
      NoGroupsAttached(st, nodes, again);
      AttachSame(st, nodes, again, e);
    }
  }

  /** Running the same builder again on an unchanged store, for plans of any depth and with
      any windows: it panics iff some group query of the plan would have a row to scan when
      joined once more, and otherwise the graph is the same. */
  lemma {:induction false} RerunExact(st: Store, sel: Sel, e: Edges)
    requires RunError(st, sel, e).None?
    ensures var used := After(st, Fetch(st, sel, e), e);
            && RunError(st, sel, used) == Outcome(Quiet(st, sel, e))
            && (Quiet(st, sel, e) ==> Run(st, sel, used) == Run(st, sel, e))
    decreases e, 2
  {
    var nodes := Fetch(st, sel, e);
    if nodes != [] {
      AfterKeepsEdges(st, nodes, e);
      SameColumns(st, sel, e, After(st, nodes, e));
      LevelAgain(st, nodes, e, After(st, nodes, e));
    }
  }

  lemma OwnerAgainIs(st: Store, nodes: seq<Row>, e: JunctionEdges, again: JunctionEdges, used: Edges)
    requires e.account.Some? && Refs(JunctionKeys(nodes, AccountID)) != []
    requires again.account == Some(Plan(OwnerSel(nodes, e.account.value.sel), used))
    ensures OwnerNeighbors(st, nodes, again) == Run(st, OwnerSel(nodes, e.account.value.sel), used)
    ensures OwnerError(st, nodes, again) == RunError(st, OwnerSel(nodes, e.account.value.sel), used)
  {
    SameAnswerSameRun(st, e.account.value.sel, In(ID, Refs(JunctionKeys(nodes, AccountID))), used);
  }

  lemma OwnerAgain(st: Store, nodes: seq<Row>, e: JunctionEdges, again: JunctionEdges)
    requires OwnerError(st, nodes, e).None? && again.account == OwnerAfter(st, nodes, e)
    ensures var quiet := e.account.Some? && Refs(JunctionKeys(nodes, AccountID)) != [] ==>
                           Quiet(st, OwnerSel(nodes, e.account.value.sel), e.account.value.edges);
            && OwnerError(st, nodes, again) == Outcome(quiet)
            && (quiet ==> OwnerNeighbors(st, nodes, again) == OwnerNeighbors(st, nodes, e))
    decreases e, 0
  {
    if e.account.Some? && Refs(JunctionKeys(nodes, AccountID)) != [] {
      var p := e.account.value;
      var sel := OwnerSel(nodes, p.sel);
      RerunExact(st, sel, p.edges);
      OwnerAgainIs(st, nodes, e, again, After(st, Fetch(st, sel, p.edges), p.edges));
    }
  }

  lemma MemberAgain(st: Store, nodes: seq<Row>, e: JunctionEdges, again: JunctionEdges)
    requires again.group == MemberAfter(nodes, e)
    ensures MemberNeighbors(st, nodes, again) == MemberNeighbors(st, nodes, e)
    ensures MemberError(nodes, again) == MemberError(nodes, e)
  {
    if e.group.Some? && Refs(JunctionKeys(nodes, GroupID)) != [] {
      AskedTwice(st, st.groups, e.group.value, In(ID, Refs(JunctionKeys(nodes, GroupID))));
    }
  }

  lemma AttachJunctionSame(st: Store, nodes: seq<Row>, a: JunctionEdges, b: JunctionEdges)
    requires a.account.Some? == b.account.Some? && a.group.Some? == b.group.Some?
    requires OwnerNeighbors(st, nodes, a) == OwnerNeighbors(st, nodes, b)
    requires MemberNeighbors(st, nodes, a) == MemberNeighbors(st, nodes, b)
    ensures AttachJunction(st, nodes, a) == AttachJunction(st, nodes, b)
  {
    forall i | 0 <= i < |nodes| ensures AttachJunction(st, nodes, a)[i] == AttachJunction(st, nodes, b)[i] {
      assert OwnerEdge(st, nodes, a, i) == OwnerEdge(st, nodes, b, i);
      assert MemberEdge(st, nodes, a, i) == MemberEdge(st, nodes, b, i);
    }
  }

  /** The same for the junction query. */
  lemma {:induction false} JunctionRerun(st: Store, sel: Sel, e: JunctionEdges)
    requires JunctionError(st, sel, e).None?
    ensures var used := AfterJunction(st, FetchJunction(st, sel, e), e);
            && JunctionError(st, sel, used) == Outcome(QuietJunction(st, sel, e))
            && (QuietJunction(st, sel, e) ==> RunJunction(st, sel, used) == RunJunction(st, sel, e))
    decreases e, 1
  {
    var nodes := FetchJunction(st, sel, e);
    var again := AfterJunction(st, nodes, e);
    assert FetchJunction(st, sel, again) == nodes;
    OwnerAgain(st, nodes, e, again);
    MemberAgain(st, nodes, e, again);
    if QuietJunction(st, sel, e) { AttachJunctionSame(st, nodes, again, e); }
  }

  // ------------------------------------------------------------- a changed store

  lemma {:induction false} NoneLeft(c: Column, ids: seq<int>, k: int, rows: seq<Row>)
    requires k !in ids
    ensures Where([In(c, [k])], Where([In(c, ids)], rows)) == []
  {
    if rows != [] {
      NoneLeft(c, ids, k, rows[1..]);
      InOnly(c, ids, rows[0]);
      InOnly(c, [k], rows[0]);
      if HoldsAll([In(c, ids)], rows[0]) { WhereCons([In(c, [k])], rows[0], Where([In(c, ids)], rows[1..])); }
    }
  }

  // Two key conditions, read for one key.
  lemma SplitTwice(st: Store, table: seq<Row>, sel: Sel, c: Column, first: seq<int>, second: seq<int>, k: int)
    requires PlainSel(sel) && k in second
    ensures var rows := Rows(st, table, sel.And(In(c, first)).And(In(c, second)));
            HaveKey(rows, KeyList(rows, c), k) == if k in first then Rows(st, table, sel.And(In(c, [k]))) else []
  {
    SplitMany(st, table, sel.And(In(c, first)), c, second, k);
    AndFiltersRows(st, table, sel.And(In(c, first)), In(c, [k]));
    AndFiltersRows(st, table, sel, In(c, first));
    AndFiltersRows(st, table, sel, In(c, [k]));
    if k in first {
      WhereNarrow(c, first, k, Rows(st, table, sel));
    } else {
      NoneLeft(c, first, k, Rows(st, table, sel));
    }
  }

  // The edge query for the children as the first run leaves it.
  lemma UsedChildren(st: Store, nodes: seq<Row>, e: Edges)
    requires nodes != [] && e.children.Some?
    ensures var c, used := e.children.value, After(st, nodes, e).children;
            && used.Some? && used.value.sel == c.sel.Need(ParentAccountID).And(In(ParentAccountID, Ids(nodes)))
            && LoadedTypes(used.value.edges) == LoadedTypes(c.edges)
            && (c.edges == NO_EDGES ==> used.value.edges == NO_EDGES)
  {
    var c := e.children.value;
    var kids := Fetch(st, ChildrenSel(nodes, c.sel), c.edges);
    assert After(st, nodes, e).children == ChildrenAfter(st, nodes, e);
    assert ChildrenAfter(st, nodes, e) == Some(Used(st, ChildrenSel(nodes, c.sel), c.edges));
    if kids != [] { AfterKeepsEdges(st, kids, c.edges); }
  }

  lemma FetchedIds(st: Store, sel: Sel, e: Edges, i: nat)
    requires WellFormed(st) && sel.NoRepeats() && i < |Rows(st, st.accounts, sel)|
    ensures var ids := Ids(Fetch(st, sel, e));
            i < |ids| && ids[i] == KeyOrZero(Rows(st, st.accounts, sel)[i], ID) && ids[i] in ids && IsLast(ids, i)
  {
    var rows := Rows(st, st.accounts, sel);
    AccountColumnsCarry(sel, e);
    RowsAreKeyed(st, st.accounts, sel);
    KeyedRowsAreLast(rows, i);
    ReadIds(AccountColumns(sel, e), rows);
  }

  lemma GatherTreeRows(ts: seq<Tree>, ks: seq<Option<int>>, k: int)
    requires |ts| == |ks|
    ensures TreeRows(HaveKey(ts, ks, k)) == HaveKey(TreeRows(ts), ks, k)
  {
  }

  lemma GatherRead(cols: Option<seq<Column>>, rows: seq<Row>, ks: seq<Option<int>>, k: int)
    requires |rows| == |ks|
    ensures HaveKey(ReadAll(cols, rows), ks, k) == ReadAll(cols, HaveKey(rows, ks, k))
  {
  }

  // The children of one account in the answer of a query that asks with both key lists.
  lemma AskedWithBoth(st: Store, need: Sel, e: Edges, first: seq<int>, second: seq<int>, id: int)
    requires PlainSel(need) && id in second && Reads(AccountColumns(need, e), ParentAccountID)
    ensures var got := Run(st, need.And(In(ParentAccountID, first)).And(In(ParentAccountID, second)), e);
            TreeRows(HaveKey(got, KeyList(TreeRows(got), ParentAccountID), id))
            == if id in first then
                 ReadAll(AccountColumns(need, e), Rows(st, st.accounts, need.And(In(ParentAccountID, [id]))))
               else []
  {
    var sel := need.And(In(ParentAccountID, first)).And(In(ParentAccountID, second));
    var cols, rows, got := AccountColumns(need, e), Rows(st, st.accounts, sel), Run(st, sel, e);
    assert TreeRows(got) == ReadAll(cols, rows);
    ReadKeys(cols, rows, ParentAccountID);
    GatherTreeRows(got, KeyList(rows, ParentAccountID), id);
    GatherRead(cols, rows, KeyList(rows, ParentAccountID), id);
    SplitTwice(st, st.accounts, need, ParentAccountID, first, second, id);
  }

  lemma ReusedChildren(st: Store, nodes: seq<Row>, c: Plan, first: seq<int>, used: Edges, id: int)
    requires PlainSel(c.sel) && id in Ids(nodes) && used.children.Some?
    requires used.children.value.sel == c.sel.Need(ParentAccountID).And(In(ParentAccountID, first))
    requires LoadedTypes(used.children.value.edges) == LoadedTypes(c.edges)
    ensures var got := ChildNeighbors(st, nodes, used);
            TreeRows(HaveKey(got, KeyList(TreeRows(got), ParentAccountID), id))
            == if id in first then
                 TreeRows(Naive(st, c.sel.Need(ParentAccountID).And(In(ParentAccountID, [id])), c.edges))
               else []
  {
    var need, u := c.sel.Need(ParentAccountID), used.children.value.edges;
    NeedTwice(c.sel, ParentAccountID, In(ParentAccountID, first));
    AccountColumnsCarry(need, u);
    assert AccountColumns(need, u) == AccountColumns(need, c.edges);
    AskedWithBoth(st, need, u, first, Ids(nodes), id);
    NaiveRows(st, need.And(In(ParentAccountID, [id])), c.edges);
  }

  lemma NaiveRows(st: Store, sel: Sel, e: Edges)
    ensures TreeRows(Naive(st, sel, e)) == ReadAll(AccountColumns(sel, e), Rows(st, st.accounts, sel))
  {
  }

  lemma RunChildren(st: Store, sel: Sel, e: Edges, i: nat)
    requires WellFormed(st) && sel.NoRepeats() && i < |Rows(st, st.accounts, sel)|
    ensures i < |Run(st, sel, e)|
    ensures var got := ChildNeighbors(st, Fetch(st, sel, e), e);
            Run(st, sel, e)[i].children
            == HaveKey(got, KeyList(TreeRows(got), ParentAccountID), KeyOrZero(Rows(st, st.accounts, sel)[i], ID))
  {
    FetchedIds(st, sel, e, i);
    assert Run(st, sel, e)[i].children == ChildrenEdge(st, Fetch(st, sel, e), e, i);
  }

  /** A builder reused after the store changed, whatever its other edges and whatever is
      loaded below the children.  When the second run ends well, an account's children are
      the rows a fresh builder would load if the account was already in the first answer,
      and none otherwise. */
  lemma ReuseAfterChange(st1: Store, st2: Store, sel: Sel, e: Edges, i: nat)
    requires RunError(st1, sel, e).None? && Fetch(st1, sel, e) != []
    requires e.children.Some? && PlainSel(e.children.value.sel)
    requires WellFormed(st2) && sel.NoRepeats() && i < |Rows(st2, st2.accounts, sel)|
    ensures var used := After(st1, Fetch(st1, sel, e), e);
            var id := KeyOrZero(Rows(st2, st2.accounts, sel)[i], ID);
            && i < |Run(st2, sel, used)|
            && (RunError(st2, sel, used).None? ==>
                  TreeRows(Run(st2, sel, used)[i].children)
                  == if id in Ids(Fetch(st1, sel, e)) then TreeRows(NaiveChildren(st2, id, e)) else [])
  {
    var first := Fetch(st1, sel, e);
    var used := After(st1, first, e);
    var id := KeyOrZero(Rows(st2, st2.accounts, sel)[i], ID);
    UsedChildren(st1, first, e);
    FetchedIds(st2, sel, used, i);
    RunChildren(st2, sel, used, i);
    ReusedChildren(st2, Fetch(st2, sel, used), e.children.value, Ids(first), used, id);
    var c := e.children.value;
    assert NaiveChildren(st2, id, e) == Naive(st2, c.sel.Need(ParentAccountID).And(In(ParentAccountID, [id])), c.edges);
  }

  /** It does not end well if the groups edge is loaded and the group query, now joined to
      the accounts of both answers, has a row to scan. */
  lemma ReuseAfterChangePanics(st1: Store, st2: Store, sel: Sel, e: Edges)
    requires RunError(st1, sel, e).None? && Fetch(st1, sel, e) != [] && e.groups.Some?
    ensures var first := Fetch(st1, sel, e);
            var used := After(st1, first, e);
            var second := Fetch(st2, sel, used);
            second != [] && Answers(st2, GroupsSel(second, GroupsSel(first, e.groups.value))) ==>
              RunError(st2, sel, used) == Some(ScanPanic)
  {
    var first := Fetch(st1, sel, e);
    var used := After(st1, first, e);
    AfterKeepsEdges(st1, first, e);
    GroupsLoadFirst(st1, sel, e);
    if Fetch(st2, sel, used) != [] { GroupsLoadFirst(st2, sel, used); }
    if Answers(st2, GroupsSel(Fetch(st2, sel, used), GroupsSel(first, e.groups.value))) {
      JoinedPanics(st2, first, Fetch(st2, sel, used), e, used);
    }
  }

  // The groups edge is the first to fail.
  lemma GroupsAttachFirst(st: Store, nodes: seq<Row>, e: Edges)
    requires nodes != []
    ensures AttachError(st, nodes, e).None? ==> GroupsError(st, nodes, e).None?
    ensures GroupsError(st, nodes, e).Some? ==> AttachError(st, nodes, e) == GroupsError(st, nodes, e)
  {
    assert AttachError(st, nodes, e)
        == OrElse(FirstError(st, nodes, e), OrElse(ChildrenError(st, nodes, e), AccountGroupsError(st, nodes, e)));
  }

  lemma GroupsLoadFirst(st: Store, sel: Sel, e: Edges)
    requires Fetch(st, sel, e) != []
    ensures RunError(st, sel, e).None? ==>
              Prepared(sel.fields, ValidAccountColumn).None? && GroupsError(st, Fetch(st, sel, e), e).None?
    ensures Prepared(sel.fields, ValidAccountColumn).None? && GroupsError(st, Fetch(st, sel, e), e).Some? ==>
              RunError(st, sel, e) == GroupsError(st, Fetch(st, sel, e), e)
  {
    GroupsAttachFirst(st, Fetch(st, sel, e), e);
  }

  lemma JoinedPanics(st: Store, first: seq<Row>, second: seq<Row>, e: Edges, used: Edges)
    requires e.groups.Some? && Prepared(e.groups.value.fields, ValidGroupColumn).None?
    requires used.groups == GroupsAfter(first, e)
    requires Answers(st, GroupsSel(second, GroupsSel(first, e.groups.value)))
    ensures GroupsError(st, second, used) == Some(ScanPanic)
  {
    JoinsSnoc(e.groups.value.preds, Ids(first));
    assert !GroupsSel(first, e.groups.value).Unjoined();
  }

  /** With nothing loaded below the children these rows are all there is to them. */
  lemma ReuseAfterChangeFlat(st1: Store, st2: Store, sel: Sel, e: Edges, i: nat)
    requires RunError(st1, sel, e).None? && Fetch(st1, sel, e) != []
    requires e.children.Some? && PlainSel(e.children.value.sel) && e.children.value.edges == NO_EDGES
    requires WellFormed(st2) && sel.NoRepeats() && i < |Rows(st2, st2.accounts, sel)|
    ensures var used := After(st1, Fetch(st1, sel, e), e);
            var id := KeyOrZero(Rows(st2, st2.accounts, sel)[i], ID);
            && i < |Run(st2, sel, used)|
            && (RunError(st2, sel, used).None? ==>
                  Run(st2, sel, used)[i].children
                  == if id in Ids(Fetch(st1, sel, e)) then NaiveChildren(st2, id, e) else [])
  {
    var first := Fetch(st1, sel, e);
    var used := After(st1, first, e);
    ReuseAfterChange(st1, st2, sel, e, i);
    if RunError(st2, sel, used).None? {
      var id := KeyOrZero(Rows(st2, st2.accounts, sel)[i], ID);
      UsedChildren(st1, first, e);
      RunChildren(st2, sel, used, i);
      FlatChildren(st2, Fetch(st2, sel, used), used, id);
      var c := e.children.value;
      var one := c.sel.Need(ParentAccountID).And(In(ParentAccountID, [id]));
      assert NaiveChildren(st2, id, e) == Naive(st2, one, NO_EDGES);
      SameFlat(Run(st2, sel, used)[i].children, if id in Ids(first) then Naive(st2, one, NO_EDGES) else []);
    }
  }

  // A node with nothing loaded.
  ghost predicate Flat(t: Tree) {
    t == Tree(t.fields, LoadedTypes(NO_EDGES), [], None, None, [], [])
  }

  lemma SameFlat(a: seq<Tree>, b: seq<Tree>)
    requires TreeRows(a) == TreeRows(b)
    requires (forall t :: t in a ==> Flat(t)) && (forall t :: t in b ==> Flat(t))
    ensures a == b
  {
    assert |a| == |TreeRows(a)| && |b| == |TreeRows(b)|;
    forall i | 0 <= i < |a| ensures a[i] == b[i] {
      assert TreeRows(a)[i] == TreeRows(b)[i] && Flat(a[i]) && Flat(b[i]);
    }
  }

  lemma FlatChildren(st: Store, nodes: seq<Row>, e: Edges, k: int)
    requires e.children.Some? && e.children.value.edges == NO_EDGES
    ensures var got := ChildNeighbors(st, nodes, e);
            forall t :: t in HaveKey(got, KeyList(TreeRows(got), ParentAccountID), k) ==> Flat(t)
  {
    var sel := ChildrenSel(nodes, e.children.value.sel);
    var kids := Fetch(st, sel, NO_EDGES);
    forall i | 0 <= i < |kids| ensures Flat(Run(st, sel, NO_EDGES)[i]) {
      NothingLoaded(st, kids, i);
    }
  }

  lemma NothingLoaded(st: Store, nodes: seq<Row>, i: nat)
    requires i < |nodes|
    ensures GroupsEdge(st, nodes, NO_EDGES, i) == [] && ProxyEdge(st, nodes, NO_EDGES, i) == None
    ensures ParentEdge(st, nodes, NO_EDGES, i) == None && ChildrenEdge(st, nodes, NO_EDGES, i) == []
    ensures AccountGroupsEdge(st, nodes, NO_EDGES, i) == []
  {
  }

  lemma AllIds(st: Store, e: Edges)
    ensures Ids(Fetch(st, EVERYTHING, e)) == Ids(st.accounts) && |Run(st, EVERYTHING, e)| == |st.accounts|
  {
    EverythingRows(st);
    AccountColumnsCarry(EVERYTHING, e);
    ReadIds(AccountColumns(EVERYTHING, e), st.accounts);
  }

  // Such a plan never fails, used or not.
  lemma OnlyChildrenRuns(st1: Store, st2: Store, e: Edges)
    requires OnlyChildren(e) && st1.accounts != []
    ensures RunError(st1, EVERYTHING, e).None?
    ensures RunError(st2, EVERYTHING, After(st1, Fetch(st1, EVERYTHING, e), e)).None?
  {
    ValidFieldsNeverFail(st1, EVERYTHING, e);
    AllIds(st1, e);
    var first := Fetch(st1, EVERYTHING, e);
    assert |first| == |Ids(first)|;
    UsedChildren(st1, first, e);
    AfterKeepsEdges(st1, first, e);
    ValidFieldsNeverFail(st2, EVERYTHING, After(st1, first, e));
  }

  /** For instance: when an account and its child are added after a builder has run, the
      builder does not load the child, and a fresh one does. */
  lemma ReuseLosesChildren(st1: Store, st2: Store, e: Edges, i: nat, k: nat)
    requires OnlyChildren(e) && st1.accounts != [] && WellFormed(st2) && i < |st2.accounts| && k < |st2.accounts|
    requires Key(st2.accounts[k], ParentAccountID) == Key(st2.accounts[i], ID)
    requires KeyOrZero(st2.accounts[i], ID) !in Ids(st1.accounts)
    ensures var used := After(st1, Fetch(st1, EVERYTHING, e), e);
            && RunError(st2, EVERYTHING, used).None? && RunError(st2, EVERYTHING, e).None?
            && |Run(st2, EVERYTHING, used)| == |Run(st2, EVERYTHING, e)| == |st2.accounts|
            && Run(st2, EVERYTHING, used)[i].children == [] && Run(st2, EVERYTHING, e)[i].children != []
  {
    EverythingRows(st1);
    EverythingRows(st2);
    AllIds(st1, e);
    AllIds(st2, e);
    AllIds(st2, After(st1, Fetch(st1, EVERYTHING, e), e));
    OnlyChildrenRuns(st1, st2, e);
    ValidFieldsNeverFail(st2, EVERYTHING, e);
    ReuseAfterChangeFlat(st1, st2, EVERYTHING, e, i);
    RunIsNaive(st2, EVERYTHING, e);
    ChildFound(st2, e, k, KeyOrZero(st2.accounts[i], ID));
  }

  // Account 1 alone, and later also account 2 with its child 3.
  const BEFORE: Store := Store([map[ID := I(1)]], [], [], [])
  const LATER: Store := Store(
    [map[ID := I(1)], map[ID := I(2)], map[ID := I(3), ParentAccountID := I(2)]], [], [], [])

  lemma LaterAccounts()
    ensures WellFormed(BEFORE) && WellFormed(LATER)
    ensures |BEFORE.accounts| == 1 && |LATER.accounts| == 3
    ensures Ids(BEFORE.accounts) == [1]
            && Key(LATER.accounts[1], ID) == Key(LATER.accounts[2], ParentAccountID) == Some(2)
  {
  }

  lemma ReuseWitness(e: Edges)
    requires OnlyChildren(e)
    ensures var used := After(BEFORE, Fetch(BEFORE, EVERYTHING, e), e);
            && RunError(LATER, EVERYTHING, used).None?
            && |Run(LATER, EVERYTHING, used)| == |Run(LATER, EVERYTHING, e)| == 3
            && Run(LATER, EVERYTHING, used)[1].children == [] && Run(LATER, EVERYTHING, e)[1].children != []
  {
    LaterAccounts();
    ReuseLosesChildren(BEFORE, LATER, e, 1, 2);
  }
}

/**
 Batched eager loading agrees with looking every edge up node by node.
 */
module EagerLaws {
  import opened Wrappers
  import opened Schema
  import opened Relational
  import opened EagerSpec

  // ------------------------------------------------------------ splitting by key

  lemma {:induction false} WhereNarrow(c: Column, ids: seq<int>, k: int, rows: seq<Row>)
    requires k in ids
    ensures Where([In(c, [k])], Where([In(c, ids)], rows)) == Where([In(c, [k])], rows)
  {
    if rows != [] {
      var r, rest := rows[0], rows[1..];
      WhereNarrow(c, ids, k, rest);
      InOnly(c, ids, r);
      InOnly(c, [k], r);
      if HoldsAll([In(c, ids)], r) {
        WhereCons([In(c, [k])], r, Where([In(c, ids)], rest));
      }
    }
  }

  lemma InOnly(c: Column, ids: seq<int>, r: Row)
    ensures HoldsAll([In(c, ids)], r) <==> Key(r, c).Some? && Key(r, c).value in ids
  {
    assert [In(c, ids)][0] == In(c, ids);
  }

  lemma TruesSnoc(marks: seq<bool>, b: bool)
    ensures Trues(marks + [b]) == Trues(marks) + (if b then [|marks|] else [])
  {
    assert (marks + [b])[..|marks|] == marks;
  }

  // The positions come in order, and none is missing.
  lemma {:induction false} TruesAscending(marks: seq<bool>)
    ensures forall i, j :: 0 <= i < j < |Trues(marks)| ==> Trues(marks)[i] < Trues(marks)[j]
    ensures forall k :: 0 <= k < |marks| && marks[k] ==> k in Trues(marks)
  {
    if marks != [] {
      TruesAscending(marks[..|marks| - 1]);
    }
  }

  lemma {:induction false} HaveKeyIsWhere(c: Column, k: int, rows: seq<Row>)
    ensures HaveKey(rows, KeyList(rows, c), k) == Where([In(c, [k])], rows)
  {
    if rows != [] {
      var init, x := rows[..|rows| - 1], rows[|rows| - 1];
      assert rows == init + [x];
      HaveKeyIsWhere(c, k, init);
      WhereSnoc([In(c, [k])], init, x);
      InOnly(c, [k], x);
      HaveKeyLast(c, k, init, x);
    }
  }

  lemma HaveKeyLast(c: Column, k: int, rows: seq<Row>, x: Row)
    ensures HaveKey(rows + [x], KeyList(rows + [x], c), k)
         == HaveKey(rows, KeyList(rows, c), k) + (if Key(x, c) == Some(k) then [x] else [])
  {
    assert Marks(KeyList(rows + [x], c), k) == Marks(KeyList(rows, c), k) + [Key(x, c) == Some(k)];
    GatherSnoc(rows, x, Marks(KeyList(rows, c), k), Key(x, c) == Some(k));
  }

  lemma LookupIsFirst(rows: seq<Row>, k: int)
    requires KeyedBy(rows, ID)
    ensures Lookup(rows, Ids(rows), Some(k)) == FirstOf(Where([In(ID, [k])], rows))
  {
    var j := LastWith(Ids(rows), k);
    var hits := Where([In(ID, [k])], rows);
    forall r | r in rows ensures r in hits <==> KeyOrZero(r, ID) == k {
      InOnly(ID, [k], r);
    }
    if j == -1 {
      forall i | 0 <= i < |rows| ensures KeyOrZero(rows[i], ID) != k {
        assert Ids(rows)[i] in Ids(rows);
      }
    } else {
      assert KeyOrZero(rows[j], ID) == k;
      assert rows[j] in hits;
      assert hits[0] in rows;
      var i :| 0 <= i < |rows| && rows[i] == hits[0];
      assert Key(rows[i], ID) == Key(rows[j], ID);
    }
  }

  // --------------------------------------------------------- columns that are read

  ghost predicate Reads(cols: Option<seq<Column>>, c: Column) {
    cols.None? || c in cols.value
  }

  // querySpec keeps every column that the loaders read.
  ghost predicate Carries(cols: Option<seq<Column>>, e: Edges) {
    Reads(cols, ID) && (e.proxy.Some? ==> Reads(cols, ProxyID)) && (e.parent.Some? ==> Reads(cols, ParentAccountID))
  }

  lemma AccountColumnsCarry(sel: Sel, e: Edges)
    ensures Carries(AccountColumns(sel, e), e)
    ensures sel.fields != [] ==> AccountColumns(sel, e).value[0] == ID
    ensures forall c :: c in sel.fields ==> Reads(AccountColumns(sel, e), c)
  {
  }

  lemma ReadKeys(cols: Option<seq<Column>>, rows: seq<Row>, c: Column)
    requires Reads(cols, c)
    ensures KeyList(ReadAll(cols, rows), c) == KeyList(rows, c)
    ensures JunctionKeys(ReadAll(cols, rows), c) == JunctionKeys(rows, c)
  {
  }

  lemma ReadIds(cols: Option<seq<Column>>, rows: seq<Row>)
    requires Reads(cols, ID)
    ensures Ids(ReadAll(cols, rows)) == Ids(rows)
  {
  }

  lemma RefsOf(rows: seq<Row>, c: Column, i: nat)
    requires i < |rows| && Key(rows[i], c).Some?
    ensures Key(rows[i], c).value in Refs(KeyList(rows, c))
  {
    assert KeyList(rows, c)[i] == Some(Key(rows[i], c).value);
  }

  lemma JunctionRefsOf(rows: seq<Row>, c: Column, i: nat)
    requires i < |rows|
    ensures KeyOrZero(rows[i], c) in Refs(JunctionKeys(rows, c))
  {
    assert JunctionKeys(rows, c)[i] == Some(KeyOrZero(rows[i], c));
  }

  // ------------------------------------------------------------------ plain plans

  // An edge query comes from Client.Query, so it has no traversal path.
  ghost predicate PlainSel(sel: Sel) {
    sel.path.None? && sel.Unwindowed()
  }

  // No edge query, at any depth, carries a limit or an offset, and none has loaded groups
  // before.
  ghost predicate Plain(e: Edges)
    decreases e
  {
    && (e.groups.Some? ==> PlainSel(e.groups.value) && e.groups.value.Unjoined())
    && (e.proxy.Some? ==> PlainSel(e.proxy.value))
    && (e.parent.Some? ==> PlainSel(e.parent.value.sel) && Plain(e.parent.value.edges))
    && (e.children.Some? ==> PlainSel(e.children.value.sel) && Plain(e.children.value.edges))
    && (e.accountGroups.Some? ==>
          PlainSel(e.accountGroups.value.sel) && PlainJunction(e.accountGroups.value.edges))
  }

  ghost predicate PlainJunction(e: JunctionEdges)
    decreases e
  {
    && (e.account.Some? ==> PlainSel(e.account.value.sel) && Plain(e.account.value.edges))
    && (e.group.Some? ==> PlainSel(e.group.value))
  }

  // ---------------------------------------------------------------- to-one edges

  // Asking for all keys and picking one is asking for that one.
  lemma SplitOne(st: Store, table: seq<Row>, sel: Sel, ids: seq<int>, k: int)
    requires KeyedBy(table, ID) && PlainSel(sel) && k in ids
    ensures KeyedBy(Rows(st, table, sel.And(In(ID, ids))), ID)
    ensures var rows := Rows(st, table, sel.And(In(ID, ids)));
            Lookup(rows, Ids(rows), Some(k)) == FirstOf(Rows(st, table, sel.And(In(ID, [k]))))
  {
    AndFiltersRows(st, table, sel, In(ID, ids));
    AndFiltersRows(st, table, sel, In(ID, [k]));
    WhereNarrow(ID, ids, k, Rows(st, table, sel));
    RowsAreKeyed(st, table, sel.And(In(ID, ids)));
    LookupIsFirst(Rows(st, table, sel.And(In(ID, ids))), k);
  }

  lemma LeafAgrees(st: Store, table: seq<Row>, sel: Sel, ids: seq<int>, k: int)
    requires KeyedBy(table, ID) && PlainSel(sel) && k in ids
    ensures var got := FetchLeaf(st, table, sel.And(In(ID, ids)));
            Lookup(got, Ids(got), Some(k)) == NaiveLeaf(st, table, sel, k)
  {
    SplitOne(st, table, sel, ids, k);
    ReadIds(LeafColumns(sel), Rows(st, table, sel.And(In(ID, ids))));
  }

  lemma OneAgrees(st: Store, p: Plan, ids: seq<int>, k: int)
    requires KeyedBy(st.accounts, ID) && PlainSel(p.sel) && k in ids
    ensures var got := Naive(st, p.sel.And(In(ID, ids)), p.edges);
            Lookup(got, Ids(TreeRows(got)), Some(k)) == NaiveOne(st, p, k)
  {
    var sel := p.sel.And(In(ID, ids));
    var cols := AccountColumns(p.sel, p.edges);
    SplitOne(st, st.accounts, p.sel, ids, k);
    AccountColumnsCarry(p.sel, p.edges);
    var rows := Rows(st, st.accounts, sel);
    ReadIds(cols, rows);
    assert TreeRows(Naive(st, sel, p.edges)) == ReadAll(cols, rows);
  }

  // --------------------------------------------------------------- to-many edges

  lemma SplitMany(st: Store, table: seq<Row>, sel: Sel, c: Column, ids: seq<int>, k: int)
    requires PlainSel(sel) && k in ids
    ensures var rows := Rows(st, table, sel.And(In(c, ids)));
            HaveKey(rows, KeyList(rows, c), k) == Rows(st, table, sel.And(In(c, [k])))
  {
    AndFiltersRows(st, table, sel, In(c, ids));
    AndFiltersRows(st, table, sel, In(c, [k]));
    WhereNarrow(c, ids, k, Rows(st, table, sel));
    HaveKeyIsWhere(c, k, Rows(st, table, sel.And(In(c, ids))));
  }

  // Picking trees by key is building the trees of the picked rows.
  lemma PickTrees(st: Store, cols: Option<seq<Column>>, rows: seq<Row>, e: Edges, c: Column, k: int)
    requires Reads(cols, c)
    ensures var ts := NaiveTrees(st, cols, rows, e);
            TreeRows(ts) == ReadAll(cols, rows)
            && HaveKey(ts, KeyList(TreeRows(ts), c), k) == NaiveTrees(st, cols, HaveKey(rows, KeyList(rows, c), k), e)
  {
    var ts := NaiveTrees(st, cols, rows, e);
    assert TreeRows(ts) == ReadAll(cols, rows);
    ReadKeys(cols, rows, c);
  }

  lemma ManyAgree(st: Store, p: Plan, ids: seq<int>, k: int)
    requires PlainSel(p.sel) && k in ids
    ensures var got := Naive(st, p.sel.Need(ParentAccountID).And(In(ParentAccountID, ids)), p.edges);
            HaveKey(got, KeyList(TreeRows(got), ParentAccountID), k)
            == Naive(st, p.sel.Need(ParentAccountID).And(In(ParentAccountID, [k])), p.edges)
  {
    var need := p.sel.Need(ParentAccountID);
    SplitMany(st, st.accounts, need, ParentAccountID, ids, k);
    AccountColumnsCarry(need, p.edges);
    PickTrees(st, AccountColumns(need, p.edges), Rows(st, st.accounts, need.And(In(ParentAccountID, ids))),
              p.edges, ParentAccountID, k);
  }

  lemma JunctionColumnsCarry(sel: Sel, e: JunctionEdges)
    ensures e.account.Some? ==> Reads(JunctionColumns(sel, e), AccountID)
    ensures e.group.Some? ==> Reads(JunctionColumns(sel, e), GroupID)
    ensures forall c :: c in sel.fields ==> Reads(JunctionColumns(sel, e), c)
  {
  }

  lemma PickJunctionTrees(st: Store, cols: Option<seq<Column>>, rows: seq<Row>, e: JunctionEdges, k: int)
    requires Reads(cols, AccountID)
    ensures var ts := NaiveJunctionTrees(st, cols, rows, e);
            JunctionRows(ts) == ReadAll(cols, rows)
            && HaveKey(ts, JunctionKeys(JunctionRows(ts), AccountID), k)
               == NaiveJunctionTrees(st, cols, HaveKey(rows, JunctionKeys(rows, AccountID), k), e)
  {
    var ts := NaiveJunctionTrees(st, cols, rows, e);
    assert JunctionRows(ts) == ReadAll(cols, rows);
    ReadKeys(cols, rows, AccountID);
  }

  lemma JunctionKeysPresent(st: Store, sel: Sel)
    requires WellFormed(st)
    ensures var rows := Rows(st, st.accountGroups, sel);
            JunctionKeys(rows, AccountID) == KeyList(rows, AccountID)
  {
    var rows := Rows(st, st.accountGroups, sel);
    RowsAreMatching(st, st.accountGroups, sel);
    forall i | 0 <= i < |rows| ensures Key(rows[i], AccountID).Some? {
      assert rows[i] in st.accountGroups;
    }
  }

  lemma JunctionAgrees(st: Store, p: JunctionPlan, ids: seq<int>, k: int)
    requires WellFormed(st) && PlainSel(p.sel) && k in ids
    ensures var got := NaiveJunction(st, p.sel.Need(AccountID).And(In(AccountID, ids)), p.edges);
            HaveKey(got, JunctionKeys(JunctionRows(got), AccountID), k)
            == NaiveJunction(st, p.sel.Need(AccountID).And(In(AccountID, [k])), p.edges)
  {
    var need := p.sel.Need(AccountID);
    SplitMany(st, st.accountGroups, need, AccountID, ids, k);
    JunctionColumnsCarry(need, p.edges);
    JunctionKeysPresent(st, need.And(In(AccountID, ids)));
    PickJunctionTrees(st, JunctionColumns(need, p.edges), Rows(st, st.accountGroups, need.And(In(AccountID, ids))),
                      p.edges, k);
  }

  // ------------------------------------------------------------- many to many

  ghost predicate Joined(junction: seq<Row>, acc: int, gid: int) {
    exists i ::
      0 <= i < |junction| && KeyOrZero(junction[i], AccountID) == acc && KeyOrZero(junction[i], GroupID) == gid
  }

  lemma {:induction false} MembersExact(junction: seq<Row>, gid: int, accs: seq<int>, a: int)
    ensures a in Members(junction, gid, accs) <==> a in accs && Joined(junction, a, gid)
  {
    if junction != [] {
      MembersExact(junction[1..], gid, accs, a);
      forall i | 1 <= i < |junction| ensures junction[i] == junction[1..][i - 1] {}
      if Joined(junction[1..], a, gid) {
        var i :| 0 <= i < |junction[1..]| && KeyOrZero(junction[1..][i], AccountID) == a
            && KeyOrZero(junction[1..][i], GroupID) == gid;
        assert junction[i + 1] == junction[1..][i];
      }
      if Joined(junction, a, gid) {
        var i :| 0 <= i < |junction| && KeyOrZero(junction[i], AccountID) == a
            && KeyOrZero(junction[i], GroupID) == gid;
        if i > 0 { assert junction[1..][i - 1] == junction[i]; }
      }
    }
  }

  ghost predicate DistinctPairs(junction: seq<Row>) {
    forall i, j :: 0 <= i < j < |junction| ==>
      KeyOrZero(junction[i], AccountID) != KeyOrZero(junction[j], AccountID)
      || KeyOrZero(junction[i], GroupID) != KeyOrZero(junction[j], GroupID)
  }

  // The junction key makes a group appear once for one account.
  lemma {:induction false} MembersOfOne(junction: seq<Row>, gid: int, a: int)
    requires DistinctPairs(junction)
    ensures Members(junction, gid, [a]) == if Joined(junction, a, gid) then [a] else []
  {
    MembersExact(junction, gid, [a], a);
    if junction != [] {
      var rest := junction[1..];
      forall i, j | 0 <= i < j < |rest|
        ensures KeyOrZero(rest[i], AccountID) != KeyOrZero(rest[j], AccountID)
                || KeyOrZero(rest[i], GroupID) != KeyOrZero(rest[j], GroupID)
      {
        assert rest[i] == junction[i + 1] && rest[j] == junction[j + 1];
      }
      MembersOfOne(rest, gid, a);
      if Joined(rest, a, gid) {
        var i :| 0 <= i < |rest| && KeyOrZero(rest[i], AccountID) == a && KeyOrZero(rest[i], GroupID) == gid;
        assert junction[i + 1] == rest[i] && junction[0] == junction[0];
      }
    }
  }

  // The groups of one account among a list of groups.
  function Having(groups: seq<Row>, junction: seq<Row>, acc: int): seq<Row> {
    if groups == [] then []
    else
      var n := |groups| - 1;
      Having(groups[..n], junction, acc)
      + (if acc in Members(junction, KeyOrZero(groups[n], ID), [acc]) then [groups[n]] else [])
  }

  lemma {:induction false} LinkedGroupsOfOne(groups: seq<Row>, junction: seq<Row>, acc: int)
    requires DistinctPairs(junction)
    ensures LinkedGroups(JoinRows(groups, junction, [acc])) == Having(groups, junction, acc)
  {
    if groups != [] {
      var n := |groups| - 1;
      LinkedGroupsOfOne(groups[..n], junction, acc);
      MembersOfOne(junction, KeyOrZero(groups[n], ID), acc);
    }
  }

  lemma FirstsSnoc(links: seq<Link>, l: Link)
    ensures Firsts(links + [l])
         == if KeyOrZero(l.group, ID) in Ids(Firsts(links)) then Firsts(links) else Firsts(links) + [l.group]
  {
    assert (links + [l])[..|links|] == links;
  }

  lemma IdJustAdded(rows: seq<Row>, g: Row)
    ensures KeyOrZero(g, ID) in Ids(rows + [g])
  {
    assert Ids(rows + [g])[|rows|] == KeyOrZero(g, ID);
  }

  // Joining one more group adds it to the first-seen list iff it has any member.
  lemma {:induction false} FirstsOfNewGroup(links: seq<Link>, ms: seq<int>, g: Row)
    requires KeyOrZero(g, ID) !in Ids(Firsts(links))
    ensures Firsts(links + LinksTo(ms, g)) == Firsts(links) + (if ms == [] then [] else [g])
  {
    if ms == [] {
      assert links + LinksTo(ms, g) == links && Firsts(links) + [] == Firsts(links);
    } else {
      var init, l := ms[..|ms| - 1], Link(ms[|ms| - 1], g);
      var front := links + LinksTo(init, g);
      assert links + LinksTo(ms, g) == front + [l];
      FirstsSnoc(front, l);
      if init == [] {
        assert front == links;
      } else {
        FirstsOfNewGroup(links, init, g);
        IdJustAdded(Firsts(links), g);
      }
    }
  }

  lemma LinkedSplit(links: seq<Link>, more: seq<Link>, acc: int, gid: int)
    ensures Linked(links + more, acc, gid) <==> Linked(links, acc, gid) || Linked(more, acc, gid)
  {
    var all := links + more;
    if Linked(links, acc, gid) {
      var i :| 0 <= i < |links| && links[i].account == acc && KeyOrZero(links[i].group, ID) == gid;
      assert all[i] == links[i];
    }
    if Linked(more, acc, gid) {
      var i :| 0 <= i < |more| && more[i].account == acc && KeyOrZero(more[i].group, ID) == gid;
      assert all[|links| + i] == more[i];
    }
  }

  lemma LinkedInBlock(ms: seq<int>, g: Row, acc: int, gid: int)
    ensures Linked(LinksTo(ms, g), acc, gid) <==> acc in ms && KeyOrZero(g, ID) == gid
  {
    if acc in ms && KeyOrZero(g, ID) == gid {
      var i :| 0 <= i < |ms| && ms[i] == acc;
      assert LinksTo(ms, g)[i] == Link(acc, g);
    }
  }

  lemma {:induction false} FirstsOfJoin(groups: seq<Row>, junction: seq<Row>, accs: seq<int>)
    ensures forall x :: x in Ids(Firsts(JoinRows(groups, junction, accs))) ==> x in Ids(groups)
  {
    if groups != [] {
      var n := |groups| - 1;
      FirstsOfJoin(groups[..n], junction, accs);
      var links := JoinRows(groups, junction, accs);
      forall x | x in Ids(Firsts(links)) ensures x in Ids(groups) {
        var i :| 0 <= i < |links| && KeyOrZero(links[i].group, ID) == x;
        var before := JoinRows(groups[..n], junction, accs);
        if i < |before| {
          assert before[i] == links[i];
          assert x in Ids(groups[..n]);
          var k :| 0 <= k < n && Ids(groups[..n])[k] == x;
          assert Ids(groups)[k] == x;
        } else {
          assert Ids(groups)[n] == x;
        }
      }
    }
  }

  // The groups picked for one account out of the shared join.
  lemma {:induction false} PickedGroups(groups: seq<Row>, junction: seq<Row>, accs: seq<int>, acc: int)
    requires KeyedBy(groups, ID) && acc in accs
    ensures var links := JoinRows(groups, junction, accs);
            GroupsOf(links, Firsts(links), acc) == Having(groups, junction, acc)
  {
    if groups != [] {
      var n := |groups| - 1;
      var g, gid := groups[n], KeyOrZero(groups[n], ID);
      PickedGroups(groups[..n], junction, accs, acc);
      NewGroupIsUnseen(groups, junction, accs);
      MembersExact(junction, gid, accs, acc);
      MembersExact(junction, gid, [acc], acc);
      PickNewGroup(JoinRows(groups[..n], junction, accs), Members(junction, gid, accs), g, acc);
    }
  }

  lemma NewGroupIsUnseen(groups: seq<Row>, junction: seq<Row>, accs: seq<int>)
    requires KeyedBy(groups, ID) && groups != []
    ensures var n := |groups| - 1;
            KeyOrZero(groups[n], ID) !in Ids(Firsts(JoinRows(groups[..n], junction, accs)))
  {
    var n := |groups| - 1;
    FirstsOfJoin(groups[..n], junction, accs);
    forall k | 0 <= k < n ensures Ids(groups[..n])[k] != KeyOrZero(groups[n], ID) {
      assert Key(groups[k], ID) != Key(groups[n], ID);
    }
  }

  lemma GatherPrefix<X>(xs: seq<X>, x: X, at: seq<nat>)
    requires forall j :: 0 <= j < |at| ==> at[j] < |xs|
    ensures Gather(xs + [x], at) == Gather(xs, at)
  {
  }

  lemma GatherConcat<X>(xs: seq<X>, a: seq<nat>, b: seq<nat>)
    requires forall j :: 0 <= j < |a| ==> a[j] < |xs|
    requires forall j :: 0 <= j < |b| ==> b[j] < |xs|
    ensures forall j :: 0 <= j < |a + b| ==> (a + b)[j] < |xs|
    ensures Gather(xs, a + b) == Gather(xs, a) + Gather(xs, b)
  {
  }

  lemma GatherSnoc<X>(xs: seq<X>, x: X, marks: seq<bool>, b: bool)
    requires |marks| == |xs|
    ensures Gather(xs + [x], Trues(marks + [b])) == Gather(xs, Trues(marks)) + (if b then [x] else [])
  {
    TruesSnoc(marks, b);
    GatherPrefix(xs, x, Trues(marks));
    GatherConcat(xs + [x], Trues(marks), if b then [|marks|] else []);
  }

  lemma PickNewGroup(links: seq<Link>, ms: seq<int>, g: Row, acc: int)
    requires KeyOrZero(g, ID) !in Ids(Firsts(links))
    ensures var now := links + LinksTo(ms, g);
            GroupsOf(now, Firsts(now), acc) == GroupsOf(links, Firsts(links), acc) + (if acc in ms then [g] else [])
  {
    FirstsOfNewGroup(links, ms, g);
    MarksOfNewGroup(links, ms, g, acc);
    var seen := Firsts(links);
    var marks := LinkMarks(links, acc, Ids(seen));
    GatherSnoc(seen, g, marks, acc in ms);
    if ms == [] {
      assert marks + [] == marks;
      assert GroupsOf(links, seen, acc) + [] == GroupsOf(links, seen, acc);
    }
  }

  lemma LinkedAfter(links: seq<Link>, ms: seq<int>, g: Row, acc: int, gid: int)
    ensures Linked(links + LinksTo(ms, g), acc, gid)
         <==> Linked(links, acc, gid) || (acc in ms && KeyOrZero(g, ID) == gid)
  {
    LinkedSplit(links, LinksTo(ms, g), acc, gid);
    LinkedInBlock(ms, g, acc, gid);
  }

  lemma SameMarks(links: seq<Link>, ms: seq<int>, g: Row, acc: int, gids: seq<int>)
    requires KeyOrZero(g, ID) !in gids
    ensures LinkMarks(links + LinksTo(ms, g), acc, gids) == LinkMarks(links, acc, gids)
  {
    forall j | 0 <= j < |gids| ensures Linked(links + LinksTo(ms, g), acc, gids[j]) <==> Linked(links, acc, gids[j]) {
      LinkedAfter(links, ms, g, acc, gids[j]);
    }
  }

  lemma MarksSnoc(links: seq<Link>, acc: int, gids: seq<int>, gid: int)
    ensures LinkMarks(links, acc, gids + [gid]) == LinkMarks(links, acc, gids) + [Linked(links, acc, gid)]
  {
  }

  lemma UnseenIsUnlinked(links: seq<Link>, acc: int, gid: int)
    requires gid !in Ids(Firsts(links))
    ensures !Linked(links, acc, gid)
  {
  }

  lemma MarksOfNewGroup(links: seq<Link>, ms: seq<int>, g: Row, acc: int)
    requires KeyOrZero(g, ID) !in Ids(Firsts(links))
    ensures var now := links + LinksTo(ms, g);
            LinkMarks(now, acc, Ids(Firsts(now)))
            == LinkMarks(links, acc, Ids(Firsts(links))) + (if ms == [] then [] else [acc in ms])
  {
    var gids, gid := Ids(Firsts(links)), KeyOrZero(g, ID);
    FirstsOfNewGroup(links, ms, g);
    SameMarks(links, ms, g, acc, gids);
    if ms == [] {
      assert Firsts(links) + [] == Firsts(links) && LinkMarks(links, acc, gids) + [] == LinkMarks(links, acc, gids);
    } else {
      IdsSnoc(Firsts(links), g);
      MarksSnoc(links + LinksTo(ms, g), acc, gids, gid);
      LinkedAfter(links, ms, g, acc, gid);
      UnseenIsUnlinked(links, acc, gid);
    }
  }

  lemma GroupsAgree(st: Store, sel: Sel, accs: seq<int>, acc: int)
    requires WellFormed(st) && PlainSel(sel) && acc in accs
    ensures var links := Links(st, sel, accs);
            GroupsOf(links, ReadAll(LeafColumns(sel), Firsts(links)), acc) == NaiveGroups(st, sel, acc)
  {
    var groups := Sort(sel.order, Where(sel.preds, st.groups));
    assert groups == Rows(st, st.groups, sel.(unique := None));
    RowsAreKeyed(st, st.groups, sel.(unique := None));
    PickedGroups(groups, st.accountGroups, accs, acc);
    JunctionPairs(st);
    LinkedGroupsOfOne(groups, st.accountGroups, acc);
    var links := Links(st, sel, accs);
    ReadIds(LeafColumns(sel), Firsts(links));
  }

  lemma JunctionPairs(st: Store)
    requires WellFormed(st)
    ensures DistinctPairs(st.accountGroups)
  {
    var js := st.accountGroups;
    forall i, j | 0 <= i < j < |js|
      ensures KeyOrZero(js[i], AccountID) != KeyOrZero(js[j], AccountID)
              || KeyOrZero(js[i], GroupID) != KeyOrZero(js[j], GroupID)
    {
      assert Key(js[i], AccountID) != Key(js[j], AccountID) || Key(js[i], GroupID) != Key(js[j], GroupID);
    }
  }

  // ------------------------------------------------------------ the main theorem

  // What a node keeps when a later node carries the same ID.
  function ToOneOnly(t: Tree): Tree {
    t.(groups := [], children := [], accountGroups := [])
  }

  lemma ProxyEdgeAgrees(st: Store, cols: Option<seq<Column>>, rows: seq<Row>, e: Edges, i: nat)
    requires WellFormed(st) && Plain(e) && Carries(cols, e) && i < |rows|
    ensures ProxyEdge(st, ReadAll(cols, rows), e, i) == NaiveProxy(st, rows[i], e)
  {
    if e.proxy.Some? {
      ReadKeys(cols, rows, ProxyID);
      if Key(rows[i], ProxyID).Some? {
        RefsOf(rows, ProxyID, i);
        LeafAgrees(st, st.proxies, e.proxy.value, Refs(KeyList(rows, ProxyID)), Key(rows[i], ProxyID).value);
      }
    }
  }

  lemma ParentEdgeAgrees(st: Store, cols: Option<seq<Column>>, rows: seq<Row>, e: Edges, i: nat)
    requires WellFormed(st) && Plain(e) && Carries(cols, e) && i < |rows|
    ensures ParentEdge(st, ReadAll(cols, rows), e, i) == NaiveParent(st, rows[i], e)
    decreases e, 0
  {
    if e.parent.Some? {
      ReadKeys(cols, rows, ParentAccountID);
      if Key(rows[i], ParentAccountID).Some? {
        RefsOf(rows, ParentAccountID, i);
        RunIsNaive(st, ParentSel(rows, e.parent.value.sel), e.parent.value.edges);
        OneAgrees(st, e.parent.value, Refs(KeyList(rows, ParentAccountID)), Key(rows[i], ParentAccountID).value);
      }
    }
  }

  lemma ChildrenEdgeAgrees(st: Store, cols: Option<seq<Column>>, rows: seq<Row>, e: Edges, i: nat)
    requires WellFormed(st) && Plain(e) && Carries(cols, e) && i < |rows|
    ensures ChildrenEdge(st, ReadAll(cols, rows), e, i)
         == if IsLast(Ids(rows), i) then NaiveChildren(st, KeyOrZero(rows[i], ID), e) else []
    decreases e, 0
  {
    ReadIds(cols, rows);
    if e.children.Some? {
      assert Ids(rows)[i] in Ids(rows);
      RunIsNaive(st, ChildrenSel(rows, e.children.value.sel), e.children.value.edges);
      ManyAgree(st, e.children.value, Ids(rows), Ids(rows)[i]);
    }
  }

  lemma AccountGroupsEdgeAgrees(st: Store, cols: Option<seq<Column>>, rows: seq<Row>, e: Edges, i: nat)
    requires WellFormed(st) && Plain(e) && Carries(cols, e) && i < |rows|
    ensures AccountGroupsEdge(st, ReadAll(cols, rows), e, i)
         == if IsLast(Ids(rows), i) then NaiveAccountGroups(st, KeyOrZero(rows[i], ID), e) else []
    decreases e, 0
  {
    ReadIds(cols, rows);
    if e.accountGroups.Some? {
      assert Ids(rows)[i] in Ids(rows);
      RunJunctionIsNaive(st, AccountGroupsSel(rows, e.accountGroups.value.sel), e.accountGroups.value.edges);
      JunctionAgrees(st, e.accountGroups.value, Ids(rows), Ids(rows)[i]);
    }
  }

  lemma GroupsEdgeAgrees(st: Store, cols: Option<seq<Column>>, rows: seq<Row>, e: Edges, i: nat)
    requires WellFormed(st) && Plain(e) && Carries(cols, e) && i < |rows|
    ensures GroupsEdge(st, ReadAll(cols, rows), e, i)
         == if IsLast(Ids(rows), i) && e.groups.Some? then NaiveGroups(st, e.groups.value, KeyOrZero(rows[i], ID))
            else []
  {
    ReadIds(cols, rows);
    if e.groups.Some? {
      assert Ids(rows)[i] in Ids(rows);
      GroupsAgree(st, e.groups.value, Ids(rows), Ids(rows)[i]);
    }
  }

  /** One level of batched loading, for any list of account rows, repeats included:
      the last node of each ID gets exactly what a per-node lookup gives, an earlier
      one gets the same to-one edges and empty to-many edges. */
  lemma {:induction false} AttachIsNaive(st: Store, cols: Option<seq<Column>>, rows: seq<Row>, e: Edges, i: nat)
    requires WellFormed(st) && Plain(e) && Carries(cols, e) && i < |rows|
    ensures Attach(st, ReadAll(cols, rows), e)[i]
         == var t := NaiveTree(st, cols, rows[i], e);
            if IsLast(Ids(rows), i) then t else ToOneOnly(t)
    decreases e, 1
  {
    GroupsEdgeAgrees(st, cols, rows, e, i);
    ProxyEdgeAgrees(st, cols, rows, e, i);
    ParentEdgeAgrees(st, cols, rows, e, i);
    ChildrenEdgeAgrees(st, cols, rows, e, i);
    AccountGroupsEdgeAgrees(st, cols, rows, e, i);
  }

  lemma KeyedRowsAreLast(rows: seq<Row>, i: nat)
    requires KeyedBy(rows, ID) && i < |rows|
    ensures IsLast(Ids(rows), i)
  {
    var j := LastWith(Ids(rows), Ids(rows)[i]);
    assert Ids(rows)[i] in Ids(rows);
    forall k | i < k < |rows| ensures Ids(rows)[k] != Ids(rows)[i] {
      assert Key(rows[i], ID) != Key(rows[k], ID);
    }
  }

  /** Every nested plan, of any depth, without a window on an edge query: the batched
      run builds the same graph as looking every edge up node by node.  The root
      query itself may be windowed and may select any columns. */
  lemma {:induction false} RunIsNaive(st: Store, sel: Sel, e: Edges)
    requires WellFormed(st) && Plain(e) && sel.NoRepeats()
    ensures Run(st, sel, e) == Naive(st, sel, e)
    decreases e, 2
  {
    var cols := AccountColumns(sel, e);
    var rows := Rows(st, st.accounts, sel);
    AccountColumnsCarry(sel, e);
    RowsAreKeyed(st, st.accounts, sel);
    forall i | 0 <= i < |rows| ensures Run(st, sel, e)[i] == Naive(st, sel, e)[i] {
      AttachIsNaive(st, cols, rows, e, i);
      KeyedRowsAreLast(rows, i);
    }
  }

  lemma OwnerEdgeAgrees(st: Store, cols: Option<seq<Column>>, rows: seq<Row>, e: JunctionEdges, i: nat)
    requires WellFormed(st) && PlainJunction(e) && i < |rows| && e.account.Some? && Reads(cols, AccountID)
    ensures OwnerEdge(st, ReadAll(cols, rows), e, i) == NaiveOne(st, e.account.value, KeyOrZero(rows[i], AccountID))
    decreases e, 0
  {
    var refs := Refs(JunctionKeys(rows, AccountID));
    ReadKeys(cols, rows, AccountID);
    JunctionRefsOf(rows, AccountID, i);
    RunIsNaive(st, OwnerSel(rows, e.account.value.sel), e.account.value.edges);
    OneAgrees(st, e.account.value, refs, KeyOrZero(rows[i], AccountID));
  }

  lemma MemberEdgeAgrees(st: Store, cols: Option<seq<Column>>, rows: seq<Row>, e: JunctionEdges, i: nat)
    requires WellFormed(st) && PlainJunction(e) && i < |rows| && e.group.Some? && Reads(cols, GroupID)
    ensures MemberEdge(st, ReadAll(cols, rows), e, i)
         == NaiveLeaf(st, st.groups, e.group.value, KeyOrZero(rows[i], GroupID))
  {
    var refs := Refs(JunctionKeys(rows, GroupID));
    ReadKeys(cols, rows, GroupID);
    JunctionRefsOf(rows, GroupID, i);
    LeafAgrees(st, st.groups, e.group.value, refs, KeyOrZero(rows[i], GroupID));
  }

  lemma AttachJunctionIsNaive(st: Store, cols: Option<seq<Column>>, rows: seq<Row>, e: JunctionEdges, i: nat)
    requires WellFormed(st) && PlainJunction(e) && i < |rows|
    requires e.account.Some? ==> Reads(cols, AccountID)
    requires e.group.Some? ==> Reads(cols, GroupID)
    ensures AttachJunction(st, ReadAll(cols, rows), e)[i] == NaiveJunctionTree(st, cols, rows[i], e)
    decreases e, 1
  {
    if e.account.Some? { OwnerEdgeAgrees(st, cols, rows, e, i); }
    if e.group.Some? { MemberEdgeAgrees(st, cols, rows, e, i); }
  }

  lemma {:induction false} RunJunctionIsNaive(st: Store, sel: Sel, e: JunctionEdges)
    requires WellFormed(st) && PlainJunction(e)
    ensures RunJunction(st, sel, e) == NaiveJunction(st, sel, e)
    decreases e, 2
  {
    var cols := JunctionColumns(sel, e);
    var rows := Rows(st, st.accountGroups, sel);
    JunctionColumnsCarry(sel, e);
    forall i | 0 <= i < |rows| ensures RunJunction(st, sel, e)[i] == NaiveJunction(st, sel, e)[i] {
      AttachJunctionIsNaive(st, cols, rows, e, i);
    }
  }
}

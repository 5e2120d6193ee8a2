/**
 AccountQuery.sqlAll and AccountGroupQuery.sqlAll: running a tree of builders.
 */
module EagerRun {
  import opened Wrappers
  import opened Schema
  import opened Relational
  import opened EagerSpec
  import opened EagerLaws
  import opened QueryGraph
  import opened EdgeAssign
  import opened EagerLoad

  ghost predicate Outside<E>(nodes: seq<Node<E>>, s: set<object>) {
    forall i :: 0 <= i < |nodes| ==> nodes[i] !in s
  }

  lemma ShownRows(ns: seq<Account>, ts: seq<Tree>, s: set<object>)
    requires ShowsAll(ns, ts, s)
    ensures RowsOf(ns) == TreeRows(ts)
  {
  }

  lemma ShownJunctionRows(ns: seq<AccountGroup>, ts: seq<JunctionTree>, s: set<object>)
    requires ShowsAllJunction(ns, ts, s)
    ensures RowsOf(ns) == JunctionRows(ts)
  {
  }

  lemma ShownLookup(ns: seq<Account>, ts: seq<Tree>, s: set<object>, key: Option<int>)
    requires ShowsAll(ns, ts, s)
    ensures ShowsOption(Lookup(ns, Ids(RowsOf(ns)), key), Lookup(ts, Ids(TreeRows(ts)), key), s)
  {
    ShownRows(ns, ts, s);
  }

  // querySpec: the projected columns of an entity with an ID.
  method SpecColumns(fields: seq<Column>, keepProxy: bool, keepParent: bool, ghost sel: Sel, ghost e: Edges)
      returns (cols: Option<seq<Column>>)
    requires fields == sel.fields && keepProxy == e.proxy.Some? && keepParent == e.parent.Some?
    ensures cols == AccountColumns(sel, e)
  {
    if fields == [] {
      return None;
    }
    var columns := [ID];
    for i := 0 to |fields|
      invariant columns == [ID] + Without(fields[..i], ID)
    {
      assert fields[..i + 1][..i] == fields[..i];
      if fields[i] != ID {
        columns := columns + [fields[i]];
      }
    }
    assert fields[..|fields|] == fields;
    if keepProxy {
      columns := AddOnce(columns, ProxyID);
    }
    if keepParent {
      columns := AddOnce(columns, ParentAccountID);
    }
    cols := Some(columns);
  }

  // ------------------------------------------------------------- the contract of All

  ghost predicate AllDone(
      r: Result<seq<Account>, QueryError>, s: set<object>, st: Store, sel: Sel, e: Edges, after: Edges)
    reads s
  {
    match RunError(st, sel, e)
    case Some(x) => r == Failure(x)
    case None =>
      && r.Success?
      && ShowsAll(r.value, Run(st, sel, e), s)
      && DistinctNodes(r.value)
      && after == After(st, Fetch(st, sel, e), e)
  }

  ghost predicate AllJunctionDone(
      r: Result<seq<AccountGroup>, QueryError>, s: set<object>, st: Store, sel: Sel, e: JunctionEdges,
      after: JunctionEdges)
    reads s
  {
    match JunctionError(st, sel, e)
    case Some(x) => r == Failure(x)
    case None =>
      && r.Success?
      && ShowsAllJunction(r.value, RunJunction(st, sel, e), s)
      && DistinctNodes(r.value)
      && after == AfterJunction(st, FetchJunction(st, sel, e), e)
  }

  // --------------------------------------------------------- to-one, to an account

  // The answer to asking for the accounts named by the keys, and the builder after it.
  ghost predicate RefAnswer(
      r: Result<seq<Account>, QueryError>, s: set<object>, st: Store, plan: Plan, after: Plan, keys: seq<Option<int>>)
    reads s
  {
    if Refs(keys) == [] then r == Success([]) && after == plan
    else
      match RunError(st, Asked(plan.sel, keys), plan.edges)
      case Some(x) => r == Failure(x)
      case None =>
        && r.Success?
        && ShowsAll(r.value, Run(st, Asked(plan.sel, keys), plan.edges), s)
        && after == Used(st, Asked(plan.sel, keys), plan.edges)
  }

  lemma RunIdsWereAsked(st: Store, sel: Sel, e: Edges, ids: seq<int>, ns: seq<Account>, s: set<object>)
    requires ShowsAll(ns, Run(st, sel.And(In(ID, ids)), e), s)
    ensures AllIn(Ids(RowsOf(ns)), ids)
  {
    ShownRows(ns, Run(st, sel.And(In(ID, ids)), e), s);
    AccountColumnsCarry(sel.And(In(ID, ids)), e);
    AnswerIdsWereAsked(st, st.accounts, sel, AccountColumns(sel.And(In(ID, ids)), e), ids);
  }

  // Asks the edge query for the accounts with these IDs.
  method AskRef(st: Store, query: AccountQuery, ghost keys: seq<Option<int>>, ids: seq<int>)
      returns (r: Result<seq<Account>, QueryError>, ghost s: set<object>)
    requires query.Valid() && ids == Refs(keys) && ids != []
    modifies query.repr
    ensures query.Valid() && query.repr == old(query.repr) && fresh(s)
    ensures RefAnswer(r, s, st, old(query.AsPlan()), query.AsPlan(), keys)
    ensures r.Success? ==> AllIn(Ids(RowsOf(r.value)), ids)
    decreases query.repr, 10
  {
    ghost var plan := query.AsPlan();
    query.Where(In(ID, ids));
    r, s := SqlAll(query, st);
    if r.Success? {
      RunIdsWereAsked(st, plan.sel, plan.edges, ids, r.value, s);
    }
  }

  // The assignment loop touches neither the builders nor the answer.
  method AssignRef<E>(
      nodes: seq<Node<E>>, ghost keys: seq<Option<int>>, ghost asked: seq<int>, nodeids: map<int, seq<Node<E>>>,
      neighbors: seq<Account>, assign: (E, Account) -> E, ghost query: AccountQuery, ghost ts: seq<Tree>,
      ghost s: set<object>)
      returns (ok: bool)
    requires DistinctNodes(nodes) && KeyIndex(nodes, keys, asked, nodeids) && AllIn(Ids(RowsOf(neighbors)), asked)
    requires query.Valid() && Outside(nodes, query.repr) && Outside(nodes, s) && ShowsAll(neighbors, ts, s)
    modifies nodes
    ensures ok && Received1(nodes, old(EdgesNow(nodes)), neighbors, Ids(RowsOf(neighbors)), keys, assign)
    ensures query.Valid() && query.AsPlan() == old(query.AsPlan()) && ShowsAll(neighbors, ts, s)
  {
    ghost var was := EdgesNow(nodes);
    ok := AssignToOne(nodes, keys, asked, nodeids, neighbors, Ids(RowsOf(neighbors)), assign);
    AllReceived(nodes, was, neighbors, Ids(RowsOf(neighbors)), keys, assign);
  }

  // Assigning does not change what was answered.
  method HangAnswer<E>(
      nodes: seq<Node<E>>, ghost keys: seq<Option<int>>, ghost asked: seq<int>, nodeids: map<int, seq<Node<E>>>,
      neighbors: seq<Account>, assign: (E, Account) -> E, ghost query: AccountQuery, ghost st: Store, ghost plan: Plan,
      ghost s: set<object>)
      returns (ok: bool)
    requires DistinctNodes(nodes) && KeyIndex(nodes, keys, asked, nodeids) && AllIn(Ids(RowsOf(neighbors)), asked)
    requires query.Valid() && Outside(nodes, query.repr) && Outside(nodes, s) && asked == Refs(keys) != []
    requires RefAnswer(Success(neighbors), s, st, plan, query.AsPlan(), keys)
    modifies nodes
    ensures ok && Received1(nodes, old(EdgesNow(nodes)), neighbors, Ids(RowsOf(neighbors)), keys, assign)
    ensures query.Valid() && query.AsPlan() == old(query.AsPlan())
    ensures RefAnswer(Success(neighbors), s, st, plan, query.AsPlan(), keys)
  {
    ghost var ts := Run(st, Asked(plan.sel, keys), plan.edges);
    ok := AssignRef(nodes, keys, asked, nodeids, neighbors, assign, query, ts, s);
  }

  // The query and the assignments, once there are keys to ask for.
  method AskAndHang<E>(
      st: Store, query: AccountQuery, nodes: seq<Node<E>>, ghost keys: seq<Option<int>>, ids: seq<int>,
      nodeids: map<int, seq<Node<E>>>, assign: (E, Account) -> E)
      returns (r: Result<seq<Account>, QueryError>, ghost s: set<object>)
    requires query.Valid() && DistinctNodes(nodes) && Outside(nodes, query.repr)
    requires KeyIndex(nodes, keys, ids, nodeids) && ids == Refs(keys) != []
    modifies nodes, query.repr
    ensures query.Valid() && query.repr == old(query.repr) && fresh(s)
    ensures RefAnswer(r, s, st, old(query.AsPlan()), query.AsPlan(), keys)
    ensures r.Success? ==> Received1(nodes, old(EdgesNow(nodes)), r.value, Ids(RowsOf(r.value)), keys, assign)
    decreases query.repr, 11
  {
    ghost var plan := query.AsPlan();
    r, s := AskRef(st, query, keys, ids);
    if r.Success? {
      var ok := HangAnswer(nodes, keys, ids, nodeids, r.value, assign, query, st, plan, s);
      r := if ok then r else Failure(UnexpectedNode);
    }
  }

  /** The to-one loader over an account query: loadParent, and loadAccount of the
      junction. */
  method LoadRef<E>(
      st: Store, query: AccountQuery, nodes: seq<Node<E>>, keys: seq<Option<int>>, assign: (E, Account) -> E)
      returns (r: Result<seq<Account>, QueryError>, ghost s: set<object>)
    requires query.Valid() && DistinctNodes(nodes) && |nodes| == |keys| && Outside(nodes, query.repr)
    modifies nodes, query.repr
    ensures query.Valid() && query.repr == old(query.repr) && fresh(s)
    ensures RefAnswer(r, s, st, old(query.AsPlan()), query.AsPlan(), keys)
    ensures r.Success? ==> Received1(nodes, old(EdgesNow(nodes)), r.value, Ids(RowsOf(r.value)), keys, assign)
    decreases query.repr, 12
  {
    var ids, nodeids := IndexByKey(nodes, keys);
    if ids == [] {
      NothingReceived(nodes, keys, assign);
      return Success([]), {};
    }
    r, s := AskAndHang(st, query, nodes, keys, ids, nodeids, assign);
  }

  // --------------------------------------------------------------------- parent

  ghost predicate HasParent(nodes: seq<Account>, was: seq<AccountEdges>, st: Store, e: Edges, s: set<object>)
    reads nodes, s
  {
    |nodes| == |was| && forall i {:trigger nodes[i]} :: 0 <= i < |nodes| ==>
      nodes[i].edges == was[i].(parent := nodes[i].edges.parent)
      && ShowsOption(nodes[i].edges.parent, ParentEdge(st, RowsOf(nodes), e, i), s)
  }

  // Nodes with the same foreign key share one parent object.
  ghost predicate SharedParents(nodes: seq<Account>)
    reads nodes
  {
    forall i, j ::
      0 <= i < j < |nodes| && Key(nodes[i].fields, ParentAccountID) == Key(nodes[j].fields, ParentAccountID) ==>
      nodes[i].edges.parent == nodes[j].edges.parent
  }

  lemma ParentReceived(
      st: Store, plan: Plan, e: Edges, nodes: seq<Account>, was: seq<AccountEdges>, found: seq<Account>, s: set<object>,
      i: nat)
    requires e.parent == Some(plan) && i < |nodes| == |was| && was[i].parent.None?
    requires var keys := KeyList(RowsOf(nodes), ParentAccountID);
             if Refs(keys) == [] then found == [] else ShowsAll(found, Run(st, Asked(plan.sel, keys), plan.edges), s)
    ensures var key := Key(nodes[i].fields, ParentAccountID);
            var got := Fold(PutParent(), was[i], Received(found, Ids(RowsOf(found)), key));
            got == was[i].(parent := Lookup(found, Ids(RowsOf(found)), key))
            && ShowsOption(got.parent, ParentEdge(st, RowsOf(nodes), e, i), s)
  {
    var rows := RowsOf(nodes);
    var key := Key(nodes[i].fields, ParentAccountID);
    FoldParent(was[i], Received(found, Ids(RowsOf(found)), key));
    ReceivedLookup(found, Ids(RowsOf(found)), key);
    ShownLookup(found, ParentNeighbors(st, rows, e), s, key);
  }

  method LoadParent(st: Store, query: AccountQuery, nodes: seq<Account>, ghost e: Edges)
      returns (err: Option<QueryError>, ghost s: set<object>)
    requires query.Valid() && DistinctNodes(nodes) && Outside(nodes, query.repr) && e.parent == Some(query.AsPlan())
    requires forall i {:trigger nodes[i]} :: 0 <= i < |nodes| ==> nodes[i].edges.parent.None?
    modifies nodes, query.repr
    ensures query.Valid() && query.repr == old(query.repr) && fresh(s)
    ensures match ParentError(st, RowsOf(nodes), e)
            case Some(x) => err == Some(x)
            case None =>
              && err.None?
              && Some(query.AsPlan()) == ParentAfter(st, RowsOf(nodes), e)
              && HasParent(nodes, old(EdgesNow(nodes)), st, e, s)
              && SharedParents(nodes)
    decreases query.repr, 13
  {
    ghost var plan, was := query.AsPlan(), EdgesNow(nodes);
    var keys := KeyList(RowsOf(nodes), ParentAccountID);
    var r;
    r, s := LoadRef(st, query, nodes, keys, PutParent());
    if r.Failure? {
      return Some(r.error), s;
    }
    err := None;
    forall i | 0 <= i < |nodes|
      ensures nodes[i].edges == was[i].(parent := Lookup(r.value, Ids(RowsOf(r.value)), keys[i]))
      ensures ShowsOption(nodes[i].edges.parent, ParentEdge(st, RowsOf(nodes), e, i), s)
    {
      ParentReceived(st, plan, e, nodes, was, r.value, s, i);
    }
    ParentsAreShared(nodes, keys, r.value);
  }

  lemma ParentsAreShared(nodes: seq<Account>, keys: seq<Option<int>>, found: seq<Account>)
    requires keys == KeyList(RowsOf(nodes), ParentAccountID)
    requires forall i {:trigger nodes[i]} :: 0 <= i < |nodes| ==>
               nodes[i].edges.parent == Lookup(found, Ids(RowsOf(found)), keys[i])
    ensures SharedParents(nodes)
  {
  }

  // ----------------------------------------------------------------- junction owner

  ghost predicate HasOwner(
      nodes: seq<AccountGroup>, was: seq<AccountGroupEdges>, st: Store, e: JunctionEdges, s: set<object>)
    reads nodes, s
  {
    |nodes| == |was| && forall i {:trigger nodes[i]} :: 0 <= i < |nodes| ==>
      nodes[i].edges == was[i].(account := nodes[i].edges.account)
      && ShowsOption(nodes[i].edges.account, OwnerEdge(st, RowsOf(nodes), e, i), s)
  }

  // Junction entities of one account share one account object.
  ghost predicate SharedOwners(nodes: seq<AccountGroup>)
    reads nodes
  {
    var keys := JunctionKeys(RowsOf(nodes), AccountID);
    forall i, j :: 0 <= i < j < |nodes| && keys[i] == keys[j] ==> nodes[i].edges.account == nodes[j].edges.account
  }

  lemma OwnerReceived(
      st: Store, plan: Plan, e: JunctionEdges, nodes: seq<AccountGroup>, was: seq<AccountGroupEdges>,
      found: seq<Account>, s: set<object>, i: nat)
    requires e.account == Some(plan) && i < |nodes| == |was| && was[i].account.None?
    requires var keys := JunctionKeys(RowsOf(nodes), AccountID);
             if Refs(keys) == [] then found == [] else ShowsAll(found, Run(st, Asked(plan.sel, keys), plan.edges), s)
    ensures var key := JunctionKeys(RowsOf(nodes), AccountID)[i];
            var got := Fold(PutOwner(), was[i], Received(found, Ids(RowsOf(found)), key));
            got == was[i].(account := Lookup(found, Ids(RowsOf(found)), key))
            && ShowsOption(got.account, OwnerEdge(st, RowsOf(nodes), e, i), s)
  {
    var rows := RowsOf(nodes);
    var key := JunctionKeys(rows, AccountID)[i];
    FoldOwner(was[i], Received(found, Ids(RowsOf(found)), key));
    ReceivedLookup(found, Ids(RowsOf(found)), key);
    ShownLookup(found, OwnerNeighbors(st, rows, e), s, key);
  }

  method LoadOwner(st: Store, query: AccountQuery, nodes: seq<AccountGroup>, ghost e: JunctionEdges)
      returns (err: Option<QueryError>, ghost s: set<object>)
    requires query.Valid() && DistinctNodes(nodes) && Outside(nodes, query.repr) && e.account == Some(query.AsPlan())
    requires forall i {:trigger nodes[i]} :: 0 <= i < |nodes| ==> nodes[i].edges.account.None?
    modifies nodes, query.repr
    ensures query.Valid() && query.repr == old(query.repr) && fresh(s)
    ensures match OwnerError(st, RowsOf(nodes), e)
            case Some(x) => err == Some(x)
            case None =>
              && err.None?
              && Some(query.AsPlan()) == OwnerAfter(st, RowsOf(nodes), e)
              && HasOwner(nodes, old(EdgesNow(nodes)), st, e, s)
              && SharedOwners(nodes)
    decreases query.repr, 13
  {
    ghost var plan, was := query.AsPlan(), EdgesNow(nodes);
    var keys := JunctionKeys(RowsOf(nodes), AccountID);
    var r;
    r, s := LoadRef(st, query, nodes, keys, PutOwner());
    if r.Failure? {
      return Some(r.error), s;
    }
    err := None;
    forall i | 0 <= i < |nodes|
      ensures nodes[i].edges == was[i].(account := Lookup(r.value, Ids(RowsOf(r.value)), keys[i]))
      ensures ShowsOption(nodes[i].edges.account, OwnerEdge(st, RowsOf(nodes), e, i), s)
    {
      OwnerReceived(st, plan, e, nodes, was, r.value, s, i);
    }
    OwnersAreShared(nodes, keys, r.value);
  }

  lemma OwnersAreShared(nodes: seq<AccountGroup>, keys: seq<Option<int>>, found: seq<Account>)
    requires keys == JunctionKeys(RowsOf(nodes), AccountID)
    requires forall i {:trigger nodes[i]} :: 0 <= i < |nodes| ==>
               nodes[i].edges.account == Lookup(found, Ids(RowsOf(found)), keys[i])
    ensures SharedOwners(nodes)
  {
  }

  // ------------------------------------------------------------------- children

  ghost predicate HasChildren(nodes: seq<Account>, was: seq<AccountEdges>, st: Store, e: Edges, s: set<object>)
    reads nodes, s
  {
    |nodes| == |was| && forall i {:trigger nodes[i]} :: 0 <= i < |nodes| ==>
      nodes[i].edges == was[i].(children := nodes[i].edges.children)
      && ShowsAll(nodes[i].edges.children, ChildrenEdge(st, RowsOf(nodes), e, i), s)
  }

  // The answer to the children query, and the builder after it.
  ghost predicate ChildrenAnswer(
      r: Result<seq<Account>, QueryError>, s: set<object>, st: Store, plan: Plan, after: Plan, rows: seq<Row>)
    reads s
  {
    match RunError(st, ChildrenSel(rows, plan.sel), plan.edges)
    case Some(x) => r == Failure(x)
    case None =>
      && r.Success?
      && ShowsAll(r.value, Run(st, ChildrenSel(rows, plan.sel), plan.edges), s)
      && after == Used(st, ChildrenSel(rows, plan.sel), plan.edges)
  }

  lemma RunKeysWereAsked(st: Store, sel: Sel, e: Edges, rows: seq<Row>, ns: seq<Account>, s: set<object>)
    requires ShowsAll(ns, Run(st, ChildrenSel(rows, sel), e), s)
    ensures var fks := KeyList(RowsOf(ns), ParentAccountID); Known(fks, |fks|, Ids(rows))
  {
    var asked := ChildrenSel(rows, sel);
    ShownRows(ns, Run(st, asked, e), s);
    AccountColumnsCarry(asked, e);
    ReadKeys(AccountColumns(asked, e), Rows(st, st.accounts, asked), ParentAccountID);
    ChildRowsWereAsked(st, sel, rows);
  }

  lemma ChildRowsWereAsked(st: Store, sel: Sel, rows: seq<Row>)
    ensures var fks := KeyList(Rows(st, st.accounts, ChildrenSel(rows, sel)), ParentAccountID);
            Known(fks, |fks|, Ids(rows))
  {
    var got := Rows(st, st.accounts, ChildrenSel(rows, sel));
    forall i | 0 <= i < |got|
      ensures Key(got[i], ParentAccountID).Some? && Key(got[i], ParentAccountID).value in Ids(rows)
    {
      AnswersWereAsked(st, st.accounts, sel.Need(ParentAccountID), ParentAccountID, Ids(rows), got[i]);
    }
  }

  method AskChildren(st: Store, query: AccountQuery, ghost rows: seq<Row>, fks: seq<int>)
      returns (r: Result<seq<Account>, QueryError>, ghost s: set<object>)
    requires query.Valid() && fks == Ids(rows)
    modifies query.repr
    ensures query.Valid() && query.repr == old(query.repr) && fresh(s)
    ensures ChildrenAnswer(r, s, st, old(query.AsPlan()), query.AsPlan(), rows)
    ensures r.Success? ==> var keys := KeyList(RowsOf(r.value), ParentAccountID); Known(keys, |keys|, fks)
    decreases query.repr, 10
  {
    ghost var plan := query.AsPlan();
    query.NeedField(ParentAccountID);
    query.Where(In(ParentAccountID, fks));
    r, s := SqlAll(query, st);
    if r.Success? {
      RunKeysWereAsked(st, plan.sel, plan.edges, rows, r.value, s);
    }
  }

  lemma ShownGather(ns: seq<Account>, ts: seq<Tree>, s: set<object>, ks: seq<Option<int>>, k: int)
    requires ShowsAll(ns, ts, s) && |ks| == |ns|
    ensures ShowsAll(HaveKey(ns, ks, k), HaveKey(ts, ks, k), s)
  {
  }

  lemma ChildrenShown(
      st: Store, e: Edges, rows: seq<Row>, found: seq<Account>, s: set<object>, fks: seq<Option<int>>, i: nat)
    requires i < |rows| && fks == KeyList(RowsOf(found), ParentAccountID)
             && ShowsAll(found, ChildNeighbors(st, rows, e), s)
    ensures ShowsAll(Owned(found, fks, Ids(rows), i), ChildrenEdge(st, rows, e, i), s)
  {
    ShownRows(found, ChildNeighbors(st, rows, e), s);
    ShownGather(found, ChildNeighbors(st, rows, e), s, fks, Ids(rows)[i]);
  }

  lemma ShownChildren(st: Store, plan: Plan, e: Edges, rows: seq<Row>, found: seq<Account>, s: set<object>)
    requires e.children == Some(plan) && ShowsAll(found, Run(st, ChildrenSel(rows, plan.sel), plan.edges), s)
    ensures ShowsAll(found, ChildNeighbors(st, rows, e), s)
  {
    assert ChildNeighbors(st, rows, e) == Run(st, ChildrenSel(rows, plan.sel), plan.edges);
  }

  lemma AddedChildren(was: AccountEdges, owned: seq<Account>)
    requires was.children == []
    ensures Fold(AddChild(), was, owned) == was.(children := owned)
  {
    FoldChildren(was, owned);
    assert [] + owned == owned;
  }

  lemma ChildrenOwned(
      st: Store, plan: Plan, e: Edges, nodes: seq<Account>, was: seq<AccountEdges>, found: seq<Account>, s: set<object>,
      i: nat)
    requires e.children == Some(plan) && i < |nodes| == |was| && was[i].children == []
    requires ShowsAll(found, Run(st, ChildrenSel(RowsOf(nodes), plan.sel), plan.edges), s)
    ensures var ids := Ids(RowsOf(nodes));
            var got := Fold(AddChild(), was[i], Owned(found, KeyList(RowsOf(found), ParentAccountID), ids, i));
            got == was[i].(children := got.children)
            && ShowsAll(got.children, ChildrenEdge(st, RowsOf(nodes), e, i), s)
  {
    var rows := RowsOf(nodes);
    var fks := KeyList(RowsOf(found), ParentAccountID);
    ShownChildren(st, plan, e, rows, found, s);
    AddedChildren(was[i], Owned(found, fks, Ids(rows), i));
    ChildrenShown(st, e, rows, found, s, fks, i);
  }

  // The assignment loop touches neither the builders nor the answer.
  method AssignChildren(
      nodes: seq<Account>, ghost ids: seq<int>, nodeids: map<int, Account>, found: seq<Account>,
      ghost st: Store, ghost plan: Plan, ghost e: Edges, ghost query: AccountQuery, ghost s: set<object>)
      returns (ok: bool)
    requires DistinctNodes(nodes) && IDIndex(nodes, ids, nodeids)
    requires var fks := KeyList(RowsOf(found), ParentAccountID); Known(fks, |fks|, ids)
    requires query.Valid() && Outside(nodes, query.repr) && Outside(nodes, s)
    requires e.children == Some(plan) && ShowsAll(found, Run(st, ChildrenSel(RowsOf(nodes), plan.sel), plan.edges), s)
    requires forall i {:trigger nodes[i]} :: 0 <= i < |nodes| ==> nodes[i].edges.children == []
    modifies nodes
    ensures ok && HasChildren(nodes, old(EdgesNow(nodes)), st, e, s)
    ensures query.Valid() && query.AsPlan() == old(query.AsPlan())
  {
    ghost var was := EdgesNow(nodes);
    var fks := KeyList(RowsOf(found), ParentAccountID);
    ok := AssignToMany(nodes, ids, nodeids, found, fks, AddChild());
    ChildrenAssigned(st, plan, e, nodes, was, found, s);
  }

  lemma ChildrenAssigned(
      st: Store, plan: Plan, e: Edges, nodes: seq<Account>, was: seq<AccountEdges>, found: seq<Account>, s: set<object>)
    requires AssignedToMany(nodes, was, Ids(RowsOf(nodes)), found, KeyList(RowsOf(found), ParentAccountID), |found|,
                            AddChild())
    requires forall i :: 0 <= i < |was| ==> was[i].children == []
    requires e.children == Some(plan) && ShowsAll(found, Run(st, ChildrenSel(RowsOf(nodes), plan.sel), plan.edges), s)
    ensures HasChildren(nodes, was, st, e, s)
  {
    forall i {:trigger nodes[i]} | 0 <= i < |nodes|
      ensures nodes[i].edges == was[i].(children := nodes[i].edges.children)
      ensures ShowsAll(nodes[i].edges.children, ChildrenEdge(st, RowsOf(nodes), e, i), s)
    {
      AllOwned(nodes, was, Ids(RowsOf(nodes)), found, KeyList(RowsOf(found), ParentAccountID), AddChild(), i);
      ChildrenOwned(st, plan, e, nodes, was, found, s, i);
    }
  }

  // The query and the assignments, once the nodes are indexed.
  method HangChildren(
      st: Store, query: AccountQuery, nodes: seq<Account>, fks: seq<int>, nodeids: map<int, Account>, ghost e: Edges)
      returns (err: Option<QueryError>, ghost s: set<object>)
    requires query.Valid() && DistinctNodes(nodes) && Outside(nodes, query.repr)
    requires e.children == Some(query.AsPlan())
    requires forall i {:trigger nodes[i]} :: 0 <= i < |nodes| ==> nodes[i].edges.children == []
    requires IDIndex(nodes, fks, nodeids)
    modifies nodes, query.repr
    ensures query.Valid() && query.repr == old(query.repr) && fresh(s)
    ensures match ChildrenError(st, RowsOf(nodes), e)
            case Some(x) => err == Some(x)
            case None =>
              && err.None?
              && Some(query.AsPlan()) == ChildrenAfter(st, RowsOf(nodes), e)
              && HasChildren(nodes, old(EdgesNow(nodes)), st, e, s)
    decreases query.repr, 11
  {
    ghost var plan := query.AsPlan();
    var r;
    r, s := AskChildren(st, query, RowsOf(nodes), fks);
    if r.Failure? {
      return Some(r.error), s;
    }
    var ok := AssignChildren(nodes, fks, nodeids, r.value, st, plan, e, query, s);
    err := if ok then None else Some(UnexpectedNode);
  }

  method LoadChildren(st: Store, query: AccountQuery, nodes: seq<Account>, ghost e: Edges)
      returns (err: Option<QueryError>, ghost s: set<object>)
    requires query.Valid() && DistinctNodes(nodes) && Outside(nodes, query.repr)
    requires e.children == Some(query.AsPlan())
    requires forall i {:trigger nodes[i]} :: 0 <= i < |nodes| ==> nodes[i].edges.children == []
    modifies nodes, query.repr
    ensures query.Valid() && query.repr == old(query.repr) && fresh(s)
    ensures match ChildrenError(st, RowsOf(nodes), e)
            case Some(x) => err == Some(x)
            case None =>
              && err.None?
              && Some(query.AsPlan()) == ChildrenAfter(st, RowsOf(nodes), e)
              && HasChildren(nodes, old(EdgesNow(nodes)), st, e, s)
    decreases query.repr, 12
  {
    var fks, nodeids := IndexByID(nodes, (x: AccountEdges) => x.(children := []));
    err, s := HangChildren(st, query, nodes, fks, nodeids, e);
  }

  // ------------------------------------------------------------- junction entities

  ghost predicate HasAccountGroups(nodes: seq<Account>, was: seq<AccountEdges>, st: Store, e: Edges, s: set<object>)
    reads nodes, s
  {
    |nodes| == |was| && forall i {:trigger nodes[i]} :: 0 <= i < |nodes| ==>
      nodes[i].edges == was[i].(accountGroups := nodes[i].edges.accountGroups)
      && ShowsAllJunction(nodes[i].edges.accountGroups, AccountGroupsEdge(st, RowsOf(nodes), e, i), s)
  }

  ghost predicate AccountGroupsAnswer(
      r: Result<seq<AccountGroup>, QueryError>, s: set<object>, st: Store, plan: JunctionPlan, after: JunctionPlan,
      rows: seq<Row>)
    reads s
  {
    match JunctionError(st, AccountGroupsSel(rows, plan.sel), plan.edges)
    case Some(x) => r == Failure(x)
    case None =>
      && r.Success?
      && ShowsAllJunction(r.value, RunJunction(st, AccountGroupsSel(rows, plan.sel), plan.edges), s)
      && after == UsedJunction(st, AccountGroupsSel(rows, plan.sel), plan.edges)
  }

  lemma JunctionOwnersWereAsked(
      st: Store, sel: Sel, e: JunctionEdges, rows: seq<Row>, ns: seq<AccountGroup>, s: set<object>)
    requires ShowsAllJunction(ns, RunJunction(st, AccountGroupsSel(rows, sel), e), s)
    ensures var fks := JunctionKeys(RowsOf(ns), AccountID); Known(fks, |fks|, Ids(rows))
  {
    var asked := AccountGroupsSel(rows, sel);
    ShownJunctionRows(ns, RunJunction(st, asked, e), s);
    JunctionColumnsCarry(asked, e);
    var got := Rows(st, st.accountGroups, asked);
    ReadKeys(JunctionColumns(asked, e), got, AccountID);
    forall i | 0 <= i < |got| ensures KeyOrZero(got[i], AccountID) in Ids(rows) {
      AnswersWereAsked(st, st.accountGroups, sel.Need(AccountID), AccountID, Ids(rows), got[i]);
    }
  }

  method AskAccountGroups(st: Store, query: AccountGroupQuery, ghost rows: seq<Row>, fks: seq<int>)
      returns (r: Result<seq<AccountGroup>, QueryError>, ghost s: set<object>)
    requires query.Valid() && fks == Ids(rows)
    modifies query.repr
    ensures query.Valid() && query.repr == old(query.repr) && fresh(s)
    ensures AccountGroupsAnswer(r, s, st, old(query.AsPlan()), query.AsPlan(), rows)
    ensures r.Success? ==> var keys := JunctionKeys(RowsOf(r.value), AccountID); Known(keys, |keys|, fks)
    decreases query.repr, 10
  {
    ghost var plan := query.AsPlan();
    query.NeedField(AccountID);
    query.Where(In(AccountID, fks));
    r, s := SqlAllJunction(query, st);
    if r.Success? {
      JunctionOwnersWereAsked(st, plan.sel, plan.edges, rows, r.value, s);
    }
  }

  lemma ShownGatherJunction(ns: seq<AccountGroup>, ts: seq<JunctionTree>, s: set<object>, ks: seq<Option<int>>, k: int)
    requires ShowsAllJunction(ns, ts, s) && |ks| == |ns|
    ensures ShowsAllJunction(HaveKey(ns, ks, k), HaveKey(ts, ks, k), s)
  {
  }

  lemma AccountGroupsOwned(
      st: Store, plan: JunctionPlan, e: Edges, nodes: seq<Account>, was: seq<AccountEdges>, found: seq<AccountGroup>,
      s: set<object>, i: nat)
    requires e.accountGroups == Some(plan) && i < |nodes| == |was| && was[i].accountGroups == []
    requires ShowsAllJunction(found, RunJunction(st, AccountGroupsSel(RowsOf(nodes), plan.sel), plan.edges), s)
    ensures var ids := Ids(RowsOf(nodes));
            var got := Fold(AddAccountGroup(), was[i], Owned(found, JunctionKeys(RowsOf(found), AccountID), ids, i));
            got == was[i].(accountGroups := got.accountGroups)
            && ShowsAllJunction(got.accountGroups, AccountGroupsEdge(st, RowsOf(nodes), e, i), s)
  {
    var rows := RowsOf(nodes);
    var fks := JunctionKeys(RowsOf(found), AccountID);
    var owned := Owned(found, fks, Ids(rows), i);
    FoldAccountGroups(was[i], owned);
    assert [] + owned == owned;
    ShownJunctionRows(found, JunctionNeighbors(st, rows, e), s);
    ShownGatherJunction(found, JunctionNeighbors(st, rows, e), s, fks, Ids(rows)[i]);
  }

  // The assignment loop touches neither the builder nor the answer.
  method AssignPairs(
      nodes: seq<Account>, ghost ids: seq<int>, nodeids: map<int, Account>, found: seq<AccountGroup>,
      ghost ts: seq<JunctionTree>, ghost query: AccountGroupQuery, ghost s: set<object>)
      returns (ok: bool)
    requires DistinctNodes(nodes) && IDIndex(nodes, ids, nodeids)
    requires var fks := JunctionKeys(RowsOf(found), AccountID); Known(fks, |fks|, ids)
    requires query.Valid() && Outside(nodes, query.repr) && Outside(nodes, s) && ShowsAllJunction(found, ts, s)
    modifies nodes
    ensures ok && AssignedToMany(nodes, old(EdgesNow(nodes)), ids, found, JunctionKeys(RowsOf(found), AccountID),
                                 |found|, AddAccountGroup())
    ensures query.Valid() && query.AsPlan() == old(query.AsPlan()) && ShowsAllJunction(found, ts, s)
  {
    var fks := JunctionKeys(RowsOf(found), AccountID);
    ok := AssignToMany(nodes, ids, nodeids, found, fks, AddAccountGroup());
  }

  method AssignAccountGroups(
      nodes: seq<Account>, ghost ids: seq<int>, nodeids: map<int, Account>, found: seq<AccountGroup>,
      ghost st: Store, ghost plan: JunctionPlan, ghost e: Edges, ghost query: AccountGroupQuery, ghost s: set<object>)
      returns (ok: bool)
    requires DistinctNodes(nodes) && IDIndex(nodes, ids, nodeids)
    requires var fks := JunctionKeys(RowsOf(found), AccountID); Known(fks, |fks|, ids)
    requires query.Valid() && Outside(nodes, query.repr) && Outside(nodes, s)
    requires e.accountGroups == Some(plan)
             && ShowsAllJunction(found, RunJunction(st, AccountGroupsSel(RowsOf(nodes), plan.sel), plan.edges), s)
    requires forall i {:trigger nodes[i]} :: 0 <= i < |nodes| ==> nodes[i].edges.accountGroups == []
    modifies nodes
    ensures ok && HasAccountGroups(nodes, old(EdgesNow(nodes)), st, e, s)
    ensures query.Valid() && query.AsPlan() == old(query.AsPlan())
  {
    ghost var was := EdgesNow(nodes);
    ghost var ts := RunJunction(st, AccountGroupsSel(RowsOf(nodes), plan.sel), plan.edges);
    ok := AssignPairs(nodes, ids, nodeids, found, ts, query, s);
    AccountGroupsAssigned(st, plan, e, nodes, was, found, s);
  }

  lemma AccountGroupsAssigned(
      st: Store, plan: JunctionPlan, e: Edges, nodes: seq<Account>, was: seq<AccountEdges>, found: seq<AccountGroup>,
      s: set<object>)
    requires AssignedToMany(nodes, was, Ids(RowsOf(nodes)), found, JunctionKeys(RowsOf(found), AccountID), |found|,
                            AddAccountGroup())
    requires forall i :: 0 <= i < |was| ==> was[i].accountGroups == []
    requires e.accountGroups == Some(plan)
             && ShowsAllJunction(found, RunJunction(st, AccountGroupsSel(RowsOf(nodes), plan.sel), plan.edges), s)
    ensures HasAccountGroups(nodes, was, st, e, s)
  {
    forall i {:trigger nodes[i]} | 0 <= i < |nodes|
      ensures nodes[i].edges == was[i].(accountGroups := nodes[i].edges.accountGroups)
      ensures ShowsAllJunction(nodes[i].edges.accountGroups, AccountGroupsEdge(st, RowsOf(nodes), e, i), s)
    {
      AllOwned(nodes, was, Ids(RowsOf(nodes)), found, JunctionKeys(RowsOf(found), AccountID), AddAccountGroup(), i);
      AccountGroupsOwned(st, plan, e, nodes, was, found, s, i);
    }
  }

  // The query and the assignments, once the nodes are indexed.
  method HangAccountGroups(
      st: Store, query: AccountGroupQuery, nodes: seq<Account>, fks: seq<int>, nodeids: map<int, Account>,
      ghost e: Edges)
      returns (err: Option<QueryError>, ghost s: set<object>)
    requires query.Valid() && DistinctNodes(nodes) && Outside(nodes, query.repr)
    requires e.accountGroups == Some(query.AsPlan())
    requires forall i {:trigger nodes[i]} :: 0 <= i < |nodes| ==> nodes[i].edges.accountGroups == []
    requires IDIndex(nodes, fks, nodeids)
    modifies nodes, query.repr
    ensures query.Valid() && query.repr == old(query.repr) && fresh(s)
    ensures match AccountGroupsError(st, RowsOf(nodes), e)
            case Some(x) => err == Some(x)
            case None =>
              && err.None?
              && Some(query.AsPlan()) == AccountGroupsAfter(st, RowsOf(nodes), e)
              && HasAccountGroups(nodes, old(EdgesNow(nodes)), st, e, s)
    decreases query.repr, 11
  {
    ghost var plan := query.AsPlan();
    var r;
    r, s := AskAccountGroups(st, query, RowsOf(nodes), fks);
    if r.Failure? {
      return Some(r.error), s;
    }
    var ok := AssignAccountGroups(nodes, fks, nodeids, r.value, st, plan, e, query, s);
    err := if ok then None else Some(UnexpectedNode);
  }

  method LoadAccountGroups(st: Store, query: AccountGroupQuery, nodes: seq<Account>, ghost e: Edges)
      returns (err: Option<QueryError>, ghost s: set<object>)
    requires query.Valid() && DistinctNodes(nodes) && Outside(nodes, query.repr)
    requires e.accountGroups == Some(query.AsPlan())
    requires forall i {:trigger nodes[i]} :: 0 <= i < |nodes| ==> nodes[i].edges.accountGroups == []
    modifies nodes, query.repr
    ensures query.Valid() && query.repr == old(query.repr) && fresh(s)
    ensures match AccountGroupsError(st, RowsOf(nodes), e)
            case Some(x) => err == Some(x)
            case None =>
              && err.None?
              && Some(query.AsPlan()) == AccountGroupsAfter(st, RowsOf(nodes), e)
              && HasAccountGroups(nodes, old(EdgesNow(nodes)), st, e, s)
    decreases query.repr, 12
  {
    var fks, nodeids := IndexByID(nodes, (x: AccountEdges) => x.(accountGroups := []));
    err, s := HangAccountGroups(st, query, nodes, fks, nodeids, e);
  }

  // The answer of the account query itself, as nodes without edges.
  method FetchNodes(q: AccountQuery, st: Store, ghost e: Edges) returns (nodes: seq<Account>)
    requires q.Valid() && e == q.AsEdges()
    ensures RowsOf(nodes) == Fetch(st, q.AsSel(), e) && DistinctNodes(nodes)
    ensures (forall i :: 0 <= i < |nodes| ==> fresh(nodes[i])) && Outside(nodes, q.repr)
    ensures Loading(EdgesNow(nodes), RowsOf(nodes), st, e, {}, 0)
  {
    var sel := q.AsSel();
    var cols := SpecColumns(sel.fields, q.withProxy != null, q.withParent != null, sel, e);
    var loaded := Loaded(q.withGroups != null, q.withProxy != null, q.withParent != null,
                         q.withChildren != null, q.withAccountGroups != null);
    nodes := NewNodes(ReadAll(cols, Rows(st, st.accounts, sel)), AccountEdges([], None, None, [], [], loaded));
  }

  method AttachNodes(q: AccountQuery, st: Store, nodes: seq<Account>, ghost e: Edges)
      returns (err: Option<QueryError>, ghost s: set<object>)
    requires q.Valid() && DistinctNodes(nodes) && Outside(nodes, q.repr) && e == q.AsEdges() && nodes != []
    requires Loading(EdgesNow(nodes), RowsOf(nodes), st, e, {}, 0)
    modifies nodes, q.repr
    ensures q.Valid() && q.repr == old(q.repr) && q.AsSel() == old(q.AsSel()) && fresh(s - Objects(nodes))
    ensures match AttachError(st, RowsOf(nodes), e)
            case Some(x) => err == Some(x)
            case None =>
              && err.None?
              && q.AsEdges() == After(st, RowsOf(nodes), e)
              && ShowsAll(nodes, Attach(st, RowsOf(nodes), e), s)
    decreases q.repr, 6
  {
    err, s := AttachAll(q, st, nodes, e);
    if err.None? {
      AddNodes(nodes, st, e, s);
    }
    s := s + Objects(nodes);
  }

  lemma NothingToLoad(st: Store, e: Edges)
    ensures AttachError(st, [], e).None? && After(st, [], e) == e && Attach(st, [], e) == []
  {
  }

  // A level of the graph: its nodes with everything attached, or the first invalid field.
  ghost predicate LevelDone(
      r: Result<seq<Account>, QueryError>, s: set<object>, st: Store, rows: seq<Row>, e: Edges, after: Edges)
    reads s
  {
    match AttachError(st, rows, e)
    case Some(x) => r == Failure(x)
    case None =>
      && r.Success? && ShowsAll(r.value, Attach(st, rows, e), s) && DistinctNodes(r.value)
      && after == After(st, rows, e)
  }

  lemma BadFieldIsAll(st: Store, sel: Sel, e: Edges, after: Edges, c: Column)
    requires BadField(sel.fields, ValidAccountColumn) == Some(c)
    ensures AllDone(Failure(InvalidField(c)), {}, st, sel, e, after)
  {
  }

  lemma LevelIsAll(r: Result<seq<Account>, QueryError>, s: set<object>, st: Store, sel: Sel, e: Edges, after: Edges)
    requires BadField(sel.fields, ValidAccountColumn).None? && LevelDone(r, s, st, Fetch(st, sel, e), e, after)
    ensures AllDone(r, s, st, sel, e, after)
  {
  }

  // What sqlAll does with the nodes it has scanned.
  method LoadLevel(q: AccountQuery, st: Store, nodes: seq<Account>, ghost e: Edges)
      returns (r: Result<seq<Account>, QueryError>, ghost s: set<object>)
    requires q.Valid() && DistinctNodes(nodes) && Outside(nodes, q.repr) && e == q.AsEdges()
    requires Loading(EdgesNow(nodes), RowsOf(nodes), st, e, {}, 0)
    modifies nodes, q.repr
    ensures q.Valid() && q.repr == old(q.repr) && q.AsSel() == old(q.AsSel()) && fresh(s - Objects(nodes))
    ensures LevelDone(r, s, st, RowsOf(nodes), e, q.AsEdges())
    decreases q.repr, 7
  {
    if nodes == [] {
      NothingToLoad(st, e);
      return Success([]), {};
    }
    var err;
    err, s := AttachNodes(q, st, nodes, e);
    r := if err.Some? then Failure(err.value) else Success(nodes);
  }

  // The same once the fields are known to be valid.
  method RunValid(q: AccountQuery, st: Store, ghost sel: Sel, ghost e: Edges)
      returns (r: Result<seq<Account>, QueryError>, ghost s: set<object>)
    requires q.Valid() && sel == q.AsSel() && e == q.AsEdges() && BadField(sel.fields, ValidAccountColumn).None?
    modifies q.repr
    ensures q.Valid() && q.repr == old(q.repr) && q.AsSel() == sel && fresh(s)
    ensures AllDone(r, s, st, sel, e, q.AsEdges())
    decreases q.repr, 8
  {
    var nodes := FetchNodes(q, st, e);
    r, s := LoadLevel(q, st, nodes, e);
    LevelIsAll(r, s, st, sel, e, q.AsEdges());
  }

  /** AccountQuery.sqlAll: one query, then the loaders of the active edges, each with
      one query of its own.  The graph it builds is Run of the builder tree, and the
      builder tree is left as After says. */
  method SqlAll(q: AccountQuery, st: Store) returns (r: Result<seq<Account>, QueryError>, ghost s: set<object>)
    requires q.Valid()
    modifies q.repr
    ensures q.Valid() && q.repr == old(q.repr) && q.AsSel() == old(q.AsSel()) && fresh(s)
    ensures AllDone(r, s, st, old(q.AsSel()), old(q.AsEdges()), q.AsEdges())
    decreases q.repr, 9
  {
    ghost var e, sel := q.AsEdges(), q.AsSel();
    var bad := CheckFields(q.ctx.fields, ValidAccountColumn);
    if bad.Some? {
      BadFieldIsAll(st, sel, e, e, bad.value);
      return Failure(InvalidField(bad.value)), {};
    }
    r, s := RunValid(q, st, sel, e);
  }

  lemma AddNodes(nodes: seq<Account>, st: Store, e: Edges, s: set<object>)
    requires Loading(EdgesNow(nodes), RowsOf(nodes), st, e, s, 5)
    ensures ShowsAll(nodes, Attach(st, RowsOf(nodes), e), s + Objects(nodes))
  {
    LoadingMore(EdgesNow(nodes), RowsOf(nodes), st, e, s, s + Objects(nodes), 5);
    FullyLoaded(nodes, st, e, s + Objects(nodes));
  }

  // ------------------------------------------------------------------- junction run

  method JunctionSpecColumns(
      fields: seq<Column>, keepAccount: bool, keepGroup: bool, ghost sel: Sel, ghost e: JunctionEdges)
      returns (cols: Option<seq<Column>>)
    requires fields == sel.fields && keepAccount == e.account.Some? && keepGroup == e.group.Some?
    ensures cols == JunctionColumns(sel, e)
  {
    if fields == [] {
      return None;
    }
    var columns := [];
    for i := 0 to |fields|
      invariant columns == fields[..i]
    {
      columns := columns + [fields[i]];
    }
    assert columns == fields;
    if keepAccount {
      columns := AddOnce(columns, AccountID);
    }
    if keepGroup {
      columns := AddOnce(columns, GroupID);
    }
    cols := Some(columns);
  }

  ghost function Objects<E>(nodes: seq<Node<E>>): set<object> {
    set i | 0 <= i < |nodes| :: nodes[i]
  }

  lemma JunctionShown(nodes: seq<AccountGroup>, st: Store, e: JunctionEdges, s: set<object>)
    requires forall i {:trigger nodes[i]} :: 0 <= i < |nodes| ==>
               && nodes[i].edges.loadedAccount == e.account.Some? && nodes[i].edges.loadedGroup == e.group.Some?
               && ShowsOption(nodes[i].edges.account, OwnerEdge(st, RowsOf(nodes), e, i), s)
               && ShowsLeaf(nodes[i].edges.group, MemberEdge(st, RowsOf(nodes), e, i))
    ensures ShowsAllJunction(nodes, AttachJunction(st, RowsOf(nodes), e), s + Objects(nodes))
  {
    var ts := AttachJunction(st, RowsOf(nodes), e);
    forall i | 0 <= i < |nodes| ensures ShowsJunction(nodes[i], ts[i], s + Objects(nodes)) {
      assert nodes[i] in Objects(nodes);
      if ts[i].account.Some? {
        ShowsMore(nodes[i].edges.account.value, ts[i].account.value, s, s + Objects(nodes));
      }
    }
  }

  lemma JunctionPartsApart(q: AccountGroupQuery)
    requires q.Valid()
    ensures LeafRepr(q.withGroup) !! AccountRepr(q.withAccount)
    ensures q !in LeafRepr(q.withGroup) && q !in AccountRepr(q.withAccount)
    ensures q.ctx !in LeafRepr(q.withGroup) && q.ctx !in AccountRepr(q.withAccount)
  {
    var parts := [{q, q.ctx}, LeafRepr(q.withGroup), AccountRepr(q.withAccount)];
    assert parts[1] !! parts[2];
    assert parts[0] !! parts[1];
    assert parts[0] !! parts[2];
  }

  method RunOwner(q: AccountGroupQuery, st: Store, nodes: seq<AccountGroup>, ghost e: JunctionEdges)
      returns (err: Option<QueryError>, ghost s: set<object>)
    requires q.Valid() && DistinctNodes(nodes) && Outside(nodes, q.repr) && e == q.AsEdges()
    requires forall i {:trigger nodes[i]} :: 0 <= i < |nodes| ==> nodes[i].edges.account.None?
    modifies nodes, q.repr
    ensures q.Valid() && q.repr == old(q.repr) && q.AsSel() == old(q.AsSel()) && fresh(s)
    ensures match OwnerError(st, RowsOf(nodes), e)
            case Some(x) => err == Some(x)
            case None =>
              && err.None?
              && q.AsEdges() == e.(account := OwnerAfter(st, RowsOf(nodes), e))
              && HasOwner(nodes, old(EdgesNow(nodes)), st, e, s)
    decreases q.repr, 1
  {
    JunctionPartsApart(q);
    err, s := None, {};
    if q.withAccount != null {
      err, s := LoadOwner(st, q.withAccount, nodes, e);
    }
  }

  // Only the withGroup part of a builder tree was changed.
  twostate lemma MemberChanged(q: AccountGroupQuery)
    requires old(q.Valid()) && q.withGroup != null && unchanged(q)
    requires forall o :: o in old(q.repr) && o !in old(q.withGroup.repr) ==> unchanged(o)
    requires q.withGroup.Valid() && q.withGroup.repr == old(q.withGroup.repr)
    ensures q.Valid() && q.AsSel() == old(q.AsSel())
    ensures q.AsEdges() == old(q.AsEdges()).(group := Some(q.withGroup.AsSel()))
  {
    var parts := old([{q, q.ctx}, LeafRepr(q.withGroup), AccountRepr(q.withAccount)]);
    assert Apart(parts) && parts[0] !! parts[1] && parts[0] !! parts[2] && parts[1] !! parts[2];
  }

  lemma NoMember(nodes: seq<AccountGroup>, st: Store, e: JunctionEdges)
    requires e.group.None? && forall i {:trigger nodes[i]} :: 0 <= i < |nodes| ==> nodes[i].edges.group.None?
    ensures HasMember(nodes, EdgesNow(nodes), st, e)
    ensures MemberError(RowsOf(nodes), e).None? && MemberAfter(RowsOf(nodes), e) == e.group
  {
  }

  method RunMember(q: AccountGroupQuery, st: Store, nodes: seq<AccountGroup>, ghost e: JunctionEdges)
      returns (err: Option<QueryError>)
    requires q.Valid() && DistinctNodes(nodes) && Outside(nodes, q.repr) && e.group == q.AsEdges().group
    requires forall i {:trigger nodes[i]} :: 0 <= i < |nodes| ==> nodes[i].edges.group.None?
    modifies nodes, q.repr
    ensures q.Valid() && q.repr == old(q.repr) && q.AsSel() == old(q.AsSel())
    ensures q.AsEdges() == old(q.AsEdges()).(group := MemberAfter(RowsOf(nodes), e))
    ensures match MemberError(RowsOf(nodes), e)
            case Some(x) => err == Some(x)
            case None => err.None? && HasMember(nodes, old(EdgesNow(nodes)), st, e)
  {
    err := None;
    if q.withGroup == null {
      NoMember(nodes, st, e);
    } else {
      err := LoadMember(st, q.withGroup, nodes, e);
      MemberChanged(q);
    }
  }

  // ------------------------------------------------------- one edge of an account run

  lemma PartsApart(q: AccountQuery)
    requires q.Valid()
    ensures var own, g, p, a, c, j := {q, q.ctx}, LeafRepr(q.withGroups), LeafRepr(q.withProxy),
                                      AccountRepr(q.withParent), AccountRepr(q.withChildren),
                                      JunctionRepr(q.withAccountGroups);
            && own !! g && own !! p && own !! a && own !! c && own !! j
            && g !! p && g !! a && g !! c && g !! j
            && p !! a && p !! c && p !! j
            && a !! c && a !! j && c !! j
  {
    SixApart(Parts(q));
  }

  // Only the withGroups part of a builder tree was changed.
  twostate lemma GroupsChanged(q: AccountQuery)
    requires old(q.Valid()) && q.withGroups != null && unchanged(q)
    requires forall o :: o in old(q.repr) && o !in old(q.withGroups.repr) ==> unchanged(o)
    requires q.withGroups.Valid() && q.withGroups.repr == old(q.withGroups.repr)
    ensures q.Valid() && q.AsSel() == old(q.AsSel())
    ensures q.AsEdges() == old(q.AsEdges()).(groups := Some(q.withGroups.AsSel()))
  {
    SixApart(old(Parts(q)));
  }

  // Only the withProxy part of a builder tree was changed.
  twostate lemma ProxyChanged(q: AccountQuery)
    requires old(q.Valid()) && q.withProxy != null && unchanged(q)
    requires forall o :: o in old(q.repr) && o !in old(q.withProxy.repr) ==> unchanged(o)
    requires q.withProxy.Valid() && q.withProxy.repr == old(q.withProxy.repr)
    ensures q.Valid() && q.AsSel() == old(q.AsSel())
    ensures q.AsEdges() == old(q.AsEdges()).(proxy := Some(q.withProxy.AsSel()))
  {
    SixApart(old(Parts(q)));
  }

  // Only the withParent part of a builder tree was changed.
  twostate lemma ParentChanged(q: AccountQuery)
    requires old(q.Valid()) && q.withParent != null && unchanged(q)
    requires forall o :: o in old(q.repr) && o !in old(q.withParent.repr) ==> unchanged(o)
    requires q.withParent.Valid() && q.withParent.repr == old(q.withParent.repr)
    ensures q.Valid() && q.AsSel() == old(q.AsSel())
    ensures q.AsEdges() == old(q.AsEdges()).(parent := Some(q.withParent.AsPlan()))
  {
    SixApart(old(Parts(q)));
  }

  // Only the withChildren part of a builder tree was changed.
  twostate lemma ChildrenChanged(q: AccountQuery)
    requires old(q.Valid()) && q.withChildren != null && unchanged(q)
    requires forall o :: o in old(q.repr) && o !in old(q.withChildren.repr) ==> unchanged(o)
    requires q.withChildren.Valid() && q.withChildren.repr == old(q.withChildren.repr)
    ensures q.Valid() && q.AsSel() == old(q.AsSel())
    ensures q.AsEdges() == old(q.AsEdges()).(children := Some(q.withChildren.AsPlan()))
  {
    SixApart(old(Parts(q)));
  }

  // Only the withAccountGroups part of a builder tree was changed.
  twostate lemma AccountGroupsChanged(q: AccountQuery)
    requires old(q.Valid()) && q.withAccountGroups != null && unchanged(q)
    requires forall o :: o in old(q.repr) && o !in old(q.withAccountGroups.repr) ==> unchanged(o)
    requires q.withAccountGroups.Valid() && q.withAccountGroups.repr == old(q.withAccountGroups.repr)
    ensures q.Valid() && q.AsSel() == old(q.AsSel())
    ensures q.AsEdges() == old(q.AsEdges()).(accountGroups := Some(q.withAccountGroups.AsPlan()))
  {
    SixApart(old(Parts(q)));
  }

  method RunProxy(q: AccountQuery, st: Store, nodes: seq<Account>, ghost e: Edges)
      returns (err: Option<QueryError>)
    requires q.Valid() && DistinctNodes(nodes) && Outside(nodes, q.repr) && e.proxy == q.AsEdges().proxy
    requires forall i {:trigger nodes[i]} :: 0 <= i < |nodes| ==> nodes[i].edges.proxy.None?
    modifies nodes, q.repr
    ensures q.Valid() && q.repr == old(q.repr) && q.AsSel() == old(q.AsSel())
    ensures q.AsEdges() == old(q.AsEdges()).(proxy := ProxyAfter(RowsOf(nodes), e))
    ensures match ProxyError(RowsOf(nodes), e)
            case Some(x) => err == Some(x)
            case None => err.None? && HasProxy(nodes, old(EdgesNow(nodes)), st, e)
  {
    PartsApart(q);
    err := None;
    if q.withProxy != null {
      err := LoadProxy(st, q.withProxy, nodes, e);
      ProxyChanged(q);
    }
  }

  method RunParent(q: AccountQuery, st: Store, nodes: seq<Account>, ghost e: Edges)
      returns (err: Option<QueryError>, ghost s: set<object>)
    requires q.Valid() && DistinctNodes(nodes) && Outside(nodes, q.repr) && e.parent == q.AsEdges().parent
    requires forall i {:trigger nodes[i]} :: 0 <= i < |nodes| ==> nodes[i].edges.parent.None?
    modifies nodes, q.repr
    ensures q.Valid() && q.repr == old(q.repr) && q.AsSel() == old(q.AsSel()) && fresh(s)
    ensures match ParentError(st, RowsOf(nodes), e)
            case Some(x) => err == Some(x)
            case None =>
              && err.None?
              && q.AsEdges() == old(q.AsEdges()).(parent := ParentAfter(st, RowsOf(nodes), e))
              && HasParent(nodes, old(EdgesNow(nodes)), st, e, s)
    decreases q.repr, 1
  {
    PartsApart(q);
    err, s := None, {};
    if q.withParent != null {
      err, s := LoadParent(st, q.withParent, nodes, e);
      ParentChanged(q);
    }
  }

  method RunChildren(q: AccountQuery, st: Store, nodes: seq<Account>, ghost e: Edges)
      returns (err: Option<QueryError>, ghost s: set<object>)
    requires q.Valid() && DistinctNodes(nodes) && Outside(nodes, q.repr) && e.children == q.AsEdges().children
    requires forall i {:trigger nodes[i]} :: 0 <= i < |nodes| ==> nodes[i].edges.children == []
    modifies nodes, q.repr
    ensures q.Valid() && q.repr == old(q.repr) && q.AsSel() == old(q.AsSel()) && fresh(s)
    ensures match ChildrenError(st, RowsOf(nodes), e)
            case Some(x) => err == Some(x)
            case None =>
              && err.None?
              && q.AsEdges() == old(q.AsEdges()).(children := ChildrenAfter(st, RowsOf(nodes), e))
              && HasChildren(nodes, old(EdgesNow(nodes)), st, e, s)
    decreases q.repr, 1
  {
    PartsApart(q);
    err, s := None, {};
    if q.withChildren != null {
      err, s := LoadChildren(st, q.withChildren, nodes, e);
      ChildrenChanged(q);
    }
  }

  method RunAccountGroups(q: AccountQuery, st: Store, nodes: seq<Account>, ghost e: Edges)
      returns (err: Option<QueryError>, ghost s: set<object>)
    requires q.Valid() && DistinctNodes(nodes) && Outside(nodes, q.repr) && e.accountGroups == q.AsEdges().accountGroups
    requires forall i {:trigger nodes[i]} :: 0 <= i < |nodes| ==> nodes[i].edges.accountGroups == []
    modifies nodes, q.repr
    ensures q.Valid() && q.repr == old(q.repr) && q.AsSel() == old(q.AsSel()) && fresh(s)
    ensures match AccountGroupsError(st, RowsOf(nodes), e)
            case Some(x) => err == Some(x)
            case None =>
              && err.None?
              && q.AsEdges() == old(q.AsEdges()).(accountGroups := AccountGroupsAfter(st, RowsOf(nodes), e))
              && HasAccountGroups(nodes, old(EdgesNow(nodes)), st, e, s)
    decreases q.repr, 1
  {
    PartsApart(q);
    err, s := None, {};
    if q.withAccountGroups != null {
      err, s := LoadAccountGroups(st, q.withAccountGroups, nodes, e);
      AccountGroupsChanged(q);
    }
  }

  // ------------------------------------------------------- all edges of an account run

  // How far the edges of a level have been loaded, in the order of sqlAll.
  ghost predicate Loading(w: seq<AccountEdges>, rows: seq<Row>, st: Store, e: Edges, s: set<object>, stage: nat)
    reads s
  {
    |w| == |rows| && forall i {:trigger w[i]} :: 0 <= i < |w| ==>
      && w[i].loadedTypes == LoadedTypes(e)
      && (if stage >= 1 then RowsOf(w[i].groups) == GroupsEdge(st, rows, e, i) else w[i].groups == [])
      && (if stage >= 2 then ShowsLeaf(w[i].proxy, ProxyEdge(st, rows, e, i)) else w[i].proxy.None?)
      && (if stage >= 3 then ShowsOption(w[i].parent, ParentEdge(st, rows, e, i), s) else w[i].parent.None?)
      && (if stage >= 4 then ShowsAll(w[i].children, ChildrenEdge(st, rows, e, i), s) else w[i].children == [])
      && (if stage >= 5 then ShowsAllJunction(w[i].accountGroups, AccountGroupsEdge(st, rows, e, i), s)
          else w[i].accountGroups == [])
  }

  lemma OptionMore(n: Option<Account>, t: Option<Tree>, s: set<object>, more: set<object>)
    requires ShowsOption(n, t, s) && s <= more
    ensures ShowsOption(n, t, more)
  {
    if t.Some? { ShowsMore(n.value, t.value, s, more); }
  }

  lemma AllMore(ns: seq<Account>, ts: seq<Tree>, s: set<object>, more: set<object>)
    requires ShowsAll(ns, ts, s) && s <= more
    ensures ShowsAll(ns, ts, more)
  {
    forall i | 0 <= i < |ts| ensures Shows(ns[i], ts[i], more) { ShowsMore(ns[i], ts[i], s, more); }
  }

  lemma AllJunctionMore(ns: seq<AccountGroup>, ts: seq<JunctionTree>, s: set<object>, more: set<object>)
    requires ShowsAllJunction(ns, ts, s) && s <= more
    ensures ShowsAllJunction(ns, ts, more)
  {
    forall i | 0 <= i < |ts| ensures ShowsJunction(ns[i], ts[i], more) { ShowsJunctionMore(ns[i], ts[i], s, more); }
  }

  lemma LoadingMore(
      w: seq<AccountEdges>, rows: seq<Row>, st: Store, e: Edges, s: set<object>, more: set<object>, stage: nat)
    requires Loading(w, rows, st, e, s, stage) && s <= more
    ensures Loading(w, rows, st, e, more, stage)
  {
    forall i {:trigger w[i]} | 0 <= i < |w|
      ensures stage >= 3 ==> ShowsOption(w[i].parent, ParentEdge(st, rows, e, i), more)
      ensures stage >= 4 ==> ShowsAll(w[i].children, ChildrenEdge(st, rows, e, i), more)
      ensures stage >= 5 ==> ShowsAllJunction(w[i].accountGroups, AccountGroupsEdge(st, rows, e, i), more)
    {
      if stage >= 3 { OptionMore(w[i].parent, ParentEdge(st, rows, e, i), s, more); }
      if stage >= 4 { AllMore(w[i].children, ChildrenEdge(st, rows, e, i), s, more); }
      if stage >= 5 { AllJunctionMore(w[i].accountGroups, AccountGroupsEdge(st, rows, e, i), s, more); }
    }
  }

  lemma GroupsStage(nodes: seq<Account>, was: seq<AccountEdges>, st: Store, e: Edges)
    requires Loading(was, RowsOf(nodes), st, e, {}, 0) && HasGroups(nodes, was, st, e)
    ensures Loading(EdgesNow(nodes), RowsOf(nodes), st, e, {}, 1)
  {
  }

  lemma NoGroupsStage(w: seq<AccountEdges>, rows: seq<Row>, st: Store, e: Edges)
    requires Loading(w, rows, st, e, {}, 0) && e.groups.None?
    ensures Loading(w, rows, st, e, {}, 1)
  {
    forall i | 0 <= i < |rows| ensures GroupsEdge(st, rows, e, i) == [] { NoLinks([], Ids(rows)[i]); }
  }

  lemma NoLinks(neighbors: seq<Row>, acc: int)
    requires neighbors == []
    ensures GroupsOf([], neighbors, acc) == []
  {
  }

  lemma ProxyStage(nodes: seq<Account>, was: seq<AccountEdges>, st: Store, e: Edges)
    requires Loading(was, RowsOf(nodes), st, e, {}, 1) && HasProxy(nodes, was, st, e)
    ensures Loading(EdgesNow(nodes), RowsOf(nodes), st, e, {}, 2)
  {
  }

  lemma ParentStage(nodes: seq<Account>, was: seq<AccountEdges>, st: Store, e: Edges, s: set<object>, t: set<object>)
    requires Loading(was, RowsOf(nodes), st, e, s, 2) && HasParent(nodes, was, st, e, t)
    ensures Loading(EdgesNow(nodes), RowsOf(nodes), st, e, s + t, 3)
  {
    forall i {:trigger nodes[i]} | 0 <= i < |nodes|
      ensures ShowsOption(nodes[i].edges.parent, ParentEdge(st, RowsOf(nodes), e, i), s + t)
    {
      OptionMore(nodes[i].edges.parent, ParentEdge(st, RowsOf(nodes), e, i), t, s + t);
    }
  }

  lemma ChildrenStage(nodes: seq<Account>, was: seq<AccountEdges>, st: Store, e: Edges, s: set<object>, t: set<object>)
    requires Loading(was, RowsOf(nodes), st, e, s, 3) && HasChildren(nodes, was, st, e, t)
    ensures Loading(EdgesNow(nodes), RowsOf(nodes), st, e, s + t, 4)
  {
    LoadingMore(was, RowsOf(nodes), st, e, s, s + t, 3);
    forall i {:trigger nodes[i]} | 0 <= i < |nodes|
      ensures ShowsAll(nodes[i].edges.children, ChildrenEdge(st, RowsOf(nodes), e, i), s + t)
    {
      AllMore(nodes[i].edges.children, ChildrenEdge(st, RowsOf(nodes), e, i), t, s + t);
    }
  }

  lemma AccountGroupsStage(
      nodes: seq<Account>, was: seq<AccountEdges>, st: Store, e: Edges, s: set<object>, t: set<object>)
    requires Loading(was, RowsOf(nodes), st, e, s, 4) && HasAccountGroups(nodes, was, st, e, t)
    ensures Loading(EdgesNow(nodes), RowsOf(nodes), st, e, s + t, 5)
  {
    LoadingMore(was, RowsOf(nodes), st, e, s, s + t, 4);
    forall i {:trigger nodes[i]} | 0 <= i < |nodes|
      ensures ShowsAllJunction(nodes[i].edges.accountGroups, AccountGroupsEdge(st, RowsOf(nodes), e, i), s + t)
    {
      AllJunctionMore(nodes[i].edges.accountGroups, AccountGroupsEdge(st, RowsOf(nodes), e, i), t, s + t);
    }
  }

  lemma FullyLoaded(nodes: seq<Account>, st: Store, e: Edges, s: set<object>)
    requires Loading(EdgesNow(nodes), RowsOf(nodes), st, e, s, 5) && s >= Objects(nodes)
    ensures ShowsAll(nodes, Attach(st, RowsOf(nodes), e), s)
  {
    var w, ts := EdgesNow(nodes), Attach(st, RowsOf(nodes), e);
    forall i | 0 <= i < |nodes| ensures Shows(nodes[i], ts[i], s) {
      assert w[i] == nodes[i].edges;
      assert nodes[i] in Objects(nodes);
    }
  }

  twostate lemma Untouched(q: AccountQuery)
    requires old(q.Valid()) && forall o :: o in old(q.repr) ==> unchanged(o)
    ensures q.Valid() && q.AsPlan() == old(q.AsPlan())
  {
  }

  method RunGroups(q: AccountQuery, st: Store, nodes: seq<Account>, ghost e: Edges) returns (err: Option<QueryError>)
    requires q.Valid() && DistinctNodes(nodes) && Outside(nodes, q.repr) && e == q.AsEdges()
    requires Loading(EdgesNow(nodes), RowsOf(nodes), st, e, {}, 0)
    modifies nodes, q.repr
    ensures q.Valid() && q.repr == old(q.repr) && q.AsSel() == old(q.AsSel())
    ensures q.AsEdges() == e.(groups := GroupsAfter(RowsOf(nodes), e))
    ensures match GroupsError(st, RowsOf(nodes), e)
            case Some(x) => err == Some(x)
            case None => err.None? && Loading(EdgesNow(nodes), RowsOf(nodes), st, e, {}, 1)
  {
    ghost var was := EdgesNow(nodes);
    PartsApart(q);
    err := None;
    if q.withGroups == null {
      NoGroupsStage(was, RowsOf(nodes), st, e);
    } else {
      ghost var shared;
      err, shared := LoadGroups(st, q.withGroups, nodes, e);
      GroupsChanged(q);
      if err.None? {
        GroupsStage(nodes, was, st, e);
      }
    }
  }

  method ParentLoaded(q: AccountQuery, st: Store, nodes: seq<Account>, ghost e: Edges, ghost s: set<object>)
      returns (err: Option<QueryError>, ghost more: set<object>)
    requires q.Valid() && DistinctNodes(nodes) && Outside(nodes, q.repr) && Outside(nodes, s) && s !! q.repr
    requires e.parent == q.AsEdges().parent && Loading(EdgesNow(nodes), RowsOf(nodes), st, e, s, 2)
    modifies nodes, q.repr
    ensures q.Valid() && q.repr == old(q.repr) && q.AsSel() == old(q.AsSel()) && s <= more && fresh(more - s)
    ensures match ParentError(st, RowsOf(nodes), e)
            case Some(x) => err == Some(x)
            case None =>
              && err.None?
              && q.AsEdges() == old(q.AsEdges()).(parent := ParentAfter(st, RowsOf(nodes), e))
              && Loading(EdgesNow(nodes), RowsOf(nodes), st, e, more, 3)
    decreases q.repr, 2
  {
    ghost var was := EdgesNow(nodes);
    ghost var t;
    err, t := RunParent(q, st, nodes, e);
    if err.None? {
      ParentStage(nodes, was, st, e, s, t);
    }
    more := s + t;
  }

  // RunChildren disturbs nothing of what was loaded before.
  method RunChildrenApart(
      q: AccountQuery, st: Store, nodes: seq<Account>, ghost e: Edges, ghost was: seq<AccountEdges>,
      ghost s: set<object>)
      returns (err: Option<QueryError>, ghost t: set<object>)
    requires q.Valid() && DistinctNodes(nodes) && Outside(nodes, q.repr) && e.children == q.AsEdges().children
    requires Outside(nodes, s) && s !! q.repr
    requires was == EdgesNow(nodes) && Loading(was, RowsOf(nodes), st, e, s, 3)
    modifies nodes, q.repr
    ensures q.Valid() && q.repr == old(q.repr) && q.AsSel() == old(q.AsSel()) && fresh(t)
    ensures Loading(was, RowsOf(nodes), st, e, s, 3)
    ensures match ChildrenError(st, RowsOf(nodes), e)
            case Some(x) => err == Some(x)
            case None =>
              && err.None?
              && q.AsEdges() == old(q.AsEdges()).(children := ChildrenAfter(st, RowsOf(nodes), e))
              && HasChildren(nodes, was, st, e, t)
    decreases q.repr, 2
  {
    err, t := RunChildren(q, st, nodes, e);
  }

  method ChildrenLoaded(q: AccountQuery, st: Store, nodes: seq<Account>, ghost e: Edges, ghost s: set<object>)
      returns (err: Option<QueryError>, ghost more: set<object>)
    requires q.Valid() && DistinctNodes(nodes) && Outside(nodes, q.repr) && Outside(nodes, s) && s !! q.repr
    requires e.children == q.AsEdges().children && Loading(EdgesNow(nodes), RowsOf(nodes), st, e, s, 3)
    modifies nodes, q.repr
    ensures q.Valid() && q.repr == old(q.repr) && q.AsSel() == old(q.AsSel()) && s <= more && fresh(more - s)
    ensures match ChildrenError(st, RowsOf(nodes), e)
            case Some(x) => err == Some(x)
            case None =>
              && err.None?
              && q.AsEdges() == old(q.AsEdges()).(children := ChildrenAfter(st, RowsOf(nodes), e))
              && Loading(EdgesNow(nodes), RowsOf(nodes), st, e, more, 4)
    decreases q.repr, 3
  {
    ghost var was := EdgesNow(nodes);
    ghost var t;
    err, t := RunChildrenApart(q, st, nodes, e, was, s);
    if err.None? {
      ChildrenStage(nodes, was, st, e, s, t);
    }
    more := s + t;
  }

  method AccountGroupsLoaded(q: AccountQuery, st: Store, nodes: seq<Account>, ghost e: Edges, ghost s: set<object>)
      returns (err: Option<QueryError>, ghost more: set<object>)
    requires q.Valid() && DistinctNodes(nodes) && Outside(nodes, q.repr) && Outside(nodes, s) && s !! q.repr
    requires e.accountGroups == q.AsEdges().accountGroups && Loading(EdgesNow(nodes), RowsOf(nodes), st, e, s, 4)
    modifies nodes, q.repr
    ensures q.Valid() && q.repr == old(q.repr) && q.AsSel() == old(q.AsSel()) && s <= more && fresh(more - s)
    ensures match AccountGroupsError(st, RowsOf(nodes), e)
            case Some(x) => err == Some(x)
            case None =>
              && err.None?
              && q.AsEdges() == old(q.AsEdges()).(accountGroups := AccountGroupsAfter(st, RowsOf(nodes), e))
              && Loading(EdgesNow(nodes), RowsOf(nodes), st, e, more, 5)
    decreases q.repr, 2
  {
    ghost var was := EdgesNow(nodes);
    ghost var t;
    err, t := RunAccountGroups(q, st, nodes, e);
    if err.None? {
      AccountGroupsStage(nodes, was, st, e, s, t);
    }
    more := s + t;
  }

  method ProxyLoaded(q: AccountQuery, st: Store, nodes: seq<Account>, ghost e: Edges) returns (err: Option<QueryError>)
    requires q.Valid() && DistinctNodes(nodes) && Outside(nodes, q.repr) && e.proxy == q.AsEdges().proxy
    requires Loading(EdgesNow(nodes), RowsOf(nodes), st, e, {}, 1)
    modifies nodes, q.repr
    ensures q.Valid() && q.repr == old(q.repr) && q.AsSel() == old(q.AsSel())
    ensures q.AsEdges() == old(q.AsEdges()).(proxy := ProxyAfter(RowsOf(nodes), e))
    ensures match ProxyError(RowsOf(nodes), e)
            case Some(x) => err == Some(x)
            case None => err.None? && Loading(EdgesNow(nodes), RowsOf(nodes), st, e, {}, 2)
  {
    ghost var was := EdgesNow(nodes);
    err := RunProxy(q, st, nodes, e);
    if err.None? {
      ProxyStage(nodes, was, st, e);
    }
  }

  // The loader calls of sqlAll, in its order; the first failure ends the run.
  method AttachLeaves(q: AccountQuery, st: Store, nodes: seq<Account>, ghost e: Edges) returns (err: Option<QueryError>)
    requires q.Valid() && DistinctNodes(nodes) && Outside(nodes, q.repr) && e == q.AsEdges()
    requires Loading(EdgesNow(nodes), RowsOf(nodes), st, e, {}, 0)
    modifies nodes, q.repr
    ensures q.Valid() && q.repr == old(q.repr) && q.AsSel() == old(q.AsSel())
    ensures match LeavesError(st, RowsOf(nodes), e)
            case Some(x) => err == Some(x)
            case None =>
              && err.None?
              && q.AsEdges() == e.(groups := GroupsAfter(RowsOf(nodes), e), proxy := ProxyAfter(RowsOf(nodes), e))
              && Loading(EdgesNow(nodes), RowsOf(nodes), st, e, {}, 2)
  {
    err := RunGroups(q, st, nodes, e);
    if err.None? {
      err := ProxyLoaded(q, st, nodes, e);
    }
  }

  method AttachFirst(q: AccountQuery, st: Store, nodes: seq<Account>, ghost e: Edges)
      returns (err: Option<QueryError>, ghost s: set<object>)
    requires q.Valid() && DistinctNodes(nodes) && Outside(nodes, q.repr) && e == q.AsEdges()
    requires Loading(EdgesNow(nodes), RowsOf(nodes), st, e, {}, 0)
    modifies nodes, q.repr
    ensures q.Valid() && q.repr == old(q.repr) && q.AsSel() == old(q.AsSel()) && fresh(s)
    ensures match FirstError(st, RowsOf(nodes), e)
            case Some(x) => err == Some(x)
            case None =>
              && err.None?
              && q.AsEdges() == e.(groups := GroupsAfter(RowsOf(nodes), e), proxy := ProxyAfter(RowsOf(nodes), e),
                                   parent := ParentAfter(st, RowsOf(nodes), e))
              && Loading(EdgesNow(nodes), RowsOf(nodes), st, e, s, 3)
    decreases q.repr, 3
  {
    s := {};
    err := AttachLeaves(q, st, nodes, e);
    if err.None? {
      err, s := ParentLoaded(q, st, nodes, e, s);
    }
  }

  method AttachRest(q: AccountQuery, st: Store, nodes: seq<Account>, ghost e: Edges, ghost s: set<object>)
      returns (err: Option<QueryError>, ghost more: set<object>)
    requires q.Valid() && DistinctNodes(nodes) && Outside(nodes, q.repr) && Outside(nodes, s) && s !! q.repr
    requires e.children == q.AsEdges().children && e.accountGroups == q.AsEdges().accountGroups
    requires Loading(EdgesNow(nodes), RowsOf(nodes), st, e, s, 3)
    modifies nodes, q.repr
    ensures q.Valid() && q.repr == old(q.repr) && q.AsSel() == old(q.AsSel()) && fresh(more - s)
    ensures match OrElse(ChildrenError(st, RowsOf(nodes), e), AccountGroupsError(st, RowsOf(nodes), e))
            case Some(x) => err == Some(x)
            case None =>
              && err.None?
              && q.AsEdges() == old(q.AsEdges()).(children := ChildrenAfter(st, RowsOf(nodes), e),
                                                 accountGroups := AccountGroupsAfter(st, RowsOf(nodes), e))
              && Loading(EdgesNow(nodes), RowsOf(nodes), st, e, more, 5)
    decreases q.repr, 4
  {
    ghost var mid;
    err, mid := ChildrenLoaded(q, st, nodes, e, s);
    more := mid;
    if err.None? {
      err, more := AccountGroupsLoaded(q, st, nodes, e, mid);
      assert more - s <= (more - mid) + (mid - s);
    }
  }

  method AttachAll(q: AccountQuery, st: Store, nodes: seq<Account>, ghost e: Edges)
      returns (err: Option<QueryError>, ghost s: set<object>)
    requires q.Valid() && DistinctNodes(nodes) && Outside(nodes, q.repr) && e == q.AsEdges() && nodes != []
    requires Loading(EdgesNow(nodes), RowsOf(nodes), st, e, {}, 0)
    modifies nodes, q.repr
    ensures q.Valid() && q.repr == old(q.repr) && q.AsSel() == old(q.AsSel()) && fresh(s)
    ensures match AttachError(st, RowsOf(nodes), e)
            case Some(x) => err == Some(x)
            case None =>
              && err.None?
              && q.AsEdges() == After(st, RowsOf(nodes), e)
              && Loading(EdgesNow(nodes), RowsOf(nodes), st, e, s, 5)
    decreases q.repr, 5
  {
    err, s := AttachFirst(q, st, nodes, e);
    if err.None? {
      err, s := AttachRest(q, st, nodes, e, s);
    }
  }

  method FetchJunctionNodes(q: AccountGroupQuery, st: Store, ghost e: JunctionEdges) returns (nodes: seq<AccountGroup>)
    requires q.Valid() && e == q.AsEdges()
    ensures RowsOf(nodes) == FetchJunction(st, q.AsSel(), e) && DistinctNodes(nodes)
    ensures (forall i :: 0 <= i < |nodes| ==> fresh(nodes[i])) && Outside(nodes, q.repr)
    ensures forall i {:trigger nodes[i]} :: 0 <= i < |nodes| ==>
              nodes[i].edges == AccountGroupEdges(None, None, e.account.Some?, e.group.Some?)
  {
    var sel := q.AsSel();
    var cols := JunctionSpecColumns(sel.fields, q.withAccount != null, q.withGroup != null, sel, e);
    nodes := NewNodes(ReadAll(cols, Rows(st, st.accountGroups, sel)),
                      AccountGroupEdges(None, None, q.withAccount != null, q.withGroup != null));
  }

  method AttachJunctionNodes(q: AccountGroupQuery, st: Store, nodes: seq<AccountGroup>, ghost e: JunctionEdges)
      returns (err: Option<QueryError>, ghost s: set<object>)
    requires q.Valid() && DistinctNodes(nodes) && Outside(nodes, q.repr) && e == q.AsEdges()
    requires forall i {:trigger nodes[i]} :: 0 <= i < |nodes| ==>
               nodes[i].edges == AccountGroupEdges(None, None, e.account.Some?, e.group.Some?)
    modifies nodes, q.repr
    ensures q.Valid() && q.repr == old(q.repr) && q.AsSel() == old(q.AsSel()) && fresh(s - Objects(nodes))
    ensures match AttachJunctionError(st, RowsOf(nodes), e)
            case Some(x) => err == Some(x)
            case None =>
              && err.None?
              && q.AsEdges() == AfterJunction(st, RowsOf(nodes), e)
              && ShowsAllJunction(nodes, AttachJunction(st, RowsOf(nodes), e), s)
    decreases q.repr, 2
  {
    ghost var was := EdgesNow(nodes);
    err, s := RunOwner(q, st, nodes, e);
    if err.None? {
      ghost var mid := EdgesNow(nodes);
      OwnerStage(nodes, was, st, e, s);
      err := RunMember(q, st, nodes, e);
      if err.None? {
        MemberStage(nodes, mid, st, e, s);
      }
    }
    s := s + Objects(nodes);
  }

  // The edges of junction entities whose accounts are loaded.
  ghost predicate OwnersLoaded(w: seq<AccountGroupEdges>, rows: seq<Row>, st: Store, e: JunctionEdges, s: set<object>)
    reads s
  {
    |w| == |rows| && forall i {:trigger w[i]} :: 0 <= i < |w| ==>
      && w[i].loadedAccount == e.account.Some? && w[i].loadedGroup == e.group.Some? && w[i].group.None?
      && ShowsOption(w[i].account, OwnerEdge(st, rows, e, i), s)
  }

  lemma OwnerStage(nodes: seq<AccountGroup>, was: seq<AccountGroupEdges>, st: Store, e: JunctionEdges, s: set<object>)
    requires forall i {:trigger was[i]} :: 0 <= i < |was| ==>
               was[i] == AccountGroupEdges(None, None, e.account.Some?, e.group.Some?)
    requires HasOwner(nodes, was, st, e, s)
    ensures OwnersLoaded(EdgesNow(nodes), RowsOf(nodes), st, e, s)
  {
  }

  lemma MemberStage(nodes: seq<AccountGroup>, mid: seq<AccountGroupEdges>, st: Store, e: JunctionEdges, s: set<object>)
    requires OwnersLoaded(mid, RowsOf(nodes), st, e, s) && HasMember(nodes, mid, st, e)
    ensures ShowsAllJunction(nodes, AttachJunction(st, RowsOf(nodes), e), s + Objects(nodes))
  {
    JunctionShown(nodes, st, e, s);
  }

  // Without junction entities there are no keys to ask for.
  lemma NothingToAsk(st: Store, e: JunctionEdges)
    ensures AttachJunctionError(st, [], e).None? && AfterJunction(st, [], e) == e
    ensures AttachJunction(st, [], e) == []
  {
    assert JunctionKeys([], AccountID) == [] && JunctionKeys([], GroupID) == [];
  }

  ghost predicate JunctionLevelDone(
      r: Result<seq<AccountGroup>, QueryError>, s: set<object>, st: Store, rows: seq<Row>, e: JunctionEdges,
      after: JunctionEdges)
    reads s
  {
    match AttachJunctionError(st, rows, e)
    case Some(x) => r == Failure(x)
    case None =>
      && r.Success? && ShowsAllJunction(r.value, AttachJunction(st, rows, e), s) && DistinctNodes(r.value)
      && after == AfterJunction(st, rows, e)
  }

  lemma JunctionLevelIsAll(
      r: Result<seq<AccountGroup>, QueryError>, s: set<object>, st: Store, sel: Sel, e: JunctionEdges,
      after: JunctionEdges)
    requires BadField(sel.fields, ValidJunctionColumn).None?
             && JunctionLevelDone(r, s, st, FetchJunction(st, sel, e), e, after)
    ensures AllJunctionDone(r, s, st, sel, e, after)
  {
  }

  method LoadJunctionLevel(q: AccountGroupQuery, st: Store, nodes: seq<AccountGroup>, ghost e: JunctionEdges)
      returns (r: Result<seq<AccountGroup>, QueryError>, ghost s: set<object>)
    requires q.Valid() && DistinctNodes(nodes) && Outside(nodes, q.repr) && e == q.AsEdges()
    requires forall i {:trigger nodes[i]} :: 0 <= i < |nodes| ==>
               nodes[i].edges == AccountGroupEdges(None, None, e.account.Some?, e.group.Some?)
    modifies nodes, q.repr
    ensures q.Valid() && q.repr == old(q.repr) && q.AsSel() == old(q.AsSel()) && fresh(s - Objects(nodes))
    ensures JunctionLevelDone(r, s, st, RowsOf(nodes), e, q.AsEdges())
    decreases q.repr, 3
  {
    if nodes == [] {
      NothingToAsk(st, e);
      return Success([]), {};
    }
    var err;
    err, s := AttachJunctionNodes(q, st, nodes, e);
    r := if err.Some? then Failure(err.value) else Success(nodes);
  }

  /** AccountGroupQuery.sqlAll. */
  method SqlAllJunction(
      q: AccountGroupQuery, st: Store)
      returns (r: Result<seq<AccountGroup>, QueryError>, ghost s: set<object>)
    requires q.Valid()
    modifies q.repr
    ensures q.Valid() && q.repr == old(q.repr) && q.AsSel() == old(q.AsSel()) && fresh(s)
    ensures AllJunctionDone(r, s, st, old(q.AsSel()), old(q.AsEdges()), q.AsEdges())
    decreases q.repr, 4
  {
    ghost var e, sel := q.AsEdges(), q.AsSel();
    var bad := CheckFields(q.ctx.fields, ValidJunctionColumn);
    if bad.Some? {
      return Failure(InvalidField(bad.value)), {};
    }
    var nodes := FetchJunctionNodes(q, st, e);
    r, s := LoadJunctionLevel(q, st, nodes, e);
    JunctionLevelIsAll(r, s, st, sel, e, q.AsEdges());
  }
}

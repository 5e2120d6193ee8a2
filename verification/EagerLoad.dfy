/**
 The loaders of AccountQuery and AccountGroupQuery on the heap: each sends one query
 and attaches the answer to the nodes, and builds the graph that EagerSpec describes.
 */
module EagerLoad {
  import opened Wrappers
  import opened Schema
  import opened Relational
  import opened EagerSpec
  import opened EagerLaws
  import opened QueryGraph
  import opened EdgeAssign

  // ---------------------------------------------------------- what is assigned

  // The last neighbor with a key is the one a lookup finds.
  lemma {:induction false} LastReceived<M>(neighbors: seq<M>, ids: seq<int>, k: int)
    requires |neighbors| == |ids|
    ensures var got := Received(neighbors, ids, Some(k));
            if LastWith(ids, k) == -1 then got == [] else got != [] && got[|got| - 1] == neighbors[LastWith(ids, k)]
  {
    if ids == [] {
    } else {
      var n := |ids| - 1;
      LastReceived(neighbors[..n], ids[..n], k);
      assert neighbors == neighbors[..n] + [neighbors[n]] && ids == ids[..n] + [ids[n]];
      ReceivedSnoc(neighbors[..n], neighbors[n], ids[..n], ids[n], Some(k));
    }
  }

  // The assign callbacks, and what a run of them leaves on a node.

  function PutProxy(): (AccountEdges, Proxy) -> AccountEdges { (x: AccountEdges, n: Proxy) => x.(proxy := Some(n)) }
  function PutParent(): (AccountEdges, Account) -> AccountEdges {
    (x: AccountEdges, n: Account) => x.(parent := Some(n))
  }
  function PutOwner(): (AccountGroupEdges, Account) -> AccountGroupEdges {
    (x: AccountGroupEdges, n: Account) => x.(account := Some(n))
  }
  function PutMember(): (AccountGroupEdges, Group) -> AccountGroupEdges {
    (x: AccountGroupEdges, n: Group) => x.(group := Some(n))
  }
  function AddGroup(): (AccountEdges, Group) -> AccountEdges {
    (x: AccountEdges, n: Group) => x.(groups := x.groups + [n])
  }
  function AddChild(): (AccountEdges, Account) -> AccountEdges {
    (x: AccountEdges, n: Account) => x.(children := x.children + [n])
  }
  function AddAccountGroup(): (AccountEdges, AccountGroup) -> AccountEdges {
    (x: AccountEdges, n: AccountGroup) => x.(accountGroups := x.accountGroups + [n])
  }

  function Last<X>(xs: seq<X>): Option<X> {
    if xs == [] then None else Some(xs[|xs| - 1])
  }

  lemma {:induction false} FoldProxy(e: AccountEdges, ms: seq<Proxy>)
    ensures Fold(PutProxy(), e, ms) == if ms == [] then e else e.(proxy := Last(ms))
  {
    if ms != [] { FoldProxy(e, ms[..|ms| - 1]); }
  }

  lemma {:induction false} FoldParent(e: AccountEdges, ms: seq<Account>)
    ensures Fold(PutParent(), e, ms) == if ms == [] then e else e.(parent := Last(ms))
  {
    if ms != [] { FoldParent(e, ms[..|ms| - 1]); }
  }

  lemma {:induction false} FoldOwner(e: AccountGroupEdges, ms: seq<Account>)
    ensures Fold(PutOwner(), e, ms) == if ms == [] then e else e.(account := Last(ms))
  {
    if ms != [] { FoldOwner(e, ms[..|ms| - 1]); }
  }

  lemma {:induction false} FoldMember(e: AccountGroupEdges, ms: seq<Group>)
    ensures Fold(PutMember(), e, ms) == if ms == [] then e else e.(group := Last(ms))
  {
    if ms != [] { FoldMember(e, ms[..|ms| - 1]); }
  }

  lemma {:induction false} FoldGroups(e: AccountEdges, ms: seq<Group>)
    ensures Fold(AddGroup(), e, ms) == e.(groups := e.groups + ms)
  {
    if ms != [] { FoldGroups(e, ms[..|ms| - 1]); }
  }

  lemma {:induction false} FoldChildren(e: AccountEdges, ms: seq<Account>)
    ensures Fold(AddChild(), e, ms) == e.(children := e.children + ms)
  {
    if ms != [] { FoldChildren(e, ms[..|ms| - 1]); }
  }

  lemma {:induction false} FoldAccountGroups(e: AccountEdges, ms: seq<AccountGroup>)
    ensures Fold(AddAccountGroup(), e, ms) == e.(accountGroups := e.accountGroups + ms)
  {
    if ms != [] { FoldAccountGroups(e, ms[..|ms| - 1]); }
  }

  // The last neighbor received is the one a lookup of the key finds.
  lemma ReceivedLookup<M>(neighbors: seq<M>, ids: seq<int>, key: Option<int>)
    requires |neighbors| == |ids|
    ensures Last(Received(neighbors, ids, key)) == Lookup(neighbors, ids, key)
  {
    if key.Some? { LastReceived(neighbors, ids, key.value); }
  }

  // ------------------------------------------------------------ answers on the heap

  /** One entity per row, in order, with the edges it starts from. */
  method NewNodes<E>(rows: seq<Row>, edges: E) returns (nodes: seq<Node<E>>)
    ensures RowsOf(nodes) == rows && DistinctNodes(nodes)
    ensures forall i :: 0 <= i < |nodes| ==> fresh(nodes[i]) && nodes[i].edges == edges
  {
    nodes := [];
    for i := 0 to |rows|
      invariant RowsOf(nodes) == rows[..i] && DistinctNodes(nodes)
      invariant forall j :: 0 <= j < |nodes| ==> fresh(nodes[j]) && nodes[j].edges == edges
    {
      var node := new Node(rows[i], edges);
      assert RowsOf(nodes + [node]) == RowsOf(nodes) + [rows[i]];
      nodes := nodes + [node];
    }
  }

  lemma AnswersWereAsked(st: Store, table: seq<Row>, sel: Sel, c: Column, ids: seq<int>, r: Row)
    requires r in Rows(st, table, sel.And(In(c, ids)))
    ensures Key(r, c).Some? && Key(r, c).value in ids
  {
    RowsAreMatching(st, table, sel.And(In(c, ids)));
    assert sel.And(In(c, ids)).preds[|sel.preds|] == In(c, ids);
  }

  lemma AnswerIdsWereAsked(st: Store, table: seq<Row>, sel: Sel, cols: Option<seq<Column>>, ids: seq<int>)
    requires Reads(cols, ID)
    ensures AllIn(Ids(ReadAll(cols, Rows(st, table, sel.And(In(ID, ids))))), ids)
  {
    var rows := Rows(st, table, sel.And(In(ID, ids)));
    ReadIds(cols, rows);
    forall i | 0 <= i < |rows| ensures Ids(rows)[i] in ids {
      AnswersWereAsked(st, table, sel, ID, ids, rows[i]);
    }
  }

  // prepareQuery
  method CheckFields(fields: seq<Column>, valid: Column -> bool) returns (bad: Option<Column>)
    ensures bad == BadField(fields, valid)
  {
    for i := 0 to |fields|
      invariant BadField(fields, valid) == BadField(fields[i..], valid)
    {
      if !valid(fields[i]) {
        return Some(fields[i]);
      }
      assert fields[i..][1..] == fields[i + 1..];
    }
    bad := None;
  }

  // ------------------------------------------------------ to-one, to a leaf entity

  // The selection a to-one loader leaves on the edge query.
  function Asked(sel: Sel, keys: seq<Option<int>>): Sel {
    if Refs(keys) == [] then sel else sel.And(In(ID, Refs(keys)))
  }

  function LeafAnswer(st: Store, table: seq<Row>, sel: Sel, keys: seq<Option<int>>): seq<Row> {
    if Refs(keys) == [] then [] else FetchLeaf(st, table, Asked(sel, keys))
  }

  // What the to-one template leaves: every node was assigned what it receives.
  ghost predicate Received1<E, M>(
      nodes: seq<Node<E>>, was: seq<E>, neighbors: seq<M>, ids: seq<int>, keys: seq<Option<int>>, assign: (E, M) -> E)
    reads nodes
  {
    && |nodes| == |was| == |keys| && |neighbors| == |ids|
    && forall i {:trigger nodes[i]} :: 0 <= i < |nodes| ==>
         nodes[i].edges == Fold(assign, was[i], Received(neighbors, ids, keys[i]))
  }

  lemma AllReceived<E, M>(
      nodes: seq<Node<E>>, was: seq<E>, neighbors: seq<M>, ids: seq<int>, keys: seq<Option<int>>, assign: (E, M) -> E)
    requires AssignedToOne(nodes, was, keys, neighbors, ids, |neighbors|, assign)
    ensures Received1(nodes, was, neighbors, ids, keys, assign)
  {
    assert neighbors[..|neighbors|] == neighbors && ids[..|ids|] == ids;
  }

  lemma NothingReceived<E, M>(nodes: seq<Node<E>>, keys: seq<Option<int>>, assign: (E, M) -> E)
    requires |nodes| == |keys|
    ensures Received1<E, M>(nodes, EdgesNow(nodes), [], [], keys, assign)
  {
  }

  // Makes the entities of the answer and gives each to the nodes of its key.
  method HangLeaves<E>(
      nodes: seq<Node<E>>, ghost keys: seq<Option<int>>, ghost ids: seq<int>, nodeids: map<int, seq<Node<E>>>,
      rows: seq<Row>, assign: (E, Node<NoEdges>) -> E)
      returns (ok: bool, ghost neighbors: seq<Node<NoEdges>>)
    requires DistinctNodes(nodes) && KeyIndex(nodes, keys, ids, nodeids) && AllIn(Ids(rows), ids)
    modifies nodes
    ensures ok && RowsOf(neighbors) == rows
    ensures Received1(nodes, old(EdgesNow(nodes)), neighbors, Ids(rows), keys, assign)
  {
    var found := NewNodes(rows, NoEdges);
    ok := AssignToOne(nodes, keys, ids, nodeids, found, Ids(rows), assign);
    AllReceived(nodes, old(EdgesNow(nodes)), found, Ids(rows), keys, assign);
    neighbors := found;
  }

  /** The to-one loader over a leaf query: loadProxy, and loadGroup of the junction. */
  method LoadLeaf<E>(
      st: Store, table: seq<Row>, valid: Column -> bool, query: LeafQuery, nodes: seq<Node<E>>, keys: seq<Option<int>>,
      assign: (E, Node<NoEdges>) -> E)
      returns (err: Option<QueryError>, ghost neighbors: seq<Node<NoEdges>>)
    requires query.Valid() && DistinctNodes(nodes) && |nodes| == |keys|
    modifies nodes, query`predicates
    ensures query.Valid() && query.AsSel() == Asked(old(query.AsSel()), keys)
    ensures match LeafError(old(query.AsSel()), keys, valid)
            case Some(x) => err == Some(x)
            case None =>
              && err.None?
              && RowsOf(neighbors) == LeafAnswer(st, table, old(query.AsSel()), keys)
              && Received1(nodes, old(EdgesNow(nodes)), neighbors, Ids(RowsOf(neighbors)), keys, assign)
  {
    ghost var sel := query.AsSel();
    var ids, nodeids := IndexByKey(nodes, keys);
    if ids == [] {
      NothingReceived(nodes, keys, assign);
      return None, [];
    }
    query.Where(In(ID, ids));
    var bad := CheckFields(query.ctx.fields, valid);
    if bad.Some? {
      return Some(InvalidField(bad.value)), [];
    }
    var rows := FetchLeaf(st, table, query.AsSel());
    AnswerIdsWereAsked(st, table, sel, LeafColumns(sel), ids);
    var ok;
    ok, neighbors := HangLeaves(nodes, keys, ids, nodeids, rows, assign);
    err := if ok then None else Some(UnexpectedNode);
  }

  lemma LookupRows<E>(neighbors: seq<Node<E>>, key: Option<int>)
    ensures var found := Lookup(neighbors, Ids(RowsOf(neighbors)), key);
            var rows := Lookup(RowsOf(neighbors), Ids(RowsOf(neighbors)), key);
            found.Some? == rows.Some? && (found.Some? ==> found.value.fields == rows.value)
  {
  }

  ghost predicate HasProxy(nodes: seq<Account>, was: seq<AccountEdges>, st: Store, e: Edges)
    reads nodes
  {
    |nodes| == |was| && forall i {:trigger nodes[i]} :: 0 <= i < |nodes| ==>
      nodes[i].edges == was[i].(proxy := nodes[i].edges.proxy)
      && ShowsLeaf(nodes[i].edges.proxy, ProxyEdge(st, RowsOf(nodes), e, i))
  }

  // Nodes with the same foreign key share one proxy object.
  ghost predicate SharedProxies(nodes: seq<Account>)
    reads nodes
  {
    var keys := KeyList(RowsOf(nodes), ProxyID);
    forall i, j :: 0 <= i < j < |nodes| && keys[i] == keys[j] ==> nodes[i].edges.proxy == nodes[j].edges.proxy
  }

  method LoadProxy(st: Store, query: LeafQuery, nodes: seq<Account>, ghost e: Edges) returns (err: Option<QueryError>)
    requires query.Valid() && DistinctNodes(nodes) && e.proxy == Some(query.AsSel())
    requires forall i :: 0 <= i < |nodes| ==> nodes[i].edges.proxy.None?
    modifies nodes, query`predicates
    ensures query.Valid() && Some(query.AsSel()) == ProxyAfter(RowsOf(nodes), e)
    ensures match ProxyError(RowsOf(nodes), e)
            case Some(x) => err == Some(x)
            case None =>
              && err.None?
              && HasProxy(nodes, old(EdgesNow(nodes)), st, e)
              && SharedProxies(nodes)
  {
    ghost var was := EdgesNow(nodes);
    ghost var neighbors;
    var keys := KeyList(RowsOf(nodes), ProxyID);
    err, neighbors := LoadLeaf(st, st.proxies, ValidProxyColumn, query, nodes, keys, PutProxy());
    if err.None? {
      forall i | 0 <= i < |nodes|
        ensures nodes[i].edges == was[i].(proxy := Lookup(neighbors, Ids(RowsOf(neighbors)), keys[i]))
        ensures ShowsLeaf(nodes[i].edges.proxy, ProxyEdge(st, RowsOf(nodes), e, i))
      {
        FoldProxy(was[i], Received(neighbors, Ids(RowsOf(neighbors)), keys[i]));
        ReceivedLookup(neighbors, Ids(RowsOf(neighbors)), keys[i]);
        LookupRows(neighbors, keys[i]);
      }
    }
  }

  ghost predicate HasMember(nodes: seq<AccountGroup>, was: seq<AccountGroupEdges>, st: Store, e: JunctionEdges)
    reads nodes
  {
    |nodes| == |was| && forall i {:trigger nodes[i]} :: 0 <= i < |nodes| ==>
      nodes[i].edges == was[i].(group := nodes[i].edges.group)
      && ShowsLeaf(nodes[i].edges.group, MemberEdge(st, RowsOf(nodes), e, i))
  }

  // Nodes with the same foreign key share one group object.
  ghost predicate SharedMembers(nodes: seq<AccountGroup>)
    reads nodes
  {
    var keys := JunctionKeys(RowsOf(nodes), GroupID);
    forall i, j :: 0 <= i < j < |nodes| && keys[i] == keys[j] ==> nodes[i].edges.group == nodes[j].edges.group
  }

  method LoadMember(
      st: Store, query: LeafQuery, nodes: seq<AccountGroup>, ghost e: JunctionEdges)
      returns (err: Option<QueryError>)
    requires query.Valid() && DistinctNodes(nodes) && e.group == Some(query.AsSel())
    requires forall i :: 0 <= i < |nodes| ==> nodes[i].edges.group.None?
    modifies nodes, query`predicates
    ensures query.Valid() && Some(query.AsSel()) == MemberAfter(RowsOf(nodes), e)
    ensures match MemberError(RowsOf(nodes), e)
            case Some(x) => err == Some(x)
            case None =>
              && err.None?
              && HasMember(nodes, old(EdgesNow(nodes)), st, e)
              && SharedMembers(nodes)
  {
    ghost var was := EdgesNow(nodes);
    ghost var neighbors;
    var keys := JunctionKeys(RowsOf(nodes), GroupID);
    err, neighbors := LoadLeaf(st, st.groups, ValidGroupColumn, query, nodes, keys, PutMember());
    if err.None? {
      forall i | 0 <= i < |nodes|
        ensures nodes[i].edges == was[i].(group := Lookup(neighbors, Ids(RowsOf(neighbors)), keys[i]))
        ensures ShowsLeaf(nodes[i].edges.group, MemberEdge(st, RowsOf(nodes), e, i))
      {
        FoldMember(was[i], Received(neighbors, Ids(RowsOf(neighbors)), keys[i]));
        ReceivedLookup(neighbors, Ids(RowsOf(neighbors)), keys[i]);
        LookupRows(neighbors, keys[i]);
      }
    }
  }

  // ---------------------------------------------------------------- many to many

  // The nodes linked to one group, as the per-group set collects them.
  ghost function LinkedNodes(links: seq<Link>, byID: map<int, Account>, gid: int): set<Account> {
    set l | 0 <= l < |links| && KeyOrZero(links[l].group, ID) == gid && links[l].account in byID ::
      byID[links[l].account]
  }

  ghost predicate LinkIndex(links: seq<Link>, byID: map<int, Account>, nids: map<int, set<Account>>) {
    && (forall g :: g in nids <==> g in Ids(Firsts(links)))
    && (forall g {:trigger nids[g]} :: g in nids ==> nids[g] == LinkedNodes(links, byID, g))
  }

  lemma LinkedNodesSnoc(links: seq<Link>, l: Link, byID: map<int, Account>, gid: int)
    requires l.account in byID
    ensures LinkedNodes(links + [l], byID, gid)
         == LinkedNodes(links, byID, gid) + (if KeyOrZero(l.group, ID) == gid then {byID[l.account]} else {})
  {
    var more := links + [l];
    forall n | n in LinkedNodes(links, byID, gid) ensures n in LinkedNodes(more, byID, gid) {
      var k :| 0 <= k < |links| && KeyOrZero(links[k].group, ID) == gid && links[k].account in byID
          && byID[links[k].account] == n;
      assert more[k] == links[k];
    }
    if KeyOrZero(l.group, ID) == gid { assert more[|links|] == l; }
  }

  lemma NoLinkedNodes(links: seq<Link>, byID: map<int, Account>, gid: int)
    requires gid !in Ids(Firsts(links))
    ensures LinkedNodes(links, byID, gid) == {}
  {
  }

  lemma LinkIndexStep(links: seq<Link>, l: Link, byID: map<int, Account>, nids: map<int, set<Account>>)
    requires LinkIndex(links, byID, nids) && l.account in byID
    ensures var gid := KeyOrZero(l.group, ID);
            LinkIndex(links + [l], byID, nids[gid := (if gid in nids then nids[gid] else {}) + {byID[l.account]}])
  {
    var gid := KeyOrZero(l.group, ID);
    FirstsSnoc(links, l);
    IdsSnoc(Firsts(links), l.group);
    var now := nids[gid := (if gid in nids then nids[gid] else {}) + {byID[l.account]}];
    forall g | g in now ensures now[g] == LinkedNodes(links + [l], byID, g) {
      LinkedNodesSnoc(links, l, byID, g);
      if g !in nids { NoLinkedNodes(links, byID, g); }
    }
  }

  // What has been collected from the joined rows seen so far.
  ghost predicate Scanned(
      seen: seq<Link>, byID: map<int, Account>, cols: Option<seq<Column>>, neighbors: seq<Group>,
      nids: map<int, set<Account>>) {
    LinkIndex(seen, byID, nids) && RowsOf(neighbors) == ReadAll(cols, Firsts(seen))
  }

  /** The wrapped Assign of loadGroups, for one joined row: a group seen before only
      gains an account, a new one becomes an object. */
  method ScanLink(ghost seen: seq<Link>, l: Link, byID: map<int, Account>, cols: Option<seq<Column>>,
                  neighbors: seq<Group>, nids: map<int, set<Account>>)
      returns (neighbors': seq<Group>, nids': map<int, set<Account>>)
    requires Scanned(seen, byID, cols, neighbors, nids) && l.account in byID
    ensures Scanned(seen + [l], byID, cols, neighbors', nids')
  {
    var outValue, inValue := l.account, KeyOrZero(l.group, ID);
    LinkIndexStep(seen, l, byID, nids);
    FirstsSnoc(seen, l);
    neighbors' := neighbors;
    if inValue !in nids {
      var node := new Node(ReadRow(cols, l.group), NoEdges);
      NewGroupRows(neighbors, node, cols, seen, l);
      neighbors' := neighbors + [node];
    }
    nids' := nids[inValue := (if inValue in nids then nids[inValue] else {}) + {byID[outValue]}];
  }

  /** One Group object per group ID, at its first joined row, and the set of linked
      accounts for each. */
  method ScanLinks(links: seq<Link>, byID: map<int, Account>, cols: Option<seq<Column>>)
      returns (neighbors: seq<Group>, nids: map<int, set<Account>>)
    requires forall l :: 0 <= l < |links| ==> links[l].account in byID
    ensures Scanned(links, byID, cols, neighbors, nids)
  {
    neighbors, nids := [], map[];
    for i := 0 to |links|
      invariant Scanned(links[..i], byID, cols, neighbors, nids)
    {
      neighbors, nids := ScanLink(links[..i], links[i], byID, cols, neighbors, nids);
      PrefixStep(links, i);
    }
    assert links[..|links|] == links;
  }

  lemma NewGroupRows(neighbors: seq<Group>, node: Group, cols: Option<seq<Column>>, seen: seq<Link>, l: Link)
    requires RowsOf(neighbors) == ReadAll(cols, Firsts(seen)) && node.fields == ReadRow(cols, l.group)
    requires KeyOrZero(l.group, ID) !in Ids(Firsts(seen))
    ensures RowsOf(neighbors + [node]) == ReadAll(cols, Firsts(seen + [l]))
  {
    FirstsSnoc(seen, l);
    RowsSnoc(neighbors, node);
    ReadAllSnoc(cols, Firsts(seen), l.group);
  }

  lemma RowsSnoc<E>(ns: seq<Node<E>>, n: Node<E>)
    ensures RowsOf(ns + [n]) == RowsOf(ns) + [n.fields]
  {
  }

  lemma ReadAllSnoc(cols: Option<seq<Column>>, rows: seq<Row>, r: Row)
    ensures ReadAll(cols, rows + [r]) == ReadAll(cols, rows) + [ReadRow(cols, r)]
  {
  }

  // Assigns one neighbor to every node of a set, in whatever order the set is walked.
  method AssignSet<E, M>(bucket: set<Node<E>>, m: M, assign: (E, M) -> E)
    modifies bucket
    ensures forall n :: n in bucket ==> n.edges == assign(old(n.edges), m)
  {
    var rest := bucket;
    while rest != {}
      invariant rest <= bucket
      invariant forall n :: n in rest ==> n.edges == old(n.edges)
      invariant forall n :: n in bucket - rest ==> n.edges == assign(old(n.edges), m)
      decreases rest
    {
      var kn :| kn in rest;
      kn.edges := assign(kn.edges, m);
      rest := rest - {kn};
    }
  }

  ghost function SetMarks<E>(ids: seq<int>, nids: map<int, set<Node<E>>>, n: Node<E>): (res: seq<bool>)
    ensures |res| == |ids|
  {
    seq(|ids|, j requires 0 <= j < |ids| => ids[j] in nids && n in nids[ids[j]])
  }

  ghost function Chosen<E, M>(neighbors: seq<M>, ids: seq<int>, nids: map<int, set<Node<E>>>, n: Node<E>): seq<M>
    requires |neighbors| == |ids|
  {
    Gather(neighbors, Trues(SetMarks(ids, nids, n)))
  }

  lemma FoldChosen<E, M>(
      assign: (E, M) -> E, e: E, neighbors: seq<M>, m: M, ids: seq<int>, id: int, nids: map<int, set<Node<E>>>,
      n: Node<E>)
    requires |neighbors| == |ids| && id in nids
    ensures Fold(assign, e, Chosen(neighbors + [m], ids + [id], nids, n))
         == var f := Fold(assign, e, Chosen(neighbors, ids, nids, n)); if n in nids[id] then assign(f, m) else f
  {
    assert SetMarks(ids + [id], nids, n) == SetMarks(ids, nids, n) + [n in nids[id]];
    GatherSnoc(neighbors, m, SetMarks(ids, nids, n), n in nids[id]);
    if n in nids[id] {
      FoldSnoc(assign, e, Chosen(neighbors, ids, nids, n), m);
    } else {
      assert Chosen(neighbors, ids, nids, n) + [] == Chosen(neighbors, ids, nids, n);
    }
  }

  ghost predicate AssignedSets<E, M>(
      nodes: seq<Node<E>>, was: seq<E>, neighbors: seq<M>, ids: seq<int>, nids: map<int, set<Node<E>>>, j: nat,
      assign: (E, M) -> E)
    reads nodes
  {
    && |nodes| == |was| && j <= |neighbors| == |ids|
    && forall i {:trigger nodes[i]} :: 0 <= i < |nodes| ==>
         nodes[i].edges == Fold(assign, was[i], Chosen(neighbors[..j], ids[..j], nids, nodes[i]))
  }

  method AssignOneSet<E, M>(
      nodes: seq<Node<E>>, ghost was: seq<E>, neighbors: seq<M>, ids: seq<int>, nids: map<int, set<Node<E>>>, j: nat,
      assign: (E, M) -> E)
    requires j < |neighbors| == |ids| && ids[j] in nids
    requires forall n :: n in nids[ids[j]] ==> n in nodes
    requires AssignedSets(nodes, was, neighbors, ids, nids, j, assign)
    modifies nodes
    ensures AssignedSets(nodes, was, neighbors, ids, nids, j + 1, assign)
  {
    AssignSet(nids[ids[j]], neighbors[j], assign);
    forall i | 0 <= i < |nodes|
      ensures nodes[i].edges == Fold(assign, was[i], Chosen(neighbors[..j + 1], ids[..j + 1], nids, nodes[i]))
    {
      PrefixStep(neighbors, j);
      PrefixStep(ids, j);
      FoldChosen(assign, was[i], neighbors[..j], neighbors[j], ids[..j], ids[j], nids, nodes[i]);
    }
  }

  lemma AllMarked<X>(nodes: seq<X>, nids: map<int, set<X>>, id: int)
    requires forall g, n :: g in nids && n in nids[g] ==> n in nodes
    ensures id in nids ==> forall n :: n in nids[id] ==> n in nodes
  {
  }

  lemma NoSetsYet<E, M>(
      nodes: seq<Node<E>>, neighbors: seq<M>, ids: seq<int>, nids: map<int, set<Node<E>>>, assign: (E, M) -> E)
    requires |neighbors| == |ids|
    ensures AssignedSets(nodes, EdgesNow(nodes), neighbors, ids, nids, 0, assign)
  {
    forall i | 0 <= i < |nodes| ensures Chosen(neighbors[..0], ids[..0], nids, nodes[i]) == [] {
      assert SetMarks(ids[..0], nids, nodes[i]) == [];
    }
  }

  method AssignSets<E, M>(
      nodes: seq<Node<E>>, neighbors: seq<M>, ids: seq<int>, nids: map<int, set<Node<E>>>, assign: (E, M) -> E)
      returns (ok: bool)
    requires |neighbors| == |ids|
    requires forall g, n :: g in nids && n in nids[g] ==> n in nodes
    modifies nodes
    ensures ok <==> forall j :: 0 <= j < |ids| ==> ids[j] in nids
    ensures ok ==> AssignedSets(nodes, old(EdgesNow(nodes)), neighbors, ids, nids, |neighbors|, assign)
  {
    ghost var was := EdgesNow(nodes);
    NoSetsYet(nodes, neighbors, ids, nids, assign);
    for j := 0 to |neighbors|
      invariant forall l :: 0 <= l < j ==> ids[l] in nids
      invariant AssignedSets(nodes, was, neighbors, ids, nids, j, assign)
    {
      if ids[j] !in nids {
        return false;
      }
      AllMarked(nodes, nids, ids[j]);
      AssignOneSet(nodes, was, neighbors, ids, nids, j, assign);
    }
    ok := true;
  }

  lemma {:induction false} LinksWereAsked(groups: seq<Row>, junction: seq<Row>, accs: seq<int>)
    ensures forall l :: 0 <= l < |JoinRows(groups, junction, accs)| ==>
              JoinRows(groups, junction, accs)[l].account in accs
  {
    if groups != [] {
      var n := |groups| - 1;
      LinksWereAsked(groups[..n], junction, accs);
      var ms := Members(junction, KeyOrZero(groups[n], ID), accs);
      forall k | 0 <= k < |ms| ensures ms[k] in accs { MembersExact(junction, KeyOrZero(groups[n], ID), accs, ms[k]); }
    }
  }

  lemma WindowedLinksWereAsked(st: Store, sel: Sel, accs: seq<int>)
    ensures forall l :: 0 <= l < |ReadLinks(st, sel, accs)| ==> ReadLinks(st, sel, accs)[l].account in accs
  {
    LinksWereAsked(Sort(sel.order, Where(sel.preds, Base(st, st.groups, sel))), st.accountGroups, accs);
  }

  // A node is linked to a group iff it is the last of its ID and a joined row says so.
  lemma LinkedNode(links: seq<Link>, nodes: seq<Account>, ids: seq<int>, byID: map<int, Account>, gid: int, i: nat)
    requires DistinctNodes(nodes) && IDIndex(nodes, ids, byID) && i < |nodes|
    requires forall l :: 0 <= l < |links| ==> links[l].account in byID
    ensures nodes[i] in LinkedNodes(links, byID, gid) <==> IsLast(ids, i) && Linked(links, ids[i], gid)
  {
    if IsLast(ids, i) && Linked(links, ids[i], gid) {
      var l :| 0 <= l < |links| && links[l].account == ids[i] && KeyOrZero(links[l].group, ID) == gid;
      assert byID[links[l].account] == nodes[i];
    }
    if nodes[i] in LinkedNodes(links, byID, gid) {
      var l :| 0 <= l < |links| && KeyOrZero(links[l].group, ID) == gid && byID[links[l].account] == nodes[i];
      assert byID[links[l].account] == nodes[LastWith(ids, links[l].account)];
      SameNode(nodes, i, LastWith(ids, links[l].account));
    }
  }

  lemma LinkedMarks(links: seq<Link>, nodes: seq<Account>, ids: seq<int>, byID: map<int, Account>,
                    nids: map<int, set<Account>>, gids: seq<int>, i: nat)
    requires DistinctNodes(nodes) && IDIndex(nodes, ids, byID) && i < |nodes|
    requires forall l :: 0 <= l < |links| ==> links[l].account in byID
    requires LinkIndex(links, byID, nids) && gids == Ids(Firsts(links))
    ensures IsLast(ids, i) ==> SetMarks(gids, nids, nodes[i]) == LinkMarks(links, ids[i], gids)
    ensures !IsLast(ids, i) ==> Trues(SetMarks(gids, nids, nodes[i])) == []
  {
    forall j | 0 <= j < |gids|
      ensures SetMarks(gids, nids, nodes[i])[j] == (IsLast(ids, i) && Linked(links, ids[i], gids[j]))
    {
      assert gids[j] in nids && nids[gids[j]] == LinkedNodes(links, byID, gids[j]);
      LinkedNode(links, nodes, ids, byID, gids[j], i);
    }
    if !IsLast(ids, i) { NoTrues(SetMarks(gids, nids, nodes[i])); }
  }

  lemma LinkedAreNodes(
      links: seq<Link>, nodes: seq<Account>, ids: seq<int>, byID: map<int, Account>, nids: map<int, set<Account>>)
    requires IDIndex(nodes, ids, byID) && LinkIndex(links, byID, nids)
    ensures forall g, n :: g in nids && n in nids[g] ==> n in nodes
  {
    forall g, n | g in nids && n in nids[g] ensures n in nodes {
      assert n in LinkedNodes(links, byID, g);
      var l :| 0 <= l < |links| && links[l].account in byID && byID[links[l].account] == n;
      assert byID[links[l].account] == nodes[LastWith(ids, links[l].account)];
    }
  }

  // What the set assignment leaves on node i, over rows.
  lemma GroupsAssigned(
      st: Store, sel: Sel, e: Edges, nodes: seq<Account>, ids: seq<int>, byID: map<int, Account>,
      neighbors: seq<Group>, nids: map<int, set<Account>>, i: nat)
    requires DistinctNodes(nodes) && IDIndex(nodes, ids, byID) && e.groups == Some(sel) && i < |nodes|
    requires LinkIndex(ReadLinks(st, sel, ids), byID, nids)
    requires RowsOf(neighbors) == ReadAll(LeafColumns(sel), Firsts(ReadLinks(st, sel, ids)))
    ensures RowsOf(Chosen(neighbors, Ids(RowsOf(neighbors)), nids, nodes[i])) == GroupsEdge(st, RowsOf(nodes), e, i)
  {
    var links := ReadLinks(st, sel, ids);
    WindowedLinksWereAsked(st, sel, ids);
    ReadIds(LeafColumns(sel), Firsts(links));
    LinkedMarks(links, nodes, ids, byID, nids, Ids(Firsts(links)), i);
    assert RowsOf(neighbors) == GroupNeighbors(st, RowsOf(nodes), e);
  }

  ghost predicate HasGroups(nodes: seq<Account>, was: seq<AccountEdges>, st: Store, e: Edges)
    reads nodes
  {
    |nodes| == |was| && forall i {:trigger nodes[i]} :: 0 <= i < |nodes| ==>
      nodes[i].edges == was[i].(groups := nodes[i].edges.groups)
      && RowsOf(nodes[i].edges.groups) == GroupsEdge(st, RowsOf(nodes), e, i)
  }

  // Each group is one object, shared by the accounts that are in it.
  ghost predicate SharedGroups(nodes: seq<Account>, neighbors: seq<Group>)
    reads nodes
  {
    && (forall j, k :: 0 <= j < k < |neighbors| ==>
        KeyOrZero(neighbors[j].fields, ID) != KeyOrZero(neighbors[k].fields, ID))
    && (forall i {:trigger nodes[i]} :: 0 <= i < |nodes| ==> forall g :: g in nodes[i].edges.groups ==> g in neighbors)
  }

  lemma FirstsAreShared(links: seq<Link>, cols: Option<seq<Column>>, neighbors: seq<Group>)
    requires RowsOf(neighbors) == ReadAll(cols, Firsts(links)) && Reads(cols, ID)
    ensures forall j, k :: 0 <= j < k < |neighbors| ==>
              KeyOrZero(neighbors[j].fields, ID) != KeyOrZero(neighbors[k].fields, ID)
    ensures Ids(RowsOf(neighbors)) == Ids(Firsts(links))
  {
    ReadIds(cols, Firsts(links));
    forall j | 0 <= j < |neighbors| ensures KeyOrZero(neighbors[j].fields, ID) == KeyOrZero(Firsts(links)[j], ID) {
      assert RowsOf(neighbors)[j] == neighbors[j].fields;
    }
  }

  lemma AppendedGroups(
      nodes: seq<Account>, was: seq<AccountEdges>, found: seq<Group>, gids: seq<int>, nids: map<int, set<Account>>)
    requires AssignedSets(nodes, was, found, gids, nids, |found|, AddGroup())
    requires forall i :: 0 <= i < |was| ==> was[i].groups == []
    ensures forall i {:trigger nodes[i]} :: 0 <= i < |nodes| ==>
              nodes[i].edges == was[i].(groups := Chosen(found, gids, nids, nodes[i]))
  {
    forall i {:trigger nodes[i]} | 0 <= i < |nodes|
      ensures nodes[i].edges == was[i].(groups := Chosen(found, gids, nids, nodes[i]))
    {
      assert found[..|found|] == found && gids[..|gids|] == gids;
      FoldGroups(was[i], Chosen(found, gids, nids, nodes[i]));
    }
  }

  // The groups appended to one node, from the account sets.
  method AppendGroups(
      st: Store, ghost sel: Sel, ghost e: Edges, nodes: seq<Account>, ghost ids: seq<int>,
      ghost byID: map<int, Account>,
      found: seq<Group>, nids: map<int, set<Account>>)
      returns (ok: bool)
    requires DistinctNodes(nodes) && IDIndex(nodes, ids, byID) && e.groups == Some(sel)
    requires Scanned(ReadLinks(st, sel, ids), byID, LeafColumns(sel), found, nids)
    requires forall i {:trigger nodes[i]} :: 0 <= i < |nodes| ==> nodes[i].edges.groups == []
    modifies nodes
    ensures ok && HasGroups(nodes, old(EdgesNow(nodes)), st, e) && SharedGroups(nodes, found)
  {
    ghost var was := EdgesNow(nodes);
    ghost var links := ReadLinks(st, sel, ids);
    var gids := Ids(RowsOf(found));
    FirstsAreShared(links, LeafColumns(sel), found);
    LinkedAreNodes(links, nodes, ids, byID, nids);
    ok := AssignSets(nodes, found, gids, nids, AddGroup());
    assert ok by { AllLinked(gids, links, byID, nids); }
    AppendedGroups(nodes, was, found, gids, nids);
    GroupsLoaded(st, sel, e, nodes, was, ids, byID, found, nids);
  }

  lemma GroupsLoaded(
      st: Store, sel: Sel, e: Edges, nodes: seq<Account>, was: seq<AccountEdges>, ids: seq<int>,
      byID: map<int, Account>, found: seq<Group>, nids: map<int, set<Account>>)
    requires DistinctNodes(nodes) && IDIndex(nodes, ids, byID) && e.groups == Some(sel) && |was| == |nodes|
    requires Scanned(ReadLinks(st, sel, ids), byID, LeafColumns(sel), found, nids)
    requires forall i {:trigger nodes[i]} :: 0 <= i < |nodes| ==>
               nodes[i].edges == was[i].(groups := Chosen(found, Ids(RowsOf(found)), nids, nodes[i]))
    ensures HasGroups(nodes, was, st, e) && SharedGroups(nodes, found)
  {
    FirstsAreShared(ReadLinks(st, sel, ids), LeafColumns(sel), found);
    forall i {:trigger nodes[i]} | 0 <= i < |nodes|
      ensures RowsOf(nodes[i].edges.groups) == GroupsEdge(st, RowsOf(nodes), e, i)
    {
      GroupsAssigned(st, sel, e, nodes, ids, byID, found, nids, i);
    }
  }

  // The answer to the join, scanned and handed out to nodes that have no groups yet.
  method JoinGroups(
      st: Store, sel: Sel, ghost e: Edges, nodes: seq<Account>, ids: seq<int>, byID: map<int, Account>)
      returns (ok: bool, ghost neighbors: seq<Group>)
    requires DistinctNodes(nodes) && IDIndex(nodes, ids, byID) && e.groups == Some(sel)
    requires forall i {:trigger nodes[i]} :: 0 <= i < |nodes| ==> nodes[i].edges.groups == []
    modifies nodes
    ensures ok && HasGroups(nodes, old(EdgesNow(nodes)), st, e) && SharedGroups(nodes, neighbors)
  {
    var links := ReadLinks(st, sel, ids);
    WindowedLinksWereAsked(st, sel, ids);
    var found, nids := ScanLinks(links, byID, LeafColumns(sel));
    ok := AppendGroups(st, sel, e, nodes, ids, byID, found, nids);
    neighbors := found;
  }

  /** loadGroups.  Every linked group becomes one object, shared by its accounts, and
      no order of walking the account sets changes the result.  The join stays on the
      query; when an earlier one is there too, the first row of the answer panics. */
  method LoadGroups(st: Store, query: LeafQuery, nodes: seq<Account>, ghost e: Edges)
      returns (err: Option<QueryError>, ghost neighbors: seq<Group>)
    requires query.Valid() && DistinctNodes(nodes) && e.groups == Some(query.AsSel())
    modifies nodes, query`predicates
    ensures query.Valid() && Some(query.AsSel()) == GroupsAfter(RowsOf(nodes), e)
    ensures match GroupsError(st, RowsOf(nodes), e)
            case Some(x) => err == Some(x)
            case None =>
              err.None? && HasGroups(nodes, old(EdgesNow(nodes)), st, e) && SharedGroups(nodes, neighbors)
  {
    var sel := query.AsSel();
    var edgeIDs, byID := IndexByID(nodes, (x: AccountEdges) => x.(groups := []));
    query.Where(Joins(edgeIDs));
    var bad := CheckFields(query.ctx.fields, ValidGroupColumn);
    if bad.Some? {
      return Some(InvalidField(bad.value)), [];
    }
    if JoinsOf(sel.preds) != [] && Answers(st, query.AsSel()) {
      return Some(ScanPanic), [];
    }
    var ok;
    ok, neighbors := JoinGroups(st, sel, e, nodes, edgeIDs, byID);
    err := if ok then None else Some(UnexpectedNode);
  }

  lemma AllLinked(gids: seq<int>, links: seq<Link>, byID: map<int, Account>, nids: map<int, set<Account>>)
    requires gids == Ids(Firsts(links)) && LinkIndex(links, byID, nids)
    ensures forall j :: 0 <= j < |gids| ==> gids[j] in nids
  {
  }
}

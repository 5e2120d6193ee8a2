/**
 Eager loading on values.  `Run` is the batched algorithm of sqlAll and its loaders:
 one query per edge and plan level, split among the nodes by key.  `Naive` is the
 reference: one query per node and edge.
 */
module EagerSpec {
  import opened Wrappers
  import opened Schema
  import opened Relational

  // --------------------------------------------------------------------- plans

  datatype Plan = Plan(sel: Sel, edges: Edges)

  // The with* fields of AccountQuery.
  datatype Edges = Edges(
    groups: Option<Sel>,
    proxy: Option<Sel>,
    parent: Option<Plan>,
    children: Option<Plan>,
    accountGroups: Option<JunctionPlan>)

  datatype JunctionPlan = JunctionPlan(sel: Sel, edges: JunctionEdges)

  // The with* fields of AccountGroupQuery.
  datatype JunctionEdges = JunctionEdges(account: Option<Plan>, group: Option<Sel>)

  const NO_EDGES := Edges(None, None, None, None, None)

  // ------------------------------------------------------------- loaded graphs

  datatype Loaded = Loaded(groups: bool, proxy: bool, parent: bool, children: bool, accountGroups: bool)

  datatype Tree = Tree(
    fields: Row,
    loaded: Loaded,
    groups: seq<Row>,
    proxy: Option<Row>,
    parent: Option<Tree>,
    children: seq<Tree>,
    accountGroups: seq<JunctionTree>)

  datatype JunctionTree = JunctionTree(
    fields: Row,
    loadedAccount: bool,
    loadedGroup: bool,
    account: Option<Tree>,
    group: Option<Row>)

  function LoadedTypes(e: Edges): Loaded {
    Loaded(e.groups.Some?, e.proxy.Some?, e.parent.Some?, e.children.Some?, e.accountGroups.Some?)
  }

  function TreeRows(ts: seq<Tree>): seq<Row> {
    seq(|ts|, i requires 0 <= i < |ts| => ts[i].fields)
  }

  function JunctionRows(ts: seq<JunctionTree>): seq<Row> {
    seq(|ts|, i requires 0 <= i < |ts| => ts[i].fields)
  }

  // --------------------------------------------------------- column projection

  // None selects every column.  Of the selected ones every cell is read, whatever it holds.
  function ReadRow(cols: Option<seq<Column>>, r: Row): (res: Row)
    ensures forall c :: CellAt(res, c) == if cols.None? || c in cols.value then CellAt(r, c) else Null
    ensures forall c :: Key(res, c) == if cols.None? || c in cols.value then Key(r, c) else None
  {
    map c | c in r && r[c] != Null && (cols.None? || c in cols.value) :: r[c]
  }

  function ReadAll(cols: Option<seq<Column>>, rows: seq<Row>): (res: seq<Row>)
    ensures |res| == |rows| && forall i :: 0 <= i < |rows| ==> res[i] == ReadRow(cols, rows[i])
  {
    seq(|rows|, i requires 0 <= i < |rows| => ReadRow(cols, rows[i]))
  }

  function Without(cs: seq<Column>, c: Column): (r: seq<Column>)
    ensures forall d :: d in r <==> d in cs && d != c
  {
    if cs == [] then []
    else Without(cs[..|cs| - 1], c) + (if cs[|cs| - 1] == c then [] else [cs[|cs| - 1]])
  }

  // querySpec of an entity with an ID column and no foreign keys to keep
  function LeafColumns(sel: Sel): Option<seq<Column>> {
    if sel.fields == [] then None else Some([ID] + Without(sel.fields, ID))
  }

  // AccountQuery.querySpec
  function AccountColumns(sel: Sel, e: Edges): Option<seq<Column>> {
    if sel.fields == [] then None
    else
      var base := [ID] + Without(sel.fields, ID);
      var proxied := if e.proxy.Some? then AddOnce(base, ProxyID) else base;
      Some(if e.parent.Some? then AddOnce(proxied, ParentAccountID) else proxied)
  }

  // AccountGroupQuery.querySpec, which has no ID column
  function JunctionColumns(sel: Sel, e: JunctionEdges): Option<seq<Column>> {
    if sel.fields == [] then None
    else
      var owned := if e.account.Some? then AddOnce(sel.fields, AccountID) else sel.fields;
      Some(if e.group.Some? then AddOnce(owned, GroupID) else owned)
  }

  // -------------------------------------------------------------- key indexing

  // A non-nillable integer field: zero when the column was not read.
  function KeyOrZero(r: Row, c: Column): int {
    if Key(r, c).Some? then Key(r, c).value else 0
  }

  function Ids(rows: seq<Row>): (res: seq<int>)
    ensures |res| == |rows|
  {
    seq(|rows|, i requires 0 <= i < |rows| => KeyOrZero(rows[i], ID))
  }

  // The non-null keys, each once, in order of first appearance.
  function Refs(ks: seq<Option<int>>): (res: seq<int>)
    ensures forall k :: k in res <==> Some(k) in ks
    ensures forall i, j :: 0 <= i < j < |res| ==> res[i] != res[j]
  {
    if ks == [] then []
    else
      var init, k := Refs(ks[..|ks| - 1]), ks[|ks| - 1];
      if k.None? || k.value in init then init else init + [k.value]
  }

  // The last position holding k, or -1.
  function LastWith(ks: seq<int>, k: int): (j: int)
    ensures -1 <= j < |ks|
    ensures j == -1 <==> k !in ks
    ensures j >= 0 ==> ks[j] == k && forall i :: j < i < |ks| ==> ks[i] != k
  {
    if ks == [] then -1
    else if ks[|ks| - 1] == k then |ks| - 1
    else LastWith(ks[..|ks| - 1], k)
  }

  // A map filled from left to right keeps the last entry of each key.
  predicate IsLast(ks: seq<int>, i: nat)
    requires i < |ks|
  {
    LastWith(ks, ks[i]) == i
  }

  // The positions of true, ascending.
  function Trues(marks: seq<bool>): (res: seq<nat>)
    ensures forall j :: 0 <= j < |res| ==> res[j] < |marks| && marks[res[j]]
  {
    if marks == [] then []
    else
      var n := |marks| - 1;
      Trues(marks[..n]) + (if marks[n] then [n] else [])
  }

  function Gather<X>(xs: seq<X>, at: seq<nat>): (res: seq<X>)
    requires forall j :: 0 <= j < |at| ==> at[j] < |xs|
    ensures |res| == |at| && forall j :: 0 <= j < |at| ==> res[j] == xs[at[j]]
  {
    seq(|at|, j requires 0 <= j < |at| => xs[at[j]])
  }

  function Marks(ks: seq<Option<int>>, k: int): (res: seq<bool>)
    ensures |res| == |ks| && forall i :: 0 <= i < |ks| ==> res[i] == (ks[i] == Some(k))
  {
    seq(|ks|, i requires 0 <= i < |ks| => ks[i] == Some(k))
  }

  function HaveKey<X>(xs: seq<X>, ks: seq<Option<int>>, k: int): seq<X>
    requires |xs| == |ks|
  {
    Gather(xs, Trues(Marks(ks, k)))
  }

  function Lookup<X>(xs: seq<X>, ks: seq<int>, k: Option<int>): (res: Option<X>)
    requires |xs| == |ks|
  {
    if k.None? || LastWith(ks, k.value) == -1 then None else Some(xs[LastWith(ks, k.value)])
  }

  // ------------------------------------------------------- the many-to-many join

  datatype Link = Link(account: int, group: Row)

  // The wanted accounts joined to a group, in the order of the junction table.
  function Members(junction: seq<Row>, gid: int, accs: seq<int>): (res: seq<int>)
  {
    if junction == [] then []
    else
      var rest := Members(junction[1..], gid, accs);
      var a := KeyOrZero(junction[0], AccountID);
      if KeyOrZero(junction[0], GroupID) == gid && a in accs then [a] + rest else rest
  }

  function LinksTo(accs: seq<int>, g: Row): seq<Link> {
    seq(|accs|, i requires 0 <= i < |accs| => Link(accs[i], g))
  }

  function JoinRows(groups: seq<Row>, junction: seq<Row>, accs: seq<int>): seq<Link> {
    if groups == [] then []
    else
      var n := |groups| - 1;
      JoinRows(groups[..n], junction, accs)
      + LinksTo(Members(junction, KeyOrZero(groups[n], ID), accs), groups[n])
  }

  // The joined rows answering a group query; loadGroups turns DISTINCT off.
  function Links(st: Store, sel: Sel, accs: seq<int>): seq<Link> {
    Window(sel.SpecOffset(), sel.SpecLimit(),
           JoinRows(Sort(sel.order, Where(sel.preds, Base(st, st.groups, sel))), st.accountGroups, accs))
  }

  // The rows that are assigned.  With an earlier join still on the query each row has the
  // account column twice, and the first one panics before anything is assigned.
  function ReadLinks(st: Store, sel: Sel, accs: seq<int>): seq<Link> {
    if sel.Unjoined() then Links(st, sel, accs) else []
  }

  // How often a group occurs when it is joined once for each of the account lists.
  function TimesJoined(junction: seq<Row>, gid: int, joins: seq<seq<int>>): nat {
    if joins == [] then 1
    else TimesJoined(junction, gid, joins[..|joins| - 1]) * |Members(junction, gid, joins[|joins| - 1])|
  }

  function CountJoined(groups: seq<Row>, junction: seq<Row>, joins: seq<seq<int>>): nat {
    if groups == [] then 0
    else
      var n := |groups| - 1;
      CountJoined(groups[..n], junction, joins) + TimesJoined(junction, KeyOrZero(groups[n], ID), joins)
  }

  // The number of joined rows of a group query before its window.
  function JoinedRows(st: Store, sel: Sel): nat {
    CountJoined(Sort(sel.order, Where(sel.preds, Base(st, st.groups, sel))), st.accountGroups, JoinsOf(sel.preds))
  }

  // The query has a row to scan: the offset leaves one, and a limit never takes the first.
  predicate Answers(st: Store, sel: Sel) {
    JoinedRows(st, sel) > sel.SpecOffset()
  }

  function LinkedGroups(links: seq<Link>): seq<Row> {
    seq(|links|, i requires 0 <= i < |links| => links[i].group)
  }

  predicate Linked(links: seq<Link>, acc: int, gid: int) {
    exists i :: 0 <= i < |links| && links[i].account == acc && KeyOrZero(links[i].group, ID) == gid
  }

  lemma IdsSnoc(rows: seq<Row>, g: Row)
    ensures Ids(rows + [g]) == Ids(rows) + [KeyOrZero(g, ID)]
  {
  }

  // One group per ID, at its first joined row.
  function Firsts(links: seq<Link>): (res: seq<Row>)
    ensures forall g :: g in Ids(res) <==> exists i :: 0 <= i < |links| && KeyOrZero(links[i].group, ID) == g
    ensures forall i, j :: 0 <= i < j < |res| ==> KeyOrZero(res[i], ID) != KeyOrZero(res[j], ID)
  {
    if links == [] then []
    else
      var n := |links| - 1;
      var init, g := Firsts(links[..n]), links[n].group;
      assert forall k :: 0 <= k < n ==> links[..n][k] == links[k];
      assert forall i :: 0 <= i < |init| ==> KeyOrZero(init[i], ID) == Ids(init)[i];
      if KeyOrZero(g, ID) in Ids(init) then init
      else
        IdsSnoc(init, g);
        init + [g]
  }

  function LinkMarks(links: seq<Link>, acc: int, gids: seq<int>): (res: seq<bool>)
    ensures |res| == |gids| && forall j :: 0 <= j < |gids| ==> res[j] == Linked(links, acc, gids[j])
  {
    seq(|gids|, j requires 0 <= j < |gids| => Linked(links, acc, gids[j]))
  }

  // ------------------------------------------------- the queries the loaders send

  function GroupsSel(nodes: seq<Row>, sel: Sel): Sel {
    sel.And(Joins(Ids(nodes)))
  }

  function ProxySel(nodes: seq<Row>, sel: Sel): Sel {
    sel.And(In(ID, Refs(KeyList(nodes, ProxyID))))
  }

  function ParentSel(nodes: seq<Row>, sel: Sel): Sel {
    sel.And(In(ID, Refs(KeyList(nodes, ParentAccountID))))
  }

  function ChildrenSel(nodes: seq<Row>, sel: Sel): Sel {
    sel.Need(ParentAccountID).And(In(ParentAccountID, Ids(nodes)))
  }

  function AccountGroupsSel(nodes: seq<Row>, sel: Sel): Sel {
    sel.Need(AccountID).And(In(AccountID, Ids(nodes)))
  }

  // The keys of a junction row are never null.
  function JunctionKeys(nodes: seq<Row>, c: Column): seq<Option<int>> {
    seq(|nodes|, i requires 0 <= i < |nodes| => Some(KeyOrZero(nodes[i], c)))
  }

  function OwnerSel(nodes: seq<Row>, sel: Sel): Sel {
    sel.And(In(ID, Refs(JunctionKeys(nodes, AccountID))))
  }

  function MemberSel(nodes: seq<Row>, sel: Sel): Sel {
    sel.And(In(ID, Refs(JunctionKeys(nodes, GroupID))))
  }

  // ------------------------------------------------------------------- batched

  function Fetch(st: Store, sel: Sel, e: Edges): seq<Row> {
    ReadAll(AccountColumns(sel, e), Rows(st, st.accounts, sel))
  }

  function FetchJunction(st: Store, sel: Sel, e: JunctionEdges): seq<Row> {
    ReadAll(JunctionColumns(sel, e), Rows(st, st.accountGroups, sel))
  }

  function FetchLeaf(st: Store, table: seq<Row>, sel: Sel): seq<Row> {
    ReadAll(LeafColumns(sel), Rows(st, table, sel))
  }

  // A to-one loader sends nothing when no node has a key.
  function ProxyNeighbors(st: Store, nodes: seq<Row>, e: Edges): seq<Row> {
    if e.proxy.None? || Refs(KeyList(nodes, ProxyID)) == [] then []
    else FetchLeaf(st, st.proxies, ProxySel(nodes, e.proxy.value))
  }

  function ParentNeighbors(st: Store, nodes: seq<Row>, e: Edges): seq<Tree>
    decreases e, 0
  {
    if e.parent.None? || Refs(KeyList(nodes, ParentAccountID)) == [] then []
    else Run(st, ParentSel(nodes, e.parent.value.sel), e.parent.value.edges)
  }

  function ChildNeighbors(st: Store, nodes: seq<Row>, e: Edges): seq<Tree>
    decreases e, 0
  {
    if e.children.None? then []
    else Run(st, ChildrenSel(nodes, e.children.value.sel), e.children.value.edges)
  }

  function JunctionNeighbors(st: Store, nodes: seq<Row>, e: Edges): seq<JunctionTree>
    decreases e, 0
  {
    if e.accountGroups.None? then []
    else RunJunction(st, AccountGroupsSel(nodes, e.accountGroups.value.sel), e.accountGroups.value.edges)
  }

  function NodeLinks(st: Store, nodes: seq<Row>, e: Edges): seq<Link> {
    if e.groups.None? then [] else ReadLinks(st, e.groups.value, Ids(nodes))
  }

  function GroupNeighbors(st: Store, nodes: seq<Row>, e: Edges): seq<Row> {
    if e.groups.None? then [] else ReadAll(LeafColumns(e.groups.value), Firsts(NodeLinks(st, nodes, e)))
  }

  function GroupsOf(links: seq<Link>, neighbors: seq<Row>, acc: int): seq<Row> {
    Gather(neighbors, Trues(LinkMarks(links, acc, Ids(neighbors))))
  }

  // What each loader attaches to node i.  The to-many indexes map an ID to the last
  // node carrying it.
  function GroupsEdge(st: Store, nodes: seq<Row>, e: Edges, i: nat): seq<Row>
    requires i < |nodes|
  {
    if !IsLast(Ids(nodes), i) then []
    else GroupsOf(NodeLinks(st, nodes, e), GroupNeighbors(st, nodes, e), Ids(nodes)[i])
  }

  function ProxyEdge(st: Store, nodes: seq<Row>, e: Edges, i: nat): Option<Row>
    requires i < |nodes|
  {
    var got := ProxyNeighbors(st, nodes, e);
    Lookup(got, Ids(got), Key(nodes[i], ProxyID))
  }

  function ParentEdge(st: Store, nodes: seq<Row>, e: Edges, i: nat): Option<Tree>
    requires i < |nodes|
    decreases e, 1
  {
    var got := ParentNeighbors(st, nodes, e);
    Lookup(got, Ids(TreeRows(got)), Key(nodes[i], ParentAccountID))
  }

  function ChildrenEdge(st: Store, nodes: seq<Row>, e: Edges, i: nat): seq<Tree>
    requires i < |nodes|
    decreases e, 1
  {
    var got := ChildNeighbors(st, nodes, e);
    if !IsLast(Ids(nodes), i) then []
    else HaveKey(got, KeyList(TreeRows(got), ParentAccountID), Ids(nodes)[i])
  }

  function AccountGroupsEdge(st: Store, nodes: seq<Row>, e: Edges, i: nat): seq<JunctionTree>
    requires i < |nodes|
    decreases e, 1
  {
    var got := JunctionNeighbors(st, nodes, e);
    if !IsLast(Ids(nodes), i) then []
    else HaveKey(got, JunctionKeys(JunctionRows(got), AccountID), Ids(nodes)[i])
  }

  function Attach(st: Store, nodes: seq<Row>, e: Edges): (res: seq<Tree>)
    ensures |res| == |nodes| && TreeRows(res) == nodes
    decreases e, 2
  {
    seq(|nodes|, i requires 0 <= i < |nodes| =>
      Tree(nodes[i], LoadedTypes(e),
           GroupsEdge(st, nodes, e, i),
           ProxyEdge(st, nodes, e, i),
           ParentEdge(st, nodes, e, i),
           ChildrenEdge(st, nodes, e, i),
           AccountGroupsEdge(st, nodes, e, i)))
  }

  // AccountQuery.sqlAll
  function Run(st: Store, sel: Sel, e: Edges): seq<Tree>
    decreases e, 3
  {
    Attach(st, Fetch(st, sel, e), e)
  }

  function OwnerNeighbors(st: Store, nodes: seq<Row>, e: JunctionEdges): seq<Tree>
    decreases e, 0
  {
    if e.account.None? || Refs(JunctionKeys(nodes, AccountID)) == [] then []
    else Run(st, OwnerSel(nodes, e.account.value.sel), e.account.value.edges)
  }

  function MemberNeighbors(st: Store, nodes: seq<Row>, e: JunctionEdges): seq<Row> {
    if e.group.None? || Refs(JunctionKeys(nodes, GroupID)) == [] then []
    else FetchLeaf(st, st.groups, MemberSel(nodes, e.group.value))
  }

  function OwnerEdge(st: Store, nodes: seq<Row>, e: JunctionEdges, i: nat): Option<Tree>
    requires i < |nodes|
    decreases e, 1
  {
    var got := OwnerNeighbors(st, nodes, e);
    if e.account.None? then None
    else Lookup(got, Ids(TreeRows(got)), Some(KeyOrZero(nodes[i], AccountID)))
  }

  function MemberEdge(st: Store, nodes: seq<Row>, e: JunctionEdges, i: nat): Option<Row>
    requires i < |nodes|
  {
    var got := MemberNeighbors(st, nodes, e);
    if e.group.None? then None
    else Lookup(got, Ids(got), Some(KeyOrZero(nodes[i], GroupID)))
  }

  function AttachJunction(st: Store, nodes: seq<Row>, e: JunctionEdges): (res: seq<JunctionTree>)
    ensures |res| == |nodes| && JunctionRows(res) == nodes
    decreases e, 2
  {
    seq(|nodes|, i requires 0 <= i < |nodes| =>
      JunctionTree(nodes[i], e.account.Some?, e.group.Some?,
                   OwnerEdge(st, nodes, e, i), MemberEdge(st, nodes, e, i)))
  }

  // AccountGroupQuery.sqlAll
  function RunJunction(st: Store, sel: Sel, e: JunctionEdges): seq<JunctionTree>
    decreases e, 3
  {
    AttachJunction(st, FetchJunction(st, sel, e), e)
  }

  // ------------------------------------------------------------ failure and effect

  // prepareQuery: the first selected field that is not a column of the table.
  function BadField(fields: seq<Column>, valid: Column -> bool): Option<Column> {
    if fields == [] then None
    else if !valid(fields[0]) then Some(fields[0])
    else BadField(fields[1..], valid)
  }

  function OrElse<X>(a: Option<X>, b: Option<X>): Option<X> {
    if a.Some? then a else b
  }

  // What a run can end with: an invalid field, a neighbor nobody asked for, or the failed
  // type assertion of a row with two account columns.
  datatype QueryError = InvalidField(col: Column) | UnexpectedNode | ScanPanic

  // prepareQuery
  function Prepared(fields: seq<Column>, valid: Column -> bool): Option<QueryError> {
    match BadField(fields, valid)
    case Some(c) => Some(InvalidField(c))
    case None => None
  }

  // The first failure of a run, in the order the queries are sent.
  function RunError(st: Store, sel: Sel, e: Edges): Option<QueryError>
    decreases e, 3
  {
    OrElse(Prepared(sel.fields, ValidAccountColumn), AttachError(st, Fetch(st, sel, e), e))
  }

  function AttachError(st: Store, nodes: seq<Row>, e: Edges): Option<QueryError>
    decreases e, 2
  {
    if nodes == [] then None
    else
      OrElse(FirstError(st, nodes, e), OrElse(ChildrenError(st, nodes, e), AccountGroupsError(st, nodes, e)))
  }

  // The loaders up to the parent's.
  function FirstError(st: Store, nodes: seq<Row>, e: Edges): Option<QueryError>
    decreases e, 1
  {
    OrElse(LeavesError(st, nodes, e), ParentError(st, nodes, e))
  }

  function LeavesError(st: Store, nodes: seq<Row>, e: Edges): Option<QueryError> {
    OrElse(GroupsError(st, nodes, e), ProxyError(nodes, e))
  }

  // A join left by an earlier run makes the first row of the answer panic.
  function ScanError(st: Store, sel: Sel, asked: Sel): Option<QueryError> {
    if !sel.Unjoined() && Answers(st, asked) then Some(ScanPanic) else None
  }

  function GroupsError(st: Store, nodes: seq<Row>, e: Edges): Option<QueryError> {
    if e.groups.None? then None
    else
      var sel := e.groups.value;
      OrElse(Prepared(sel.fields, ValidGroupColumn), ScanError(st, sel, GroupsSel(nodes, sel)))
  }

  // A query that asks for these keys, when there are any.
  function LeafError(sel: Sel, keys: seq<Option<int>>, valid: Column -> bool): Option<QueryError> {
    if Refs(keys) == [] then None else Prepared(sel.fields, valid)
  }

  function ProxyError(nodes: seq<Row>, e: Edges): Option<QueryError> {
    if e.proxy.None? then None else LeafError(e.proxy.value, KeyList(nodes, ProxyID), ValidProxyColumn)
  }

  function ParentError(st: Store, nodes: seq<Row>, e: Edges): Option<QueryError>
    decreases e, 0
  {
    if e.parent.None? || Refs(KeyList(nodes, ParentAccountID)) == [] then None
    else RunError(st, ParentSel(nodes, e.parent.value.sel), e.parent.value.edges)
  }

  function ChildrenError(st: Store, nodes: seq<Row>, e: Edges): Option<QueryError>
    decreases e, 0
  {
    if e.children.None? then None
    else RunError(st, ChildrenSel(nodes, e.children.value.sel), e.children.value.edges)
  }

  function AccountGroupsError(st: Store, nodes: seq<Row>, e: Edges): Option<QueryError>
    decreases e, 0
  {
    if e.accountGroups.None? then None
    else JunctionError(st, AccountGroupsSel(nodes, e.accountGroups.value.sel), e.accountGroups.value.edges)
  }

  function JunctionError(st: Store, sel: Sel, e: JunctionEdges): Option<QueryError>
    decreases e, 2
  {
    OrElse(Prepared(sel.fields, ValidJunctionColumn), AttachJunctionError(st, FetchJunction(st, sel, e), e))
  }

  function AttachJunctionError(st: Store, nodes: seq<Row>, e: JunctionEdges): Option<QueryError>
    decreases e, 1
  {
    OrElse(OwnerError(st, nodes, e), MemberError(nodes, e))
  }

  function MemberError(nodes: seq<Row>, e: JunctionEdges): Option<QueryError> {
    if e.group.None? then None else LeafError(e.group.value, JunctionKeys(nodes, GroupID), ValidGroupColumn)
  }

  function OwnerError(st: Store, nodes: seq<Row>, e: JunctionEdges): Option<QueryError>
    decreases e, 0
  {
    if e.account.None? || Refs(JunctionKeys(nodes, AccountID)) == [] then None
    else RunError(st, OwnerSel(nodes, e.account.value.sel), e.account.value.edges)
  }

  // Running a query leaves its conditions behind on the edge queries.
  function After(st: Store, nodes: seq<Row>, e: Edges): Edges
    decreases e, 1
  {
    if nodes == [] then e
    else
      Edges(GroupsAfter(nodes, e), ProxyAfter(nodes, e), ParentAfter(st, nodes, e),
            ChildrenAfter(st, nodes, e), AccountGroupsAfter(st, nodes, e))
  }

  function GroupsAfter(nodes: seq<Row>, e: Edges): Option<Sel> {
    if e.groups.None? then None else Some(GroupsSel(nodes, e.groups.value))
  }

  function ProxyAfter(nodes: seq<Row>, e: Edges): Option<Sel> {
    if e.proxy.None? || Refs(KeyList(nodes, ProxyID)) == [] then e.proxy
    else Some(ProxySel(nodes, e.proxy.value))
  }

  function ParentAfter(st: Store, nodes: seq<Row>, e: Edges): Option<Plan>
    decreases e, 0
  {
    if e.parent.None? || Refs(KeyList(nodes, ParentAccountID)) == [] then e.parent
    else Some(Used(st, ParentSel(nodes, e.parent.value.sel), e.parent.value.edges))
  }

  function ChildrenAfter(st: Store, nodes: seq<Row>, e: Edges): Option<Plan>
    decreases e, 0
  {
    if e.children.None? then None
    else Some(Used(st, ChildrenSel(nodes, e.children.value.sel), e.children.value.edges))
  }

  function AccountGroupsAfter(st: Store, nodes: seq<Row>, e: Edges): Option<JunctionPlan>
    decreases e, 0
  {
    if e.accountGroups.None? then None
    else Some(UsedJunction(st, AccountGroupsSel(nodes, e.accountGroups.value.sel), e.accountGroups.value.edges))
  }

  // A plan after it was run with the given selection.
  function Used(st: Store, sel: Sel, e: Edges): Plan
    decreases e, 2
  {
    Plan(sel, After(st, Fetch(st, sel, e), e))
  }

  function AfterJunction(st: Store, nodes: seq<Row>, e: JunctionEdges): JunctionEdges
    decreases e, 1
  {
    JunctionEdges(OwnerAfter(st, nodes, e), MemberAfter(nodes, e))
  }

  function OwnerAfter(st: Store, nodes: seq<Row>, e: JunctionEdges): Option<Plan>
    decreases e, 0
  {
    if e.account.None? || Refs(JunctionKeys(nodes, AccountID)) == [] then e.account
    else Some(Used(st, OwnerSel(nodes, e.account.value.sel), e.account.value.edges))
  }

  function MemberAfter(nodes: seq<Row>, e: JunctionEdges): Option<Sel> {
    if e.group.None? || Refs(JunctionKeys(nodes, GroupID)) == [] then e.group
    else Some(MemberSel(nodes, e.group.value))
  }

  function UsedJunction(st: Store, sel: Sel, e: JunctionEdges): JunctionPlan
    decreases e, 2
  {
    JunctionPlan(sel, AfterJunction(st, FetchJunction(st, sel, e), e))
  }

  // ----------------------------------------------------------------- reference

  function FirstOf<X>(xs: seq<X>): Option<X> {
    if xs == [] then None else Some(xs[0])
  }

  function NaiveGroups(st: Store, sel: Sel, id: int): seq<Row> {
    ReadAll(LeafColumns(sel), LinkedGroups(Links(st, sel, [id])))
  }

  function NaiveLeaf(st: Store, table: seq<Row>, sel: Sel, k: int): Option<Row> {
    FirstOf(FetchLeaf(st, table, sel.And(In(ID, [k]))))
  }

  function NaiveOne(st: Store, p: Plan, k: int): Option<Tree>
    decreases p, 0
  {
    FirstOf(Naive(st, p.sel.And(In(ID, [k])), p.edges))
  }

  function NaiveProxy(st: Store, row: Row, e: Edges): Option<Row> {
    if e.proxy.None? || Key(row, ProxyID).None? then None
    else NaiveLeaf(st, st.proxies, e.proxy.value, Key(row, ProxyID).value)
  }

  function NaiveParent(st: Store, row: Row, e: Edges): Option<Tree>
    decreases e, 0
  {
    if e.parent.None? || Key(row, ParentAccountID).None? then None
    else NaiveOne(st, e.parent.value, Key(row, ParentAccountID).value)
  }

  function NaiveChildren(st: Store, id: int, e: Edges): seq<Tree>
    decreases e, 0
  {
    if e.children.None? then []
    else
      var c := e.children.value;
      Naive(st, c.sel.Need(ParentAccountID).And(In(ParentAccountID, [id])), c.edges)
  }

  function NaiveAccountGroups(st: Store, id: int, e: Edges): seq<JunctionTree>
    decreases e, 0
  {
    if e.accountGroups.None? then []
    else
      var a := e.accountGroups.value;
      NaiveJunction(st, a.sel.Need(AccountID).And(In(AccountID, [id])), a.edges)
  }

  // One node of the reference graph: every edge is looked up for this node alone,
  // from the stored row rather than from the columns that were read.
  function NaiveTree(st: Store, cols: Option<seq<Column>>, row: Row, e: Edges): Tree
    decreases e, 1
  {
    var id := KeyOrZero(row, ID);
    Tree(ReadRow(cols, row), LoadedTypes(e),
         if e.groups.None? then [] else NaiveGroups(st, e.groups.value, id),
         NaiveProxy(st, row, e),
         NaiveParent(st, row, e),
         NaiveChildren(st, id, e),
         NaiveAccountGroups(st, id, e))
  }

  function Naive(st: Store, sel: Sel, e: Edges): (res: seq<Tree>)
    decreases e, 3
  {
    NaiveTrees(st, AccountColumns(sel, e), Rows(st, st.accounts, sel), e)
  }

  function NaiveTrees(st: Store, cols: Option<seq<Column>>, rows: seq<Row>, e: Edges): (res: seq<Tree>)
    ensures |res| == |rows| && forall i :: 0 <= i < |rows| ==> res[i] == NaiveTree(st, cols, rows[i], e)
    decreases e, 2
  {
    seq(|rows|, i requires 0 <= i < |rows| => NaiveTree(st, cols, rows[i], e))
  }

  function NaiveJunctionTree(st: Store, cols: Option<seq<Column>>, row: Row, e: JunctionEdges): JunctionTree
    decreases e, 0
  {
    JunctionTree(ReadRow(cols, row), e.account.Some?, e.group.Some?,
                 if e.account.None? then None
                 else NaiveOne(st, e.account.value, KeyOrZero(row, AccountID)),
                 if e.group.None? then None
                 else NaiveLeaf(st, st.groups, e.group.value, KeyOrZero(row, GroupID)))
  }

  function NaiveJunction(st: Store, sel: Sel, e: JunctionEdges): (res: seq<JunctionTree>)
    decreases e, 2
  {
    NaiveJunctionTrees(st, JunctionColumns(sel, e), Rows(st, st.accountGroups, sel), e)
  }

  function NaiveJunctionTrees(
      st: Store, cols: Option<seq<Column>>, rows: seq<Row>, e: JunctionEdges): (res: seq<JunctionTree>)
    ensures |res| == |rows| && forall i :: 0 <= i < |rows| ==> res[i] == NaiveJunctionTree(st, cols, rows[i], e)
    decreases e, 1
  {
    seq(|rows|, i requires 0 <= i < |rows| => NaiveJunctionTree(st, cols, rows[i], e))
  }
}

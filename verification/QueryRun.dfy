/**
 The terminal methods of AccountQuery (All, First, Only, IDs, Exist), Clone, and the
 selections they are answers to.
 */
module QueryRun {
  import opened Wrappers
  import opened Schema
  import opened Relational
  import opened EagerSpec
  import opened EagerLaws
  import opened QueryGraph
  import opened EagerLoad
  import opened EagerRun
  import opened EagerCells
  import opened LoadedCells
  import EagerRerun

  // --------------------------------------------------------------------------- All

  /** AccountQuery.All: for every builder tree without windows on its edge queries and
      without an unknown field, the object graph is the one that per-node lookups give; and
      for every builder tree the entities show the selected columns as they are stored. */
  method All(q: AccountQuery, st: Store) returns (r: Result<seq<Account>, QueryError>, ghost s: set<object>)
    requires q.Valid()
    modifies q.repr
    ensures q.Valid() && q.repr == old(q.repr) && q.AsSel() == old(q.AsSel()) && fresh(s)
    ensures AllDone(r, s, st, old(q.AsSel()), old(q.AsEdges()), q.AsEdges())
    ensures WellFormed(st) && Plain(old(q.AsEdges())) && old(q.AsSel()).NoRepeats()
            && RunError(st, old(q.AsSel()), old(q.AsEdges())).None? ==>
              r.Success? && ShowsAll(r.value, Naive(st, old(q.AsSel()), old(q.AsEdges())), s)
    ensures RunError(st, old(q.AsSel()), old(q.AsEdges())).None? ==>
              && r.Success? && Entities(r.value, st, old(q.AsSel()), old(q.AsEdges()), s)
              && forall i, c :: 0 <= i < |r.value| ==>
                   CellAt(r.value[i].fields, c)
                   == if AccountShows(old(q.AsSel()), old(q.AsEdges()), c)
                      then CellAt(Rows(st, st.accounts, old(q.AsSel()))[i], c) else Null
  {
    ghost var sel, e := q.AsSel(), q.AsEdges();
    r, s := SqlAll(q, st);
    if r.Success? {
      AllShown(r.value, st, sel, e, s);
    }
    if WellFormed(st) && Plain(e) && sel.NoRepeats() {
      RunIsNaive(st, sel, e);
    }
  }

  // --------------------------------------------------------------- First and Only

  datatype OneOf<+T> = Found(value: T) | NotFound | NotSingular | Failed(error: QueryError)

  // The whole answer, whatever limit the builder carries.
  function Everything(st: Store, sel: Sel): seq<Row> {
    Rows(st, st.accounts, sel.(limit := None))
  }

  // The first n rows of the whole answer.
  lemma LimitIsPrefix(st: Store, sel: Sel, n: nat)
    requires n > 0
    ensures var all := Everything(st, sel);
            Rows(st, st.accounts, sel.(limit := Some(n))) == all[..if |all| < n then |all| else n]
  {
  }

  // Whether an entity shows the i-th row of the whole answer.
  ghost predicate IsRow(n: Account, st: Store, sel: Sel, e: Edges, i: nat) {
    i < |Everything(st, sel)| && n.fields == ReadRow(AccountColumns(sel, e), Everything(st, sel)[i])
  }

  // The entity with its edges: the first graph of the limited run, and on a store and a
  // plan where the two agree, that of per-node lookups.
  ghost predicate FirstGraph(n: Account, s: set<object>, st: Store, sel: Sel, e: Edges)
    reads s
  {
    && (var ts := Run(st, sel, e); ts != [] && Shows(n, ts[0], s))
    && (WellFormed(st) && Plain(e) && sel.NoRepeats() ==>
          var ts := Naive(st, sel, e); ts != [] && Shows(n, ts[0], s))
  }

  lemma FirstShown(ns: seq<Account>, s: set<object>, st: Store, sel: Sel, e: Edges)
    requires ShowsAll(ns, Run(st, sel, e), s) && ns != []
    ensures FirstGraph(ns[0], s, st, sel, e)
  {
    if WellFormed(st) && Plain(e) && sel.NoRepeats() {
      RunIsNaive(st, sel, e);
    }
  }

  lemma LimitedRow(ns: seq<Account>, st: Store, sel: Sel, e: Edges, n: nat, s: set<object>)
    requires n > 0 && ShowsAll(ns, Run(st, sel.(limit := Some(n)), e), s)
    ensures |ns| == if |Everything(st, sel)| < n then |Everything(st, sel)| else n
    ensures ns != [] ==> IsRow(ns[0], st, sel, e, 0)
  {
    LimitIsPrefix(st, sel, n);
    ShownRows(ns, Run(st, sel.(limit := Some(n)), e), s);
    if ns != [] { assert RowsOf(ns)[0] == ns[0].fields; }
  }

  /** First: the first row of the whole answer with its edges, whatever limit was set
      before. */
  method First(q: AccountQuery, st: Store) returns (r: OneOf<Account>, ghost s: set<object>)
    requires q.Valid()
    modifies q.repr
    ensures q.Valid() && q.AsSel() == old(q.AsSel()).(limit := Some(1)) && fresh(s)
    ensures var sel, e := old(q.AsSel()), old(q.AsEdges());
            match RunError(st, sel.(limit := Some(1)), e)
            case Some(x) => r == Failed(x)
            case None =>
              if Everything(st, sel) == [] then r == NotFound
              else r.Found? && IsRow(r.value, st, sel, e, 0) && FirstGraph(r.value, s, st, sel.(limit := Some(1)), e)
  {
    ghost var sel, e := q.AsSel(), q.AsEdges();
    q.Limit(1);
    var nodes;
    nodes, s := All(q, st);
    if nodes.Failure? {
      return Failed(nodes.error), s;
    }
    LimitedRow(nodes.value, st, sel, e, 1, s);
    if nodes.value != [] {
      FirstShown(nodes.value, s, st, sel.(limit := Some(1)), e);
    }
    r := if |nodes.value| == 0 then NotFound else Found(nodes.value[0]);
  }

  /** Only looks at two rows and still classifies the whole answer, whatever limit was
      set before. */
  method Only(q: AccountQuery, st: Store) returns (r: OneOf<Account>, ghost s: set<object>)
    requires q.Valid()
    modifies q.repr
    ensures q.Valid() && q.AsSel() == old(q.AsSel()).(limit := Some(2)) && fresh(s)
    ensures var sel, e := old(q.AsSel()), old(q.AsEdges());
            match RunError(st, sel.(limit := Some(2)), e)
            case Some(x) => r == Failed(x)
            case None =>
              && (r.NotFound? <==> |Everything(st, sel)| == 0)
              && (r.Found? <==> |Everything(st, sel)| == 1)
              && (r.NotSingular? <==> |Everything(st, sel)| >= 2)
              && (r.Found? ==> IsRow(r.value, st, sel, e, 0) && FirstGraph(r.value, s, st, sel.(limit := Some(2)), e))
  {
    ghost var sel, e := q.AsSel(), q.AsEdges();
    q.Limit(2);
    var nodes;
    nodes, s := All(q, st);
    if nodes.Failure? {
      return Failed(nodes.error), s;
    }
    LimitedRow(nodes.value, st, sel, e, 2, s);
    if nodes.value != [] {
      FirstShown(nodes.value, s, st, sel.(limit := Some(2)), e);
    }
    match |nodes.value| {
      case 1 => r := Found(nodes.value[0]);
      case 0 => r := NotFound;
      case _ => r := NotSingular;
    }
  }

  // ------------------------------------------------------------------- IDs and Exist

  const MAX_INT32: nat := 0x7FFF_FFFF

  // sqlQuery writes the limit it is given, zero included, and needs one for an offset.
  function SelectWindow<X>(sel: Sel, xs: seq<X>): seq<X> {
    var rest := if sel.SpecOffset() <= |xs| then xs[sel.SpecOffset()..] else [];
    if sel.limit.Some? then rest[..if |rest| < sel.limit.value then |rest| else sel.limit.value]
    else if sel.offset.Some? then rest[..if |rest| < MAX_INT32 then |rest| else MAX_INT32]
    else rest
  }

  // The rows of AccountQuery.sqlQuery: DISTINCT only when the builder asks for it.
  function SelectRows(st: Store, sel: Sel): seq<Row> {
    var sorted := Sort(sel.order, Where(sel.preds, Base(st, st.accounts, sel)));
    SelectWindow(sel, if sel.unique == Some(true) then Dedup(sorted) else sorted)
  }

  // IDs turns DISTINCT on for a traversal that says nothing about it.
  function IDsSel(sel: Sel): Sel {
    sel.(unique := if sel.unique.None? && sel.path.Some? then Some(true) else sel.unique, fields := sel.fields + [ID])
  }

  datatype ScanError = BadColumn(col: Column) | ColumnCount(n: nat)

  function IDsResult(st: Store, sel: Sel): Result<seq<int>, ScanError> {
    var asked := IDsSel(sel);
    var bad := BadField(asked.fields, ValidAccountColumn);
    if bad.Some? then Failure(BadColumn(bad.value))
    else if |asked.fields| != 1 then Failure(ColumnCount(|asked.fields|))
    else Success(Ids(SelectRows(st, asked)))
  }

  // Select(account.FieldID), after the distinct default of a traversal
  method SelectID(q: AccountQuery)
    requires q.Valid()
    modifies q.ctx
    ensures q.Valid() && q.repr == old(q.repr) && q.AsEdges() == old(q.AsEdges())
    ensures q.AsSel() == IDsSel(old(q.AsSel()))
  {
    var ctx := q.ctx;
    if ctx.unique == None && q.path != None {
      ctx.unique := Some(true);
    }
    ctx.fields := ctx.fields + [ID];
    OwnFieldsChanged(q);
  }

  /** AccountQuery.IDs: the builder keeps the ID selection, and a slice of integers can
      only be scanned from a single column. */
  method IDs(q: AccountQuery, st: Store) returns (r: Result<seq<int>, ScanError>)
    requires q.Valid()
    modifies q.ctx
    ensures q.Valid() && q.repr == old(q.repr) && q.AsEdges() == old(q.AsEdges())
    ensures q.AsSel() == IDsSel(old(q.AsSel()))
    ensures r == IDsResult(st, old(q.AsSel()))
  {
    SelectID(q);
    var sel := q.AsSel();
    var bad := CheckFields(sel.fields, ValidAccountColumn);
    if bad.Some? {
      return Failure(BadColumn(bad.value));
    }
    if |sel.fields| != 1 {
      return Failure(ColumnCount(|sel.fields|));
    }
    r := Success(Ids(SelectRows(st, sel)));
  }

  // The whole answer of All past the offset, before its limit.
  function PastOffset(st: Store, sel: Sel): seq<Row> {
    Window(sel.SpecOffset(), 0, Matching(st, st.accounts, sel))
  }

  lemma SelectRowsAre(st: Store, sel: Sel)
    ensures SelectRows(st, IDsSel(sel)) == SelectWindow(sel, Matching(st, st.accounts, sel))
  {
    var asked := IDsSel(sel);
    assert (asked.unique == Some(true)) == sel.Distinct();
    assert Base(st, st.accounts, asked) == Base(st, st.accounts, sel);
    assert asked.limit == sel.limit && asked.offset == sel.offset;
  }

  lemma IDsSelOf(sel: Sel)
    ensures sel.fields == [] ==> IDsSel(sel).fields == [ID] && BadField([ID], ValidAccountColumn) == None
    ensures |IDsSel(sel).fields| == |sel.fields| + 1
  {
    assert [ID][1..] == [];
  }

  // The rows All gets, when the driver sends no offset without a limit of its own (None: it
  // sends none).
  function CappedRows(st: Store, sel: Sel, cap: Option<nat>): seq<Row> {
    var rest := PastOffset(st, sel);
    rest[..QueryTakes(sel, cap, |rest|)]
  }

  // How many rows of the rest each window takes.
  function SelectTakes(sel: Sel, n: nat): (k: nat)
    ensures k <= n
  {
    var most := if sel.limit.Some? then sel.limit.value else if sel.offset.Some? then MAX_INT32 else n;
    if n < most then n else most
  }

  function QueryTakes(sel: Sel, cap: Option<nat>, n: nat): (k: nat)
    ensures k <= n
  {
    var most := if sel.SpecLimit() != 0 then sel.SpecLimit()
                else if sel.SpecOffset() != 0 && cap.Some? then cap.value else n;
    if n < most then n else most
  }

  lemma PrefixIds(rows: seq<Row>, j: nat, k: nat)
    requires j <= |rows| && k <= |rows|
    ensures Ids(rows[..j]) == Ids(rows[..k]) <==> j == k
  {
    assert |Ids(rows[..j])| == j && |Ids(rows[..k])| == k;
  }

  // A limit of zero over something, or an offset without limit over more rows than the
  // smaller of two different caps.
  predicate TakesDiffer(sel: Sel, cap: Option<nat>, n: nat) {
    var capped := sel.SpecOffset() != 0 && cap.Some?;
    if sel.limit == Some(0) then n > 0 && (capped ==> cap.value > 0)
    else if sel.limit.Some? || sel.offset.None? then false
    else if capped then cap.value != 2147483647 && n > (if cap.value < 2147483647 then cap.value else 2147483647)
    else n > 2147483647
  }

  lemma TakesAgree(sel: Sel, cap: Option<nat>, n: nat)
    ensures SelectTakes(sel, n) == QueryTakes(sel, cap, n) <==> !TakesDiffer(sel, cap, n)
  {
  }

  lemma WindowsTake(sel: Sel, rows: seq<Row>)
    ensures var rest := Window(sel.SpecOffset(), 0, rows);
            && SelectWindow(sel, rows) == rest[..SelectTakes(sel, |rest|)]
            && Window(sel.SpecOffset(), sel.SpecLimit(), rows) == rest[..QueryTakes(sel, None, |rest|)]
  {
    var rest := Window(sel.SpecOffset(), 0, rows);
    assert rest[..|rest|] == rest;
  }

  // The cap of the driver is seen only by an offset without limit over more rows.
  lemma CappedExact(st: Store, sel: Sel, cap: Option<nat>)
    ensures CappedRows(st, sel, None) == Rows(st, st.accounts, sel)
    ensures CappedRows(st, sel, cap) == Rows(st, st.accounts, sel)
       <==> !(sel.SpecLimit() == 0 && sel.SpecOffset() != 0 && cap.Some? && |PastOffset(st, sel)| > cap.value)
  {
    WindowsTake(sel, Matching(st, st.accounts, sel));
    var rest := PastOffset(st, sel);
    assert |rest[..QueryTakes(sel, cap, |rest|)]| == QueryTakes(sel, cap, |rest|);
  }

  /** With no field selected before, and whatever limit the driver puts beside an offset that
      has none (cap), IDs and All agree exactly when TakesDiffer does not hold of what is left
      behind the offset. */
  lemma IDsMatchAll(st: Store, sel: Sel, cap: Option<nat>)
    requires sel.fields == []
    ensures IDsResult(st, sel).Success?
    ensures IDsResult(st, sel).value == Ids(CappedRows(st, sel, cap)) <==> !TakesDiffer(sel, cap, |PastOffset(st, sel)|)
  {
    SelectRowsAre(st, sel);
    IDsSelOf(sel);
    var rest := PastOffset(st, sel);
    WindowsTake(sel, Matching(st, st.accounts, sel));
    PrefixIds(rest, SelectTakes(sel, |rest|), QueryTakes(sel, cap, |rest|));
    TakesAgree(sel, cap, |rest|);
  }

  method FirstID(q: AccountQuery, st: Store) returns (r: Result<Option<int>, ScanError>)
    requires q.Valid()
    modifies q.ctx
    ensures q.Valid() && q.AsSel() == IDsSel(old(q.AsSel()).(limit := Some(1)))
    ensures match IDsResult(st, old(q.AsSel()).(limit := Some(1)))
            case Failure(x) => r == Failure(x)
            case Success(ids) => r == Success(FirstOf(ids))
  {
    q.Limit(1);
    var ids := IDs(q, st);
    r := match ids
         case Failure(x) => Failure(x)
         case Success(v) => Success(if |v| == 0 then None else Some(v[0]));
  }

  /** Exist holds iff the whole answer is non-empty, whatever limit was set before, as
      long as no field was selected; with a field already selected it fails. */
  method Exist(q: AccountQuery, st: Store) returns (r: Result<bool, ScanError>)
    requires q.Valid()
    modifies q.ctx
    ensures q.Valid() && q.AsSel() == IDsSel(old(q.AsSel()).(limit := Some(1)))
    ensures old(q.AsSel()).fields == [] ==> r == Success(Everything(st, old(q.AsSel())) != [])
    ensures old(q.AsSel()).fields != [] ==> r.Failure?
  {
    ghost var sel := q.AsSel();
    var id := FirstID(q, st);
    ExistFromIDs(st, sel);
    r := match id
         case Failure(x) => Failure(x)
         case Success(found) => Success(found.Some?);
  }

  lemma ExistFromIDs(st: Store, sel: Sel)
    ensures var got := IDsResult(st, sel.(limit := Some(1)));
            if sel.fields == [] then got.Success? && (got.value != [] <==> Everything(st, sel) != []) else got.Failure?
  {
    var one := sel.(limit := Some(1));
    IDsSelOf(one);
    if sel.fields == [] {
      IDsMatchAll(st, one, None);
      CappedExact(st, one, None);
      LimitIsPrefix(st, sel, 1);
    }
  }

  // ------------------------------------------------------------------------- Clone

  ghost function PlanOf(q: AccountQuery?): Option<Plan>
    reads AccountRepr(q), if q == null then {} else {q}
  {
    if q == null then None else Some(q.AsPlan())
  }

  ghost function JunctionPlanOf(q: AccountGroupQuery?): Option<JunctionPlan>
    reads JunctionRepr(q), if q == null then {} else {q}
  {
    if q == null then None else Some(q.AsPlan())
  }

  ghost predicate ValidLeaf(q: LeafQuery?)
    reads if q == null then {} else {q}
  {
    q != null ==> q.Valid()
  }

  ghost predicate ValidAccount(q: AccountQuery?)
    reads AccountRepr(q), if q == null then {} else {q}
  {
    q != null ==> q.Valid()
  }

  ghost predicate ValidJunction(q: AccountGroupQuery?)
    reads JunctionRepr(q), if q == null then {} else {q}
  {
    q != null ==> q.Valid()
  }

  method CloneLeaf(q: LeafQuery?) returns (c: LeafQuery?)
    requires ValidLeaf(q)
    ensures ValidLeaf(c) && LeafSel(c) == old(LeafSel(q)) && fresh(LeafRepr(c))
  {
    c := null;
    if q != null {
      c := new LeafQuery.Copy(q);
    }
  }

  method CloneOwn(q: AccountQuery) returns (ctx: QueryContext, g: LeafQuery?, p: LeafQuery?)
    requires q.Valid()
    ensures fresh({ctx} + LeafRepr(g) + LeafRepr(p))
    ensures {ctx} !! LeafRepr(g) && {ctx} + LeafRepr(g) !! LeafRepr(p)
    ensures ValidLeaf(g) && LeafSel(g) == old(LeafSel(q.withGroups))
    ensures ValidLeaf(p) && LeafSel(p) == old(LeafSel(q.withProxy))
    ensures ctx.fields == q.ctx.fields && ctx.limit == q.ctx.limit && ctx.offset == q.ctx.offset
            && ctx.unique == q.ctx.unique
  {
    ctx := q.ctx.Clone();
    g := CloneLeaf(q.withGroups);
    p := CloneLeaf(q.withProxy);
  }

  method CloneAccounts(q: AccountQuery, ghost taken: set<object>) returns (a: AccountQuery?, k: AccountQuery?)
    requires q.Valid()
    ensures fresh(AccountRepr(a)) && fresh(AccountRepr(k)) && AccountRepr(a) !! AccountRepr(k)
    ensures taken !! AccountRepr(a) && taken !! AccountRepr(k)
    ensures ValidAccount(a) && PlanOf(a) == old(PlanOf(q.withParent))
    ensures ValidAccount(k) && PlanOf(k) == old(PlanOf(q.withChildren))
    decreases q.repr, 0
  {
    a := Clone(q.withParent);
    k := Clone(q.withChildren);
  }

  method CloneEdges(
      q: AccountQuery, ghost taken: set<object>)
      returns (a: AccountQuery?, k: AccountQuery?, j: AccountGroupQuery?)
    requires q.Valid()
    ensures fresh(AccountRepr(a)) && fresh(AccountRepr(k)) && fresh(JunctionRepr(j))
    ensures taken !! AccountRepr(a) && taken !! AccountRepr(k) && taken !! JunctionRepr(j)
    ensures AccountRepr(a) !! AccountRepr(k) && AccountRepr(a) !! JunctionRepr(j) && AccountRepr(k) !! JunctionRepr(j)
    ensures ValidAccount(a) && PlanOf(a) == old(PlanOf(q.withParent))
    ensures ValidAccount(k) && PlanOf(k) == old(PlanOf(q.withChildren))
    ensures ValidJunction(j) && JunctionPlanOf(j) == old(JunctionPlanOf(q.withAccountGroups))
    decreases q.repr, 1
  {
    a, k := CloneAccounts(q, taken);
    j := CloneJunction(q.withAccountGroups);
  }

  lemma SixFresh(ctx: object, g: set<object>, p: set<object>, a: set<object>, k: set<object>, j: set<object>)
    requires {ctx} !! g && {ctx} + g !! p && a !! k && a !! j && k !! j
    requires {ctx} + g + p !! a && {ctx} + g + p !! k && {ctx} + g + p !! j
    ensures Apart([{ctx}, g, p, a, k, j])
  {
  }

  // The six parts of a builder, copied.
  method CloneParts(
      q: AccountQuery)
      returns (ctx: QueryContext, g: LeafQuery?, p: LeafQuery?, a: AccountQuery?, k: AccountQuery?,
               j: AccountGroupQuery?)
    requires q.Valid()
    ensures fresh({ctx} + LeafRepr(g) + LeafRepr(p) + (AccountRepr(a) + AccountRepr(k) + JunctionRepr(j)))
    ensures Apart([{ctx}, LeafRepr(g), LeafRepr(p), AccountRepr(a), AccountRepr(k), JunctionRepr(j)])
    ensures ValidLeaf(g) && LeafSel(g) == old(LeafSel(q.withGroups))
    ensures ValidLeaf(p) && LeafSel(p) == old(LeafSel(q.withProxy))
    ensures ctx.fields == q.ctx.fields && ctx.limit == q.ctx.limit && ctx.offset == q.ctx.offset
            && ctx.unique == q.ctx.unique
    ensures ValidAccount(a) && PlanOf(a) == old(PlanOf(q.withParent))
    ensures ValidAccount(k) && PlanOf(k) == old(PlanOf(q.withChildren))
    ensures ValidJunction(j) && JunctionPlanOf(j) == old(JunctionPlanOf(q.withAccountGroups))
    decreases q.repr, 2
  {
    ctx, g, p := CloneOwn(q);
    a, k, j := CloneEdges(q, {ctx} + LeafRepr(g) + LeafRepr(p));
    SixFresh(ctx, LeafRepr(g), LeafRepr(p), AccountRepr(a), AccountRepr(k), JunctionRepr(j));
  }

  lemma PlanParts(q: AccountQuery)
    requires q.Valid()
    ensures q.AsPlan().sel == Sel(q.path, q.predicates, q.order, q.ctx.fields, q.ctx.limit, q.ctx.offset, q.ctx.unique)
    ensures q.AsPlan().edges
         == Edges(LeafSel(q.withGroups), LeafSel(q.withProxy), PlanOf(q.withParent), PlanOf(q.withChildren),
                                      JunctionPlanOf(q.withAccountGroups))
  {
  }

  // The struct literal at the end of Clone.
  method Rebuild(
      ghost plan: Plan, ctx: QueryContext, predicates: seq<Pred>, order: seq<Row -> int>,
      path: Option<Store -> seq<Row>>,
      g: LeafQuery?, p: LeafQuery?, a: AccountQuery?, k: AccountQuery?, j: AccountGroupQuery?)
      returns (c: AccountQuery)
    requires ValidLeaf(g) && ValidLeaf(p) && ValidAccount(a) && ValidAccount(k) && ValidJunction(j)
    requires Apart([{ctx}, LeafRepr(g), LeafRepr(p), AccountRepr(a), AccountRepr(k), JunctionRepr(j)])
    requires plan.sel == Sel(path, predicates, order, ctx.fields, ctx.limit, ctx.offset, ctx.unique)
    requires plan.edges == Edges(LeafSel(g), LeafSel(p), PlanOf(a), PlanOf(k), JunctionPlanOf(j))
    ensures c.Valid() && c.AsPlan() == plan && fresh(c)
    ensures c.repr == {c, ctx} + LeafRepr(g) + LeafRepr(p) + AccountRepr(a) + AccountRepr(k) + JunctionRepr(j)
  {
    c := new AccountQuery.Build(ctx, predicates, order, path, g, p, a, k, j);
  }

  /** AccountQuery.Clone: the same selection and plan at every depth, and not one
      builder object shared with the original, which is left as it was. */
  method Clone(q: AccountQuery?) returns (c: AccountQuery?)
    requires ValidAccount(q)
    ensures ValidAccount(c) && PlanOf(c) == old(PlanOf(q)) && fresh(AccountRepr(c))
    decreases AccountRepr(q), 3
  {
    if q == null {
      return null;
    }
    ghost var plan := q.AsPlan();
    PlanParts(q);
    var ctx, g, p, a, k, j := CloneParts(q);
    c := Rebuild(plan, ctx, q.predicates, q.order, q.path, g, p, a, k, j);
  }

  lemma JunctionParts(q: AccountGroupQuery)
    requires q.Valid()
    ensures q.AsPlan().sel == Sel(q.path, q.predicates, q.order, q.ctx.fields, q.ctx.limit, q.ctx.offset, q.ctx.unique)
    ensures q.AsPlan().edges == JunctionEdges(PlanOf(q.withAccount), LeafSel(q.withGroup))
  {
  }

  method RebuildJunction(
      ghost plan: JunctionPlan, ctx: QueryContext, predicates: seq<Pred>, order: seq<Row -> int>,
      path: Option<Store -> seq<Row>>,
      a: AccountQuery?, g: LeafQuery?)
      returns (c: AccountGroupQuery)
    requires ValidLeaf(g) && ValidAccount(a)
    requires Apart([{ctx}, LeafRepr(g), AccountRepr(a)])
    requires plan.sel == Sel(path, predicates, order, ctx.fields, ctx.limit, ctx.offset, ctx.unique)
    requires plan.edges == JunctionEdges(PlanOf(a), LeafSel(g))
    ensures c.Valid() && c.AsPlan() == plan && fresh(c)
    ensures c.repr == {c, ctx} + LeafRepr(g) + AccountRepr(a)
  {
    c := new AccountGroupQuery.Build(ctx, predicates, order, path, a, g);
  }

  method CloneJunctionParts(q: AccountGroupQuery) returns (ctx: QueryContext, a: AccountQuery?, g: LeafQuery?)
    requires q.Valid()
    ensures fresh({ctx} + LeafRepr(g) + AccountRepr(a))
    ensures Apart([{ctx}, LeafRepr(g), AccountRepr(a)])
    ensures ValidLeaf(g) && LeafSel(g) == old(LeafSel(q.withGroup))
    ensures ctx.fields == q.ctx.fields && ctx.limit == q.ctx.limit && ctx.offset == q.ctx.offset
            && ctx.unique == q.ctx.unique
    ensures ValidAccount(a) && PlanOf(a) == old(PlanOf(q.withAccount))
    decreases q.repr, 1
  {
    a := Clone(q.withAccount);
    g := CloneLeaf(q.withGroup);
    ctx := q.ctx.Clone();
  }

  method CloneJunction(q: AccountGroupQuery?) returns (c: AccountGroupQuery?)
    requires ValidJunction(q)
    ensures ValidJunction(c) && JunctionPlanOf(c) == old(JunctionPlanOf(q)) && fresh(JunctionRepr(c))
    decreases JunctionRepr(q), 3
  {
    if q == null {
      return null;
    }
    ghost var plan := q.AsPlan();
    JunctionParts(q);
    var ctx, a, g := CloneJunctionParts(q);
    c := RebuildJunction(plan, ctx, q.predicates, q.order, q.path, a, g);
  }

  // A run of a builder whose objects are all new leaves every older builder alone.
  method RunApart(
      c: AccountQuery, st: Store, ghost plan: Plan)
      returns (r: Result<seq<Account>, QueryError>, ghost s: set<object>)
    requires c.Valid() && c.AsPlan() == plan
    modifies c.repr
    ensures fresh(s)
    ensures RunError(st, plan.sel, plan.edges).None? ==>
              r.Success? && ShowsAll(r.value, Run(st, plan.sel, plan.edges), s)
  {
    r, s := All(c, st);
  }

  /** What Clone is for: running the copy does not disturb the original, at any depth
      of its edges, even though a run rewrites the edge queries it uses. */
  method RunCopy(q: AccountQuery, st: Store) returns (r: Result<seq<Account>, QueryError>, ghost s: set<object>)
    requires q.Valid()
    ensures q.Valid() && q.AsPlan() == old(q.AsPlan())
    ensures var plan := old(q.AsPlan());
            RunError(st, plan.sel, plan.edges).None? ==>
              r.Success? && ShowsAll(r.value, Run(st, plan.sel, plan.edges), s)
  {
    ghost var plan := q.AsPlan();
    var c := Clone(q);
    r, s := RunApart(c, st, plan);
    Untouched(q);
  }

  /** A copy and its original are independent from then on: whatever is changed in one tree, at
      any depth, the other one stands for the same query. */
  twostate lemma Independent(q: AccountQuery, c: AccountQuery)
    requires old(q.Valid()) && old(q.repr) !! old(c.repr)
    requires forall o: object :: old(allocated(o)) && o !in old(c.repr) ==> unchanged(o)
    ensures q.Valid() && q.repr == old(q.repr) && q.AsPlan() == old(q.AsPlan())
  {
    SameQuery(q);
  }

  // A predicate added to the parent query of a builder.
  method WhereParent(c: AccountQuery, p: Pred)
    requires c.Valid()
    modifies c.repr
    ensures c.Valid() && c.repr == old(c.repr) && c.AsSel() == old(c.AsSel())
    ensures c.AsEdges() == ParentFiltered(old(c.AsEdges()), p)
  {
    if c.withParent != null {
      PartsApart(c);
      c.withParent.Where(p);
      ParentChanged(c);
    }
  }

  function ParentFiltered(e: Edges, p: Pred): Edges {
    match e.parent
    case None => e
    case Some(plan) => e.(parent := Some(Plan(plan.sel.And(p), plan.edges)))
  }

  // For instance when a predicate is added below the copy.
  method ChangeCopy(q: AccountQuery, p: Pred) returns (c: AccountQuery)
    requires q.Valid()
    ensures q.Valid() && q.AsPlan() == old(q.AsPlan())
    ensures c.Valid() && fresh(c.repr) && c.AsSel() == old(q.AsSel())
    ensures c.AsEdges() == ParentFiltered(old(q.AsEdges()), p)
  {
    c := Clone(q);
    WhereParent(c, p);
    SameQuery(q);
  }

  /** A builder run twice on one store: the second run panics or gives the first answer again,
      and the first answer stays as it was. */
  method RunTwice(q: AccountQuery, st: Store)
      returns (first: Result<seq<Account>, QueryError>, second: Result<seq<Account>, QueryError>,
               ghost s: set<object>, ghost t: set<object>)
    requires q.Valid()
    modifies q.repr
    ensures var sel, e := old(q.AsSel()), old(q.AsEdges());
            RunError(st, sel, e).None? ==>
              && first.Success? && ShowsAll(first.value, Run(st, sel, e), s)
              && if EagerRerun.Quiet(st, sel, e) then second.Success? && ShowsAll(second.value, Run(st, sel, e), t)
                 else second == Failure(ScanPanic)
  {
    ghost var sel, e := q.AsSel(), q.AsEdges();
    first, s := SqlAll(q, st);
    if RunError(st, sel, e).None? {
      EagerRerun.RerunExact(st, sel, e);
    }
    second, t := SqlAll(q, st);
  }
}

/**
 The mutable query builders and the entities a run builds.
 */
module QueryGraph {
  import opened Wrappers
  import opened Schema
  import opened Relational
  import opened EagerSpec

  // ------------------------------------------------------------------- entities

  // An entity struct: the columns that were read, and its Edges.
  class Node<E> {
    const fields: Row
    var edges: E

    constructor (fields: Row, edges: E)
      ensures this.fields == fields && this.edges == edges
    {
      this.fields := fields;
      this.edges := edges;
    }
  }

  type Account = Node<AccountEdges>
  type AccountGroup = Node<AccountGroupEdges>
  type Group = Node<NoEdges>
  type Proxy = Node<NoEdges>

  datatype NoEdges = NoEdges

  datatype AccountEdges = AccountEdges(
    groups: seq<Group>,
    proxy: Option<Proxy>,
    parent: Option<Account>,
    children: seq<Account>,
    accountGroups: seq<AccountGroup>,
    loadedTypes: Loaded)

  datatype AccountGroupEdges = AccountGroupEdges(
    account: Option<Account>,
    group: Option<Group>,
    loadedAccount: bool,
    loadedGroup: bool)

  // The columns of a list of nodes.
  function RowsOf<E>(ns: seq<Node<E>>): (res: seq<Row>)
    ensures |res| == |ns|
  {
    seq(|ns|, i requires 0 <= i < |ns| => ns[i].fields)
  }

  ghost predicate ShowsLeaf(n: Option<Node<NoEdges>>, t: Option<Row>) {
    if t.None? then n.None? else n.Some? && n.value.fields == t.value
  }

  // The object n, with every account and junction row reachable from it inside s, is
  // the graph t.
  ghost predicate Shows(n: Account, t: Tree, s: set<object>)
    reads s
    decreases t, 1
  {
    && n in s
    && n.fields == t.fields
    && n.edges.loadedTypes == t.loaded
    && RowsOf(n.edges.groups) == t.groups
    && ShowsLeaf(n.edges.proxy, t.proxy)
    && (if t.parent.None? then n.edges.parent.None?
        else n.edges.parent.Some? && Shows(n.edges.parent.value, t.parent.value, s))
    && |n.edges.children| == |t.children|
    && (forall k :: 0 <= k < |t.children| ==> Shows(n.edges.children[k], t.children[k], s))
    && |n.edges.accountGroups| == |t.accountGroups|
    && (forall k :: 0 <= k < |t.accountGroups| ==> ShowsJunction(n.edges.accountGroups[k], t.accountGroups[k], s))
  }

  ghost predicate ShowsJunction(n: AccountGroup, t: JunctionTree, s: set<object>)
    reads s
    decreases t, 1
  {
    && n in s
    && n.fields == t.fields
    && n.edges.loadedAccount == t.loadedAccount
    && n.edges.loadedGroup == t.loadedGroup
    && (if t.account.None? then n.edges.account.None?
        else n.edges.account.Some? && Shows(n.edges.account.value, t.account.value, s))
    && ShowsLeaf(n.edges.group, t.group)
  }

  lemma {:induction false} ShowsMore(n: Account, t: Tree, s: set<object>, more: set<object>)
    requires Shows(n, t, s) && s <= more
    ensures Shows(n, t, more)
    decreases t
  {
    if t.parent.Some? { ShowsMore(n.edges.parent.value, t.parent.value, s, more); }
    forall k | 0 <= k < |t.children| ensures Shows(n.edges.children[k], t.children[k], more) {
      ShowsMore(n.edges.children[k], t.children[k], s, more);
    }
    forall k | 0 <= k < |t.accountGroups| ensures ShowsJunction(n.edges.accountGroups[k], t.accountGroups[k], more) {
      ShowsJunctionMore(n.edges.accountGroups[k], t.accountGroups[k], s, more);
    }
  }

  lemma {:induction false} ShowsJunctionMore(n: AccountGroup, t: JunctionTree, s: set<object>, more: set<object>)
    requires ShowsJunction(n, t, s) && s <= more
    ensures ShowsJunction(n, t, more)
    decreases t
  {
    if t.account.Some? { ShowsMore(n.edges.account.value, t.account.value, s, more); }
  }

  ghost predicate ShowsAll(ns: seq<Account>, ts: seq<Tree>, s: set<object>)
    reads s
  {
    |ns| == |ts| && forall i :: 0 <= i < |ts| ==> Shows(ns[i], ts[i], s)
  }

  ghost predicate ShowsAllJunction(ns: seq<AccountGroup>, ts: seq<JunctionTree>, s: set<object>)
    reads s
  {
    |ns| == |ts| && forall i :: 0 <= i < |ts| ==> ShowsJunction(ns[i], ts[i], s)
  }

  ghost predicate ShowsOption(n: Option<Account>, t: Option<Tree>, s: set<object>)
    reads s
  {
    if t.None? then n.None? else n.Some? && Shows(n.value, t.value, s)
  }

  // ------------------------------------------------------------------- builders

  class QueryContext {
    var fields: seq<Column>
    var limit: Option<nat>
    var offset: Option<nat>
    var unique: Option<bool>

    constructor ()
      ensures fields == [] && limit == None && offset == None && unique == None
    {
      fields, limit, offset, unique := [], None, None, None;
    }

    method Clone() returns (c: QueryContext)
      ensures fresh(c)
      ensures c.fields == fields && c.limit == limit && c.offset == offset && c.unique == unique
    {
      c := new QueryContext();
      c.fields, c.limit, c.offset, c.unique := fields, limit, offset, unique;
    }

    method AppendFieldOnce(f: Column)
      modifies this
      ensures fields == AddOnce(old(fields), f)
      ensures limit == old(limit) && offset == old(offset) && unique == old(unique)
    {
      if f !in fields {
        fields := fields + [f];
      }
    }
  }

  // GroupQuery and ProxyQuery, without eager edges of their own.
  class LeafQuery {
    var ctx: QueryContext
    var predicates: seq<Pred>
    var order: seq<Row -> int>
    const path: Option<Store -> seq<Row>>
    ghost const repr: set<object>

    ghost predicate Valid()
      reads this
    {
      repr == {this, ctx}
    }

    function AsSel(): Sel
      reads this, ctx
    {
      Sel(path, predicates, order, ctx.fields, ctx.limit, ctx.offset, ctx.unique)
    }

    constructor ()
      ensures Valid() && fresh(repr)
      ensures AsSel() == Sel(None, [], [], [], None, None, None)
    {
      ctx := new QueryContext();
      predicates, order, path := [], [], None;
      repr := {this, ctx};
    }

    method Where(p: Pred)
      requires Valid()
      modifies this`predicates
      ensures Valid() && AsSel() == old(AsSel()).And(p)
    {
      predicates := predicates + [p];
    }

    constructor Copy(q: LeafQuery)
      requires q.Valid()
      ensures Valid() && fresh(repr) && AsSel() == q.AsSel()
    {
      var c := q.ctx.Clone();
      ctx := c;
      predicates, order, path := q.predicates, q.order, q.path;
      repr := {this, c};
    }
  }

  ghost function LeafRepr(q: LeafQuery?): set<object> {
    if q == null then {} else q.repr
  }

  ghost function LeafSel(q: LeafQuery?): Option<Sel>
    reads if q == null then {} else {q, q.ctx}
  {
    if q == null then None else Some(q.AsSel())
  }

  ghost function AccountRepr(q: AccountQuery?): set<object>
    reads if q == null then {} else {q}
  {
    if q == null then {} else q.repr
  }

  ghost function JunctionRepr(q: AccountGroupQuery?): set<object>
    reads if q == null then {} else {q}
  {
    if q == null then {} else q.repr
  }

  // A new owner joins its context.
  lemma ApartFrom(owner: object, ctx: object, parts: seq<set<object>>)
    requires parts != [] && parts[0] == {ctx} && Apart(parts)
    requires forall i :: 0 <= i < |parts| ==> owner !in parts[i]
    ensures Apart([{owner, ctx}] + parts[1..])
    ensures forall i :: 1 <= i < |parts| ==> ctx !in parts[i]
  {
  }

  ghost predicate Apart(parts: seq<set<object>>) {
    forall i, j :: 0 <= i < j < |parts| ==> parts[i] !! parts[j]
  }

  class AccountQuery {
    var ctx: QueryContext
    var predicates: seq<Pred>
    var order: seq<Row -> int>
    const path: Option<Store -> seq<Row>>
    var withGroups: LeafQuery?
    var withProxy: LeafQuery?
    var withParent: AccountQuery?
    var withChildren: AccountQuery?
    var withAccountGroups: AccountGroupQuery?
    ghost var repr: set<object>

    // The with-queries form a tree: no builder object occurs in two places.
    ghost predicate Valid()
      reads this, repr
      decreases repr
    {
      var sound :=
        && this in repr && ctx in repr
        && (withGroups != null ==>
            withGroups in repr && withGroups.repr <= repr && ctx !in withGroups.repr && withGroups.Valid())
        && (withProxy != null ==>
            withProxy in repr && withProxy.repr <= repr && ctx !in withProxy.repr && withProxy.Valid())
        && (withParent != null ==>
              withParent in repr && withParent.repr <= repr && this !in withParent.repr && ctx !in withParent.repr
                && withParent.Valid())
        && (withChildren != null ==>
              withChildren in repr && withChildren.repr <= repr && this !in withChildren.repr
                && ctx !in withChildren.repr && withChildren.Valid())
        && (withAccountGroups != null ==>
              withAccountGroups in repr && withAccountGroups.repr <= repr && this !in withAccountGroups.repr
                && ctx !in withAccountGroups.repr && withAccountGroups.Valid())
        && Apart([{this, ctx}, LeafRepr(withGroups), LeafRepr(withProxy), AccountRepr(withParent),
                  AccountRepr(withChildren), JunctionRepr(withAccountGroups)]);
      sound
    }

    function AsSel(): Sel
      reads this, ctx
    {
      Sel(path, predicates, order, ctx.fields, ctx.limit, ctx.offset, ctx.unique)
    }

    ghost function AsEdges(): Edges
      reads this, repr
      decreases repr, 0
    {
      if !Valid() then NO_EDGES
      else Edges(
        LeafSel(withGroups),
        LeafSel(withProxy),
        if withParent == null then None else Some(withParent.AsPlan()),
        if withChildren == null then None else Some(withChildren.AsPlan()),
        if withAccountGroups == null then None else Some(withAccountGroups.AsPlan()))
    }

    ghost function AsPlan(): Plan
      reads this, repr
      decreases repr, 1
    {
      if !Valid() then Plan(EVERYTHING, NO_EDGES) else Plan(AsSel(), AsEdges())
    }

    constructor (path: Option<Store -> seq<Row>>)
      ensures Valid() && fresh(repr)
      ensures AsPlan() == Plan(Sel(path, [], [], [], None, None, None), NO_EDGES)
    {
      ctx := new QueryContext();
      this.path := path;
      predicates, order := [], [];
      withGroups, withProxy, withParent, withChildren, withAccountGroups := null, null, null, null, null;
      repr := {this, ctx};
    }

    // A builder over separately owned parts.
    constructor Build(
        ctx: QueryContext, predicates: seq<Pred>, order: seq<Row -> int>, path: Option<Store -> seq<Row>>,
        g: LeafQuery?, p: LeafQuery?, a: AccountQuery?, k: AccountQuery?, j: AccountGroupQuery?)
      requires g != null ==> g.Valid()
      requires p != null ==> p.Valid()
      requires a != null ==> a.Valid()
      requires k != null ==> k.Valid()
      requires j != null ==> j.Valid()
      requires Apart([{ctx}, LeafRepr(g), LeafRepr(p), AccountRepr(a), AccountRepr(k), JunctionRepr(j)])
      ensures Valid()
      ensures repr == {this, ctx} + LeafRepr(g) + LeafRepr(p) + AccountRepr(a) + AccountRepr(k) + JunctionRepr(j)
      ensures AsSel() == Sel(path, predicates, order, ctx.fields, ctx.limit, ctx.offset, ctx.unique)
      ensures AsEdges() == Edges(
                LeafSel(g), LeafSel(p),
                if a == null then None else Some(a.AsPlan()),
                if k == null then None else Some(k.AsPlan()),
                if j == null then None else Some(j.AsPlan()))
    {
      this.ctx, this.predicates, this.order, this.path := ctx, predicates, order, path;
      withGroups, withProxy, withParent, withChildren, withAccountGroups := g, p, a, k, j;
      repr := {this, ctx} + LeafRepr(g) + LeafRepr(p) + AccountRepr(a) + AccountRepr(k) + JunctionRepr(j);
      new;
      ApartFrom(this, ctx, [{ctx}, LeafRepr(g), LeafRepr(p), AccountRepr(a), AccountRepr(k), JunctionRepr(j)]);
      Assembled(this);
    }

    method Where(p: Pred)
      requires Valid()
      modifies this`predicates
      ensures Valid() && AsSel() == old(AsSel()).And(p) && AsEdges() == old(AsEdges())
    {
      predicates := predicates + [p];
    }

    // Adds a field that a loader needs to a selection that lists fields.
    method NeedField(f: Column)
      requires Valid()
      modifies ctx
      ensures Valid() && AsSel() == old(AsSel()).Need(f) && AsEdges() == old(AsEdges())
    {
      if ctx.fields != [] {
        ctx.AppendFieldOnce(f);
        OwnFieldsChanged(this);
      }
    }

    method Limit(n: nat)
      requires Valid()
      modifies ctx
      ensures Valid() && repr == old(repr)
      ensures AsSel() == old(AsSel()).(limit := Some(n)) && AsEdges() == old(AsEdges())
    {
      ctx.limit := Some(n);
      OwnFieldsChanged(this);
    }

    method Offset(n: nat)
      requires Valid()
      modifies ctx
      ensures Valid() && repr == old(repr)
      ensures AsSel() == old(AsSel()).(offset := Some(n)) && AsEdges() == old(AsEdges())
    {
      ctx.offset := Some(n);
      OwnFieldsChanged(this);
    }

    method Unique(b: bool)
      requires Valid()
      modifies ctx
      ensures Valid() && repr == old(repr)
      ensures AsSel() == old(AsSel()).(unique := Some(b)) && AsEdges() == old(AsEdges())
    {
      ctx.unique := Some(b);
      OwnFieldsChanged(this);
    }

    method Order(keys: seq<Row -> int>)
      requires Valid()
      modifies this`order
      ensures Valid() && repr == old(repr)
      ensures AsSel() == old(AsSel()).(order := old(order) + keys) && AsEdges() == old(AsEdges())
    {
      order := order + keys;
    }
  }

  class AccountGroupQuery {
    var ctx: QueryContext
    var predicates: seq<Pred>
    var order: seq<Row -> int>
    const path: Option<Store -> seq<Row>>
    var withAccount: AccountQuery?
    var withGroup: LeafQuery?
    ghost var repr: set<object>

    ghost predicate Valid()
      reads this, repr
      decreases repr
    {
      var sound :=
        && this in repr && ctx in repr
        && (withGroup != null ==>
            withGroup in repr && withGroup.repr <= repr && ctx !in withGroup.repr && withGroup.Valid())
        && (withAccount != null ==>
              withAccount in repr && withAccount.repr <= repr && this !in withAccount.repr && ctx !in withAccount.repr
                && withAccount.Valid())
        && Apart([{this, ctx}, LeafRepr(withGroup), AccountRepr(withAccount)]);
      sound
    }

    function AsSel(): Sel
      reads this, ctx
    {
      Sel(path, predicates, order, ctx.fields, ctx.limit, ctx.offset, ctx.unique)
    }

    ghost function AsEdges(): JunctionEdges
      reads this, repr
      decreases repr, 0
    {
      if !Valid() then JunctionEdges(None, None)
      else JunctionEdges(if withAccount == null then None else Some(withAccount.AsPlan()), LeafSel(withGroup))
    }

    ghost function AsPlan(): JunctionPlan
      reads this, repr
      decreases repr, 1
    {
      if !Valid() then JunctionPlan(EVERYTHING, JunctionEdges(None, None)) else JunctionPlan(AsSel(), AsEdges())
    }

    constructor ()
      ensures Valid() && fresh(repr)
      ensures AsPlan() == JunctionPlan(Sel(None, [], [], [], None, None, None), JunctionEdges(None, None))
    {
      ctx := new QueryContext();
      path := None;
      predicates, order := [], [];
      withAccount, withGroup := null, null;
      repr := {this, ctx};
    }

    constructor Build(
        ctx: QueryContext, predicates: seq<Pred>, order: seq<Row -> int>, path: Option<Store -> seq<Row>>,
        a: AccountQuery?, g: LeafQuery?)
      requires a != null ==> a.Valid()
      requires g != null ==> g.Valid()
      requires Apart([{ctx}, LeafRepr(g), AccountRepr(a)])
      ensures Valid() && repr == {this, ctx} + LeafRepr(g) + AccountRepr(a)
      ensures AsSel() == Sel(path, predicates, order, ctx.fields, ctx.limit, ctx.offset, ctx.unique)
      ensures AsEdges() == JunctionEdges(if a == null then None else Some(a.AsPlan()), LeafSel(g))
    {
      this.ctx, this.predicates, this.order, this.path := ctx, predicates, order, path;
      withAccount, withGroup := a, g;
      repr := {this, ctx} + LeafRepr(g) + AccountRepr(a);
      new;
      ghost var parts := [{ctx}, LeafRepr(g), AccountRepr(a)];
      ApartFrom(this, ctx, parts);
      assert [{this, ctx}] + parts[1..] == [{this, ctx}, LeafRepr(g), AccountRepr(a)];
      assert ctx !in parts[1] && ctx !in parts[2];
    }

    method Where(p: Pred)
      requires Valid()
      modifies this`predicates
      ensures Valid() && AsSel() == old(AsSel()).And(p) && AsEdges() == old(AsEdges())
    {
      predicates := predicates + [p];
    }

    // Adds a field that a loader needs to a selection that lists fields.
    method NeedField(f: Column)
      requires Valid()
      modifies ctx
      ensures Valid() && AsSel() == old(AsSel()).Need(f) && AsEdges() == old(AsEdges())
    {
      if ctx.fields != [] {
        ctx.AppendFieldOnce(f);
        OwnContextChanged(this);
      }
    }
  }

  // ------------------------------------------------------------------- framing

  lemma Assembled(q: AccountQuery)
    requires q.withGroups != null ==> q.withGroups.Valid()
    requires q.withProxy != null ==> q.withProxy.Valid()
    requires q.withParent != null ==> q.withParent.Valid()
    requires q.withChildren != null ==> q.withChildren.Valid()
    requires q.withAccountGroups != null ==> q.withAccountGroups.Valid()
    requires q.repr == {q, q.ctx} + LeafRepr(q.withGroups) + LeafRepr(q.withProxy) + AccountRepr(q.withParent)
                     + AccountRepr(q.withChildren) + JunctionRepr(q.withAccountGroups)
    requires Apart([{q, q.ctx}] + [{q.ctx}, LeafRepr(q.withGroups), LeafRepr(q.withProxy), AccountRepr(q.withParent),
                                   AccountRepr(q.withChildren), JunctionRepr(q.withAccountGroups)][1..])
    ensures q.Valid()
  {
    var parts := [{q, q.ctx}, LeafRepr(q.withGroups), LeafRepr(q.withProxy), AccountRepr(q.withParent),
                  AccountRepr(q.withChildren), JunctionRepr(q.withAccountGroups)];
    assert parts == [{q, q.ctx}] + [{q.ctx}, LeafRepr(q.withGroups), LeafRepr(q.withProxy), AccountRepr(q.withParent),
                                    AccountRepr(q.withChildren), JunctionRepr(q.withAccountGroups)][1..];
    SixApart(parts);
  }

  ghost function Parts(q: AccountQuery): seq<set<object>>
    requires q.Valid()
    reads q, q.repr
  {
    [{q, q.ctx}, LeafRepr(q.withGroups), LeafRepr(q.withProxy), AccountRepr(q.withParent),
     AccountRepr(q.withChildren), JunctionRepr(q.withAccountGroups)]
  }

  lemma SixApart(parts: seq<set<object>>)
    requires |parts| == 6 && Apart(parts)
    ensures parts[0] !! parts[1] && parts[0] !! parts[2] && parts[0] !! parts[3] && parts[0] !! parts[4]
            && parts[0] !! parts[5]
    ensures parts[1] !! parts[2] && parts[1] !! parts[3] && parts[1] !! parts[4] && parts[1] !! parts[5]
    ensures parts[2] !! parts[3] && parts[2] !! parts[4] && parts[2] !! parts[5]
    ensures parts[3] !! parts[4] && parts[3] !! parts[5] && parts[4] !! parts[5]
  {
  }

  // A part of a builder tree that was not touched.
  twostate lemma SameQuery(q: AccountQuery?)
    requires q != null ==> old(q.Valid()) && forall o :: o in old(q.repr) ==> unchanged(o)
    ensures q != null ==> q.Valid() && q.repr == old(q.repr) && q.AsPlan() == old(q.AsPlan())
  {
  }

  twostate lemma SameJunction(q: AccountGroupQuery?)
    requires q != null ==> old(q.Valid()) && forall o :: o in old(q.repr) ==> unchanged(o)
    ensures q != null ==> q.Valid() && q.repr == old(q.repr) && q.AsPlan() == old(q.AsPlan())
  {
  }

  // The edge queries are as they were, and so is the way they hang together.
  twostate lemma SameEdges(q: AccountQuery)
    requires old(q.Valid()) && unchanged(q)
    requires q.withGroups != null ==> unchanged(q.withGroups) && unchanged(q.withGroups.ctx)
    requires q.withProxy != null ==> unchanged(q.withProxy) && unchanged(q.withProxy.ctx)
    requires q.withParent != null ==>
               q.withParent.Valid() && q.withParent.repr == old(q.withParent.repr)
                 && q.withParent.AsPlan() == old(q.withParent.AsPlan())
    requires q.withChildren != null ==>
               q.withChildren.Valid() && q.withChildren.repr == old(q.withChildren.repr)
                 && q.withChildren.AsPlan() == old(q.withChildren.AsPlan())
    requires q.withAccountGroups != null ==>
               && q.withAccountGroups.Valid() && q.withAccountGroups.repr == old(q.withAccountGroups.repr)
               && q.withAccountGroups.AsPlan() == old(q.withAccountGroups.AsPlan())
    ensures q.Valid() && q.AsEdges() == old(q.AsEdges())
  {
  }

  // Only the builder's own context was changed.
  twostate lemma OwnFieldsChanged(q: AccountQuery)
    requires old(q.Valid()) && unchanged(q)
    requires forall o :: o in old(q.repr) && o != q.ctx ==> unchanged(o)
    ensures q.Valid() && q.AsEdges() == old(q.AsEdges())
  {
    SixApart(old(Parts(q)));
    SameQuery(q.withParent);
    SameQuery(q.withChildren);
    SameJunction(q.withAccountGroups);
    SameEdges(q);
  }

  twostate lemma OwnContextChanged(q: AccountGroupQuery)
    requires old(q.Valid()) && unchanged(q)
    requires forall o :: o in old(q.repr) && o != q.ctx ==> unchanged(o)
    ensures q.Valid() && q.AsEdges() == old(q.AsEdges())
  {
    var parts := old([{q, q.ctx}, LeafRepr(q.withGroup), AccountRepr(q.withAccount)]);
    assert Apart(parts) && parts[0] !! parts[1] && parts[0] !! parts[2];
  }

}

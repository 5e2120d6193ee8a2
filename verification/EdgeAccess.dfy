/**
 The OrErr accessors of a loaded account, and what they report about the store.
 */
module EdgeAccess {
  import opened Wrappers
  import opened Schema
  import opened Relational
  import opened EagerSpec
  import opened QueryGraph

  // The value, or a NotFoundError, or a NotLoadedError
  datatype Access<+T> = Got(value: T) | NotFound | NotLoaded

  function ManyOrErr<T>(xs: seq<T>, loaded: bool): Access<seq<T>> {
    if loaded then Got(xs) else NotLoaded
  }

  function OneOrErr<T>(x: Option<T>, loaded: bool): Access<T> {
    if x.Some? then Got(x.value) else if loaded then NotFound else NotLoaded
  }

  function GroupsOrErr(e: AccountEdges): Access<seq<Group>> {
    ManyOrErr(e.groups, e.loadedTypes.groups)
  }

  function ProxyOrErr(e: AccountEdges): Access<Proxy> {
    OneOrErr(e.proxy, e.loadedTypes.proxy)
  }

  function ParentOrErr(e: AccountEdges): Access<Account> {
    OneOrErr(e.parent, e.loadedTypes.parent)
  }

  function ChildrenOrErr(e: AccountEdges): Access<seq<Account>> {
    ManyOrErr(e.children, e.loadedTypes.children)
  }

  function AccountGroupsOrErr(e: AccountEdges): Access<seq<AccountGroup>> {
    ManyOrErr(e.accountGroups, e.loadedTypes.accountGroups)
  }

  /** On a node of a loaded graph, NotLoaded means exactly that the edge was not asked for;
      otherwise a to-many accessor hands out what a lookup of its own would. */
  lemma ManyAccessors(n: Account, st: Store, cols: Option<seq<Column>>, row: Row, e: Edges, s: set<object>)
    requires Shows(n, NaiveTree(st, cols, row, e), s)
    ensures match GroupsOrErr(n.edges)
            case Got(gs) => e.groups.Some? && RowsOf(gs) == NaiveGroups(st, e.groups.value, KeyOrZero(row, ID))
            case NotFound => false
            case NotLoaded => e.groups.None?
    ensures match ChildrenOrErr(n.edges)
            case Got(ks) => e.children.Some? && ShowsAll(ks, NaiveChildren(st, KeyOrZero(row, ID), e), s)
            case NotFound => false
            case NotLoaded => e.children.None?
    ensures match AccountGroupsOrErr(n.edges)
            case Got(js) => e.accountGroups.Some?
              && ShowsAllJunction(js, NaiveAccountGroups(st, KeyOrZero(row, ID), e), s)
            case NotFound => false
            case NotLoaded => e.accountGroups.None?
  {
    assert n.edges.loadedTypes == LoadedTypes(e);
  }

  /** And a to-one accessor reports NotFound exactly when the edge was asked for and the
      stored row names no entity that the edge query selects. */
  lemma ProxyAccessor(n: Account, st: Store, cols: Option<seq<Column>>, row: Row, e: Edges, s: set<object>)
    requires Shows(n, NaiveTree(st, cols, row, e), s)
    ensures match ProxyOrErr(n.edges)
            case Got(p) => e.proxy.Some? && Key(row, ProxyID).Some?
                           && NaiveLeaf(st, st.proxies, e.proxy.value, Key(row, ProxyID).value) == Some(p.fields)
            case NotFound => e.proxy.Some? && (Key(row, ProxyID).None?
                           || FetchLeaf(st, st.proxies, e.proxy.value.And(In(ID, [Key(row, ProxyID).value]))) == [])
            case NotLoaded => e.proxy.None?
  {
    assert ShowsLeaf(n.edges.proxy, NaiveProxy(st, row, e)) && n.edges.loadedTypes == LoadedTypes(e);
  }

  // The parent's row, as a query for its key alone would find it.
  ghost predicate NamesNobody(st: Store, row: Row, p: Plan) {
    Key(row, ParentAccountID).None? || Naive(st, p.sel.And(In(ID, [Key(row, ParentAccountID).value])), p.edges) == []
  }

  lemma ParentLookup(st: Store, row: Row, e: Edges)
    requires e.parent.Some?
    ensures NaiveParent(st, row, e).None? <==> NamesNobody(st, row, e.parent.value)
  {
    if Key(row, ParentAccountID).Some? {
      assert NaiveParent(st, row, e) == NaiveOne(st, e.parent.value, Key(row, ParentAccountID).value);
    }
  }

  lemma ParentAccessor(n: Account, st: Store, cols: Option<seq<Column>>, row: Row, e: Edges, s: set<object>)
    requires Shows(n, NaiveTree(st, cols, row, e), s)
    ensures match ParentOrErr(n.edges)
            case Got(p) => e.parent.Some? && ShowsOption(Some(p), NaiveParent(st, row, e), s)
            case NotFound => e.parent.Some? && NamesNobody(st, row, e.parent.value)
            case NotLoaded => e.parent.None?
  {
    ParentShown(n, st, cols, row, e, s);
    if e.parent.Some? { ParentLookup(st, row, e); } else { NoParent(st, row, e); }
  }

  lemma NoParent(st: Store, row: Row, e: Edges)
    requires e.parent.None?
    ensures NaiveParent(st, row, e).None?
  {
  }

  lemma ParentShown(n: Account, st: Store, cols: Option<seq<Column>>, row: Row, e: Edges, s: set<object>)
    requires Shows(n, NaiveTree(st, cols, row, e), s)
    ensures n.edges.loadedTypes == LoadedTypes(e) && ShowsOption(n.edges.parent, NaiveParent(st, row, e), s)
  {
    assert NaiveTree(st, cols, row, e).parent == NaiveParent(st, row, e);
  }
}

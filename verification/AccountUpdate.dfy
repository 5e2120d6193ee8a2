/**
 The update builders: the calls that change a mutation, the specification sqlSave builds
 from it, and what that specification, read as clear-then-add, does to a row.
 */
module AccountUpdate {
  import opened Wrappers
  import opened Schema
  import opened AccountRow
  import opened CreateBuilder
  import EagerSpec

  // ------------------------------------------------------------------ to-many edges

  // groups, removedgroups and clearedgroups (or those of children)
  datatype EdgeChange = EdgeChange(added: set<int>, removed: set<int>, cleared: bool)

  const NO_CHANGE := EdgeChange({}, {}, false)

  datatype EdgeCall = AddIDs(ids: seq<int>) | RemoveIDs(ids: seq<int>) | ClearAll

  function SetOf(ids: seq<int>): set<int> {
    set x | x in ids
  }

  function AfterCall(c: EdgeChange, call: EdgeCall): EdgeChange {
    match call
    case AddIDs(ids) => c.(added := c.added + SetOf(ids))
    case RemoveIDs(ids) => c.(added := c.added - SetOf(ids), removed := c.removed + SetOf(ids))
    case ClearAll => c.(cleared := true)
  }

  function AfterCalls(c: EdgeChange, calls: seq<EdgeCall>): EdgeChange {
    if calls == [] then c else AfterCall(AfterCalls(c, calls[..|calls| - 1]), calls[|calls| - 1])
  }

  // ------------------------------------------------------------------- to-one edges

  // proxy, clearedproxy and proxy_id in clearedFields (or those of parent)
  datatype KeyChange = KeyChange(id: Option<int>, clearedEdge: bool, clearedField: bool)
  {
    predicate Cleared() {
      clearedField || clearedEdge
    }
  }

  const NO_KEY_CHANGE := KeyChange(None, false, false)

  // SetProxyID, ClearProxyID and ClearProxy
  datatype KeyCall = SetKey(id: int) | ClearKey | ClearEdge

  function AfterKeyCall(c: KeyChange, call: KeyCall): KeyChange {
    match call
    case SetKey(id) => c.(id := Some(id))
    case ClearKey => c.(id := None, clearedField := true)
    case ClearEdge => c.(clearedEdge := true, clearedField := true)
  }

  function AfterKeyCalls(c: KeyChange, calls: seq<KeyCall>): KeyChange {
    if calls == [] then c else AfterKeyCall(AfterKeyCalls(c, calls[..|calls| - 1]), calls[|calls| - 1])
  }

  // ----------------------------------------------------------------- the mutation object

  class AccountMutation {
    var op: Option<int>              // the ID, for an UpdateOne
    var fields: Fields
    var added: Fields
    var clearedFields: set<Column>
    var groups: EdgeChange
    var children: EdgeChange
    var proxy: KeyChange
    var parent: KeyChange

    constructor (op: Option<int>, fields: Fields, added: Fields, clearedFields: set<Column>)
      ensures Value() == Change(fields, added, clearedFields, NO_CHANGE, NO_CHANGE, NO_KEY_CHANGE, NO_KEY_CHANGE)
              && this.op == op
    {
      this.op, this.fields, this.added, this.clearedFields := op, fields, added, clearedFields;
      groups, children, proxy, parent := NO_CHANGE, NO_CHANGE, NO_KEY_CHANGE, NO_KEY_CHANGE;
    }

    function Value(): Change
      reads this
    {
      Change(fields, added, clearedFields, groups, children, proxy, parent)
    }

    method AddGroupIDs(ids: seq<int>)
      modifies this`groups
      ensures groups == AfterCall(old(groups), AddIDs(ids))
    {
      for i := 0 to |ids|
        invariant groups == AfterCall(old(groups), AddIDs(ids[..i]))
      {
        groups := groups.(added := groups.added + {ids[i]});
        assert ids[..i + 1] == ids[..i] + [ids[i]];
      }
      assert ids[..|ids|] == ids;
    }

    method RemoveGroupIDs(ids: seq<int>)
      modifies this`groups
      ensures groups == AfterCall(old(groups), RemoveIDs(ids))
    {
      for i := 0 to |ids|
        invariant groups == AfterCall(old(groups), RemoveIDs(ids[..i]))
      {
        groups := groups.(added := groups.added - {ids[i]}, removed := groups.removed + {ids[i]});
        assert ids[..i + 1] == ids[..i] + [ids[i]];
      }
      assert ids[..|ids|] == ids;
    }

    method ClearGroups()
      modifies this`groups
      ensures groups == AfterCall(old(groups), ClearAll)
    {
      groups := groups.(cleared := true);
    }

    // Any sequence of calls on the groups edge.
    method CallGroups(calls: seq<EdgeCall>)
      modifies this`groups
      ensures groups == AfterCalls(old(groups), calls)
    {
      for i := 0 to |calls|
        invariant groups == AfterCalls(old(groups), calls[..i])
      {
        assert calls[..i + 1][..i] == calls[..i];
        match calls[i] {
          case AddIDs(ids) => AddGroupIDs(ids);
          case RemoveIDs(ids) => RemoveGroupIDs(ids);
          case ClearAll => ClearGroups();
        }
      }
      assert calls[..|calls|] == calls;
    }

    method SetProxyID(id: int)
      modifies this`proxy
      ensures proxy == AfterKeyCall(old(proxy), SetKey(id))
    {
      proxy := proxy.(id := Some(id));
    }

    method ClearProxyID()
      modifies this`proxy
      ensures proxy == AfterKeyCall(old(proxy), ClearKey)
    {
      proxy := proxy.(id := None, clearedField := true);
    }

    method ClearProxy()
      modifies this`proxy
      ensures proxy == AfterKeyCall(old(proxy), ClearEdge)
    {
      proxy := proxy.(clearedEdge := true, clearedField := true);
    }

    method CallProxy(calls: seq<KeyCall>)
      modifies this`proxy
      ensures proxy == AfterKeyCalls(old(proxy), calls)
    {
      for i := 0 to |calls|
        invariant proxy == AfterKeyCalls(old(proxy), calls[..i])
      {
        assert calls[..i + 1][..i] == calls[..i];
        match calls[i] {
          case SetKey(id) => SetProxyID(id);
          case ClearKey => ClearProxyID();
          case ClearEdge => ClearProxy();
        }
      }
      assert calls[..|calls|] == calls;
    }
  }

  // -------------------------------------------------------------------- the update spec

  // A mutation's contents when sqlSave reads it.
  datatype Change = Change(
    fields: Fields, added: Fields, clearedFields: set<Column>, groups: EdgeChange, children: EdgeChange,
    proxy: KeyChange, parent: KeyChange)

  // An edge to clear (all of it when it names no targets) or to add.
  datatype EdgeOp = EdgeOp(edge: EdgeName, targets: seq<int>)

  datatype UpdateSpec = UpdateSpec(
    sets: seq<(Column, Cell)>, adds: seq<(Column, Cell)>, clears: seq<Column>, clearEdges: seq<EdgeOp>,
    addEdges: seq<EdgeOp>)

  // The columns sqlSave looks at, in its order.
  const UPDATABLE: seq<Column> := [
    UpdatedAt, DeletedAt, Name, Notes, Platform, Type, Credentials, Extra, ProxyFallbackOriginID, Concurrency,
    LoadFactor, Priority, RateMultiplier, Status, ErrorMessage, LastUsedAt, ExpiresAt, AutoPauseOnExpired, Schedulable,
    RateLimitedAt, RateLimitResetAt, OverloadUntil, TempUnschedulableUntil, TempUnschedulableReason,
    SessionWindowStart, SessionWindowEnd, SessionWindowStatus, QuotaDimension]

  // Those it also looks for an addition to, and for a clear of.
  predicate Addable(c: Column) {
    c.ProxyFallbackOriginID? || c.Concurrency? || c.LoadFactor? || c.Priority? || c.RateMultiplier?
  }

  predicate Clearable(c: Column) {
    match c
    case DeletedAt | Notes | ProxyFallbackOriginID | LoadFactor | ErrorMessage | LastUsedAt | ExpiresAt | RateLimitedAt
       | RateLimitResetAt | OverloadUntil | TempUnschedulableUntil | TempUnschedulableReason | SessionWindowStart
       | SessionWindowEnd | SessionWindowStatus => true
    case _ => false
  }

  function Additions(added: Fields): Fields {
    map c | c in added && Addable(c) :: added[c]
  }

  function Clears(cleared: set<Column>): set<Column> {
    set c | c in cleared && Clearable(c)
  }

  function ColumnsIn(order: seq<Column>, cs: set<Column>): seq<Column>
    decreases order, cs
  {
    if order == [] then []
    else
      var n := |order| - 1;
      ColumnsIn(order[..n], cs) + (if order[n] in cs then [order[n]] else [])
  }

  lemma EmptyOrNot(s: set<int>)
    ensures s == {} || exists k :: k in s
  {
    if forall k :: k !in s { assert s == {}; }
  }

  // range over a Go map: the keys, in whatever order they come
  method MapKeys(s: set<int>) returns (ids: seq<int>)
    ensures SetOf(ids) == s && |ids| == |s|
  {
    ids := [];
    var rest := s;
    while rest != {}
      invariant SetOf(ids) + rest == s && SetOf(ids) !! rest && |ids| + |rest| == |s|
      decreases rest
    {
      EmptyOrNot(rest);
      var k :| k in rest;
      assert SetOf(ids + [k]) == SetOf(ids) + {k};
      ids, rest := ids + [k], rest - {k};
    }
  }

  // What sqlSave appends for a to-many edge, in some order of the Go map's keys.
  ghost predicate ManyEdgeOps(clear: seq<EdgeOp>, add: seq<EdgeOp>, edge: EdgeName, c: EdgeChange) {
    && |clear| <= 1 && |add| <= 1
    && (clear == [] <==> !c.cleared && c.removed == {})
    && (clear != [] ==> clear[0].edge == edge)
    && (clear != [] && c.cleared ==> clear[0].targets == [])
    && (clear != [] && !c.cleared ==> clear[0].targets != [] && SetOf(clear[0].targets) == c.removed)
    && (add == [] <==> c.added == {})
    && (add != [] ==> add[0].edge == edge && SetOf(add[0].targets) == c.added)
  }

  // The three if-statements sqlSave has for a to-many edge.
  method ManyEdge(edge: EdgeName, c: EdgeChange) returns (clear: seq<EdgeOp>, add: seq<EdgeOp>)
    ensures ManyEdgeOps(clear, add, edge, c)
  {
    clear, add := [], [];
    if c.cleared {
      clear := clear + [EdgeOp(edge, [])];
    }
    var removed := MapKeys(c.removed);
    if |removed| > 0 && !c.cleared {
      clear := clear + [EdgeOp(edge, removed)];
    }
    var added := MapKeys(c.added);
    if |added| > 0 {
      add := add + [EdgeOp(edge, added)];
    }
  }

  function KeyClear(edge: EdgeName, c: KeyChange): seq<EdgeOp> {
    if c.Cleared() then [EdgeOp(edge, [])] else []
  }

  function KeyAdd(edge: EdgeName, c: KeyChange): seq<EdgeOp> {
    if c.id.Some? then [EdgeOp(edge, [c.id.value])] else []
  }

  ghost predicate Parts(
      spec: UpdateSpec, c: Change, groups: (seq<EdgeOp>, seq<EdgeOp>), children: (seq<EdgeOp>, seq<EdgeOp>)) {
    && ManyEdgeOps(groups.0, groups.1, ToGroups, c.groups)
    && ManyEdgeOps(children.0, children.1, ToChildren, c.children)
    && spec.clearEdges == groups.0 + (KeyClear(ToProxy, c.proxy) + (KeyClear(ToParent, c.parent) + children.0))
    && spec.addEdges == groups.1 + (KeyAdd(ToProxy, c.proxy) + (KeyAdd(ToParent, c.parent) + children.1))
  }

  // A specification sqlSave can build from the change.
  ghost predicate Specifies(spec: UpdateSpec, c: Change) {
    && spec.sets == SetFields(UPDATABLE, c.fields)
    && spec.adds == SetFields(UPDATABLE, Additions(c.added))
    && spec.clears == ColumnsIn(UPDATABLE, Clears(c.clearedFields))
    && exists groups, children :: Parts(spec, c, groups, children)
  }

  // --------------------------------------------------------- clear-then-add meaning

  function ClearTargets(before: set<int>, ops: seq<EdgeOp>, edge: EdgeName): set<int> {
    if ops == [] then before
    else
      var rest := ClearTargets(before, ops[..|ops| - 1], edge);
      var op := ops[|ops| - 1];
      if op.edge != edge then rest else if op.targets == [] then {} else rest - SetOf(op.targets)
  }

  function AddTargets(before: set<int>, ops: seq<EdgeOp>, edge: EdgeName): set<int> {
    if ops == [] then before
    else
      var rest := AddTargets(before, ops[..|ops| - 1], edge);
      var op := ops[|ops| - 1];
      if op.edge != edge then rest else rest + SetOf(op.targets)
  }

  // The targets a row has over an edge once the specification was applied.
  function EdgeAfter(before: set<int>, spec: UpdateSpec, edge: EdgeName): set<int> {
    AddTargets(ClearTargets(before, spec.clearEdges, edge), spec.addEdges, edge)
  }

  function NullAll(r: Row, cs: seq<Column>): Row {
    if cs == [] then r else NullAll(r, cs[..|cs| - 1])[cs[|cs| - 1] := Null]
  }

  function Sum(a: Cell, b: Cell): Cell {
    if a.I? && b.I? then I(a.i + b.i)
    else if a.F? && b.F? then F(a.f + b.f)
    else if a.Null? then b
    else a
  }

  // column = COALESCE(column, 0) + value, over the row as it was before the update
  function Summed(before: Row, adds: seq<(Column, Cell)>): seq<(Column, Cell)> {
    seq(|adds|, i requires 0 <= i < |adds| => (adds[i].0, Sum(CellAt(before, adds[i].0), adds[i].1)))
  }

  function NullKeys(r: Row, ops: seq<EdgeOp>): Row {
    if ops == [] then r
    else
      var n := |ops| - 1;
      var rest := NullKeys(r, ops[..n]);
      if ForeignKey(ops[n].edge).Some? then rest[ForeignKey(ops[n].edge).value := Null] else rest
  }

  function SetKeys(r: Row, ops: seq<EdgeOp>): Row {
    if ops == [] then r
    else
      var n := |ops| - 1;
      var rest := SetKeys(r, ops[..n]);
      if ForeignKey(ops[n].edge).Some? && ops[n].targets != [] then
        rest[ForeignKey(ops[n].edge).value := I(ops[n].targets[0])]
      else rest
  }

  // The columns of a matched row once the specification was applied.
  function RowAfter(r: Row, spec: UpdateSpec): Row {
    SetKeys(PutAll(PutAll(NullAll(NullKeys(r, spec.clearEdges), spec.clears), spec.sets), Summed(r, spec.adds)),
            spec.addEdges)
  }

  // ------------------------------------------------------------------------- sqlSave

  datatype UpdateError = InvalidValue(why: CheckError) | MissingID | InvalidColumn(col: Column) | DefaultUninitialized

  // The validators an update runs, on the fields that are set.
  const UPDATE_RULES: seq<Rule> := [
    Rule(Name, false, true), Rule(Platform, false, true), Rule(Type, false, true), Rule(Status, false, true),
    Rule(SessionWindowStatus, false, true), Rule(QuotaDimension, false, true)]

  method BuildSpec(m: AccountMutation) returns (spec: UpdateSpec)
    ensures Specifies(spec, m.Value())
  {
    var gc, ga := ManyEdge(ToGroups, m.groups);
    var kc, ka := ManyEdge(ToChildren, m.children);
    spec := UpdateSpec(
      SetFields(UPDATABLE, m.fields), SetFields(UPDATABLE, Additions(m.added)),
      ColumnsIn(UPDATABLE, Clears(m.clearedFields)),
      gc + (KeyClear(ToProxy, m.proxy) + (KeyClear(ToParent, m.parent) + kc)),
      ga + (KeyAdd(ToProxy, m.proxy) + (KeyAdd(ToParent, m.parent) + ka)));
    assert Parts(spec, m.Value(), (gc, ga), (kc, ka));
  }

  // defaults() of both update builders
  method UpdateDefaults(m: AccountMutation, given: Fields) returns (err: Option<Column>)
    modifies m`fields
    ensures (m.fields, err) == WithDefaults(old(m.fields), [UpdatedAt], given)
  {
    err := None;
    assert [UpdatedAt][1..] == [];
    if UpdatedAt !in m.fields {
      if UpdatedAt !in given {
        return Some(UpdatedAt);
      }
      m.fields := m.fields[UpdatedAt := given[UpdatedAt]];
    }
  }

  /** AccountUpdate.Save without hooks: a missing default stops it before the check, and a
      specification always carries updated_at. */
  method Save(
      m: AccountMutation, given: Fields, valid: (Column, Cell) -> bool)
      returns (r: Result<UpdateSpec, UpdateError>)
    modifies m`fields
    ensures UpdatedAt !in old(m.fields) && UpdatedAt !in given ==>
              r == Failure(DefaultUninitialized) && m.fields == old(m.fields)
    ensures UpdatedAt in old(m.fields) || UpdatedAt in given ==>
              && m.fields
                 == (if UpdatedAt in old(m.fields) then old(m.fields) else old(m.fields)[UpdatedAt := given[UpdatedAt]])
              && match CheckRules(m.fields, UPDATE_RULES, valid)
                 case Some(why) => r == Failure(InvalidValue(why))
                 case None => r.Success? && Specifies(r.value, m.Value()) && UpdatedAt in m.fields
  {
    var missing := UpdateDefaults(m, given);
    assert [UpdatedAt][1..] == [];
    if missing.Some? {
      return Failure(DefaultUninitialized);
    }
    r := UpdateSave(m, valid);
  }

  /** AccountUpdate.sqlSave up to the call of the driver. */
  method UpdateSave(m: AccountMutation, valid: (Column, Cell) -> bool) returns (r: Result<UpdateSpec, UpdateError>)
    ensures match CheckRules(m.fields, UPDATE_RULES, valid)
            case Some(why) => r == Failure(InvalidValue(why))
            case None => r.Success? && Specifies(r.value, m.Value())
  {
    var why := CheckRules(m.fields, UPDATE_RULES, valid);
    if why.Some? {
      return Failure(InvalidValue(why.value));
    }
    var spec := BuildSpec(m);
    r := Success(spec);
  }

  /** AccountUpdateOne.sqlSave: it needs an ID and valid selected columns, of which the
      first invalid one is reported, and then builds the same specification for the same
      mutation and selects the ID before the other columns. */
  method UpdateOneSave(m: AccountMutation, select: seq<Column>, valid: (Column, Cell) -> bool)
      returns (r: Result<UpdateSpec, UpdateError>, columns: seq<Column>)
    ensures match CheckRules(m.fields, UPDATE_RULES, valid)
            case Some(why) => r == Failure(InvalidValue(why))
            case None =>
              if m.op.None? then r == Failure(MissingID)
              else match EagerSpec.BadField(select, ValidAccountColumn)
                   case Some(c) => r == Failure(InvalidColumn(c))
                   case None =>
                     && r.Success? && Specifies(r.value, m.Value())
                     && columns == if select == [] then [] else [ID] + EagerSpec.Without(select, ID)
  {
    columns := [];
    var why := CheckRules(m.fields, UPDATE_RULES, valid);
    if why.Some? {
      return Failure(InvalidValue(why.value)), [];
    }
    if m.op.None? {
      return Failure(MissingID), [];
    }
    if |select| > 0 {
      var bad;
      bad, columns := SelectColumns(select);
      if bad.Some? {
        return Failure(InvalidColumn(bad.value)), [];
      }
    }
    var spec := BuildSpec(m);
    r := Success(spec);
  }

  // The loop over the selected fields.
  method SelectColumns(select: seq<Column>) returns (bad: Option<Column>, columns: seq<Column>)
    ensures bad == EagerSpec.BadField(select, ValidAccountColumn)
    ensures bad.None? ==> columns == [ID] + EagerSpec.Without(select, ID)
  {
    columns := [ID];
    for i := 0 to |select|
      invariant EagerSpec.BadField(select, ValidAccountColumn) == EagerSpec.BadField(select[i..], ValidAccountColumn)
      invariant columns == [ID] + EagerSpec.Without(select[..i], ID)
    {
      assert select[..i + 1][..i] == select[..i] && select[i..][1..] == select[i + 1..];
      if !ValidAccountColumn(select[i]) {
        return Some(select[i]), [];
      }
      if select[i] != ID {
        columns := columns + [select[i]];
      }
    }
    assert select[..|select|] == select;
    bad := None;
  }

  // ------------------------------------------------------------------- the edge algebra

  // What a to-many edge of the change asks for.
  function Wanted(before: set<int>, c: EdgeChange): set<int> {
    (if c.cleared then {} else before - c.removed) + c.added
  }

  function WantedKey(before: Cell, c: KeyChange): Cell {
    if c.id.Some? then I(c.id.value) else if c.Cleared() then Null else before
  }

  predicate OnlyEdge(ops: seq<EdgeOp>, edge: EdgeName) {
    forall i :: 0 <= i < |ops| ==> ops[i].edge == edge
  }

  lemma {:induction false} ClearConcat(before: set<int>, xs: seq<EdgeOp>, ys: seq<EdgeOp>, edge: EdgeName)
    ensures ClearTargets(before, xs + ys, edge) == ClearTargets(ClearTargets(before, xs, edge), ys, edge)
  {
    if ys == [] {
      assert xs + ys == xs;
    } else {
      ClearConcat(before, xs, ys[..|ys| - 1], edge);
      assert (xs + ys)[..|xs + ys| - 1] == xs + ys[..|ys| - 1];
    }
  }

  lemma {:induction false} AddConcat(before: set<int>, xs: seq<EdgeOp>, ys: seq<EdgeOp>, edge: EdgeName)
    ensures AddTargets(before, xs + ys, edge) == AddTargets(AddTargets(before, xs, edge), ys, edge)
  {
    if ys == [] {
      assert xs + ys == xs;
    } else {
      AddConcat(before, xs, ys[..|ys| - 1], edge);
      assert (xs + ys)[..|xs + ys| - 1] == xs + ys[..|ys| - 1];
    }
  }

  lemma {:induction false} OtherEdge(before: set<int>, ops: seq<EdgeOp>, mine: EdgeName, edge: EdgeName)
    requires OnlyEdge(ops, mine) && mine != edge
    ensures ClearTargets(before, ops, edge) == before && AddTargets(before, ops, edge) == before
  {
    if ops != [] { OtherEdge(before, ops[..|ops| - 1], mine, edge); }
  }

  lemma OwnEdge(before: set<int>, clear: seq<EdgeOp>, add: seq<EdgeOp>, edge: EdgeName, c: EdgeChange)
    requires ManyEdgeOps(clear, add, edge, c)
    ensures ClearTargets(before, clear, edge) == if c.cleared then {} else before - c.removed
    ensures AddTargets(before, add, edge) == before + c.added
    ensures OnlyEdge(clear, edge) && OnlyEdge(add, edge)
  {
    assert ClearTargets(before, [], edge) == before && AddTargets(before, [], edge) == before;
    if clear != [] { assert clear[..0] == []; }
    if add != [] { assert add[..0] == []; }
  }

  // The list of one of four edges' parts, seen by the first or the last of them.
  lemma FourParts(before: set<int>, g: seq<EdgeOp>, p: seq<EdgeOp>, a: seq<EdgeOp>, k: seq<EdgeOp>)
    requires OnlyEdge(g, ToGroups) && OnlyEdge(p, ToProxy) && OnlyEdge(a, ToParent) && OnlyEdge(k, ToChildren)
    ensures var all := g + (p + (a + k));
            && ClearTargets(before, all, ToGroups) == ClearTargets(before, g, ToGroups)
            && AddTargets(before, all, ToGroups) == AddTargets(before, g, ToGroups)
            && ClearTargets(before, all, ToChildren) == ClearTargets(before, k, ToChildren)
            && AddTargets(before, all, ToChildren) == AddTargets(before, k, ToChildren)
  {
    FourPartsFor(before, g, p, a, k, ToGroups);
    FourPartsFor(before, g, p, a, k, ToChildren);
    var c, d := ClearTargets(before, g, ToGroups), AddTargets(before, g, ToGroups);
    OtherEdge(c, p, ToProxy, ToGroups);
    OtherEdge(c, a, ToParent, ToGroups);
    OtherEdge(c, k, ToChildren, ToGroups);
    OtherEdge(d, p, ToProxy, ToGroups);
    OtherEdge(d, a, ToParent, ToGroups);
    OtherEdge(d, k, ToChildren, ToGroups);
    OtherEdge(before, g, ToGroups, ToChildren);
    OtherEdge(before, p, ToProxy, ToChildren);
    OtherEdge(before, a, ToParent, ToChildren);
  }

  lemma FourPartsFor(before: set<int>, g: seq<EdgeOp>, p: seq<EdgeOp>, a: seq<EdgeOp>, k: seq<EdgeOp>, edge: EdgeName)
    ensures var all := g + (p + (a + k));
            && ClearTargets(before, all, edge)
               == ClearTargets(ClearTargets(ClearTargets(ClearTargets(before, g, edge), p, edge), a, edge), k, edge)
            && AddTargets(before, all, edge)
               == AddTargets(AddTargets(AddTargets(AddTargets(before, g, edge), p, edge), a, edge), k, edge)
  {
    ClearConcat(before, g, p + (a + k), edge);
    ClearConcat(ClearTargets(before, g, edge), p, a + k, edge);
    ClearConcat(ClearTargets(ClearTargets(before, g, edge), p, edge), a, k, edge);
    AddConcat(before, g, p + (a + k), edge);
    AddConcat(AddTargets(before, g, edge), p, a + k, edge);
    AddConcat(AddTargets(AddTargets(before, g, edge), p, edge), a, k, edge);
  }

  /** The edge algebra: whatever order Go's maps gave the IDs, the groups (and children)
      after an update are ((none if cleared, else those before minus the removed) plus the
      added). */
  lemma EdgeAlgebra(before: set<int>, spec: UpdateSpec, c: Change)
    requires Specifies(spec, c)
    ensures EdgeAfter(before, spec, ToGroups) == Wanted(before, c.groups)
    ensures EdgeAfter(before, spec, ToChildren) == Wanted(before, c.children)
  {
    var groups, children :| Parts(spec, c, groups, children);
    OwnEdge(before, groups.0, groups.1, ToGroups, c.groups);
    OwnEdge(before, children.0, children.1, ToChildren, c.children);
    FourParts(before, groups.0, KeyClear(ToProxy, c.proxy), KeyClear(ToParent, c.parent), children.0);
    var g, k := ClearTargets(before, spec.clearEdges, ToGroups), ClearTargets(before, spec.clearEdges, ToChildren);
    FourParts(g, groups.1, KeyAdd(ToProxy, c.proxy), KeyAdd(ToParent, c.parent), children.1);
    FourParts(k, groups.1, KeyAdd(ToProxy, c.proxy), KeyAdd(ToParent, c.parent), children.1);
    OwnEdge(g, groups.0, groups.1, ToGroups, c.groups);
    OwnEdge(k, children.0, children.1, ToChildren, c.children);
  }

  // --------------------------------------------------------------- call sequences

  // The last call of the sequence that names the ID.
  function LastMention(calls: seq<EdgeCall>, id: int): Option<EdgeCall> {
    if calls == [] then None
    else
      var call := calls[|calls| - 1];
      if !call.ClearAll? && id in call.ids then Some(call) else LastMention(calls[..|calls| - 1], id)
  }

  lemma {:induction false} CallsTrack(calls: seq<EdgeCall>, id: int)
    ensures var c := AfterCalls(NO_CHANGE, calls);
            && (c.cleared <==> ClearAll in calls)
            && (match LastMention(calls, id)
                case None => id !in c.added && id !in c.removed
                case Some(call) => if call.AddIDs? then id in c.added else id !in c.added && id in c.removed)
  {
    if calls != [] {
      CallsTrack(calls[..|calls| - 1], id);
      assert calls == calls[..|calls| - 1] + [calls[|calls| - 1]];
    }
  }

  /** For any sequence of calls the last one that names a group decides; a group nobody
      names stays exactly when ClearGroups was not called at all.  ClearGroups never takes
      back an AddGroupIDs, whichever came first. */
  lemma LastMentionWins(before: set<int>, calls: seq<EdgeCall>, id: int)
    ensures id in Wanted(before, AfterCalls(NO_CHANGE, calls))
       <==> match LastMention(calls, id)
            case Some(call) => call.AddIDs?
            case None => id in before && ClearAll !in calls
  {
    CallsTrack(calls, id);
  }

  // What a reader of the calls expects: the last one decides.
  function LastKeyCall(before: Cell, calls: seq<KeyCall>): Cell {
    if calls == [] then before
    else match calls[|calls| - 1]
         case SetKey(id) => I(id)
         case _ => Null
  }

  // Without the ClearProxy calls at its end.
  function Trimmed(calls: seq<KeyCall>): seq<KeyCall> {
    if calls != [] && calls[|calls| - 1].ClearEdge? then Trimmed(calls[..|calls| - 1]) else calls
  }

  lemma {:induction false} KeyCallsTrack(calls: seq<KeyCall>)
    ensures var c, t := AfterKeyCalls(NO_KEY_CHANGE, calls), Trimmed(calls);
            && (c.id.Some? <==> t != [] && t[|t| - 1].SetKey?)
            && (c.id.Some? ==> c.id.value == t[|t| - 1].id)
            && (c.Cleared() <==> exists i :: 0 <= i < |calls| && !calls[i].SetKey?)
            && |t| <= |calls|
  {
    if calls != [] {
      var n := |calls| - 1;
      KeyCallsTrack(calls[..n]);
      var c := AfterKeyCalls(NO_KEY_CHANGE, calls[..n]);
      assert c.Cleared() <==> exists i :: 0 <= i < n && !calls[i].SetKey? by {
        if c.Cleared() {
          var i :| 0 <= i < n && !calls[..n][i].SetKey?;
          assert !calls[i].SetKey?;
        }
        if i :| 0 <= i < n && !calls[i].SetKey? { assert !calls[..n][i].SetKey?; }
      }
    }
  }

  /** ClearProxy raises a flag and leaves the proxy set by an earlier SetProxyID in place,
      unlike ClearProxyID: the final key is what the last call says iff the calls do not
      end in SetProxyID followed by nothing but ClearProxy. */
  lemma {:induction false} LastKeyCallWins(before: Cell, calls: seq<KeyCall>)
    ensures WantedKey(before, AfterKeyCalls(NO_KEY_CHANGE, calls)) == LastKeyCall(before, calls)
       <==> !(calls != [] && calls[|calls| - 1].ClearEdge? && Trimmed(calls) != []
              && Trimmed(calls)[|Trimmed(calls)| - 1].SetKey?)
  {
    KeyCallsTrack(calls);
  }

  lemma ClearProxyKeepsSetProxy(before: Cell, id: int)
    ensures WantedKey(before, AfterKeyCalls(NO_KEY_CHANGE, [SetKey(id), ClearEdge])) == I(id)
    ensures WantedKey(before, AfterKeyCalls(NO_KEY_CHANGE, [SetKey(id), ClearKey])) == Null
  {
    assert [SetKey(id), ClearEdge][..1] == [SetKey(id)] && [SetKey(id), ClearKey][..1] == [SetKey(id)]
           && [SetKey(id)][..0] == [];
  }
}

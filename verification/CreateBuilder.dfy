/**
 AccountCreate: defaults, the checks before a save, the insert specification with the
 entity built beside it, and what comes back when the stored row is read again.
 */
module CreateBuilder {
  import opened Wrappers
  import opened Schema
  import opened AccountRow
  import EagerSpec

  // The fields and edges of an AccountMutation that creates.
  datatype Draft = Draft(fields: Fields, groups: seq<int>, proxy: Option<int>, parent: Option<int>, children: seq<int>)

  // ----------------------------------------------------------------------- defaults

  // The columns defaults() fills, in its order.
  const DEFAULTED: seq<Column> := [
    CreatedAt, UpdatedAt, Credentials, Extra, Concurrency, Priority, RateMultiplier, Status, AutoPauseOnExpired,
    Schedulable, QuotaDimension]

  // Their default is a function that the runtime package installs.
  predicate FromRuntime(c: Column) {
    c in [CreatedAt, UpdatedAt, Credentials, Extra]
  }

  // One if-statement of defaults; given holds what each default yields on this call.
  function Defaulted(f: Fields, c: Column, given: Fields): Fields {
    if c in f then f else f[c := if c in given then given[c] else Zero(c)]
  }

  predicate Uninitialized(f: Fields, c: Column, given: Fields) {
    c !in f && FromRuntime(c) && c !in given
  }

  // The fields after defaults(), and the column it stopped at.
  function WithDefaults(f: Fields, todo: seq<Column>, given: Fields): (Fields, Option<Column>)
    decreases todo, f
  {
    if todo == [] then (f, None)
    else if Uninitialized(f, todo[0], given) then (f, Some(todo[0]))
    else WithDefaults(Defaulted(f, todo[0], given), todo[1..], given)
  }

  /** defaults(): what the caller set stays.  Without an error every default column is set, to
      what its default yields; with one, so are the default columns before the one it names. */
  method Defaults(f0: Fields, given: Fields) returns (f: Fields, err: Option<Column>)
    ensures (f, err) == WithDefaults(f0, DEFAULTED, given)
    ensures forall c :: c in f0 ==> c in f && f[c] == f0[c]
    ensures forall c :: c in f && c !in f0 ==> c in DEFAULTED && f[c] == if c in given then given[c] else Zero(c)
    ensures err.None? ==> forall c :: c in DEFAULTED ==> c in f
    ensures err.Some? ==> exists i {:trigger DEFAULTED[i]} ::
              0 <= i < |DEFAULTED| && err.value == DEFAULTED[i] && StoppedAt(f, DEFAULTED, given, i)
  {
    DefaultsFill(f0, DEFAULTED, given);
    ghost var stop := DefaultsStop(f0, DEFAULTED, given);
    f := f0;
    for i := 0 to |DEFAULTED|
      invariant WithDefaults(f0, DEFAULTED, given) == WithDefaults(f, DEFAULTED[i..], given)
    {
      assert DEFAULTED[i..][0] == DEFAULTED[i] && DEFAULTED[i..][1..] == DEFAULTED[i + 1..];
      if Uninitialized(f, DEFAULTED[i], given) {
        return f, Some(DEFAULTED[i]);
      }
      f := Defaulted(f, DEFAULTED[i], given);
    }
    err := None;
  }

  // The i-th column has no default and nobody set it; the ones before it are set.
  ghost predicate StoppedAt(f: Fields, todo: seq<Column>, given: Fields, i: nat)
    requires i < |todo|
  {
    todo[i] !in f && FromRuntime(todo[i]) && todo[i] !in given && forall j :: 0 <= j < i ==> todo[j] in f
  }

  lemma {:induction false} DefaultsStop(f: Fields, todo: seq<Column>, given: Fields) returns (i: nat)
    ensures var (g, err) := WithDefaults(f, todo, given);
            err.Some? ==> i < |todo| && err.value == todo[i] && StoppedAt(g, todo, given, i)
    decreases todo
  {
    i := 0;
    if todo != [] && !Uninitialized(f, todo[0], given) {
      var next := Defaulted(f, todo[0], given);
      var j := DefaultsStop(next, todo[1..], given);
      DefaultsFill(next, todo[1..], given);
      i := j + 1;
      assert forall k :: 0 < k < |todo| ==> todo[k] == todo[1..][k - 1];
    }
  }

  /** What was set stays set, and what was not gets what its default yields.  Without an error
      every default column is set, and with one the column it names is not. */
  lemma {:induction false} DefaultsFill(f: Fields, todo: seq<Column>, given: Fields)
    ensures var (g, err) := WithDefaults(f, todo, given);
            && (forall c :: c in f ==> c in g && g[c] == f[c])
            && (err.None? ==> forall c :: c in todo ==> c in g && (FromRuntime(c) ==> c in f || c in given))
            && (err.Some? ==> err.value in todo && FromRuntime(err.value) && err.value !in g && err.value !in given)
            && (forall c :: c in g && c !in f ==> c in todo && g[c] == if c in given then given[c] else Zero(c))
    decreases todo
  {
    if todo != [] && !Uninitialized(f, todo[0], given) {
      DefaultsFill(Defaulted(f, todo[0], given), todo[1..], given);
    }
  }

  // -------------------------------------------------------------------------- check

  datatype Rule = Rule(col: Column, required: bool, validated: bool)
  datatype CheckError = Missing(col: Column) | Invalid(col: Column)

  const RULES: seq<Rule> := [
    Rule(CreatedAt, true, false), Rule(UpdatedAt, true, false), Rule(Name, true, true),
    Rule(Platform, true, true), Rule(Type, true, true), Rule(Credentials, true, false),
    Rule(Extra, true, false), Rule(Concurrency, true, false), Rule(Priority, true, false),
    Rule(RateMultiplier, true, false), Rule(Status, true, true), Rule(AutoPauseOnExpired, true, false),
    Rule(Schedulable, true, false), Rule(SessionWindowStatus, false, true), Rule(QuotaDimension, true, true)]

  function Broken(f: Fields, r: Rule, valid: (Column, Cell) -> bool): Option<CheckError> {
    if r.col !in f then (if r.required then Some(Missing(r.col)) else None)
    else if r.validated && !valid(r.col, f[r.col]) then Some(Invalid(r.col))
    else None
  }

  // check(): the first rule that is broken.
  function CheckRules(f: Fields, rules: seq<Rule>, valid: (Column, Cell) -> bool): Option<CheckError>
    decreases rules, f
  {
    if rules == [] then None
    else if Broken(f, rules[0], valid).Some? then Broken(f, rules[0], valid)
    else CheckRules(f, rules[1..], valid)
  }

  function Check(f: Fields, valid: (Column, Cell) -> bool): Option<CheckError> {
    CheckRules(f, RULES, valid)
  }

  lemma {:induction false} CheckExact(f: Fields, rules: seq<Rule>, valid: (Column, Cell) -> bool)
    ensures CheckRules(f, rules, valid).None? <==> forall i :: 0 <= i < |rules| ==> Broken(f, rules[i], valid).None?
  {
    if rules != [] {
      CheckExact(f, rules[1..], valid);
      assert forall i :: 0 < i < |rules| ==> rules[i] == rules[1..][i - 1];
    }
  }

  // Every runtime default is a required column.
  lemma RuntimeDefaultsAreRequired(c: Column)
    requires FromRuntime(c)
    ensures Rule(c, true, false) in RULES
  {
    assert RULES[0].col == CreatedAt && RULES[1].col == UpdatedAt && RULES[5].col == Credentials
           && RULES[6].col == Extra;
  }

  lemma MissingFailsCheck(f: Fields, c: Column, valid: (Column, Cell) -> bool)
    requires FromRuntime(c) && c !in f
    ensures Check(f, valid).Some?
  {
    RuntimeDefaultsAreRequired(c);
    CheckExact(f, RULES, valid);
    assert Broken(f, Rule(c, true, false), valid).Some?;
  }

  /** The error of defaults() that a bulk save drops comes back as a failed check, unless
      somebody else sets the field in between. */
  lemma DroppedDefaultResurfaces(f: Fields, given: Fields, more: Fields, valid: (Column, Cell) -> bool)
    ensures var (g, err) := WithDefaults(f, DEFAULTED, given);
            err.Some? && err.value !in more ==> Check(g + more, valid).Some?
  {
    DefaultsFill(f, DEFAULTED, given);
    var (g, err) := WithDefaults(f, DEFAULTED, given);
    if err.Some? && err.value !in more { MissingFailsCheck(g + more, err.value, valid); }
  }

  /** A checked mutation has created_at set. */
  lemma CheckedHasCreatedAt(f: Fields, valid: (Column, Cell) -> bool)
    requires Check(f, valid).None?
    ensures CreatedAt in f
  {
    CheckExact(f, RULES, valid);
    assert Broken(f, RULES[0], valid).None?;
  }

  // --------------------------------------------------------------------- createSpec

  datatype Rel = M2M | M2O | O2M
  datatype EdgeName = ToGroups | ToProxy | ToParent | ToChildren
  datatype EdgeSpec = EdgeSpec(rel: Rel, edge: EdgeName, targets: seq<int>)
  datatype CreateSpec = CreateSpec(fields: seq<(Column, Cell)>, edges: seq<EdgeSpec>, id: Option<int>)

  // The columns of createSpec's if-statements, in its order and in three parts.
  const SPEC_FIRST: seq<Column> := [
    CreatedAt, UpdatedAt, DeletedAt, Name, Notes, Platform, Type, Credentials, Extra, ProxyFallbackOriginID]
  const SPEC_MIDDLE: seq<Column> := [
    Concurrency, LoadFactor, Priority, RateMultiplier, Status, ErrorMessage, LastUsedAt, ExpiresAt,
    AutoPauseOnExpired, Schedulable]
  const SPEC_LAST: seq<Column> := [
    RateLimitedAt, RateLimitResetAt, OverloadUntil, TempUnschedulableUntil, TempUnschedulableReason,
    SessionWindowStart, SessionWindowEnd, SessionWindowStatus, QuotaDimension]
  const SPEC_ORDER: seq<Column> := SPEC_FIRST + SPEC_MIDDLE + SPEC_LAST

  function SetFields(order: seq<Column>, f: Fields): seq<(Column, Cell)>
    decreases order, f
  {
    if order == [] then []
    else
      var n := |order| - 1;
      SetFields(order[..n], f) + (if order[n] in f then [(order[n], f[order[n]])] else [])
  }

  function OneEdge(rel: Rel, edge: EdgeName, targets: seq<int>): seq<EdgeSpec> {
    if targets == [] then [] else [EdgeSpec(rel, edge, targets)]
  }

  function IDList(id: Option<int>): seq<int> {
    if id.None? then [] else [id.value]
  }

  function SpecOf(d: Draft): CreateSpec {
    CreateSpec(
      SetFields(SPEC_ORDER, d.fields),
      OneEdge(M2M, ToGroups, d.groups) + OneEdge(M2O, ToProxy, IDList(d.proxy))
      + OneEdge(M2O, ToParent, IDList(d.parent))
      + OneEdge(O2M, ToChildren, d.children),
      None)
  }

  // Those are the account columns that are not keys of edges.
  predicate Settable(c: Column) {
    ValidAccountColumn(c) && c != ID && c != ProxyID && c != ParentAccountID
  }

  lemma AllOrdered(c: Column)
    requires Settable(c)
    ensures c in SPEC_ORDER
  {
  }

  lemma NotSpecFirst(c: Column)
    requires !Settable(c)
    ensures c !in SPEC_FIRST
  {
  }

  lemma NotSpecMiddle(c: Column)
    requires !Settable(c)
    ensures c !in SPEC_MIDDLE
  {
  }

  lemma NotSpecLast(c: Column)
    requires !Settable(c)
    ensures c !in SPEC_LAST
  {
  }

  lemma NotOrdered(c: Column)
    requires !Settable(c)
    ensures c !in SPEC_ORDER
  {
    NotSpecFirst(c);
    NotSpecMiddle(c);
    NotSpecLast(c);
  }

  function Only(order: seq<Column>, f: Fields): Fields {
    map c | c in f && c in order :: f[c]
  }

  // The entity createSpec builds from a draft.
  function NodeFields(d: Draft): Fields {
    var own := Only(SPEC_ORDER, d.fields);
    var proxied := if d.proxy.Some? then own[ProxyID := I(d.proxy.value)] else own;
    if d.parent.Some? then proxied[ParentAccountID := I(d.parent.value)] else proxied
  }

  function WithID(f: Fields, id: Option<int>): Fields {
    if id.Some? then f[ID := I(id.value)] else f
  }

  // The fields of an entity that was built from a draft and given this ID.
  ghost predicate MadeFrom(f: Fields, d: Draft, id: Option<int>) {
    forall c :: FieldMade(f, d, id, c)
  }

  ghost predicate FieldMade(f: Fields, d: Draft, id: Option<int>, c: Column) {
    match c
    case ID => if id.Some? then ID in f && f[ID] == I(id.value) else ID !in f
    case ProxyID => if d.proxy.Some? then ProxyID in f && f[ProxyID] == I(d.proxy.value) else ProxyID !in f
    case ParentAccountID =>
      if d.parent.Some? then ParentAccountID in f && f[ParentAccountID] == I(d.parent.value)
      else ParentAccountID !in f
    case _ => if ValidAccountColumn(c) && c in d.fields then c in f && f[c] == d.fields[c] else c !in f
  }

  lemma {:induction false} OnlyHolds(order: seq<Column>, f: Fields, c: Column)
    ensures c in Only(order, f) <==> c in order && c in f
    ensures c in Only(order, f) ==> Only(order, f)[c] == f[c]
  {
  }

  lemma KeysMade(own: Fields, d: Draft, id: Option<int>, c: Column)
    requires c in own <==> Settable(c) && c in d.fields
    requires c in own ==> own[c] == d.fields[c]
    ensures var proxied := if d.proxy.Some? then own[ProxyID := I(d.proxy.value)] else own;
            var made := if d.parent.Some? then proxied[ParentAccountID := I(d.parent.value)] else proxied;
            FieldMade(WithID(made, id), d, id, c)
  {
  }

  /** The entity createSpec builds, once it has its ID: every settable column of the draft,
      the two keys of its to-one edges, the ID, each with its own value, and nothing else. */
  lemma NodeIsMade(d: Draft, id: Option<int>)
    ensures MadeFrom(WithID(NodeFields(d), id), d, id)
  {
    var made := WithID(NodeFields(d), id);
    forall c ensures FieldMade(made, d, id, c) {
      OrderedExactly(c);
      OnlyHolds(SPEC_ORDER, d.fields, c);
      KeysMade(Only(SPEC_ORDER, d.fields), d, id, c);
    }
  }

  lemma OrderedExactly(c: Column)
    ensures c in SPEC_ORDER <==> Settable(c)
  {
    if Settable(c) { AllOrdered(c); } else { NotOrdered(c); }
  }

  // createSpec's if-statements for the fields: one for each column, in this order.
  method SpecFields(order: seq<Column>, f: Fields, node: AccountEntity) returns (fields: seq<(Column, Cell)>)
    requires node.fields == map[]
    modifies node
    ensures fields == SetFields(order, f) && node.fields == Only(order, f)
  {
    fields := [];
    for i := 0 to |order|
      invariant fields == SetFields(order[..i], f)
      invariant node.fields == Only(order[..i], f)
    {
      assert order[..i + 1] == order[..i] + [order[i]];
      if order[i] in f {
        fields := fields + [(order[i], f[order[i]])];
        node.fields := node.fields[order[i] := f[order[i]]];
      }
    }
    assert order[..|order|] == order;
  }

  /** createSpec: the specification and, beside it, the entity the caller gets. */
  method CreateSpecFrom(d: Draft) returns (node: AccountEntity, spec: CreateSpec)
    ensures fresh(node) && node.fields == NodeFields(d) && spec == SpecOf(d)
  {
    node := new AccountEntity();
    var fields := SpecFields(SPEC_ORDER, d.fields, node);
    var edges := [];
    if |d.groups| > 0 {
      edges := edges + [EdgeSpec(M2M, ToGroups, d.groups)];
    }
    if d.proxy.Some? {
      node.fields := node.fields[ProxyID := I(d.proxy.value)];
      edges := edges + [EdgeSpec(M2O, ToProxy, [d.proxy.value])];
    }
    if d.parent.Some? {
      node.fields := node.fields[ParentAccountID := I(d.parent.value)];
      edges := edges + [EdgeSpec(M2O, ToParent, [d.parent.value])];
    }
    if |d.children| > 0 {
      edges := edges + [EdgeSpec(O2M, ToChildren, d.children)];
    }
    spec := CreateSpec(fields, edges, None);
  }

  // -------------------------------------------------------------- storing and reading

  predicate SettableCell(c: Column, cell: Cell) {
    Settable(c) && Typed(c, cell) && cell != Null
  }

  // Go's types: every set field is a settable column holding a value of its type.
  ghost predicate WellTyped(d: Draft) {
    forall c :: c in d.fields ==> SettableCell(c, d.fields[c])
  }

  function PutAll(r: Row, fields: seq<(Column, Cell)>): Row {
    if fields == [] then r
    else
      var n := |fields| - 1;
      PutAll(r, fields[..n])[fields[n].0 := fields[n].1]
  }

  function ForeignKey(e: EdgeName): Option<Column> {
    match e
    case ToProxy => Some(ProxyID)
    case ToParent => Some(ParentAccountID)
    case _ => None
  }

  // A many-to-one edge is stored as a foreign key of the row itself.
  function PutKeys(r: Row, edges: seq<EdgeSpec>): Row {
    if edges == [] then r
    else
      var n := |edges| - 1;
      var e, rest := edges[n], PutKeys(r, edges[..n]);
      if e.rel == M2O && ForeignKey(e.edge).Some? && e.targets != [] then
        rest[ForeignKey(e.edge).value := I(e.targets[0])]
      else rest
  }

  // The row an insert of the specification stores.
  function StoredRow(spec: CreateSpec, id: int): Row {
    PutKeys(PutAll(map[], spec.fields), spec.edges)[ID := I(id)]
  }

  lemma OnlySnoc(order: seq<Column>, c: Column, f: Fields)
    ensures Only(order + [c], f) == if c in f then Only(order, f)[c := f[c]] else Only(order, f)
  {
  }

  lemma PutAllSnoc(r: Row, fields: seq<(Column, Cell)>, c: Column, v: Cell)
    ensures PutAll(r, fields + [(c, v)]) == PutAll(r, fields)[c := v]
  {
    assert (fields + [(c, v)])[..|fields|] == fields;
  }

  lemma SetFieldsSnoc(order: seq<Column>, c: Column, f: Fields)
    ensures SetFields(order + [c], f) == if c in f then SetFields(order, f) + [(c, f[c])] else SetFields(order, f)
  {
    assert (order + [c])[..|order|] == order;
  }

  lemma {:induction false} PutSetFields(order: seq<Column>, f: Fields)
    ensures PutAll(map[], SetFields(order, f)) == Only(order, f)
    decreases order
  {
    if order != [] {
      var init, c := order[..|order| - 1], order[|order| - 1];
      PutSetFields(init, f);
      assert order == init + [c];
      SetFieldsSnoc(init, c, f);
      OnlySnoc(init, c, f);
      if c in f {
        PutAllSnoc(map[], SetFields(init, f), c, f[c]);
      }
    }
  }

  lemma PutKeysSnoc(r: Row, edges: seq<EdgeSpec>, e: EdgeSpec)
    ensures PutKeys(r, edges + [e])
         == if e.rel == M2O && ForeignKey(e.edge).Some? && e.targets != [] then
              PutKeys(r, edges)[ForeignKey(e.edge).value := I(e.targets[0])]
            else PutKeys(r, edges)
  {
    assert (edges + [e])[..|edges|] == edges;
  }

  lemma PutKeysOne(r: Row, edges: seq<EdgeSpec>, rel: Rel, edge: EdgeName, targets: seq<int>)
    ensures PutKeys(r, edges + OneEdge(rel, edge, targets))
         == if rel == M2O && ForeignKey(edge).Some? && targets != [] then
              PutKeys(r, edges)[ForeignKey(edge).value := I(targets[0])]
            else PutKeys(r, edges)
  {
    if targets == [] {
      assert edges + [] == edges;
    } else {
      PutKeysSnoc(r, edges, EdgeSpec(rel, edge, targets));
    }
  }

  lemma StoredKeys(r: Row, d: Draft)
    ensures var proxied := if d.proxy.Some? then r[ProxyID := I(d.proxy.value)] else r;
            PutKeys(r, SpecOf(d).edges)
            == if d.parent.Some? then proxied[ParentAccountID := I(d.parent.value)] else proxied
  {
    var e1 := OneEdge(M2M, ToGroups, d.groups);
    var e2 := e1 + OneEdge(M2O, ToProxy, IDList(d.proxy));
    var e3 := e2 + OneEdge(M2O, ToParent, IDList(d.parent));
    assert [] + e1 == e1;
    PutKeysOne(r, [], M2M, ToGroups, d.groups);
    PutKeysOne(r, e1, M2O, ToProxy, IDList(d.proxy));
    PutKeysOne(r, e2, M2O, ToParent, IDList(d.parent));
    PutKeysOne(r, e3, O2M, ToChildren, d.children);
  }

  // The stored row is the entity with its ID.
  lemma StoredIsNode(d: Draft, id: int)
    ensures StoredRow(SpecOf(d), id) == NodeFields(d)[ID := I(id)]
  {
    PutSetFields(SPEC_ORDER, d.fields);
    StoredKeys(PutAll(map[], SpecOf(d).fields), d);
  }

  // What the database holds for an entity, and what reading it yields.
  ghost predicate Complete(made: Fields) {
    TypedRow(made) && ID in made && forall c :: c in made ==> made[c] != Null && ValidAccountColumn(c)
  }

  lemma ReadBack(made: Fields, columns: seq<Column>)
    requires Complete(made)
    ensures var again := ReadFields(columns, made);
            && (forall c :: c in columns ==> FieldOf(again, c) == FieldOf(made, c))
            && (forall c :: c !in columns ==> c !in again)
            && ((forall c :: c in made ==> c in columns) ==> again == made)
  {
  }

  lemma OnlySettable(order: seq<Column>, f: Fields)
    requires forall c :: c in f ==> SettableCell(c, f[c])
    ensures forall c :: c in Only(order, f) ==> SettableCell(c, Only(order, f)[c])
  {
  }

  lemma KeysComplete(own: Fields, proxy: Option<int>, parent: Option<int>, id: int)
    requires forall c :: c in own ==> SettableCell(c, own[c])
    ensures var proxied := if proxy.Some? then own[ProxyID := I(proxy.value)] else own;
            var made := if parent.Some? then proxied[ParentAccountID := I(parent.value)] else proxied;
            Complete(made[ID := I(id)])
  {
  }

  lemma NodeIsComplete(d: Draft, id: int)
    requires WellTyped(d)
    ensures Complete(NodeFields(d)[ID := I(id)])
  {
    OnlySettable(SPEC_ORDER, d.fields);
    KeysComplete(Only(SPEC_ORDER, d.fields), d.proxy, d.parent, id);
  }

  /** Create, store, read: whatever list of account columns is read back, each of them
      shows what the created entity shows, and the others were not assigned. */
  lemma RoundTrip(d: Draft, id: int, columns: seq<Column>)
    requires WellTyped(d)
    ensures TypedRow(StoredRow(SpecOf(d), id))
    ensures var made, again := NodeFields(d)[ID := I(id)], ReadFields(columns, StoredRow(SpecOf(d), id));
            && (forall c :: c in columns ==> FieldOf(again, c) == FieldOf(made, c))
            && (forall c :: c !in columns ==> c !in again)
            && ((forall c :: c in made ==> c in columns) ==> again == made)
  {
    StoredIsNode(d, id);
    NodeIsComplete(d, id);
    ReadBack(NodeFields(d)[ID := I(id)], columns);
  }

  lemma EveryColumn(d: Draft, id: int)
    requires WellTyped(d)
    ensures forall c :: c in NodeFields(d)[ID := I(id)] ==> c in ACCOUNT_COLUMNS
    ensures forall c :: c in ACCOUNT_COLUMNS ==> ValidAccountColumn(c)
  {
    NodeIsComplete(d, id);
    forall c | ValidAccountColumn(c) ensures c in ACCOUNT_COLUMNS { AllListed(c); }
    forall c | c in ACCOUNT_COLUMNS ensures ValidAccountColumn(c) { ValidColumns(c); }
  }

  /** The same with the objects: the entity createSpec returned, once it has its ID, and
      the one read back with every column are equal field by field. */
  method CreateAndReadBack(d: Draft, id: int) returns (made: AccountEntity, again: AccountEntity)
    requires WellTyped(d)
    ensures fresh(made) && fresh(again) && made != again && again.fields == made.fields
  {
    var spec;
    made, spec := CreateSpecFrom(d);
    made.fields := made.fields[ID := I(id)];
    RoundTrip(d, id, ACCOUNT_COLUMNS);
    EveryColumn(d, id);
    again := Read(ACCOUNT_COLUMNS, StoredRow(spec, id));
  }

  /** The keys the eager loaders follow are the entity's own ID and pointer fields. */
  lemma KeysOfEntity(columns: seq<Column>, r: Row)
    requires TypedRow(r)
    ensures var f, read := ReadFields(columns, r), EagerSpec.ReadRow(Some(columns), r);
            && FieldOf(f, ID) == I(EagerSpec.KeyOrZero(read, ID))
            && (FieldOf(f, ProxyID) == match Key(read, ProxyID) case Some(k) => I(k) case None => Null)
            && (FieldOf(f, ParentAccountID) == match Key(read, ParentAccountID) case Some(k) => I(k) case None => Null)
  {
    assert Key(r, ID).Some? <==> ID in r && r[ID] != Null;
    assert Key(r, ProxyID).Some? <==> ProxyID in r && r[ProxyID] != Null;
    assert Key(r, ParentAccountID).Some? <==> ParentAccountID in r && r[ParentAccountID] != Null;
  }
}

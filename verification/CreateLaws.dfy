/**
 What the tables of the create builder amount to, column by column: which columns are
 required, validated and given a default, in which order, and what a create stores.
 */
module CreateLaws {
  import opened Wrappers
  import opened Schema
  import opened AccountRow
  import opened CreateBuilder
  import EagerSpec

  // ---------------------------------------------------------------- the order of columns

  // Where account.Columns has the column.
  function Position(c: Column): nat {
    match c
    case ID => 0
    case CreatedAt => 1
    case UpdatedAt => 2
    case DeletedAt => 3
    case Name => 4
    case Notes => 5
    case Platform => 6
    case Type => 7
    case Credentials => 8
    case Extra => 9
    case ProxyID => 10
    case ProxyFallbackOriginID => 11
    case Concurrency => 12
    case LoadFactor => 13
    case Priority => 14
    case RateMultiplier => 15
    case Status => 16
    case ErrorMessage => 17
    case LastUsedAt => 18
    case ExpiresAt => 19
    case AutoPauseOnExpired => 20
    case Schedulable => 21
    case RateLimitedAt => 22
    case RateLimitResetAt => 23
    case OverloadUntil => 24
    case TempUnschedulableUntil => 25
    case TempUnschedulableReason => 26
    case SessionWindowStart => 27
    case SessionWindowEnd => 28
    case SessionWindowStatus => 29
    case ParentAccountID => 30
    case QuotaDimension => 31
    case _ => 32
  }

  lemma ColumnPositions(i: nat)
    requires i < |ACCOUNT_COLUMNS|
    ensures |ACCOUNT_COLUMNS| == 32 && Position(ACCOUNT_COLUMNS[i]) == i
  {
  }

  ghost predicate Ascending(cs: seq<Column>) {
    forall i, j :: 0 <= i < j < |cs| ==> Position(cs[i]) < Position(cs[j])
  }

  ghost predicate Steps(cs: seq<Column>) {
    forall i {:trigger cs[i]} :: 0 < i < |cs| ==> Position(cs[i - 1]) < Position(cs[i])
  }

  lemma {:induction false} StepsBetween(cs: seq<Column>, i: nat, j: nat)
    requires Steps(cs) && i < j < |cs|
    ensures Position(cs[i]) < Position(cs[j])
    decreases j
  {
    assert Position(cs[j - 1]) < Position(cs[j]);
    if i < j - 1 { StepsBetween(cs, i, j - 1); }
  }

  lemma StepsAscend(cs: seq<Column>)
    requires Steps(cs)
    ensures Ascending(cs)
  {
    forall i, j | 0 <= i < j < |cs| ensures Position(cs[i]) < Position(cs[j]) {
      StepsBetween(cs, i, j);
    }
  }

  // ------------------------------------------------------------------------ required columns

  // A create needs it set: the struct fields that are not pointers, and the two JSON columns.
  predicate Needed(c: Column) {
    (Required(c) && c != ID) || c.Credentials? || c.Extra?
  }

  predicate HasValidator(c: Column) {
    c.Name? || c.Platform? || c.Type? || c.Status? || c.SessionWindowStatus? || c.QuotaDimension?
  }

  // The needed columns that have no default.
  predicate FromCaller(c: Column) {
    c.Name? || c.Platform? || c.Type?
  }

  // What check asks of one column.
  predicate Passes(f: Fields, c: Column, valid: (Column, Cell) -> bool) {
    (Needed(c) ==> c in f) && (HasValidator(c) && c in f ==> valid(c, f[c]))
  }

  lemma RuleFound(c: Column)
    requires Needed(c) || HasValidator(c)
    ensures Rule(c, Needed(c), HasValidator(c)) in RULES
  {
  }

  lemma RuleAt(i: nat)
    requires i < |RULES|
    ensures RULES[i] == Rule(RULES[i].col, Needed(RULES[i].col), HasValidator(RULES[i].col))
  {
  }

  lemma RuleStep(i: nat)
    requires 0 < i < |RULES|
    ensures Position(RULES[i - 1].col) < Position(RULES[i].col)
  {
  }

  function RuleColumns(rules: seq<Rule>): (cs: seq<Column>)
    ensures |cs| == |rules| && forall i {:trigger cs[i]} :: 0 <= i < |cs| ==> cs[i] == rules[i].col
  {
    seq(|rules|, i requires 0 <= i < |rules| => rules[i].col)
  }

  lemma RulesAscend()
    ensures Ascending(RuleColumns(RULES))
  {
    var cs := RuleColumns(RULES);
    forall i | 0 < i < |cs| ensures Position(cs[i - 1]) < Position(cs[i]) {
      RuleStep(i);
    }
    StepsAscend(cs);
  }

  lemma BrokenRule(f: Fields, i: nat, valid: (Column, Cell) -> bool)
    requires i < |RULES|
    ensures Broken(f, RULES[i], valid).None? <==> Passes(f, RULES[i].col, valid)
  {
    RuleAt(i);
  }

  lemma {:induction false} FirstBroken(f: Fields, rules: seq<Rule>, valid: (Column, Cell) -> bool) returns (k: nat)
    requires CheckRules(f, rules, valid).Some?
    ensures k < |rules| && CheckRules(f, rules, valid) == Broken(f, rules[k], valid)
    ensures forall j :: 0 <= j < k ==> Broken(f, rules[j], valid).None?
    decreases rules
  {
    k := 0;
    if Broken(f, rules[0], valid).None? {
      var j := FirstBroken(f, rules[1..], valid);
      k := j + 1;
      assert forall x :: 0 < x < |rules| ==> rules[x] == rules[1..][x - 1];
    }
  }

  /** check passes iff every required column is set and every validated one, where it is set,
      is valid. */
  lemma CheckNamed(f: Fields, valid: (Column, Cell) -> bool)
    ensures Check(f, valid).None? <==> forall c :: Passes(f, c, valid)
  {
    CheckExact(f, RULES, valid);
    if Check(f, valid).None? {
      forall c ensures Passes(f, c, valid) {
        if Needed(c) || HasValidator(c) {
          RuleFound(c);
          assert Broken(f, Rule(c, Needed(c), HasValidator(c)), valid).None?;
        }
      }
    } else {
      var k := FirstBroken(f, RULES, valid);
      BrokenRule(f, k, valid);
    }
  }

  /** And otherwise it reports the first column, in the order of the table, that does not. */
  lemma CheckReportsFirst(f: Fields, valid: (Column, Cell) -> bool)
    requires Check(f, valid).Some?
    ensures match Check(f, valid).value
            case Missing(c) => Needed(c) && c !in f
            case Invalid(c) => HasValidator(c) && c in f && !valid(c, f[c])
    ensures forall d :: Position(d) < Position(Check(f, valid).value.col) ==> Passes(f, d, valid)
  {
    var k := FirstBroken(f, RULES, valid);
    RuleAt(k);
    RulesAscend();
    forall d | Position(d) < Position(RULES[k].col) ensures Passes(f, d, valid) {
      if Needed(d) || HasValidator(d) {
        RuleFound(d);
        var j :| 0 <= j < |RULES| && RULES[j] == Rule(d, Needed(d), HasValidator(d));
        PositionBefore(RuleColumns(RULES), j, k);
        BrokenRule(f, j, valid);
      }
    }
  }

  lemma PositionBefore(cs: seq<Column>, j: nat, k: nat)
    requires Ascending(cs) && j < |cs| && k < |cs|
    ensures Position(cs[j]) < Position(cs[k]) ==> j < k
  {
    if k < j { assert Position(cs[k]) < Position(cs[j]); }
  }

  // ------------------------------------------------------------------------------- defaults

  lemma DefaultFound(c: Column)
    requires Needed(c) && !FromCaller(c)
    ensures c in DEFAULTED
  {
  }

  lemma DefaultAt(i: nat)
    requires i < |DEFAULTED|
    ensures Needed(DEFAULTED[i]) && !FromCaller(DEFAULTED[i])
  {
  }

  lemma DefaultStep(i: nat)
    requires 0 < i < |DEFAULTED|
    ensures Position(DEFAULTED[i - 1]) < Position(DEFAULTED[i])
  {
  }

  /** Every required column except the three that the caller has to set has a default, and
      nothing else has. */
  lemma DefaultedExactly(c: Column)
    ensures c in DEFAULTED <==> Needed(c) && !FromCaller(c)
  {
    if c in DEFAULTED {
      var i :| 0 <= i < |DEFAULTED| && DEFAULTED[i] == c;
      DefaultAt(i);
    } else if Needed(c) && !FromCaller(c) {
      DefaultFound(c);
    }
  }

  // The times and the JSON columns; the other defaults are constants.
  predicate NeedsRuntime(c: Column) {
    Needed(c) && (HolderKind(c).KTime? || HolderKind(c).KBytes?)
  }

  lemma RuntimeExactly(c: Column)
    ensures FromRuntime(c) <==> NeedsRuntime(c)
  {
  }

  /** defaults() fails iff a required time or JSON column is neither set nor has its default
      installed. */
  lemma DefaultsFailExactly(f: Fields, given: Fields)
    ensures WithDefaults(f, DEFAULTED, given).1.None? <==> forall c :: NeedsRuntime(c) ==> c in f || c in given
  {
    DefaultsFill(f, DEFAULTED, given);
    var (g, err) := WithDefaults(f, DEFAULTED, given);
    if err.None? {
      forall c | NeedsRuntime(c) ensures c in f || c in given {
        RuntimeExactly(c);
        DefaultFound(c);
      }
    } else {
      RuntimeExactly(err.value);
    }
  }

  // What a column holds after defaults() went through.
  function Filled(f: Fields, c: Column, given: Fields): Cell {
    if c in f then f[c] else if c in given then given[c] else Zero(c)
  }

  /** defaults() column by column: without an error each default column holds what the caller
      set or else what its default yields, with one so do those before the column it names. */
  lemma DefaultsByColumn(f: Fields, given: Fields, c: Column)
    requires Needed(c) && !FromCaller(c)
    ensures var (g, err) := WithDefaults(f, DEFAULTED, given);
            err.None? || Position(c) < Position(err.value) ==> c in g && g[c] == Filled(f, c, given)
  {
    DefaultFound(c);
    DefaultsFill(f, DEFAULTED, given);
    var (g, err) := WithDefaults(f, DEFAULTED, given);
    if err.Some? && Position(c) < Position(err.value) {
      var i := DefaultsStop(f, DEFAULTED, given);
      var j :| 0 <= j < |DEFAULTED| && DEFAULTED[j] == c;
      DefaultsAscend(DEFAULTED);
      PositionBefore(DEFAULTED, j, i);
    }
  }

  lemma DefaultsAscend(cs: seq<Column>)
    requires cs == DEFAULTED
    ensures Ascending(cs)
  {
    forall i | 0 < i < |cs| ensures Position(cs[i - 1]) < Position(cs[i]) {
      DefaultStep(i);
    }
    StepsAscend(cs);
  }

  /** The two tables fit together: once defaults() went through, a mutation with a name, a
      platform and a type fails the check only for an invalid value. */
  lemma DefaultsSatisfyCheck(f: Fields, given: Fields, valid: (Column, Cell) -> bool)
    requires Name in f && Platform in f && Type in f && WithDefaults(f, DEFAULTED, given).1.None?
    ensures var g := WithDefaults(f, DEFAULTED, given).0;
            Check(g, valid).None? <==> forall c :: HasValidator(c) && c in g ==> valid(c, g[c])
  {
    var g := WithDefaults(f, DEFAULTED, given).0;
    CheckNamed(g, valid);
    DefaultsFill(f, DEFAULTED, given);
    forall c | Needed(c) ensures c in g {
      if !FromCaller(c) { DefaultFound(c); }
    }
    forall c ensures Passes(g, c, valid) <==> (HasValidator(c) && c in g ==> valid(c, g[c])) {
    }
  }

  // ------------------------------------------------------------------------ what is stored

  /** The row a create stores, column by column. */
  lemma StoredColumn(d: Draft, id: int, c: Column)
    ensures CellAt(StoredRow(SpecOf(d), id), c)
         == match c
            case ID => I(id)
            case ProxyID => if d.proxy.Some? then I(d.proxy.value) else Null
            case ParentAccountID => if d.parent.Some? then I(d.parent.value) else Null
            case _ => if ValidAccountColumn(c) && c in d.fields then d.fields[c] else Null
  {
    StoredIsNode(d, id);
    NodeIsMade(d, Some(id));
    assert FieldMade(WithID(NodeFields(d), Some(id)), d, Some(id), c);
  }

  /** A column that the caller left out is stored with what its default yields: a new account
      without a rate multiplier gets the default one. */
  lemma DefaultIsStored(d: Draft, given: Fields, id: int, c: Column)
    requires WithDefaults(d.fields, DEFAULTED, given).1.None? && Needed(c) && !FromCaller(c)
    ensures var filled := d.(fields := WithDefaults(d.fields, DEFAULTED, given).0);
            CellAt(StoredRow(SpecOf(filled), id), c) == Filled(d.fields, c, given)
  {
    DefaultsByColumn(d.fields, given, c);
    StoredColumn(d.(fields := WithDefaults(d.fields, DEFAULTED, given).0), id, c);
  }

  // The targets an insert specification has over an edge.
  function Targets(edges: seq<EdgeSpec>, edge: EdgeName): set<int> {
    set i, x | 0 <= i < |edges| && edges[i].edge == edge && x in edges[i].targets :: x
  }

  function Members(ids: seq<int>): set<int> {
    set x | x in ids
  }

  // Groups through the junction table, children by the key in their own rows, the proxy and
  // the parent by a key in this one.
  function RelOf(edge: EdgeName): Rel {
    match edge
    case ToGroups => M2M
    case ToChildren => O2M
    case _ => M2O
  }

  lemma TargetsConcat(xs: seq<EdgeSpec>, ys: seq<EdgeSpec>, edge: EdgeName)
    ensures Targets(xs + ys, edge) == Targets(xs, edge) + Targets(ys, edge)
  {
    var all := xs + ys;
    forall x | x in Targets(xs, edge) ensures x in Targets(all, edge) {
      var i :| 0 <= i < |xs| && xs[i].edge == edge && x in xs[i].targets;
      assert all[i] == xs[i];
    }
    forall x | x in Targets(ys, edge) ensures x in Targets(all, edge) {
      var i :| 0 <= i < |ys| && ys[i].edge == edge && x in ys[i].targets;
      assert all[|xs| + i] == ys[i];
    }
  }

  lemma TargetsOfOne(rel: Rel, to: EdgeName, ids: seq<int>, edge: EdgeName)
    ensures Targets(OneEdge(rel, to, ids), edge) == if edge == to then Members(ids) else {}
  {
    var one := OneEdge(rel, to, ids);
    if edge == to {
      forall x | x in ids ensures x in Targets(one, edge) {
        assert one[0] == EdgeSpec(rel, to, ids);
      }
    }
  }

  /** The edges of a new account: its groups, proxy, parent and children are those of the
      draft, each written the way its relation is stored. */
  lemma NewEdges(d: Draft)
    ensures var edges := SpecOf(d).edges;
            && Targets(edges, ToGroups) == Members(d.groups)
            && Targets(edges, ToChildren) == Members(d.children)
            && Targets(edges, ToProxy) == (if d.proxy.Some? then {d.proxy.value} else {})
            && Targets(edges, ToParent) == (if d.parent.Some? then {d.parent.value} else {})
            && forall i :: 0 <= i < |edges| ==> edges[i].rel == RelOf(edges[i].edge)
  {
    EdgeTargets(d, ToGroups);
    EdgeTargets(d, ToProxy);
    EdgeTargets(d, ToParent);
    EdgeTargets(d, ToChildren);
  }

  lemma EdgeTargets(d: Draft, edge: EdgeName)
    ensures Targets(SpecOf(d).edges, edge)
         == match edge
            case ToGroups => Members(d.groups)
            case ToProxy => Members(IDList(d.proxy))
            case ToParent => Members(IDList(d.parent))
            case ToChildren => Members(d.children)
  {
    var g, p := OneEdge(M2M, ToGroups, d.groups), OneEdge(M2O, ToProxy, IDList(d.proxy));
    var a, k := OneEdge(M2O, ToParent, IDList(d.parent)), OneEdge(O2M, ToChildren, d.children);
    TargetsConcat(g + p + a, k, edge);
    TargetsConcat(g + p, a, edge);
    TargetsConcat(g, p, edge);
    TargetsOfOne(M2M, ToGroups, d.groups, edge);
    TargetsOfOne(M2O, ToProxy, IDList(d.proxy), edge);
    TargetsOfOne(M2O, ToParent, IDList(d.parent), edge);
    TargetsOfOne(O2M, ToChildren, d.children, edge);
  }

  // ------------------------------------------------------------------ entities and answers

  /** The zero value of a struct field: nil for a pointer, and otherwise the zero of its type. */
  lemma ZeroExact(c: Column)
    ensures Required(c) ==>
              Typed(c, Zero(c)) && Zero(c) in {I(0), S(""), T(0), F(0.0), B(false)} && ValidAccountColumn(c)
    ensures !Required(c) ==> Zero(c) == Null
  {
  }

  /** The struct fields of an entity and the row the loaders see of it agree on every column:
      a field shows the cell, or its zero value where the row has none. */
  lemma FieldsOfEntity(columns: seq<Column>, r: Row, c: Column)
    requires TypedRow(r) && c != ID
    ensures FieldOf(ReadFields(columns, r), c) == Shown(c, CellAt(EagerSpec.ReadRow(Some(columns), r), c))
    ensures c in columns ==> FieldOf(ReadFields(columns, r), c) == Shown(c, CellAt(r, c))
  {
  }
}

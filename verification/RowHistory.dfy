/**
 created_at over whole runs: which columns an update writes, how an upsert resolves a
 conflict, and why a stored creation time survives both.
 */
module RowHistory {
  import opened Wrappers
  import opened Schema
  import opened AccountRow
  import opened CreateBuilder
  import opened AccountUpdate

  // ------------------------------------------------------------- the columns of an update

  lemma InSnoc(order: seq<Column>, c: Column)
    requires order != []
    ensures c in order <==> c in order[..|order| - 1] || c == order[|order| - 1]
  {
    assert order == order[..|order| - 1] + [order[|order| - 1]];
  }

  lemma {:induction false} SetsPut(order: seq<Column>, f: Fields, r: Row, c: Column)
    ensures CellAt(PutAll(r, SetFields(order, f)), c) == if c in order && c in f then f[c] else CellAt(r, c)
    decreases order
  {
    if order != [] {
      InSnoc(order, c);
      SetsPut(order[..|order| - 1], f, r, c);
      SetsPutLast(order, f, r);
    }
  }

  lemma SetsPutLast(order: seq<Column>, f: Fields, r: Row)
    requires order != []
    ensures var n := |order| - 1;
            var before := PutAll(r, SetFields(order[..n], f));
            PutAll(r, SetFields(order, f)) == if order[n] in f then before[order[n] := f[order[n]]] else before
  {
    var init, c := order[..|order| - 1], order[|order| - 1];
    assert order == init + [c];
    SetFieldsSnoc(init, c, f);
    if c in f {
      PutAllSnoc(r, SetFields(init, f), c, f[c]);
    }
  }

  lemma NullAllSnoc(r: Row, cs: seq<Column>, c: Column)
    ensures NullAll(r, cs + [c]) == NullAll(r, cs)[c := Null]
  {
    assert (cs + [c])[..|cs|] == cs;
  }

  lemma ColumnsInSnoc(order: seq<Column>, c: Column, cs: set<Column>)
    ensures ColumnsIn(order + [c], cs) == if c in cs then ColumnsIn(order, cs) + [c] else ColumnsIn(order, cs)
  {
    assert (order + [c])[..|order|] == order;
  }

  lemma {:induction false} ClearsNull(order: seq<Column>, cs: set<Column>, r: Row, c: Column)
    ensures CellAt(NullAll(r, ColumnsIn(order, cs)), c) == if c in order && c in cs then Null else CellAt(r, c)
    decreases order
  {
    if order != [] {
      var init, d := order[..|order| - 1], order[|order| - 1];
      ClearsNull(init, cs, r, c);
      InSnoc(order, c);
      assert order == init + [d];
      ColumnsInSnoc(init, d, cs);
      NullAllSnoc(r, ColumnsIn(init, cs), d);
    }
  }

  function Sums(was: Row, f: Fields): Fields {
    map c | c in f :: Sum(CellAt(was, c), f[c])
  }

  lemma {:induction false} SummedFields(order: seq<Column>, f: Fields, was: Row)
    ensures Summed(was, SetFields(order, f)) == SetFields(order, Sums(was, f))
    decreases order
  {
    if order != [] {
      var n := |order| - 1;
      SummedFields(order[..n], f, was);
      var before := SetFields(order[..n], f);
      if order[n] in f {
        var last := (order[n], f[order[n]]);
        assert Summed(was, before + [last]) == Summed(was, before) + [(order[n], Sums(was, f)[order[n]])];
      } else {
        assert SetFields(order, f) == before;
      }
    }
  }

  lemma {:induction false} KeysConcat(r: Row, xs: seq<EdgeOp>, ys: seq<EdgeOp>)
    ensures NullKeys(r, xs + ys) == NullKeys(NullKeys(r, xs), ys) && SetKeys(r, xs + ys) == SetKeys(SetKeys(r, xs), ys)
  {
    if ys == [] {
      assert xs + ys == xs;
    } else {
      KeysConcat(r, xs, ys[..|ys| - 1]);
      assert (xs + ys)[..|xs + ys| - 1] == xs + ys[..|ys| - 1];
    }
  }

  lemma {:induction false} NoKeys(r: Row, ops: seq<EdgeOp>, edge: EdgeName)
    requires OnlyEdge(ops, edge) && ForeignKey(edge).None?
    ensures NullKeys(r, ops) == r && SetKeys(r, ops) == r
  {
    if ops != [] { NoKeys(r, ops[..|ops| - 1], edge); }
  }

  lemma FourKeys(r: Row, g: seq<EdgeOp>, p: seq<EdgeOp>, a: seq<EdgeOp>, k: seq<EdgeOp>)
    requires OnlyEdge(g, ToGroups) && OnlyEdge(k, ToChildren)
    ensures NullKeys(r, g + (p + (a + k))) == NullKeys(NullKeys(r, p), a)
    ensures SetKeys(r, g + (p + (a + k))) == SetKeys(SetKeys(r, p), a)
  {
    KeysConcat(r, g, p + (a + k));
    NoKeys(r, g, ToGroups);
    KeysConcat(r, p, a + k);
    KeysConcat(NullKeys(r, p), a, k);
    KeysConcat(SetKeys(r, p), a, k);
    NoKeys(NullKeys(NullKeys(r, p), a), k, ToChildren);
    NoKeys(SetKeys(SetKeys(r, p), a), k, ToChildren);
  }

  // Only the key edges touch the row itself.
  lemma SpecKeys(r: Row, spec: UpdateSpec, c: Change)
    requires Specifies(spec, c)
    ensures NullKeys(r, spec.clearEdges)
         == NullKeys(NullKeys(r, KeyClear(ToProxy, c.proxy)), KeyClear(ToParent, c.parent))
    ensures SetKeys(r, spec.addEdges) == SetKeys(SetKeys(r, KeyAdd(ToProxy, c.proxy)), KeyAdd(ToParent, c.parent))
  {
    var groups, children :| Parts(spec, c, groups, children);
    OwnEdge({}, groups.0, groups.1, ToGroups, c.groups);
    OwnEdge({}, children.0, children.1, ToChildren, c.children);
    FourKeys(r, groups.0, KeyClear(ToProxy, c.proxy), KeyClear(ToParent, c.parent), children.0);
    FourKeys(r, groups.1, KeyAdd(ToProxy, c.proxy), KeyAdd(ToParent, c.parent), children.1);
  }

  // What NullKeys and SetKeys leave in any column.
  lemma KeyColumns(r: Row, spec: UpdateSpec, c: Change, col: Column)
    requires Specifies(spec, c)
    ensures CellAt(NullKeys(r, spec.clearEdges), col) == ClearedKey(CellAt(r, col), c, col)
    ensures CellAt(SetKeys(r, spec.addEdges), col) == AddedKey(CellAt(r, col), c, col)
  {
    SpecKeys(r, spec, c);
    KeyColumnsOf(r, c.proxy, c.parent, c, col);
  }

  lemma KeyColumnsOf(r: Row, p: KeyChange, a: KeyChange, c: Change, col: Column)
    requires c.proxy == p && c.parent == a
    ensures CellAt(NullKeys(NullKeys(r, KeyClear(ToProxy, p)), KeyClear(ToParent, a)), col)
         == ClearedKey(CellAt(r, col), c, col)
    ensures CellAt(SetKeys(SetKeys(r, KeyAdd(ToProxy, p)), KeyAdd(ToParent, a)), col)
         == AddedKey(CellAt(r, col), c, col)
  {
    OneKeyColumn(r, ToProxy, ProxyID, p, col);
    OneKeyColumn(NullKeys(r, KeyClear(ToProxy, p)), ToParent, ParentAccountID, a, col);
    OneKeyColumn(SetKeys(r, KeyAdd(ToProxy, p)), ToParent, ParentAccountID, a, col);
  }

  function ClearedKey(was: Cell, c: Change, col: Column): Cell {
    if (col == ProxyID && c.proxy.Cleared()) || (col == ParentAccountID && c.parent.Cleared()) then Null else was
  }

  function AddedKey(was: Cell, c: Change, col: Column): Cell {
    if col == ProxyID && c.proxy.id.Some? then I(c.proxy.id.value)
    else if col == ParentAccountID && c.parent.id.Some? then I(c.parent.id.value)
    else was
  }

  lemma OneKeyColumn(r: Row, edge: EdgeName, key: Column, k: KeyChange, col: Column)
    requires ForeignKey(edge) == Some(key)
    ensures CellAt(NullKeys(r, KeyClear(edge, k)), col) == if col == key && k.Cleared() then Null else CellAt(r, col)
    ensures CellAt(SetKeys(r, KeyAdd(edge, k)), col)
         == if col == key && k.id.Some? then I(k.id.value) else CellAt(r, col)
  {
    KeyNulled(r, edge, key, k);
    KeySet(r, edge, key, k);
  }

  lemma KeyNulled(r: Row, edge: EdgeName, key: Column, k: KeyChange)
    requires ForeignKey(edge) == Some(key)
    ensures NullKeys(r, KeyClear(edge, k)) == if k.Cleared() then r[key := Null] else r
  {
    if k.Cleared() { assert KeyClear(edge, k)[..0] == []; }
  }

  lemma KeySet(r: Row, edge: EdgeName, key: Column, k: KeyChange)
    requires ForeignKey(edge) == Some(key)
    ensures SetKeys(r, KeyAdd(edge, k)) == if k.id.Some? then r[key := I(k.id.value)] else r
  {
    if k.id.Some? { assert KeyAdd(edge, k)[..0] == []; }
  }

  // The cell an update leaves in an updatable column.
  function UpdatedCell(was: Cell, col: Column, c: Change): Cell {
    if Addable(col) && col in c.added then Sum(was, c.added[col])
    else if col in c.fields then c.fields[col]
    else if Clearable(col) && col in c.clearedFields then Null
    else was
  }

  lemma ScalarColumn(r: Row, was: Row, spec: UpdateSpec, c: Change, order: seq<Column>, col: Column)
    requires spec.sets == SetFields(order, c.fields) && spec.adds == SetFields(order, Additions(c.added))
             && spec.clears == ColumnsIn(order, Clears(c.clearedFields))
    requires CellAt(r, col) == CellAt(was, col) || col !in order
    ensures CellAt(PutAll(PutAll(NullAll(r, spec.clears), spec.sets), Summed(was, spec.adds)), col)
         == if col in order then UpdatedCell(CellAt(was, col), col, c) else CellAt(r, col)
  {
    ClearsNull(order, Clears(c.clearedFields), r, col);
    SetsPut(order, c.fields, NullAll(r, spec.clears), col);
    SummedFields(order, Additions(c.added), was);
    SetsPut(order, Sums(was, Additions(c.added)), PutAll(NullAll(r, spec.clears), spec.sets), col);
  }

  lemma OwnColumnsNotUpdatable()
    ensures CreatedAt !in UPDATABLE && ID !in UPDATABLE
  {
  }

  lemma KeysNotUpdatable()
    ensures ProxyID !in UPDATABLE && ParentAccountID !in UPDATABLE
  {
  }

  lemma StampIsUpdatable()
    ensures UpdatedAt in UPDATABLE
  {
    assert UPDATABLE[0] == UpdatedAt;
  }

  /** Every column of a matched row after an update, for every change: the keys follow the
      edges, the updatable columns follow the change, and no other column is written, even
      when the mutation has it set. */
  lemma ColumnsAfterUpdate(r: Row, spec: UpdateSpec, c: Change, col: Column)
    requires Specifies(spec, c)
    ensures CellAt(RowAfter(r, spec), col)
         == if col == ProxyID then WantedKey(CellAt(r, col), c.proxy)
            else if col == ParentAccountID then WantedKey(CellAt(r, col), c.parent)
            else if col in UPDATABLE then UpdatedCell(CellAt(r, col), col, c)
            else CellAt(r, col)
  {
    KeysNotUpdatable();
    ColumnSteps(r, spec, c, UPDATABLE, col);
  }

  lemma ColumnSteps(r: Row, spec: UpdateSpec, c: Change, order: seq<Column>, col: Column)
    requires Specifies(spec, c) && ProxyID !in order && ParentAccountID !in order
    requires spec.sets == SetFields(order, c.fields) && spec.adds == SetFields(order, Additions(c.added))
             && spec.clears == ColumnsIn(order, Clears(c.clearedFields))
    ensures CellAt(RowAfter(r, spec), col)
         == if col == ProxyID then WantedKey(CellAt(r, col), c.proxy)
            else if col == ParentAccountID then WantedKey(CellAt(r, col), c.parent)
            else if col in order then UpdatedCell(CellAt(r, col), col, c)
            else CellAt(r, col)
  {
    var r1 := NullKeys(r, spec.clearEdges);
    KeyColumns(r, spec, c, col);
    ScalarColumn(r1, r, spec, c, order, col);
    KeyColumns(PutAll(PutAll(NullAll(r1, spec.clears), spec.sets), Summed(r, spec.adds)), spec, c, col);
  }

  /** No update writes created_at, not even one whose mutation has it set. */
  lemma UpdateKeepsCreatedAt(r: Row, spec: UpdateSpec, c: Change)
    requires Specifies(spec, c)
    ensures CellAt(RowAfter(r, spec), CreatedAt) == CellAt(r, CreatedAt)
  {
    OwnColumnsNotUpdatable();
    ColumnsAfterUpdate(r, spec, c, CreatedAt);
  }

  /** An update whose defaults ran stamps every row it touches. */
  lemma UpdateStampsUpdatedAt(r: Row, spec: UpdateSpec, c: Change)
    requires Specifies(spec, c) && UpdatedAt in c.fields
    ensures CellAt(RowAfter(r, spec), UpdatedAt) == c.fields[UpdatedAt]
  {
    StampIsUpdatable();
    ColumnsAfterUpdate(r, spec, c, UpdatedAt);
  }

  // --------------------------------------------------------------------- upsert options

  // What an upsert writes to a column on a conflict.
  datatype Assign = Self | Excluded | Value(cell: Cell) | Plus(cell: Cell) | SetNull

  // sql.ConflictOption.  KeepCreatedAt is the closure UpdateNewValues appends; it looks at
  // the mutations when the statement is built.
  datatype ConflictOption =
    | ConflictColumns
    | ResolveWithNewValues
    | ResolveWithIgnore
    | DoNothing
    | ResolveWith(sets: map<Column, Assign>)
    | KeepCreatedAt

  // The methods of AccountUpsertOne and AccountUpsertBulk; Update's typed setters exist for
  // every column but id and created_at.
  datatype UpsertCall = UpdateNewValues | Ignore | Nothing | Update(sets: map<Column, Assign>)

  predicate TypedSets(sets: map<Column, Assign>) {
    CreatedAt !in sets
  }

  function OptionsOf(call: UpsertCall): seq<ConflictOption> {
    match call
    case UpdateNewValues => [ResolveWithNewValues, KeepCreatedAt]
    case Ignore => [ResolveWithIgnore]
    case Nothing => [DoNothing]
    case Update(sets) => [ResolveWith(sets)]
  }

  // OnConflict(opts...) followed by calls on the upsert builder
  function OptionsAfter(opts: seq<ConflictOption>, calls: seq<UpsertCall>): seq<ConflictOption> {
    if calls == [] then opts else OptionsAfter(opts, calls[..|calls| - 1]) + OptionsOf(calls[|calls| - 1])
  }

  // The SET clause the options build over the inserted columns, a later assignment of a
  // column replacing an earlier one.
  function UpdateSet(opts: seq<ConflictOption>, columns: set<Column>, drafts: seq<Draft>): map<Column, Assign> {
    if opts == [] then map[]
    else AfterOption(UpdateSet(opts[..|opts| - 1], columns, drafts), opts[|opts| - 1], columns, drafts)
  }

  function AfterOption(
      before: map<Column, Assign>, o: ConflictOption, columns: set<Column>, drafts: seq<Draft>): map<Column, Assign> {
    match o
    case ResolveWithNewValues => before + map c | c in columns :: Excluded
    case ResolveWithIgnore => before + map c | c in columns :: Self
    case ResolveWith(sets) => before + sets
    case KeepCreatedAt => if AnyCreatedAt(drafts) then before[CreatedAt := Self] else before
    case _ => before
  }

  // Some builder of the statement has created_at set.
  predicate AnyCreatedAt(drafts: seq<Draft>) {
    exists i :: 0 <= i < |drafts| && CreatedAt in drafts[i].fields
  }

  function Resolved(was: Cell, proposed: Cell, a: Assign): Cell {
    match a
    case Self => was
    case Excluded => proposed
    case Value(x) => x
    case Plus(x) => Sum(was, x)
    case SetNull => Null
  }

  // The row a conflict leaves behind.
  function OnConflict(
      was: Row, proposed: Row, opts: seq<ConflictOption>, columns: set<Column>, drafts: seq<Draft>): Row {
    var sets := UpdateSet(opts, columns, drafts);
    if DoNothing in opts then was
    else
      map c | c in was.Keys + sets.Keys ::
        if c in sets then Resolved(CellAt(was, c), CellAt(proposed, c), sets[c]) else was[c]
  }

  // The options leave created_at alone: no ResolveWithNewValues has the last word on it.
  predicate Keeps(opts: seq<ConflictOption>) {
    DoNothing in opts || !LastWordIsNew(opts)
  }

  predicate LastWordIsNew(opts: seq<ConflictOption>) {
    exists i :: 0 <= i < |opts| && opts[i].ResolveWithNewValues?
             && forall j :: i < j < |opts| ==> !opts[j].ResolveWithIgnore? && !opts[j].KeepCreatedAt?
  }

  predicate TypedOptions(opts: seq<ConflictOption>) {
    forall i :: 0 <= i < |opts| && opts[i].ResolveWith? ==> TypedSets(opts[i].sets)
  }

  lemma {:induction false} CreatedAtAssignment(opts: seq<ConflictOption>, columns: set<Column>, drafts: seq<Draft>)
    requires TypedOptions(opts) && CreatedAt in columns && AnyCreatedAt(drafts)
    ensures var sets := UpdateSet(opts, columns, drafts);
            if LastWordIsNew(opts) then CreatedAt in sets && sets[CreatedAt] == Excluded
            else CreatedAt in sets ==> sets[CreatedAt] == Self
  {
    if opts != [] {
      var n := |opts| - 1;
      var front := opts[..n];
      assert forall i :: 0 <= i < n ==> opts[i] == front[i];
      CreatedAtAssignment(front, columns, drafts);
      LastWordStep(opts);
    }
  }

  lemma LastWordStep(opts: seq<ConflictOption>)
    requires opts != []
    ensures var last := opts[|opts| - 1];
            LastWordIsNew(opts)
            <==> last.ResolveWithNewValues?
                 || (LastWordIsNew(opts[..|opts| - 1]) && !last.ResolveWithIgnore? && !last.KeepCreatedAt?)
  {
    var n := |opts| - 1;
    var front := opts[..n];
    if opts[n].ResolveWithNewValues? { assert LastWordIsNew(opts); }
    if LastWordIsNew(front) && !opts[n].ResolveWithIgnore? && !opts[n].KeepCreatedAt? {
      var i :| 0 <= i < n && front[i].ResolveWithNewValues? && forall j :: i < j < n ==>
                !front[j].ResolveWithIgnore? && !front[j].KeepCreatedAt?;
      assert opts[i].ResolveWithNewValues? && forall j :: i < j < |opts| ==>
                !opts[j].ResolveWithIgnore? && !opts[j].KeepCreatedAt? by {
        assert forall j :: i < j < n ==> opts[j] == front[j];
      }
    }
    if LastWordIsNew(opts) && !opts[n].ResolveWithNewValues? {
      var i :| 0 <= i < |opts| && opts[i].ResolveWithNewValues? && forall j :: i < j < |opts| ==>
                !opts[j].ResolveWithIgnore? && !opts[j].KeepCreatedAt?;
      assert front[i].ResolveWithNewValues? && forall j :: i < j < n ==> front[j] == opts[j];
    }
  }

  /** What an upsert that hits a conflict does to created_at, for every list of options: it
      is kept, unless a bare ResolveWithNewValues has the last word, and then it becomes the
      new value.  So it never changes iff the options keep it or the values are equal. */
  lemma ConflictCreatedAt(was: Row, proposed: Row, opts: seq<ConflictOption>, columns: set<Column>, drafts: seq<Draft>)
    requires TypedOptions(opts) && CreatedAt in columns && AnyCreatedAt(drafts)
    ensures CellAt(OnConflict(was, proposed, opts, columns, drafts), CreatedAt)
         == CellAt(if Keeps(opts) then was else proposed, CreatedAt)
  {
    CreatedAtAssignment(opts, columns, drafts);
  }

  predicate TypedCalls(calls: seq<UpsertCall>) {
    forall i :: 0 <= i < |calls| && calls[i].Update? ==> TypedSets(calls[i].sets)
  }

  // Options that never change a stored created_at.
  predicate GoodOptions(opts: seq<ConflictOption>) {
    TypedOptions(opts) && Keeps(opts)
  }

  /** The builder methods keep it, in any sequence, after any initial options without a bare
      ResolveWithNewValues. */
  lemma {:induction false} BuilderCallsKeep(opts: seq<ConflictOption>, calls: seq<UpsertCall>)
    requires ResolveWithNewValues !in opts && TypedOptions(opts) && TypedCalls(calls)
    ensures !LastWordIsNew(OptionsAfter(opts, calls)) && GoodOptions(OptionsAfter(opts, calls))
  {
    if calls == [] {
      assert forall i :: 0 <= i < |opts| ==> opts[i] in opts;
    } else {
      var n := |calls| - 1;
      BuilderCallsKeep(opts, calls[..n]);
      OneCallKeeps(OptionsAfter(opts, calls[..n]), calls[n]);
      assert TypedOptions(OptionsOf(calls[n]));
    }
  }

  /** A single UpdateNewValues or Ignore repairs any options before it; nothing else does. */
  lemma OneCallKeeps(opts: seq<ConflictOption>, call: UpsertCall)
    ensures LastWordIsNew(opts + OptionsOf(call)) <==> LastWordIsNew(opts) && !call.UpdateNewValues? && !call.Ignore?
  {
    var more := OptionsOf(call);
    if call.UpdateNewValues? {
      assert (opts + more)[..|opts| + 1] == opts + [ResolveWithNewValues];
      LastWordStep(opts + more);
    } else {
      assert (opts + more)[..|opts|] == opts;
      LastWordStep(opts + more);
    }
  }

  /** The documentation calls UpdateNewValues the same as ResolveWithNewValues.  On
      created_at they differ whenever the values do. */
  lemma NotTheDocumentedEquivalence(was: Row, proposed: Row, columns: set<Column>, drafts: seq<Draft>)
    requires CreatedAt in columns && AnyCreatedAt(drafts)
    ensures CellAt(OnConflict(was, proposed, OptionsOf(UpdateNewValues), columns, drafts), CreatedAt)
         == CellAt(was, CreatedAt)
    ensures CellAt(OnConflict(was, proposed, [ResolveWithNewValues], columns, drafts), CreatedAt)
         == CellAt(proposed, CreatedAt)
  {
    assert [] + OptionsOf(UpdateNewValues) == OptionsOf(UpdateNewValues) && ![ResolveWithNewValues][0].DoNothing?;
    OneCallKeeps([], UpdateNewValues);
    LastWordStep([ResolveWithNewValues]);
    ConflictCreatedAt(was, proposed, OptionsOf(UpdateNewValues), columns, drafts);
    ConflictCreatedAt(was, proposed, [ResolveWithNewValues], columns, drafts);
  }

  // ------------------------------------------------------------------------------- runs

  type Accounts = map<int, Row>

  // One row to insert: the mutation as it passed check, the stored row it would collide
  // with, and the ID the database gives it if it does not.
  datatype Item = Item(draft: Draft, conflict: Option<int>, newID: int)

  // Create, CreateBulk and both upserts insert; AccountUpdate and AccountUpdateOne update.
  datatype Step =
    | Insert(items: seq<Item>, opts: seq<ConflictOption>)
    | Alter(ids: set<int>, spec: UpdateSpec)
    | Delete(ids: set<int>)

  function DraftsOf(items: seq<Item>): seq<Draft> {
    seq(|items|, i requires 0 <= i < |items| => items[i].draft)
  }

  // The columns of the statement: those of all its rows.
  function InsertColumns(items: seq<Item>): set<Column> {
    set i, c | 0 <= i < |items| && c in StoredRow(SpecOf(items[i].draft), 0) && c != ID :: c
  }

  predicate AllChecked(items: seq<Item>, valid: (Column, Cell) -> bool) {
    forall i :: 0 <= i < |items| ==> Check(items[i].draft.fields, valid).None?
  }

  // One row of a statement: stored as a new row, or merged into the one it collides with.
  function InsertItem(
      s: Accounts, item: Item, opts: seq<ConflictOption>, columns: set<Column>, drafts: seq<Draft>): Accounts {
    var row := StoredRow(SpecOf(item.draft), item.newID);
    if item.conflict.Some? && item.conflict.value in s then
      s[item.conflict.value := OnConflict(s[item.conflict.value], row, opts, columns, drafts)]
    else s[item.newID := row]
  }

  function InsertAll(
      s: Accounts, items: seq<Item>, opts: seq<ConflictOption>, columns: set<Column>, drafts: seq<Draft>): Accounts {
    if items == [] then s
    else InsertItem(InsertAll(s, items[..|items| - 1], opts, columns, drafts), items[|items| - 1], opts, columns,
                    drafts)
  }

  // A failed check, or a collision without conflict options, stores nothing.
  function Apply(s: Accounts, step: Step, valid: (Column, Cell) -> bool): Accounts {
    match step
    case Insert(items, opts) =>
      if !AllChecked(items, valid) || (opts == [] && exists i :: 0 <= i < |items| && items[i].conflict.Some?) then s
      else InsertAll(s, items, opts, InsertColumns(items), DraftsOf(items))
    case Alter(ids, spec) => map id | id in s :: if id in ids then RowAfter(s[id], spec) else s[id]
    case Delete(ids) => s - ids
  }

  function Run(s: Accounts, steps: seq<Step>, valid: (Column, Cell) -> bool): Accounts {
    if steps == [] then s else Apply(Run(s, steps[..|steps| - 1], valid), steps[|steps| - 1], valid)
  }

  // The database gives new IDs, the options leave created_at alone, and an update is one
  // that sqlSave can build.
  ghost predicate Legal(s: Accounts, step: Step) {
    match step
    case Insert(items, opts) =>
      GoodOptions(opts) && NewIDs(s, items)
    case Alter(_, spec) => exists c :: Specifies(spec, c)
    case Delete(_) => true
  }

  ghost predicate LegalRun(s: Accounts, steps: seq<Step>, valid: (Column, Cell) -> bool) {
    steps == []
      || (LegalRun(s, steps[..|steps| - 1], valid) && Legal(Run(s, steps[..|steps| - 1], valid), steps[|steps| - 1]))
  }

  lemma KeysKeep(own: Fields, proxy: Option<int>, parent: Option<int>, id: int, c: Column)
    requires c in own && c != ProxyID && c != ParentAccountID && c != ID
    ensures var proxied := if proxy.Some? then own[ProxyID := I(proxy.value)] else own;
            var row := (if parent.Some? then proxied[ParentAccountID := I(parent.value)] else proxied)[ID := I(id)];
            c in row && row[c] == own[c]
  {
  }

  lemma StoredCreatedAt(d: Draft, id: int)
    requires CreatedAt in d.fields
    ensures CreatedAt in StoredRow(SpecOf(d), id) && CellAt(StoredRow(SpecOf(d), id), CreatedAt) == d.fields[CreatedAt]
  {
    AllOrdered(CreatedAt);
    PutSetFields(SPEC_ORDER, d.fields);
    StoredKeys(PutAll(map[], SpecOf(d).fields), d);
    KeysKeep(PutAll(map[], SpecOf(d).fields), d.proxy, d.parent, id, CreatedAt);
  }

  predicate Timed(items: seq<Item>) {
    forall i :: 0 <= i < |items| ==> CreatedAt in items[i].draft.fields
  }

  lemma CheckedItems(items: seq<Item>, valid: (Column, Cell) -> bool)
    requires AllChecked(items, valid)
    ensures Timed(items)
  {
    forall i | 0 <= i < |items| ensures CreatedAt in items[i].draft.fields {
      CheckedHasCreatedAt(items[i].draft.fields, valid);
    }
  }

  lemma TimedColumns(items: seq<Item>)
    requires Timed(items) && items != []
    ensures CreatedAt in InsertColumns(items) && AnyCreatedAt(DraftsOf(items))
  {
    StoredCreatedAt(items[0].draft, 0);
    assert DraftsOf(items)[0] == items[0].draft;
  }

  ghost predicate NewRow(row: Row, id: int, items: seq<Item>) {
    exists i ::
      0 <= i < |items| && items[i].newID == id && CellAt(row, CreatedAt) == CellAt(items[i].draft.fields, CreatedAt)
  }

  // Rows that were there keep their creation time; the others are items of the statement.
  ghost predicate Grown(s: Accounts, t: Accounts, items: seq<Item>) {
    && (forall id :: id in s ==> id in t && CellAt(t[id], CreatedAt) == CellAt(s[id], CreatedAt))
    && (forall id :: id in t && id !in s ==> NewRow(t[id], id, items))
  }

  // The item was stored, or merged into a row that was there.
  ghost predicate Extends(before: Accounts, after: Accounts, item: Item) {
    && before.Keys <= after.Keys <= before.Keys + {item.newID}
    && (forall id :: id in before ==> CellAt(after[id], CreatedAt) == CellAt(before[id], CreatedAt))
    && (item.newID in after ==> CellAt(after[item.newID], CreatedAt) == CellAt(item.draft.fields, CreatedAt))
  }

  lemma GrownStep(s: Accounts, before: Accounts, after: Accounts, items: seq<Item>, item: Item)
    requires Grown(s, before, items) && Extends(before, after, item)
    ensures Grown(s, after, items + [item])
  {
    var more := items + [item];
    forall id | id in after && id !in s ensures NewRow(after[id], id, more) {
      if id in before {
        assert NewRow(before[id], id, items);
        var i :| 0 <= i < |items| && items[i].newID == id
            && CellAt(before[id], CreatedAt) == CellAt(items[i].draft.fields, CreatedAt);
        assert more[i] == items[i];
      } else {
        assert more[|items|].newID == id;
      }
    }
  }

  predicate NewIDs(s: Accounts, items: seq<Item>) {
    && (forall i :: 0 <= i < |items| ==> items[i].newID !in s)
    && (forall i, j :: 0 <= i < j < |items| ==> items[i].newID != items[j].newID)
  }

  lemma InsertOne(s: Accounts, item: Item, opts: seq<ConflictOption>, columns: set<Column>, drafts: seq<Draft>)
    requires GoodOptions(opts) && CreatedAt in item.draft.fields && CreatedAt in columns && AnyCreatedAt(drafts)
    requires item.newID !in s
    ensures Extends(s, InsertItem(s, item, opts, columns, drafts), item)
  {
    StoredCreatedAt(item.draft, item.newID);
    if item.conflict.Some? && item.conflict.value in s {
      ConflictCreatedAt(s[item.conflict.value], StoredRow(SpecOf(item.draft), item.newID), opts, columns, drafts);
    }
  }

  lemma StillNew(s: Accounts, t: Accounts, items: seq<Item>, item: Item)
    requires Grown(s, t, items) && NewIDs(s, items + [item])
    ensures item.newID !in t
  {
    var more := items + [item];
    assert more[|items|] == item && forall i :: 0 <= i < |items| ==> more[i] == items[i];
  }

  lemma {:induction false} InsertKeeps(
      s: Accounts, items: seq<Item>, opts: seq<ConflictOption>, columns: set<Column>, drafts: seq<Draft>)
    requires GoodOptions(opts) && NewIDs(s, items) && Timed(items) && CreatedAt in columns && AnyCreatedAt(drafts)
    ensures Grown(s, InsertAll(s, items, opts, columns, drafts), items)
  {
    if items != [] {
      var front, last := items[..|items| - 1], items[|items| - 1];
      assert items == front + [last];
      var before := InsertAll(s, front, opts, columns, drafts);
      InsertKeeps(s, front, opts, columns, drafts);
      StillNew(s, before, front, last);
      InsertOne(before, last, opts, columns, drafts);
      GrownStep(s, before, InsertItem(before, last, opts, columns, drafts), front, last);
    }
  }

  // A row of the store after the step was there before with the same creation time, or the
  // step inserted it.
  ghost predicate InsertedBy(step: Step, id: int, created: Cell) {
    step.Insert? && exists i :: 0 <= i < |step.items| && step.items[i].newID == id
                             && CreatedAt in step.items[i].draft.fields
                                && step.items[i].draft.fields[CreatedAt] == created
  }

  lemma StepKeepsCreatedAt(s: Accounts, step: Step, valid: (Column, Cell) -> bool, id: int)
    requires Legal(s, step)
    ensures var t := Apply(s, step, valid);
            && (id in s && !(step.Delete? && id in step.ids) ==>
                id in t && CellAt(t[id], CreatedAt) == CellAt(s[id], CreatedAt))
            && (id in t && id !in s ==> InsertedBy(step, id, CellAt(t[id], CreatedAt)))
  {
    match step {
      case Insert(items, opts) =>
        if AllChecked(items, valid) {
          CheckedItems(items, valid);
          if items != [] {
            TimedColumns(items);
            InsertKeeps(s, items, opts, InsertColumns(items), DraftsOf(items));
          }
          var t := Apply(s, step, valid);
          if id in t && id !in s { assert NewRow(t[id], id, items); }
        }
      case Alter(ids, spec) =>
        var c :| Specifies(spec, c);
        if id in s { UpdateKeepsCreatedAt(s[id], spec, c); }
      case Delete(_) =>
    }
  }

  /** Over any run of creates, bulk creates, upserts, updates and deletes, a row that is not
      deleted keeps its created_at. */
  lemma {:induction false} CreatedAtNeverChanges(s: Accounts, steps: seq<Step>, valid: (Column, Cell) -> bool, id: int)
    requires LegalRun(s, steps, valid) && id in s
    requires forall k :: 0 <= k < |steps| && steps[k].Delete? ==> id !in steps[k].ids
    ensures id in Run(s, steps, valid) && CellAt(Run(s, steps, valid)[id], CreatedAt) == CellAt(s[id], CreatedAt)
  {
    if steps != [] {
      var n := |steps| - 1;
      CreatedAtNeverChanges(s, steps[..n], valid, id);
      StepKeepsCreatedAt(Run(s, steps[..n], valid), steps[n], valid, id);
    }
  }

  /** And every stored created_at is the one its row was inserted with: starting from no
      rows, each row of the final store was inserted by some step with that value. */
  lemma {:induction false} CreatedAtIsOriginal(
      steps: seq<Step>, valid: (Column, Cell) -> bool, id: int)
      returns (k: nat)
    requires LegalRun(map[], steps, valid) && id in Run(map[], steps, valid)
    ensures k < |steps| && InsertedBy(steps[k], id, CellAt(Run(map[], steps, valid)[id], CreatedAt))
  {
    var n := |steps| - 1;
    var before := Run(map[], steps[..n], valid);
    StepKeepsCreatedAt(before, steps[n], valid, id);
    if id in before && !(steps[n].Delete? && id in steps[n].ids) {
      k := CreatedAtIsOriginal(steps[..n], valid, id);
    } else {
      k := n;
    }
  }
}

/**
 What an update and a conflicting insert write to each column, with the columns described by
 their types rather than by the tables of the update builder.
 */
module UpdateLaws {
  import opened Wrappers
  import opened Schema
  import opened AccountRow
  import opened CreateBuilder
  import opened CreateLaws
  import opened AccountUpdate
  import opened RowHistory

  // --------------------------------------------------------------- the columns of an update

  // Every account column but the ID, the creation time and the two keys.
  predicate Writable(c: Column) {
    ValidAccountColumn(c) && c != ID && c != CreatedAt && c != ProxyID && c != ParentAccountID
  }

  predicate Numeric(c: Column) {
    HolderKind(c).KInt? || HolderKind(c).KFloat?
  }

  lemma UpdatableFound(c: Column)
    requires Writable(c)
    ensures c in UPDATABLE
  {
  }

  lemma UpdatableAt(i: nat)
    requires i < |UPDATABLE|
    ensures Writable(UPDATABLE[i])
  {
  }

  // It can add to the numeric ones, and clear those that are not required.
  lemma AddableExactly(c: Column)
    ensures Addable(c) <==> Writable(c) && Numeric(c)
  {
  }

  lemma ClearableExactly(c: Column)
    ensures Clearable(c) <==> Writable(c) && !Needed(c)
  {
  }

  /** An update can set every writable column, add to the numeric ones among them, and clear
      those that are not required; and nothing else. */
  lemma UpdatableExactly(c: Column)
    ensures c in UPDATABLE <==> Writable(c)
    ensures Addable(c) <==> Writable(c) && Numeric(c)
    ensures Clearable(c) <==> Writable(c) && !Needed(c)
  {
    AddableExactly(c);
    ClearableExactly(c);
    ListedExactly(c);
  }

  lemma ListedExactly(c: Column)
    ensures c in UPDATABLE <==> Writable(c)
  {
    if c in UPDATABLE {
      var i :| 0 <= i < |UPDATABLE| && UPDATABLE[i] == c;
      UpdatableAt(i);
    } else if Writable(c) {
      UpdatableFound(c);
    }
  }

  /** A value that an update sets reaches the row, whatever else the update does. */
  lemma SetReachesRow(r: Row, spec: UpdateSpec, c: Change, col: Column)
    requires Specifies(spec, c) && Writable(col) && col in c.fields && col !in c.added
    ensures CellAt(RowAfter(r, spec), col) == c.fields[col]
  {
    UpdatableExactly(col);
    ColumnsAfterUpdate(r, spec, c, col);
  }

  // An addition to a cell, NULL counting as zero.
  predicate AddedTo(was: Cell, x: Cell, after: Cell) {
    && (was.I? && x.I? ==> after == I(was.i + x.i))
    && (was.F? && x.F? ==> after == F(was.f + x.f))
    && (was.Null? ==> after == x)
  }

  /** So does an addition. */
  lemma AddReachesRow(r: Row, spec: UpdateSpec, c: Change, col: Column)
    requires Specifies(spec, c) && Writable(col) && Numeric(col) && col in c.added
    ensures AddedTo(CellAt(r, col), c.added[col], CellAt(RowAfter(r, spec), col))
  {
    UpdatableExactly(col);
    ColumnsAfterUpdate(r, spec, c, col);
  }

  /** And a clear, of any column that may be NULL. */
  lemma ClearReachesRow(r: Row, spec: UpdateSpec, c: Change, col: Column)
    requires Specifies(spec, c) && Writable(col) && !Needed(col) && col in c.clearedFields
    requires col !in c.fields && col !in c.added
    ensures CellAt(RowAfter(r, spec), col) == Null
  {
    UpdatableExactly(col);
    ColumnsAfterUpdate(r, spec, c, col);
  }

  /** A column that the update does not name stays, and so does a required one that it only
      clears, one without a number that it only adds to, and one that is not writable,
      whatever the mutation holds, except that the keys follow their edges. */
  lemma OtherColumnsStay(r: Row, spec: UpdateSpec, c: Change, col: Column)
    requires Specifies(spec, c) && col != ProxyID && col != ParentAccountID
    requires Writable(col) ==>
               col !in c.fields && (col !in c.added || !Numeric(col)) && (col !in c.clearedFields || Needed(col))
    ensures CellAt(RowAfter(r, spec), col) == CellAt(r, col)
  {
    UpdatableExactly(col);
    ColumnsAfterUpdate(r, spec, c, col);
  }

  lemma UpdateRuleAt(i: nat)
    requires i < |UPDATE_RULES|
    ensures UPDATE_RULES[i] == Rule(UPDATE_RULES[i].col, false, true) && HasValidator(UPDATE_RULES[i].col)
  {
  }

  lemma UpdateRuleFound(c: Column)
    requires HasValidator(c)
    ensures Rule(c, false, true) in UPDATE_RULES
  {
  }

  /** The check of an update passes iff every validated column that it sets is valid. */
  lemma UpdateCheckNamed(f: Fields, valid: (Column, Cell) -> bool)
    ensures CheckRules(f, UPDATE_RULES, valid).None? <==> forall c :: HasValidator(c) && c in f ==> valid(c, f[c])
  {
    CheckExact(f, UPDATE_RULES, valid);
    forall i | 0 <= i < |UPDATE_RULES| ensures HasValidator(UPDATE_RULES[i].col) {
      UpdateRuleAt(i);
    }
    if CheckRules(f, UPDATE_RULES, valid).None? {
      forall c | HasValidator(c) && c in f ensures valid(c, f[c]) {
        UpdateRuleFound(c);
        assert Broken(f, Rule(c, false, true), valid).None?;
      }
    } else {
      var k := FirstBroken(f, UPDATE_RULES, valid);
      UpdateRuleAt(k);
    }
  }

  // ------------------------------------------------------------- the columns of a conflict

  lemma UpdateSetSnoc(opts: seq<ConflictOption>, o: ConflictOption, columns: set<Column>, drafts: seq<Draft>)
    ensures UpdateSet(opts + [o], columns, drafts)
         == AfterOption(UpdateSet(opts, columns, drafts), o, columns, drafts)
  {
    assert (opts + [o])[..|opts|] == opts;
  }

  // A cell of the row a conflict leaves, without DO NOTHING.
  lemma ConflictCell(
      was: Row, proposed: Row, opts: seq<ConflictOption>, columns: set<Column>, drafts: seq<Draft>, c: Column)
    requires DoNothing !in opts
    ensures var sets := UpdateSet(opts, columns, drafts);
            CellAt(OnConflict(was, proposed, opts, columns, drafts), c)
            == if c in sets then Resolved(CellAt(was, c), CellAt(proposed, c), sets[c]) else CellAt(was, c)
  {
  }

  /** A typed setter of Update decides its column, whatever options came before: a value is
      stored, UpdateX takes the proposed one, AddX adds to the stored one, ClearX nulls it. */
  lemma SetterOnConflict(
      was: Row, proposed: Row, opts: seq<ConflictOption>, sets: map<Column, Assign>, columns: set<Column>,
      drafts: seq<Draft>, c: Column)
    requires DoNothing !in opts && c in sets
    ensures var after := CellAt(OnConflict(was, proposed, opts + OptionsOf(Update(sets)), columns, drafts), c);
            match sets[c]
            case Value(x) => after == x
            case Excluded => after == CellAt(proposed, c)
            case Self => after == CellAt(was, c)
            case Plus(x) => AddedTo(CellAt(was, c), x, after)
            case SetNull => after == Null
  {
    UpdateSetSnoc(opts, ResolveWith(sets), columns, drafts);
    ConflictCell(was, proposed, opts + [ResolveWith(sets)], columns, drafts, c);
  }

  /** Its other columns are what the options before it make of them. */
  lemma OthersOnConflict(
      was: Row, proposed: Row, opts: seq<ConflictOption>, sets: map<Column, Assign>, columns: set<Column>,
      drafts: seq<Draft>, c: Column)
    requires DoNothing !in opts && c !in sets
    ensures CellAt(OnConflict(was, proposed, opts + OptionsOf(Update(sets)), columns, drafts), c)
         == CellAt(OnConflict(was, proposed, opts, columns, drafts), c)
  {
    UpdateSetSnoc(opts, ResolveWith(sets), columns, drafts);
    ConflictCell(was, proposed, opts, columns, drafts, c);
    ConflictCell(was, proposed, opts + [ResolveWith(sets)], columns, drafts, c);
  }

  /** UpdateNewValues takes the proposed value of every inserted column, whatever options came
      before, except created_at if some builder has set it; other columns are as those
      options make them. */
  lemma NewValuesOnConflict(
      was: Row, proposed: Row, opts: seq<ConflictOption>, columns: set<Column>, drafts: seq<Draft>, c: Column)
    requires DoNothing !in opts && (c == CreatedAt ==> !AnyCreatedAt(drafts))
    ensures CellAt(OnConflict(was, proposed, opts + OptionsOf(UpdateNewValues), columns, drafts), c)
         == if c in columns then CellAt(proposed, c) else CellAt(OnConflict(was, proposed, opts, columns, drafts), c)
  {
    var newer := opts + [ResolveWithNewValues];
    assert opts + OptionsOf(UpdateNewValues) == newer + [KeepCreatedAt];
    UpdateSetSnoc(opts, ResolveWithNewValues, columns, drafts);
    UpdateSetSnoc(newer, KeepCreatedAt, columns, drafts);
    ConflictCell(was, proposed, opts, columns, drafts, c);
    ConflictCell(was, proposed, newer + [KeepCreatedAt], columns, drafts, c);
  }

  /** Ignore keeps the stored value of every inserted column. */
  lemma IgnoreOnConflict(
      was: Row, proposed: Row, opts: seq<ConflictOption>, columns: set<Column>, drafts: seq<Draft>, c: Column)
    requires DoNothing !in opts
    ensures CellAt(OnConflict(was, proposed, opts + OptionsOf(Ignore), columns, drafts), c)
         == if c in columns then CellAt(was, c) else CellAt(OnConflict(was, proposed, opts, columns, drafts), c)
  {
    UpdateSetSnoc(opts, ResolveWithIgnore, columns, drafts);
    ConflictCell(was, proposed, opts, columns, drafts, c);
    ConflictCell(was, proposed, opts + [ResolveWithIgnore], columns, drafts, c);
  }

  /** DO NOTHING anywhere among the options leaves the stored row as it is, and so do options
      that assign nothing. */
  lemma NothingOnConflict(
      was: Row, proposed: Row, opts: seq<ConflictOption>, columns: set<Column>, drafts: seq<Draft>)
    ensures DoNothing in opts || (forall i :: 0 <= i < |opts| ==> opts[i].ConflictColumns?) ==>
              OnConflict(was, proposed, opts, columns, drafts) == was
    ensures OnConflict(was, proposed, opts + OptionsOf(Nothing), columns, drafts) == was
  {
    assert (opts + [DoNothing])[|opts|] == DoNothing;
    if DoNothing !in opts && forall i :: 0 <= i < |opts| ==> opts[i].ConflictColumns? {
      NoAssignments(opts, columns, drafts);
    }
  }

  lemma {:induction false} NoAssignments(opts: seq<ConflictOption>, columns: set<Column>, drafts: seq<Draft>)
    requires forall i :: 0 <= i < |opts| ==> opts[i].ConflictColumns?
    ensures UpdateSet(opts, columns, drafts) == map[]
  {
    if opts != [] { NoAssignments(opts[..|opts| - 1], columns, drafts); }
  }

  // ------------------------------------------------------------------- statements on a store

  // The draft gives the column a value.
  predicate Gives(d: Draft, c: Column) {
    match c
    case ID => false
    case ProxyID => d.proxy.Some?
    case ParentAccountID => d.parent.Some?
    case _ => ValidAccountColumn(c) && c in d.fields
  }

  lemma StoredHas(d: Draft, c: Column)
    requires c != ID
    ensures c in StoredRow(SpecOf(d), 0) <==> Gives(d, c)
  {
    StoredIsNode(d, 0);
    NodeIsMade(d, Some(0));
    assert FieldMade(WithID(NodeFields(d), Some(0)), d, Some(0), c);
  }

  /** An insert statement names the columns that some row of it gives a value. */
  lemma InsertColumnsExactly(items: seq<Item>, c: Column)
    ensures c in InsertColumns(items) <==> exists i :: 0 <= i < |items| && Gives(items[i].draft, c)
  {
    if c != ID {
      forall i | 0 <= i < |items|
        ensures c in StoredRow(SpecOf(items[i].draft), 0) <==> Gives(items[i].draft, c)
      {
        StoredHas(items[i].draft, c);
      }
    }
  }

  // The rows of a statement without collisions: one for each item, beside those of before.
  ghost predicate Added(s: Accounts, t: Accounts, items: seq<Item>, row: Item -> Row) {
    && (forall id :: id in s ==> id in t && t[id] == s[id])
    && (forall i :: 0 <= i < |items| ==>
          items[i].newID in t && t[items[i].newID] == row(items[i]))
    && (forall id :: id in t && id !in s ==> exists i :: 0 <= i < |items| && items[i].newID == id)
  }

  function ItemRow(): Item -> Row {
    (item: Item) => StoredRow(SpecOf(item.draft), item.newID)
  }

  lemma AddedSnoc(s: Accounts, t: Accounts, items: seq<Item>, item: Item, row: Item -> Row)
    requires Added(s, t, items, row) && NewIDs(s, items + [item])
    ensures Added(s, t[item.newID := row(item)], items + [item], row)
  {
    var more, next := items + [item], t[item.newID := row(item)];
    assert more[|items|] == item && forall i :: 0 <= i < |items| ==> more[i] == items[i];
    forall id | id in next && id !in s ensures exists i :: 0 <= i < |more| && more[i].newID == id {
      if id == item.newID {
        assert more[|items|].newID == id;
      } else {
        var i :| 0 <= i < |items| && items[i].newID == id;
        assert more[i].newID == id;
      }
    }
  }

  lemma {:induction false} InsertAdds(
      s: Accounts, items: seq<Item>, opts: seq<ConflictOption>, columns: set<Column>, drafts: seq<Draft>)
    requires NewIDs(s, items) && forall i :: 0 <= i < |items| ==> items[i].conflict.None?
    ensures Added(s, InsertAll(s, items, opts, columns, drafts), items, ItemRow())
  {
    if items != [] {
      var n := |items| - 1;
      assert items == items[..n] + [items[n]];
      InsertAdds(s, items[..n], opts, columns, drafts);
      AddedSnoc(s, InsertAll(s, items[..n], opts, columns, drafts), items[..n], items[n], ItemRow());
    }
  }

  /** A checked insert that collides with nothing stores every item's row under its new ID and
      leaves the other rows alone. */
  lemma InsertStores(s: Accounts, items: seq<Item>, opts: seq<ConflictOption>, valid: (Column, Cell) -> bool)
    requires NewIDs(s, items) && forall i :: 0 <= i < |items| ==> items[i].conflict.None?
    ensures AllChecked(items, valid) ==> Added(s, Apply(s, Insert(items, opts), valid), items, ItemRow())
  {
    InsertAdds(s, items, opts, InsertColumns(items), DraftsOf(items));
  }

  /** One whose check fails stores nothing, and neither does one that collides without conflict
      options. */
  lemma InsertFails(s: Accounts, items: seq<Item>, opts: seq<ConflictOption>, valid: (Column, Cell) -> bool, i: nat)
    requires i < |items|
    requires Check(items[i].draft.fields, valid).Some? || (opts == [] && items[i].conflict.Some?)
    ensures Apply(s, Insert(items, opts), valid) == s
  {
  }

  /** With options, a row that collides is merged into the stored one: no row is added, and no
      other row changes. */
  lemma InsertMerges(s: Accounts, item: Item, opts: seq<ConflictOption>, valid: (Column, Cell) -> bool)
    requires item.conflict.Some? && item.conflict.value in s && opts != [] && Check(item.draft.fields, valid).None?
    ensures var t, id := Apply(s, Insert([item], opts), valid), item.conflict.value;
            && t.Keys == s.Keys
            && (forall other :: other in s && other != id ==> t[other] == s[other])
            && t[id] == OnConflict(s[id], StoredRow(SpecOf(item.draft), item.newID), opts, InsertColumns([item]),
                                   [item.draft])
  {
    assert [item][..0] == [] && DraftsOf([item]) == [item.draft];
    MergeOne(s, item, opts, InsertColumns([item]), [item.draft], StoredRow(SpecOf(item.draft), item.newID));
  }

  lemma MergeOne(
      s: Accounts, item: Item, opts: seq<ConflictOption>, columns: set<Column>, drafts: seq<Draft>, row: Row)
    requires item.conflict.Some? && item.conflict.value in s && row == StoredRow(SpecOf(item.draft), item.newID)
    ensures InsertAll(s, [item], opts, columns, drafts)
         == s[item.conflict.value := OnConflict(s[item.conflict.value], row, opts, columns, drafts)]
  {
    assert [item][..0] == [];
  }

  /** A delete removes the rows it matches and no others. */
  lemma DeleteExact(s: Accounts, ids: set<int>, valid: (Column, Cell) -> bool)
    ensures var t := Apply(s, Delete(ids), valid);
            t.Keys == s.Keys - ids && forall id :: id in t ==> t[id] == s[id]
  {
  }

  /** An update changes the rows it matches and no others, and a value that it sets is found
      in each of them. */
  lemma AlterExact(
      s: Accounts, ids: set<int>, spec: UpdateSpec, c: Change, valid: (Column, Cell) -> bool, id: int, col: Column)
    requires Specifies(spec, c) && id in s
    ensures var t := Apply(s, Alter(ids, spec), valid);
            && t.Keys == s.Keys
            && (id !in ids ==> t[id] == s[id])
            && (id in ids && Writable(col) && col in c.fields && col !in c.added ==>
                  CellAt(t[id], col) == c.fields[col])
  {
    if Writable(col) && col in c.fields && col !in c.added {
      SetReachesRow(s[id], spec, c, col);
    }
  }
}

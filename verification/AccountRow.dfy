/**
 Reading an account row back: the holders scanValues makes for a column list, the
 driver filling them, and assignValues moving them into the entity.
 */
module AccountRow {
  import opened Wrappers
  import opened Schema

  // account.Columns, in three parts
  const FIRST_COLUMNS: seq<Column> := [
    ID, CreatedAt, UpdatedAt, DeletedAt, Name, Notes, Platform, Type, Credentials, Extra, ProxyID]
  const MIDDLE_COLUMNS: seq<Column> := [
    ProxyFallbackOriginID, Concurrency, LoadFactor, Priority, RateMultiplier, Status, ErrorMessage, LastUsedAt,
    ExpiresAt, AutoPauseOnExpired, Schedulable]
  const LAST_COLUMNS: seq<Column> := [
    RateLimitedAt, RateLimitResetAt, OverloadUntil, TempUnschedulableUntil, TempUnschedulableReason, SessionWindowStart,
    SessionWindowEnd, SessionWindowStatus, ParentAccountID, QuotaDimension]
  const ACCOUNT_COLUMNS: seq<Column> := FIRST_COLUMNS + MIDDLE_COLUMNS + LAST_COLUMNS

  // account.ValidColumn looks through this list.
  lemma ValidColumns(c: Column)
    ensures c in ACCOUNT_COLUMNS <==> ValidAccountColumn(c)
  {
    if ValidAccountColumn(c) { AllListed(c); } else { NotListed(c); }
  }

  lemma NotFirst(c: Column)
    requires !ValidAccountColumn(c)
    ensures c !in FIRST_COLUMNS
  {
  }

  lemma NotMiddle(c: Column)
    requires !ValidAccountColumn(c)
    ensures c !in MIDDLE_COLUMNS
  {
  }

  lemma NotLast(c: Column)
    requires !ValidAccountColumn(c)
    ensures c !in LAST_COLUMNS
  {
  }

  lemma NotListed(c: Column)
    requires !ValidAccountColumn(c)
    ensures c !in ACCOUNT_COLUMNS
  {
    NotFirst(c);
    NotMiddle(c);
    NotLast(c);
  }

  lemma AllListed(c: Column)
    requires ValidAccountColumn(c)
    ensures c in ACCOUNT_COLUMNS
  {
  }

  // The struct fields of Account that are not pointers.
  predicate Required(c: Column) {
    match c
    case ID | CreatedAt | UpdatedAt | Name | Platform | Type | Concurrency | Priority | RateMultiplier | Status
       | AutoPauseOnExpired | Schedulable | QuotaDimension => true
    case _ => false
  }

  // *[]byte, *sql.NullBool, *sql.NullFloat64, ... each as the driver left it
  datatype Holder =
    | Bytes(text: string)
    | NullBool(valid: bool, b: bool)
    | NullFloat(valid: bool, f: real)
    | NullInt(valid: bool, i: int)
    | NullString(valid: bool, s: string)
    | NullTime(valid: bool, t: int)
    | Unknown(cell: Cell)

  datatype Kind = KBytes | KBool | KFloat | KInt | KString | KTime | KUnknown

  function KindOf(h: Holder): Kind {
    match h
    case Bytes(_) => KBytes
    case NullBool(_, _) => KBool
    case NullFloat(_, _) => KFloat
    case NullInt(_, _) => KInt
    case NullString(_, _) => KString
    case NullTime(_, _) => KTime
    case Unknown(_) => KUnknown
  }

  // The holder scanValues makes for a column.
  function HolderKind(c: Column): Kind {
    match c
    case Credentials | Extra => KBytes
    case AutoPauseOnExpired | Schedulable => KBool
    case RateMultiplier => KFloat
    case ID | ProxyID | ProxyFallbackOriginID | Concurrency | LoadFactor | Priority | ParentAccountID => KInt
    case Name | Notes | Platform | Type | Status | ErrorMessage | TempUnschedulableReason | SessionWindowStatus
       | QuotaDimension => KString
    case CreatedAt | UpdatedAt | DeletedAt | LastUsedAt | ExpiresAt | RateLimitedAt | RateLimitResetAt | OverloadUntil
       | TempUnschedulableUntil | SessionWindowStart | SessionWindowEnd => KTime
    case _ => KUnknown
  }

  /** scanValues: one new holder a column, in the order of the columns. */
  method ScanValues(columns: seq<Column>) returns (kinds: array<Kind>)
    ensures fresh(kinds) && kinds[..] == seq(|columns|, i requires 0 <= i < |columns| => HolderKind(columns[i]))
  {
    kinds := new Kind[|columns|];
    for i := 0 to |columns|
      invariant forall k :: 0 <= k < i ==> kinds[k] == HolderKind(columns[k])
    {
      kinds[i] := HolderKind(columns[i]);
    }
  }

  // The driver stores a column of a row in its holder; a cell of another type does not fit.
  function Scan(k: Kind, cell: Cell): Option<Holder> {
    match (k, cell)
    case (KBytes, Null) => Some(Bytes(""))
    case (KBytes, J(x)) => Some(Bytes(x))
    case (KBool, Null) => Some(NullBool(false, false))
    case (KBool, B(x)) => Some(NullBool(true, x))
    case (KFloat, Null) => Some(NullFloat(false, 0.0))
    case (KFloat, F(x)) => Some(NullFloat(true, x))
    case (KInt, Null) => Some(NullInt(false, 0))
    case (KInt, I(x)) => Some(NullInt(true, x))
    case (KString, Null) => Some(NullString(false, ""))
    case (KString, S(x)) => Some(NullString(true, x))
    case (KTime, Null) => Some(NullTime(false, 0))
    case (KTime, T(x)) => Some(NullTime(true, x))
    case (KUnknown, x) => Some(Unknown(x))
    case _ => None
  }

  function ScanAll(columns: seq<Column>, r: Row): (res: Option<seq<Holder>>)
    ensures res.Some? ==> |res.value| == |columns|
  {
    if columns == [] then Some([])
    else
      var h, rest := Scan(HolderKind(columns[0]), CellAt(r, columns[0])), ScanAll(columns[1..], r);
      if h.None? || rest.None? then None else Some([h.value] + rest.value)
  }

  // ------------------------------------------------------------------ assignValues

  datatype AssignError = TooFewValues | UnexpectedType(col: Column)

  // The type assertion of the column's case, None for the default case.
  function Asserted(c: Column): Option<Kind> {
    match c
    case ID => Some(KInt)
    case CreatedAt | UpdatedAt | DeletedAt => Some(KTime)
    case Name | Notes | Platform | Type => Some(KString)
    case Credentials | Extra => Some(KBytes)
    case ProxyID | ProxyFallbackOriginID | Concurrency | LoadFactor | Priority => Some(KInt)
    case RateMultiplier => Some(KFloat)
    case Status | ErrorMessage => Some(KString)
    case LastUsedAt | ExpiresAt => Some(KTime)
    case AutoPauseOnExpired | Schedulable => Some(KBool)
    case RateLimitedAt | RateLimitResetAt | OverloadUntil | TempUnschedulableUntil => Some(KTime)
    case TempUnschedulableReason => Some(KString)
    case SessionWindowStart | SessionWindowEnd => Some(KTime)
    case SessionWindowStatus => Some(KString)
    case ParentAccountID => Some(KInt)
    case QuotaDimension => Some(KString)
    case _ => None
  }

  // The value a valid holder carries.  Empty JSON text is not decoded.
  function Carried(h: Holder): Option<Cell> {
    match h
    case Bytes(x) => if x == "" then None else Some(J(x))
    case NullBool(ok, x) => if ok then Some(B(x)) else None
    case NullFloat(ok, x) => if ok then Some(F(x)) else None
    case NullInt(ok, x) => if ok then Some(I(x)) else None
    case NullString(ok, x) => if ok then Some(S(x)) else None
    case NullTime(ok, x) => if ok then Some(T(x)) else None
    case Unknown(_) => None
  }

  function Fits(c: Column, h: Holder): bool {
    Asserted(c).Some? ==> Asserted(c).value == KindOf(h)
  }

  // The fields of an entity that were assigned; the others hold their zero value.
  type Fields = map<Column, Cell>

  // The ID case does not look at Valid.
  function AssignOne(f: Fields, c: Column, h: Holder): Fields {
    if c == ID then f[ID := if h.NullInt? then I(h.i) else I(0)]
    else if Asserted(c).Some? && Carried(h).Some? then f[c := Carried(h).value]
    else f
  }

  function AssignPrefix(f: Fields, columns: seq<Column>, values: seq<Holder>): Fields
    requires |columns| <= |values|
  {
    if columns == [] then f
    else
      var n := |columns| - 1;
      AssignOne(AssignPrefix(f, columns[..n], values), columns[n], values[n])
  }

  // selectValues.Set for every column assignValues has no case for
  function SelectPrefix(kept: map<Column, Holder>, columns: seq<Column>, values: seq<Holder>): map<Column, Holder>
    requires |columns| <= |values|
  {
    if columns == [] then kept
    else
      var n := |columns| - 1;
      var rest := SelectPrefix(kept, columns[..n], values);
      if Asserted(columns[n]).None? then rest[columns[n] := values[n]] else rest
  }

  // The index of the first holder that does not fit, or the number of columns.
  function FirstMisfit(columns: seq<Column>, values: seq<Holder>): (k: nat)
    requires |columns| <= |values|
    ensures k <= |columns| && (k < |columns| ==> !Fits(columns[k], values[k]))
    ensures forall i :: 0 <= i < k ==> Fits(columns[i], values[i])
  {
    if columns == [] then 0
    else
      var n := |columns| - 1;
      var k := FirstMisfit(columns[..n], values);
      if k < n then k else if Fits(columns[n], values[n]) then n + 1 else n
  }

  // The zero value of the column's struct field, Null for a nil pointer or map.
  function Zero(c: Column): Cell {
    if !Required(c) then Null
    else match HolderKind(c)
         case KBool => B(false)
         case KFloat => F(0.0)
         case KInt => I(0)
         case KString => S("")
         case KTime => T(0)
         case _ => Null
  }

  function FieldOf(f: Fields, c: Column): Cell {
    if c in f then f[c] else Zero(c)
  }

  class AccountEntity {
    var fields: Fields
    var selected: map<Column, Holder>

    constructor ()
      ensures fields == map[] && selected == map[]
    {
      fields, selected := map[], map[];
    }

    /** assignValues: too few values assign nothing; a holder of the wrong type stops the
        loop with every earlier column assigned; columns it does not know go to Value. */
    method AssignValues(columns: seq<Column>, values: seq<Holder>) returns (err: Option<AssignError>)
      modifies this
      ensures |values| < |columns| ==> err == Some(TooFewValues) && fields == old(fields) && selected == old(selected)
      ensures |values| >= |columns| ==>
                var k := FirstMisfit(columns, values);
                && err == (if k < |columns| then Some(UnexpectedType(columns[k])) else None)
                && fields == AssignPrefix(old(fields), columns[..k], values)
                && selected == SelectPrefix(old(selected), columns[..k], values)
    {
      if |values| < |columns| {
        return Some(TooFewValues);
      }
      for i := 0 to |columns|
        invariant forall k :: 0 <= k < i ==> Fits(columns[k], values[k])
        invariant fields == AssignPrefix(old(fields), columns[..i], values)
        invariant selected == SelectPrefix(old(selected), columns[..i], values)
      {
        assert columns[..i + 1][..i] == columns[..i];
        match Asserted(columns[i]) {
          case Some(kind) =>
            if KindOf(values[i]) != kind {
              MisfitAt(columns, values, i);
              return Some(UnexpectedType(columns[i]));
            }
            if columns[i] == ID {
              fields := fields[ID := I(values[i].i)];
            } else if Carried(values[i]).Some? {
              fields := fields[columns[i] := Carried(values[i]).value];
            }
          case None =>
            selected := selected[columns[i] := values[i]];
        }
      }
      NoMisfit(columns, values);
      assert columns[..|columns|] == columns;
      err := None;
    }
  }

  lemma MisfitAt(columns: seq<Column>, values: seq<Holder>, i: nat)
    requires i < |columns| <= |values| && !Fits(columns[i], values[i])
    requires forall k :: 0 <= k < i ==> Fits(columns[k], values[k])
    ensures FirstMisfit(columns, values) == i
  {
    var k := FirstMisfit(columns, values);
  }

  lemma NoMisfit(columns: seq<Column>, values: seq<Holder>)
    requires |columns| <= |values| && forall k :: 0 <= k < |columns| ==> Fits(columns[k], values[k])
    ensures FirstMisfit(columns, values) == |columns|
  {
  }

  // ------------------------------------------------------------- reading a whole row

  // A cell of the column's own type; encoded JSON is never the empty text.
  predicate Typed(c: Column, cell: Cell) {
    Scan(HolderKind(c), cell).Some? && (cell.J? ==> cell.json != "")
  }

  predicate TypedRow(r: Row) {
    forall c :: c in r && ValidAccountColumn(c) ==> Typed(c, r[c])
  }

  lemma {:induction false} ScannedFits(columns: seq<Column>, r: Row)
    requires ScanAll(columns, r).Some?
    ensures forall i :: 0 <= i < |columns| ==>
              var h := ScanAll(columns, r).value[i];
              Scan(HolderKind(columns[i]), CellAt(r, columns[i])) == Some(h) && Fits(columns[i], h)
  {
    if columns != [] {
      ScannedFits(columns[1..], r);
      forall i | 0 <= i < |columns|
        ensures var h := ScanAll(columns, r).value[i];
                Scan(HolderKind(columns[i]), CellAt(r, columns[i])) == Some(h) && Fits(columns[i], h)
      {
        if i > 0 { assert columns[i] == columns[1..][i - 1]; }
      }
    }
  }

  /** For any column list whatever, repeats and unknown columns included, the holders
      scanValues makes never meet a type assertion of assignValues that they fail. */
  lemma HoldersAlwaysFit(columns: seq<Column>, r: Row)
    requires ScanAll(columns, r).Some?
    ensures FirstMisfit(columns, ScanAll(columns, r).value) == |columns|
  {
    ScannedFits(columns, r);
    NoMisfit(columns, ScanAll(columns, r).value);
  }

  lemma {:induction false} TypedRowScans(columns: seq<Column>, r: Row)
    requires TypedRow(r) && forall c :: c in columns ==> ValidAccountColumn(c)
    ensures ScanAll(columns, r).Some?
  {
    if columns != [] { TypedRowScans(columns[1..], r); }
  }

  // What a struct field shows for a stored cell.
  function Shown(c: Column, cell: Cell): Cell {
    if cell == Null then Zero(c) else cell
  }

  // The fields assigned when the given columns of a row are read; the ID case does not
  // look at Valid.
  function ReadFields(columns: seq<Column>, r: Row): Fields {
    map c | c in columns && (c == ID || CellAt(r, c) != Null) :: Shown(c, CellAt(r, c))
  }

  lemma {:induction false} AssignedFields(columns: seq<Column>, values: seq<Holder>, r: Row)
    requires TypedRow(r) && (forall c :: c in columns ==> ValidAccountColumn(c)) && |columns| <= |values|
    requires forall i :: 0 <= i < |columns| ==> Scan(HolderKind(columns[i]), CellAt(r, columns[i])) == Some(values[i])
    ensures AssignPrefix(map[], columns, values) == ReadFields(columns, r)
  {
    if columns != [] {
      var n := |columns| - 1;
      AssignedFields(columns[..n], values, r);
      AssignedOne(columns[n], values[n], r);
      assert columns == columns[..n] + [columns[n]];
      AssignStep(ReadFields(columns[..n], r), columns[..n], columns[n], values[n], r);
    }
  }

  lemma AssignedOne(c: Column, h: Holder, r: Row)
    requires Typed(c, CellAt(r, c)) && ValidAccountColumn(c) && Scan(HolderKind(c), CellAt(r, c)) == Some(h)
    ensures Asserted(c).Some? && (c == ID ==> h.NullInt?)
    ensures Carried(h) == if CellAt(r, c) == Null then None else Some(CellAt(r, c))
    ensures c == ID ==> I(h.i) == Shown(ID, CellAt(r, ID))
  {
  }

  lemma AssignStep(f: Fields, before: seq<Column>, c: Column, h: Holder, r: Row)
    requires f == ReadFields(before, r) && Asserted(c).Some? && (c == ID ==> h.NullInt?)
    requires Carried(h) == if CellAt(r, c) == Null then None else Some(CellAt(r, c))
    requires c == ID ==> I(h.i) == Shown(ID, CellAt(r, ID))
    ensures AssignOne(f, c, h) == ReadFields(before + [c], r)
  {
  }

  /** Scanning and assigning any list of account columns of a typed row gives an entity
      that shows exactly those cells, and the zero value everywhere else. */
  method Read(columns: seq<Column>, r: Row) returns (a: AccountEntity)
    requires TypedRow(r) && forall c :: c in columns ==> ValidAccountColumn(c)
    ensures fresh(a) && a.fields == ReadFields(columns, r)
  {
    TypedRowScans(columns, r);
    var values := ScanAll(columns, r).value;
    ScannedFits(columns, r);
    HoldersAlwaysFit(columns, r);
    AssignedFields(columns, values, r);
    a := new AccountEntity();
    var err := a.AssignValues(columns, values);
    assert columns[..|columns|] == columns;
    assert err.None?;
  }
}

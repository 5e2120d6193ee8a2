/**
 The audit gate: the vulnerabilities an audit report yields, the index of exceptions,
 and the exit status.
 */
module AuditGate {
  import opened Wrappers
  import opened ExceptionsParser

  // ------------------------------------------------------------------------- inputs

  // What json.load gives; the pairs of an object have distinct keys.
  datatype Json =
    | JNull
    | JBool(b: bool)
    | JNumber(n: real)
    | JString(s: string)
    | JArray(items: seq<Json>)
    | JObject(pairs: seq<(string, Json)>)

  // The date of today, date.fromisoformat, str.lower and str of a value that is not a
  // string.
  datatype Env = Env(today: int, isoDate: string -> Option<int>, lower: string -> string, str_: Json -> string)

  predicate Truthy(j: Json) {
    match j
    case JNull => false
    case JBool(b) => b
    case JNumber(n) => n != 0.0
    case JString(s) => s != ""
    case JArray(items) => items != []
    case JObject(pairs) => pairs != []
  }

  // The value of a key of an object, null when it has none.
  function Get(pairs: seq<(string, Json)>, key: string): Json {
    if pairs == [] then JNull else if pairs[0].0 == key then pairs[0].1 else Get(pairs[1..], key)
  }

  // The first operand if it is truthy, otherwise the second.
  function Or(a: Json, b: Json): Json {
    if Truthy(a) then a else b
  }

  function Str(e: Env, j: Json): string {
    if j.JString? then j.s else e.str_(j)
  }

  // ------------------------------------------------------------------- normalisation

  // Stripped and in lower case, a falsy value read as empty; None is the error a truthy
  // value that is not a string causes.
  function Severity(e: Env, j: Json): Option<string> {
    if !Truthy(j) then Some(e.lower(""))
    else if j.JString? then Some(e.lower(Strip(j.s)))
    else None
  }

  function Package(e: Env, j: Json): string {
    if j.JNull? then "" else Strip(Str(e, j))
  }

  function Advisory(e: Env, j: Json): string {
    if j.JNull? then "" else e.lower(Strip(Str(e, j)))
  }

  // ----------------------------------------------------------------- iter_vulns

  datatype Vuln = Vuln(name: Json, severity: Json, id: Json)

  // The first of the CVEs, null when there are none; None is the error of a truthy value
  // that cannot be indexed.
  function FirstCve(j: Json): Option<Json> {
    if !Truthy(j) then Some(JNull)
    else match j
         case JArray(items) => Some(items[0])
         case JString(s) => Some(JString(s[..1]))
         case _ => None
  }

  function PickTail(e: Env, a: seq<(string, Json)>): Json {
    var id := Get(a, "id");
    var text := if id.JNull? then JNull else JString(Str(e, id));
    Or(text, Or(Get(a, "title"), Or(Get(a, "advisory"), Get(a, "overview"))))
  }

  function PickAdvisoryID(e: Env, a: seq<(string, Json)>): Option<Json> {
    var first := Or(Get(a, "github_advisory_id"), Get(a, "url"));
    if Truthy(first) then Some(first)
    else match FirstCve(Get(a, "cves"))
         case None => None
         case Some(cve) => Some(Or(cve, PickTail(e, a)))
  }

  // One value of the "advisories" object.
  function AdvisoryVuln(e: Env, j: Json): Option<Vuln> {
    if !j.JObject? then None
    else match PickAdvisoryID(e, j.pairs)
         case None => None
         case Some(id) =>
           Some(Vuln(Or(Get(j.pairs, "module_name"), Get(j.pairs, "name")), Get(j.pairs, "severity"), id))
  }

  function ViaID(item: Json): Option<Json> {
    match item
    case JObject(p) => Some(Or(Get(p, "github_advisory_id"),
                               Or(Get(p, "url"), Or(Get(p, "source"), Or(Get(p, "title"), Get(p, "name"))))))
    case JString(_) => Some(item)
    case _ => None
  }

  function ViaTitle(item: Json): Option<Json> {
    match item
    case JObject(p) => Some(Or(Get(p, "title"), Or(Get(p, "url"), Or(Get(p, "advisory"), Get(p, "source")))))
    case JString(_) => Some(item)
    case _ => None
  }

  function ViaItems(via: Json): seq<Json> {
    match via
    case JArray(items) => items
    case JString(_) => [via]
    case _ => []
  }

  // The truthy advisory identifiers of a via list, in order.
  function ViaIDs(items: seq<Json>): seq<Json> {
    if items == [] then []
    else
      var last := ViaID(items[|items| - 1]);
      ViaIDs(items[..|items| - 1]) + (if last.Some? && Truthy(last.value) then [last.value] else [])
  }

  // "; ".join accepts nothing but strings.
  predicate Joinable(items: seq<Json>) {
    forall i :: 0 <= i < |items| && ViaTitle(items[i]).Some? && Truthy(ViaTitle(items[i]).value) ==>
      ViaTitle(items[i]).value.JString?
  }

  // One entry of the "vulnerabilities" object.
  function EntryVulns(name: string, j: Json): Option<seq<Vuln>> {
    if !j.JObject? then None
    else
      var items := ViaItems(Get(j.pairs, "via"));
      if !Joinable(items) then None
      else
        var ids := ViaIDs(items);
        Some(seq(|ids|, i requires 0 <= i < |ids| => Vuln(JString(name), Get(j.pairs, "severity"), ids[i])))
  }

  function AllAdvisories(e: Env, pairs: seq<(string, Json)>): Option<seq<Vuln>> {
    if pairs == [] then Some([])
    else
      var rest, last := AllAdvisories(e, pairs[..|pairs| - 1]), AdvisoryVuln(e, pairs[|pairs| - 1].1);
      if rest.None? || last.None? then None else Some(rest.value + [last.value])
  }

  function Join(a: Option<seq<Vuln>>, b: Option<seq<Vuln>>): Option<seq<Vuln>> {
    if a.None? || b.None? then None else Some(a.value + b.value)
  }

  function AllEntries(pairs: seq<(string, Json)>): Option<seq<Vuln>> {
    if pairs == [] then Some([])
    else Join(AllEntries(pairs[..|pairs| - 1]), EntryVulns(pairs[|pairs| - 1].0, pairs[|pairs| - 1].1))
  }

  // Everything iter_vulns yields, None if it raises on the way.
  function Vulns(e: Env, data: Json): Option<seq<Vuln>> {
    if !data.JObject? then None
    else
      var advisories, entries := Get(data.pairs, "advisories"), Get(data.pairs, "vulnerabilities");
      var a := if advisories.JObject? then AllAdvisories(e, advisories.pairs) else Some([]);
      var v := if entries.JObject? then AllEntries(entries.pairs) else Some([]);
      Join(a, v)
  }

  // The two lists iter_vulns fills from a via list.
  method ViaLists(via: Json) returns (titles: seq<Json>, ids: seq<Json>)
    ensures ids == ViaIDs(ViaItems(via))
    ensures (forall t :: t in titles && Truthy(t) ==> t.JString?) <==> Joinable(ViaItems(via))
  {
    titles, ids := [], [];
    var items := ViaItems(via);
    for i := 0 to |items|
      invariant ids == ViaIDs(items[..i])
      invariant (forall t :: t in titles && Truthy(t) ==> t.JString?) <==> Joinable(items[..i])
    {
      assert items[..i + 1][..i] == items[..i];
      ghost var before := titles;
      match items[i] {
        case JObject(_) =>
          if Truthy(ViaID(items[i]).value) { ids := ids + [ViaID(items[i]).value]; }
          titles := titles + [ViaTitle(items[i]).value];
        case JString(_) =>
          if Truthy(items[i]) { ids := ids + [items[i]]; }
          titles := titles + [items[i]];
        case _ =>
      }
      JoinStep(items, i);
      assert titles == before || titles == before + [ViaTitle(items[i]).value];
    }
    assert items[..|items|] == items;
  }

  lemma JoinStep(items: seq<Json>, i: nat)
    requires i < |items|
    ensures Joinable(items[..i + 1])
       <==> Joinable(items[..i])
            && (ViaTitle(items[i]).Some? && Truthy(ViaTitle(items[i]).value) ==> ViaTitle(items[i]).value.JString?)
  {
    assert items[..i + 1] == items[..i] + [items[i]];
  }

  /** iter_vulns: first the advisories, then the via lists of the vulnerabilities. */
  method IterVulns(e: Env, data: Json) returns (r: Option<seq<Vuln>>)
    ensures r == Vulns(e, data)
  {
    if !data.JObject? {
      return None;
    }
    var out := Some([]);
    var advisories := Get(data.pairs, "advisories");
    if advisories.JObject? {
      out := AdvisoryLoop(e, advisories.pairs);
    }
    var more := Some([]);
    var vulnerabilities := Get(data.pairs, "vulnerabilities");
    if vulnerabilities.JObject? {
      more := EntryLoop(vulnerabilities.pairs);
    }
    r := Join(out, more);
  }

  method AdvisoryLoop(e: Env, pairs: seq<(string, Json)>) returns (r: Option<seq<Vuln>>)
    ensures r == AllAdvisories(e, pairs)
  {
    var out: seq<Vuln> := [];
    for i := 0 to |pairs|
      invariant AllAdvisories(e, pairs[..i]) == Some(out)
    {
      assert pairs[..i + 1][..i] == pairs[..i];
      var v := AdvisoryVuln(e, pairs[i].1);
      if v.None? {
        AdvisoriesRaise(e, pairs, i + 1);
        return None;
      }
      out := out + [v.value];
    }
    assert pairs[..|pairs|] == pairs;
    r := Some(out);
  }

  // Once iter_vulns has raised there is no more.
  lemma {:induction false} AdvisoriesRaise(e: Env, pairs: seq<(string, Json)>, n: nat)
    requires n <= |pairs| && AllAdvisories(e, pairs[..n]).None?
    ensures AllAdvisories(e, pairs).None?
    decreases |pairs| - n
  {
    if n < |pairs| {
      assert pairs[..n + 1][..n] == pairs[..n];
      AdvisoriesRaise(e, pairs, n + 1);
    } else {
      assert pairs[..n] == pairs;
    }
  }

  method EntryLoop(pairs: seq<(string, Json)>) returns (r: Option<seq<Vuln>>)
    ensures r == AllEntries(pairs)
  {
    var out: seq<Vuln> := [];
    for i := 0 to |pairs|
      invariant AllEntries(pairs[..i]) == Some(out)
    {
      assert pairs[..i + 1][..i] == pairs[..i];
      var vs := OneEntry(pairs[i].0, pairs[i].1);
      if vs.None? {
        EntriesRaise(pairs, i + 1);
        return None;
      }
      out := out + vs.value;
    }
    assert pairs[..|pairs|] == pairs;
    r := Some(out);
  }

  lemma {:induction false} EntriesRaise(pairs: seq<(string, Json)>, n: nat)
    requires n <= |pairs| && AllEntries(pairs[..n]).None?
    ensures AllEntries(pairs).None?
    decreases |pairs| - n
  {
    if n < |pairs| {
      assert pairs[..n + 1][..n] == pairs[..n];
      EntriesRaise(pairs, n + 1);
    } else {
      assert pairs[..n] == pairs;
    }
  }

  method OneEntry(name: string, vuln: Json) returns (r: Option<seq<Vuln>>)
    ensures r == EntryVulns(name, vuln)
  {
    if !vuln.JObject? {
      return None;
    }
    var titles, ids := ViaLists(Get(vuln.pairs, "via"));
    if exists t :: t in titles && Truthy(t) && !t.JString? {
      return None;
    }
    var out: seq<Vuln> := [];
    for i := 0 to |ids|
      invariant |out| == i && forall k :: 0 <= k < i ==>
                out[k] == Vuln(JString(name), Get(vuln.pairs, "severity"), ids[k])
    {
      out := out + [Vuln(JString(name), Get(vuln.pairs, "severity"), ids[i])];
    }
    assert Joinable(ViaItems(Get(vuln.pairs, "via")));
    assert out == EntryVulns(name, vuln).value;
    r := Some(out);
  }

  // -------------------------------------------------------------- the exception index

  type Key = (string, string)

  datatype Entry = Entry(severity: string, expires: int)

  datatype Problem =
    | MissingFields(i: nat) | BadDate(i: nat) | BlankKey(i: nat) | Duplicate(i: nat)
    | NoAdvisoryID(k: nat) | SeverityMismatch(k: nat)

  const REQUIRED_FIELDS: seq<string> := ["package", "advisory", "severity", "mitigation", "expires_on"]

  function Field(r: Record, f: string): string {
    if f in r then r[f] else ""
  }

  predicate HasRequired(r: Record) {
    forall i :: 0 <= i < |REQUIRED_FIELDS| ==> Field(r, REQUIRED_FIELDS[i]) != ""
  }

  function KeyOf(e: Env, r: Record): Key {
    (Strip(Field(r, "package")), e.lower(Strip(Field(r, "advisory"))))
  }

  function Expires(e: Env, r: Record): Option<int> {
    e.isoDate(Field(r, "expires_on"))
  }

  function EntryOf(e: Env, r: Record): Entry
    requires Expires(e, r).Some?
  {
    Entry(e.lower(Strip(Field(r, "severity"))), Expires(e, r).value)
  }

  // What the index loop says of one record, before it looks for duplicates.
  function RecordProblem(e: Env, i: nat, r: Record): Option<Problem> {
    if !HasRequired(r) then Some(MissingFields(i))
    else if Expires(e, r).None? then Some(BadDate(i))
    else if KeyOf(e, r).0 == "" || KeyOf(e, r).1 == "" then Some(BlankKey(i))
    else None
  }

  datatype Indexed = Indexed(index: map<Key, Entry>, errors: seq<Problem>)

  function IndexStep(e: Env, x: Indexed, i: nat, r: Record): Indexed {
    if RecordProblem(e, i, r).Some? then x.(errors := x.errors + [RecordProblem(e, i, r).value])
    else if KeyOf(e, r) in x.index then x.(errors := x.errors + [Duplicate(i)])
    else x.(index := x.index[KeyOf(e, r) := EntryOf(e, r)])
  }

  function IndexOf(e: Env, rs: seq<Record>): Indexed {
    if rs == [] then Indexed(map[], []) else IndexStep(e, IndexOf(e, rs[..|rs| - 1]), |rs| - 1, rs[|rs| - 1])
  }

  /** The first loop of main. */
  method BuildIndex(e: Env, rs: seq<Record>) returns (x: Indexed)
    ensures x == IndexOf(e, rs)
  {
    var index: map<Key, Entry>, errors: seq<Problem> := map[], [];
    for i := 0 to |rs|
      invariant Indexed(index, errors) == IndexOf(e, rs[..i])
    {
      assert rs[..i + 1][..i] == rs[..i];
      var exc := rs[i];
      if !HasRequired(exc) {
        errors := errors + [MissingFields(i)];
        continue;
      }
      var key, date := KeyOf(e, exc), Expires(e, exc);
      if date.None? {
        errors := errors + [BadDate(i)];
        continue;
      }
      if key.0 == "" || key.1 == "" {
        errors := errors + [BlankKey(i)];
        continue;
      }
      if key in index {
        errors := errors + [Duplicate(i)];
        continue;
      }
      index := index[key := EntryOf(e, exc)];
    }
    assert rs[..|rs|] == rs;
    x := Indexed(index, errors);
  }

  // ------------------------------------------------------------------------ the scan

  datatype Scan = Scan(seen: set<Key>, errors: seq<Problem>, missing: seq<nat>, expired: seq<nat>)
  {
    predicate Clean() {
      errors == [] && missing == [] && expired == []
    }
  }

  predicate High(sev: string) {
    sev == "high" || sev == "critical"
  }

  function VulnKey(e: Env, v: Vuln): Key {
    (Package(e, v.name), Advisory(e, v.id))
  }

  function ScanOne(e: Env, index: map<Key, Entry>, s: Scan, k: nat, sev: string, v: Vuln): Scan {
    if !High(sev) || !Truthy(v.name) then s
    else if VulnKey(e, v).1 == "" then s.(errors := s.errors + [NoAdvisoryID(k)])
    else
      var key := VulnKey(e, v);
      if key in s.seen then s
      else
        var t := s.(seen := s.seen + {key});
        if key !in index then t.(missing := t.missing + [k])
        else
          var other := index[key].severity != "" && index[key].severity != sev;
          var u := if other then t.(errors := t.errors + [SeverityMismatch(k)]) else t;
          if index[key].expires < e.today then u.(expired := u.expired + [k]) else u
  }

  // None if a severity cannot be normalised.
  function ScanAll(e: Env, index: map<Key, Entry>, vs: seq<Vuln>): Option<Scan> {
    if vs == [] then Some(Scan({}, [], [], []))
    else
      var k := |vs| - 1;
      var rest, sev := ScanAll(e, index, vs[..k]), Severity(e, vs[k].severity);
      if rest.None? || sev.None? then None else Some(ScanOne(e, index, rest.value, k, sev.value, vs[k]))
  }

  /** The second loop of main, with its set of keys already seen. */
  method ScanVulns(e: Env, index: map<Key, Entry>, vs: seq<Vuln>) returns (r: Option<Scan>)
    ensures r == ScanAll(e, index, vs)
  {
    var s := Scan({}, [], [], []);
    for k := 0 to |vs|
      invariant ScanAll(e, index, vs[..k]) == Some(s)
    {
      assert vs[..k + 1][..k] == vs[..k];
      var sev := Severity(e, vs[k].severity);
      if sev.None? {
        ScanRaises(e, index, vs, k + 1);
        return None;
      }
      if !High(sev.value) || !Truthy(vs[k].name) {
        continue;
      }
      var key := VulnKey(e, vs[k]);
      if key.1 == "" {
        s := s.(errors := s.errors + [NoAdvisoryID(k)]);
        continue;
      }
      if key in s.seen {
        continue;
      }
      s := s.(seen := s.seen + {key});
      if key !in index {
        s := s.(missing := s.missing + [k]);
        continue;
      }
      if index[key].severity != "" && index[key].severity != sev.value {
        s := s.(errors := s.errors + [SeverityMismatch(k)]);
      }
      if index[key].expires < e.today {
        s := s.(expired := s.expired + [k]);
      }
    }
    assert vs[..|vs|] == vs;
    r := Some(s);
  }

  lemma {:induction false} ScanRaises(e: Env, index: map<Key, Entry>, vs: seq<Vuln>, n: nat)
    requires n <= |vs| && ScanAll(e, index, vs[..n]).None?
    ensures ScanAll(e, index, vs).None?
    decreases |vs| - n
  {
    if n < |vs| {
      assert vs[..n + 1][..n] == vs[..n];
      ScanRaises(e, index, vs, n + 1);
    } else {
      assert vs[..n] == vs;
    }
  }

  // ------------------------------------------------------------------------ the verdict

  // What main returns, or that it raises.
  datatype Exit = Passed | Rejected | Raised

  function Gate(e: Env, lines: seq<string>, audit: Json): Exit {
    match Parse(lines)
    case None => Raised
    case Some(rs) =>
      match Vulns(e, audit)
      case None => Raised
      case Some(vs) =>
        match ScanAll(e, IndexOf(e, rs).index, vs)
        case None => Raised
        case Some(s) => if IndexOf(e, rs).errors == [] && s.Clean() then Passed else Rejected
  }

  method RunGate(e: Env, lines: seq<string>, audit: Json) returns (exit: Exit)
    ensures exit == Gate(e, lines, audit)
  {
    var rs := ParseExceptions(lines);
    if rs.None? {
      return Raised;
    }
    var x := BuildIndex(e, rs.value);
    var vs := IterVulns(e, audit);
    if vs.None? {
      return Raised;
    }
    var s := ScanVulns(e, x.index, vs.value);
    if s.None? {
      return Raised;
    }
    var wrong := |x.errors| > 0 || |s.value.errors| > 0 || |s.value.missing| > 0 || |s.value.expired| > 0;
    exit := if wrong then Rejected else Passed;
  }
}

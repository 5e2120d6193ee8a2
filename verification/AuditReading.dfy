/**
 How the gate reads a report and a list, in terms of their text: which of several fields
 identifies a finding, when an exception and a finding have the same key, and what a pass
 says about both.
 */
module AuditReading {
  import opened Wrappers
  import opened ExceptionsParser
  import opened AuditGate
  import opened AuditLaws

  // --------------------------------------------------------------------------- JSON values

  /** Exactly null, false, zero and the empty values are falsy. */
  lemma TruthyExact(j: Json)
    ensures Truthy(j)
       <==> j != JNull && j != JBool(false) && j != JNumber(0.0) && j != JString("") && j != JArray([])
            && j != JObject([])
  {
  }

  /** A key an object does not have reads as null. */
  lemma {:induction false} GetMissing(pairs: seq<(string, Json)>, key: string)
    requires forall i :: 0 <= i < |pairs| ==> pairs[i].0 != key
    ensures Get(pairs, key) == JNull
  {
    if pairs != [] {
      assert pairs[0].0 != key;
      forall i | 0 <= i < |pairs| - 1 ensures pairs[1..][i].0 != key {
        assert pairs[i + 1].0 != key;
      }
      GetMissing(pairs[1..], key);
    }
  }

  // What a chain of or-operands yields: the first truthy one, or the last.
  ghost predicate FirstTruthy(operands: seq<Json>, r: Json) {
    exists i :: 0 <= i < |operands| && PickedAt(operands, i, r)
  }

  ghost predicate PickedAt(operands: seq<Json>, i: nat, r: Json)
    requires i < |operands|
  {
    && r == operands[i] && (Truthy(r) || i == |operands| - 1)
    && forall j :: 0 <= j < i ==> !Truthy(operands[j])
  }

  lemma LastOperand(a: Json)
    ensures FirstTruthy([a], a)
  {
    assert PickedAt([a], 0, a);
  }

  lemma OneMoreOperand(a: Json, operands: seq<Json>, r: Json)
    requires FirstTruthy(operands, r)
    ensures FirstTruthy([a] + operands, Or(a, r))
  {
    var all := [a] + operands;
    if Truthy(a) {
      assert PickedAt(all, 0, a);
    } else {
      var i :| 0 <= i < |operands| && PickedAt(operands, i, r);
      assert all[i + 1] == operands[i] && forall j :: 0 < j < |all| ==> all[j] == operands[j - 1];
      assert PickedAt(all, i + 1, r);
    }
  }

  lemma TwoOperands(a: Json, b: Json)
    ensures FirstTruthy([a, b], Or(a, b))
  {
    LastOperand(b);
    OneMoreOperand(a, [b], b);
    assert [a] + [b] == [a, b];
  }

  lemma ThreeOperands(a: Json, b: Json, c: Json)
    ensures FirstTruthy([a, b, c], Or(a, Or(b, c)))
  {
    TwoOperands(b, c);
    OneMoreOperand(a, [b, c], Or(b, c));
    assert [a] + [b, c] == [a, b, c];
  }

  lemma FourOperands(a: Json, b: Json, c: Json, d: Json)
    ensures FirstTruthy([a, b, c, d], Or(a, Or(b, Or(c, d))))
  {
    ThreeOperands(b, c, d);
    OneMoreOperand(a, [b, c, d], Or(b, Or(c, d)));
    assert [a] + [b, c, d] == [a, b, c, d];
  }

  lemma FiveOperands(a: Json, b: Json, c: Json, d: Json, f: Json)
    ensures FirstTruthy([a, b, c, d, f], Or(a, Or(b, Or(c, Or(d, f)))))
  {
    FourOperands(b, c, d, f);
    OneMoreOperand(a, [b, c, d, f], Or(b, Or(c, Or(d, f))));
    assert [a] + [b, c, d, f] == [a, b, c, d, f];
  }

  // ------------------------------------------------------------------------ identification

  // The first CVE of an advisory, null when it lists none.
  function Cve(j: Json): Json {
    if j.JArray? && j.items != [] then j.items[0]
    else if j.JString? && j.s != "" then JString(j.s[..1])
    else JNull
  }

  // Something that is there and cannot be indexed by a number.
  predicate NotIndexable(j: Json) {
    (j.JBool? && j.b) || (j.JNumber? && j.n != 0.0) || (j.JObject? && j.pairs != [])
  }

  // The candidates for the identifier of an advisory, in order.
  function Candidates(e: Env, a: seq<(string, Json)>): seq<Json> {
    [Get(a, "github_advisory_id"), Get(a, "url"), Cve(Get(a, "cves")),
     if Get(a, "id").JNull? then JNull else JString(Str(e, Get(a, "id"))),
     Get(a, "title"), Get(a, "advisory"), Get(a, "overview")]
  }

  lemma CveExact(j: Json)
    ensures FirstCve(j) == if NotIndexable(j) then None else Some(Cve(j))
  {
  }

  /** The identifier of an advisory: the GitHub ID, the URL, the first CVE, the ID, the title,
      the advisory or the overview, the first that is truthy.  Picking it raises iff the first
      two are falsy and the CVEs cannot be indexed. */
  lemma AdvisoryIdentifier(e: Env, a: seq<(string, Json)>)
    ensures PickAdvisoryID(e, a).None?
       <==> !Truthy(Get(a, "github_advisory_id")) && !Truthy(Get(a, "url")) && NotIndexable(Get(a, "cves"))
    ensures PickAdvisoryID(e, a).Some? ==> FirstTruthy(Candidates(e, a), PickAdvisoryID(e, a).value)
  {
    var c := Candidates(e, a);
    CveExact(Get(a, "cves"));
    if Truthy(c[0]) {
      assert PickedAt(c, 0, c[0]);
    } else if Truthy(c[1]) {
      assert PickedAt(c, 1, c[1]);
    } else if PickAdvisoryID(e, a).Some? {
      FiveOperands(c[2], c[3], c[4], c[5], c[6]);
      var tail := [c[2], c[3], c[4], c[5], c[6]];
      var r := Or(c[2], Or(c[3], Or(c[4], Or(c[5], c[6]))));
      OneMoreOperand(c[1], tail, r);
      OneMoreOperand(c[0], [c[1]] + tail, r);
      assert [c[0]] + ([c[1]] + tail) == c;
    }
  }

  /** The identifier and the title of an element of a via list. */
  lemma ViaFields(p: seq<(string, Json)>)
    ensures ViaID(JObject(p)).Some?
            && FirstTruthy([Get(p, "github_advisory_id"), Get(p, "url"), Get(p, "source"), Get(p, "title"),
                            Get(p, "name")], ViaID(JObject(p)).value)
    ensures ViaTitle(JObject(p)).Some?
            && FirstTruthy([Get(p, "title"), Get(p, "url"), Get(p, "advisory"), Get(p, "source")],
                           ViaTitle(JObject(p)).value)
  {
    FiveOperands(Get(p, "github_advisory_id"), Get(p, "url"), Get(p, "source"), Get(p, "title"), Get(p, "name"));
    FourOperands(Get(p, "title"), Get(p, "url"), Get(p, "advisory"), Get(p, "source"));
  }

  lemma {:induction false} ViaIDsExact(items: seq<Json>, id: Json)
    ensures id in ViaIDs(items) <==> Truthy(id) && exists i :: 0 <= i < |items| && ViaID(items[i]) == Some(id)
  {
    if items != [] {
      var n := |items| - 1;
      ViaIDsExact(items[..n], id);
      assert forall i :: 0 <= i < n ==> items[..n][i] == items[i];
    }
  }

  // ------------------------------------------------------------------------ what is listed

  lemma {:induction false} AdvisoryAmong(e: Env, pairs: seq<(string, Json)>, k: nat)
    requires k < |pairs| && AllAdvisories(e, pairs).Some?
    ensures AdvisoryVuln(e, pairs[k].1).Some? && AdvisoryVuln(e, pairs[k].1).value in AllAdvisories(e, pairs).value
  {
    var n := |pairs| - 1;
    if k < n {
      AdvisoryAmong(e, pairs[..n], k);
      assert pairs[..n][k] == pairs[k];
    }
  }

  lemma {:induction false} EntryAmong(pairs: seq<(string, Json)>, k: nat, v: Vuln)
    requires k < |pairs| && AllEntries(pairs).Some?
    ensures EntryVulns(pairs[k].0, pairs[k].1).Some?
    ensures v in EntryVulns(pairs[k].0, pairs[k].1).value ==> v in AllEntries(pairs).value
  {
    var n := |pairs| - 1;
    if k < n {
      EntryAmong(pairs[..n], k, v);
      assert pairs[..n][k] == pairs[k];
    }
  }

  /** Every value of the "advisories" object is a finding: named by its module or its name,
      with its severity and its identifier. */
  lemma AdvisoryIsListed(e: Env, top: seq<(string, Json)>, pairs: seq<(string, Json)>, k: nat)
    requires Get(top, "advisories") == JObject(pairs) && k < |pairs| && Vulns(e, JObject(top)).Some?
    ensures pairs[k].1.JObject? && PickAdvisoryID(e, pairs[k].1.pairs).Some?
    ensures var a := pairs[k].1.pairs;
            exists v :: v in Vulns(e, JObject(top)).value && v.severity == Get(a, "severity")
                        && FirstTruthy([Get(a, "module_name"), Get(a, "name")], v.name)
                        && v.id == PickAdvisoryID(e, a).value
  {
    AdvisoryAmong(e, pairs, k);
    var a := pairs[k].1.pairs;
    TwoOperands(Get(a, "module_name"), Get(a, "name"));
    var v := AdvisoryVuln(e, pairs[k].1).value;
    assert v in Vulns(e, JObject(top)).value;
  }

  // The elements a "via" value contributes: those of a list, or a lone string.
  ghost predicate InVia(via: Json, item: Json) {
    || (via.JArray? && exists i :: 0 <= i < |via.items| && via.items[i] == item)
    || (via.JString? && item == via)
  }

  /** And so is every truthy identifier of a via list or a via string of an entry of
      "vulnerabilities": a string identifies itself, an object as said above; the finding is
      named by the key of the entry and has its severity. */
  lemma EntryIsListed(e: Env, top: seq<(string, Json)>, pairs: seq<(string, Json)>, k: nat, item: Json, id: Json)
    requires Get(top, "vulnerabilities") == JObject(pairs) && k < |pairs| && Vulns(e, JObject(top)).Some?
    ensures pairs[k].1.JObject?
    ensures InVia(Get(pairs[k].1.pairs, "via"), item) && Truthy(id)
            && ((item.JString? && id == item) || (item.JObject? && ViaID(item) == Some(id))) ==>
              Vuln(JString(pairs[k].0), Get(pairs[k].1.pairs, "severity"), id) in Vulns(e, JObject(top)).value
  {
    var entry := pairs[k].1;
    EntryAmong(pairs, k, Vuln(JNull, JNull, JNull));
    var v := Vuln(JString(pairs[k].0), Get(entry.pairs, "severity"), id);
    EntryAmong(pairs, k, v);
    var items := ViaItems(Get(entry.pairs, "via"));
    if InVia(Get(entry.pairs, "via"), item) && Truthy(id) && ViaID(item) == Some(id) {
      assert item in items;
      ViaIDsExact(items, id);
      var j :| 0 <= j < |ViaIDs(items)| && ViaIDs(items)[j] == id;
      assert EntryVulns(pairs[k].0, entry).value[j] == v;
    }
  }

  // ----------------------------------------------------------------------------------- keys

  lemma Padded(a: string, s: string, b: string)
    requires Blank(a) && Blank(b)
    ensures Strip(a + s + b) == Strip(s)
  {
    StripBack(a + s, b);
    StripFront(a, s);
  }

  /** An exception and a finding have the same key iff their packages agree up to white space
      around them, and their advisories up to white space and case. */
  lemma SameKey(e: Env, r: Record, v: Vuln)
    requires "package" in r && "advisory" in r && v.name.JString? && v.id.JString?
    ensures KeyOf(e, r) == VulnKey(e, v)
       <==> Strip(r["package"]) == Strip(v.name.s) && e.lower(Strip(r["advisory"])) == e.lower(Strip(v.id.s))
  {
  }

  // The text of a value that is there.
  function Text(e: Env, j: Json): string {
    match j
    case JString(s) => s
    case _ => e.str_(j)
  }

  /** A name or an identifier that is not a string is read as its text, and null as empty; a
      severity that is falsy reads as empty, and any other that is not a string raises. */
  lemma OddValues(e: Env, v: Vuln)
    ensures VulnKey(e, v)
         == (if v.name == JNull then "" else Strip(Text(e, v.name)),
             if v.id == JNull then "" else e.lower(Strip(Text(e, v.id))))
    ensures Severity(e, v.severity).None? <==> Truthy(v.severity) && !v.severity.JString?
    ensures Severity(e, v.severity).Some? ==>
              Severity(e, v.severity).value == e.lower(if v.severity.JString? then Strip(v.severity.s) else "")
  {
  }

  /** For instance when they spell one advisory in different case, with any blanks around it. */
  lemma SpellingDoesNotMatter(
      e: Env, r: Record, severity: Json, pads: seq<string>, package: string, advisory: string, spelled: string)
    requires |pads| == 8 && forall i :: 0 <= i < 8 ==> Blank(pads[i])
    requires e.lower(Strip(advisory)) == e.lower(Strip(spelled))
    requires "package" in r && r["package"] == pads[0] + package + pads[1]
    requires "advisory" in r && r["advisory"] == pads[2] + advisory + pads[3]
    ensures KeyOf(e, r)
         == VulnKey(e, Vuln(JString(pads[4] + package + pads[5]), severity, JString(pads[6] + spelled + pads[7])))
  {
    Padded(pads[0], package, pads[1]);
    Padded(pads[2], advisory, pads[3]);
    Padded(pads[4], package, pads[5]);
    Padded(pads[6], spelled, pads[7]);
  }

  // -------------------------------------------------------------------------- what passes

  predicate Filled(r: Record, field: string) {
    field in r && r[field] != ""
  }

  // An exception as the format asks for it.
  predicate Complete(r: Record) {
    && Filled(r, "package") && Filled(r, "advisory") && Filled(r, "severity") && Filled(r, "mitigation")
    && Filled(r, "expires_on")
  }

  lemma RequiredNamed(r: Record)
    ensures HasRequired(r) <==> Complete(r)
  {
    assert REQUIRED_FIELDS[0] == "package" && REQUIRED_FIELDS[1] == "advisory" && REQUIRED_FIELDS[2] == "severity"
           && REQUIRED_FIELDS[3] == "mitigation" && REQUIRED_FIELDS[4] == "expires_on";
    if HasRequired(r) {
      assert Field(r, REQUIRED_FIELDS[0]) != "" && Field(r, REQUIRED_FIELDS[1]) != "";
      assert Field(r, REQUIRED_FIELDS[2]) != "" && Field(r, REQUIRED_FIELDS[3]) != "";
      assert Field(r, REQUIRED_FIELDS[4]) != "";
    }
    if Complete(r) {
      forall i | 0 <= i < |REQUIRED_FIELDS| ensures Field(r, REQUIRED_FIELDS[i]) != "" {
      }
    }
  }

  // The text of a finding that the gate is about.
  predicate HighFinding(e: Env, v: Vuln) {
    && v.name.JString? && v.name.s != "" && v.severity.JString? && v.severity.s != ""
    && (e.lower(Strip(v.severity.s)) == "high" || e.lower(Strip(v.severity.s)) == "critical")
  }

  // The exception is for the finding, and has not expired.
  predicate Excepts(e: Env, r: Record, v: Vuln)
    requires Complete(r) && v.name.JString? && v.id.JString?
  {
    && Strip(r["package"]) == Strip(v.name.s)
    && e.lower(Strip(r["advisory"])) == e.lower(Strip(v.id.s))
    && e.isoDate(r["expires_on"]).Some? && e.today <= e.isoDate(r["expires_on"]).value
  }

  /** What a pass means, read off the text of the list and the report: every record has its
      five fields, and every high or critical finding has an exception for its package and its
      advisory that holds today; one for its severity, too, unless it repeats the key of an
      earlier finding. */
  lemma PassedInText(e: Env, lines: seq<string>, audit: Json, k: nat) returns (r: Record)
    requires Gate(e, lines, audit) == Passed && k < |Vulns(e, audit).value|
    requires HighFinding(e, Vulns(e, audit).value[k]) && Vulns(e, audit).value[k].id.JString?
    ensures Parse(lines).Some? && r in Parse(lines).value && Complete(r)
    ensures var vs := Vulns(e, audit).value;
            && Excepts(e, r, vs[k])
            && ((forall j :: 0 <= j < k ==> VulnKey(e, vs[j]) != VulnKey(e, vs[k])) ==>
                  e.lower(Strip(r["severity"])) in ["", e.lower(Strip(vs[k].severity.s))])
  {
    VerdictExact(e, lines, audit);
    var vs, rs := Vulns(e, audit).value, Parse(lines).value;
    var i := PassedMeansExcepted(e, lines, audit, k);
    r := rs[i];
    assert RecordOk(e, r);
    RequiredNamed(r);
    SameKey(e, r, vs[k]);
    if forall j :: 0 <= j < k ==> VulnKey(e, vs[j]) != VulnKey(e, vs[k]) {
      assert !SeenBefore(e, vs, k, VulnKey(e, vs[k]));
      assert Covered(e, rs, vs[k]);
      CoverIsUnique(e, rs, vs[k]);
      assert CoveredBy(e, r, vs[k]);
    }
  }

  /** A finding without such an exception makes the gate fail. */
  lemma MissingIsNotPassed(e: Env, lines: seq<string>, audit: Json, k: nat)
    requires Parse(lines).Some? && Vulns(e, audit).Some? && k < |Vulns(e, audit).value|
    requires HighFinding(e, Vulns(e, audit).value[k]) && Vulns(e, audit).value[k].id.JString?
    requires forall r :: r in Parse(lines).value && Complete(r) ==> !Excepts(e, r, Vulns(e, audit).value[k])
    ensures Gate(e, lines, audit) != Passed
  {
    if Gate(e, lines, audit) == Passed {
      var r := PassedInText(e, lines, audit, k);
      assert false;
    }
  }

  /** Only high and critical findings count: with a list that is in order, a report passes
      whatever its other findings are. */
  lemma OthersAreIgnored(e: Env, lines: seq<string>, audit: Json)
    requires Parse(lines).Some? && GoodRecords(e, Parse(lines).value) && Vulns(e, audit).Some?
    requires forall k :: 0 <= k < |Vulns(e, audit).value| ==> IgnoredFinding(e, Vulns(e, audit).value[k])
    ensures Gate(e, lines, audit) == Passed
  {
    VerdictExact(e, lines, audit);
    var vs := Vulns(e, audit).value;
    forall k | 0 <= k < |vs| ensures Severity(e, vs[k].severity).Some? && !Relevant(e, vs[k]) {
      assert IgnoredFinding(e, vs[k]);
    }
  }

  // Without a name, or of a severity that reads neither high nor critical.
  predicate IgnoredFinding(e: Env, v: Vuln) {
    && (v.severity.JString? || !Truthy(v.severity))
    && (!Truthy(v.name)
        || (var text := e.lower(if v.severity.JString? then Strip(v.severity.s) else "");
            text != "high" && text != "critical"))
  }
}

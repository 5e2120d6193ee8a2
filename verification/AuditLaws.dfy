/**
 When the audit gate passes, exactly, and what does not matter to it.
 */
module AuditLaws {
  import opened Wrappers
  import opened ExceptionsParser
  import opened AuditGate

  // -------------------------------------------------------------- the index, in closed form

  predicate RecordOk(e: Env, r: Record) {
    HasRequired(r) && Expires(e, r).Some? && KeyOf(e, r).0 != "" && KeyOf(e, r).1 != ""
  }

  predicate DistinctKeys(e: Env, rs: seq<Record>) {
    forall i, j :: 0 <= i < j < |rs| ==> KeyOf(e, rs[i]) != KeyOf(e, rs[j])
  }

  // (a) and (b) of the verdict
  predicate GoodRecords(e: Env, rs: seq<Record>) {
    (forall i :: 0 <= i < |rs| ==> RecordOk(e, rs[i])) && DistinctKeys(e, rs)
  }

  // The index holds the entries of the records, and nothing else.
  ghost predicate Indexes(e: Env, rs: seq<Record>, index: map<Key, Entry>) {
    && (forall i :: 0 <= i < |rs| ==>
        RecordOk(e, rs[i]) && KeyOf(e, rs[i]) in index && index[KeyOf(e, rs[i])] == EntryOf(e, rs[i]))
    && (forall key :: key in index ==> Named(e, rs, key))
  }

  predicate Named(e: Env, rs: seq<Record>, key: Key) {
    exists i :: 0 <= i < |rs| && KeyOf(e, rs[i]) == key
  }

  lemma GoodSnoc(e: Env, rs: seq<Record>, r: Record)
    ensures GoodRecords(e, rs + [r]) <==> GoodRecords(e, rs) && RecordOk(e, r) && !Named(e, rs, KeyOf(e, r))
  {
    var more := rs + [r];
    assert more[|rs|] == r && forall i :: 0 <= i < |rs| ==> more[i] == rs[i];
    if GoodRecords(e, more) {
      forall i | 0 <= i < |rs| ensures KeyOf(e, rs[i]) != KeyOf(e, r) {
        assert KeyOf(e, more[i]) != KeyOf(e, more[|rs|]);
      }
    }
  }

  /** The index loop reports nothing iff every record is in order and no two share a key;
      and then the index holds exactly their entries. */
  lemma {:induction false} IndexExact(e: Env, rs: seq<Record>)
    ensures IndexOf(e, rs).errors == [] <==> GoodRecords(e, rs)
    ensures GoodRecords(e, rs) ==> Indexes(e, rs, IndexOf(e, rs).index)
  {
    if rs != [] {
      var front, last := rs[..|rs| - 1], rs[|rs| - 1];
      IndexExact(e, front);
      IndexNext(e, front, IndexOf(e, front), last);
      assert IndexOf(e, rs) == IndexStep(e, IndexOf(e, front), |front|, last);
      assert rs == front + [last];
    }
  }

  lemma IndexNext(e: Env, rs: seq<Record>, x: Indexed, r: Record)
    requires x.errors == [] <==> GoodRecords(e, rs)
    requires GoodRecords(e, rs) ==> Indexes(e, rs, x.index)
    ensures IndexStep(e, x, |rs|, r).errors == [] <==> GoodRecords(e, rs + [r])
    ensures GoodRecords(e, rs + [r]) ==> Indexes(e, rs + [r], IndexStep(e, x, |rs|, r).index)
  {
    GoodSnoc(e, rs, r);
    if GoodRecords(e, rs) { IndexSnoc(e, rs, x.index, r); }
  }

  lemma NamedSnoc(e: Env, rs: seq<Record>, r: Record, key: Key)
    ensures Named(e, rs + [r], key) <==> Named(e, rs, key) || KeyOf(e, r) == key
  {
    var more := rs + [r];
    assert more[|rs|] == r && forall i :: 0 <= i < |rs| ==> more[i] == rs[i];
  }

  lemma IndexSnoc(e: Env, rs: seq<Record>, index: map<Key, Entry>, r: Record)
    requires Indexes(e, rs, index)
    ensures KeyOf(e, r) in index <==> Named(e, rs, KeyOf(e, r))
    ensures RecordOk(e, r) && !Named(e, rs, KeyOf(e, r)) ==> Indexes(e, rs + [r], index[KeyOf(e, r) := EntryOf(e, r)])
  {
    if RecordOk(e, r) && !Named(e, rs, KeyOf(e, r)) {
      var next, more := index[KeyOf(e, r) := EntryOf(e, r)], rs + [r];
      forall key | key in next ensures Named(e, more, key) { NamedSnoc(e, rs, r, key); }
      forall i | 0 <= i < |more|
        ensures RecordOk(e, more[i]) && KeyOf(e, more[i]) in next && next[KeyOf(e, more[i])] == EntryOf(e, more[i])
      {
        if i < |rs| { assert more[i] == rs[i] && KeyOf(e, rs[i]) != KeyOf(e, r); }
      }
    }
  }

  // --------------------------------------------------------------- the scan, in closed form

  predicate Readable(e: Env, vs: seq<Vuln>) {
    forall k :: 0 <= k < |vs| ==> Severity(e, vs[k].severity).Some?
  }

  // A vulnerability the gate is about.
  predicate Relevant(e: Env, v: Vuln) {
    Severity(e, v.severity).Some? && High(Severity(e, v.severity).value) && Truthy(v.name)
  }

  predicate Identified(e: Env, v: Vuln) {
    Relevant(e, v) && VulnKey(e, v).1 != ""
  }

  predicate SeenBefore(e: Env, vs: seq<Vuln>, k: nat, key: Key)
    requires k <= |vs|
  {
    exists j :: 0 <= j < k && Identified(e, vs[j]) && VulnKey(e, vs[j]) == key
  }

  // The entry lets a vulnerability of that severity through.
  predicate Allows(e: Env, x: Entry, sev: string) {
    (x.severity == "" || x.severity == sev) && x.expires >= e.today
  }

  // What the scan demands of the k-th vulnerability.
  predicate FineAt(e: Env, index: map<Key, Entry>, vs: seq<Vuln>, k: nat)
    requires k < |vs|
  {
    Relevant(e, vs[k]) ==>
      && VulnKey(e, vs[k]).1 != ""
      && (!SeenBefore(e, vs, k, VulnKey(e, vs[k])) ==>
            VulnKey(e, vs[k]) in index && Allows(e, index[VulnKey(e, vs[k])], Severity(e, vs[k].severity).value))
  }

  lemma {:induction false} ScanRaisesExactly(e: Env, index: map<Key, Entry>, vs: seq<Vuln>)
    ensures ScanAll(e, index, vs).Some? <==> Readable(e, vs)
  {
    if vs != [] {
      var k := |vs| - 1;
      ScanRaisesExactly(e, index, vs[..k]);
      assert forall j :: 0 <= j < k ==> vs[j] == vs[..k][j];
    }
  }

  ghost predicate SeenIs(e: Env, vs: seq<Vuln>, seen: set<Key>) {
    forall key :: key in seen <==> SeenBefore(e, vs, |vs|, key)
  }

  lemma SeenSnoc(e: Env, vs: seq<Vuln>, seen: set<Key>)
    requires vs != [] && SeenIs(e, vs[..|vs| - 1], seen)
    ensures SeenIs(e, vs, if Identified(e, vs[|vs| - 1]) then seen + {VulnKey(e, vs[|vs| - 1])} else seen)
  {
    var k := |vs| - 1;
    forall key
      ensures SeenBefore(e, vs, |vs|, key) <==> key in seen || (Identified(e, vs[k]) && VulnKey(e, vs[k]) == key)
    {
      EarlierSame(e, vs, k, key);
      if SeenBefore(e, vs, |vs|, key) {
        var j :| 0 <= j < |vs| && Identified(e, vs[j]) && VulnKey(e, vs[j]) == key;
        assert j < k ==> SeenBefore(e, vs, k, key);
      }
    }
  }

  lemma EarlierSame(e: Env, vs: seq<Vuln>, n: nat, key: Key)
    requires n <= |vs|
    ensures SeenBefore(e, vs[..n], n, key) <==> SeenBefore(e, vs, n, key)
  {
    assert forall j :: 0 <= j < n ==> vs[..n][j] == vs[j];
  }

  // One step of the scan finds something wrong iff the vulnerability is not fine.
  lemma ScanOneExact(e: Env, index: map<Key, Entry>, vs: seq<Vuln>, k: nat, s: Scan)
    requires k < |vs| && SeenIs(e, vs[..k], s.seen) && Severity(e, vs[k].severity).Some?
    ensures var t := ScanOne(e, index, s, k, Severity(e, vs[k].severity).value, vs[k]);
            && t.seen == (if Identified(e, vs[k]) then s.seen + {VulnKey(e, vs[k])} else s.seen)
            && (t.Clean() <==> s.Clean() && FineAt(e, index, vs, k))
  {
    EarlierSame(e, vs, k, VulnKey(e, vs[k]));
    assert |vs[..k]| == k;
  }

  ghost predicate AllFine(e: Env, index: map<Key, Entry>, vs: seq<Vuln>) {
    forall k :: 0 <= k < |vs| ==> FineAt(e, index, vs, k)
  }

  lemma AllFineSnoc(e: Env, index: map<Key, Entry>, vs: seq<Vuln>)
    requires vs != []
    ensures AllFine(e, index, vs) <==> AllFine(e, index, vs[..|vs| - 1]) && FineAt(e, index, vs, |vs| - 1)
  {
    var k := |vs| - 1;
    forall j | 0 <= j < k ensures FineAt(e, index, vs[..k], j) <==> FineAt(e, index, vs, j) {
      SameFine(e, index, vs, k, j);
    }
  }

  /** The scan finds nothing wrong iff every vulnerability is fine, where only the first of
      each key is compared with its exception. */
  lemma {:induction false} ScanExact(e: Env, index: map<Key, Entry>, vs: seq<Vuln>)
    requires Readable(e, vs)
    ensures ScanAll(e, index, vs).Some? && SeenIs(e, vs, ScanAll(e, index, vs).value.seen)
    ensures ScanAll(e, index, vs).value.Clean() <==> AllFine(e, index, vs)
  {
    if vs != [] {
      var k := |vs| - 1;
      assert forall j :: 0 <= j < k ==> vs[..k][j] == vs[j];
      ScanExact(e, index, vs[..k]);
      var s := ScanAll(e, index, vs[..k]).value;
      ScanOneExact(e, index, vs, k, s);
      SeenSnoc(e, vs, s.seen);
      AllFineSnoc(e, index, vs);
    }
  }

  lemma SameFine(e: Env, index: map<Key, Entry>, vs: seq<Vuln>, n: nat, j: nat)
    requires j < n <= |vs|
    ensures FineAt(e, index, vs[..n], j) <==> FineAt(e, index, vs, j)
  {
    EarlierSame(e, vs, j, VulnKey(e, vs[j]));
    EarlierSame(e, vs[..n], j, VulnKey(e, vs[j]));
    assert vs[..n][..j] == vs[..j];
  }

  // ------------------------------------------------------------------------- the verdict

  predicate CoveredBy(e: Env, r: Record, v: Vuln) {
    && KeyOf(e, r) == VulnKey(e, v) && Expires(e, r).Some? && Severity(e, v.severity).Some?
    && Allows(e, EntryOf(e, r), Severity(e, v.severity).value)
  }

  predicate Covered(e: Env, rs: seq<Record>, v: Vuln) {
    exists i :: 0 <= i < |rs| && CoveredBy(e, rs[i], v)
  }

  // (c) of the verdict
  predicate AllAccountedFor(e: Env, rs: seq<Record>, vs: seq<Vuln>) {
    forall k :: 0 <= k < |vs| && Relevant(e, vs[k]) ==>
      VulnKey(e, vs[k]).1 != "" && (!SeenBefore(e, vs, k, VulnKey(e, vs[k])) ==> Covered(e, rs, vs[k]))
  }

  lemma CoveredIsIndexed(e: Env, rs: seq<Record>, index: map<Key, Entry>, v: Vuln)
    requires Indexes(e, rs, index) && Severity(e, v.severity).Some?
    ensures Covered(e, rs, v)
         <==> VulnKey(e, v) in index && Allows(e, index[VulnKey(e, v)], Severity(e, v.severity).value)
  {
    if VulnKey(e, v) in index && Allows(e, index[VulnKey(e, v)], Severity(e, v.severity).value) {
      assert Named(e, rs, VulnKey(e, v));
      var i :| 0 <= i < |rs| && KeyOf(e, rs[i]) == VulnKey(e, v);
      assert CoveredBy(e, rs[i], v);
    }
  }

  /** The gate passes iff the exception list parses, the report can be read, every record
      has its fields, a valid date and a non-blank key, no two records share a key, and
      every named high or critical vulnerability has an advisory ID and, if it is the first
      of its key, an exception that allows it today. */
  lemma VerdictExact(e: Env, lines: seq<string>, audit: Json)
    ensures Gate(e, lines, audit) == Passed
       <==> && Parse(lines).Some? && Vulns(e, audit).Some? && Readable(e, Vulns(e, audit).value)
            && GoodRecords(e, Parse(lines).value)
            && AllAccountedFor(e, Parse(lines).value, Vulns(e, audit).value)
    ensures Gate(e, lines, audit) == Raised
       <==> Parse(lines).None? || Vulns(e, audit).None? || !Readable(e, Vulns(e, audit).value)
  {
    if Parse(lines).Some? && Vulns(e, audit).Some? {
      ScannedExact(e, Parse(lines).value, Vulns(e, audit).value);
    }
  }

  lemma ScannedExact(e: Env, rs: seq<Record>, vs: seq<Vuln>)
    ensures var s := ScanAll(e, IndexOf(e, rs).index, vs);
            && (s.Some? <==> Readable(e, vs))
            && (s.Some? && IndexOf(e, rs).errors == [] && s.value.Clean()
                <==> Readable(e, vs) && GoodRecords(e, rs) && AllAccountedFor(e, rs, vs))
  {
    IndexExact(e, rs);
    ScanRaisesExactly(e, IndexOf(e, rs).index, vs);
    if Readable(e, vs) && GoodRecords(e, rs) { CleanExact(e, rs, vs); }
  }

  lemma CleanExact(e: Env, rs: seq<Record>, vs: seq<Vuln>)
    requires Readable(e, vs) && GoodRecords(e, rs)
    ensures ScanAll(e, IndexOf(e, rs).index, vs).Some?
    ensures ScanAll(e, IndexOf(e, rs).index, vs).value.Clean() <==> AllAccountedFor(e, rs, vs)
  {
    var index := IndexOf(e, rs).index;
    IndexExact(e, rs);
    ScanExact(e, index, vs);
    forall k | 0 <= k < |vs|
      ensures FineAt(e, index, vs, k)
         <==> (Relevant(e, vs[k]) ==>
               VulnKey(e, vs[k]).1 != "" && (!SeenBefore(e, vs, k, VulnKey(e, vs[k])) ==> Covered(e, rs, vs[k])))
    {
      CoveredIsIndexed(e, rs, index, vs[k]);
    }
  }

  // -------------------------------------------------------------------------- safety

  /** When the gate passes, every named high or critical vulnerability of the report, the
      repeated ones included, has an exception that has not expired. */
  lemma PassedMeansExcepted(e: Env, lines: seq<string>, audit: Json, k: nat) returns (i: nat)
    requires Gate(e, lines, audit) == Passed && k < |Vulns(e, audit).value| && Relevant(e, Vulns(e, audit).value[k])
    ensures Parse(lines).Some? && i < |Parse(lines).value|
    ensures var r := Parse(lines).value[i];
            KeyOf(e, r) == VulnKey(e, Vulns(e, audit).value[k]) && Expires(e, r).Some? && Expires(e, r).value >= e.today
  {
    VerdictExact(e, lines, audit);
    var rs, vs := Parse(lines).value, Vulns(e, audit).value;
    var key := VulnKey(e, vs[k]);
    var first := FirstOfKey(e, vs, k);
    assert Covered(e, rs, vs[first]);
    i :| 0 <= i < |rs| && CoveredBy(e, rs[i], vs[first]);
  }

  lemma {:induction false} FirstOfKey(e: Env, vs: seq<Vuln>, k: nat) returns (j: nat)
    requires k < |vs| && Identified(e, vs[k])
    ensures j <= k && Identified(e, vs[j]) && VulnKey(e, vs[j]) == VulnKey(e, vs[k])
            && !SeenBefore(e, vs, j, VulnKey(e, vs[k]))
    decreases k
  {
    if SeenBefore(e, vs, k, VulnKey(e, vs[k])) {
      var i :| 0 <= i < k && Identified(e, vs[i]) && VulnKey(e, vs[i]) == VulnKey(e, vs[k]);
      j := FirstOfKey(e, vs, i);
    } else {
      j := k;
    }
  }

  // ------------------------------------------------------------------------ what is ignored

  // A gate that compares every vulnerability, not only the first of its key.
  predicate EveryOneCovered(e: Env, rs: seq<Record>, vs: seq<Vuln>) {
    forall k :: 0 <= k < |vs| && Relevant(e, vs[k]) ==> VulnKey(e, vs[k]).1 != "" && Covered(e, rs, vs[k])
  }

  // Vulnerabilities of one key have one severity.
  predicate OneSeverityPerKey(e: Env, vs: seq<Vuln>) {
    forall j, k ::
      0 <= j < k < |vs| && Identified(e, vs[j]) && Identified(e, vs[k]) && VulnKey(e, vs[j]) == VulnKey(e, vs[k]) ==>
      Severity(e, vs[j].severity) == Severity(e, vs[k].severity)
  }

  // A repeated vulnerability that the exception of its key does not name the severity of.
  predicate SlipsThrough(e: Env, rs: seq<Record>, vs: seq<Vuln>, k: nat)
    requires k < |vs|
  {
    && Identified(e, vs[k]) && SeenBefore(e, vs, k, VulnKey(e, vs[k]))
    && exists i :: 0 <= i < |rs| && KeyOf(e, rs[i]) == VulnKey(e, vs[k]) && RecordOk(e, rs[i])
                   && EntryOf(e, rs[i]).severity != ""
                   && EntryOf(e, rs[i]).severity != Severity(e, vs[k].severity).value
  }

  /** Skipping what was seen lets through exactly the repeats whose severity the exception
      of their key does not allow. */
  lemma WhatDedupSkips(e: Env, rs: seq<Record>, vs: seq<Vuln>)
    requires GoodRecords(e, rs)
    ensures EveryOneCovered(e, rs, vs)
         <==> AllAccountedFor(e, rs, vs) && forall k :: 0 <= k < |vs| ==> !SlipsThrough(e, rs, vs, k)
  {
    if EveryOneCovered(e, rs, vs) {
      forall k | 0 <= k < |vs| ensures !SlipsThrough(e, rs, vs, k) {
        if Identified(e, vs[k]) {
          assert Covered(e, rs, vs[k]);
          CoverIsUnique(e, rs, vs[k]);
        }
      }
    }
    if AllAccountedFor(e, rs, vs) && forall k :: 0 <= k < |vs| ==> !SlipsThrough(e, rs, vs, k) {
      forall k | 0 <= k < |vs| && Relevant(e, vs[k]) ensures VulnKey(e, vs[k]).1 != "" && Covered(e, rs, vs[k]) {
        RepeatCovered(e, rs, vs, k);
      }
    }
  }

  lemma OneRecordPerKey(e: Env, rs: seq<Record>, i: nat, j: nat)
    requires GoodRecords(e, rs) && i < |rs| && j < |rs| && KeyOf(e, rs[i]) == KeyOf(e, rs[j])
    ensures i == j
  {
  }

  // With distinct keys, every record of a covered vulnerability's key is the one that
  // covers it.
  lemma CoverIsUnique(e: Env, rs: seq<Record>, v: Vuln)
    requires GoodRecords(e, rs) && Covered(e, rs, v)
    ensures forall i :: 0 <= i < |rs| && KeyOf(e, rs[i]) == VulnKey(e, v) ==> CoveredBy(e, rs[i], v)
  {
    var c :| 0 <= c < |rs| && CoveredBy(e, rs[c], v);
    forall i | 0 <= i < |rs| && KeyOf(e, rs[i]) == VulnKey(e, v) ensures CoveredBy(e, rs[i], v) {
      OneRecordPerKey(e, rs, i, c);
    }
  }

  lemma RepeatCovered(e: Env, rs: seq<Record>, vs: seq<Vuln>, k: nat)
    requires GoodRecords(e, rs) && AllAccountedFor(e, rs, vs) && k < |vs| && Relevant(e, vs[k])
             && !SlipsThrough(e, rs, vs, k)
    ensures VulnKey(e, vs[k]).1 != "" && Covered(e, rs, vs[k])
  {
    if SeenBefore(e, vs, k, VulnKey(e, vs[k])) {
      var j := FirstOfKey(e, vs, k);
      assert Covered(e, rs, vs[j]);
      var i :| 0 <= i < |rs| && CoveredBy(e, rs[i], vs[j]);
      assert CoveredBy(e, rs[i], vs[k]);
    }
  }

  /** So the seen set does not change the verdict when each key comes with one severity. */
  lemma DedupHarmless(e: Env, rs: seq<Record>, vs: seq<Vuln>)
    requires GoodRecords(e, rs) && OneSeverityPerKey(e, vs)
    ensures AllAccountedFor(e, rs, vs) <==> EveryOneCovered(e, rs, vs)
  {
    WhatDedupSkips(e, rs, vs);
    if AllAccountedFor(e, rs, vs) {
      forall k | 0 <= k < |vs| && Relevant(e, vs[k]) ensures Covered(e, rs, vs[k]) {
        CoveredLikeFirst(e, rs, vs, k);
      }
    }
  }

  lemma CoveredLikeFirst(e: Env, rs: seq<Record>, vs: seq<Vuln>, k: nat)
    requires AllAccountedFor(e, rs, vs) && OneSeverityPerKey(e, vs) && k < |vs| && Relevant(e, vs[k])
    ensures Covered(e, rs, vs[k])
  {
    var j := FirstOfKey(e, vs, k);
    FirstIsCovered(e, rs, vs, j, VulnKey(e, vs[k]));
    if j < k {
      SameSeverity(e, vs, j, k);
      CoverCarries(e, rs, vs[j], vs[k]);
    }
  }

  lemma FirstIsCovered(e: Env, rs: seq<Record>, vs: seq<Vuln>, j: nat, key: Key)
    requires AllAccountedFor(e, rs, vs) && j < |vs| && Identified(e, vs[j])
    requires VulnKey(e, vs[j]) == key && !SeenBefore(e, vs, j, key)
    ensures Covered(e, rs, vs[j])
  {
  }

  lemma SameSeverity(e: Env, vs: seq<Vuln>, j: nat, k: nat)
    requires OneSeverityPerKey(e, vs) && j < k < |vs| && Identified(e, vs[j]) && Identified(e, vs[k])
    requires VulnKey(e, vs[j]) == VulnKey(e, vs[k])
    ensures Severity(e, vs[j].severity) == Severity(e, vs[k].severity)
  {
  }

  lemma CoverCarries(e: Env, rs: seq<Record>, v: Vuln, w: Vuln)
    requires Covered(e, rs, v) && VulnKey(e, v) == VulnKey(e, w)
    requires Severity(e, v.severity) == Severity(e, w.severity)
    ensures Covered(e, rs, w)
  {
    var i :| 0 <= i < |rs| && CoveredBy(e, rs[i], v);
    assert CoveredBy(e, rs[i], w);
  }

  // Two vulnerabilities of one key, and a record that allows the first and not the second.
  lemma RepeatSlips(e: Env, r: Record, v: Vuln, w: Vuln)
    requires RecordOk(e, r) && Identified(e, v) && Identified(e, w) && VulnKey(e, v) == VulnKey(e, w) == KeyOf(e, r)
    requires CoveredBy(e, r, v) && !CoveredBy(e, r, w)
    ensures GoodRecords(e, [r]) && AllAccountedFor(e, [r], [v, w]) && !EveryOneCovered(e, [r], [v, w])
  {
    assert [r][0] == r && [v, w][0] == v && [v, w][1] == w;
    assert Covered(e, [r], v) && SeenBefore(e, [v, w], 1, VulnKey(e, w));
    assert !Covered(e, [r], w) && Relevant(e, [v, w][1]);
  }

  // ------------------------------------------------------------- a list and a report

  // An exception for a high vulnerability of a package, its values in all three styles.
  function Pair(indent: string, key: string, value: string, style: Style): Written {
    Written(indent, key, " ", value, style, "")
  }

  const EXCEPTION: seq<Written> := [
    Pair("  ", "package", "p", Bare), Pair("    ", "advisory", "a", Double), Pair("    ", "severity", "high", Bare),
    Pair("    ", "mitigation", "m", Single), Pair("    ", "expires_on", "2999-12-31", Double)]

  const HEADER_LINES: seq<string> := ["version: 1", "exceptions:"]

  const EXCEPTION_LINES: seq<string> := [
    "  - package: p", "    advisory: \"a\"", "    severity: high", "    mitigation: 'm'",
    "    expires_on: \"2999-12-31\""]

  // A report that names its advisory twice, the second time as critical.
  function Found(severity: string): Json {
    JObject([("module_name", JString("p")), ("severity", JString(severity)), ("github_advisory_id", JString("a"))])
  }

  const REPORT: Json := JObject([("advisories", JObject([("1", Found("high")), ("2", Found("critical"))]))])

  // What is used of str.lower, date.fromisoformat and today.
  ghost predicate BeforeExpiry(e: Env) {
    && e.lower("high") == "high" && e.lower("critical") == "critical" && e.lower("a") == "a"
    && e.isoDate("2999-12-31").Some? && e.isoDate("2999-12-31").value >= e.today
  }

  lemma LineIs(indent: string, dash: string, key: string, value: string, style: Style, line: string)
    requires line == indent + (dash + (key + ":" + (" " + Quoted(value, style))))
    ensures indent + (dash + PairText(Pair(indent, key, value, style))) == line
  {
    assert ValueText(Pair(indent, key, value, style)) == " " + Quoted(value, style);
  }

  // The i-th line of the rendering.
  predicate RendersTo(i: nat)
    requires i < |EXCEPTION|
  {
    var w := EXCEPTION[i];
    w.indent + ((if i == 0 then "- " else "") + PairText(w)) == EXCEPTION_LINES[i]
  }

  lemma FirstLines()
    ensures RendersTo(0) && RendersTo(1)
  {
    LineIs("  ", "- ", "package", "p", Bare, "  - package: p");
    LineIs("    ", "", "advisory", "a", Double, "    advisory: \"a\"");
  }

  lemma MiddleLines()
    ensures RendersTo(2) && RendersTo(3)
  {
    LineIs("    ", "", "severity", "high", Bare, "    severity: high");
    LineIs("    ", "", "mitigation", "m", Single, "    mitigation: 'm'");
  }

  lemma LastLine()
    ensures RendersTo(4)
  {
    LineIs("    ", "", "expires_on", "2999-12-31", Double, "    expires_on: \"2999-12-31\"");
  }

  lemma ExceptionRendered()
    ensures RenderAll([EXCEPTION]) == EXCEPTION_LINES
  {
    FirstLines();
    MiddleLines();
    LastLine();
    RenderedAt(EXCEPTION, EXCEPTION_LINES);
  }

  lemma RenderedAt(r: seq<Written>, lines: seq<string>)
    requires |lines| == |r|
    requires forall i :: 0 <= i < |r| ==> r[i].indent + ((if i == 0 then "- " else "") + PairText(r[i])) == lines[i]
    ensures RenderAll([r]) == lines
  {
    assert Render(r) == lines;
    assert [r][1..] == [] && lines + [] == lines;
  }

  lemma HeaderSkipped()
    ensures forall i :: 0 <= i < |HEADER_LINES| ==> Classify(HEADER_LINES[i]) == Skipped
  {
    NoiseLines("", " 1");
    NoiseLines("", "");
    assert "" + ("version:" + " 1") == "version: 1" && "" + ("exceptions:" + "") == "exceptions:";
  }

  // No other pair has the key of the i-th one.
  predicate OwnKey(r: Pairs, i: nat)
    requires i < |r|
  {
    forall j :: 0 <= j < |r| && j != i ==> r[j].0 != r[i].0
  }

  lemma {:induction false} RecordFinds(r: Pairs, i: nat)
    requires i < |r| && OwnKey(r, i)
    ensures r[i].0 in RecordOf(r) && RecordOf(r)[r[i].0] == r[i].1
  {
    if i < |r| - 1 {
      assert OwnKey(r[..|r| - 1], i);
      RecordFinds(r[..|r| - 1], i);
    }
  }

  // The keys differ from each other.
  lemma ExceptionKeys(i: nat)
    requires i < |EXCEPTION|
    ensures OwnKey(PairsOf(EXCEPTION), i)
  {
    KeysDiffer();
    var ps := PairsOf(EXCEPTION);
    forall j | 0 <= j < |ps| && j != i ensures ps[j].0 != ps[i].0 {
      assert ps[i].0 == EXCEPTION[i].key && ps[j].0 == EXCEPTION[j].key;
    }
  }

  lemma KeysDiffer()
    ensures forall i, j :: 0 <= i < j < |EXCEPTION| ==> EXCEPTION[i].key != EXCEPTION[j].key
  {
    assert "package"[0] == 'p' && "advisory"[0] == 'a' && "severity"[0] == 's' && "mitigation"[0] == 'm';
    assert "expires_on"[0] == 'e';
  }

  // A key without a colon, and a value that needs no quotes or has them.
  lemma PairIsOk(indent: string, key: string, value: string, style: Style)
    requires Blank(indent) && KeyOk(key) && (style.Bare? ==> Trimmed(value) && !LooksQuoted(value))
    ensures PairOk(Pair(indent, key, value, style))
  {
  }

  lemma FirstPairsOk()
    ensures PairOk(EXCEPTION[0]) && PairOk(EXCEPTION[1])
  {
    PairIsOk("  ", "package", "p", Bare);
    PairIsOk("    ", "advisory", "a", Double);
  }

  lemma MiddlePairsOk()
    ensures PairOk(EXCEPTION[2]) && PairOk(EXCEPTION[3])
  {
    PairIsOk("    ", "severity", "high", Bare);
    PairIsOk("    ", "mitigation", "m", Single);
  }

  lemma LastPairOk()
    ensures PairOk(EXCEPTION[4])
  {
    PairIsOk("    ", "expires_on", "2999-12-31", Double);
  }

  lemma ExceptionKeyOk(i: nat)
    requires 0 < i < |EXCEPTION|
    ensures LaterKeyOk(EXCEPTION[i].key)
  {
    assert "expires_on"[0] == 'e' && |"expires_on"| == |"exceptions"| && "expires_on"[2] == 'p'
           && "exceptions"[2] == 'c';
    assert "#"[0] == '#' && "- "[0] == '-' && "version"[0] == 'v';
  }

  lemma ExceptionWell()
    ensures AllOk([EXCEPTION])
  {
    FirstPairsOk();
    MiddlePairsOk();
    LastPairOk();
    forall i | 0 < i < |EXCEPTION| ensures LaterKeyOk(EXCEPTION[i].key) { ExceptionKeyOk(i); }
  }

  lemma ExceptionFields()
    ensures var r := RecordOf(PairsOf(EXCEPTION));
            && Field(r, "package") == "p" && Field(r, "advisory") == "a" && Field(r, "severity") == "high"
            && Field(r, "mitigation") == "m" && Field(r, "expires_on") == "2999-12-31"
  {
    forall i | 0 <= i < |EXCEPTION| ensures OwnKey(PairsOf(EXCEPTION), i) { ExceptionKeys(i); }
    RecordFinds(PairsOf(EXCEPTION), 0);
    RecordFinds(PairsOf(EXCEPTION), 1);
    RecordFinds(PairsOf(EXCEPTION), 2);
    RecordFinds(PairsOf(EXCEPTION), 3);
    RecordFinds(PairsOf(EXCEPTION), 4);
  }

  lemma FieldsRead(e: Env, r: Record)
    requires BeforeExpiry(e)
    requires Field(r, "package") == "p" && Field(r, "advisory") == "a" && Field(r, "severity") == "high"
    requires Field(r, "mitigation") == "m" && Field(r, "expires_on") == "2999-12-31"
    ensures RecordOk(e, r) && KeyOf(e, r) == ("p", "a")
    ensures EntryOf(e, r) == Entry("high", e.isoDate("2999-12-31").value)
  {
    assert Trimmed("p") && Trimmed("a") && Trimmed("high");
    forall i | 0 <= i < |REQUIRED_FIELDS| ensures Field(r, REQUIRED_FIELDS[i]) != "" {
    }
  }

  lemma FoundRead(e: Env, v: Vuln, sev: string)
    requires e.lower("a") == "a" && e.lower(sev) == sev
    requires v == Vuln(JString("p"), JString(sev), JString("a")) && Trimmed(sev) && High(sev)
    ensures Identified(e, v) && VulnKey(e, v) == ("p", "a") && Severity(e, v.severity) == Some(sev)
  {
    assert Trimmed("p") && Trimmed("a");
  }

  lemma {:induction false} GetAt(pairs: seq<(string, Json)>, i: nat)
    requires i < |pairs| && forall j :: 0 <= j < i ==> pairs[j].0 != pairs[i].0
    ensures Get(pairs, pairs[i].0) == pairs[i].1
  {
    if i > 0 {
      assert pairs[1..][i - 1] == pairs[i];
      GetAt(pairs[1..], i - 1);
    }
  }

  lemma FoundVuln(e: Env, severity: string)
    ensures AdvisoryVuln(e, Found(severity)) == Some(Vuln(JString("p"), JString(severity), JString("a")))
  {
    var pairs := Found(severity).pairs;
    assert "module_name"[0] == 'm' && "severity"[0] == 's' && "github_advisory_id"[0] == 'g';
    GetAt(pairs, 0);
    GetAt(pairs, 1);
    GetAt(pairs, 2);
  }

  lemma TwoAdvisories(e: Env, x: (string, Json), y: (string, Json), v: Vuln, w: Vuln)
    requires AdvisoryVuln(e, x.1) == Some(v) && AdvisoryVuln(e, y.1) == Some(w)
    ensures AllAdvisories(e, [x, y]) == Some([v, w])
  {
    assert [x, y][..1] == [x] && [x][..0] == [];
    assert AllAdvisories(e, []) == Some([]);
    assert AllAdvisories(e, [x]) == Some([] + [v]);
    assert [] + [v] == [v] && [v] + [w] == [v, w];
  }

  lemma ReportVulns(e: Env)
    ensures Vulns(e, REPORT)
         == Some([Vuln(JString("p"), JString("high"), JString("a")),
                  Vuln(JString("p"), JString("critical"), JString("a"))])
  {
    var both := [Vuln(JString("p"), JString("high"), JString("a")),
                 Vuln(JString("p"), JString("critical"), JString("a"))];
    FoundVuln(e, "high");
    FoundVuln(e, "critical");
    TwoAdvisories(e, ("1", Found("high")), ("2", Found("critical")), both[0], both[1]);
    GetAt(REPORT.pairs, 0);
    assert "advisories"[0] == 'a' && "vulnerabilities"[0] == 'v';
    assert REPORT.pairs[1..] == [] && Get(REPORT.pairs, "vulnerabilities") == JNull;
    assert both + [] == both;
  }

  /** For instance the gate passes this report with this list, although its critical finding
      has an exception for a high one only: a high one of the same key comes first. */
  lemma DedupWitness(e: Env)
    requires BeforeExpiry(e)
    ensures Gate(e, HEADER_LINES + EXCEPTION_LINES, REPORT) == Passed
    ensures Parse(HEADER_LINES + EXCEPTION_LINES).Some? && Vulns(e, REPORT).Some?
    ensures !EveryOneCovered(e, Parse(HEADER_LINES + EXCEPTION_LINES).value, Vulns(e, REPORT).value)
  {
    var high := Vuln(JString("p"), JString("high"), JString("a"));
    var critical := Vuln(JString("p"), JString("critical"), JString("a"));
    var r := RecordOf(PairsOf(EXCEPTION));
    ListParses();
    ExceptionFields();
    FieldsRead(e, r);
    ReportVulns(e);
    TwoFindings(e, r, high, critical);
    VerdictExact(e, HEADER_LINES + EXCEPTION_LINES, REPORT);
  }

  lemma ListParses()
    ensures Parse(HEADER_LINES + EXCEPTION_LINES) == Some([RecordOf(PairsOf(EXCEPTION))])
  {
    HeaderSkipped();
    ExceptionRendered();
    ExceptionWell();
    ParsesBehind(HEADER_LINES, EXCEPTION, EXCEPTION_LINES);
  }

  lemma ParsesBehind(headers: seq<string>, r: seq<Written>, lines: seq<string>)
    requires (forall i :: 0 <= i < |headers| ==> Classify(headers[i]) == Skipped)
    requires AllOk([r]) && RenderAll([r]) == lines
    ensures Parse(headers + lines) == Some([RecordOf(PairsOf(r))])
  {
    NoiseIsInvisible([], headers, lines);
    assert [] + headers == headers && [] + lines == lines;
    ParseRenders([r]);
    assert Records([r]) == [RecordOf(PairsOf(r))];
  }

  lemma TwoFindings(e: Env, r: Record, high: Vuln, critical: Vuln)
    requires BeforeExpiry(e) && RecordOk(e, r) && KeyOf(e, r) == ("p", "a")
    requires EntryOf(e, r) == Entry("high", e.isoDate("2999-12-31").value)
    requires high == Vuln(JString("p"), JString("high"), JString("a"))
    requires critical == Vuln(JString("p"), JString("critical"), JString("a"))
    ensures GoodRecords(e, [r]) && Readable(e, [high, critical])
    ensures AllAccountedFor(e, [r], [high, critical]) && !EveryOneCovered(e, [r], [high, critical])
  {
    assert Trimmed("high") && Trimmed("critical") && "high" != "critical";
    FoundRead(e, high, "high");
    FoundRead(e, critical, "critical");
    RepeatSlips(e, r, high, critical);
  }

  // ---------------------------------------------------------------- order of the records

  lemma {:induction false} TwoPlaces(rs: seq<Record>, r: Record)
    requires multiset(rs)[r] >= 2
    ensures exists i, j :: 0 <= i < j < |rs| && rs[i] == r && rs[j] == r
  {
    var n := |rs| - 1;
    assert rs == rs[..n] + [rs[n]];
    if rs[n] == r {
      assert r in multiset(rs[..n]);
      var i :| 0 <= i < n && rs[..n][i] == r;
      assert rs[i] == r && rs[n] == r;
    } else {
      TwoPlaces(rs[..n], r);
      var i, j :| 0 <= i < j < n && rs[..n][i] == r && rs[..n][j] == r;
      assert rs[i] == r && rs[j] == r;
    }
  }

  lemma {:induction false} TwicePresent(rs: seq<Record>, i: nat, j: nat)
    requires i < j < |rs| && rs[i] == rs[j]
    ensures multiset(rs)[rs[i]] >= 2
  {
    assert rs == rs[..j] + rs[j..];
    assert rs[i] == rs[..j][i] && rs[j] == rs[j..][0];
    assert rs[i] in multiset(rs[..j]) && rs[i] in multiset(rs[j..]);
  }

  lemma OtherKeys(e: Env, rs: seq<Record>, x: Record, y: Record)
    requires GoodRecords(e, rs) && x in rs && y in rs && x != y
    ensures KeyOf(e, x) != KeyOf(e, y)
  {
    var a :| 0 <= a < |rs| && rs[a] == x;
    var b :| 0 <= b < |rs| && rs[b] == y;
    assert if a < b then KeyOf(e, rs[a]) != KeyOf(e, rs[b]) else KeyOf(e, rs[b]) != KeyOf(e, rs[a]);
  }

  lemma NoTwins(e: Env, rs: seq<Record>, ss: seq<Record>, i: nat, j: nat)
    requires multiset(rs) == multiset(ss) && GoodRecords(e, rs) && i < j < |ss|
    ensures ss[i] != ss[j]
  {
    if ss[i] == ss[j] {
      TwicePresent(ss, i, j);
      TwoPlaces(rs, ss[i]);
      assert false;
    }
  }

  lemma GoodPermuted(e: Env, rs: seq<Record>, ss: seq<Record>)
    requires multiset(rs) == multiset(ss) && GoodRecords(e, rs)
    ensures GoodRecords(e, ss)
  {
    forall i | 0 <= i < |ss| ensures ss[i] in rs { assert ss[i] in multiset(rs); }
    forall i | 0 <= i < |ss| ensures RecordOk(e, ss[i]) {
      var a :| 0 <= a < |rs| && rs[a] == ss[i];
    }
    forall i, j | 0 <= i < j < |ss| ensures KeyOf(e, ss[i]) != KeyOf(e, ss[j]) {
      NoTwins(e, rs, ss, i, j);
      OtherKeys(e, rs, ss[i], ss[j]);
    }
  }

  lemma CoveredPermuted(e: Env, rs: seq<Record>, ss: seq<Record>, v: Vuln)
    requires multiset(rs) == multiset(ss) && Covered(e, rs, v)
    ensures Covered(e, ss, v)
  {
    var i :| 0 <= i < |rs| && CoveredBy(e, rs[i], v);
    assert rs[i] in multiset(ss);
    var j :| 0 <= j < |ss| && ss[j] == rs[i];
    assert CoveredBy(e, ss[j], v);
  }

  /** Reordering the exception list never changes the verdict. */
  lemma OrderDoesNotMatter(e: Env, lines: seq<string>, others: seq<string>, audit: Json)
    requires Parse(lines).Some? && Parse(others).Some? && multiset(Parse(lines).value) == multiset(Parse(others).value)
    ensures Gate(e, lines, audit) == Gate(e, others, audit)
  {
    VerdictExact(e, lines, audit);
    VerdictExact(e, others, audit);
    PassPermuted(e, lines, others, audit);
    PassPermuted(e, others, lines, audit);
  }

  lemma PassPermuted(e: Env, lines: seq<string>, others: seq<string>, audit: Json)
    requires Parse(lines).Some? && Parse(others).Some? && multiset(Parse(lines).value) == multiset(Parse(others).value)
    ensures Gate(e, lines, audit) == Passed ==> Gate(e, others, audit) == Passed
  {
    VerdictExact(e, lines, audit);
    VerdictExact(e, others, audit);
    if Gate(e, lines, audit) == Passed {
      var rs, ss, vs := Parse(lines).value, Parse(others).value, Vulns(e, audit).value;
      GoodPermuted(e, rs, ss);
      forall k | 0 <= k < |vs| && Covered(e, rs, vs[k]) ensures Covered(e, ss, vs[k]) {
        CoveredPermuted(e, rs, ss, vs[k]);
      }
    }
  }

  // ------------------------------------------------------------- entries nobody looks at

  /** An entry of "vulnerabilities" yields nothing exactly when its titles can be joined and
      no element of its via list names an advisory; its severity plays no part. */
  lemma SilentEntryExact(name: string, pairs: seq<(string, Json)>)
    ensures EntryVulns(name, JObject(pairs)) == Some([])
       <==> Joinable(ViaItems(Get(pairs, "via"))) && forall i :: 0 <= i < |ViaItems(Get(pairs, "via"))| ==>
              NoID(ViaItems(Get(pairs, "via"))[i])
  {
    var items := ViaItems(Get(pairs, "via"));
    NoIDs(items);
    if Joinable(items) { assert |EntryVulns(name, JObject(pairs)).value| == |ViaIDs(items)|; }
  }

  predicate NoID(item: Json) {
    ViaID(item).None? || !Truthy(ViaID(item).value)
  }

  lemma {:induction false} NoIDs(items: seq<Json>)
    ensures ViaIDs(items) == [] <==> forall i :: 0 <= i < |items| ==> NoID(items[i])
  {
    if items != [] {
      NoIDs(items[..|items| - 1]);
      assert forall i :: 0 <= i < |items| - 1 ==> items[i] == items[..|items| - 1][i];
    }
  }

  lemma JoinAssociates(a: Option<seq<Vuln>>, b: Option<seq<Vuln>>, c: Option<seq<Vuln>>)
    ensures Join(Join(a, b), c) == Join(a, Join(b, c))
    ensures Join(a, Some([])) == a
  {
    if a.Some? { assert a.value + [] == a.value; }
    if a.Some? && b.Some? && c.Some? { assert (a.value + b.value) + c.value == a.value + (b.value + c.value); }
  }

  lemma EntriesSnoc(pairs: seq<(string, Json)>, last: (string, Json))
    ensures AllEntries(pairs + [last]) == Join(AllEntries(pairs), EntryVulns(last.0, last.1))
  {
    assert (pairs + [last])[..|pairs|] == pairs;
  }

  lemma EntriesNone(xs: seq<(string, Json)>)
    ensures AllEntries(xs + []) == Join(AllEntries(xs), AllEntries([]))
  {
    assert xs + [] == xs;
    JoinAssociates(AllEntries(xs), None, None);
  }

  lemma EntriesStep(xs: seq<(string, Json)>, front: seq<(string, Json)>, last: (string, Json))
    requires AllEntries(xs + front) == Join(AllEntries(xs), AllEntries(front))
    ensures AllEntries(xs + (front + [last])) == Join(AllEntries(xs), AllEntries(front + [last]))
  {
    var a, b, c := AllEntries(xs), AllEntries(front), EntryVulns(last.0, last.1);
    assert AllEntries((xs + front) + [last]) == Join(Join(a, b), c) by { EntriesSnoc(xs + front, last); }
    assert AllEntries(front + [last]) == Join(b, c) by { EntriesSnoc(front, last); }
    JoinAssociates(a, b, c);
    PairsAssociate(xs, front, last);
  }

  lemma PairsAssociate(xs: seq<(string, Json)>, ys: seq<(string, Json)>, last: (string, Json))
    ensures xs + (ys + [last]) == (xs + ys) + [last]
  {
  }

  lemma {:induction false} EntriesConcat(xs: seq<(string, Json)>, ys: seq<(string, Json)>)
    ensures AllEntries(xs + ys) == Join(AllEntries(xs), AllEntries(ys))
    decreases |ys|
  {
    if ys == [] {
      EntriesNone(xs);
    } else {
      var front, last := ys[..|ys| - 1], ys[|ys| - 1];
      EntriesConcat(xs, front);
      EntriesStep(xs, front, last);
      assert front + [last] == ys;
    }
  }

  /** Such an entry, critical or not, might as well not be in the report. */
  lemma SilentEntryIsInvisible(before: seq<(string, Json)>, entry: (string, Json), after: seq<(string, Json)>)
    requires EntryVulns(entry.0, entry.1) == Some([])
    ensures AllEntries(before + [entry] + after) == AllEntries(before + after)
  {
    EntriesConcat(before + [entry], after);
    EntriesSnoc(before, entry);
    EntriesConcat(before, after);
    JoinAssociates(AllEntries(before), None, None);
  }
}

/**
 The line parser of the audit-exception list: split_kv and parse_exceptions.
 */
module ExceptionsParser {
  import opened Wrappers

  // ------------------------------------------------------------------- str.strip

  // str.isspace
  predicate IsSpace(c: char) {
    || '\t' <= c <= '\r' || '\U{1c}' <= c <= ' ' || c == '\U{85}' || c == '\U{a0}' || c == '\U{1680}'
    || '\U{2000}' <= c <= '\U{200a}' || c == '\U{2028}' || c == '\U{2029}' || c == '\U{202f}' || c == '\U{205f}'
      || c == '\U{3000}'
  }

  // Python's white space: 29 characters, ten of them ASCII.
  lemma SpacesAre(c: char)
    ensures c < '\U{80}' ==> (IsSpace(c) <==> c in "\t\n\U{b}\U{c}\r\U{1c}\U{1d}\U{1e}\U{1f} ")
    ensures c >= '\U{80}' ==>
              (IsSpace(c)
               <==> c in "\U{85}\U{a0}\U{1680}\U{2000}\U{2001}\U{2002}\U{2003}\U{2004}\U{2005}\U{2006}"
                    || c in "\U{2007}\U{2008}\U{2009}\U{200a}\U{2028}\U{2029}\U{202f}\U{205f}\U{3000}")
  {
  }

  predicate Trimmed(s: string) {
    s == "" || (!IsSpace(s[0]) && !IsSpace(s[|s| - 1]))
  }

  function Strip(s: string): (r: string)
    ensures Trimmed(r) && |r| <= |s|
    ensures Trimmed(s) ==> r == s
  {
    if s == "" then s
    else if IsSpace(s[0]) then Strip(s[1..])
    else if IsSpace(s[|s| - 1]) then Strip(s[..|s| - 1])
    else s
  }

  predicate BlankIn(s: string, lo: nat, hi: nat) {
    forall k :: lo <= k < hi && k < |s| ==> IsSpace(s[k])
  }

  lemma SliceOfTail(s: string, i: nat, j: nat)
    requires i <= j < |s|
    ensures s[1..][i..j] == s[i + 1..j + 1]
  {
    var a, b := s[1..][i..j], s[i + 1..j + 1];
    assert |a| == |b| == j - i;
    forall k | 0 <= k < j - i ensures a[k] == b[k] {
      assert a[k] == s[1..][i + k] == s[i + k + 1];
      assert b[k] == s[i + 1 + k];
    }
  }

  lemma FrontSpace(s: string, i: nat, j: nat)
    requires s != "" && IsSpace(s[0]) && i <= j < |s| && BlankIn(s[1..], 0, i) && BlankIn(s[1..], j, |s| - 1)
    ensures s[1..][i..j] == s[i + 1..j + 1] && BlankIn(s, 0, i + 1) && BlankIn(s, j + 1, |s|)
  {
    var t := s[1..];
    forall k | 0 <= k < i + 1 ensures IsSpace(s[k]) {
      if k > 0 { assert s[k] == t[k - 1]; }
    }
    forall k | j + 1 <= k < |s| ensures IsSpace(s[k]) { assert s[k] == t[k - 1]; }
    SliceOfTail(s, i, j);
  }

  /** strip cuts white space off both ends and nothing else. */
  lemma {:induction false} StripExact(s: string) returns (i: nat, j: nat)
    ensures i <= j <= |s| && Strip(s) == s[i..j] && BlankIn(s, 0, i) && BlankIn(s, j, |s|)
    decreases |s|
  {
    if s != "" && IsSpace(s[0]) {
      i, j := StripExact(s[1..]);
      FrontSpace(s, i, j);
      i, j := i + 1, j + 1;
    } else if s != "" && IsSpace(s[|s| - 1]) {
      var t := s[..|s| - 1];
      i, j := StripExact(t);
      assert t[i..j] == s[i..j];
    } else {
      i, j := 0, |s|;
    }
  }

  predicate StartsWith(s: string, p: string) {
    |p| <= |s| && s[..|p|] == p
  }

  // ------------------------------------------------------------------- split_kv

  // Where the first colon is, or the length.
  function FirstColon(s: string): (i: nat)
    ensures i <= |s| && ':' !in s[..i] && (i < |s| ==> s[i] == ':')
    ensures i < |s| <==> ':' in s
  {
    if s == "" then 0
    else if s[0] == ':' then 0
    else
      assert s == [s[0]] + s[1..];
      1 + FirstColon(s[1..])
  }

  lemma {:induction false} ColonAt(k: string, rest: string)
    requires ':' !in k
    ensures FirstColon(k + ":" + rest) == |k|
  {
    if k != "" {
      ColonAt(k[1..], rest);
      assert (k + ":" + rest)[0] == k[0] && (k + ":" + rest)[1..] == k[1..] + ":" + rest;
    }
  }

  function Unquoted(v: string): string {
    if v != "" && ((v[0] == '"' && v[|v| - 1] == '"') || (v[0] == '\'' && v[|v| - 1] == '\''))
    then v[1..if |v| == 1 then 1 else |v| - 1]
    else v
  }

  // None is the ValueError of unpacking a line without a colon.
  function SplitKV(line: string): Option<(string, string)> {
    var i := FirstColon(line);
    if i == |line| then None
    else Some((Strip(line[..i]), Unquoted(Strip(line[i + 1..]))))
  }

  // ---------------------------------------------------------------- parse_exceptions

  type Record = map<string, string>

  datatype State = State(done: seq<Record>, current: Option<Record>)

  const START := State([], None)

  // A record that holds something is finished; an empty one is dropped.
  function Flush(s: State): seq<Record> {
    if s.current.Some? && s.current.value != map[] then s.done + [s.current.value] else s.done
  }

  function Put(r: Record, kv: (string, string)): Record {
    r[kv.0 := kv.1]
  }

  // What a line is taken for.
  datatype LineKind = Skipped | Starts(body: string) | Continues(text: string)

  function Classify(raw: string): LineKind {
    var line := Strip(raw);
    if line == "" || StartsWith(line, "#") then Skipped
    else if StartsWith(line, "version:") || StartsWith(line, "exceptions:") then Skipped
    else if StartsWith(line, "- ") then Starts(Strip(line[2..]))
    else Continues(line)
  }

  // A line that starts a record: the one before is finished.
  function StartRecord(s: State, body: string): Option<State> {
    if body == "" then Some(State(Flush(s), Some(map[])))
    else match SplitKV(body)
         case None => None
         case Some(kv) => Some(State(Flush(s), Some(Put(map[], kv))))
  }

  function ContinueRecord(s: State, text: string): State {
    if s.current.Some? && SplitKV(text).Some? then State(s.done, Some(Put(s.current.value, SplitKV(text).value))) else s
  }

  function Take(s: State, kind: LineKind): Option<State> {
    match kind
    case Skipped => Some(s)
    case Starts(body) => StartRecord(s, body)
    case Continues(text) => Some(ContinueRecord(s, text))
  }

  // One line; None when split_kv raises.
  function Step(s: State, raw: string): Option<State> {
    Take(s, Classify(raw))
  }

  function Lines(s: State, lines: seq<string>): Option<State>
    decreases lines
  {
    if lines == [] then Some(s)
    else match Step(s, lines[0])
         case None => None
         case Some(t) => Lines(t, lines[1..])
  }

  // The records of a list of lines, None if the parser raises.
  function Parse(lines: seq<string>): Option<seq<Record>> {
    match Lines(START, lines)
    case None => None
    case Some(s) => Some(Flush(s))
  }

  /** parse_exceptions: the loop over the lines with its list and its current record. */
  method ParseExceptions(lines: seq<string>) returns (r: Option<seq<Record>>)
    ensures r == Parse(lines)
  {
    var exceptions: seq<Record> := [];
    var current: Option<Record> := None;
    for n := 0 to |lines|
      invariant Lines(START, lines) == Lines(State(exceptions, current), lines[n..])
    {
      assert lines[n..][0] == lines[n] && lines[n..][1..] == lines[n + 1..];
      var line := Strip(lines[n]);
      if line == "" || StartsWith(line, "#") {
        continue;
      }
      if StartsWith(line, "version:") || StartsWith(line, "exceptions:") {
        continue;
      }
      if StartsWith(line, "- ") {
        if current.Some? && current.value != map[] {
          exceptions := exceptions + [current.value];
        }
        current := Some(map[]);
        line := Strip(line[2..]);
        if line != "" {
          var kv := SplitKV(line);
          if kv.None? {
            return None;
          }
          current := Some(Put(current.value, kv.value));
        }
        continue;
      }
      if current.Some? && ':' in line {
        var kv := SplitKV(line);
        current := Some(Put(current.value, kv.value));
      }
    }
    if current.Some? && current.value != map[] {
      exceptions := exceptions + [current.value];
    }
    r := Some(exceptions);
  }

  // ------------------------------------------------------------------------ what it keeps

  lemma {:induction false} LastStays(s: string)
    requires s != "" && !IsSpace(s[|s| - 1])
    ensures Strip(s) != ""
  {
    if IsSpace(s[0]) { LastStays(s[1..]); }
  }

  /** A stripped line that starts a record has something after its dash, so the parser's
      test for an empty rest never fails. */
  lemma StartsHasBody(raw: string)
    ensures Classify(raw).Starts? <==> StartsWith(Strip(raw), "- ")
    ensures Classify(raw).Starts? ==> Classify(raw).body != "" && Classify(raw).body == Strip(Strip(raw)[2..])
  {
    var line := Strip(raw);
    assert "- "[0] == '-' && "- "[1] == ' ' && "#"[0] == '#' && "version:"[0] == 'v' && "exceptions:"[0] == 'e';
    if StartsWith(line, "- ") {
      assert line[1] == ' ' && line[|line| - 1] == line[2..][|line| - 3];
      LastStays(line[2..]);
    }
  }

  /** The parser raises exactly at a line that starts a record and has no colon after the
      dash. */
  lemma StepRaises(s: State, raw: string)
    ensures Step(s, raw).None? <==> Classify(raw).Starts? && ':' !in Classify(raw).body
  {
    StartsHasBody(raw);
  }

  predicate NonEmpty(s: State) {
    s.current.Some? ==> s.current.value != map[]
  }

  lemma PutNotEmpty(r: Record, kv: (string, string))
    ensures Put(r, kv) != map[]
  {
    assert kv.0 in Put(r, kv);
  }

  lemma StepNonEmpty(s: State, raw: string)
    requires NonEmpty(s) && Step(s, raw).Some?
    ensures var t := Step(s, raw).value;
            NonEmpty(t) && |Flush(t)| == |Flush(s)| + (if Classify(raw).Starts? then 1 else 0)
  {
    match Classify(raw) {
      case Skipped =>
      case Starts(body) =>
        StartsHasBody(raw);
        PutNotEmpty(map[], SplitKV(body).value);
      case Continues(text) =>
        if s.current.Some? && SplitKV(text).Some? { PutNotEmpty(s.current.value, SplitKV(text).value); }
    }
  }

  function StartCount(lines: seq<string>): nat {
    if lines == [] then 0 else (if Classify(lines[0]).Starts? then 1 else 0) + StartCount(lines[1..])
  }

  lemma {:induction false} NonEmptyThroughout(s: State, lines: seq<string>)
    requires NonEmpty(s) && Lines(s, lines).Some?
    ensures var t := Lines(s, lines).value; NonEmpty(t) && |Flush(t)| == |Flush(s)| + StartCount(lines)
    decreases lines
  {
    if lines != [] {
      StepNonEmpty(s, lines[0]);
      NonEmptyThroughout(Step(s, lines[0]).value, lines[1..]);
    }
  }

  /** No record is empty, so none is dropped: there are as many records as lines that start
      one. */
  lemma OneRecordPerStart(lines: seq<string>)
    requires Parse(lines).Some?
    ensures |Parse(lines).value| == StartCount(lines)
  {
    NonEmptyThroughout(START, lines);
  }

  // -------------------------------------------------------------------- concatenation

  lemma {:induction false} LinesConcat(s: State, xs: seq<string>, ys: seq<string>)
    ensures Lines(s, xs + ys) == match Lines(s, xs) case None => None case Some(t) => Lines(t, ys)
    decreases xs
  {
    if xs == [] {
      assert xs + ys == ys;
    } else {
      assert (xs + ys)[0] == xs[0] && (xs + ys)[1..] == xs[1..] + ys;
      match Step(s, xs[0]) {
        case None =>
        case Some(t) => LinesConcat(t, xs[1..], ys);
      }
    }
  }

  // Finished records are never looked at again.
  lemma {:induction false} DoneIsInert(before: seq<Record>, s: State, lines: seq<string>)
    ensures Lines(State(before + s.done, s.current), lines)
         == match Lines(s, lines) case None => None case Some(t) => Some(State(before + t.done, t.current))
    decreases lines
  {
    if lines != [] {
      var more := State(before + s.done, s.current);
      if s.current.Some? && s.current.value != map[] {
        assert before + (s.done + [s.current.value]) == (before + s.done) + [s.current.value];
      }
      assert Flush(more) == before + Flush(s);
      match Step(s, lines[0]) {
        case None =>
        case Some(t) =>
          assert Step(more, lines[0]) == Some(State(before + t.done, t.current));
          DoneIsInert(before, t, lines[1..]);
      }
    }
  }

  /** Parsing a concatenation whose second part starts a record is the concatenation of the
      two parses. */
  lemma ParseConcat(xs: seq<string>, ys: seq<string>)
    requires ys != [] && Classify(ys[0]).Starts?
    ensures Parse(xs + ys)
         == if Parse(xs).None? || Parse(ys).None? then None else Some(Parse(xs).value + Parse(ys).value)
  {
    LinesConcat(START, xs, ys);
    if Lines(START, xs).Some? {
      var s := Lines(START, xs).value;
      FreshRecord(s, ys[0]);
      match Step(START, ys[0]) {
        case None =>
        case Some(t) =>
          DoneIsInert(Flush(s), t, ys[1..]);
          match Lines(t, ys[1..]) {
            case None =>
            case Some(u) => FlushAfter(Flush(s), u);
          }
      }
    }
  }

  // A line that starts a record only flushes what was there.
  lemma FreshRecord(s: State, raw: string)
    requires Classify(raw).Starts?
    ensures match Step(START, raw)
            case None => Step(s, raw).None?
            case Some(t) => t.done == [] && Step(s, raw) == Some(State(Flush(s) + t.done, t.current))
  {
    assert Flush(s) + [] == Flush(s);
  }

  lemma FlushAfter(before: seq<Record>, t: State)
    ensures Flush(State(before + t.done, t.current)) == before + Flush(t)
  {
    if t.current.Some? { assert before + (t.done + [t.current.value]) == (before + t.done) + [t.current.value]; }
  }

  // ------------------------------------------------------------------ stripping, piecewise

  predicate Blank(s: string) {
    forall i :: 0 <= i < |s| ==> IsSpace(s[i])
  }

  lemma {:induction false} StripFront(a: string, s: string)
    requires Blank(a)
    ensures Strip(a + s) == Strip(s)
  {
    if a == "" {
      assert a + s == s;
    } else {
      assert (a + s)[0] == a[0] && (a + s)[1..] == a[1..] + s;
      StripFront(a[1..], s);
    }
  }

  lemma {:induction false} StripLast(s: string, c: char)
    requires IsSpace(c)
    ensures Strip(s + [c]) == Strip(s)
  {
    var t := s + [c];
    assert t[..|s|] == s && t[|s|] == c;
    if s != "" && IsSpace(s[0]) {
      assert t[0] == s[0] && t[1..] == s[1..] + [c];
      StripLast(s[1..], c);
    }
  }

  lemma {:induction false} StripBack(s: string, b: string)
    requires Blank(b)
    ensures Strip(s + b) == Strip(s)
  {
    if b == "" {
      assert s + b == s;
    } else {
      var n := |b| - 1;
      StripBack(s, b[..n]);
      StripLast(s + b[..n], b[n]);
      assert s + b == (s + b[..n]) + [b[n]];
    }
  }

  // Text that begins and ends without white space survives at the head of a line.
  lemma {:induction false} HeadStays(p: string, rest: string)
    requires p != "" && Trimmed(p)
    ensures StartsWith(Strip(p + rest), p)
    decreases |rest|
  {
    var line := p + rest;
    assert line[0] == p[0];
    if rest != "" && IsSpace(rest[|rest| - 1]) {
      var n := |rest| - 1;
      HeadStays(p, rest[..n]);
      assert line == (p + rest[..n]) + [rest[n]];
      StripLast(p + rest[..n], rest[n]);
    } else {
      assert line[|line| - 1] == if rest == "" then p[|p| - 1] else rest[|rest| - 1];
      assert line[..|p|] == p;
    }
  }

  lemma SplitTrimmed(k: string, rest: string)
    requires ':' !in k && Trimmed(k + ":" + rest)
    ensures SplitKV(Strip(k + ":" + rest)) == Some((Strip(k), Unquoted(Strip(rest))))
  {
    var line := k + ":" + rest;
    ColonAt(k, rest);
    assert line[..|k|] == k && line[|k| + 1..] == rest;
  }

  /** A line that is split after stripping: the key and the value are those around its first
      colon, each stripped on its own. */
  lemma {:induction false} SplitStripped(k: string, rest: string)
    requires ':' !in k
    ensures SplitKV(Strip(k + ":" + rest)) == Some((Strip(k), Unquoted(Strip(rest))))
    decreases |k| + |rest|
  {
    var line := k + ":" + rest;
    assert line[0] == if k == "" then ':' else k[0];
    assert line[|line| - 1] == if rest == "" then ':' else rest[|rest| - 1];
    if k != "" && IsSpace(k[0]) {
      var pad, tail := [k[0]], k[1..];
      assert k == pad + tail && line == pad + (tail + ":" + rest);
      SplitStripped(tail, rest);
      StripFront(pad, tail + ":" + rest);
      StripFront(pad, tail);
    } else if rest != "" && IsSpace(rest[|rest| - 1]) {
      var n := |rest| - 1;
      assert line == (k + ":" + rest[..n]) + [rest[n]] && rest == rest[..n] + [rest[n]];
      SplitStripped(k, rest[..n]);
      StripLast(k + ":" + rest[..n], rest[n]);
      StripLast(rest[..n], rest[n]);
    } else {
      SplitTrimmed(k, rest);
    }
  }

  // ----------------------------------------------------------------------- round trip

  datatype Style = Bare | Single | Double

  // A pair as it is written: the white space around it, and how its value is quoted.
  datatype Written = Written(indent: string, key: string, gap: string, value: string, style: Style, tail: string)

  function Quoted(v: string, style: Style): string {
    match style
    case Bare => v
    case Single => "'" + v + "'"
    case Double => "\"" + v + "\""
  }

  // Enclosed in quotes of one kind, or a lone quote.
  predicate LooksQuoted(v: string) {
    v != "" && v[0] == v[|v| - 1] && (v[0] == '"' || v[0] == '\'')
  }

  predicate KeyOk(k: string) {
    Trimmed(k) && ':' !in k
  }

  // A key on a line of its own must not look like a comment, a new record or a header.
  predicate LaterKeyOk(k: string) {
    KeyOk(k) && !StartsWith(k, "#") && !StartsWith(k, "- ") && k != "version" && k != "exceptions"
  }

  // Blanks around the pair; a bare value must not lose anything to strip or to the quotes.
  predicate PairOk(w: Written) {
    && Blank(w.indent) && Blank(w.gap) && Blank(w.tail) && KeyOk(w.key)
    && (w.style.Bare? ==> Trimmed(w.value) && !LooksQuoted(w.value))
  }

  predicate RecordWell(r: seq<Written>) {
    && r != [] && (forall i :: 0 <= i < |r| ==> PairOk(r[i]))
    && forall i :: 0 < i < |r| ==> LaterKeyOk(r[i].key)
  }

  function ValueText(w: Written): string {
    w.gap + Quoted(w.value, w.style) + w.tail
  }

  function PairText(w: Written): string {
    w.key + ":" + ValueText(w)
  }

  function Render(r: seq<Written>): (lines: seq<string>)
    ensures |lines| == |r|
  {
    seq(|r|, i requires 0 <= i < |r| => r[i].indent + ((if i == 0 then "- " else "") + PairText(r[i])))
  }

  function RenderAll(rs: seq<seq<Written>>): seq<string> {
    if rs == [] then [] else Render(rs[0]) + RenderAll(rs[1..])
  }

  type Pairs = seq<(string, string)>

  function PairsOf(r: seq<Written>): (ps: Pairs)
    ensures |ps| == |r| && forall i {:trigger ps[i]} :: 0 <= i < |r| ==> ps[i] == (r[i].key, r[i].value)
  {
    seq(|r|, i requires 0 <= i < |r| => (r[i].key, r[i].value))
  }

  // A later pair with the same key replaces the earlier one.
  function RecordOf(r: Pairs): Record {
    if r == [] then map[] else RecordOf(r[..|r| - 1])[r[|r| - 1].0 := r[|r| - 1].1]
  }

  function Records(rs: seq<seq<Written>>): seq<Record> {
    seq(|rs|, i requires 0 <= i < |rs| => RecordOf(PairsOf(rs[i])))
  }

  // One pair of quotes is taken off, whatever is between them; a bare value stays.
  lemma QuotesComeOff(v: string, style: Style)
    requires style.Bare? ==> Trimmed(v) && !LooksQuoted(v)
    ensures Trimmed(Quoted(v, style)) && Unquoted(Quoted(v, style)) == v
  {
    if !style.Bare? {
      var quoted := Quoted(v, style);
      assert quoted[0] == quoted[|quoted| - 1] && quoted[1..|quoted| - 1] == v;
    }
  }

  lemma StyledValue(w: Written)
    requires PairOk(w)
    ensures Unquoted(Strip(ValueText(w))) == w.value
  {
    var quoted := Quoted(w.value, w.style);
    StripBack(w.gap + quoted, w.tail);
    StripFront(w.gap, quoted);
    QuotesComeOff(w.value, w.style);
  }

  lemma PairSplits(w: Written)
    requires PairOk(w)
    ensures SplitKV(Strip(PairText(w))) == Some((w.key, w.value))
  {
    SplitStripped(w.key, ValueText(w));
    StyledValue(w);
  }

  // After its dash a line is stripped once more.
  lemma {:induction false} DashStrip(y: string)
    requires ':' in y
    ensures StartsWith(Strip("- " + y), "- ") && Strip(Strip("- " + y)[2..]) == Strip(y)
  {
    var line, n := "- " + y, |y| - 1;
    assert line[0] == '-' && line[|line| - 1] == y[n] && line[2..] == y && line[..2] == "- ";
    if IsSpace(y[n]) {
      assert y == y[..n] + [y[n]] && line == ("- " + y[..n]) + [y[n]];
      DashStrip(y[..n]);
      StripLast(y[..n], y[n]);
      StripLast("- " + y[..n], y[n]);
    }
  }

  // A line that opens with a dash and a space starts a record.
  lemma FirstPairLine(w: Written)
    requires PairOk(w)
    ensures Classify(w.indent + ("- " + PairText(w))) == Starts(Strip(PairText(w)))
  {
    var text := PairText(w);
    assert text[|w.key|] == ':';
    StripFront(w.indent, "- " + text);
    DashStrip(text);
    assert Strip("- " + text)[0] == "- "[0] == '-';
    assert "#"[0] == '#' && "version:"[0] == 'v' && "exceptions:"[0] == 'e';
  }

  // Prefixes of "key: ..." are prefixes of the key, or reach over the colon.
  lemma KeyPrefix(k: string, text: string, p: string)
    requires ':' !in p && |text| > |k| && text[..|k|] == k && text[|k|] == ':'
    ensures StartsWith(text, p) <==> StartsWith(k, p)
  {
    assert forall i :: 0 <= i < |k| ==> text[i] == text[..|k|][i];
  }

  lemma HeaderPrefix(k: string, text: string, header: string)
    requires ':' !in header && ':' !in k && |text| > |k| && text[..|k|] == k && text[|k|] == ':'
    ensures StartsWith(text, header + ":") <==> k == header
  {
    var p := header + ":";
    assert forall i :: 0 <= i < |k| ==> text[i] == text[..|k|][i];
    assert forall i :: 0 <= i < |header| ==> p[i] == header[i];
    assert p[|header|] == ':';
    if StartsWith(text, p) { assert |k| == |header|; }
  }

  /** A pair on a line of its own is taken for that pair iff its key does not look like a
      comment, a new record or one of the two headers. */
  lemma LaterPairLine(w: Written)
    requires PairOk(w)
    ensures Classify(w.indent + PairText(w)) == Continues(Strip(PairText(w))) <==> LaterKeyOk(w.key)
  {
    var k, text := w.key, Strip(PairText(w));
    StripFront(w.indent, PairText(w));
    var head := k + ":";
    assert head[0] == (if k == "" then ':' else k[0]) && head[|head| - 1] == ':';
    HeadStays(head, ValueText(w));
    assert text[..|head|][..|k|] == head[..|k|] == k && text[|k|] == text[..|head|][|k|] == ':';
    assert text[..|k|] == k;
    TextPrefixes(k, text);
  }

  lemma TextPrefixes(k: string, text: string)
    requires ':' !in k && |text| > |k| && text[..|k|] == k && text[|k|] == ':'
    ensures StartsWith(text, "#") <==> StartsWith(k, "#")
    ensures StartsWith(text, "- ") <==> StartsWith(k, "- ")
    ensures StartsWith(text, "version:") <==> k == "version"
    ensures StartsWith(text, "exceptions:") <==> k == "exceptions"
  {
    KeyPrefix(k, text, "#");
    KeyPrefix(k, text, "- ");
    HeaderPrefix(k, text, "version");
    HeaderPrefix(k, text, "exceptions");
    assert "version" + ":" == "version:" && "exceptions" + ":" == "exceptions:";
  }

  // A list of lines seen as what each is taken for.
  function Kinds(lines: seq<string>): (ks: seq<LineKind>)
    ensures |ks| == |lines| && forall i {:trigger ks[i]} :: 0 <= i < |lines| ==> ks[i] == Classify(lines[i])
  {
    seq(|lines|, i requires 0 <= i < |lines| => Classify(lines[i]))
  }

  function TakeAll(s: State, ks: seq<LineKind>): Option<State> {
    if ks == [] then Some(s)
    else match TakeAll(s, ks[..|ks| - 1])
         case None => None
         case Some(t) => Take(t, ks[|ks| - 1])
  }

  lemma {:induction false} LinesByKind(s: State, lines: seq<string>)
    ensures Lines(s, lines) == TakeAll(s, Kinds(lines))
  {
    if lines != [] {
      var n := |lines| - 1;
      LinesByKind(s, lines[..n]);
      assert Kinds(lines)[..n] == Kinds(lines[..n]) && lines == lines[..n] + [lines[n]];
      LinesConcat(s, lines[..n], [lines[n]]);
      assert [lines[n]][1..] == [];
    }
  }

  // The lines carry the pairs of one record.
  ghost predicate Carry(ks: seq<LineKind>, r: Pairs) {
    && |ks| == |r| > 0
    && ks[0].Starts? && SplitKV(ks[0].body) == Some(r[0])
    && forall i :: 0 < i < |r| ==> ks[i].Continues? && SplitKV(ks[i].text) == Some(r[i])
  }

  lemma FirstCarries(r: seq<Written>)
    requires RecordWell(r)
    ensures var k := Classify(Render(r)[0]); k.Starts? && SplitKV(k.body) == Some((r[0].key, r[0].value))
  {
    FirstPairLine(r[0]);
    PairSplits(r[0]);
    assert Render(r)[0] == r[0].indent + ("- " + PairText(r[0]));
  }

  lemma LaterCarries(r: seq<Written>, i: nat)
    requires RecordWell(r) && 0 < i < |r|
    ensures var k := Classify(Render(r)[i]); k.Continues? && SplitKV(k.text) == Some((r[i].key, r[i].value))
  {
    LaterPairLine(r[i]);
    PairSplits(r[i]);
    assert "" + PairText(r[i]) == PairText(r[i]);
    assert Render(r)[i] == r[i].indent + PairText(r[i]);
  }

  lemma RenderCarries(r: seq<Written>)
    requires RecordWell(r)
    ensures Carry(Kinds(Render(r)), PairsOf(r))
  {
    FirstCarries(r);
    forall i | 0 < i < |r|
      ensures var k := Kinds(Render(r))[i]; k.Continues? && SplitKV(k.text) == Some(PairsOf(r)[i])
    {
      LaterCarries(r, i);
    }
  }

  lemma CarriedFirst(s: State, ks: seq<LineKind>, r: Pairs)
    requires Carry(ks, r) && |r| == 1
    ensures TakeAll(s, ks) == Some(State(Flush(s), Some(RecordOf(r))))
  {
    assert ks[..0] == [] && r[..0] == [];
    assert FirstColon(ks[0].body) < |ks[0].body|;
    assert TakeAll(s, ks) == Take(s, ks[0]) == StartRecord(s, ks[0].body);
  }

  lemma CarriedNext(t: State, k: LineKind, record: Record, kv: (string, string))
    requires t.current == Some(record) && k.Continues? && SplitKV(k.text) == Some(kv)
    ensures Take(t, k) == Some(State(t.done, Some(Put(record, kv))))
  {
  }

  lemma CarryPrefix(ks: seq<LineKind>, r: Pairs)
    requires Carry(ks, r) && |r| > 1
    ensures Carry(ks[..|r| - 1], r[..|r| - 1])
    ensures ks[|r| - 1].Continues? && SplitKV(ks[|r| - 1].text) == Some(r[|r| - 1])
  {
  }

  lemma TakeLast(s: State, ks: seq<LineKind>, t: State)
    requires ks != [] && TakeAll(s, ks[..|ks| - 1]) == Some(t)
    ensures TakeAll(s, ks) == Take(t, ks[|ks| - 1])
  {
  }

  lemma {:induction false} CarriedRecord(s: State, ks: seq<LineKind>, r: Pairs)
    requires Carry(ks, r)
    ensures TakeAll(s, ks) == Some(State(Flush(s), Some(RecordOf(r))))
    decreases |r|
  {
    if |r| == 1 {
      CarriedFirst(s, ks, r);
    } else {
      var n, before := |r| - 1, RecordOf(r[..|r| - 1]);
      CarryPrefix(ks, r);
      CarriedRecord(s, ks[..n], r[..n]);
      TakeLast(s, ks, State(Flush(s), Some(before)));
      CarriedNext(State(Flush(s), Some(before)), ks[n], before, r[n]);
      assert RecordOf(r) == Put(before, r[n]);
    }
  }

  lemma ParseCarried(lines: seq<string>, r: Pairs)
    requires Carry(Kinds(lines), r)
    ensures Parse(lines) == Some([RecordOf(r)])
  {
    LinesByKind(START, lines);
    CarriedRecord(START, Kinds(lines), r);
    PutNotEmpty(RecordOf(r[..|r| - 1]), r[|r| - 1]);
    assert [] + [RecordOf(r)] == [RecordOf(r)];
  }

  lemma ParseOneMore(lines: seq<string>, r: Pairs, rest: seq<string>, records: seq<Record>)
    requires Carry(Kinds(lines), r) && Parse(rest) == Some(records) && (rest != [] ==> Classify(rest[0]).Starts?)
    ensures Parse(lines + rest) == Some([RecordOf(r)] + records)
  {
    ParseCarried(lines, r);
    if rest == [] {
      assert lines + rest == lines && records == [] && [RecordOf(r)] + records == [RecordOf(r)];
    } else {
      ParseConcat(lines, rest);
    }
  }

  predicate AllOk(rs: seq<seq<Written>>) {
    forall i :: 0 <= i < |rs| ==> RecordWell(rs[i])
  }

  lemma RenderAllStarts(rs: seq<seq<Written>>)
    requires AllOk(rs)
    ensures rs == [] <==> RenderAll(rs) == []
    ensures rs != [] ==> Classify(RenderAll(rs)[0]).Starts?
  {
    if rs != [] {
      RenderCarries(rs[0]);
      assert RenderAll(rs)[0] == Render(rs[0])[0];
    }
  }

  lemma ParseRendersStep(rs: seq<seq<Written>>)
    requires rs != [] && AllOk(rs) && Parse(RenderAll(rs[1..])) == Some(Records(rs[1..]))
    ensures Parse(RenderAll(rs)) == Some([RecordOf(PairsOf(rs[0]))] + Records(rs[1..]))
  {
    RenderCarries(rs[0]);
    RenderAllStarts(rs[1..]);
    ParseOneMore(Render(rs[0]), PairsOf(rs[0]), RenderAll(rs[1..]), Records(rs[1..]));
  }

  /** Reading back any list of records gives that list, however each line is indented and
      however each value is written: bare, in single quotes or in double quotes. */
  lemma {:induction false} ParseRenders(rs: seq<seq<Written>>)
    requires AllOk(rs)
    ensures Parse(RenderAll(rs)) == Some(Records(rs))
  {
    if rs == [] {
      assert Records(rs) == [];
    } else {
      ParseRenders(rs[1..]);
      ParseRendersStep(rs);
      assert Records(rs) == [RecordOf(PairsOf(rs[0]))] + Records(rs[1..]);
    }
  }

  // ------------------------------------------------------------------------------ noise

  // Empty lines, comments, and the two headers with whatever follows them.
  lemma NoiseLines(indent: string, rest: string)
    requires Blank(indent)
    ensures Classify(indent) == Skipped
    ensures Classify(indent + ("#" + rest)) == Skipped
    ensures Classify(indent + ("version:" + rest)) == Skipped
    ensures Classify(indent + ("exceptions:" + rest)) == Skipped
  {
    assert "#"[0] == '#' && "version:"[0] == 'v' && "version:"[7] == ':' && "exceptions:"[0] == 'e'
           && "exceptions:"[10] == ':';
    StripFront(indent, "");
    assert indent + "" == indent;
    StripFront(indent, "#" + rest);
    StripFront(indent, "version:" + rest);
    StripFront(indent, "exceptions:" + rest);
    HeadStays("#", rest);
    HeadStays("version:", rest);
    HeadStays("exceptions:", rest);
  }

  lemma {:induction false} SkippedChangeNothing(s: State, noise: seq<string>)
    requires forall i :: 0 <= i < |noise| ==> Classify(noise[i]) == Skipped
    ensures Lines(s, noise) == Some(s)
    decreases noise
  {
    if noise != [] {
      assert Classify(noise[0]) == Skipped;
      SkippedChangeNothing(s, noise[1..]);
    }
  }

  /** Such lines may stand anywhere, between the pairs of a record too. */
  lemma NoiseIsInvisible(before: seq<string>, noise: seq<string>, after: seq<string>)
    requires forall i :: 0 <= i < |noise| ==> Classify(noise[i]) == Skipped
    ensures Parse(before + noise + after) == Parse(before + after)
  {
    LinesConcat(START, before + noise, after);
    LinesConcat(START, before, noise);
    LinesConcat(START, before, after);
    if Lines(START, before).Some? {
      SkippedChangeNothing(Lines(START, before).value, noise);
    }
  }
}

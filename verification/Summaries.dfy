/** Summaries of a findings report: collecting, stable sorting by severity, counting, and the compact
    report that can be summarised again. */
module Summaries {
  import opened Collections
  import opened Patterns
  import opened Findings
  import opened FindingsRoundTrip

  datatype Summary = Summary(total: nat, critical: nat, high: nat, medium: nat, low: nat, findings: seq<Finding>)

  // ---------------------------------------------------------------- lines

  function NextBreak(s: string): (k: nat)
    ensures k <= |s| && OneLine(s[..k]) && (k < |s| ==> IsBreak(s[k]))
  {
    if s == "" || IsBreak(s[0]) then 0
    else
      var k := NextBreak(s[1..]);
      assert s[..k + 1] == [s[0]] + s[1..][..k];
      k + 1
  }

  /** The end of the line break at position k; a carriage return takes a newline with it. */
  function AfterBreak(s: string, k: nat): (e: nat)
    requires k < |s|
    ensures k < e <= |s|
  {
    if s[k] == '\r' && k + 1 < |s| && s[k + 1] == '\n' then k + 2 else k + 1
  }

  /** splitlines(). */
  function SplitLines(s: string): seq<string>
    decreases |s|
  {
    var k := NextBreak(s);
    if s == "" then [] else if k == |s| then [s] else [s[..k]] + SplitLines(s[AfterBreak(s, k)..])
  }

  function Join(lines: seq<string>): string {
    if lines == [] then "" else if |lines| == 1 then lines[0] else lines[0] + "\n" + Join(lines[1..])
  }

  lemma {:induction false} BreakAt(a: string, b: string)
    requires OneLine(a) && (b == "" || IsBreak(b[0]))
    ensures NextBreak(a + b) == |a|
  {
    if a == "" {
      assert a + b == b;
    } else {
      BreakAt(a[1..], b);
      assert (a + b)[1..] == a[1..] + b;
    }
  }

  /** Splitting undoes joining for lines that are not empty and hold no line break. */
  lemma {:induction false} SplitJoin(lines: seq<string>)
    requires forall i :: 0 <= i < |lines| ==> lines[i] != "" && OneLine(lines[i])
    ensures SplitLines(Join(lines)) == lines
  {
    if lines != [] {
      BreakAt(lines[0], "");
      assert lines[0] + "" == lines[0];
      if |lines| > 1 {
        SplitJoin(lines[1..]);
        SplitOne(lines[0], Join(lines[1..]));
      }
    }
  }

  lemma SplitOne(a: string, b: string)
    requires OneLine(a)
    ensures SplitLines(a + "\n" + b) == [a] + SplitLines(b)
  {
    var s := a + "\n" + b;
    assert s == a + ("\n" + b);
    BreakAt(a, "\n" + b);
    assert s[|a|] == '\n' && s[|a| + 1..] == b && s[..|a|] == a;
  }

  /** Everything that ends a line. */
  const BREAKS: set<string> := {
    "\n", "\r", "\r\n", "\U{0B}", "\U{0C}", "\U{1C}", "\U{1D}", "\U{1E}", "\U{85}", "\U{2028}", "\U{2029}"
  }

  /** Each of them ends the line before it; a carriage return and a newline are one of them. */
  lemma BreaksSplit(a: string, sep: string, b: string)
    requires OneLine(a) && sep in BREAKS && (sep == "\r" && b != "" ==> b[0] != '\n')
    ensures SplitLines(a + sep + b) == [a] + SplitLines(b)
  {
    ThreeParts(a, sep, b);
    BreakStarts(sep, b);
    BreakAt(a, sep + b);
    BreakEnds(a, sep, b);
    FirstLine(a + sep + b, a, b, |a| + |sep|);
  }

  lemma ThreeParts(a: string, sep: string, b: string)
    ensures var s := a + sep + b; s == a + (sep + b) && s[..|a|] == a && s[|a| + |sep|..] == b
  {
  }

  lemma BreakStarts(sep: string, b: string)
    requires sep in BREAKS
    ensures 1 <= |sep| <= 2 && IsBreak((sep + b)[0])
  {
    assert (sep + b)[0] == sep[0];
  }

  lemma FirstLine(s: string, a: string, b: string, e: nat)
    requires NextBreak(s) == |a| < |s| && AfterBreak(s, |a|) == e && s[..|a|] == a && s[e..] == b
    ensures SplitLines(s) == [a] + SplitLines(b)
  {
  }

  lemma BreakEnds(a: string, sep: string, b: string)
    requires sep in BREAKS && (sep == "\r" && b != "" ==> b[0] != '\n')
    ensures AfterBreak(a + sep + b, |a|) == |a| + |sep|
  {
    var s := a + sep + b;
    assert s[|a|] == sep[0];
    if |sep| > 1 {
      assert sep == "\r\n" && s[|a| + 1] == sep[1];
    } else if b != "" {
      assert s[|a| + 1] == b[0];
    }
  }

  // ---------------------------------------------------------------- collecting and sorting

  function LineFinding(line: string): Option<Finding> {
    var t := Strip(line);
    if t == "" then None else ParseLine(t)
  }

  /** What `parse` finds, line by line. */
  function CollectBy(parse: string -> Option<Finding>, lines: seq<string>): seq<Finding> {
    if lines == [] then []
    else
      var f := parse(lines[|lines| - 1]);
      CollectBy(parse, lines[..|lines| - 1]) + if f.Some? then [f.value] else []
  }

  function Collect(lines: seq<string>): seq<Finding> { CollectBy(LineFinding, lines) }

  function Rank(v: Severity): nat {
    match v
    case Critical => 0
    case High => 1
    case Medium => 2
    case Low => 3
  }

  /** The findings of one severity, in order. */
  function Of(fs: seq<Finding>, v: Severity): (r: seq<Finding>)
    ensures forall i :: 0 <= i < |r| ==> r[i].severity == v
  {
    if fs == [] then []
    else Of(fs[..|fs| - 1], v) + if fs[|fs| - 1].severity == v then [fs[|fs| - 1]] else []
  }

  predicate BySeverity(fs: seq<Finding>) {
    forall i, j :: 0 <= i < j < |fs| ==> Rank(fs[i].severity) <= Rank(fs[j].severity)
  }

  /** Put a finding behind those that come before it or tie with it. */
  function Insert(fs: seq<Finding>, x: Finding): seq<Finding> {
    if fs == [] || Rank(fs[|fs| - 1].severity) <= Rank(x.severity) then fs + [x]
    else Insert(fs[..|fs| - 1], x) + [fs[|fs| - 1]]
  }

  /** sort(key=severity). */
  function Sorted(fs: seq<Finding>): seq<Finding> {
    if fs == [] then [] else Insert(Sorted(fs[..|fs| - 1]), fs[|fs| - 1])
  }

  lemma OfSnoc(fs: seq<Finding>, x: Finding, v: Severity)
    ensures Of(fs + [x], v) == if x.severity == v then Of(fs, v) + [x] else Of(fs, v)
  {
    assert (fs + [x])[..|fs|] == fs;
  }

  lemma {:induction false} InsertPermutes(fs: seq<Finding>, x: Finding)
    ensures multiset(Insert(fs, x)) == multiset(fs) + multiset{x}
  {
    if fs != [] && Rank(fs[|fs| - 1].severity) > Rank(x.severity) {
      InsertPermutes(fs[..|fs| - 1], x);
      assert fs == fs[..|fs| - 1] + [fs[|fs| - 1]];
    }
  }

  lemma {:induction false} InsertSorts(fs: seq<Finding>, x: Finding)
    requires BySeverity(fs)
    ensures BySeverity(Insert(fs, x))
  {
    if fs != [] && Rank(fs[|fs| - 1].severity) > Rank(x.severity) {
      var init, y := fs[..|fs| - 1], fs[|fs| - 1];
      InsertSorts(init, x);
      InsertPermutes(init, x);
      var r := Insert(init, x);
      forall i | 0 <= i < |r| ensures Rank(r[i].severity) <= Rank(y.severity) {
        assert r[i] in multiset(init) + multiset{x};
      }
    }
  }

  lemma {:induction false} InsertStable(fs: seq<Finding>, x: Finding, v: Severity)
    ensures Of(Insert(fs, x), v) == Of(fs, v) + if x.severity == v then [x] else []
  {
    if fs == [] || Rank(fs[|fs| - 1].severity) <= Rank(x.severity) {
      OfSnoc(fs, x, v);
    } else {
      InsertStable(fs[..|fs| - 1], x, v);
      OfSnoc(Insert(fs[..|fs| - 1], x), fs[|fs| - 1], v);
    }
  }

  /** Sorting keeps every finding, with its multiplicity. */
  lemma {:induction false} SortedSorts(fs: seq<Finding>)
    ensures BySeverity(Sorted(fs)) && multiset(Sorted(fs)) == multiset(fs)
  {
    if fs != [] {
      SortedSorts(fs[..|fs| - 1]);
      InsertSorts(Sorted(fs[..|fs| - 1]), fs[|fs| - 1]);
      InsertPermutes(Sorted(fs[..|fs| - 1]), fs[|fs| - 1]);
      assert fs == fs[..|fs| - 1] + [fs[|fs| - 1]];
    }
  }

  lemma {:induction false} SortedStable(fs: seq<Finding>, v: Severity)
    ensures Of(Sorted(fs), v) == Of(fs, v)
  {
    if fs != [] {
      SortedStable(fs[..|fs| - 1], v);
      InsertStable(Sorted(fs[..|fs| - 1]), fs[|fs| - 1], v);
    }
  }

  /** A list already in order is left alone. */
  lemma {:induction false} SortedFixed(fs: seq<Finding>)
    requires BySeverity(fs)
    ensures Sorted(fs) == fs
  {
    if fs != [] {
      SortedFixed(fs[..|fs| - 1]);
    }
  }

  lemma {:induction false} NoneAbove(fs: seq<Finding>, v: Severity)
    requires forall i :: 0 <= i < |fs| ==> Rank(fs[i].severity) < Rank(v)
    ensures Of(fs, v) == []
  {
    if fs != [] {
      NoneAbove(fs[..|fs| - 1], v);
    }
  }

  /** The two lists hold the same findings of every severity, in the same order. */
  predicate SameBuckets(a: seq<Finding>, b: seq<Finding>) {
    Of(a, Critical) == Of(b, Critical) && Of(a, High) == Of(b, High) && Of(a, Medium) == Of(b, Medium)
    && Of(a, Low) == Of(b, Low)
  }

  lemma BucketsAt(a: seq<Finding>, b: seq<Finding>, v: Severity)
    requires SameBuckets(a, b)
    ensures Of(a, v) == Of(b, v)
  {
  }

  /** Two lists in order that agree severity by severity are the same list. */
  lemma {:induction false} SameInOrder(a: seq<Finding>, b: seq<Finding>)
    requires BySeverity(a) && BySeverity(b) && SameBuckets(a, b)
    ensures a == b
    decreases |a|
  {
    if a == [] || b == [] {
      BothEmpty(a, b);
    } else {
      var x, p, q := a[|a| - 1], a[..|a| - 1], b[..|b| - 1];
      SameLast(a, b);
      assert p + [x] == a && q + [x] == b;
      SameBucketsBefore(p, q, x);
      InitInOrder(a);
      InitInOrder(b);
      SameInOrder(p, q);
    }
  }

  lemma BothEmpty(a: seq<Finding>, b: seq<Finding>)
    requires SameBuckets(a, b) && (a == [] || b == [])
    ensures a == b
  {
    CountsAddUp(a);
    CountsAddUp(b);
  }

  lemma InitInOrder(a: seq<Finding>)
    requires a != [] && BySeverity(a)
    ensures BySeverity(a[..|a| - 1])
  {
  }

  lemma SameBucketsBefore(p: seq<Finding>, q: seq<Finding>, x: Finding)
    requires SameBuckets(p + [x], q + [x])
    ensures SameBuckets(p, q)
  {
    SameInits(p, q, x, Critical);
    SameInits(p, q, x, High);
    SameInits(p, q, x, Medium);
    SameInits(p, q, x, Low);
  }

  lemma SameInits(a: seq<Finding>, b: seq<Finding>, x: Finding, v: Severity)
    requires Of(a + [x], v) == Of(b + [x], v)
    ensures Of(a, v) == Of(b, v)
  {
    OfSnoc(a, x, v);
    OfSnoc(b, x, v);
    if x.severity == v {
      assert Of(a, v) == (Of(a, v) + [x])[..|Of(a, v)|];
    }
  }

  lemma SameLast(a: seq<Finding>, b: seq<Finding>)
    requires a != [] && b != [] && BySeverity(a) && BySeverity(b) && SameBuckets(a, b)
    ensures a[|a| - 1] == b[|b| - 1]
  {
    var x, y := a[|a| - 1], b[|b| - 1];
    LastIsLast(a, b);
    LastIsLast(b, a);
    SameRank(x.severity, y.severity);
    OfLast(a);
    OfLast(b);
    BucketsAt(a, b, x.severity);
  }

  lemma SameRank(u: Severity, v: Severity)
    requires Rank(u) == Rank(v)
    ensures u == v
  {
  }

  lemma OfLast(fs: seq<Finding>)
    requires fs != []
    ensures var of := Of(fs, fs[|fs| - 1].severity); of != [] && of[|of| - 1] == fs[|fs| - 1]
  {
  }

  lemma LastIsLast(a: seq<Finding>, b: seq<Finding>)
    requires a != [] && b != [] && BySeverity(b) && SameBuckets(a, b)
    ensures Rank(a[|a| - 1].severity) <= Rank(b[|b| - 1].severity)
  {
    var v := a[|a| - 1].severity;
    BucketsAt(a, b, v);
    if Rank(b[|b| - 1].severity) < Rank(v) {
      NoneAbove(b, v);
      assert false;
    }
  }

  lemma {:induction false} InsertLength(fs: seq<Finding>, x: Finding)
    ensures |Insert(fs, x)| == |fs| + 1
  {
    if fs != [] && Rank(fs[|fs| - 1].severity) > Rank(x.severity) {
      InsertLength(fs[..|fs| - 1], x);
    }
  }

  lemma {:induction false} SortedLength(fs: seq<Finding>)
    ensures |Sorted(fs)| == |fs|
  {
    if fs != [] {
      SortedLength(fs[..|fs| - 1]);
      InsertLength(Sorted(fs[..|fs| - 1]), fs[|fs| - 1]);
    }
  }

  /** The sort is stable: its result is the only list in severity order that keeps each severity's
      own order. */
  lemma StableSort(fs: seq<Finding>, r: seq<Finding>)
    ensures r == Sorted(fs) <==> (BySeverity(r) && SameBuckets(r, fs))
  {
    SortedSorts(fs);
    SortedStable(fs, Critical);
    SortedStable(fs, High);
    SortedStable(fs, Medium);
    SortedStable(fs, Low);
    if BySeverity(r) && SameBuckets(r, fs) {
      SameInOrder(r, Sorted(fs));
    }
  }

  /** So it is the critical findings, then the high, the medium and the low ones, each in their own order. */
  lemma SortedIs(fs: seq<Finding>)
    ensures Sorted(fs) == Of(fs, Critical) + (Of(fs, High) + (Of(fs, Medium) + Of(fs, Low)))
  {
    var r := Of(fs, Critical) + (Of(fs, High) + (Of(fs, Medium) + Of(fs, Low)));
    RanksGrow(Of(fs, Medium), Of(fs, Low), Medium);
    RanksGrow(Of(fs, High), Of(fs, Medium) + Of(fs, Low), High);
    RanksGrow(Of(fs, Critical), Of(fs, High) + (Of(fs, Medium) + Of(fs, Low)), Critical);
    BucketIs(fs, Critical);
    BucketIs(fs, High);
    BucketIs(fs, Medium);
    BucketIs(fs, Low);
    StableSort(fs, r);
  }

  lemma RanksGrow(a: seq<Finding>, b: seq<Finding>, v: Severity)
    requires (forall i :: 0 <= i < |a| ==> a[i].severity == v) && BySeverity(b)
    requires forall i :: 0 <= i < |b| ==> Rank(v) <= Rank(b[i].severity)
    ensures BySeverity(a + b) && forall i :: 0 <= i < |a + b| ==> Rank(v) <= Rank((a + b)[i].severity)
  {
  }

  lemma BucketIs(fs: seq<Finding>, v: Severity)
    ensures Of(Of(fs, Critical) + (Of(fs, High) + (Of(fs, Medium) + Of(fs, Low))), v) == Of(fs, v)
  {
    var a, b, c, d := Of(fs, Critical), Of(fs, High), Of(fs, Medium), Of(fs, Low);
    OfConcat(a, b + (c + d), v);
    OfConcat(b, c + d, v);
    OfConcat(c, d, v);
    OfOne(a, Critical, v);
    OfOne(b, High, v);
    OfOne(c, Medium, v);
    OfOne(d, Low, v);
  }

  lemma {:induction false} OfConcat(a: seq<Finding>, b: seq<Finding>, v: Severity)
    ensures Of(a + b, v) == Of(a, v) + Of(b, v)
    decreases |b|
  {
    if b == [] {
      assert a + b == a;
    } else {
      var init, x := b[..|b| - 1], b[|b| - 1];
      OfConcat(a, init, v);
      assert a + b == a + init + [x];
      OfSnoc(a + init, x, v);
    }
  }

  lemma {:induction false} OfOne(a: seq<Finding>, u: Severity, v: Severity)
    requires forall i :: 0 <= i < |a| ==> a[i].severity == u
    ensures Of(a, v) == if u == v then a else []
  {
    if a != [] {
      OfOne(a[..|a| - 1], u, v);
      assert a == a[..|a| - 1] + [a[|a| - 1]];
    }
  }

  lemma {:induction false} CountsAddUp(fs: seq<Finding>)
    ensures |fs| == |Of(fs, Critical)| + |Of(fs, High)| + |Of(fs, Medium)| + |Of(fs, Low)|
  {
    if fs != [] {
      CountsAddUp(fs[..|fs| - 1]);
    }
  }

  function Summarized(text: string): Summary {
    var fs := Sorted(Collect(SplitLines(text)));
    Summary(|fs|, |Of(fs, Critical)|, |Of(fs, High)|, |Of(fs, Medium)|, |Of(fs, Low)|, fs)
  }

  lemma SummarizedIs(text: string)
    ensures var r := Summarized(text);
            && BySeverity(r.findings) && multiset(r.findings) == multiset(Collect(SplitLines(text)))
            && r.total == r.critical + r.high + r.medium + r.low == |r.findings|
  {
    SortedSorts(Collect(SplitLines(text)));
    CountsAddUp(Sorted(Collect(SplitLines(text))));
  }

  method SummarizeFindings(text: string) returns (r: Summary)
    ensures r == Summarized(text)
    ensures BySeverity(r.findings) && multiset(r.findings) == multiset(Collect(SplitLines(text)))
    ensures r.total == r.critical + r.high + r.medium + r.low == |r.findings|
  {
    var lines := SplitLines(text);
    var findings: seq<Finding> := [];
    var k := 0;
    while k < |lines|
      invariant 0 <= k <= |lines| && findings == Collect(lines[..k])
    {
      assert lines[..k + 1][..k] == lines[..k];
      var line := Strip(lines[k]);
      k := k + 1;
      if line != "" {
        var result := ParseLine(line);
        if result.Some? {
          findings := findings + [result.value];
        }
      }
    }
    assert lines[..k] == lines;
    SummarizedIs(text);
    findings := Sorted(findings);
    var counts := CountSeverities(findings);
    r := Summary(|findings|, counts[Critical], counts[High], counts[Medium], counts[Low], findings);
  }

  method CountSeverities(findings: seq<Finding>) returns (counts: map<Severity, nat>)
    ensures forall v :: v in counts && counts[v] == |Of(findings, v)|
  {
    counts := map[Critical := 0, High := 0, Medium := 0, Low := 0];
    forall v: Severity ensures v in counts && counts[v] == 0 {
      match v case Critical => case High => case Medium => case Low =>
    }
    var k := 0;
    while k < |findings|
      invariant 0 <= k <= |findings|
      invariant forall v :: v in counts && counts[v] == |Of(findings[..k], v)|
    {
      var init, x := findings[..k], findings[k];
      assert findings[..k + 1] == init + [x];
      forall v ensures |Of(init + [x], v)| == |Of(init, v)| + (if v == x.severity then 1 else 0) {
        OfSnoc(init, x, v);
      }
      counts := counts[x.severity := counts[x.severity] + 1];
      k := k + 1;
    }
    assert findings[..k] == findings;
  }

  // ---------------------------------------------------------------- the compact report

  function LinesBy(show: Finding -> string, fs: seq<Finding>): (r: seq<string>)
    ensures |r| == |fs| && forall i :: 0 <= i < |fs| ==> r[i] == show(fs[i])
  {
    if fs == [] then [] else LinesBy(show, fs[..|fs| - 1]) + [show(fs[|fs| - 1])]
  }

  function Lines(fs: seq<Finding>): (r: seq<string>)
    ensures |r| == |fs| && forall i :: 0 <= i < |fs| ==> r[i] == CompactLine(fs[i])
  {
    LinesBy(CompactLine, fs)
  }

  method FormatCompact(summary: Summary) returns (report: string)
    ensures report == Join(Lines(summary.findings))
  {
    var lines: seq<string> := [];
    var k := 0;
    while k < |summary.findings|
      invariant 0 <= k <= |summary.findings| && lines == Lines(summary.findings[..k])
    {
      assert summary.findings[..k + 1][..k] == summary.findings[..k];
      lines := lines + [CompactLine(summary.findings[k])];
      k := k + 1;
    }
    assert summary.findings[..k] == summary.findings;
    report := Join(lines);
  }

  /** A clean finding on one line. */
  predicate Tidy(f: Finding) {
    Clean(f) && OneLine(f.file) && OneLine(f.title) && OneLine(f.fix)
  }

  /** The file is a single word and neither group is cut short. */
  predicate Unambiguous(f: Finding) {
    OneWord(f.file) && Safe(f)
  }

  predicate Stable(f: Finding) {
    Tidy(f) && Unambiguous(f)
  }

  lemma LineOf(f: Finding)
    requires Tidy(f)
    ensures CompactLine(f) != "" && OneLine(CompactLine(f)) && LineFinding(CompactLine(f)) == ParseLine(CompactLine(f))
    ensures LineFinding(CompactLine(f)) == Some(f) <==> Stable(f)
    ensures LineFinding(CompactLine(f)).Some? ==> LineFinding(CompactLine(f)).value.severity == f.severity
  {
    PrinterParserInverse(f);
    LineEnds(f);
    StripTrimmed(CompactLine(f));
    LineIsOne(f);
    if ParseLine(CompactLine(f)).Some? {
      SeverityKept(f);
    }
  }

  lemma LineEnds(f: Finding)
    requires Clean(f)
    ensures Trimmed(CompactLine(f))
  {
    LineShape(f);
    var tail := f.title + FixSuffix(f.fix);
    assert CompactLine(f)[|CompactLine(f)| - 1] == tail[|tail| - 1];
  }

  lemma LineIsOne(f: Finding)
    requires Tidy(f)
    ensures OneLine(CompactLine(f))
  {
    assert OneLine("[" + Upper(f.severity) + "] ");
    assert OneLine(SEPARATOR);
    if f.fix != "" {
      assert OneLine(" (fix: ");
      assert OneLine(FixSuffix(f.fix));
    }
    assert CompactLine(f) == ("[" + Upper(f.severity) + "] ") + f.file + SEPARATOR + f.title + FixSuffix(f.fix);
  }

  /** If every line parses to its finding, collecting gives the findings. */
  lemma {:induction false} CollectsAll(parse: string -> Option<Finding>, lines: seq<string>, fs: seq<Finding>)
    requires |lines| == |fs| && forall i :: 0 <= i < |fs| ==> parse(lines[i]) == Some(fs[i])
    ensures CollectBy(parse, lines) == fs
  {
    if fs != [] {
      CollectsAll(parse, lines[..|fs| - 1], fs[..|fs| - 1]);
      assert fs[..|fs| - 1] + [fs[|fs| - 1]] == fs;
    }
  }

  /** And if as many findings are collected as there are lines, every line gave one, in order. */
  lemma {:induction false} CollectsEach(parse: string -> Option<Finding>, lines: seq<string>)
    ensures |CollectBy(parse, lines)| <= |lines|
    ensures |CollectBy(parse, lines)| == |lines| ==>
              forall i :: 0 <= i < |lines| ==> parse(lines[i]) == Some(CollectBy(parse, lines)[i])
  {
    if lines != [] {
      CollectsEach(parse, lines[..|lines| - 1]);
    }
  }

  /** The lines of a report are what it was joined from. */
  lemma ReportLines(fs: seq<Finding>)
    requires forall i :: 0 <= i < |fs| ==> Tidy(fs[i])
    ensures SplitLines(Join(Lines(fs))) == Lines(fs)
  {
    forall i | 0 <= i < |fs| ensures Lines(fs)[i] != "" && OneLine(Lines(fs)[i]) {
      LineOf(fs[i]);
    }
    SplitJoin(Lines(fs));
  }

  /** Summarising a compact report sorts what was printed and loses nothing. */
  lemma ReportReadsBack(fs: seq<Finding>)
    requires forall i :: 0 <= i < |fs| ==> Stable(fs[i])
    ensures Summarized(Join(Lines(fs))).findings == Sorted(fs)
  {
    forall i | 0 <= i < |fs| ensures LineFinding(Lines(fs)[i]) == Some(fs[i]) {
      LineOf(fs[i]);
    }
    ReportLines(fs);
    CollectsAll(LineFinding, Lines(fs), fs);
  }

  /** No line gives a finding of another severity than its own. */
  predicate KeepsSeverity(parse: string -> Option<Finding>, lines: seq<string>, fs: seq<Finding>)
    requires |lines| == |fs|
  {
    forall i :: 0 <= i < |fs| && parse(lines[i]).Some? ==> parse(lines[i]).value.severity == fs[i].severity
  }

  lemma SameSeverities(parse: string -> Option<Finding>, lines: seq<string>, fs: seq<Finding>, gs: seq<Finding>)
    requires BySeverity(fs) && |lines| == |fs| == |gs| && KeepsSeverity(parse, lines, fs)
    requires forall i :: 0 <= i < |lines| ==> parse(lines[i]) == Some(gs[i])
    ensures BySeverity(gs)
  {
    forall i, j | 0 <= i < j < |gs| ensures Rank(gs[i].severity) <= Rank(gs[j].severity) {
      assert parse(lines[i]) == Some(gs[i]) && parse(lines[j]) == Some(gs[j]);
    }
  }

  /** If sorting what is collected gives back findings in severity order, and every line keeps its
      severity, every line gave its own finding. */
  lemma CollectedInPlace(parse: string -> Option<Finding>, lines: seq<string>, fs: seq<Finding>, k: nat)
    requires BySeverity(fs) && |lines| == |fs| && KeepsSeverity(parse, lines, fs) && k < |fs|
    requires Sorted(CollectBy(parse, lines)) == fs
    ensures parse(lines[k]) == Some(fs[k])
  {
    var gs := CollectBy(parse, lines);
    SortedLength(gs);
    CollectsEach(parse, lines);
    SameSeverities(parse, lines, fs, gs);
    SortedFixed(gs);
  }

  /** What the summary of a report is. */
  lemma ReportIs(fs: seq<Finding>)
    requires forall i :: 0 <= i < |fs| ==> Tidy(fs[i])
    ensures Summarized(Join(Lines(fs))).findings == Sorted(CollectBy(LineFinding, Lines(fs)))
    ensures KeepsSeverity(LineFinding, Lines(fs), fs)
  {
    ReportLines(fs);
    forall i | 0 <= i < |fs| && LineFinding(Lines(fs)[i]).Some?
      ensures LineFinding(Lines(fs)[i]).value.severity == fs[i].severity
    {
      LineOf(fs[i]);
    }
  }

  /** If the report of findings in severity order gives them back, each of them is stable. */
  lemma ReportNeedsStable(fs: seq<Finding>, k: nat)
    requires BySeverity(fs) && (forall i :: 0 <= i < |fs| ==> Tidy(fs[i])) && k < |fs|
    requires Summarized(Join(Lines(fs))).findings == fs
    ensures Stable(fs[k])
  {
    ReportIs(fs);
    CollectedInPlace(LineFinding, Lines(fs), fs, k);
    LineOf(fs[k]);
  }

  // ---------------------------------------------------------------- what the parser returns

  predicate OneLineCaptures(c: Captures) {
    OneLine(c.severity) && OneLine(c.file) && OneLine(c.title) && OneLine(c.fix)
  }

  /** What a pattern captures in a line is on one line. */
  lemma {:induction false} MatchOneLine(p: Pattern, s: string, c: Captures)
    requires OneLine(s) && OneLineCaptures(c) && Match(p, s, c).Some?
    ensures OneLineCaptures(Match(p, s, c).value)
    decreases p
  {
    match p
    case End =>
    case Literal(_, next) => MatchOneLine(next, s[1..], c);
    case Either(a, b) =>
      if Match(a, s, c).Some? {
        MatchOneLine(a, s, c);
      } else {
        MatchOneLine(b, s, c);
      }
    case Run(_, _, _, _, t, next) =>
      var f := RunMeans(p, s, c);
      MatchOneLine(next, s[f..], Capture(c, t, s[..f]));
  }

  lemma {:induction false} StripLeftOneLine(s: string)
    requires OneLine(s)
    ensures OneLine(StripLeft(s))
  {
    if s != "" && IsSpace(s[0]) {
      StripLeftOneLine(s[1..]);
    }
  }

  lemma StripClean(s: string)
    requires OneLine(s)
    ensures OneLine(Strip(s)) && (Strip(s) == "" || Trimmed(Strip(s)))
  {
    StripLeftOneLine(s);
    var left := StripLeft(s);
    var t := StripRight(left);
    assert forall i :: 0 <= i < |t| ==> t[i] == left[i];
  }

  lemma OneLineNoNewline(s: string)
    requires OneLine(s)
    ensures NoNewline(s)
  {
    forall i | 0 <= i < |s| ensures s[i] != '\n' {
      assert !IsBreak(s[i]);
    }
  }

  lemma FoundIsTidy(c: Captures)
    requires OneLineCaptures(c) && ToFinding(c).Some?
    ensures Tidy(ToFinding(c).value)
  {
    StripText(c.title);
    StripText(c.fix);
    StripClean(c.file);
    TidyParts(ToFinding(c).value, Strip(c.file), Strip(c.title), Strip(c.fix));
  }

  lemma TidyParts(f: Finding, file: string, title: string, fix: string)
    requires OneLine(file) && OneLine(title) && NoNewline(title) && Trimmed(title)
    requires OneLine(fix) && NoNewline(fix) && (fix == "" || Trimmed(fix))
    requires f.title == title && f.fix == fix && f.file == if LooksLikeFile(file) then file else "unknown"
    ensures Tidy(f)
  {
    assert OneLine("unknown");
  }

  lemma StripText(s: string)
    requires OneLine(s)
    ensures var t := Strip(s); OneLine(t) && NoNewline(t) && (t == "" || Trimmed(t))
  {
    StripClean(s);
    OneLineNoNewline(Strip(s));
  }

  lemma {:induction false} FirstIsTidy(patterns: seq<Pattern>, line: string)
    requires OneLine(line) && FirstFinding(patterns, line).Some?
    ensures Tidy(FirstFinding(patterns, line).value)
  {
    var m := Match(patterns[0], line, NOTHING);
    if m.Some? {
      MatchOneLine(patterns[0], line, NOTHING);
    }
    if m.Some? && ToFinding(m.value).Some? {
      FoundIsTidy(m.value);
    } else {
      FirstIsTidy(patterns[1..], line);
    }
  }

  /** Whatever the line and whichever pattern matched, the finding is clean and on one line. */
  lemma ParsedIsTidy(line: string)
    requires OneLine(line) && LineFinding(line).Some?
    ensures Tidy(LineFinding(line).value)
  {
    StripClean(line);
    FirstIsTidy(PATTERNS, Strip(line));
  }

  lemma {:induction false} LinesAreLines(s: string, line: string)
    requires line in SplitLines(s)
    ensures OneLine(line)
    decreases |s|
  {
    var k := NextBreak(s);
    assert s[..|s|] == s;
    if k < |s| && line != s[..k] {
      LinesAreLines(s[AfterBreak(s, k)..], line);
    }
  }

  /** Everything collected comes from some line. */
  lemma {:induction false} CollectedFrom(parse: string -> Option<Finding>, lines: seq<string>, f: Finding)
    returns (k: nat)
    requires f in CollectBy(parse, lines)
    ensures k < |lines| && parse(lines[k]) == Some(f)
  {
    if f in CollectBy(parse, lines[..|lines| - 1]) {
      k := CollectedFrom(parse, lines[..|lines| - 1], f);
    } else {
      k := |lines| - 1;
    }
  }

  /** So is every finding of every summary. */
  lemma SummaryIsTidy(text: string, f: Finding)
    requires f in Summarized(text).findings
    ensures Tidy(f)
  {
    var lines := SplitLines(text);
    SortedSorts(Collect(lines));
    assert f in multiset(Collect(lines));
    var k := CollectedFrom(LineFinding, lines, f);
    LinesAreLines(text, lines[k]);
    ParsedIsTidy(lines[k]);
  }

  /** For every text: re-summarising the compact report of its summary gives the same list and the same
      counts if and only if every file found is a single word and every finding is safe. */
  lemma SummaryRoundTrip(text: string)
    ensures Summarized(Join(Lines(Summarized(text).findings))) == Summarized(text) <==>
            forall f :: f in Summarized(text).findings ==> Unambiguous(f)
  {
    var fs := Summarized(text).findings;
    forall i | 0 <= i < |fs| ensures Tidy(fs[i]) {
      SummaryIsTidy(text, fs[i]);
    }
    SortedSorts(Collect(SplitLines(text)));
    ReportRoundTrip(fs);
    SameFindings(Join(Lines(fs)), text);
  }

  lemma SameFindings(a: string, b: string)
    ensures Summarized(a) == Summarized(b) <==> Summarized(a).findings == Summarized(b).findings
  {
  }

  /** The same for the report of any tidy findings in severity order. */
  lemma ReportRoundTrip(fs: seq<Finding>)
    requires BySeverity(fs) && forall i :: 0 <= i < |fs| ==> Tidy(fs[i])
    ensures Summarized(Join(Lines(fs))).findings == fs <==> forall f :: f in fs ==> Unambiguous(f)
  {
    if forall f :: f in fs ==> Unambiguous(f) {
      ReportReadsBack(fs);
      SortedFixed(fs);
    } else {
      var f :| f in fs && !Unambiguous(f);
      UnstableReport(fs, f);
    }
  }

  lemma UnstableReport(fs: seq<Finding>, f: Finding)
    requires BySeverity(fs) && (forall i :: 0 <= i < |fs| ==> Tidy(fs[i])) && f in fs && !Stable(f)
    ensures Summarized(Join(Lines(fs))).findings != fs
  {
    var k :| 0 <= k < |fs| && fs[k] == f;
    if Summarized(Join(Lines(fs))).findings == fs {
      ReportNeedsStable(fs, k);
    }
  }

  /** A text of one table row has one finding. */
  lemma OneRow(v: Severity, file: string, title: string)
    requires Trimmed(file) && Trimmed(title) && NoPipe(file) && NoPipe(title) && OneLine(file) && OneLine(title)
    requires LooksLikeFile(file)
    ensures Summarized(TableLine(v, file, title)).findings == [Finding(v, file, title, "")]
  {
    var line := TableLine(v, file, title);
    RowIsOneLine(v, file, title);
    StripTrimmed(line);
    TableRowParses(v, file, title);
    assert line + "" == line;
    BreakAt(line, "");
    assert SplitLines(line) == [line];
    CollectsAll(LineFinding, [line], [Finding(v, file, title, "")]);
    SortedFixed([Finding(v, file, title, "")]);
  }

  lemma RowIsOneLine(v: Severity, file: string, title: string)
    requires OneLine(file) && OneLine(title)
    ensures OneLine(TableLine(v, file, title)) && Trimmed(TableLine(v, file, title))
  {
    assert OneLine(Upper(v));
    PaddedOneLine(Upper(v));
    PaddedOneLine(file);
    PaddedOneLine(title);
    RowOneLine(" " + Upper(v) + " ", " " + file + " ", " " + title + " ");
  }

  lemma PaddedOneLine(s: string)
    requires OneLine(s)
    ensures OneLine(" " + s + " ")
  {
  }

  lemma RowOneLine(a: string, b: string, c: string)
    requires OneLine(a) && OneLine(b) && OneLine(c)
    ensures OneLine(Row3(a, b, c)) && Trimmed(Row3(a, b, c))
  {
    var s := Row3(a, b, c);
    assert s == ("|" + a) + ("|" + b) + ("|" + c) + "|";
    assert OneLine("|" + a) && OneLine("|" + b) && OneLine("|" + c) && OneLine("|");
  }

  /** So a table row whose path holds a blank, or a dash behind its first character, is a text whose
      report does not give its summary back. */
  lemma TableRowBreaks(v: Severity, file: string, title: string)
    requires Trimmed(file) && Trimmed(title) && NoPipe(file) && NoPipe(title) && OneLine(file) && OneLine(title)
    requires LooksLikeFile(file) && !(OneWord(file) && FileSafe(file))
    ensures var text := TableLine(v, file, title);
            Summarized(Join(Lines(Summarized(text).findings))) != Summarized(text)
  {
    OneRow(v, file, title);
    SummaryRoundTrip(TableLine(v, file, title));
    assert Finding(v, file, title, "") in Summarized(TableLine(v, file, title)).findings;
  }

  /** For one, the row of a hyphenated path. */
  lemma HyphenBreaks() returns (file: string, text: string)
    ensures file == "src/my-file.ts" && text == TableLine(High, file, "t")
    ensures Summarized(Join(Lines(Summarized(text).findings))) != Summarized(text)
  {
    var path, title := "src/my-file.ts", "t";
    assert path[3] == '/' && path[6] == '-';
    PathLike(path, 3);
    assert !FileSafe(path);
    TableRowBreaks(High, path, title);
    file, text := path, TableLine(High, path, title);
  }

  /** A word with a slash in it looks like a file. */
  lemma PathLike(file: string, k: nat)
    requires k < |file| && file[k] == '/' && OneWord(file)
    ensures LooksLikeFile(file)
  {
    StripTrimmed(file);
    assert LowerAll(file)[k] == '/';
  }
}

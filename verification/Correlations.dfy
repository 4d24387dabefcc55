/** Correlation ids as text: composing one from its parts, and reading the parts back. */
module Correlations {
  import opened Collections

  /** The segment prefixes, outermost context first. */
  const PREFIXES: seq<string> := ["sess", "wf", "skill", "agent", "hook", "tool"]

  /** One value per prefix, if there is one. */
  type Parts = p: seq<Option<string>> | |p| == 6 witness [None, None, None, None, None, None]

  // ---------------------------------------------------------------- composing

  function Segment(k: nat, value: string): string
    requires k < 6
  {
    PREFIXES[k] + "-" + value
  }

  /** The segments of the first k parts. */
  function Segments(parts: Parts, k: nat): seq<string>
    requires k <= 6
  {
    if k == 0 then []
    else Segments(parts, k - 1) + if parts[k - 1].Some? then [Segment(k - 1, parts[k - 1].value)] else []
  }

  function JoinColon(segments: seq<string>): string {
    if segments == [] then "" else if |segments| == 1 then segments[0] else segments[0] + ":" + JoinColon(segments[1..])
  }

  function Compose(parts: Parts): Option<string> {
    var segments := Segments(parts, 6);
    if segments == [] then None else Some(JoinColon(segments))
  }

  // ---------------------------------------------------------------- reading back

  predicate StartsWith(s: string, i: nat, word: string) {
    i + |word| <= |s| && s[i..i + |word|] == word
  }

  /** The prefix that `s` has at position i, followed by a dash. */
  function PrefixAt(s: string, i: nat, k: nat): Option<nat>
    requires k <= 6
    decreases 6 - k
  {
    if k == 6 then None else if StartsWith(s, i, PREFIXES[k] + "-") then Some(k) else PrefixAt(s, i, k + 1)
  }

  /** A colon right before a prefix and its dash: where the text is split. */
  predicate MarkAt(s: string, p: nat) {
    p < |s| && s[p] == ':' && PrefixAt(s, p + 1, 0).Some?
  }

  predicate Marked(s: string) { exists p :: 0 <= p < |s| && MarkAt(s, p) }

  /** The first mark from position p on, or the end. */
  function FirstMark(s: string, p: nat): (q: nat)
    requires p <= |s|
    ensures p <= q <= |s| && (q < |s| ==> MarkAt(s, q)) && forall i :: p <= i < q ==> !MarkAt(s, i)
    decreases |s| - p
  {
    if p == |s| || MarkAt(s, p) then p else FirstMark(s, p + 1)
  }

  function Split(s: string): seq<string>
    decreases |s|
  {
    var p := FirstMark(s, 0);
    if p == |s| then [s] else [s[..p]] + Split(s[p + 1..])
  }

  function LineLength(s: string): (m: nat)
    ensures m <= |s| && (m < |s| ==> s[m] == '\n') && forall i :: 0 <= i < m ==> s[i] != '\n'
  {
    if s == "" || s[0] == '\n' then 0 else 1 + LineLength(s[1..])
  }

  /** `(.+)$`: at least one character, no newline but perhaps one at the end, which is not captured. */
  function ValueOf(rest: string): Option<string> {
    var m := LineLength(rest);
    if m >= 1 && (m == |rest| || m == |rest| - 1) then Some(rest[..m]) else None
  }

  /** A segment read into the result; a malformed one is skipped, a later one of the same type wins. */
  function Take(result: Parts, segment: string): Parts {
    var k := PrefixAt(segment, 0, 0);
    if k.None? then result
    else
      PrefixIs(segment, 0, 0);
      var value := ValueOf(segment[|PREFIXES[k.value]| + 1..]);
      if value.None? then result else result[k.value := value]
  }

  function TakeAll(result: Parts, segments: seq<string>): Parts
    decreases |segments|
  {
    if segments == [] then result else Take(TakeAll(result, segments[..|segments| - 1]), segments[|segments| - 1])
  }

  const NO_PARTS: Parts := [None, None, None, None, None, None]

  function Decompose(id: string): Parts { TakeAll(NO_PARTS, Split(id)) }

  lemma {:induction false} PrefixIs(s: string, i: nat, k: nat)
    requires k <= 6
    ensures PrefixAt(s, i, k).Some? ==>
              var j := PrefixAt(s, i, k).value;
              k <= j < 6 && StartsWith(s, i, PREFIXES[j] + "-") && i + |PREFIXES[j]| + 1 <= |s|
    ensures PrefixAt(s, i, k).None? ==> forall j :: k <= j < 6 ==> !StartsWith(s, i, PREFIXES[j] + "-")
    decreases 6 - k
  {
    if k < 6 && !StartsWith(s, i, PREFIXES[k] + "-") {
      PrefixIs(s, i, k + 1);
    }
  }

  // ---------------------------------------------------------------- the condition

  /** A value that survives: not empty, on one line, and without a colon before a prefix and its dash. */
  predicate Plain(v: string) {
    v != "" && (forall i :: 0 <= i < |v| ==> v[i] != '\n') && !Marked(v)
  }

  predicate AllPlain(parts: Parts) {
    forall k :: 0 <= k < 6 && parts[k].Some? ==> Plain(parts[k].value)
  }

  // ---------------------------------------------------------------- prefixes and marks

  function Word(j: nat): string
    requires j < 6
  {
    PREFIXES[j] + "-"
  }

  lemma WordsNoColon(j: nat, i: nat)
    requires j < 6 && i < |Word(j)|
    ensures Word(j)[i] != ':'
  {
  }

  /** No prefix with its dash begins another. */
  lemma WordsDiffer(j: nat, k: nat) returns (i: nat)
    requires j < 6 && k < 6 && j != k
    ensures i < |Word(j)| && i < |Word(k)| && Word(j)[i] != Word(k)[i]
  {
    i := if (j == 0 && k == 2) || (j == 2 && k == 0) then 1 else 0;
  }

  lemma SliceOfSlice(part: string, whole: string, c: nat, i: nat, m: nat)
    requires c + |part| <= |whole| && whole[c..c + |part|] == part && i + m <= |part|
    ensures whole[c + i..c + i + m] == part[i..i + m]
  {
    var a, b := whole[c + i..c + i + m], part[i..i + m];
    forall k | 0 <= k < m ensures a[k] == b[k] {
      assert a[k] == whole[c + i + k] && part[i + k] == whole[c..c + |part|][i + k];
    }
    assert a == b;
  }

  lemma StartsAt(s: string, i: nat, w: string, d: nat)
    requires StartsWith(s, i, w) && d < |w|
    ensures s[i + d] == w[d]
  {
    assert s[i..i + |w|][d] == s[i + d];
  }

  /** A prefix in a part of the text is there in the whole. */
  lemma PrefixCarries(part: string, whole: string, c: nat, i: nat)
    requires c + |part| <= |whole| && whole[c..c + |part|] == part && PrefixAt(part, i, 0).Some?
    ensures PrefixAt(whole, c + i, 0).Some?
  {
    PrefixIs(part, i, 0);
    PrefixIs(whole, c + i, 0);
    var w := Word(PrefixAt(part, i, 0).value);
    SliceOfSlice(part, whole, c, i, |w|);
  }

  lemma MarkCarries(part: string, whole: string, c: nat, p: nat)
    requires c + |part| <= |whole| && whole[c..c + |part|] == part && MarkAt(part, p)
    ensures MarkAt(whole, c + p)
  {
    assert whole[c + p] == part[p];
    PrefixCarries(part, whole, c, p + 1);
  }

  /** A mark whose prefix ends inside a part is a mark of the part. */
  lemma MarkReturns(part: string, whole: string, c: nat, p: nat, j: nat)
    requires c + |part| <= |whole| && whole[c..c + |part|] == part && c <= p < |whole| && whole[p] == ':' && j < 6
    requires StartsWith(whole, p + 1, Word(j)) && p + 1 + |Word(j)| <= c + |part|
    ensures MarkAt(part, p - c)
  {
    assert whole[c..c + |part|][p - c] == whole[p];
    SliceOfSlice(part, whole, c, p + 1 - c, |Word(j)|);
    PrefixIs(part, p + 1 - c, 0);
  }

  // ---------------------------------------------------------------- what is read back is plain

  lemma {:induction false} PiecesUnmarked(s: string, t: string)
    requires t in Split(s)
    ensures !Marked(t)
    decreases |s|
  {
    var p := FirstMark(s, 0);
    assert s[..|s|] == s;
    if t == s[..p] {
      if q :| 0 <= q < |t| && MarkAt(t, q) {
        MarkCarries(t, s, 0, q);
      }
    } else {
      PiecesUnmarked(s[p + 1..], t);
    }
  }

  lemma TakeKeepsPlain(result: Parts, segment: string)
    requires AllPlain(result) && !Marked(segment)
    ensures AllPlain(Take(result, segment))
  {
    var k := PrefixAt(segment, 0, 0);
    if k.Some? {
      PrefixIs(segment, 0, 0);
      var c := |PREFIXES[k.value]| + 1;
      var value := ValueOf(segment[c..]);
      if value.Some? {
        ValueIsPlain(segment, c, value.value);
      }
    }
  }

  lemma ValueIsPlain(segment: string, c: nat, value: string)
    requires c <= |segment| && ValueOf(segment[c..]) == Some(value) && !Marked(segment)
    ensures Plain(value)
  {
    assert segment[c..c + |value|] == value;
    if q :| 0 <= q < |value| && MarkAt(value, q) {
      MarkCarries(value, segment, c, q);
    }
  }

  lemma {:induction false} TakeAllPlain(segments: seq<string>)
    requires forall t :: t in segments ==> !Marked(t)
    ensures AllPlain(TakeAll(NO_PARTS, segments))
    decreases |segments|
  {
    if segments != [] {
      TakeAllPlain(segments[..|segments| - 1]);
      TakeKeepsPlain(TakeAll(NO_PARTS, segments[..|segments| - 1]), segments[|segments| - 1]);
    }
  }

  /** Whatever the text, the values read from it are plain. */
  lemma DecomposedIsPlain(id: string)
    ensures AllPlain(Decompose(id))
  {
    forall t | t in Split(id) ensures !Marked(t) {
      PiecesUnmarked(id, t);
    }
    TakeAllPlain(Split(id));
  }

  // ---------------------------------------------------------------- plain values come back

  /** A segment as composing writes it. */
  predicate Good(t: string) { !Marked(t) && PrefixAt(t, 0, 0).Some? }

  lemma SegmentShape(k: nat, v: string)
    requires k < 6
    ensures var t := Segment(k, v); t == Word(k) + v && StartsWith(t, 0, Word(k)) && t[|Word(k)|..] == v
  {
    var t := Segment(k, v);
    assert t == Word(k) + v;
    assert t[0..0 + |Word(k)|] == Word(k);
  }

  lemma OtherPrefix(s: string, i: nat, j: nat, k: nat)
    requires j < 6 && k < 6 && j != k && StartsWith(s, i, Word(k))
    ensures !StartsWith(s, i, Word(j))
  {
    var d := WordsDiffer(j, k);
    StartsAt(s, i, Word(k), d);
    if StartsWith(s, i, Word(j)) {
      StartsAt(s, i, Word(j), d);
    }
  }

  /** A prefix is found where it stands. */
  lemma {:induction false} PrefixFound(s: string, i: nat, k: nat, j: nat)
    requires k <= j < 6 && StartsWith(s, i, Word(j))
    ensures PrefixAt(s, i, k) == Some(j)
    decreases j - k
  {
    if k < j {
      OtherPrefix(s, i, k, j);
      PrefixFound(s, i, k + 1, j);
    }
  }

  lemma SegmentIsGood(k: nat, v: string)
    requires k < 6 && Plain(v)
    ensures Good(Segment(k, v))
  {
    var t, c := Segment(k, v), |Word(k)|;
    SegmentShape(k, v);
    PrefixFound(t, 0, 0, k);
    if p :| 0 <= p < |t| && MarkAt(t, p) {
      if p < c {
        WordsNoColon(k, p);
      }
      PrefixIs(t, p + 1, 0);
      assert t[c..c + |v|] == v;
      MarkReturns(v, t, c, p, PrefixAt(t, p + 1, 0).value);
      assert false;
    }
  }

  lemma MarkAtJoin(t: string, rest: string)
    requires PrefixAt(rest, 0, 0).Some?
    ensures MarkAt(t + ":" + rest, |t|)
  {
    var s := t + ":" + rest;
    assert s[|t| + 1..|t| + 1 + |rest|] == rest;
    PrefixCarries(rest, s, |t| + 1, 0);
  }

  lemma NoMarkBefore(t: string, rest: string, q: nat)
    requires !Marked(t) && q < |t|
    ensures !MarkAt(t + ":" + rest, q)
  {
    var s := t + ":" + rest;
    if MarkAt(s, q) {
      PrefixIs(s, q + 1, 0);
      var j := PrefixAt(s, q + 1, 0).value;
      assert s[0..0 + |t|] == t;
      if q + 1 + |Word(j)| > |t| {
        assert s[q + 1..q + 1 + |Word(j)|][|t| - q - 1] == s[|t|];
        WordsNoColon(j, |t| - q - 1);
      } else {
        MarkReturns(t, s, 0, q, j);
      }
    }
  }

  lemma FirstMarkIs(s: string, p: nat)
    requires p <= |s| && (p < |s| ==> MarkAt(s, p)) && forall q :: 0 <= q < p ==> !MarkAt(s, q)
    ensures FirstMark(s, 0) == p
  {
  }

  lemma SplitOne(t: string, rest: string)
    requires !Marked(t) && PrefixAt(rest, 0, 0).Some?
    ensures Split(t + ":" + rest) == [t] + Split(rest)
  {
    var s := t + ":" + rest;
    MarkAtJoin(t, rest);
    forall q | 0 <= q < |t| ensures !MarkAt(s, q) {
      NoMarkBefore(t, rest, q);
    }
    FirstMarkIs(s, |t|);
    assert s[..|t|] == t && s[|t| + 1..] == rest;
  }

  lemma JoinStarts(segments: seq<string>)
    requires segments != [] && PrefixAt(segments[0], 0, 0).Some?
    ensures PrefixAt(JoinColon(segments), 0, 0).Some?
  {
    var s := JoinColon(segments);
    assert s[0..0 + |segments[0]|] == segments[0];
    PrefixCarries(segments[0], s, 0, 0);
  }

  lemma SplitWhole(t: string)
    requires !Marked(t)
    ensures Split(t) == [t]
  {
    assert forall q :: 0 <= q < |t| ==> !MarkAt(t, q);
    FirstMarkIs(t, |t|);
  }

  /** Splitting undoes joining. */
  lemma {:induction false} SplitJoin(segments: seq<string>)
    requires segments != [] && forall i :: 0 <= i < |segments| ==> Good(segments[i])
    ensures Split(JoinColon(segments)) == segments
  {
    if |segments| == 1 {
      SplitWhole(segments[0]);
    } else {
      var first, rest := segments[0], segments[1..];
      assert forall i :: 0 <= i < |rest| ==> rest[i] == segments[i + 1];
      assert segments == [first] + rest;
      SplitJoin(rest);
      JoinStarts(rest);
      SplitOne(first, JoinColon(rest));
    }
  }

  lemma {:induction false} SegmentsGood(parts: Parts, k: nat)
    requires k <= 6 && AllPlain(parts)
    ensures forall i :: 0 <= i < |Segments(parts, k)| ==> Good(Segments(parts, k)[i])
  {
    if k > 0 {
      SegmentsGood(parts, k - 1);
      if parts[k - 1].Some? {
        SegmentIsGood(k - 1, parts[k - 1].value);
      }
    }
  }

  lemma PlainValue(v: string)
    requires Plain(v)
    ensures ValueOf(v) == Some(v)
  {
    assert v[..|v|] == v;
  }

  lemma TakeSegment(result: Parts, k: nat, v: string)
    requires k < 6 && Plain(v)
    ensures Take(result, Segment(k, v)) == result[k := Some(v)]
  {
    var t := Segment(k, v);
    SegmentShape(k, v);
    PrefixFound(t, 0, 0, k);
    PlainValue(v);
  }

  /** One newline at the end of a segment is dropped; any other makes the segment malformed. */
  lemma NewlinesRead(result: Parts, k: nat, v: string, rest: string)
    requires k < 6 && v != "" && forall i :: 0 <= i < |v| ==> v[i] != '\n'
    ensures Take(result, Segment(k, v + "\n" + rest)) == if rest == "" then result[k := Some(v)] else result
  {
    var w := v + "\n" + rest;
    SegmentShape(k, w);
    PrefixFound(Segment(k, w), 0, 0, k);
    assert w == v + ("\n" + rest);
    LineIs(v, "\n" + rest);
    assert w[..|v|] == v;
  }

  lemma {:induction false} LineIs(v: string, rest: string)
    requires (forall i :: 0 <= i < |v| ==> v[i] != '\n') && rest != "" && rest[0] == '\n'
    ensures LineLength(v + rest) == |v|
  {
    if v == "" {
      assert v + rest == rest;
    } else {
      LineIs(v[1..], rest);
      assert (v + rest)[1..] == v[1..] + rest;
    }
  }

  lemma {:induction false} SegmentsTaken(parts: Parts, k: nat)
    requires k <= 6 && AllPlain(parts)
    ensures TakeAll(NO_PARTS, Segments(parts, k)) == parts[..k] + NO_PARTS[k..]
  {
    if k > 0 {
      var before := Segments(parts, k - 1);
      SegmentsTaken(parts, k - 1);
      if parts[k - 1].Some? {
        var v := parts[k - 1].value;
        TakeLast(before, Segment(k - 1, v));
        TakeSegment(TakeAll(NO_PARTS, before), k - 1, v);
      } else {
        assert before + [] == before;
      }
      OnePartMore(parts, k - 1);
    }
  }

  lemma TakeLast(segments: seq<string>, t: string)
    ensures TakeAll(NO_PARTS, segments + [t]) == Take(TakeAll(NO_PARTS, segments), t)
  {
    assert (segments + [t])[..|segments|] == segments;
  }

  lemma OnePartMore(parts: Parts, k: nat)
    requires k < 6
    ensures var before := parts[..k] + NO_PARTS[k..];
            parts[..k + 1] + NO_PARTS[k + 1..] == if parts[k].Some? then before[k := parts[k]] else before
  {
  }

  // ---------------------------------------------------------------- the round trip

  /** Composing and reading back give the parts again exactly when every value is plain. */
  lemma RoundTrip(parts: Parts)
    requires Compose(parts).Some?
    ensures Decompose(Compose(parts).value) == parts <==> AllPlain(parts)
  {
    if AllPlain(parts) {
      SegmentsGood(parts, 6);
      SplitJoin(Segments(parts, 6));
      SegmentsTaken(parts, 6);
    }
    DecomposedIsPlain(Compose(parts).value);
  }
}

/** Which contexts share a correlation id. */
module Contexts {
  import opened Collections
  import opened Documents
  import opened Rows
  import opened Correlations

  /** A mark before one of the prefixes from k on: a forward mark of a value of part k - 1. */
  predicate ForwardAt(s: string, p: nat, k: nat)
    requires k <= 6
  {
    p < |s| && s[p] == ':' && PrefixAt(s, p + 1, k).Some?
  }

  predicate NoForward(v: string, k: nat)
    requires k <= 6
  {
    forall i :: 0 <= i < |v| ==> !ForwardAt(v, i, k)
  }

  /** A value of part k that does not hold the mark of a later part. */
  predicate SettledValue(v: string, k: nat)
    requires k < 6
  {
    NoForward(v, k + 1)
  }

  /** No value holds the mark of a later part. */
  predicate Settled(parts: Parts) {
    forall k :: 0 <= k < 6 && parts[k].Some? ==> SettledValue(parts[k].value, k)
  }

  /** The first forward mark from position p on, or the end. */
  function FirstForward(s: string, p: nat, k: nat): (q: nat)
    requires p <= |s| && k <= 6
    ensures p <= q <= |s| && (q < |s| ==> ForwardAt(s, q, k)) && forall i :: p <= i < q ==> !ForwardAt(s, i, k)
    decreases |s| - p
  {
    if p == |s| || ForwardAt(s, p, k) then p else FirstForward(s, p + 1, k)
  }

  /** A part behind a colon. */
  function Piece(parts: Parts, k: nat): string
    requires k < 6
  {
    if parts[k].Some? then ":" + Segment(k, parts[k].value) else ""
  }

  function Pieces(parts: Parts): (pieces: seq<string>)
    ensures |pieces| == 6 && forall k :: 0 <= k < 6 ==> pieces[k] == Piece(parts, k)
  {
    seq(6, k requires 0 <= k < 6 => Piece(parts, k))
  }

  function Concat(pieces: seq<string>, k: nat): string
    requires k <= |pieces|
    decreases |pieces| - k
  {
    if k == |pieces| then "" else pieces[k] + Concat(pieces, k + 1)
  }

  /** The parts from k on, each behind a colon. */
  function Rest(parts: Parts, k: nat): string
    requires k <= 6
  {
    Concat(Pieces(parts), k)
  }

  lemma RestNext(parts: Parts, k: nat)
    requires k < 6
    ensures Rest(parts, k) == Piece(parts, k) + Rest(parts, k + 1)
    ensures parts[k].None? ==> Rest(parts, k) == Rest(parts, k + 1)
  {
  }

  /** The first part of such a text, its value taken up to the mark of a later part, and what is left. */
  datatype Head = Head(part: nat, value: string, rest: string)

  function HeadOf(s: string, k: nat): (h: Head)
    requires k <= 6 && ForwardAt(s, 0, k)
    ensures k <= h.part < 6 && |h.rest| < |s|
  {
    PrefixIs(s, 1, k);
    var j := PrefixAt(s, 1, k).value;
    var value := s[1 + |Word(j)|..];
    var m := FirstForward(value, 0, j + 1);
    Head(j, value[..m], value[m..])
  }

  /** The parts from k on of such a text. */
  function ReadRest(s: string, k: nat): Parts
    requires k <= 6
    decreases |s|
  {
    if !ForwardAt(s, 0, k) then NO_PARTS
    else
      var h := HeadOf(s, k);
      ReadRest(h.rest, h.part + 1)[h.part := Some(h.value)]
  }

  /** The context an id stands for. */
  function Settle(parts: Parts): Parts { ReadRest(Rest(parts, 0), 0) }

  function Colons(segments: seq<string>): string {
    if segments == [] then "" else ":" + segments[0] + Colons(segments[1..])
  }

  lemma {:induction false} JoinIsColons(segments: seq<string>)
    requires segments != []
    ensures ":" + JoinColon(segments) == Colons(segments)
  {
    if |segments| > 1 {
      JoinIsColons(segments[1..]);
    }
  }

  lemma {:induction false} ColonsLast(segments: seq<string>, t: string)
    ensures Colons(segments + [t]) == Colons(segments) + ":" + t
  {
    if segments == [] {
      assert [t][1..] == [];
    } else {
      ColonsLast(segments[1..], t);
      assert (segments + [t])[1..] == segments[1..] + [t];
    }
  }

  lemma ColonsNext(parts: Parts, k: nat)
    requires k < 6
    ensures Colons(Segments(parts, k + 1)) == Colons(Segments(parts, k)) + Piece(parts, k)
  {
    if parts[k].Some? {
      ColonsLast(Segments(parts, k), Segment(k, parts[k].value));
    } else {
      assert Segments(parts, k + 1) == Segments(parts, k);
    }
  }

  lemma {:induction false} SegmentsRest(parts: Parts, k: nat)
    requires k <= 6
    ensures Colons(Segments(parts, k)) + Rest(parts, k) == Rest(parts, 0)
  {
    if k > 0 {
      SegmentsRest(parts, k - 1);
      ColonsNext(parts, k - 1);
      RestNext(parts, k - 1);
      var a, p, r := Colons(Segments(parts, k - 1)), Piece(parts, k - 1), Rest(parts, k);
      assert (a + p) + r == a + (p + r);
    }
  }

  /** Two contexts compose to the same text exactly when their parts behind colons are the same text. */
  lemma ComposeIsRest(parts: Parts)
    ensures Rest(parts, 0) == if Compose(parts).Some? then ":" + Compose(parts).value else ""
  {
    SegmentsRest(parts, 6);
    if Segments(parts, 6) != [] {
      JoinIsColons(Segments(parts, 6));
    }
  }

  // ---------------------------------------------------------------- marks of later parts

  lemma ForwardHas(s: string, p: nat, k: nat) returns (j: nat)
    requires k <= 6 && ForwardAt(s, p, k)
    ensures k <= j < 6 && PrefixAt(s, p + 1, k) == Some(j) && StartsWith(s, p + 1, Word(j))
  {
    PrefixIs(s, p + 1, k);
    j := PrefixAt(s, p + 1, k).value;
  }

  lemma ForwardFrom(s: string, p: nat, k: nat, j: nat)
    requires k <= j < 6 && p < |s| && s[p] == ':' && StartsWith(s, p + 1, Word(j))
    ensures ForwardAt(s, p, k)
  {
    PrefixFound(s, p + 1, k, j);
  }

  lemma StartsShift(s: string, c: nat, i: nat, w: string)
    requires c <= |s|
    ensures StartsWith(s[c..], i, w) <==> StartsWith(s, c + i, w)
  {
    if c + i + |w| <= |s| {
      assert s[c..][i..i + |w|] == s[c + i..c + i + |w|];
    }
  }

  /** Whether a mark is forward is seen from it on. */
  lemma ForwardShift(s: string, c: nat, k: nat)
    requires c <= |s| && k <= 6
    ensures ForwardAt(s[c..], 0, k) <==> ForwardAt(s, c, k)
  {
    if ForwardAt(s, c, k) {
      var j := ForwardHas(s, c, k);
      StartsShift(s, c, 1, Word(j));
      ForwardFrom(s[c..], 0, k, j);
    } else if ForwardAt(s[c..], 0, k) {
      var j := ForwardHas(s[c..], 0, k);
      StartsShift(s, c, 1, Word(j));
      ForwardFrom(s, c, k, j);
    }
  }

  /** A prefix inside a value does not reach over the colon that follows the value. */
  lemma StartsInside(v: string, rest: string, i: nat, j: nat)
    requires j < 6 && i <= |v| && (rest != "" ==> rest[0] == ':')
    ensures StartsWith(v + rest, i, Word(j)) <==> StartsWith(v, i, Word(j))
  {
    var s, e := v + rest, i + |Word(j)|;
    if e <= |v| {
      assert s[i..e] == v[i..e];
    } else if StartsWith(s, i, Word(j)) {
      StartsAt(s, i, Word(j), |v| - i);
      WordsNoColon(j, |v| - i);
    }
  }

  lemma ForwardInside(v: string, rest: string, p: nat, k: nat)
    requires k <= 6 && p < |v| && (rest != "" ==> rest[0] == ':')
    ensures ForwardAt(v + rest, p, k) <==> ForwardAt(v, p, k)
  {
    if ForwardAt(v, p, k) {
      var j := ForwardHas(v, p, k);
      StartsInside(v, rest, p + 1, j);
      ForwardFrom(v + rest, p, k, j);
    } else if ForwardAt(v + rest, p, k) {
      var j := ForwardHas(v + rest, p, k);
      StartsInside(v, rest, p + 1, j);
      ForwardFrom(v, p, k, j);
    }
  }

  // ---------------------------------------------------------------- reading is settling

  lemma {:induction false} ConcatSame(p: seq<string>, q: seq<string>, k: nat)
    requires k <= |p| == |q| && forall i :: k <= i < |p| ==> p[i] == q[i]
    ensures Concat(p, k) == Concat(q, k)
    decreases |p| - k
  {
    if k < |p| {
      ConcatSame(p, q, k + 1);
    }
  }

  lemma {:induction false} ConcatSkips(p: seq<string>, k: nat, j: nat)
    requires k <= j <= |p| && forall i :: k <= i < j ==> p[i] == ""
    ensures Concat(p, k) == Concat(p, j)
    decreases j - k
  {
    if k < j {
      ConcatSkips(p, k + 1, j);
    }
  }

  /** The text of a part j put before later ones. */
  lemma RestPut(later: Parts, k: nat, j: nat, v: string)
    requires k <= j < 6 && forall i :: 0 <= i <= j ==> later[i].None?
    ensures Rest(later[j := Some(v)], k) == ":" + Segment(j, v) + Rest(later, j + 1)
  {
    var q: Parts := later[j := Some(v)];
    ConcatSkips(Pieces(q), k, j);
    ConcatSame(Pieces(q), Pieces(later), j + 1);
    RestNext(q, j);
  }

  /** A text of parts from k on: nothing, or a forward mark first. */
  predicate Headed(s: string, k: nat)
    requires k <= 6
  {
    s == "" || ForwardAt(s, 0, k)
  }

  lemma NoForwardPart(v: string, rest: string, k: nat)
    requires k <= 6 && (rest != "" ==> rest[0] == ':') && FirstForward(v + rest, 0, k) == |v|
    ensures NoForward(v, k)
  {
    forall i | 0 <= i < |v| ensures !ForwardAt(v, i, k) {
      ForwardInside(v, rest, i, k);
    }
  }

  lemma FirstForwardIs(v: string, rest: string, k: nat)
    requires k <= 6 && Headed(rest, k) && NoForward(v, k)
    ensures FirstForward(v + rest, 0, k) == |v|
  {
    var s := v + rest;
    assert s[|v|..] == rest;
    ForwardShift(s, |v|, k);
    forall i | 0 <= i < |v| ensures !ForwardAt(s, i, k) {
      ForwardInside(v, rest, i, k);
    }
    if rest != "" {
      assert ForwardAt(s, |v|, k);
    }
  }

  lemma HeadText(s: string, j: nat, v: string, rest: string)
    requires j < 6 && s != "" && s[0] == ':' && StartsWith(s, 1, Word(j)) && s[1 + |Word(j)|..] == v + rest
    ensures s == ":" + Segment(j, v) + rest
  {
    var w := Word(j);
    assert s == s[..1] + s[1..1 + |w|] + s[1 + |w|..];
    SegmentShape(j, v);
    assert ":" + (w + v) + rest == ":" + w + (v + rest);
  }

  lemma CutIsSettled(value: string, k: nat)
    requires k <= 6
    ensures var m := FirstForward(value, 0, k);
            NoForward(value[..m], k) && Headed(value[m..], k) && value[..m] + value[m..] == value
  {
    var m := FirstForward(value, 0, k);
    ForwardShift(value, m, k);
    assert value[..m] + value[m..] == value;
    NoForwardPart(value[..m], value[m..], k);
  }

  /** What is read first has a settled value. */
  lemma HeadIs(s: string, k: nat)
    requires k <= 6 && ForwardAt(s, 0, k)
    ensures var h := HeadOf(s, k);
            s == ":" + Segment(h.part, h.value) + h.rest && SettledValue(h.value, h.part) && Headed(h.rest, h.part + 1)
  {
    var h := HeadOf(s, k);
    var j := ForwardHas(s, 0, k);
    CutIsSettled(s[1 + |Word(j)|..], j + 1);
    HeadText(s, j, h.value, h.rest);
  }

  /** A settled context without parts before k, whose text is s. */
  predicate ReadAs(q: Parts, s: string, k: nat)
    requires k <= 6
  {
    Settled(q) && (forall i :: 0 <= i < k ==> q[i].None?) && Rest(q, k) == s
  }

  lemma PutIs(later: Parts, rest: string, k: nat, j: nat, v: string)
    requires k <= j < 6 && ReadAs(later, rest, j + 1) && SettledValue(v, j)
    ensures ReadAs(later[j := Some(v)], ":" + Segment(j, v) + rest, k)
  {
    RestPut(later, k, j, v);
  }

  lemma EmptyIsRead(k: nat)
    requires k <= 6
    ensures ReadAs(NO_PARTS, "", k)
  {
    ConcatSkips(Pieces(NO_PARTS), k, 6);
  }

  lemma HeadIsRead(s: string, k: nat, h: Head, later: Parts)
    requires k <= 6 && ForwardAt(s, 0, k) && h == HeadOf(s, k) && ReadAs(later, h.rest, h.part + 1)
    ensures ReadAs(later[h.part := Some(h.value)], s, k)
  {
    HeadIs(s, k);
    PutIs(later, h.rest, k, h.part, h.value);
  }

  /** What is read is settled, has no part before k, and is the text again. */
  lemma {:induction false} ReadRestIs(s: string, k: nat)
    requires k <= 6 && Headed(s, k)
    ensures ReadAs(ReadRest(s, k), s, k)
    decreases |s|
  {
    if s == "" {
      EmptyIsRead(k);
    } else {
      var h := HeadOf(s, k);
      var later := ReadRest(h.rest, h.part + 1);
      assert Headed(h.rest, h.part + 1) by { HeadIs(s, k); }
      ReadRestIs(h.rest, h.part + 1);
      HeadIsRead(s, k, h, later);
    }
  }

  lemma {:induction false} RestHeaded(parts: Parts, k: nat)
    requires k <= 6
    ensures Headed(Rest(parts, k), k)
    decreases 6 - k
  {
    if k < 6 {
      RestHeaded(parts, k + 1);
      RestNext(parts, k);
      if parts[k].Some? {
        PieceHeaded(k, parts[k].value, Rest(parts, k + 1));
      } else {
        HeadedLower(Rest(parts, k), k);
      }
    }
  }

  lemma HeadedLower(s: string, k: nat)
    requires k < 6 && Headed(s, k + 1)
    ensures Headed(s, k)
  {
    if s != "" {
      var j := ForwardHas(s, 0, k + 1);
      ForwardFrom(s, 0, k, j);
    }
  }

  lemma PieceHeaded(k: nat, v: string, rest: string)
    requires k < 6
    ensures var s := ":" + Segment(k, v) + rest;
            PrefixAt(s, 1, k) == Some(k) && ForwardAt(s, 0, k) && s[1 + |Word(k)|..] == v + rest
  {
    var s := ":" + Segment(k, v) + rest;
    SegmentShape(k, v);
    assert s == ":" + Word(k) + v + rest;
    assert s[1..1 + |Word(k)|] == Word(k);
    PrefixFound(s, 1, k, k);
  }

  /** The parts from k on. */
  function From(parts: Parts, k: nat): Parts
    requires k <= 6
  {
    NO_PARTS[..k] + parts[k..]
  }

  /** A settled context is read back from its text. */
  lemma {:induction false} SettledReads(parts: Parts, k: nat)
    requires k <= 6 && Settled(parts)
    ensures ReadRest(Rest(parts, k), k) == From(parts, k)
    decreases 6 - k
  {
    if k < 6 {
      var rest := Rest(parts, k + 1);
      SettledReads(parts, k + 1);
      RestHeaded(parts, k + 1);
      FromNext(parts, k);
      RestNext(parts, k);
      if parts[k].Some? {
        ReadFirst(parts[k].value, rest, k);
      } else {
        ReadLower(rest, k);
      }
    }
  }

  lemma FromNext(parts: Parts, k: nat)
    requires k < 6
    ensures From(parts, k) == From(parts, k + 1)[k := parts[k]]
    ensures parts[k].None? ==> From(parts, k) == From(parts, k + 1)
  {
  }

  /** Nothing is read for a part the text does not start with. */
  lemma ReadLower(s: string, k: nat)
    requires k < 6 && Headed(s, k + 1)
    ensures ReadRest(s, k) == ReadRest(s, k + 1)
  {
    if s != "" {
      var j := ForwardHas(s, 0, k + 1);
      PrefixFound(s, 1, k, j);
      assert HeadOf(s, k) == HeadOf(s, k + 1);
    }
  }

  lemma ReadFirst(v: string, rest: string, k: nat)
    requires k < 6 && SettledValue(v, k) && Headed(rest, k + 1)
    ensures ReadRest(":" + Segment(k, v) + rest, k) == ReadRest(rest, k + 1)[k := Some(v)]
  {
    var s, value := ":" + Segment(k, v) + rest, v + rest;
    PieceHeaded(k, v, rest);
    assert value[|v|..] == rest && value[..|v|] == v;
    FirstForwardIs(v, rest, k + 1);
    assert HeadOf(s, k) == Head(k, v, rest);
  }

  lemma SettledStays(parts: Parts)
    requires Settled(parts)
    ensures Settle(parts) == parts
  {
    SettledReads(parts, 0);
    assert From(parts, 0) == parts;
  }

  lemma SettleSettles(parts: Parts)
    ensures Settled(Settle(parts)) && Rest(Settle(parts), 0) == Rest(parts, 0)
  {
    RestHeaded(parts, 0);
    ReadRestIs(Rest(parts, 0), 0);
  }

  /** Every context shares its id with a settled context, itself if and only if it is settled. */
  lemma SettleIs(parts: Parts)
    ensures Settled(Settle(parts)) && Compose(Settle(parts)) == Compose(parts)
    ensures Settle(parts) == parts <==> Settled(parts)
  {
    SettleSettles(parts);
    SameRest(Settle(parts), parts);
    if Settled(parts) {
      SettledStays(parts);
    }
  }

  lemma SameRest(p: Parts, q: Parts)
    ensures Compose(p) == Compose(q) <==> Rest(p, 0) == Rest(q, 0)
  {
    ComposeIsRest(p);
    ComposeIsRest(q);
    if Rest(p, 0) == Rest(q, 0) && Compose(p).Some? {
      assert (":" + Compose(p).value)[1..] == Compose(p).value && (":" + Compose(q).value)[1..] == Compose(q).value;
    }
  }

  /** Two contexts have the same id exactly when they settle to the same context. */
  lemma SameId(p: Parts, q: Parts)
    ensures Compose(p) == Compose(q) <==> Settle(p) == Settle(q)
  {
    SameRest(p, q);
    SettleSettles(p);
    SettleSettles(q);
  }

  /** So settled contexts with one id are one context; and an unsettled one shares its id with a
      settled context that is not it. */
  lemma IdDetermines(p: Parts)
    ensures Settled(p) <==> forall q :: Settled(q) && Compose(q) == Compose(p) ==> q == p
  {
    SettleIs(p);
    forall q | Settled(p) && Settled(q) && Compose(q) == Compose(p) ensures q == p {
      SameId(p, q);
      SettleIs(q);
    }
  }

  /** Values that can be read back are settled. */
  lemma PlainIsSettled(parts: Parts)
    requires AllPlain(parts)
    ensures Settled(parts)
  {
    forall k | 0 <= k < 6 && parts[k].Some? ensures SettledValue(parts[k].value, k) {
      UnmarkedHasNoForward(parts[k].value, k + 1);
    }
  }

  lemma ForwardIsMark(v: string, i: nat, k: nat)
    requires k <= 6 && ForwardAt(v, i, k)
    ensures MarkAt(v, i)
  {
    var j := ForwardHas(v, i, k);
    PrefixFound(v, i + 1, 0, j);
  }

  lemma UnmarkedHasNoForward(v: string, k: nat)
    requires k <= 6 && !Marked(v)
    ensures NoForward(v, k)
  {
    forall i | 0 <= i < |v| ensures !ForwardAt(v, i, k) {
      if ForwardAt(v, i, k) {
        ForwardIsMark(v, i, k);
      }
    }
  }

  /** An empty value is settled without being readable, and so is the mark of an earlier part. */
  lemma SettledNotPlain()
    ensures Settled(OnlySession("")) && !AllPlain(OnlySession(""))
    ensures Settled(OnlySkill("x:sess-y")) && !AllPlain(OnlySkill("x:sess-y"))
  {
    SessionMark();
    assert SettledValue(OnlySkill("x:sess-y")[2].value, 2) && !Plain(OnlySkill("x:sess-y")[2].value);
    assert SettledValue(OnlySession("")[0].value, 0) && !Plain(OnlySession("")[0].value);
  }

  lemma SessionMark()
    ensures NoForward("x:sess-y", 3) && Marked("x:sess-y")
  {
    var v := "x:sess-y";
    assert v[2..7] == Word(0);
    PrefixFound(v, 2, 0, 0);
    assert MarkAt(v, 1);
    forall i | 0 <= i < |v| ensures !ForwardAt(v, i, 3) {
      if ForwardAt(v, i, 3) {
        var j := ForwardHas(v, i, 3);
        OtherPrefix(v, 2, j, 0);
      }
    }
  }

  function OnlySession(v: string): Parts { [Some(v), None, None, None, None, None] }

  function OnlySkill(v: string): Parts { [None, None, Some(v), None, None, None] }

  // ---------------------------------------------------------------- the text

  /** A part as it stands in an id, behind a colon. */
  function Lead(word: string, part: Option<string>): string {
    if part.Some? then ":" + (word + "-" + part.value) else ""
  }

  /** The text of an id: its parts from the session to the tool, each with its prefix, joined by colons;
      no part gives no id. */
  lemma IdReads(parts: Parts)
    ensures var last := Lead("agent", parts[3]) + (Lead("hook", parts[4]) + Lead("tool", parts[5]));
            var text := Lead("sess", parts[0]) + (Lead("wf", parts[1]) + (Lead("skill", parts[2]) + last));
            text == if Compose(parts).Some? then ":" + Compose(parts).value else ""
  {
    ComposeIsRest(parts);
    RestIsAll(parts);
    PieceIs(parts, 0, "sess");
    PieceIs(parts, 1, "wf");
    PieceIs(parts, 2, "skill");
    PieceIs(parts, 3, "agent");
    PieceIs(parts, 4, "hook");
    PieceIs(parts, 5, "tool");
  }

  lemma PieceIs(parts: Parts, k: nat, word: string)
    requires k < 6 && PREFIXES[k] == word
    ensures Piece(parts, k) == Lead(word, parts[k])
  {
    if parts[k].Some? {
      assert word + "-" + parts[k].value == word + ("-" + parts[k].value);
    }
  }

  lemma RestIsAll(parts: Parts)
    ensures var last := Piece(parts, 3) + (Piece(parts, 4) + Piece(parts, 5));
            Rest(parts, 0) == Piece(parts, 0) + (Piece(parts, 1) + (Piece(parts, 2) + last))
  {
    var p := Pieces(parts);
    LastPieces(p, Concat(p, 3));
    assert Concat(p, 2) == p[2] + Concat(p, 3);
    assert Concat(p, 1) == p[1] + Concat(p, 2);
    assert Concat(p, 0) == p[0] + Concat(p, 1);
  }

  lemma LastPieces(p: seq<string>, r: string)
    requires |p| == 6 && r == Concat(p, 3)
    ensures r == p[3] + (p[4] + p[5])
  {
    assert Concat(p, 6) == "" && Concat(p, 5) == p[5] + "";
    assert p[5] + "" == p[5];
    assert Concat(p, 4) == p[4] + Concat(p, 5);
  }

  // ---------------------------------------------------------------- rows

  /** The parts of a row's correlation, spelled out; a null part is left out. */
  function PartsOf(c: Correlation, text: Json -> string): Parts {
    [Part(c.session, text), Part(c.workflow, text), Part(c.skill, text), Part(c.agent, text), Part(c.hook, text),
     Part(c.tool, text)]
  }

  function Part(j: Json, text: Json -> string): Option<string> {
    if j == Null then None else Some(text(j))
  }

  function ContextOf(f: Fields, text: Json -> string): Parts { PartsOf(ExtractIds(f).correlation, text) }

  /** The correlation id an event is stored with. */
  function IdOf(f: Fields, text: Json -> string): Option<string> { Compose(ContextOf(f, text)) }

  /** What a part of an id says: the first candidate that is not null, spelled out. */
  ghost predicate Tells(part: Option<string>, candidates: seq<Json>, text: Json -> string) {
    exists v :: FirstOf(v, candidates) && part == if v == Null then None else Some(text(v))
  }

  lemma OnlyOne(j: Json)
    ensures FirstOf(j, [j])
  {
    assert [j][0] == j;
  }

  /** What is read back from an id; no id has no parts. */
  function ReadBack(id: Option<string>): Parts { if id.Some? then Decompose(id.value) else NO_PARTS }

  /** The id an event is stored with, read back, gives its session, workflow, skill, agent, hook and tool,
      each looked up in the envelope, the trace and the payload in this order, if and only if what it
      was composed of is plain. */
  lemma IdTells(f: Fields, trace: Fields, payload: Fields, text: Json -> string)
    requires Holds(f, Trace, trace) && Holds(f, Payload, payload)
    ensures var parts := ReadBack(IdOf(f, text));
            AllPlain(ContextOf(f, text)) <==>
            && Tells(parts[0], [Get(f, SessionId), Get(trace, SessionId), Get(payload, SessionId)], text)
            && Tells(parts[1], [Get(trace, WorkflowId), Get(trace, StreamId), Get(payload, WorkflowId)], text)
            && Tells(parts[2], [Get(trace, SkillId), Get(trace, SkillSpecifier)], text)
            && Tells(parts[3], [Get(trace, AgentId), Get(payload, AgentId)], text)
            && Tells(parts[4], [Get(trace, HookId)], text)
            && Tells(parts[5], [Get(trace, ToolId)], text)
  {
    var context, parts, c := ContextOf(f, text), ReadBack(IdOf(f, text)), ExtractIds(f).correlation;
    IdsAre(f, trace, payload);
    OnlyOne(Get(trace, HookId));
    OnlyOne(Get(trace, ToolId));
    ReadBackIs(context);
    TellsThat(parts[0], c.session, [Get(f, SessionId), Get(trace, SessionId), Get(payload, SessionId)], text);
    TellsThat(parts[1], c.workflow, [Get(trace, WorkflowId), Get(trace, StreamId), Get(payload, WorkflowId)], text);
    TellsThat(parts[2], c.skill, [Get(trace, SkillId), Get(trace, SkillSpecifier)], text);
    TellsThat(parts[3], c.agent, [Get(trace, AgentId), Get(payload, AgentId)], text);
    TellsThat(parts[4], c.hook, [Get(trace, HookId)], text);
    TellsThat(parts[5], c.tool, [Get(trace, ToolId)], text);
    SameParts(parts, c, text);
  }

  lemma SameParts(parts: Parts, c: Correlation, text: Json -> string)
    ensures parts == PartsOf(c, text) <==>
            && parts[0] == Part(c.session, text) && parts[1] == Part(c.workflow, text)
            && parts[2] == Part(c.skill, text) && parts[3] == Part(c.agent, text)
            && parts[4] == Part(c.hook, text) && parts[5] == Part(c.tool, text)
  {
    var q := PartsOf(c, text);
    assert q[0] == Part(c.session, text) && q[1] == Part(c.workflow, text) && q[2] == Part(c.skill, text)
           && q[3] == Part(c.agent, text) && q[4] == Part(c.hook, text) && q[5] == Part(c.tool, text);
    if parts[0] == q[0] && parts[1] == q[1] && parts[2] == q[2] && parts[3] == q[3] && parts[4] == q[4]
       && parts[5] == q[5] {
      assert forall k :: 0 <= k < 6 ==> parts[k] == q[k];
    }
  }

  lemma ReadBackIs(parts: Parts)
    ensures ReadBack(Compose(parts)) == parts <==> AllPlain(parts)
  {
    if Compose(parts).Some? {
      RoundTrip(parts);
    } else {
      ComposeIsRest(parts);
      NothingComposed(parts);
    }
  }

  /** A part tells the first candidate's value and no other. */
  lemma TellsThat(part: Option<string>, j: Json, candidates: seq<Json>, text: Json -> string)
    requires FirstOf(j, candidates)
    ensures Tells(part, candidates, text) <==> part == Part(j, text)
  {
    if Tells(part, candidates, text) {
      var v :| FirstOf(v, candidates) && part == if v == Null then None else Some(text(v));
      FirstUnique(v, j, candidates);
    }
  }

  lemma NothingComposed(parts: Parts)
    requires Rest(parts, 0) == ""
    ensures parts == NO_PARTS
  {
    if k :| 0 <= k < 6 && parts[k].Some? {
      RestHolds(parts, 0, k);
    }
  }

  lemma {:induction false} RestHolds(parts: Parts, j: nat, k: nat)
    requires j <= k < 6 && parts[k].Some?
    ensures Rest(parts, j) != ""
    decreases k - j
  {
    RestNext(parts, j);
    if j < k {
      RestHolds(parts, j + 1, k);
    }
  }

  /** Events whose contexts are settled are stored with the same correlation id, or both with none,
      exactly when they come from the same session, workflow, skill, agent, hook and tool. */
  lemma SameIdSameContext(f: Fields, g: Fields, text: Json -> string)
    requires Settled(ContextOf(f, text)) && Settled(ContextOf(g, text))
    ensures IdOf(f, text) == IdOf(g, text) <==> ContextOf(f, text) == ContextOf(g, text)
  {
    SameId(ContextOf(f, text), ContextOf(g, text));
    SettleIs(ContextOf(f, text));
    SettleIs(ContextOf(g, text));
  }

  /** Otherwise they need not: a session id with a workflow's mark in it is two parts as well. */
  lemma MarkedSessionsCollide(a: string, b: string)
    ensures Compose([Some(a + ":wf-" + b), None, None, None, None, None])
         == Compose([Some(a), Some(b), None, None, None, None])
  {
    var one: Parts := [Some(a + ":wf-" + b), None, None, None, None, None];
    var two: Parts := [Some(a), Some(b), None, None, None, None];
    OneSegment(one);
    TwoSegments(two);
    var x, y := Segment(0, a), Segment(1, b);
    assert [x, y][1..] == [y] && JoinColon([x, y]) == x + ":" + y;
    assert "sess" + "-" + (a + ":wf-" + b) == ("sess" + "-" + a) + ":" + ("wf" + "-" + b);
    assert JoinColon([Segment(0, a + ":wf-" + b)]) == Segment(0, a + ":wf-" + b);
    assert Compose(one) == Some(x + ":" + y) && Compose(two) == Some(x + ":" + y);
  }

  lemma OneSegment(parts: Parts)
    requires parts[0].Some? && forall k :: 1 <= k < 6 ==> parts[k].None?
    ensures Segments(parts, 6) == [Segment(0, parts[0].value)]
  {
    assert Segments(parts, 1) == [Segment(0, parts[0].value)];
    assert Segments(parts, 2) == Segments(parts, 1) && Segments(parts, 3) == Segments(parts, 2);
    assert Segments(parts, 4) == Segments(parts, 3) && Segments(parts, 5) == Segments(parts, 4);
  }

  lemma TwoSegments(parts: Parts)
    requires parts[0].Some? && parts[1].Some? && forall k :: 2 <= k < 6 ==> parts[k].None?
    ensures Segments(parts, 6) == [Segment(0, parts[0].value), Segment(1, parts[1].value)]
  {
    assert Segments(parts, 1) == [Segment(0, parts[0].value)];
    assert Segments(parts, 2) == Segments(parts, 1) + [Segment(1, parts[1].value)];
    assert Segments(parts, 3) == Segments(parts, 2) && Segments(parts, 4) == Segments(parts, 3);
    assert Segments(parts, 5) == Segments(parts, 4);
  }
}

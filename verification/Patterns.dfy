/** A backtracking matcher for the regular expressions of the findings parser: runs of a character
    class (greedy or lazy), literals compared without case, and a greedy optional group.  A match
    is the first one in the engine's order of preference. */
module Patterns {
  import opened Collections

  // ---------------------------------------------------------------- characters

  /** `\s`, which is also what strip() removes. */
  predicate IsSpace(c: char) {
    || c == ' ' || '\t' <= c <= '\r' || '\U{1C}' <= c <= '\U{1F}' || c == '\U{85}' || c == '\U{A0}'
    || c == '\U{1680}' || '\U{2000}' <= c <= '\U{200A}' || c == '\U{2028}' || c == '\U{2029}'
    || c == '\U{202F}' || c == '\U{205F}' || c == '\U{3000}'
  }

  const EM_DASH: char := '\U{2014}'

  predicate IsDash(c: char) { c == '-' || c == EM_DASH || c == '\U{2013}' }

  function Lower(c: char): char {
    if 'A' <= c <= 'Z' then (c as int + 32) as char else c
  }

  /** `[A-Za-z]` without case also matches four letters outside ASCII. */
  predicate IsLetter(c: char) {
    'a' <= Lower(c) <= 'z' || c == '\U{130}' || c == '\U{131}' || c == '\U{17F}' || c == '\U{212A}'
  }

  /** A literal compared without case; `i` has two more spellings. */
  predicate SameLetter(c: char, literal: char) {
    Lower(c) == Lower(literal) || (Lower(literal) == 'i' && (c == '\U{130}' || c == '\U{131}'))
  }

  /** The blanks, the dashes and the letters there are. */
  lemma CharactersAre(c: char)
    ensures IsSpace(c) <==>
            c in {'\t', '\n', '\U{0B}', '\U{0C}', '\r', '\U{1C}', '\U{1D}', '\U{1E}', '\U{1F}', ' ', '\U{85}', '\U{A0}',
                  '\U{1680}', '\U{2000}', '\U{2001}', '\U{2002}', '\U{2003}', '\U{2004}', '\U{2005}', '\U{2006}',
                  '\U{2007}', '\U{2008}', '\U{2009}', '\U{200A}', '\U{2028}', '\U{2029}', '\U{202F}', '\U{205F}',
                  '\U{3000}'}
    ensures IsDash(c) <==> c in {'-', '\U{2013}', '\U{2014}'}
    ensures IsLetter(c) <==>
            || 'A' <= c <= 'Z' || 'a' <= c <= 'z' || c in {'\U{130}', '\U{131}', '\U{17F}', '\U{212A}'}
  {
  }

  datatype Class = Space | NonSpace | Letter | Dash | Any | NotPipe | Separator | Star | Hash

  predicate In(cls: Class, c: char) {
    match cls
    case Space => IsSpace(c)
    case NonSpace => !IsSpace(c)
    case Letter => IsLetter(c)
    case Dash => IsDash(c)
    case Any => c != '\n'
    case NotPipe => c != '|'
    case Separator => IsSpace(c) || c == '|' || c == ':' || c == '-'
    case Star => c == '-' || c == '*'
    case Hash => c == '#'
  }

  // ---------------------------------------------------------------- patterns

  datatype Tag = NoTag | SeverityTag | FileTag | TitleTag | FixTag

  /** What the named groups captured; a group that took no part is empty. */
  datatype Captures = Captures(severity: string, file: string, title: string, fix: string)

  const NOTHING := Captures("", "", "", "")

  function Capture(c: Captures, tag: Tag, text: string): Captures {
    match tag
    case NoTag => c
    case SeverityTag => c.(severity := text)
    case FileTag => c.(file := text)
    case TitleTag => c.(title := text)
    case FixTag => c.(fix := text)
  }

  /** A pattern carries its own continuation; `Either` is an optional group with both continuations. */
  datatype Pattern =
    | End
    | Literal(c: char, next: Pattern)
    | Run(cls: Class, min: nat, max: Option<nat>, greedy: bool, tag: Tag, next: Pattern)
    | Either(with: Pattern, without: Pattern)

  /** How far a run can reach. */
  function Reach(cls: Class, s: string): (m: nat)
    ensures m <= |s| && (forall i :: 0 <= i < m ==> In(cls, s[i])) && (m < |s| ==> !In(cls, s[m]))
  {
    if s == "" || !In(cls, s[0]) then 0 else 1 + Reach(cls, s[1..])
  }

  function Bounded(m: nat, max: Option<nat>): nat {
    if max.Some? && max.value < m then max.value else m
  }

  /** Match the whole of `s`; the end also matches before one final newline. */
  function Match(p: Pattern, s: string, c: Captures): Option<Captures>
    decreases p, 1, 0
  {
    match p
    case End => if s == "" || s == "\n" then Some(c) else None
    case Literal(ch, next) => if s != "" && SameLetter(s[0], ch) then Match(next, s[1..], c) else None
    case Either(a, b) => var r := Match(a, s, c); if r.Some? then r else Match(b, s, c)
    case Run(cls, min, max, greedy, tag, next) =>
      var m := Bounded(Reach(cls, s), max);
      if m < min then None else if greedy then Down(p, s, c, min, m) else Up(p, s, c, min, m)
  }

  /** A lazy run tries lengths k, k+1, ..., m. */
  function Up(p: Pattern, s: string, c: Captures, k: nat, m: nat): Option<Captures>
    requires p.Run? && k <= m <= |s|
    decreases p, 0, m - k
  {
    var r := Match(p.next, s[k..], Capture(c, p.tag, s[..k]));
    if r.Some? then r else if k == m then None else Up(p, s, c, k + 1, m)
  }

  /** A greedy run tries lengths m, m-1, ..., k. */
  function Down(p: Pattern, s: string, c: Captures, k: nat, m: nat): Option<Captures>
    requires p.Run? && k <= m <= |s|
    decreases p, 0, m - k
  {
    var r := Match(p.next, s[m..], Capture(c, p.tag, s[..m]));
    if r.Some? then r else if k == m then None else Down(p, s, c, k, m - 1)
  }

  // ---------------------------------------------------------------- what a run's search finds

  /** The rest of the pattern matches after a run of length k. */
  predicate Works(p: Pattern, s: string, c: Captures, k: nat)
    requires p.Run? && k <= |s|
  {
    Match(p.next, s[k..], Capture(c, p.tag, s[..k])).Some?
  }

  /** A lazy run settles on the shortest length that works. */
  lemma {:induction false} UpFindsFirst(p: Pattern, s: string, c: Captures, k: nat, m: nat, f: nat)
    requires p.Run? && k <= f <= m <= |s| && Works(p, s, c, f) && forall j :: k <= j < f ==> !Works(p, s, c, j)
    ensures Up(p, s, c, k, m) == Match(p.next, s[f..], Capture(c, p.tag, s[..f]))
    decreases m - k
  {
    if k < f {
      assert !Works(p, s, c, k);
      UpFindsFirst(p, s, c, k + 1, m, f);
    } else {
      assert Works(p, s, c, k);
    }
  }

  lemma {:induction false} UpFindsSome(p: Pattern, s: string, c: Captures, k: nat, m: nat, f: nat) returns (g: nat)
    requires p.Run? && k <= f <= m <= |s| && Works(p, s, c, f)
    ensures k <= g <= f && Works(p, s, c, g) && Up(p, s, c, k, m) == Match(p.next, s[g..], Capture(c, p.tag, s[..g]))
    decreases m - k
  {
    if Works(p, s, c, k) {
      g := k;
    } else {
      g := UpFindsSome(p, s, c, k + 1, m, f);
    }
  }

  lemma {:induction false} DownFindsNone(p: Pattern, s: string, c: Captures, k: nat, m: nat)
    requires p.Run? && k <= m <= |s| && forall j :: k <= j <= m ==> !Works(p, s, c, j)
    ensures Down(p, s, c, k, m).None?
    decreases m - k
  {
    assert !Works(p, s, c, m);
    if k < m {
      DownFindsNone(p, s, c, k, m - 1);
    }
  }

  lemma {:induction false} DownFindsSome(p: Pattern, s: string, c: Captures, k: nat, m: nat, f: nat)
    requires p.Run? && k <= f <= m <= |s| && Works(p, s, c, f)
    ensures Down(p, s, c, k, m).Some?
    decreases m - k
  {
    if !Works(p, s, c, m) {
      DownFindsSome(p, s, c, k, m - 1, f);
    }
  }

  /** A search that succeeds does so at some length that works. */
  lemma {:induction false} UpMeans(p: Pattern, s: string, c: Captures, k: nat, m: nat) returns (f: nat)
    requires p.Run? && k <= m <= |s| && Up(p, s, c, k, m).Some?
    ensures k <= f <= m && Works(p, s, c, f) && Up(p, s, c, k, m) == Match(p.next, s[f..], Capture(c, p.tag, s[..f]))
    decreases m - k
  {
    if Works(p, s, c, k) {
      f := k;
    } else {
      f := UpMeans(p, s, c, k + 1, m);
    }
  }

  lemma {:induction false} DownMeans(p: Pattern, s: string, c: Captures, k: nat, m: nat) returns (f: nat)
    requires p.Run? && k <= m <= |s| && Down(p, s, c, k, m).Some?
    ensures k <= f <= m && Works(p, s, c, f) && Down(p, s, c, k, m) == Match(p.next, s[f..], Capture(c, p.tag, s[..f]))
    decreases m - k
  {
    if Works(p, s, c, m) {
      f := m;
    } else {
      f := DownMeans(p, s, c, k, m - 1);
    }
  }

  /** A run that matches takes some number of characters of its class. */
  lemma RunMeans(p: Pattern, s: string, c: Captures) returns (f: nat)
    requires p.Run? && Match(p, s, c).Some?
    ensures p.min <= f <= Reach(p.cls, s) && Works(p, s, c, f)
    ensures Match(p, s, c) == Match(p.next, s[f..], Capture(c, p.tag, s[..f]))
  {
    var m := Bounded(Reach(p.cls, s), p.max);
    if p.greedy {
      f := DownMeans(p, s, c, p.min, m);
    } else {
      f := UpMeans(p, s, c, p.min, m);
    }
  }

  /** A run some length of which works matches. */
  lemma RunMatches(p: Pattern, s: string, c: Captures, f: nat)
    requires p.Run? && p.max.None? && p.min <= f <= Reach(p.cls, s) && Works(p, s, c, f)
    ensures Match(p, s, c).Some?
  {
    if p.greedy {
      DownFindsSome(p, s, c, p.min, Reach(p.cls, s), f);
    } else {
      var _ := UpFindsSome(p, s, c, p.min, Reach(p.cls, s), f);
    }
  }

  predicate Mentions(p: Pattern, tag: Tag) {
    match p
    case End => false
    case Literal(_, next) => Mentions(next, tag)
    case Either(a, b) => Mentions(a, tag) || Mentions(b, tag)
    case Run(_, _, _, _, t, next) => t == tag || Mentions(next, tag)
  }

  function Captured(c: Captures, tag: Tag): string {
    match tag
    case NoTag => ""
    case SeverityTag => c.severity
    case FileTag => c.file
    case TitleTag => c.title
    case FixTag => c.fix
  }

  /** A pattern without a group leaves what that group captured before. */
  lemma {:induction false} MatchKeeps(p: Pattern, s: string, c: Captures, tag: Tag)
    requires !Mentions(p, tag) && Match(p, s, c).Some?
    ensures Captured(Match(p, s, c).value, tag) == Captured(c, tag)
    decreases p
  {
    match p
    case End =>
    case Literal(_, next) => MatchKeeps(next, s[1..], c, tag);
    case Either(a, b) =>
      if Match(a, s, c).Some? {
        MatchKeeps(a, s, c, tag);
      } else {
        MatchKeeps(b, s, c, tag);
      }
    case Run(_, _, _, _, t, next) =>
      var f := RunMeans(p, s, c);
      MatchKeeps(next, s[f..], Capture(c, t, s[..f]), tag);
  }

  lemma ReachIs(cls: Class, s: string, m: nat)
    requires m <= |s| && (forall i :: 0 <= i < m ==> In(cls, s[i])) && (m < |s| ==> !In(cls, s[m]))
    ensures Reach(cls, s) == m
  {
  }

  lemma LiteralStep(p: Pattern, s: string, c: Captures, rest: string)
    requires p.Literal? && s == [p.c] + rest
    ensures Match(p, s, c) == Match(p.next, rest, c)
  {
    assert s[1..] == rest;
  }

  lemma LiteralMeans(p: Pattern, s: string, c: Captures)
    requires p.Literal? && Match(p, s, c).Some?
    ensures s != "" && SameLetter(s[0], p.c) && Match(p.next, s[1..], c).Some?
  {
  }

  /** A lazy run takes the least that lets the rest match. */
  lemma LazyTakes(p: Pattern, s: string, c: Captures, f: nat)
    requires p.Run? && !p.greedy && p.max.None? && p.min <= f <= Reach(p.cls, s)
    requires Works(p, s, c, f) && forall j :: p.min <= j < f ==> !Works(p, s, c, j)
    ensures Match(p, s, c) == Match(p.next, s[f..], Capture(c, p.tag, s[..f]))
  {
    UpFindsFirst(p, s, c, p.min, Reach(p.cls, s), f);
  }

  lemma EitherMeans(p: Pattern, s: string, c: Captures)
    requires p.Either? && Match(p, s, c).Some?
    ensures Match(p.with, s, c).Some? || Match(p.without, s, c).Some?
  {
  }

  lemma EitherFirst(p: Pattern, s: string, c: Captures)
    requires p.Either? && Match(p.with, s, c).Some?
    ensures Match(p, s, c) == Match(p.with, s, c)
  {
  }

  /** A greedy run that can take nothing goes on with the whole string. */
  lemma GreedyTakesNone(p: Pattern, s: string, c: Captures)
    requires p.Run? && p.greedy && p.max.None? && p.min == 0 && p.tag.NoTag? && (s == "" || !In(p.cls, s[0]))
    ensures Match(p, s, c) == Match(p.next, s, c)
  {
    ReachIs(p.cls, s, 0);
    assert s[0..] == s;
  }

  /** A greedy run that can take exactly m characters and go on does so. */
  lemma GreedyTakesAll(p: Pattern, s: string, c: Captures, m: nat)
    requires p.Run? && p.greedy && p.max.None? && p.min <= m <= |s|
    requires (forall i :: 0 <= i < m ==> In(p.cls, s[i])) && (m < |s| ==> !In(p.cls, s[m]))
    requires Works(p, s, c, m)
    ensures Match(p, s, c) == Match(p.next, s[m..], Capture(c, p.tag, s[..m]))
  {
    ReachIs(p.cls, s, m);
  }

  /** A greedy run followed by a literal its class does not contain takes all it can or fails. */
  lemma GreedyThenLiteral(p: Pattern, s: string, c: Captures)
    requires p.Run? && p.greedy && p.max.None? && p.next.Literal? && p.min <= Reach(p.cls, s)
    requires forall ch :: SameLetter(ch, p.next.c) ==> !In(p.cls, ch)
    ensures var m := Reach(p.cls, s);
            Match(p, s, c) == Match(p.next, s[m..], Capture(c, p.tag, s[..m]))
  {
    var m := Reach(p.cls, s);
    if !Works(p, s, c, m) {
      forall j | p.min <= j <= m ensures !Works(p, s, c, j) {
        if j < m {
          assert s[j..][0] == s[j] && In(p.cls, s[j]);
        }
      }
      DownFindsNone(p, s, c, p.min, m);
    }
  }
}

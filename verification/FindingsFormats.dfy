/** What the parser makes of a line of each other format: bold, table row, heading, list item. */
module FindingsFormats {
  import opened Collections
  import opened Patterns
  import opened Findings
  import opened FindingsRoundTrip

  // ---------------------------------------------------------------- severities and files

  /** The spellings of a severity. */
  function Spellings(v: Severity): set<string> {
    match v
    case Critical => {"critical", "crit"}
    case High => {"high"}
    case Medium => {"medium", "med", "moderate"}
    case Low => {"low", "info", "informational"}
  }

  lemma SeverityIs(raw: string, v: Severity)
    ensures NormaliseSeverity(raw) == Some(v) <==> LowerAll(Strip(raw)) in Spellings(v)
  {
  }

  /** A spelling in any case, as it stands. */
  predicate Spelled(w: string, v: Severity) {
    w != "" && (forall i :: 0 <= i < |w| ==> IsLetter(w[i])) && LowerAll(w) in Spellings(v)
  }

  predicate HasAny(s: string, chars: string) {
    exists i :: 0 <= i < |s| && s[i] in chars
  }

  /** Only a dot, a slash, a backslash or a colon makes a file; no severity has one. */
  lemma LooksLikeFileIs(token: string)
    ensures LooksLikeFile(token) <==> HasAny(token, "./\\:")
  {
    StripKeepsPath(token);
    var t := Strip(token);
    if i :| 0 <= i < |t| && t[i] in "./\\:" {
      assert LowerAll(t)[i] == t[i];
      NoAliasHas(LowerAll(t), i);
    }
  }

  lemma NoAliasHas(s: string, i: nat)
    requires i < |s| && s[i] in "./\\:"
    ensures Alias(s).None?
  {
  }

  lemma StripKeepsPath(s: string)
    ensures HasAny(Strip(s), "./\\:") <==> HasAny(s, "./\\:")
  {
    LeftKeepsPath(s);
    RightKeepsPath(StripLeft(s));
  }

  lemma {:induction false} LeftKeepsPath(s: string)
    ensures HasAny(StripLeft(s), "./\\:") <==> HasAny(s, "./\\:")
  {
    if s != "" && IsSpace(s[0]) {
      LeftKeepsPath(s[1..]);
      assert s == [s[0]] + s[1..];
    }
  }

  lemma {:induction false} RightKeepsPath(s: string)
    ensures HasAny(StripRight(s), "./\\:") <==> HasAny(s, "./\\:")
  {
    if s != "" && IsSpace(s[|s| - 1]) {
      RightKeepsPath(s[..|s| - 1]);
      assert s == s[..|s| - 1] + [s[|s| - 1]];
    }
  }

  /** The file a finding shows. */
  function Shown(file: string): string { if HasAny(file, "./\\:") then file else "unknown" }

  lemma SpelledReads(w: string, v: Severity)
    requires Spelled(w, v)
    ensures NormaliseSeverity(w) == Some(v) && NormaliseSeverity(" " + w + " ") == Some(v) && Trimmed(w)
  {
    StripTrimmed(w);
    PaddedStrip(w);
  }

  /** What the groups make a finding of. */
  lemma FoundIs(severity: string, v: Severity, file: string, title: string, fix: string)
    requires NormaliseSeverity(severity) == Some(v) && Trimmed(title)
    requires (file == "" || Trimmed(file)) && (fix == "" || Trimmed(fix))
    ensures ToFinding(Captures(severity, file, title, fix)) == Some(Finding(v, Shown(file), title, fix))
  {
    StripTrimmed(title);
    if file != "" {
      StripTrimmed(file);
    }
    if fix != "" {
      StripTrimmed(fix);
    }
    LooksLikeFileIs(file);
  }

  // ---------------------------------------------------------------- the engine

  /** A greedy run takes all it can, if less would not do. */
  lemma GreedyAllOrNone(p: Pattern, s: string, c: Captures, m: nat)
    requires p.Run? && p.greedy && p.max.None? && p.min <= m <= |s|
    requires (forall i :: 0 <= i < m ==> In(p.cls, s[i])) && (m < |s| ==> !In(p.cls, s[m]))
    requires forall j :: p.min <= j < m ==> !Works(p, s, c, j)
    ensures Match(p, s, c) == Match(p.next, s[m..], Capture(c, p.tag, s[..m]))
  {
    ReachIs(p.cls, s, m);
    if !Works(p, s, c, m) {
      DownFindsNone(p, s, c, p.min, m);
    }
  }

  /** The pattern matches no string that starts with the character. */
  predicate Refuses(p: Pattern, ch: char) {
    CannotStart(p, ch) || (!IsSpace(ch) && BlanksFirst(p) && CannotStart(p.next, ch))
  }

  lemma RefusedNone(p: Pattern, s: string, c: Captures)
    requires s != "" && Refuses(p, s[0])
    ensures Match(p, s, c).None?
  {
    if CannotStart(p, s[0]) {
      CannotMatch(p, s, c);
    } else {
      GreedyTakesNone(p, s, c);
      CannotMatch(p.next, s, c);
    }
  }

  lemma CannotMatch(p: Pattern, s: string, c: Captures)
    requires s != "" && CannotStart(p, s[0])
    ensures Match(p, s, c).None?
  {
    if p.Run? {
      ReachIs(p.cls, s, 0);
    }
  }

  predicate StartsDark(s: string) { s != "" && !IsSpace(s[0]) }

  lemma OneSpace(next: Pattern, t: string, c: Captures)
    requires StartsDark(t) && (Match(next, t, c).Some? || Match(next, " " + t, c).None?)
    ensures Match(Spaces(next), " " + t, c) == Match(next, t, c)
  {
    var s := " " + t;
    assert s[1..] == t && s[0..] == s;
    if Match(next, t, c).Some? {
      GreedyTakesAll(Spaces(next), s, c, 1);
    } else {
      assert !Works(Spaces(next), s, c, 0);
      GreedyAllOrNone(Spaces(next), s, c, 1);
    }
  }

  lemma NeedsSpace(next: Pattern, t: string, c: Captures)
    requires StartsDark(t)
    ensures Match(SomeSpaces(next), " " + t, c) == Match(next, t, c)
  {
    assert (" " + t)[1..] == t;
    GreedyAllOrNone(SomeSpaces(next), " " + t, c, 1);
  }

  lemma TwoStars(next: Pattern, t: string, c: Captures)
    ensures Match(Stars(next), "**" + t, c) == Match(next, t, c)
  {
    assert "**" + t == ['*'] + ("*" + t);
    LiteralStep(Stars(next), "**" + t, c, "*" + t);
    LiteralStep(Literal('*', next), "*" + t, c, t);
  }

  /** A severity in front of what does not start with a letter. */
  lemma WordThen(next: Pattern, w: string, t: string, c: Captures)
    requires w != "" && (forall i :: 0 <= i < |w| ==> IsLetter(w[i])) && t != "" && !IsLetter(t[0])
    requires forall ch :: IsLetter(ch) ==> Refuses(next, ch)
    ensures Match(SeverityWord(next), w + t, c) == Match(next, t, c.(severity := w))
  {
    var p, s := SeverityWord(next), w + t;
    assert s[..|w|] == w && s[|w|..] == t && s[|w|] == t[0];
    forall j | 1 <= j < |w| ensures !Works(p, s, c, j) {
      assert s[j..][0] == w[j];
      RefusedNone(next, s[j..], Capture(c, SeverityTag, s[..j]));
    }
    GreedyAllOrNone(p, s, c, |w|);
  }

  lemma {:induction false} FirstFound(patterns: seq<Pattern>, line: string, k: nat, c: Captures)
    requires k < |patterns| && forall i :: 0 <= i < k ==> Match(patterns[i], line, NOTHING).None?
    requires Match(patterns[k], line, NOTHING) == Some(c) && ToFinding(c).Some?
    ensures FirstFinding(patterns, line) == ToFinding(c)
  {
    if k > 0 {
      FirstFound(patterns[1..], line, k - 1, c);
    }
  }

  lemma Found(line: string, k: nat, c: Captures)
    requires Match(TABLE_RULE, line, NOTHING).None? && k < |PATTERNS|
    requires forall i :: 0 <= i < k ==> Match(PATTERNS[i], line, NOTHING).None?
    requires Match(PATTERNS[k], line, NOTHING) == Some(c) && ToFinding(c).Some?
    ensures ParseLine(line) == ToFinding(c)
  {
    FirstFound(PATTERNS, line, k, c);
  }

  /** The same for the second and the third of some patterns. */
  lemma SecondFound(patterns: seq<Pattern>, line: string, c: Captures)
    requires |patterns| > 1 && Match(patterns[0], line, NOTHING).None?
    requires Match(patterns[1], line, NOTHING) == Some(c) && ToFinding(c).Some?
    ensures FirstFinding(patterns, line) == ToFinding(c)
  {
    FirstFound(patterns, line, 1, c);
  }

  lemma ThirdFound(patterns: seq<Pattern>, line: string, c: Captures)
    requires |patterns| > 2 && Match(patterns[0], line, NOTHING).None? && Match(patterns[1], line, NOTHING).None?
    requires Match(patterns[2], line, NOTHING) == Some(c) && ToFinding(c).Some?
    ensures FirstFinding(patterns, line) == ToFinding(c)
  {
    forall i | 0 <= i < 2 ensures Match(patterns[i], line, NOTHING).None? {
      assert i == 0 || i == 1;
    }
    FirstFound(patterns, line, 2, c);
  }

  lemma {:induction false} NoneFound(patterns: seq<Pattern>, line: string)
    requires forall i :: 0 <= i < |patterns| ==> Match(patterns[i], line, NOTHING).None?
    ensures FirstFinding(patterns, line).None?
  {
    if patterns != [] {
      NoneFound(patterns[1..], line);
    }
  }

  /** A title at the end of a line. */
  lemma LazyTitle(s: string, c: Captures)
    requires s != "" && !IsSpace(s[|s| - 1]) && NoNewline(s)
    ensures Match(LAZY_TITLE, s, c) == Some(c.(title := s))
  {
    ReachIs(Any, s, |s|);
    forall j | 1 <= j < |s| ensures !Works(LAZY_TITLE, s, c, j) {
      NotBlank(s, j);
      TailMatch(s[j..], Capture(c, TitleTag, s[..j]));
    }
    assert s[|s|..] == "" && s[..|s|] == s;
    TailMatch("", c.(title := s));
    LazyTakes(LAZY_TITLE, s, c, |s|);
  }

  lemma NotBlank(s: string, j: nat)
    requires j < |s| && !IsSpace(s[|s| - 1])
    ensures !AllSpace(s[j..])
  {
    assert s[j..][|s| - 1 - j] == s[|s| - 1];
  }

  // ---------------------------------------------------------------- bold lines

  /** **High**: text */
  function BoldLine(w: string, text: string): string { "**" + (w + ("**" + (":" + (" " + text)))) }

  lemma BoldMatches(w: string, text: string)
    requires w != "" && (forall i :: 0 <= i < |w| ==> IsLetter(w[i])) && StartsDark(text)
    requires Match(BOLD_TITLE, text, NOTHING.(severity := w)).Some?
    ensures Match(BOLD, BoldLine(w, text), NOTHING) == Match(BOLD_TITLE, text, NOTHING.(severity := w))
  {
    var c := NOTHING.(severity := w);
    var t3 := " " + text;
    var t2 := ":" + t3;
    var t1 := "**" + t2;
    var p3 := Literal(':', Spaces(BOLD_TITLE));
    var p2 := Stars(Spaces(p3));
    OneSpace(BOLD_TITLE, text, c);
    assert t2 == [':'] + t3;
    LiteralStep(p3, t2, c, t3);
    GreedyTakesNone(Spaces(p3), t2, c);
    TwoStars(Spaces(p3), t2, c);
    WordThen(p2, w, t1, NOTHING);
    TwoStars(SeverityWord(p2), w + t1, NOTHING);
    GreedyTakesNone(BOLD, BoldLine(w, text), NOTHING);
  }

  /** From a to the end: blanks, "in" in any case, blanks, and one word from q on; a is where the blanks
      begin. */
  predicate InFile(s: string, a: nat, m: nat, q: nat) {
    && 1 <= a < m && m + 2 < q < |s| && !IsSpace(s[a - 1]) && AllSpace(s[a..m])
    && SameLetter(s[m], 'i') && SameLetter(s[m + 1], 'n') && AllSpace(s[m + 2..q]) && OneWord(s[q..])
  }

  /** The same at the start of a string. */
  predicate InAt(s: string, m: nat, q: nat) {
    && 1 <= m && m + 2 < q < |s| && AllSpace(s[..m])
    && SameLetter(s[m], 'i') && SameLetter(s[m + 1], 'n') && AllSpace(s[m + 2..q]) && OneWord(s[q..])
  }

  const FILE_WORD: Pattern := Run(NonSpace, 1, None, false, FileTag, TAIL)

  lemma FileWord(t: string, c: Captures)
    requires StartsDark(t) && !IsSpace(t[|t| - 1])
    ensures Match(FILE_WORD, t, c) == if OneWord(t) then Some(c.(file := t)) else None
  {
    forall j | 1 <= j < |t| ensures !Works(FILE_WORD, t, c, j) {
      NotBlank(t, j);
      TailMatch(t[j..], Capture(c, FileTag, t[..j]));
    }
    if OneWord(t) {
      ReachIs(NonSpace, t, |t|);
      assert t[|t|..] == "" && t[..|t|] == t;
      TailMatch("", c.(file := t));
      LazyTakes(FILE_WORD, t, c, |t|);
    } else if Match(FILE_WORD, t, c).Some? {
      var f := RunMeans(FILE_WORD, t, c);
    }
  }

  lemma BlankThenWord(u: string, c: Captures)
    requires u != "" ==> !IsSpace(u[|u| - 1])
    ensures var n := Reach(Space, u);
            Match(SomeSpaces(FILE_WORD), u, c) ==
            if 1 <= n < |u| && OneWord(u[n..]) then Some(c.(file := u[n..])) else None
  {
    var n := Reach(Space, u);
    if n >= 1 {
      forall j | 1 <= j < n ensures !Works(SomeSpaces(FILE_WORD), u, c, j) {
        assert u[j..][0] == u[j];
        CannotMatch(FILE_WORD, u[j..], c);
      }
      GreedyAllOrNone(SomeSpaces(FILE_WORD), u, c, n);
      FileWord(u[n..], c);
    }
  }

  lemma TwoLetters(next: Pattern, t: string, c: Captures)
    ensures Match(Literal('i', Literal('n', next)), t, c) ==
            if |t| >= 2 && SameLetter(t[0], 'i') && SameLetter(t[1], 'n') then Match(next, t[2..], c) else None
  {
    if |t| >= 2 {
      assert t[1..][0] == t[1] && t[1..][1..] == t[2..];
    }
  }

  /** Blanks in front of the two letters. */
  lemma BlanksThenLetters(p: Pattern, next: Pattern, s: string, c: Captures)
    requires p == SomeSpaces(Literal('i', Literal('n', next)))
    ensures var m := Reach(Space, s);
            Match(p, s, c) ==
            if 1 <= m && m + 1 < |s| && SameLetter(s[m], 'i') && SameLetter(s[m + 1], 'n')
            then Match(next, s[m + 2..], c) else None
  {
    var m := Reach(Space, s);
    if m >= 1 {
      GreedyThenLiteral(p, s, c);
      TwoLetters(next, s[m..], c);
      assert m + 1 < |s| ==> s[m..][0] == s[m] && s[m..][1] == s[m + 1] && s[m..][2..] == s[m + 2..];
    }
  }

  /** The blanks, the two letters and what follows them. */
  lemma InLetters(s: string, c: Captures)
    ensures var m := Reach(Space, s);
            Match(IN_FILE, s, c) ==
            if 1 <= m && m + 1 < |s| && SameLetter(s[m], 'i') && SameLetter(s[m + 1], 'n')
            then Match(SomeSpaces(FILE_WORD), s[m + 2..], c) else None
  {
    BlanksThenLetters(IN_FILE, SomeSpaces(FILE_WORD), s, c);
  }

  lemma InFileIs(s: string, c: Captures, m: nat, u: string, n: nat)
    requires s != "" && !IsSpace(s[|s| - 1]) && 1 <= m == Reach(Space, s) && m + 1 < |s|
    requires SameLetter(s[m], 'i') && SameLetter(s[m + 1], 'n') && u == s[m + 2..] && n == Reach(Space, u)
    ensures Match(IN_FILE, s, c) == if 1 <= n < |u| && OneWord(u[n..]) then Some(c.(file := u[n..])) else None
  {
    assert u != "" ==> u[|u| - 1] == s[|s| - 1];
    BlankThenWord(u, c);
    InLetters(s, c);
  }

  lemma InFileReads(s: string, c: Captures, m: nat, q: nat)
    requires s != "" && !IsSpace(s[|s| - 1]) && InAt(s, m, q)
    ensures Match(IN_FILE, s, c) == Some(c.(file := s[q..]))
  {
    InAtIs(s, m, q, Reach(Space, s));
    InFileIs(s, c, m, s[m + 2..], q - m - 2);
    assert s[m + 2..][q - m - 2..] == s[q..];
  }

  /** The blanks, the letters and the word are there. */
  predicate ReadsAsFile(s: string) {
    var m := Reach(Space, s);
    && 1 <= m && m + 1 < |s| && SameLetter(s[m], 'i') && SameLetter(s[m + 1], 'n')
    && var n := Reach(Space, s[m + 2..]); 1 <= n < |s| - m - 2 && OneWord(s[m + 2..][n..])
  }

  lemma InFileNeeds(s: string, c: Captures)
    requires s != "" && !IsSpace(s[|s| - 1]) && Match(IN_FILE, s, c).Some?
    ensures ReadsAsFile(s)
  {
    InLetters(s, c);
    var m := Reach(Space, s);
    InFileIs(s, c, m, s[m + 2..], Reach(Space, s[m + 2..]));
  }

  lemma ReadsAt(s: string) returns (m: nat, q: nat)
    requires ReadsAsFile(s)
    ensures InAt(s, m, q)
  {
    m := Reach(Space, s);
    var n := Reach(Space, s[m + 2..]);
    InAtFrom(s, m, s[m + 2..], n);
    q := m + 2 + n;
  }

  lemma InAtFrom(s: string, m: nat, u: string, n: nat)
    requires 1 <= m && m + 1 < |s| && SameLetter(s[m], 'i') && SameLetter(s[m + 1], 'n') && u == s[m + 2..]
    requires (forall i :: 0 <= i < m ==> IsSpace(s[i])) && 1 <= n < |u| && forall i :: 0 <= i < n ==> IsSpace(u[i])
    requires OneWord(u[n..])
    ensures InAt(s, m, m + 2 + n)
  {
    assert u[n..] == s[m + 2 + n..] && u[..n] == s[m + 2..m + 2 + n];
  }

  lemma InAtIs(s: string, m: nat, q: nat, r: nat)
    requires InAt(s, m, q) && r == Reach(Space, s)
    ensures m == r && m + 2 + Reach(Space, s[m + 2..]) == q
  {
    forall i | 0 <= i < m ensures IsSpace(s[i]) {
      assert s[..m][i] == s[i];
    }
    ReachIs(Space, s, m);
    var u, n := s[m + 2..], q - m - 2;
    forall i | 0 <= i < n ensures IsSpace(u[i]) {
      assert s[m + 2..q][i] == u[i];
    }
    assert s[q..][0] == u[n];
    ReachIs(Space, u, n);
  }

  lemma AnywhereInFile(s: string, k: nat, m: nat, q: nat) returns (a: nat)
    requires Trimmed(s) && 1 <= k < |s| && InAt(s[k..], m, q)
    ensures InFile(s, a, k + m, k + q)
  {
    a := k;
    assert s[k..][..m] == s[k..k + m] && s[k..][m + 2..q] == s[k + m + 2..k + q] && s[k..][q..] == s[k + q..];
    while IsSpace(s[a - 1])
      invariant 1 <= a <= k && AllSpace(s[a..k + m])
      decreases a
    {
      a := a - 1;
      assert s[a..k + m] == [s[a]] + s[a + 1..k + m];
    }
  }

  lemma InAtPoints(s: string, k: nat, m: nat, q: nat)
    requires k <= |s| && InAt(s[k..], m, q)
    ensures k + q < |s| && forall i :: k <= i < |s| ==> (IsSpace(s[i]) <==> i < k + m || k + m + 2 <= i < k + q)
  {
    var t := s[k..];
    forall i | k <= i < |s| ensures IsSpace(s[i]) <==> i < k + m || k + m + 2 <= i < k + q {
      assert t[i - k] == s[i];
      assert i < k + m ==> t[..m][i - k] == s[i];
      assert k + m + 2 <= i < k + q ==> t[m + 2..q][i - k - m - 2] == s[i];
      assert k + q <= i ==> t[q..][i - k - q] == s[i];
    }
  }

  /** No earlier place can be read as a file. */
  lemma OnlyFromBlanks(s: string, a: nat, m: nat, q: nat, k: nat)
    requires InFile(s, a, m, q) && 1 <= k < a
    ensures forall m': nat, q': nat :: !InAt(s[k..], m', q')
  {
    InFileThere(s, a, m, q);
    InAtPoints(s, a, m - a, q - a);
    assert !IsSpace(s[a - 1]) && IsSpace(s[a]) && !IsSpace(s[m]) && IsSpace(s[q - 1]);
    forall m': nat, q': nat ensures !InAt(s[k..], m', q') {
      if InAt(s[k..], m', q') {
        InAtPoints(s, k, m', q');
      }
    }
  }

  lemma InFileThere(s: string, a: nat, m: nat, q: nat)
    requires InFile(s, a, m, q)
    ensures InAt(s[a..], m - a, q - a) && s[a..][q - a..] == s[q..]
  {
    var t := s[a..];
    assert t[..m - a] == s[a..m] && t[m - a + 2..q - a] == s[m + 2..q] && t[q - a..] == s[q..];
  }

  ghost predicate EndsInFile(s: string) { exists a: nat, m: nat, q: nat :: InFile(s, a, m, q) }

  lemma BoldCutThere(s: string, c: Captures, a: nat, m: nat, q: nat)
    requires Trimmed(s) && InFile(s, a, m, q)
    ensures Match(Either(IN_FILE, TAIL), s[a..], c.(title := s[..a])) == Some(c.(title := s[..a], file := s[q..]))
  {
    InFileThere(s, a, m, q);
    assert s[a..][|s| - 1 - a] == s[|s| - 1];
    InFileReads(s[a..], c.(title := s[..a]), m - a, q - a);
    EitherFirst(Either(IN_FILE, TAIL), s[a..], c.(title := s[..a]));
  }

  lemma NoneBefore(s: string, c: Captures, a: nat, m: nat, q: nat, k: nat)
    requires Trimmed(s) && InFile(s, a, m, q) && 1 <= k < a
    ensures Match(Either(IN_FILE, TAIL), s[k..], c).None?
  {
    OnlyFromBlanks(s, a, m, q, k);
    NotThere(s, k, c);
  }

  lemma LazyTitleStops(p: Pattern, s: string, c: Captures, a: nat, r: Option<Captures>)
    requires p.Run? && p.cls.Any? && p.min == 1 && p.max.None? && !p.greedy && p.tag.TitleTag?
    requires NoNewline(s) && 1 <= a <= |s| && Match(p.next, s[a..], c.(title := s[..a])) == r && r.Some?
    requires forall k :: 1 <= k < a ==> Match(p.next, s[k..], c.(title := s[..k])).None?
    ensures Match(p, s, c) == r
  {
    ReachIs(Any, s, |s|);
    LazyTakes(p, s, c, a);
  }

  /** The lazy title of a bold line stops at the blanks before "in" and a last word. */
  lemma BoldTitleCut(s: string, c: Captures, a: nat, m: nat, q: nat)
    requires Trimmed(s) && NoNewline(s) && InFile(s, a, m, q)
    ensures Match(BOLD_TITLE, s, c) == Some(c.(title := s[..a], file := s[q..]))
  {
    BoldCutThere(s, c, a, m, q);
    forall k | 1 <= k < a ensures Match(Either(IN_FILE, TAIL), s[k..], c.(title := s[..k])).None? {
      NoneBefore(s, c.(title := s[..k]), a, m, q, k);
    }
    LazyTitleStops(BOLD_TITLE, s, c, a, Some(c.(title := s[..a], file := s[q..])));
  }

  lemma NotThere(s: string, k: nat, c: Captures)
    requires k < |s| && !IsSpace(s[|s| - 1]) && forall m, q :: !InAt(s[k..], m, q)
    ensures Match(Either(IN_FILE, TAIL), s[k..], c).None?
  {
    assert s[k..][|s| - 1 - k] == s[|s| - 1];
    if Match(IN_FILE, s[k..], c).Some? {
      InFileNeeds(s[k..], c);
      var m, q := ReadsAt(s[k..]);
    }
    NotBlank(s, k);
    TailMatch(s[k..], c);
  }

  lemma BoldTitleWhole(s: string, c: Captures)
    requires Trimmed(s) && NoNewline(s) && !EndsInFile(s)
    ensures Match(BOLD_TITLE, s, c) == Some(c.(title := s))
  {
    ReachIs(Any, s, |s|);
    forall k | 1 <= k < |s| ensures !Works(BOLD_TITLE, s, c, k) {
      forall m: nat, q: nat ensures !InAt(s[k..], m, q) {
        if InAt(s[k..], m, q) {
          var a := AnywhereInFile(s, k, m, q);
        }
      }
      NotThere(s, k, Capture(c, TitleTag, s[..k]));
    }
    assert s[|s|..] == "" && s[..|s|] == s;
    NoFileLeft(c.(title := s));
    LazyTakes(BOLD_TITLE, s, c, |s|);
  }

  lemma NoFileLeft(c: Captures)
    ensures Match(Either(IN_FILE, TAIL), "", c) == Some(c)
  {
    TailMatch("", c);
  }

  lemma OnlyBold(line: string, c: Captures)
    requires line != "" && line[0] == '*' && Match(BOLD, line, NOTHING) == Some(c) && ToFinding(c).Some?
    ensures ParseLine(line) == ToFinding(c)
  {
    StarStarts(line);
    SecondFound(PATTERNS, line, c);
  }

  lemma StarStarts(line: string)
    requires line != "" && line[0] == '*'
    ensures Match(TABLE_RULE, line, NOTHING).None? && Match(PATTERNS[0], line, NOTHING).None? && PATTERNS[1] == BOLD
  {
    RefusedNone(TABLE_RULE, line, NOTHING);
    RefusedNone(PATTERNS[0], line, NOTHING);
  }

  /** A bold line is its title, unless it ends with "in" and a word: then the word is its file. */
  lemma BoldParses(v: Severity, w: string, text: string)
    requires Spelled(w, v) && Trimmed(text) && NoNewline(text)
    ensures var f := ParseLine(BoldLine(w, text));
            && (forall a: nat, m: nat, q: nat ::
                  InFile(text, a, m, q) ==> f == Some(Finding(v, Shown(text[q..]), text[..a], "")))
            && (!EndsInFile(text) ==> f == Some(Finding(v, "unknown", text, "")))
  {
    var c := NOTHING.(severity := w);
    SpelledReads(w, v);
    forall a: nat, m: nat, q: nat | InFile(text, a, m, q)
      ensures ParseLine(BoldLine(w, text)) == Some(Finding(v, Shown(text[q..]), text[..a], ""))
    {
      BoldTitleCut(text, c, a, m, q);
      BoldMatches(w, text);
      FoundIs(w, v, text[q..], text[..a], "");
      OnlyBold(BoldLine(w, text), Captures(w, text[q..], text[..a], ""));
    }
    if !EndsInFile(text) {
      BoldTitleWhole(text, c);
      BoldMatches(w, text);
      FoundIs(w, v, "", text, "");
      OnlyBold(BoldLine(w, text), Captures(w, "", text, ""));
    }
  }

  /** So a title and a one-word file are read back, whatever the title. */
  lemma BoldReadsBack(v: Severity, w: string, title: string, file: string)
    requires Spelled(w, v) && Trimmed(title) && NoNewline(title) && file != "" && OneWord(file)
    ensures ParseLine(BoldLine(w, title + " in " + file)) == Some(Finding(v, Shown(file), title, ""))
  {
    var s, a := title + " in " + file, |title|;
    assert s[a..a + 1] == " " && s[a + 3..a + 4] == " " && s[a + 4..] == file && s[..a] == title;
    assert InFile(s, a, a + 1, a + 4);
    BoldParses(v, w, s);
  }

  // ---------------------------------------------------------------- table rows

  /** A table row with four columns; the last bar may be missing. */
  function FullRow(w: string, file: string, title: string, fix: string, closed: bool): string {
    Row4(" " + w + " ", " " + file + " ", " " + title + " ", " " + fix + " ", closed)
  }

  function Row4(a: string, b: string, c: string, d: string, closed: bool): string {
    "|" + (a + "|" + (b + "|" + (c + "|" + (d + if closed then "|" else ""))))
  }

  lemma LastCellMatches(d: string, closed: bool, c: Captures)
    requires d != "" && NoPipe(d)
    ensures Match(FIX_CELL, d + (if closed then "|" else ""), c) == Some(c.(fix := d))
  {
    var end := if closed then "|" else "";
    var s := d + end;
    assert s[..|d|] == d && s[|d|..] == end;
    TailMatch("", c.(fix := d));
    assert Match(Either(Literal('|', TAIL), TAIL), end, c.(fix := d)) == Some(c.(fix := d));
    GreedyTakesAll(FIX_CELL, s, c, |d|);
  }

  lemma FourCells(a: string, b: string, c: string, d: string, closed: bool)
    requires a != "" && b != "" && c != "" && d != "" && NoPipe(a) && NoPipe(b) && NoPipe(c) && NoPipe(d)
    ensures Match(TABLE_ROW, Row4(a, b, c, d, closed), NOTHING) == Some(Captures(a, b, c, d))
  {
    var s4 := d + if closed then "|" else "";
    var s3 := c + "|" + s4;
    var s2 := b + "|" + s3;
    var s1 := a + "|" + s2;
    GreedyTakesNone(TABLE_ROW, Row4(a, b, c, d, closed), NOTHING);
    LiteralStep(AllCells(FIX_CELL), Row4(a, b, c, d, closed), NOTHING, s1);
    CellStep(AllCells(FIX_CELL).next, a, s2, NOTHING);
    CellStep(LastCells(FIX_CELL), b, s3, NOTHING.(severity := a));
    CellStep(LastCell(FIX_CELL), c, s4, NOTHING.(severity := a, file := b));
    LastCellMatches(d, closed, Captures(a, b, c, ""));
  }

  lemma CellsRead(w: string, b: string, c: string, d: string, closed: bool, f: Finding)
    requires w != "" && IsLetter(w[0]) && NoPipe(w) && b != "" && c != "" && d != ""
    requires NoPipe(b) && NoPipe(c) && NoPipe(d) && ToFinding(Captures(" " + w + " ", b, c, d)) == Some(f)
    ensures ParseLine(Row4(" " + w + " ", b, c, d, closed)) == Some(f)
  {
    NotEarlier(w, b, c, d, closed);
    FourCells(" " + w + " ", b, c, d, closed);
    ThirdFinds(Row4(" " + w + " ", b, c, d, closed), Captures(" " + w + " ", b, c, d));
  }

  /** A full table row is read as it stands, with its fix. */
  lemma FullRowParses(v: Severity, w: string, file: string, title: string, fix: string, closed: bool)
    requires Spelled(w, v) && Trimmed(file) && Trimmed(title) && Trimmed(fix)
    requires NoPipe(w) && NoPipe(file) && NoPipe(title) && NoPipe(fix)
    ensures ParseLine(FullRow(w, file, title, fix, closed)) == Some(Finding(v, Shown(file), title, fix))
  {
    PaddedFound(v, w, file, title, fix);
    CellsRead(w, " " + file + " ", " " + title + " ", " " + fix + " ", closed, Finding(v, Shown(file), title, fix));
  }

  lemma NotEarlier(w: string, b: string, c: string, d: string, closed: bool)
    requires w != "" && IsLetter(w[0])
    ensures var line := Row4(" " + w + " ", b, c, d, closed);
            && Match(TABLE_RULE, line, NOTHING).None?
            && Match(PATTERNS[0], line, NOTHING).None? && Match(PATTERNS[1], line, NOTHING).None?
  {
    var line := Row4(" " + w + " ", b, c, d, closed);
    RowStarts(w, b, c, d, closed);
    RowIsNoRule(line, 2);
    BarFails(line);
  }

  lemma RowStarts(w: string, b: string, c: string, d: string, closed: bool)
    requires w != ""
    ensures var line := Row4(" " + w + " ", b, c, d, closed); |line| > 2 && line[0] == '|' && line[2] == w[0]
  {
    var a, rest := " " + w + " ", b + "|" + (c + "|" + (d + if closed then "|" else ""));
    assert Row4(a, b, c, d, closed) == "|" + (a + "|" + rest);
    assert a[1] == w[0];
  }

  lemma ThirdFinds(line: string, c: Captures)
    requires Match(TABLE_RULE, line, NOTHING).None?
    requires Match(PATTERNS[0], line, NOTHING).None? && Match(PATTERNS[1], line, NOTHING).None?
    requires Match(TABLE_ROW, line, NOTHING) == Some(c) && ToFinding(c).Some?
    ensures ParseLine(line) == ToFinding(c)
  {
    ThirdFound(PATTERNS, line, c);
  }

  lemma PaddedFound(v: Severity, w: string, file: string, title: string, fix: string)
    requires Spelled(w, v) && Trimmed(file) && Trimmed(title) && Trimmed(fix)
    ensures ToFinding(Captures(" " + w + " ", " " + file + " ", " " + title + " ", " " + fix + " "))
         == Some(Finding(v, Shown(file), title, fix))
  {
    SpelledReads(w, v);
    PaddedStrip(file);
    PaddedStrip(title);
    PaddedStrip(fix);
    StripTrimmed(file);
    LooksLikeFileIs(file);
  }

  // ---------------------------------------------------------------- headings

  predicate AllHashes(h: string) {
    forall i :: 0 <= i < |h| ==> h[i] == '#'
  }

  /** ### High: title */
  function HeadingLine(h: string, w: string, title: string): string { h + (" " + (w + (":" + (" " + title)))) }

  const COLON_TITLE: Pattern := Spaces(Literal(':', Spaces(LAZY_TITLE)))

  const AFTER_HASHES: Pattern := SomeSpaces(SeverityWord(COLON_TITLE))

  lemma ColonThenTitle(title: string, c: Captures)
    requires Trimmed(title) && NoNewline(title)
    ensures Match(COLON_TITLE, ":" + (" " + title), c) == Some(c.(title := title))
  {
    var p, t := Literal(':', Spaces(LAZY_TITLE)), ":" + (" " + title);
    LazyTitle(title, c);
    OneSpace(LAZY_TITLE, title, c);
    assert t == [':'] + (" " + title);
    LiteralStep(p, t, c, " " + title);
    GreedyTakesNone(Spaces(p), t, c);
  }

  lemma AfterHashes(w: string, title: string)
    requires w != "" && (forall i :: 0 <= i < |w| ==> IsLetter(w[i])) && Trimmed(title) && NoNewline(title)
    ensures Match(AFTER_HASHES, " " + (w + (":" + (" " + title))), NOTHING) == Some(Captures(w, "", title, ""))
  {
    var t := ":" + (" " + title);
    ColonThenTitle(title, NOTHING.(severity := w));
    WordThenColon(w, t);
    LetterIsLetter(w[0]);
    NeedsSpace(SeverityWord(COLON_TITLE), w + t, NOTHING);
  }

  lemma WordThenColon(w: string, t: string)
    requires w != "" && (forall i :: 0 <= i < |w| ==> IsLetter(w[i])) && t != "" && t[0] == ':'
    ensures Match(SeverityWord(COLON_TITLE), w + t, NOTHING) == Match(COLON_TITLE, t, NOTHING.(severity := w))
  {
    forall ch | IsLetter(ch) ensures Refuses(COLON_TITLE, ch) {
      LetterIsLetter(ch);
    }
    WordThen(COLON_TITLE, w, t, NOTHING);
  }

  lemma HeadingMatches(h: string, w: string, title: string)
    requires h != "" && AllHashes(h) && w != "" && (forall i :: 0 <= i < |w| ==> IsLetter(w[i]))
    requires Trimmed(title) && NoNewline(title)
    ensures Match(HEADING, HeadingLine(h, w, title), NOTHING)
         == if |h| <= 6 then Some(Captures(w, "", title, "")) else None
  {
    var s, t := HeadingLine(h, w, title), " " + (w + (":" + (" " + title)));
    var p := Run(Hash, 1, Some(6), true, NoTag, AFTER_HASHES);
    assert s[|h|] == ' ' && s[|h|..] == t;
    GreedyTakesNone(HEADING, s, NOTHING);
    ReachIs(Hash, s, |h|);
    AfterHashes(w, title);
    if |h| > 6 {
      forall j | 1 <= j <= 6 ensures !Works(p, s, NOTHING, j) {
        assert s[j..][0] == '#';
        CannotMatch(AFTER_HASHES, s[j..], NOTHING);
      }
      DownFindsNone(p, s, NOTHING, 1, 6);
    }
  }

  /** A heading of one to six hashes is read as it stands; one of more is no finding. */
  lemma HeadingParses(v: Severity, h: string, w: string, title: string)
    requires h != "" && AllHashes(h) && Spelled(w, v) && Trimmed(title) && NoNewline(title)
    ensures ParseLine(HeadingLine(h, w, title)) == if |h| <= 6 then Some(Finding(v, "unknown", title, "")) else None
  {
    var line := HeadingLine(h, w, title);
    assert line[0] == '#';
    RefusedNone(TABLE_RULE, line, NOTHING);
    forall i | 0 <= i < |PATTERNS| && i != 4 ensures Match(PATTERNS[i], line, NOTHING).None? {
      RefusedNone(PATTERNS[i], line, NOTHING);
    }
    HeadingMatches(h, w, title);
    if |h| <= 6 {
      SpelledReads(w, v);
      FoundIs(w, v, "", title, "");
      Found(line, 4, Captures(w, "", title, ""));
    } else {
      NoneFound(PATTERNS, line);
    }
  }

  // ---------------------------------------------------------------- list items

  /** - **Medium** — text */
  function ItemLine(bullet: char, w: string, dash: char, text: string): string {
    [bullet] + (" " + ("**" + (w + ("**" + (" " + ([dash] + (" " + text)))))))
  }

  predicate BulletChar(c: char) { c == '-' || c == '*' }

  predicate DashChar(c: char) { c == '-' || c == '\U{2014}' || c == '\U{2013}' }

  lemma DashThen(rest: Pattern, dash: char, text: string, c: Captures)
    requires DashChar(dash) && StartsDark(text) && (Match(rest, text, c).Some? || Match(rest, " " + text, c).None?)
    ensures Match(Spaces(Dashes(Spaces(rest))), " " + ([dash] + (" " + text)), c) == Match(rest, text, c)
  {
    var s := [dash] + (" " + text);
    OneSpace(rest, text, c);
    assert s[1..] == " " + text && s[1] == ' ';
    GreedyAllOrNone(Dashes(Spaces(rest)), s, c, 1);
    var p := Dashes(Spaces(rest));
    assert (" " + s)[0] == ' ';
    CannotMatch(p, " " + s, c);
    OneSpace(p, s, c);
  }

  lemma BulletThen(rest: Pattern, bullet: char, w: string, dash: char, text: string)
    requires BulletChar(bullet) && w != "" && (forall i :: 0 <= i < |w| ==> IsLetter(w[i]))
    requires DashChar(dash) && StartsDark(text)
    requires Match(rest, text, NOTHING.(severity := w)).Some? || Match(rest, " " + text, NOTHING.(severity := w)).None?
    ensures Match(Bullet(rest), ItemLine(bullet, w, dash, text), NOTHING)
         == Match(rest, text, NOTHING.(severity := w))
  {
    var c := NOTHING.(severity := w);
    var t3 := " " + ([dash] + (" " + text));
    var t2 := "**" + t3;
    var t1 := "**" + (w + t2);
    var p3 := Spaces(Dashes(Spaces(rest)));
    var p2 := SeverityWord(Stars(p3));
    var p1 := SomeSpaces(Stars(p2));
    DashThen(rest, dash, text, c);
    TwoStars(p3, t3, c);
    WordThen(Stars(p3), w, t2, NOTHING);
    TwoStars(p2, w + t2, NOTHING);
    NeedsSpace(Stars(p2), t1, NOTHING);
    BulletFirst(p1, bullet, " " + t1);
  }

  lemma BulletFirst(next: Pattern, bullet: char, t: string)
    requires BulletChar(bullet) && t != ""
    ensures Match(Spaces(Run(Star, 1, Some(1), true, NoTag, next)), [bullet] + t, NOTHING) == Match(next, t, NOTHING)
  {
    var s := [bullet] + t;
    var p := Run(Star, 1, Some(1), true, NoTag, next);
    assert s[1..] == t;
    GreedyTakesNone(Spaces(p), s, NOTHING);
    assert Reach(Star, s) >= 1;
  }

  /** The file of a list item: one word up to the first colon after its first character, before a text. */
  predicate FileColon(s: string, p: nat, q: nat) {
    && 1 <= p < q < |s| && s[p] == ':' && OneWord(s[..p]) && (forall i :: 1 <= i < p ==> s[i] != ':')
    && AllSpace(s[p + 1..q]) && !IsSpace(s[q])
  }

  const AT_COLON: Pattern := Literal(':', Spaces(LAZY_TITLE))

  const ITEM_FILE: Pattern := Run(NonSpace, 1, None, false, FileTag, AT_COLON)

  /** The title behind a colon. */
  lemma ColonTitle(s: string, c: Captures)
    requires s != "" && !IsSpace(s[|s| - 1]) && NoNewline(s)
    ensures var n := Reach(Space, s); n < |s| && Match(Spaces(LAZY_TITLE), s, c) == Some(c.(title := s[n..]))
  {
    var n := Reach(Space, s);
    assert n < |s|;
    assert s[n..][|s| - 1 - n] == s[|s| - 1];
    LazyTitle(s[n..], c);
    GreedyTakesAll(Spaces(LAZY_TITLE), s, c, n);
  }

  /** The file may end at a colon with something behind it. */
  lemma ColonWorks(s: string, c: Captures, k: nat)
    requires Trimmed(s) && NoNewline(s) && 1 <= k <= |s|
    ensures Works(ITEM_FILE, s, c, k) <==> k + 1 < |s| && s[k] == ':'
  {
    ColonMatches(s, Capture(c, FileTag, s[..k]), k);
  }

  lemma ColonMatches(s: string, c: Captures, k: nat)
    requires Trimmed(s) && NoNewline(s) && k <= |s|
    ensures Match(AT_COLON, s[k..], c).Some? <==> k + 1 < |s| && s[k] == ':'
  {
    if k < |s| && s[k] == ':' {
      var t := s[k + 1..];
      ColonBefore(s[k..], t, c);
      if t == "" {
        NothingBehind(c);
      } else {
        assert t[|t| - 1] == s[|s| - 1];
        ColonTitle(t, c);
      }
    } else {
      NoColon(s[k..], c);
    }
  }

  lemma NoColon(s: string, c: Captures)
    requires s == "" || s[0] != ':'
    ensures Match(AT_COLON, s, c).None?
  {
  }

  lemma NothingBehind(c: Captures)
    ensures Match(Spaces(LAZY_TITLE), "", c).None?
  {
    ReachIs(Any, "", 0);
  }

  lemma FileColonPoints(s: string, p: nat, q: nat)
    requires FileColon(s, p, q)
    ensures p <= Reach(NonSpace, s) && Reach(Space, s[p + 1..]) == q - p - 1
  {
    forall i | 0 <= i < p ensures !IsSpace(s[i]) {
      assert s[..p][i] == s[i];
    }
    var t := s[p + 1..];
    forall i | 0 <= i < q - p - 1 ensures IsSpace(t[i]) {
      assert s[p + 1..q][i] == t[i];
    }
    ReachIs(Space, t, q - p - 1);
  }

  lemma AtColon(s: string, c: Captures, p: nat, q: nat)
    requires Trimmed(s) && NoNewline(s) && FileColon(s, p, q)
    ensures Match(AT_COLON, s[p..], c) == Some(c.(title := s[q..]))
  {
    var t := s[p + 1..];
    FileColonPoints(s, p, q);
    assert t[|t| - 1] == s[|s| - 1] && t[q - p - 1..] == s[q..];
    ColonTitle(t, c);
    ColonBefore(s[p..], t, c);
  }

  lemma ColonBefore(s: string, t: string, c: Captures)
    requires s != "" && s[0] == ':' && t == s[1..]
    ensures Match(AT_COLON, s, c) == Match(Spaces(LAZY_TITLE), t, c)
  {
  }

  lemma ItemFileMatches(s: string, c: Captures, p: nat, q: nat)
    requires Trimmed(s) && NoNewline(s) && FileColon(s, p, q)
    ensures Match(ITEM_FILE, s, c) == Some(c.(file := s[..p], title := s[q..]))
  {
    FileColonPoints(s, p, q);
    forall k | 1 <= k < p ensures !Works(ITEM_FILE, s, c, k) {
      ColonWorks(s, c, k);
    }
    AtColon(s, c.(file := s[..p]), p, q);
    LazyTakes(ITEM_FILE, s, c, p);
  }

  ghost predicate HasFile(s: string) { exists p: nat, q: nat :: FileColon(s, p, q) }

  lemma ItemFileFails(s: string, c: Captures)
    requires Trimmed(s) && NoNewline(s) && !HasFile(s)
    ensures Match(ITEM_FILE, s, c).None? && Match(ITEM_FILE, " " + s, c).None?
  {
    CannotMatch(ITEM_FILE, " " + s, c);
    if Match(ITEM_FILE, s, c).Some? {
      var k := RunMeans(ITEM_FILE, s, c);
      ColonWorks(s, c, k);
      ColonIsFile(s, k);
    }
  }

  lemma {:induction false} FirstColon(s: string, p: nat, k: nat) returns (r: nat)
    requires p <= k < |s| && s[k] == ':'
    ensures p <= r <= k && s[r] == ':' && forall i :: p <= i < r ==> s[i] != ':'
    decreases k - p
  {
    if s[p] == ':' {
      r := p;
    } else {
      r := FirstColon(s, p + 1, k);
    }
  }

  /** A colon in the first word, not in front and not at the end, gives the item a file. */
  lemma ColonIsFile(s: string, k: nat)
    requires Trimmed(s) && 1 <= k < |s| - 1 && s[k] == ':' && k <= Reach(NonSpace, s)
    ensures HasFile(s)
  {
    var p := FirstColon(s, 1, k);
    var t := s[p + 1..];
    assert t[|t| - 1] == s[|s| - 1];
    ColonFile(s, p, Reach(Space, t));
  }

  lemma ColonFile(s: string, p: nat, n: nat)
    requires 1 <= p < |s| - 1 && s[p] == ':' && OneWord(s[..p]) && forall i :: 1 <= i < p ==> s[i] != ':'
    requires n == Reach(Space, s[p + 1..]) < |s| - p - 1
    ensures FileColon(s, p, p + 1 + n)
  {
    var t := s[p + 1..];
    assert s[p + 1..p + 1 + n] == t[..n] && s[p + 1 + n] == t[n];
  }

  lemma ItemStarts(bullet: char, w: string, dash: char, text: string)
    requires BulletChar(bullet)
    ensures var line := ItemLine(bullet, w, dash, text);
            Match(TABLE_RULE, line, NOTHING).None? && forall i :: 0 <= i < 5 ==> Match(PATTERNS[i], line, NOTHING).None?
  {
    var line := ItemLine(bullet, w, dash, text);
    RefusedNone(TABLE_RULE, line, NOTHING);
    forall i | 0 <= i < 5 ensures Match(PATTERNS[i], line, NOTHING).None? {
      if bullet == '*' && i == 1 {
        GreedyTakesNone(BOLD, line, NOTHING);
      } else {
        RefusedNone(PATTERNS[i], line, NOTHING);
      }
    }
  }

  lemma CutMatches(bullet: char, w: string, dash: char, text: string, p: nat, q: nat)
    requires BulletChar(bullet) && w != "" && (forall i :: 0 <= i < |w| ==> IsLetter(w[i])) && DashChar(dash)
    requires Trimmed(text) && NoNewline(text) && FileColon(text, p, q)
    ensures Match(Bullet(ITEM_FILE), ItemLine(bullet, w, dash, text), NOTHING)
         == Some(Captures(w, text[..p], text[q..], ""))
  {
    ItemFileMatches(text, NOTHING.(severity := w), p, q);
    BulletThen(ITEM_FILE, bullet, w, dash, text);
  }

  lemma CutFinding(v: Severity, w: string, text: string, p: nat, q: nat)
    requires Spelled(w, v) && Trimmed(text) && FileColon(text, p, q)
    ensures ToFinding(Captures(w, text[..p], text[q..], "")) == Some(Finding(v, Shown(text[..p]), text[q..], ""))
  {
    SpelledReads(w, v);
    assert text[..p][0] == text[0] && text[q..][|text| - 1 - q] == text[|text| - 1];
    assert text[..p][p - 1] == text[p - 1];
    FoundIs(w, v, text[..p], text[q..], "");
  }

  lemma CutItem(v: Severity, bullet: char, w: string, dash: char, text: string, p: nat, q: nat)
    requires BulletChar(bullet) && Spelled(w, v) && DashChar(dash) && Trimmed(text) && NoNewline(text)
    requires FileColon(text, p, q)
    ensures ParseLine(ItemLine(bullet, w, dash, text)) == Some(Finding(v, Shown(text[..p]), text[q..], ""))
  {
    CutMatches(bullet, w, dash, text, p, q);
    CutFinding(v, w, text, p, q);
    ItemStarts(bullet, w, dash, text);
    SixthFinds(ItemLine(bullet, w, dash, text), Captures(w, text[..p], text[q..], ""));
  }

  lemma SixthFinds(line: string, c: Captures)
    requires Match(TABLE_RULE, line, NOTHING).None?
    requires forall i :: 0 <= i < 5 ==> Match(PATTERNS[i], line, NOTHING).None?
    requires Match(Bullet(ITEM_FILE), line, NOTHING) == Some(c) && ToFinding(c).Some?
    ensures ParseLine(line) == ToFinding(c)
  {
    LastTwo();
    Found(line, 5, c);
  }

  lemma SeventhFinds(line: string, c: Captures)
    requires Match(TABLE_RULE, line, NOTHING).None? && Match(Bullet(ITEM_FILE), line, NOTHING).None?
    requires forall i :: 0 <= i < 5 ==> Match(PATTERNS[i], line, NOTHING).None?
    requires Match(Bullet(LAZY_TITLE), line, NOTHING) == Some(c) && ToFinding(c).Some?
    ensures ParseLine(line) == ToFinding(c)
  {
    LastTwo();
    Found(line, 6, c);
  }

  lemma LastTwo()
    ensures |PATTERNS| == 7 && PATTERNS[5] == Bullet(ITEM_FILE) && PATTERNS[6] == Bullet(LAZY_TITLE)
  {
  }

  lemma PlainMatches(bullet: char, w: string, dash: char, text: string)
    requires BulletChar(bullet) && w != "" && (forall i :: 0 <= i < |w| ==> IsLetter(w[i])) && DashChar(dash)
    requires Trimmed(text) && NoNewline(text) && !HasFile(text)
    ensures var line := ItemLine(bullet, w, dash, text);
            && Match(Bullet(ITEM_FILE), line, NOTHING).None?
            && Match(Bullet(LAZY_TITLE), line, NOTHING) == Some(Captures(w, "", text, ""))
  {
    var c := NOTHING.(severity := w);
    ItemFileFails(text, c);
    BulletThen(ITEM_FILE, bullet, w, dash, text);
    LazyTitle(text, c);
    BulletThen(LAZY_TITLE, bullet, w, dash, text);
  }

  lemma PlainItem(v: Severity, bullet: char, w: string, dash: char, text: string)
    requires BulletChar(bullet) && Spelled(w, v) && DashChar(dash) && Trimmed(text) && NoNewline(text)
    requires !HasFile(text)
    ensures ParseLine(ItemLine(bullet, w, dash, text)) == Some(Finding(v, "unknown", text, ""))
  {
    SpelledReads(w, v);
    FoundIs(w, v, "", text, "");
    PlainMatches(bullet, w, dash, text);
    ItemStarts(bullet, w, dash, text);
    SeventhFinds(ItemLine(bullet, w, dash, text), Captures(w, "", text, ""));
  }

  /** A list item whose first word has a colon after its first character, with more behind it, is cut at
      the first such colon into a file and a title; any other is its title. */
  lemma ItemParses(v: Severity, bullet: char, w: string, dash: char, text: string)
    requires BulletChar(bullet) && Spelled(w, v) && DashChar(dash) && Trimmed(text) && NoNewline(text)
    ensures forall p: nat, q: nat :: FileColon(text, p, q) ==>
                                       ParseLine(ItemLine(bullet, w, dash, text))
                                       == Some(Finding(v, Shown(text[..p]), text[q..], ""))
    ensures !HasFile(text) ==> ParseLine(ItemLine(bullet, w, dash, text)) == Some(Finding(v, "unknown", text, ""))
  {
    forall p: nat, q: nat | FileColon(text, p, q)
      ensures ParseLine(ItemLine(bullet, w, dash, text)) == Some(Finding(v, Shown(text[..p]), text[q..], ""))
    {
      CutItem(v, bullet, w, dash, text, p, q);
    }
    if !HasFile(text) {
      PlainItem(v, bullet, w, dash, text);
    }
  }

  /** A one-word file, a colon and a title are read back if and only if the file has no colon after its
      first character: a line number behind the path goes into the title. */
  lemma ItemReadsBack(v: Severity, bullet: char, w: string, dash: char, file: string, title: string)
    requires BulletChar(bullet) && Spelled(w, v) && DashChar(dash)
    requires file != "" && OneWord(file) && Trimmed(title) && NoNewline(title)
    ensures ParseLine(ItemLine(bullet, w, dash, file + ": " + title)) == Some(Finding(v, Shown(file), title, ""))
       <==> forall i :: 1 <= i < |file| ==> file[i] != ':'
  {
    var s := file + ": " + title;
    assert Trimmed(s) && NoNewline(s);
    if forall i :: 1 <= i < |file| ==> file[i] != ':' {
      FileBeforeColon(file, title);
      CutItem(v, bullet, w, dash, s, |file|, |file| + 2);
    } else {
      var p, q := ColonInFile(file, title);
      CutItem(v, bullet, w, dash, s, p, q);
    }
  }

  lemma FileBeforeColon(file: string, title: string)
    requires file != "" && OneWord(file) && Trimmed(title) && forall i :: 1 <= i < |file| ==> file[i] != ':'
    ensures var s := file + ": " + title; FileColon(s, |file|, |file| + 2) && s[..|file|] == file
                                          && s[|file| + 2..] == title
  {
    var s, f := file + ": " + title, |file|;
    assert s[..f] == file && s[f + 1..f + 2] == " ";
  }

  lemma ColonInFile(file: string, title: string) returns (p: nat, q: nat)
    requires OneWord(file) && Trimmed(title) && exists i :: 1 <= i < |file| && file[i] == ':'
    ensures var s := file + ": " + title; FileColon(s, p, q) && |s[q..]| > |title|
  {
    var s := file + ": " + title;
    var i :| 1 <= i < |file| && file[i] == ':';
    assert s[i] == ':' && i <= Reach(NonSpace, s);
    p := FirstColon(s, 1, i);
    q := p + 1;
    assert s[p + 1] == (file + ":")[p + 1] && s[..p] == file[..p];
  }
}

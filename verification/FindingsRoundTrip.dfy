/** When printing a finding on one line and parsing the line gives the finding back. */
module FindingsRoundTrip {
  import opened Collections
  import opened Patterns
  import opened Findings

  predicate AllSpace(s: string) {
    forall i :: 0 <= i < |s| ==> IsSpace(s[i])
  }

  predicate NoNewline(s: string) {
    forall i :: 0 <= i < |s| ==> s[i] != '\n'
  }

  /** "(fix:" in any case at position p. */
  predicate FixWordAt(s: string, p: nat) {
    && p + 5 <= |s| && s[p] == '(' && SameLetter(s[p + 1], 'f') && SameLetter(s[p + 2], 'i')
    && SameLetter(s[p + 3], 'x') && s[p + 4] == ':'
  }

  // ---------------------------------------------------------------- what can be printed

  predicate OneWord(s: string) {
    forall i :: 0 <= i < |s| ==> !IsSpace(s[i])
  }

  /** The findings the parser returns: a file that looks like a path or is "unknown", a trimmed title, a
      trimmed fix or none. */
  predicate Clean(f: Finding) {
    && (LooksLikeFile(f.file) || f.file == "unknown")
    && Trimmed(f.title) && NoNewline(f.title)
    && (f.fix == "" || (Trimmed(f.fix) && NoNewline(f.fix)))
  }

  predicate Printable(f: Finding) {
    f.file != "" && OneWord(f.file) && Clean(f)
  }

  /** No dash after the first character: the lazy file group stops at the first one it can. */
  predicate FileSafe(file: string) {
    forall i :: 1 <= i < |file| ==> !IsDash(file[i])
  }

  /** The lazy title group stops at the first "(fix:" that the rest of the line lets it read as the
      start of a fix: any, if the line ends with one; otherwise only one closed at the title's end. */
  predicate StartsFix(title: string, fix: string, p: nat) {
    FixWordAt(title, p) && (fix != "" || (p + 6 < |title| && title[|title| - 1] == ')'))
  }

  predicate TitleSafe(title: string, fix: string) {
    forall p :: 1 <= p < |title| ==> !StartsFix(title, fix, p)
  }

  predicate Safe(f: Finding) {
    FileSafe(f.file) && TitleSafe(f.title, f.fix)
  }

  // ---------------------------------------------------------------- the end of the line

  lemma TailMatch(s: string, c: Captures)
    ensures Match(TAIL, s, c) == if AllSpace(s) then Some(c) else None
  {
    var m := Reach(Space, s);
    if AllSpace(s) {
      ReachIs(Space, s, |s|);
      assert s[|s|..] == "";
      assert Works(TAIL, s, c, |s|);
      GreedyTakesAll(TAIL, s, c, |s|);
    } else {
      forall j | 0 <= j <= m ensures !Works(TAIL, s, c, j) {
        var i :| 0 <= i < |s| && !IsSpace(s[i]);
        assert i >= m && s[j..][i - j] == s[i];
      }
      DownFindsNone(TAIL, s, c, 0, m);
    }
  }

  // ---------------------------------------------------------------- the fix group

  lemma FixWordMatch(s: string, c: Captures)
    ensures Match(FIX_WORD, s, c) == if FixWordAt(s, 0) then Match(FIX_BODY, s[5..], c) else None
  {
  }

  lemma FixPartMatch(s: string, c: Captures)
    ensures var m := Reach(Space, s);
            Match(FIX_PART, s, c) == if FixWordAt(s, m) then Match(FIX_BODY, s[m + 5..], c) else None
  {
    var m := Reach(Space, s);
    GreedyThenLiteral(FIX_PART, s, c);
    FixWordMatch(s[m..], c);
    assert FixWordAt(s, m) <==> FixWordAt(s[m..], 0);
    if FixWordAt(s, m) {
      assert s[m..][5..] == s[m + 5..];
    }
  }

  /** The text of a fix ends at a parenthesis that only blanks follow. */
  lemma FixTextShape(s: string, c: Captures) returns (k: nat)
    requires Match(FIX_TEXT, s, c).Some?
    ensures 1 <= k < |s| && s[k] == ')' && AllSpace(s[k + 1..])
  {
    k := RunMeans(FIX_TEXT, s, c);
    var c' := Capture(c, FixTag, s[..k]);
    assert Match(Literal(')', TAIL), s[k..], c').Some?;
    TailMatch(s[k..][1..], c');
    assert s[k..][1..] == s[k + 1..];
  }

  lemma FixBodyShape(s: string, c: Captures) returns (k: nat)
    requires Match(FIX_BODY, s, c).Some?
    ensures 1 <= k < |s| && s[k] == ')' && AllSpace(s[k + 1..])
  {
    var j := RunMeans(FIX_BODY, s, c);
    var i := FixTextShape(s[j..], c);
    k := j + i;
    assert s[j..][i + 1..] == s[k + 1..];
  }

  /** A fix group can end at any closing parenthesis at the end of the line. */
  lemma FixTextWorks(s: string, c: Captures, k: nat)
    requires 1 <= k < |s| && s[k] == ')' && AllSpace(s[k + 1..])
    ensures Works(FIX_TEXT, s, c, k)
  {
    TailMatch(s[k..][1..], Capture(c, FixTag, s[..k]));
    assert s[k..][1..] == s[k + 1..];
  }

  lemma FixBodySome(s: string, c: Captures)
    requires |s| >= 2 && s[|s| - 1] == ')' && NoNewline(s)
    ensures Match(FIX_BODY, s, c).Some?
  {
    ReachIs(Any, s, |s|);
    FixTextWorks(s, c, |s| - 1);
    RunMatches(FIX_TEXT, s, c, |s| - 1);
    assert s[0..] == s;
    assert Works(FIX_BODY, s, c, 0);
    RunMatches(FIX_BODY, s, c, 0);
  }

  /** Reading back a printed fix. */
  lemma FixBodyExact(fix: string, c: Captures)
    requires Trimmed(fix) && NoNewline(fix)
    ensures Match(FIX_BODY, " " + fix + ")", c) == Some(c.(fix := fix))
  {
    var s := fix + ")";
    ReachIs(Any, s, |s|);
    forall j | 1 <= j < |fix| ensures !Works(FIX_TEXT, s, c, j) {
      var rest := s[j..][1..];
      assert rest[|rest| - 1] == ')';
      TailMatch(rest, Capture(c, FixTag, s[..j]));
    }
    assert s[|fix| + 1..] == "";
    FixTextWorks(s, c, |fix|);
    UpFindsFirst(FIX_TEXT, s, c, 1, |s|, |fix|);
    TailMatch(s[|fix|..][1..], c.(fix := fix));
    assert s[..|fix|] == fix && s[|fix|..][1..] == "";
    assert Match(FIX_TEXT, s, c) == Some(c.(fix := fix));
    var t := " " + fix + ")";
    assert t[1..] == s;
    GreedyTakesAll(FIX_BODY, t, c, 1);
  }

  // ---------------------------------------------------------------- the title group

  lemma AfterTitleMatch(s: string, c: Captures)
    ensures var m := Reach(Space, s);
            Match(AFTER_TITLE, s, c) ==
            if FixWordAt(s, m) && Match(FIX_BODY, s[m + 5..], c).Some? then Match(FIX_BODY, s[m + 5..], c)
            else if AllSpace(s) then Some(c) else None
  {
    FixPartMatch(s, c);
    TailMatch(s, c);
  }

  lemma AfterTitleMeans(s: string, c: Captures) returns (m: nat)
    requires Match(AFTER_TITLE, s, c).Some? && !AllSpace(s)
    ensures m == Reach(Space, s) && FixWordAt(s, m) && Match(FIX_BODY, s[m + 5..], c).Some?
  {
    m := Reach(Space, s);
    TailMatch(s, c);
    EitherMeans(AFTER_TITLE, s, c);
    FixPartMatch(s, c);
  }

  lemma AfterTitleReads(s: string, c: Captures)
    requires FixWordAt(s, 0) && Match(FIX_BODY, s[5..], c).Some?
    ensures Match(AFTER_TITLE, s, c).Some?
  {
    ReachIs(Space, s, 0);
    FixPartMatch(s, c);
    EitherFirst(AFTER_TITLE, s, c);
  }

  /** Any text on one line can be a title. */
  lemma TitleSome(s: string, c: Captures)
    requires s != "" && NoNewline(s)
    ensures Match(TITLE_PART, s, c).Some?
  {
    ReachIs(Any, s, |s|);
    assert s[|s|..] == "";
    AfterTitleMatch(s[|s|..], Capture(c, TitleTag, s[..|s|]));
    RunMatches(TITLE_PART, s, c, |s|);
  }

  lemma SuffixShape(title: string, fix: string, j: nat)
    requires Trimmed(title) && j < |title|
    ensures var s := (title + FixSuffix(fix))[j..];
            !AllSpace(s) && Reach(Space, s) < |title| - j && s == title[j..] + FixSuffix(fix)
  {
    var s := (title + FixSuffix(fix))[j..];
    assert s == title[j..] + FixSuffix(fix);
    assert s[|title| - j - 1] == title[|title| - 1];
  }

  /** A fix read out of the middle of a printed title starts where `StartsFix` says. */
  lemma EarlyFixStarts(title: string, fix: string, j: nat, c: Captures)
    requires Trimmed(title) && 1 <= j < |title|
    requires Match(AFTER_TITLE, (title + FixSuffix(fix))[j..], c).Some?
    ensures exists p :: 1 <= p < |title| && StartsFix(title, fix, p)
  {
    var line := title + FixSuffix(fix);
    var s := line[j..];
    SuffixShape(title, fix, j);
    var m := AfterTitleMeans(s, c);
    var p := j + m;
    assert line[p] == title[p];
    FixWordInTitle(title, fix, p, s, m);
    if fix == "" {
      assert s[m + 5..] == title[p + 5..];
      FixEndsTitle(title, p, c);
    }
    assert StartsFix(title, fix, p);
  }

  lemma FixEndsTitle(title: string, p: nat, c: Captures)
    requires Trimmed(title) && p + 5 <= |title| && Match(FIX_BODY, title[p + 5..], c).Some?
    ensures p + 6 < |title| && title[|title| - 1] == ')'
  {
    var k := FixBodyShape(title[p + 5..], c);
    LastNonSpace(title, p + 5, k);
  }

  /** The blank after the title keeps "(fix:" from straddling its end. */
  lemma FixWordInTitle(title: string, fix: string, p: nat, s: string, m: nat)
    requires p < |title| && m <= p && s == (title + FixSuffix(fix))[p - m..] && FixWordAt(s, m)
    ensures FixWordAt(title, p)
  {
  }

  lemma LastNonSpace(title: string, q: nat, k: nat)
    requires Trimmed(title) && q <= |title| && k < |title[q..]| && AllSpace(title[q..][k + 1..])
    ensures k == |title[q..]| - 1
  {
  }

  /** A safe title is read whole, and the fix after it. */
  lemma TitleExact(title: string, fix: string, c: Captures)
    requires Trimmed(title) && NoNewline(title) && (fix == "" || (Trimmed(fix) && NoNewline(fix)))
    requires TitleSafe(title, fix) && c.fix == ""
    ensures Match(TITLE_PART, title + FixSuffix(fix), c) == Some(c.(title := title, fix := fix))
  {
    var s := title + FixSuffix(fix);
    TitleReach(title, fix);
    forall j | 1 <= j < |title| ensures !Works(TITLE_PART, s, c, j) {
      NoEarlyFix(title, fix, c, j);
    }
    assert s[..|title|] == title && s[|title|..] == FixSuffix(fix);
    SuffixExact(fix, c.(title := title));
    LazyTakes(TITLE_PART, s, c, |title|);
  }

  lemma TitleReach(title: string, fix: string)
    requires NoNewline(title) && NoNewline(fix)
    ensures Reach(Any, title + FixSuffix(fix)) == |title + FixSuffix(fix)|
  {
    SuffixOneLine(fix);
    ReachIs(Any, title + FixSuffix(fix), |title + FixSuffix(fix)|);
  }

  lemma NoEarlyFix(title: string, fix: string, c: Captures, j: nat)
    requires Trimmed(title) && TitleSafe(title, fix) && 1 <= j < |title|
    ensures !Works(TITLE_PART, title + FixSuffix(fix), c, j)
  {
    var s := title + FixSuffix(fix);
    var c' := Capture(c, TitleTag, s[..j]);
    if Match(AFTER_TITLE, s[j..], c').Some? {
      EarlyFixStarts(title, fix, j, c');
    }
  }

  lemma SuffixExact(fix: string, c: Captures)
    requires (fix == "" || (Trimmed(fix) && NoNewline(fix))) && c.fix == ""
    ensures Match(AFTER_TITLE, FixSuffix(fix), c) == Some(c.(fix := fix))
  {
    var s := FixSuffix(fix);
    AfterTitleMatch(s, c);
    if fix != "" {
      SuffixWord(fix);
      FixBodyExact(fix, c);
    }
  }

  lemma SuffixWord(fix: string)
    requires fix != ""
    ensures var s := FixSuffix(fix); Reach(Space, s) == 1 && FixWordAt(s, 1) && s[6..] == " " + fix + ")"
  {
  }

  /** The fix an unsafe title seems to start can be read to the end of the line. */
  lemma EarlyFixReads(title: string, fix: string, c: Captures, p: nat)
    requires Trimmed(title) && NoNewline(title) && (fix == "" || (Trimmed(fix) && NoNewline(fix)))
    requires 1 <= p < |title| && StartsFix(title, fix, p)
    ensures Match(AFTER_TITLE, (title + FixSuffix(fix))[p..], c).Some?
  {
    var rest := (title + FixSuffix(fix))[p..];
    assert rest == title[p..] + FixSuffix(fix);
    WordCarries(rest, title, p);
    EarlyFixEnds(rest, title, fix, p);
    FixBodySome(rest[5..], c);
    AfterTitleReads(rest, c);
  }

  lemma WordCarries(rest: string, title: string, p: nat)
    requires FixWordAt(title, p) && title[p..] <= rest
    ensures FixWordAt(rest, 0) && Reach(Space, rest) == 0
  {
    assert rest[0] == title[p] && rest[1] == title[p + 1] && rest[2] == title[p + 2]
           && rest[3] == title[p + 3] && rest[4] == title[p + 4];
  }

  lemma EarlyFixEnds(rest: string, title: string, fix: string, p: nat)
    requires NoNewline(title) && NoNewline(fix) && 1 <= p < |title| && StartsFix(title, fix, p)
    requires rest == title[p..] + FixSuffix(fix)
    ensures |rest| >= 7 && rest[5..][|rest[5..]| - 1] == ')' && NoNewline(rest[5..])
  {
    SuffixOneLine(fix);
    assert rest[|rest| - 1] == ')';
  }

  /** An unsafe title is cut short. */
  lemma TitleCut(title: string, fix: string, c: Captures, p: nat) returns (g: nat)
    requires Trimmed(title) && NoNewline(title) && (fix == "" || (Trimmed(fix) && NoNewline(fix)))
    requires 1 <= p < |title| && StartsFix(title, fix, p)
    ensures 1 <= g < |title| && Match(TITLE_PART, title + FixSuffix(fix), c).Some?
    ensures var r := Match(TITLE_PART, title + FixSuffix(fix), c).value;
            r.title == title[..g] && r.file == c.file && r.severity == c.severity
  {
    var s := title + FixSuffix(fix);
    assert NoNewline(s) by { SuffixOneLine(fix); }
    ReachIs(Any, s, |s|);
    EarlyFixReads(title, fix, Capture(c, TitleTag, s[..p]), p);
    g := UpFindsSome(TITLE_PART, s, c, 1, |s|, p);
    AfterTitleKeeps(s[g..], Capture(c, TitleTag, s[..g]));
    assert s[..g] == title[..g];
  }

  lemma SuffixOneLine(fix: string)
    requires NoNewline(fix)
    ensures NoNewline(FixSuffix(fix))
  {
  }

  // ---------------------------------------------------------------- the file group

  /** Nothing after a group captures it again. */
  lemma TagsOnce()
    ensures !Mentions(AFTER_TITLE, TitleTag) && !Mentions(AFTER_TITLE, FileTag) && !Mentions(AFTER_TITLE, SeverityTag)
    ensures !Mentions(AFTER_FILE, FileTag) && !Mentions(AFTER_FILE, SeverityTag)
            && !Mentions(AFTER_SEVERITY, SeverityTag)
  {
  }

  lemma AfterFileKeeps(s: string, c: Captures)
    requires Match(AFTER_FILE, s, c).Some?
    ensures Match(AFTER_FILE, s, c).value.file == c.file && Match(AFTER_FILE, s, c).value.severity == c.severity
  {
    TagsOnce();
    MatchKeeps(AFTER_FILE, s, c, FileTag);
    MatchKeeps(AFTER_FILE, s, c, SeverityTag);
  }

  lemma AfterTitleKeeps(s: string, c: Captures)
    requires Match(AFTER_TITLE, s, c).Some?
    ensures var r := Match(AFTER_TITLE, s, c).value; r.title == c.title && r.file == c.file && r.severity == c.severity
  {
    TagsOnce();
    MatchKeeps(AFTER_TITLE, s, c, TitleTag);
    MatchKeeps(AFTER_TITLE, s, c, FileTag);
    MatchKeeps(AFTER_TITLE, s, c, SeverityTag);
  }

  /** Behind a dash anything can be a title. */
  lemma AfterFileDash(s: string, c: Captures)
    requires |s| >= 2 && IsDash(s[0]) && NoNewline(s)
    ensures Match(AFTER_FILE, s, c).Some?
  {
    var t := s[1..];
    TitleSome(t, c);
    assert t[0..] == t && s[0..] == s;
    assert Works(AFTER_DASHES, t, c, 0);
    RunMatches(AFTER_DASHES, t, c, 0);
    assert Works(DASH_PART, s, c, 1);
    RunMatches(DASH_PART, s, c, 1);
    assert Works(AFTER_FILE, s, c, 0);
    RunMatches(AFTER_FILE, s, c, 0);
  }

  /** The printed separator is read back as such. */
  lemma SeparatorExact(t: string, c: Captures)
    requires t != "" && !IsSpace(t[0]) && NoNewline(t)
    ensures Match(AFTER_FILE, SEPARATOR + t, c) == Match(TITLE_PART, t, c) && Match(TITLE_PART, t, c).Some?
  {
    TitleSome(t, c);
    var s0 := SEPARATOR + t;
    var s1 := s0[1..];
    var s2 := s1[1..];
    var s3 := s2[1..];
    assert s3 == t;
    assert s0[0] == ' ' && s1[0] == EM_DASH && s2[0] == ' ';
    GreedyTakesAll(AFTER_DASHES, s2, c, 1);
    GreedyTakesAll(DASH_PART, s1, c, 1);
    GreedyTakesAll(AFTER_FILE, s0, c, 1);
  }

  /** A safe file is read whole. */
  lemma FileExact(file: string, t: string, c: Captures)
    requires file != "" && OneWord(file) && FileSafe(file)
    requires t != "" && !IsSpace(t[0]) && NoNewline(t)
    ensures Match(FILE_PART, file + SEPARATOR + t, c) == Match(TITLE_PART, t, c.(file := file))
    ensures Match(FILE_PART, file + SEPARATOR + t, c).Some?
  {
    var s := file + SEPARATOR + t;
    FileReach(file, t);
    forall j | 1 <= j < |file| ensures !Works(FILE_PART, s, c, j) {
      NoEarlyFile(file, t, c, j);
    }
    FileWorks(FILE_PART, file, t, c);
    LazyTakes(FILE_PART, s, c, |file|);
  }

  lemma FileWorks(p: Pattern, file: string, t: string, c: Captures)
    requires p.Run? && p.next == AFTER_FILE && p.tag == FileTag
    requires t != "" && !IsSpace(t[0]) && NoNewline(t)
    ensures var s, f := file + SEPARATOR + t, |file|;
            Works(p, s, c, f) && Match(p.next, s[f..], Capture(c, p.tag, s[..f]))
                                 == Match(TITLE_PART, t, c.(file := file))
  {
    var s := file + SEPARATOR + t;
    assert s[..|file|] == file && s[|file|..] == SEPARATOR + t;
    SeparatorExact(t, c.(file := file));
  }

  lemma NoEarlyFile(file: string, t: string, c: Captures, j: nat)
    requires OneWord(file) && FileSafe(file) && 1 <= j < |file|
    ensures !Works(FILE_PART, file + SEPARATOR + t, c, j)
  {
  }

  /** A file with a dash after its first character is cut short. */
  lemma FileCut(file: string, t: string, c: Captures, d: nat) returns (g: nat)
    requires OneWord(file) && 1 <= d < |file| && IsDash(file[d])
    requires NoNewline(file) && NoNewline(t)
    ensures 1 <= g < |file| && Match(FILE_PART, file + SEPARATOR + t, c).Some?
    ensures Match(FILE_PART, file + SEPARATOR + t, c).value.file == file[..g]
    ensures Match(FILE_PART, file + SEPARATOR + t, c).value.severity == c.severity
  {
    var s := file + SEPARATOR + t;
    FileReach(file, t);
    DashWorks(file, t, c, d);
    g := UpFindsSome(FILE_PART, s, c, 1, |file|, d);
    AfterFileKeeps(s[g..], Capture(c, FileTag, s[..g]));
    assert s[..g] == file[..g];
  }

  lemma DashWorks(file: string, t: string, c: Captures, d: nat)
    requires 1 <= d < |file| && IsDash(file[d]) && NoNewline(file) && NoNewline(t)
    ensures Works(FILE_PART, file + SEPARATOR + t, c, d)
  {
    var s := file + SEPARATOR + t;
    var rest := s[d..];
    assert rest[0] == file[d] && NoNewline(rest);
    AfterFileDash(rest, Capture(c, FileTag, s[..d]));
  }

  lemma FileReach(file: string, t: string)
    requires OneWord(file)
    ensures Reach(NonSpace, file + SEPARATOR + t) == |file|
  {
    var s := file + SEPARATOR + t;
    assert s[|file|] == ' ';
    ReachIs(NonSpace, s, |file|);
  }

  // ---------------------------------------------------------------- the start of the line

  lemma UpperIsLetters(v: Severity)
    ensures var w := Upper(v); w != "" && (forall i :: 0 <= i < |w| ==> IsLetter(w[i]) && !IsSpace(w[i]))
  {
  }

  lemma UpperReadsBack(v: Severity)
    ensures NormaliseSeverity(Upper(v)) == Some(v)
  {
    StripTrimmed(Upper(v));
    match v
    case Critical => assert LowerAll("CRITICAL") == "critical";
    case High => assert LowerAll("HIGH") == "high";
    case Medium => assert LowerAll("MEDIUM") == "medium";
    case Low => assert LowerAll("LOW") == "low";
  }

  lemma StripTrimmed(s: string)
    requires Trimmed(s)
    ensures Strip(s) == s
  {
  }

  lemma HeadExact(v: Severity, rest: string)
    requires rest != "" && !IsSpace(rest[0]) && Match(FILE_PART, rest, NOTHING.(severity := Upper(v))).Some?
    ensures Match(BRACKET, "[" + Upper(v) + "] " + rest, NOTHING)
         == Match(FILE_PART, rest, NOTHING.(severity := Upper(v)))
  {
    UpperIsLetters(v);
    HeadOf(Upper(v), rest);
  }

  lemma HeadOf(w: string, rest: string)
    requires w != "" && (forall i :: 0 <= i < |w| ==> IsLetter(w[i]))
    requires rest != "" && !IsSpace(rest[0]) && Match(FILE_PART, rest, NOTHING.(severity := w)).Some?
    ensures Match(BRACKET, "[" + w + "] " + rest, NOTHING) == Match(FILE_PART, rest, NOTHING.(severity := w))
  {
    var c := NOTHING.(severity := w);
    BracketEnd(rest, c);
    var s0 := "[" + w + "] " + rest;
    var s1 := w + ("] " + rest);
    SeverityExact(w, s1, rest, c);
    assert s0 == ['['] + s1;
    var p := Literal('[', SeverityWord(AFTER_SEVERITY));
    LiteralStep(p, s0, NOTHING, s1);
    GreedyTakesNone(Spaces(p), s0, NOTHING);
  }

  lemma BracketEnd(rest: string, c: Captures)
    requires rest != "" && !IsSpace(rest[0]) && Match(FILE_PART, rest, c).Some?
    ensures Match(AFTER_SEVERITY, "] " + rest, c) == Match(FILE_PART, rest, c)
  {
  }

  lemma SeverityExact(w: string, s: string, rest: string, c: Captures)
    requires w != "" && (forall i :: 0 <= i < |w| ==> IsLetter(w[i])) && s == w + ("] " + rest)
    requires c == NOTHING.(severity := w) && Match(AFTER_SEVERITY, "] " + rest, c).Some?
    ensures Match(SeverityWord(AFTER_SEVERITY), s, NOTHING) == Match(AFTER_SEVERITY, "] " + rest, c)
  {
    assert s[..|w|] == w && s[|w|..] == "] " + rest && s[|w|] == ']';
    GreedyTakesAll(SeverityWord(AFTER_SEVERITY), s, NOTHING, |w|);
  }

  // ---------------------------------------------------------------- the whole line

  /** No line that starts with the character matches the pattern. */
  predicate CannotStart(p: Pattern, ch: char) {
    (p.Literal? && !SameLetter(ch, p.c)) || (p.Run? && p.min == 1 && p.max != Some(0) && !In(p.cls, ch))
  }

  /** Blanks may come first in every pattern of the parser. */
  predicate BlanksFirst(p: Pattern) {
    p.Run? && p.cls.Space? && p.min == 0 && p.max.None? && p.greedy && p.tag.NoTag?
  }

  lemma OthersFail(p: Pattern, line: string)
    requires line != "" && !IsSpace(line[0]) && BlanksFirst(p) && CannotStart(p.next, line[0])
    ensures Match(p, line, NOTHING).None?
  {
    GreedyTakesNone(p, line, NOTHING);
    if p.next.Run? {
      ReachIs(p.next.cls, line, 0);
    }
  }

  lemma BracketOnly(p: Pattern)
    requires p == TABLE_RULE || p in PATTERNS[1..]
    ensures BlanksFirst(p) && CannotStart(p.next, '[')
  {
  }

  /** Only the first pattern can match a line that opens with a bracket. */
  lemma BracketLine(line: string)
    requires line != "" && line[0] == '['
    ensures var m := Match(BRACKET, line, NOTHING);
            ParseLine(line) == if m.Some? then ToFinding(m.value) else None
  {
    BracketOnly(TABLE_RULE);
    OthersFail(TABLE_RULE, line);
    SkipPattern(PATTERNS[6..], line);
    SkipPattern(PATTERNS[5..], line);
    SkipPattern(PATTERNS[4..], line);
    SkipPattern(PATTERNS[3..], line);
    SkipPattern(PATTERNS[2..], line);
    SkipPattern(PATTERNS[1..], line);
    assert PATTERNS[0] == BRACKET;
  }

  lemma SkipPattern(patterns: seq<Pattern>, line: string)
    requires line != "" && line[0] == '[' && patterns != []
    requires patterns[0] in PATTERNS[1..]
    ensures FirstFinding(patterns, line) == FirstFinding(patterns[1..], line)
  {
    BracketOnly(patterns[0]);
    OthersFail(patterns[0], line);
  }

  lemma LineShape(f: Finding)
    ensures CompactLine(f) == "[" + Upper(f.severity) + "] " + (f.file + SEPARATOR + (f.title + FixSuffix(f.fix)))
    ensures CompactLine(f)[0] == '['
  {
  }

  /** What the parser makes of a printed line is what its file and title groups capture. */
  lemma ParsesTail(f: Finding)
    requires Printable(f)
    requires Match(FILE_PART, f.file + SEPARATOR + (f.title + FixSuffix(f.fix)),
                   NOTHING.(severity := Upper(f.severity))).Some?
    ensures var m := Match(FILE_PART, f.file + SEPARATOR + (f.title + FixSuffix(f.fix)),
                           NOTHING.(severity := Upper(f.severity)));
            ParseLine(CompactLine(f)) == ToFinding(m.value)
  {
    LineShape(f);
    HeadExact(f.severity, f.file + SEPARATOR + (f.title + FixSuffix(f.fix)));
    BracketLine(CompactLine(f));
  }

  lemma TextOf(f: Finding)
    requires Printable(f)
    ensures var t := f.title + FixSuffix(f.fix); t != "" && !IsSpace(t[0]) && NoNewline(t) && NoNewline(f.file)
  {
    SuffixOneLine(f.fix);
  }

  /** A safe finding is read back. */
  lemma ReadsBack(f: Finding)
    requires Printable(f) && Safe(f)
    ensures ParseLine(CompactLine(f)) == Some(f)
  {
    var c := NOTHING.(severity := Upper(f.severity));
    TextOf(f);
    FileExact(f.file, f.title + FixSuffix(f.fix), c);
    TitleExact(f.title, f.fix, c.(file := f.file));
    ParsesTail(f);
    CapturesBack(f);
  }

  lemma CapturesBack(f: Finding)
    requires Printable(f)
    ensures ToFinding(Captures(Upper(f.severity), f.file, f.title, f.fix)) == Some(f)
  {
    UpperReadsBack(f.severity);
    StripTrimmed(f.file);
    StripTrimmed(f.title);
    if f.fix != "" {
      StripTrimmed(f.fix);
    }
  }

  /** A dash inside the path cuts it short. */
  lemma DashBreaks(f: Finding, d: nat)
    requires Printable(f) && 1 <= d < |f.file| && IsDash(f.file[d])
    ensures ParseLine(CompactLine(f)) != Some(f)
  {
    var c := NOTHING.(severity := Upper(f.severity));
    TextOf(f);
    var g := FileCut(f.file, f.title + FixSuffix(f.fix), c, d);
    ParsesTail(f);
    StripShorter(f.file[..g]);
    NotUnknown(f.file, d);
  }

  lemma NotUnknown(file: string, d: nat)
    requires d < |file| && IsDash(file[d])
    ensures file != "unknown"
  {
  }

  lemma StripShorter(s: string)
    ensures |Strip(s)| <= |s|
  {
  }

  /** An early "(fix:" cuts the title short. */
  lemma FixBreaks(f: Finding, p: nat)
    requires Printable(f) && FileSafe(f.file) && 1 <= p < |f.title| && StartsFix(f.title, f.fix, p)
    ensures ParseLine(CompactLine(f)) != Some(f)
  {
    var c := NOTHING.(severity := Upper(f.severity));
    TextOf(f);
    FileExact(f.file, f.title + FixSuffix(f.fix), c);
    var g := TitleCut(f.title, f.fix, c.(file := f.file), p);
    ParsesTail(f);
    StripShorter(f.title[..g]);
  }

  /** Every run that captures the file takes no blank. */
  predicate FileIsWord(p: Pattern) {
    match p
    case End => true
    case Literal(_, next) => FileIsWord(next)
    case Either(a, b) => FileIsWord(a) && FileIsWord(b)
    case Run(cls, _, _, _, tag, next) => (tag == FileTag ==> cls == NonSpace) && FileIsWord(next)
  }

  lemma {:induction false} MatchOneWord(p: Pattern, s: string, c: Captures)
    requires FileIsWord(p) && OneWord(c.file) && Match(p, s, c).Some?
    ensures OneWord(Match(p, s, c).value.file)
    decreases p
  {
    match p
    case End =>
    case Literal(_, next) => MatchOneWord(next, s[1..], c);
    case Either(a, b) =>
      if Match(a, s, c).Some? {
        MatchOneWord(a, s, c);
      } else {
        MatchOneWord(b, s, c);
      }
    case Run(_, _, _, _, t, next) =>
      var f := RunMeans(p, s, c);
      MatchOneWord(next, s[f..], Capture(c, t, s[..f]));
  }

  lemma BracketIsWord()
    ensures FileIsWord(BRACKET)
  {
    assert FileIsWord(FIX_BODY);
    assert FileIsWord(FIX_WORD);
    assert FileIsWord(AFTER_TITLE);
    assert FileIsWord(AFTER_DASHES);
    assert FileIsWord(AFTER_FILE);
    assert FileIsWord(AFTER_SEVERITY);
  }

  lemma StripOneWord(s: string)
    requires OneWord(s)
    ensures OneWord(Strip(s))
  {
    assert s != "" ==> Trimmed(s);
  }

  /** A bracket line never yields a file with a blank in it. */
  lemma BracketFileIsWord(line: string)
    requires line != "" && line[0] == '[' && ParseLine(line).Some?
    ensures OneWord(ParseLine(line).value.file)
  {
    BracketLine(line);
    BracketIsWord();
    MatchOneWord(BRACKET, line, NOTHING);
    FoundOneWord(Match(BRACKET, line, NOTHING).value);
  }

  lemma FoundOneWord(c: Captures)
    requires OneWord(c.file) && ToFinding(c).Some?
    ensures OneWord(ToFinding(c).value.file)
  {
    StripOneWord(c.file);
    StripOneWord(Strip(c.file));
  }

  /** For every finding the parser can return: printing it and parsing the line gives it back exactly
      when its file is one word and it is safe. */
  lemma PrinterParserInverse(f: Finding)
    requires Clean(f)
    ensures ParseLine(CompactLine(f)) == Some(f) <==> OneWord(f.file) && Safe(f)
  {
    if !OneWord(f.file) {
      LineShape(f);
      if ParseLine(CompactLine(f)).Some? {
        BracketFileIsWord(CompactLine(f));
      }
    } else if Safe(f) {
      ReadsBack(f);
    } else if !FileSafe(f.file) {
      var d :| 1 <= d < |f.file| && IsDash(f.file[d]);
      DashBreaks(f, d);
    } else {
      var p :| 1 <= p < |f.title| && StartsFix(f.title, f.fix, p);
      FixBreaks(f, p);
    }
  }

  /** The printed line: the severity in capitals and brackets, the file, a dash, the title, and the fix in
      parentheses if there is one. */
  lemma PrintedLine(f: Finding)
    ensures var opening := match f.severity
              case Critical => "[CRITICAL] "
              case High => "[HIGH] "
              case Medium => "[MEDIUM] "
              case Low => "[LOW] ";
            CompactLine(f) == opening + f.file + " \U{2014} " + f.title
            + if f.fix == "" then "" else " (fix: " + f.fix + ")"
  {
  }

  // ---------------------------------------------------------------- the severity of a printed line

  /** Whatever else is cut short, a printed line keeps its severity. */
  lemma SeverityKept(f: Finding)
    requires ParseLine(CompactLine(f)).Some?
    ensures ParseLine(CompactLine(f)).value.severity == f.severity
  {
    LineShape(f);
    BracketLine(CompactLine(f));
    UpperIsLetters(f.severity);
    HeadSeverity(Upper(f.severity), f.file + SEPARATOR + (f.title + FixSuffix(f.fix)));
    UpperReadsBack(f.severity);
  }

  lemma HeadSeverity(w: string, rest: string)
    requires w != "" && (forall i :: 0 <= i < |w| ==> IsLetter(w[i]))
             && Match(BRACKET, "[" + w + "] " + rest, NOTHING).Some?
    ensures Match(BRACKET, "[" + w + "] " + rest, NOTHING).value.severity == w
  {
    var s0 := "[" + w + "] " + rest;
    var s1 := w + ("] " + rest);
    assert s0 == ['['] + s1;
    var p := Literal('[', SeverityWord(AFTER_SEVERITY));
    GreedyTakesNone(Spaces(p), s0, NOTHING);
    LiteralStep(p, s0, NOTHING, s1);
    WordSeverity(SeverityWord(AFTER_SEVERITY), w, s1, rest);
  }

  lemma WordSeverity(p: Pattern, w: string, s: string, rest: string)
    requires p == SeverityWord(AFTER_SEVERITY) && (forall i :: 0 <= i < |w| ==> IsLetter(w[i]))
             && s == w + ("] " + rest)
    requires Match(p, s, NOTHING).Some?
    ensures Match(p, s, NOTHING).value.severity == w
  {
    var f := RunMeans(p, s, NOTHING);
    assert s[|w|] == ']' && s[f..][0] == ']';
    assert f == |w| && s[..f] == w;
    TagsOnce();
    MatchKeeps(AFTER_SEVERITY, s[f..], NOTHING.(severity := w), SeverityTag);
  }

  // ---------------------------------------------------------------- table rows

  predicate NoPipe(s: string) {
    forall i :: 0 <= i < |s| ==> s[i] != '|'
  }

  /** A table row with three columns. */
  function TableLine(v: Severity, file: string, title: string): string {
    Row3(" " + Upper(v) + " ", " " + file + " ", " " + title + " ")
  }

  function Row3(a: string, b: string, c: string): string {
    "|" + (a + "|" + (b + "|" + (c + "|" + "")))
  }

  /** A cell takes everything up to the next bar. */
  lemma CellStep(p: Pattern, text: string, rest: string, c: Captures)
    requires p.Run? && p.greedy && p.max.None? && p.min == 1 && p.cls == NotPipe && p.next.Literal? && p.next.c == '|'
    requires text != "" && NoPipe(text)
    ensures Match(p, text + "|" + rest, c) == Match(p.next.next, rest, Capture(c, p.tag, text))
  {
    var s := text + "|" + rest;
    assert s[|text|] == '|';
    ReachIs(NotPipe, s, |text|);
    GreedyThenLiteral(p, s, c);
    assert s[..|text|] == text && s[|text|..] == ['|'] + rest;
    LiteralStep(p.next, s[|text|..], Capture(c, p.tag, text), rest);
  }

  /** The first bar and three cells. */
  lemma ThreeCells(next: Pattern, a: string, b: string, c: string)
    requires a != "" && b != "" && c != "" && NoPipe(a) && NoPipe(b) && NoPipe(c)
    ensures Match(Spaces(AllCells(next)), Row3(a, b, c), NOTHING) == Match(next, "", Captures(a, b, c, ""))
  {
    var s, s1, s2, s3 := Row3(a, b, c), a + "|" + (b + "|" + (c + "|" + "")), b + "|" + (c + "|" + ""), c + "|" + "";
    GreedyTakesNone(Spaces(AllCells(next)), s, NOTHING);
    LiteralStep(AllCells(next), s, NOTHING, s1);
    CellStep(AllCells(next).next, a, s2, NOTHING);
    CellStep(LastCells(next), b, s3, NOTHING.(severity := a));
    CellStep(LastCell(next), c, "", NOTHING.(severity := a, file := b));
  }

  lemma RowMatches(a: string, b: string, c: string)
    requires a != "" && b != "" && c != "" && NoPipe(a) && NoPipe(b) && NoPipe(c)
    ensures Match(TABLE_ROW, Row3(a, b, c), NOTHING).None?
    ensures Match(SHORT_ROW, Row3(a, b, c), NOTHING) == Some(Captures(a, b, c, ""))
  {
    ThreeCells(FIX_CELL, a, b, c);
    ThreeCells(TAIL, a, b, c);
    TailMatch("", Captures(a, b, c, ""));
  }

  /** A row with a letter in it is no rule. */
  lemma RowIsNoRule(line: string, q: nat)
    requires 1 <= q < |line| && line[0] == '|' && IsLetter(line[q])
    ensures Match(TABLE_RULE, line, NOTHING).None?
  {
    var s := line[1..];
    assert line == ['|'] + s;
    GreedyTakesNone(TABLE_RULE, line, NOTHING);
    LiteralStep(TABLE_RULE.next, line, NOTHING, s);
    RuleStops(TABLE_RULE.next.next, s, q - 1);
  }

  lemma RuleStops(p: Pattern, s: string, q: nat)
    requires p.Run? && p.cls.Separator? && p.tag.NoTag? && p.next == Literal('|', TAIL) && q < |s| && IsLetter(s[q])
    ensures Match(p, s, NOTHING).None?
  {
    if Match(p, s, NOTHING).Some? {
      var f := RunMeans(p, s, NOTHING);
      LiteralMeans(p.next, s[f..], NOTHING);
      LetterBehind(s, f, q);
      TailMatch(s[f..][1..], NOTHING);
    }
  }

  lemma LetterBehind(s: string, f: nat, q: nat)
    requires f <= Reach(Separator, s) && s[f..] != "" && SameLetter(s[f..][0], '|') && q < |s| && IsLetter(s[q])
    ensures !AllSpace(s[f..][1..])
  {
    LetterIsLetter(s[q]);
    assert q >= Reach(Separator, s);
    assert s[f..][0] == s[f] && s[f] == '|';
    SuffixAt(s, f, q);
  }

  lemma LetterIsLetter(c: char)
    requires IsLetter(c)
    ensures !In(Separator, c) && !IsSpace(c) && c != '|'
  {
  }

  lemma SuffixAt(s: string, f: nat, q: nat)
    requires f < q < |s| && !IsSpace(s[q])
    ensures !AllSpace(s[f..][1..])
  {
    assert s[f..][1..][q - f - 1] == s[q];
  }

  lemma PaddedStrip(s: string)
    requires Trimmed(s)
    ensures Strip(" " + s + " ") == s
  {
    var t, r := " " + s + " ", s + " ";
    assert t[1..] == r && t[0] == ' ';
    assert StripLeft(t) == StripLeft(r) == r;
    assert r[|r| - 1] == ' ' && r[..|r| - 1] == s;
    assert StripRight(r) == StripRight(s) == s;
  }

  /** A table row is read as it stands, blanks and dashes in the path included. */
  lemma TableRowParses(v: Severity, file: string, title: string)
    requires Trimmed(file) && Trimmed(title) && NoPipe(file) && NoPipe(title)
    ensures ParseLine(TableLine(v, file, title))
         == Some(Finding(v, if LooksLikeFile(file) then file else "unknown", title, ""))
  {
    var a, b, c := " " + Upper(v) + " ", " " + file + " ", " " + title + " ";
    var line := Row3(a, b, c);
    UpperIsLetters(v);
    UpperHasNoPipe(v);
    assert line[0] == '|' && line[2] == Upper(v)[0];
    RowIsNoRule(line, 2);
    RowMatches(a, b, c);
    BarFails(line);
    RowFinding(v, file, title);
    FourthFinds(line, Captures(a, b, c, ""));
  }

  lemma BarFails(line: string)
    requires line != "" && line[0] == '|'
    ensures Match(BRACKET, line, NOTHING).None? && Match(BOLD, line, NOTHING).None?
  {
    OthersFail(BRACKET, line);
    OthersFail(BOLD, line);
  }

  lemma RowFinding(v: Severity, file: string, title: string)
    requires Trimmed(file) && Trimmed(title)
    ensures ToFinding(Captures(" " + Upper(v) + " ", " " + file + " ", " " + title + " ", ""))
         == Some(Finding(v, if LooksLikeFile(file) then file else "unknown", title, ""))
  {
    PaddedSeverity(v);
    PaddedStrip(file);
    PaddedStrip(title);
  }

  lemma UpperHasNoPipe(v: Severity)
    ensures NoPipe(Upper(v)) && Trimmed(Upper(v))
  {
  }

  lemma PaddedSeverity(v: Severity)
    ensures NormaliseSeverity(" " + Upper(v) + " ") == Some(v)
  {
    UpperHasNoPipe(v);
    PaddedStrip(Upper(v));
    StripTrimmed(Upper(v));
    UpperReadsBack(v);
  }

  lemma FourthFinds(line: string, c: Captures)
    requires Match(TABLE_RULE, line, NOTHING).None? && Match(BRACKET, line, NOTHING).None?
             && Match(BOLD, line, NOTHING).None?
    requires Match(TABLE_ROW, line, NOTHING).None? && Match(SHORT_ROW, line, NOTHING) == Some(c) && ToFinding(c).Some?
    ensures ParseLine(line) == ToFinding(c)
  {
    assert PATTERNS[0] == BRACKET && PATTERNS[1..][0] == BOLD && PATTERNS[2..][0] == TABLE_ROW
           && PATTERNS[3..][0] == SHORT_ROW;
    assert PATTERNS[1..][1..] == PATTERNS[2..] && PATTERNS[2..][1..] == PATTERNS[3..];
    assert FirstFinding(PATTERNS[3..], line) == ToFinding(c);
    assert FirstFinding(PATTERNS[2..], line) == ToFinding(c);
    assert FirstFinding(PATTERNS[1..], line) == ToFinding(c);
  }
}

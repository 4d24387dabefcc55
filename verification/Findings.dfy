/** The findings summarizer: the line patterns, the parser, the compact printer and the summary. */
module Findings {
  import opened Collections
  import opened Patterns

  datatype Severity = Critical | High | Medium | Low

  /** A finding; an empty fix means there is none. */
  datatype Finding = Finding(severity: Severity, file: string, title: string, fix: string)

  // ---------------------------------------------------------------- strings

  function LowerAll(s: string): string {
    seq(|s|, i requires 0 <= i < |s| => Lower(s[i]))
  }

  function StripLeft(s: string): (t: string)
    ensures |t| <= |s| && (t != "" ==> !IsSpace(t[0]))
  {
    if s != "" && IsSpace(s[0]) then StripLeft(s[1..]) else s
  }

  function StripRight(s: string): (t: string)
    ensures |t| <= |s| && t <= s && (t != "" ==> !IsSpace(t[|t| - 1]))
  {
    if s != "" && IsSpace(s[|s| - 1]) then StripRight(s[..|s| - 1]) else s
  }

  function Strip(s: string): string { StripRight(StripLeft(s)) }

  /** Non-empty, and strip() would change nothing. */
  predicate Trimmed(s: string) {
    s != "" && !IsSpace(s[0]) && !IsSpace(s[|s| - 1])
  }

  predicate OneLine(s: string) {
    forall i :: 0 <= i < |s| ==> !IsBreak(s[i])
  }

  /** The characters splitlines() breaks at. */
  predicate IsBreak(c: char) {
    || '\n' <= c <= '\r' || '\U{1C}' <= c <= '\U{1E}' || c == '\U{85}' || c == '\U{2028}' || c == '\U{2029}'
  }

  // ---------------------------------------------------------------- severities and files

  function Alias(s: string): Option<Severity> {
    if s == "critical" || s == "crit" then Some(Critical)
    else if s == "high" then Some(High)
    else if s == "medium" || s == "med" || s == "moderate" then Some(Medium)
    else if s == "low" || s == "info" || s == "informational" then Some(Low)
    else None
  }

  function NormaliseSeverity(raw: string): Option<Severity> { Alias(LowerAll(Strip(raw))) }

  function Upper(v: Severity): string {
    match v
    case Critical => "CRITICAL"
    case High => "HIGH"
    case Medium => "MEDIUM"
    case Low => "LOW"
  }

  predicate HasPathChar(s: string) {
    exists i :: 0 <= i < |s| && (s[i] == '.' || s[i] == '/' || s[i] == '\\' || s[i] == ':')
  }

  predicate LooksLikeFile(token: string) {
    var t := Strip(token);
    t != "" && Alias(LowerAll(t)).None? && HasPathChar(t)
  }

  // ---------------------------------------------------------------- the patterns

  function Spaces(next: Pattern): Pattern { Run(Space, 0, None, true, NoTag, next) }

  function SomeSpaces(next: Pattern): Pattern { Run(Space, 1, None, true, NoTag, next) }

  function Dashes(next: Pattern): Pattern { Run(Dash, 1, None, true, NoTag, next) }

  function Stars(next: Pattern): Pattern { Literal('*', Literal('*', next)) }

  function SeverityWord(next: Pattern): Pattern { Run(Letter, 1, None, true, SeverityTag, next) }

  function Cell(tag: Tag, next: Pattern): Pattern { Run(NotPipe, 1, None, true, tag, next) }

  const TAIL: Pattern := Spaces(End)

  const LAZY_TITLE: Pattern := Run(Any, 1, None, false, TitleTag, TAIL)

  /** `\s*\(fix:\s*(?P<fix>.+?)\)` and the end. */
  const FIX_TEXT: Pattern := Run(Any, 1, None, false, FixTag, Literal(')', TAIL))

  const FIX_BODY: Pattern := Spaces(FIX_TEXT)

  const FIX_WORD: Pattern := Literal('(', Literal('f', Literal('i', Literal('x', Literal(':', FIX_BODY)))))

  const FIX_PART: Pattern := Spaces(FIX_WORD)

  const AFTER_TITLE: Pattern := Either(FIX_PART, TAIL)

  const TITLE_PART: Pattern := Run(Any, 1, None, false, TitleTag, AFTER_TITLE)

  const AFTER_DASHES: Pattern := Spaces(TITLE_PART)

  const DASH_PART: Pattern := Dashes(AFTER_DASHES)

  const AFTER_FILE: Pattern := Spaces(DASH_PART)

  const FILE_PART: Pattern := Run(NonSpace, 1, None, false, FileTag, AFTER_FILE)

  const AFTER_SEVERITY: Pattern := Literal(']', SomeSpaces(FILE_PART))

  /** [HIGH] path — title (fix: text) */
  const BRACKET: Pattern := Spaces(Literal('[', SeverityWord(AFTER_SEVERITY)))

  const IN_FILE: Pattern := SomeSpaces(Literal('i',
                                               Literal('n', SomeSpaces(Run(NonSpace, 1, None, false, FileTag, TAIL)))))

  const BOLD_TITLE: Pattern := Run(Any, 1, None, false, TitleTag, Either(IN_FILE, TAIL))

  /** **High**: title in path */
  const BOLD: Pattern := Spaces(Stars(SeverityWord(Stars(Spaces(Literal(':', Spaces(BOLD_TITLE)))))))

  function LastCell(next: Pattern): Pattern { Cell(TitleTag, Literal('|', next)) }

  function LastCells(next: Pattern): Pattern { Cell(FileTag, Literal('|', LastCell(next))) }

  function AllCells(next: Pattern): Pattern { Literal('|', Cell(SeverityTag, Literal('|', LastCells(next)))) }

  const FIX_CELL: Pattern := Cell(FixTag, Either(Literal('|', TAIL), TAIL))

  /** | High | path | title | fix | and the same without the last column. */
  const TABLE_ROW: Pattern := Spaces(AllCells(FIX_CELL))

  const SHORT_ROW: Pattern := Spaces(AllCells(TAIL))

  /** ### High: title */
  const HEADING: Pattern :=
    Spaces(Run(Hash, 1, Some(6), true, NoTag, SomeSpaces(SeverityWord(Spaces(Literal(':', Spaces(LAZY_TITLE)))))))

  function Bullet(rest: Pattern): Pattern {
    Spaces(Run(Star, 1, Some(1), true, NoTag, SomeSpaces(Stars(SeverityWord(Stars(Spaces(Dashes(Spaces(rest)))))))))
  }

  /** - **High** — path: title, and the same without the path. */
  const LIST_ITEM: Pattern := Bullet(Run(NonSpace, 1, None, false, FileTag, Literal(':', Spaces(LAZY_TITLE))))

  const PLAIN_ITEM: Pattern := Bullet(LAZY_TITLE)

  const TABLE_RULE: Pattern := Spaces(Literal('|', Run(Separator, 1, None, true, NoTag, Literal('|', TAIL))))

  const PATTERNS: seq<Pattern> := [BRACKET, BOLD, TABLE_ROW, SHORT_ROW, HEADING, LIST_ITEM, PLAIN_ITEM]

  // ---------------------------------------------------------------- parsing a line

  /** A match becomes a finding unless its severity is unknown or its title is blank. */
  function ToFinding(c: Captures): Option<Finding> {
    var severity, title := NormaliseSeverity(c.severity), Strip(c.title);
    if severity.None? || title == "" then None
    else Some(Finding(severity.value, if LooksLikeFile(Strip(c.file)) then Strip(c.file)
                      else "unknown", title, Strip(c.fix)))
  }

  function FirstFinding(patterns: seq<Pattern>, line: string): Option<Finding> {
    if patterns == [] then None
    else
      var m := Match(patterns[0], line, NOTHING);
      var f := if m.Some? then ToFinding(m.value) else None;
      if f.Some? then f else FirstFinding(patterns[1..], line)
  }

  function ParseLine(line: string): Option<Finding> {
    if Match(TABLE_RULE, line, NOTHING).Some? then None else FirstFinding(PATTERNS, line)
  }

  // ---------------------------------------------------------------- printing

  const SEPARATOR: string := [' ', EM_DASH, ' ']

  /** What follows the title. */
  function FixSuffix(fix: string): string {
    if fix == "" then "" else " (fix: " + fix + ")"
  }

  function CompactLine(f: Finding): string {
    "[" + Upper(f.severity) + "] " + f.file + SEPARATOR + f.title + FixSuffix(f.fix)
  }
}

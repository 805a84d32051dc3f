/** The slash protocol: raw text to directives, and back.

    The regular expressions are written out as scans.  None of them can succeed by
    giving back characters of a greedy run, so a scan of the longest run is the match. */
module SlashParser {
  import opened Prelude
  import opened Text

  datatype ContentRef = ContentRef(scope: string, path: Option<string>)

  datatype Directive = Directive(
    target: Option<string>, cmd: string, args: seq<string>, contentRef: Option<ContentRef>, rawText: string)

  datatype Turn = Turn(directives: seq<Directive>, generalText: Option<string>)

  // ---------------------------------------------------------------------------
  // Character classes and scopes
  // ---------------------------------------------------------------------------

  predicate Lower(c: char) {
    'a' <= c <= 'z'
  }

  /** The scopes the content-reference pattern knows, in its order. */
  const Scopes: seq<string> := ["hub", "instance", "workspace", "fornix", "vault", "memory"]

  function NormalizeScope(scope: string): string {
    if scope in ["workspace", "fornix", "vault", "blackboard"] then "hub"
    else if scope == "memory" then "instance"
    else scope
  }

  predicate Canonical(scope: string) {
    scope == "hub" || scope == "instance"
  }

  // ---------------------------------------------------------------------------
  // Scans
  // ---------------------------------------------------------------------------

  predicate CmdAt(s: string, i: nat) {
    i + 1 < |s| && s[i] == '/' && Lower(s[i + 1])
  }

  /** First command token at or after i; |s| if there is none. */
  function FindCmd(s: string, i: nat): (k: nat)
    requires i <= |s|
    ensures i <= k <= |s| && (k < |s| ==> CmdAt(s, k))
    ensures forall j :: i <= j < k ==> !CmdAt(s, j)
    decreases |s| - i
  {
    if i == |s| || CmdAt(s, i) then i else FindCmd(s, i + 1)
  }

  predicate PrefixAt(s: string, i: nat, w: string) {
    i + |w| <= |s| && s[i..i + |w|] == w
  }

  /** The first of the alternatives that stands at position i, or "" if none does. */
  function FirstScope(s: string, i: nat, ws: seq<string>): (w: string)
    ensures w == "" || (w in ws && PrefixAt(s, i, w))
  {
    if ws == [] then "" else if PrefixAt(s, i, ws[0]) then ws[0] else FirstScope(s, i, ws[1..])
  }

  function ScopeAt(s: string, i: nat): string {
    FirstScope(s, i, Scopes)
  }

  predicate RefAt(s: string, i: nat) {
    i < |s| && s[i] == '@' && ScopeAt(s, i + 1) != ""
  }

  function FindRef(s: string, i: nat): (k: nat)
    requires i <= |s|
    ensures i <= k <= |s| && (k < |s| ==> RefAt(s, k))
    ensures forall j :: i <= j < k ==> !RefAt(s, j)
    decreases |s| - i
  {
    if i == |s| || RefAt(s, i) then i else FindRef(s, i + 1)
  }

  /** Where the path of the reference at i starts; where the reference ends if it has none. */
  function PathStart(s: string, i: nat): (j: nat)
    requires RefAt(s, i)
    ensures i < j <= |s|
  {
    var e := i + 1 + |ScopeAt(s, i + 1)|;
    if e + 1 < |s| && s[e] == ':' && !Space(s[e + 1]) then e + 1 else e
  }

  predicate HasPath(s: string, i: nat)
    requires RefAt(s, i)
  {
    PathStart(s, i) > i + 1 + |ScopeAt(s, i + 1)|
  }

  function RefEnd(s: string, i: nat): (e: nat)
    requires RefAt(s, i)
    ensures i < e <= |s|
  {
    if HasPath(s, i) then RunEnd(s, PathStart(s, i), NonSpaces) else PathStart(s, i)
  }

  function RefFound(s: string, i: nat): (r: ContentRef)
    requires RefAt(s, i)
    ensures Canonical(r.scope)
  {
    ContentRef(NormalizeScope(ScopeAt(s, i + 1)), if HasPath(s, i) then Some(s[PathStart(s, i)..RefEnd(s, i)]) else None)
  }

  /** Every reference from i on, left to right; the last one wins. */
  function LastRef(s: string, i: nat, found: Option<ContentRef>): (r: Option<ContentRef>)
    requires i <= |s|
    requires found.Some? ==> Canonical(found.value.scope)
    ensures r.Some? ==> Canonical(r.value.scope)
    decreases |s| - i
  {
    var k := FindRef(s, i);
    if k == |s| then found else LastRef(s, RefEnd(s, k), Some(RefFound(s, k)))
  }

  function WithoutRefs(s: string, i: nat): string
    requires i <= |s|
    decreases |s| - i
  {
    var k := FindRef(s, i);
    if k == |s| then s[i..] else s[i..k] + WithoutRefs(s, RefEnd(s, k))
  }

  predicate AtToken(s: string, i: nat) {
    i + 1 < |s| && s[i] == '@' && Word(s[i + 1])
  }

  function Slug(s: string, i: nat): string
    requires AtToken(s, i)
  {
    s[i + 1..RunEnd(s, i + 1, WordChars)]
  }

  /** An @slug that counts as a chat mention: after white space or at the start, and not
      a content scope. */
  predicate Mention(s: string, i: nat) {
    AtToken(s, i) && Slug(s, i) !in Scopes && (i > 0 ==> Space(s[i - 1]))
  }

  /** Mentions from i on, scanning token by token. */
  function Mentions(s: string, i: nat): seq<nat>
    requires i <= |s|
    decreases |s| - i
  {
    if i == |s| then []
    else if AtToken(s, i) then (if Mention(s, i) then [i] else []) + Mentions(s, RunEnd(s, i + 1, WordChars))
    else Mentions(s, i + 1)
  }

  /** Positions of tokens, in order. */
  predicate Marks(s: string, ms: seq<nat>) {
    && (forall k :: 0 <= k < |ms| ==> AtToken(s, ms[k]))
    && (forall j, k :: 0 <= j < k < |ms| ==> ms[j] < ms[k])
  }

  lemma {:induction false} MentionsMark(s: string, i: nat)
    requires i <= |s|
    ensures Marks(s, Mentions(s, i))
    ensures forall k :: 0 <= k < |Mentions(s, i)| ==> i <= Mentions(s, i)[k] && Mention(s, Mentions(s, i)[k])
    decreases |s| - i
  {
    if i < |s| {
      MentionsMark(s, if AtToken(s, i) then RunEnd(s, i + 1, WordChars) else i + 1);
    }
  }

  // ---------------------------------------------------------------------------
  // The parser, as functions
  // ---------------------------------------------------------------------------

  predicate TargetAt(line: string) {
    && AtToken(line, 0)
    && var e := RunEnd(line, 1, WordChars);
       e == |line| || Space(line[e])
  }

  /** What follows the target and the white space after it. */
  function AfterTarget(line: string): string {
    if TargetAt(line) then line[RunEnd(line, RunEnd(line, 1, WordChars), Spaces)..] else line
  }

  /** A directive from its command and the text around the command. */
  function CommandOf(target: Option<string>, cmd: string, remaining: string, line: string): (r: Directive)
    ensures r.rawText == line && (r.contentRef.Some? ==> Canonical(r.contentRef.value.scope))
  {
    var contentRef := LastRef(remaining, 0, None);
    var words := if contentRef.Some? then Strip(WithoutRefs(remaining, 0)) else remaining;
    Directive(target, "/" + cmd, Words(words), contentRef, line)
  }

  function DirectiveOf(line: string): (r: Option<Directive>)
    ensures r.Some? ==> r.value.rawText == line && (r.value.contentRef.Some? ==> Canonical(r.value.contentRef.value.scope))
  {
    var target := if TargetAt(line) then Some(Slug(line, 0)) else None;
    var rest := AfterTarget(line);
    var k := FindCmd(rest, 0);
    if k < |rest| then
      var e := RunEnd(rest, k + 1, CmdChars);
      Some(CommandOf(target, rest[k + 1..e], rest[..k] + rest[e..], line))
    else if target.Some? then Some(Directive(target, "", Words(rest), None, line))
    else None
  }

  /** One mention of a line that holds several: the text up to the next one. */
  function MentionPiece(raw: string, ms: seq<nat>, k: nat): string
    requires k < |ms| && Marks(raw, ms)
  {
    raw[ms[k]..if k + 1 < |ms| then ms[k + 1] else |raw|]
  }

  function MentionDirective(piece: string): Directive
    requires AtToken(piece, 0)
  {
    Directive(Some(Slug(piece, 0)), "", Words(Strip(piece[RunEnd(piece, 1, WordChars)..])), None, Strip(piece))
  }

  lemma TokenOfPiece(raw: string, m: nat, n: nat)
    requires AtToken(raw, m) && m < n <= |raw| && (n < |raw| ==> !Word(raw[n]))
    ensures AtToken(raw[m..n], 0)
    ensures RunEnd(raw, m + 1, WordChars) == m + RunEnd(raw[m..n], 1, WordChars) <= n
    ensures Slug(raw, m) == Slug(raw[m..n], 0)
  {
    var e, piece := RunEnd(raw, m + 1, WordChars), raw[m..n];
    assert e <= n;
    forall k | 1 <= k < e - m ensures Is(piece[k], WordChars) {
      assert piece[k] == raw[m + k];
    }
    assert e < n ==> piece[e - m] == raw[e];
    RunEndIs(piece, 1, WordChars, e - m);
    SliceOfSlice(raw, m, n - m, 1, e - m);
    assert raw[m..m + (n - m)] == piece;
  }

  lemma PieceToken(raw: string, ms: seq<nat>, k: nat)
    requires k < |ms| && Marks(raw, ms)
    ensures var piece := MentionPiece(raw, ms, k);
            && AtToken(piece, 0) && Slug(raw, ms[k]) == Slug(piece, 0)
            && RunEnd(raw, ms[k] + 1, WordChars) == ms[k] + RunEnd(piece, 1, WordChars)
  {
    TokenOfPiece(raw, ms[k], if k + 1 < |ms| then ms[k + 1] else |raw|);
  }

  lemma PieceDirective(raw: string, ms: seq<nat>, k: nat, start: nat, end: nat)
    requires k < |ms| && Marks(raw, ms)
    requires start == RunEnd(raw, ms[k] + 1, WordChars) && end == if k + 1 < |ms| then ms[k + 1] else |raw|
    ensures AtToken(MentionPiece(raw, ms, k), 0) && ms[k] < start <= end
    ensures MentionDirective(MentionPiece(raw, ms, k))
            == Directive(Some(Slug(raw, ms[k])), "", Words(Strip(raw[start..end])), None, Strip(raw[ms[k]..end]))
  {
    PieceToken(raw, ms, k);
    var piece := MentionPiece(raw, ms, k);
    assert piece[RunEnd(piece, 1, WordChars)..] == raw[start..end];
  }

  function ExpandedFrom(raw: string, ms: seq<nat>, n: nat): seq<Directive>
    requires n <= |ms| && Marks(raw, ms)
  {
    if n == 0 then []
    else
      PieceToken(raw, ms, n - 1);
      ExpandedFrom(raw, ms, n - 1) + [MentionDirective(MentionPiece(raw, ms, n - 1))]
  }

  /** None when the line stays a single directive. */
  function Expanded(raw: string): (r: Option<seq<Directive>>) {
    if FindCmd(raw, 0) < |raw| || |Mentions(raw, 0)| <= 1 then None
    else
      MentionsMark(raw, 0);
      Some(ExpandedFrom(raw, Mentions(raw, 0), |Mentions(raw, 0)|))
  }

  datatype Parsed = Parsed(directives: seq<Directive>, text: seq<string>)

  /** What one line adds to the turn. */
  function ParsedLine(line: string): Parsed {
    var s := Strip(line);
    if s == "" then Parsed([], [])
    else if Expanded(s).Some? then Parsed(Expanded(s).value, [])
    else if DirectiveOf(s).Some? then Parsed([DirectiveOf(s).value], [])
    else Parsed([], [s])
  }

  function ParsedLines(lines: seq<string>): (ps: seq<Parsed>)
    ensures |ps| == |lines| && forall i :: 0 <= i < |lines| ==> ps[i] == ParsedLine(lines[i])
  {
    if lines == [] then [] else [ParsedLine(lines[0])] + ParsedLines(lines[1..])
  }

  function AllDirectives(ps: seq<Parsed>, n: nat): seq<Directive>
    requires n <= |ps|
  {
    if n == 0 then [] else AllDirectives(ps, n - 1) + ps[n - 1].directives
  }

  function AllText(ps: seq<Parsed>, n: nat): seq<string>
    requires n <= |ps|
  {
    if n == 0 then [] else AllText(ps, n - 1) + ps[n - 1].text
  }

  function Gathered(ps: seq<Parsed>): Turn {
    var text := AllText(ps, |ps|);
    Turn(AllDirectives(ps, |ps|), if text == [] then None else Some(Joined(text, '\n')))
  }

  function TurnOf(raw: string): Turn {
    Gathered(ParsedLines(Split(Strip(raw), '\n')))
  }

  // ---------------------------------------------------------------------------
  // The parser's loops, proved against the functions
  // ---------------------------------------------------------------------------

  method ExpandInlineChatMentions(raw: string) returns (r: Option<seq<Directive>>)
    ensures r == Expanded(raw)
  {
    if FindCmd(raw, 0) < |raw| {
      return None;
    }
    var matches := Mentions(raw, 0);
    if |matches| <= 1 {
      return None;
    }
    MentionsMark(raw, 0);
    var out := OneDirectiveEach(raw, matches);
    return Some(out);
  }

  method OneDirectiveEach(raw: string, matches: seq<nat>) returns (out: seq<Directive>)
    requires Marks(raw, matches)
    ensures out == ExpandedFrom(raw, matches, |matches|)
  {
    out := [];
    for i := 0 to |matches|
      invariant out == ExpandedFrom(raw, matches, i)
    {
      var start := RunEnd(raw, matches[i] + 1, WordChars);
      var end := if i + 1 < |matches| then matches[i + 1] else |raw|;
      PieceDirective(raw, matches, i, start, end);
      out := out + [Directive(Some(Slug(raw, matches[i])), "", Words(Strip(raw[start..end])), None, Strip(raw[matches[i]..end]))];
    }
  }

  method KeepLastRef(s: string) returns (contentRef: Option<ContentRef>)
    ensures contentRef == LastRef(s, 0, None)
  {
    contentRef := None;
    var i := 0;
    while FindRef(s, i) < |s|
      invariant i <= |s| && (contentRef.Some? ==> Canonical(contentRef.value.scope))
      invariant LastRef(s, i, contentRef) == LastRef(s, 0, None)
      decreases |s| - i
    {
      var m := FindRef(s, i);
      contentRef := Some(RefFound(s, m));
      i := RefEnd(s, m);
    }
  }

  method ParseCommand(target: Option<string>, cmd: string, text: string, line: string) returns (r: Directive)
    ensures r == CommandOf(target, cmd, text, line)
  {
    var remaining := text;
    var contentRef := KeepLastRef(remaining);
    if contentRef.Some? {
      remaining := Strip(WithoutRefs(remaining, 0));
    }
    return Directive(target, "/" + cmd, Words(remaining), contentRef, line);
  }

  method ParseDirective(line: string) returns (r: Option<Directive>)
    ensures r == DirectiveOf(line)
  {
    var target, remaining := None, line;
    if TargetAt(line) {
      target := Some(Slug(line, 0));
      remaining := line[RunEnd(line, RunEnd(line, 1, WordChars), Spaces)..];
    }
    var k := FindCmd(remaining, 0);
    if k == |remaining| {
      if target.Some? {
        return Some(Directive(target, "", Words(remaining), None, line));
      }
      return None;
    }
    var e := RunEnd(remaining, k + 1, CmdChars);
    var d := ParseCommand(target, remaining[k + 1..e], remaining[..k] + remaining[e..], line);
    return Some(d);
  }

  method ParseLine(line: string) returns (directives: seq<Directive>, text: seq<string>)
    ensures Parsed(directives, text) == ParsedLine(line)
  {
    var stripped := Strip(line);
    if stripped == "" {
      return [], [];
    }
    var expanded := ExpandInlineChatMentions(stripped);
    if expanded.Some? {
      return expanded.value, [];
    }
    var result := ParseDirective(stripped);
    if result.Some? {
      return [result.value], [];
    }
    return [], [stripped];
  }

  method ParseTurn(raw: string) returns (turn: Turn)
    ensures turn == TurnOf(raw)
  {
    var lines := Split(Strip(raw), '\n');
    ghost var ps := ParsedLines(lines);
    var directives: seq<Directive>, generalParts: seq<string> := [], [];
    for i := 0 to |lines|
      invariant directives == AllDirectives(ps, i) && generalParts == AllText(ps, i)
    {
      var ds, text := ParseLine(lines[i]);
      directives, generalParts := directives + ds, generalParts + text;
    }
    return Turn(directives, if generalParts == [] then None else Some(Joined(generalParts, '\n')));
  }
}

/** Command lines in full generality: words and references in any order on either side of the
    command, with any white space between them. */
module SlashCommand {
  import opened Prelude
  import opened Text
  import opened SlashParser
  import opened SlashPrinter

  /** A stretch of a command line: white space, a word, or a content reference. */
  datatype Piece = Gap(blanks: string) | Arg(word: string) | At(ref: Ref)

  function PieceText(p: Piece): string {
    match p
    case Gap(blanks) => blanks
    case Arg(word) => word
    case At(ref) => RefText(ref)
  }

  function Spelled(ps: seq<Piece>): string {
    if ps == [] then "" else PieceText(ps[0]) + Spelled(ps[1..])
  }

  /** Words without a reference in them, and references, with white space between any two. */
  predicate Loose(ps: seq<Piece>) {
    ps != [] ==>
      && Loose(ps[1..])
      && match ps[0]
         case Gap(blanks) => blanks != "" && Every(blanks, Spaces)
         case Arg(word) => Token(word) && NoRefs([word]) && Ends(ps[1..])
         case At(ref) => WellFormedRef(ref) && Ends(ps[1..])
  }

  /** Nothing more, or white space first. */
  predicate Ends(ps: seq<Piece>) {
    ps == [] || (ps[0].Gap? && ps[0].blanks != "" && Space(ps[0].blanks[0]))
  }

  function ArgsOf(ps: seq<Piece>): seq<string> {
    if ps == [] then [] else (if ps[0].Arg? then [ps[0].word] else []) + ArgsOf(ps[1..])
  }

  /** What a reference refers to: memory is of an instance, every other scope of the hub. */
  function Referred(r: Ref): ContentRef {
    ContentRef(if r.scope in ["instance", "memory"] then "instance" else "hub", r.path)
  }

  /** The last reference, if there is one. */
  function LastOf(ps: seq<Piece>): Option<ContentRef> {
    if ps == [] then None
    else if LastOf(ps[1..]).Some? then LastOf(ps[1..])
    else if ps[0].At? then Some(Referred(ps[0].ref))
    else None
  }

  // ---------------------------------------------------------------------------
  // The scans, piece by piece
  // ---------------------------------------------------------------------------

  lemma PlainStep(s: string, i: nat, m: nat, found: Option<ContentRef>)
    requires i <= m <= |s| && (found.Some? ==> Canonical(found.value.scope))
    requires forall j :: i <= j < m ==> !RefAt(s, j)
    ensures LastRef(s, i, found) == LastRef(s, m, found)
    ensures WithoutRefs(s, i) == s[i..m] + WithoutRefs(s, m)
  {
    hide RefAt, Canonical, RefEnd, RefFound;
    FindSkips(s, i, m);
    assert LastRef(s, i, found) == LastRef(s, m, found);
    var k := FindRef(s, m);
    if k == |s| {
      assert s[i..] == s[i..m] + s[m..];
    } else {
      Cut3(s, i, m, k, WithoutRefs(s, RefEnd(s, k)));
    }
  }

  lemma Cut3(s: string, i: nat, m: nat, k: nat, rest: string)
    requires i <= m <= k <= |s|
    ensures s[i..k] + rest == s[i..m] + (s[m..k] + rest)
  {
  }

  lemma {:induction false} FindSkips(s: string, i: nat, m: nat)
    requires i <= m <= |s| && forall j :: i <= j < m ==> !RefAt(s, j)
    ensures FindRef(s, i) == FindRef(s, m)
    decreases m - i
  {
    hide RefAt;
    if i < m {
      FindSkips(s, i + 1, m);
    }
  }

  lemma RefStep(s: string, i: nat, found: Option<ContentRef>)
    requires i < |s| && RefAt(s, i) && (found.Some? ==> Canonical(found.value.scope))
    ensures LastRef(s, i, found) == LastRef(s, RefEnd(s, i), Some(RefFound(s, i)))
    ensures WithoutRefs(s, i) == WithoutRefs(s, RefEnd(s, i))
  {
    assert FindRef(s, i) == i;
    assert s[i..i] == "";
  }

  lemma ScopeMeaning(r: Ref)
    requires r.scope in Scopes
    ensures ContentRef(NormalizeScope(r.scope), r.path) == Referred(r) && Canonical(Referred(r).scope)
  {
  }

  lemma ScopeInText(p: string, scope: string, rest: string)
    requires scope in Scopes
    ensures var s, k := p + ("@" + scope) + rest, |p|;
            k < |s| && RefAt(s, k) && ScopeAt(s, k + 1) == scope
  {
    hide ScopeAt;
    var s, k := p + ("@" + scope) + rest, |p|;
    ScopeNoSpace(scope);
    assert s[k] == '@' && s[k + 1..k + 1 + |scope|] == scope;
    ScopeFound(s, k + 1, scope);
  }

  lemma PathInText(s: string, e: nat, q: string, rest: string)
    requires e < |s| && s[e] == ':' && s[e + 1..] == q + rest && Token(q) && (rest == "" || Space(rest[0]))
    ensures e + 1 < |s| && !Space(s[e + 1]) && RunEnd(s, e + 1, NonSpaces) == e + 1 + |q| <= |s| && s[e + 1..e + 1 + |q|] == q
  {
    var m := e + 1 + |q|;
    forall x | e + 1 <= x < |s| ensures s[x] == (q + rest)[x - e - 1] {
      assert s[x] == s[e + 1..][x - e - 1];
    }
    assert Is(q[0], NonSpaces);
    forall x | e + 1 <= x < m ensures Is(s[x], NonSpaces) {
      assert Is(q[x - e - 1], NonSpaces);
    }
    RunEndIs(s, e + 1, NonSpaces, m);
    assert s[e + 1..m] == s[e + 1..][..|q|] == q;
  }

  lemma AloneEnds(s: string, k: nat)
    requires RefAt(s, k)
    requires var e := k + 1 + |ScopeAt(s, k + 1)|; e >= |s| || Space(s[e])
    ensures RefEnd(s, k) == k + 1 + |ScopeAt(s, k + 1)|
    ensures RefFound(s, k) == ContentRef(NormalizeScope(ScopeAt(s, k + 1)), None)
  {
    hide NormalizeScope, ScopeAt;
  }

  lemma PathEnds(s: string, k: nat, q: string, rest: string)
    requires RefAt(s, k) && Token(q) && (rest == "" || Space(rest[0]))
    requires var e := k + 1 + |ScopeAt(s, k + 1)|; e < |s| && s[e] == ':' && s[e + 1..] == q + rest
    ensures RefEnd(s, k) == k + 2 + |ScopeAt(s, k + 1)| + |q|
    ensures RefFound(s, k) == ContentRef(NormalizeScope(ScopeAt(s, k + 1)), Some(q))
  {
    hide NormalizeScope, ScopeAt, Token;
    PathInText(s, k + 1 + |ScopeAt(s, k + 1)|, q, rest);
  }

  lemma AloneInText(p: string, scope: string, rest: string)
    requires scope in Scopes && (rest == "" || Space(rest[0]))
    ensures var s, k := p + ("@" + scope) + rest, |p|;
      && k < |s| && RefAt(s, k) && RefEnd(s, k) == k + 1 + |scope|
      && RefFound(s, k) == ContentRef(NormalizeScope(scope), None)
  {
    hide NormalizeScope, ScopeAt, RefAt, RefEnd, RefFound, Space;
    ScopeInText(p, scope, rest);
    var s, e := p + ("@" + scope) + rest, |p| + 1 + |scope|;
    assert s[e..] == rest && (e < |s| ==> s[e] == s[e..][0]);
    AloneEnds(s, |p|);
  }

  lemma PathedInText(p: string, scope: string, q: string, rest: string)
    requires scope in Scopes && Token(q) && (rest == "" || Space(rest[0]))
    ensures var s, k := p + ("@" + scope) + (":" + q + rest), |p|;
      && k < |s| && RefAt(s, k) && RefEnd(s, k) == k + 2 + |scope| + |q|
      && RefFound(s, k) == ContentRef(NormalizeScope(scope), Some(q))
  {
    hide NormalizeScope, ScopeAt, RefAt, RefEnd, RefFound, Space, Token;
    ScopeInText(p, scope, ":" + q + rest);
    var s, e := p + ("@" + scope) + (":" + q + rest), |p| + 1 + |scope|;
    assert s[e..] == ":" + q + rest;
    assert s[e] == s[e..][0] && s[e + 1..] == s[e..][1..];
    assert (":" + q + rest)[1..] == q + rest;
    PathEnds(s, |p|, q, rest);
  }

  /** A printed reference, followed by white space or nothing. */
  lemma RefInText(p: string, r: Ref, rest: string)
    requires WellFormedRef(r) && (rest == "" || Space(rest[0]))
    ensures var s, k := p + RefText(r) + rest, |p|;
            k < |s| && RefAt(s, k) && RefEnd(s, k) == k + |RefText(r)| && RefFound(s, k) == Referred(r)
  {
    hide NormalizeScope, ScopeAt, Referred, Canonical, Token, RefAt, RefEnd, RefFound, Space;
    ScopeMeaning(r);
    if r.path.Some? {
      PathedInText(p, r.scope, r.path.value, rest);
      RefSpelled(p, r, rest);
    } else {
      AloneInText(p, r.scope, rest);
      assert RefText(r) == "@" + r.scope;
    }
  }

  lemma RefSpelled(p: string, r: Ref, rest: string)
    requires r.path.Some?
    ensures p + RefText(r) + rest == p + ("@" + r.scope) + (":" + r.path.value + rest)
    ensures |RefText(r)| == 2 + |r.scope| + |r.path.value|
  {
  }

  lemma GapHasNoRef(s: string, i: nat, m: nat)
    requires i <= m <= |s| && Every(s[i..m], Spaces)
    ensures forall j :: i <= j < m ==> !RefAt(s, j)
  {
    forall j | i <= j < m ensures !RefAt(s, j) {
      assert s[j] == s[i..m][j - i] && Is(s[i..m][j - i], Spaces);
    }
  }

  lemma WordHasNoRef(s: string, i: nat, a: string)
    requires i + |a| <= |s| && s[i..i + |a|] == a && (i + |a| < |s| ==> Space(s[i + |a|])) && NoRefs([a])
    ensures forall j :: i <= j < i + |a| ==> !RefAt(s, j)
  {
    forall j | i <= j < i + |a| ensures !RefAt(s, j) {
      assert [a][0] == a && !RefAt([a][0], j - i);
      if RefAt(s, j) {
        RefInWord(s, i, a, j - i);
      }
    }
  }

  lemma {:induction false} WordsGap(g: string, rest: string)
    requires Every(g, Spaces)
    ensures Words(g + rest) == Words(rest)
  {
    if g == "" {
      assert g + rest == rest;
    } else {
      assert Is(g[0], Spaces);
      assert (g + rest)[1..] == g[1..] + rest;
      WordsGap(g[1..], rest);
    }
  }

  /** What the text up to the end of s says from the position of p on. */
  ghost predicate Scanned(s: string, i: nat, ps: seq<Piece>, found: Option<ContentRef>)
    requires i <= |s| && (found.Some? ==> Canonical(found.value.scope))
  {
    && LastRef(s, i, found) == (if LastOf(ps).Some? then LastOf(ps) else found)
    && Words(WithoutRefs(s, i)) == ArgsOf(ps)
    && (Ends(ps) ==> WithoutRefs(s, i) == "" || Space(WithoutRefs(s, i)[0]))
  }

  lemma LooseFacts(ps: seq<Piece>)
    requires Loose(ps) && ps != []
    ensures Loose(ps[1..])
    ensures match ps[0]
      case Gap(blanks) => blanks != "" && Every(blanks, Spaces)
      case Arg(word) => Token(word) && NoRefs([word]) && Ends(ps[1..])
      case At(ref) => WellFormedRef(ref) && Ends(ps[1..])
    ensures !ps[0].Gap? ==> Spelled(ps[1..]) == "" || Space(Spelled(ps[1..])[0])
  {
  }

  lemma GapScanned(s: string, i: nat, m: nat, ps: seq<Piece>, found: Option<ContentRef>)
    requires i < m <= |s| && ps != [] && ps[0] == Gap(s[i..m]) && Every(s[i..m], Spaces)
    requires found.Some? ==> Canonical(found.value.scope)
    requires Scanned(s, m, ps[1..], found)
    ensures Scanned(s, i, ps, found)
  {
    hide RefAt;
    GapHasNoRef(s, i, m);
    PlainStep(s, i, m, found);
    WordsGap(s[i..m], WithoutRefs(s, m));
    assert Is(s[i..m][0], Spaces);
  }

  lemma NotBlankFirst(ps: seq<Piece>)
    requires ps != [] && !ps[0].Gap?
    ensures !Ends(ps)
  {
  }

  lemma ArgScanned(s: string, i: nat, m: nat, ps: seq<Piece>, found: Option<ContentRef>)
    requires i < m <= |s| && ps != [] && ps[0] == Arg(s[i..m]) && Token(s[i..m]) && NoRefs([s[i..m]])
    requires (m < |s| ==> Space(s[m])) && Ends(ps[1..])
    requires found.Some? ==> Canonical(found.value.scope)
    requires Scanned(s, m, ps[1..], found)
    ensures Scanned(s, i, ps, found)
  {
    hide RefAt, Token, NoRefs, LastRef, WithoutRefs, Words, Canonical, Ends;
    WordHasNoRef(s, i, s[i..m]);
    PlainStep(s, i, m, found);
    WordsToken(s[i..m], WithoutRefs(s, m));
    NotBlankFirst(ps);
  }

  lemma RefScanned(s: string, i: nat, m: nat, ps: seq<Piece>, found: Option<ContentRef>)
    requires i < m <= |s| && ps != [] && ps[0].At? && Canonical(Referred(ps[0].ref).scope)
    requires RefAt(s, i) && RefEnd(s, i) == m && RefFound(s, i) == Referred(ps[0].ref)
    requires found.Some? ==> Canonical(found.value.scope)
    requires Scanned(s, m, ps[1..], Some(Referred(ps[0].ref)))
    ensures Scanned(s, i, ps, found)
  {
    hide RefAt, Referred;
    RefStep(s, i, found);
  }

  lemma {:induction false} AllScanned(p: string, ps: seq<Piece>, found: Option<ContentRef>)
    requires Loose(ps) && (found.Some? ==> Canonical(found.value.scope))
    ensures Scanned(p + Spelled(ps), |p|, ps, found)
    decreases |ps|
  {
    hide Loose, Scanned, Token, NoRefs, WellFormedRef, RefText, RefAt, RefEnd, RefFound, Referred, Canonical;
    var s := p + Spelled(ps);
    if ps == [] {
      NothingScanned(s, found);
    } else {
      LooseFacts(ps);
      var a, rest := PieceText(ps[0]), Spelled(ps[1..]);
      var m := |p| + |a|;
      assert s == p + a + rest && s[|p|..m] == a;
      match ps[0] {
        case Gap(_) =>
          AllScanned(p + a, ps[1..], found);
          GapScanned(s, |p|, m, ps, found);
        case Arg(_) =>
          AllScanned(p + a, ps[1..], found);
          TokenNotEmpty(a);
          ArgScanned(s, |p|, m, ps, found);
        case At(ref) =>
          RefInText(p, ref, rest);
          KnownScope(ref);
          AllScanned(p + a, ps[1..], Some(Referred(ref)));
          RefScanned(s, |p|, m, ps, found);
      }
    }
  }

  lemma TokenNotEmpty(a: string)
    requires Token(a)
    ensures a != ""
  {
  }

  lemma KnownScope(r: Ref)
    requires WellFormedRef(r)
    ensures Canonical(Referred(r).scope)
  {
  }

  lemma NothingScanned(s: string, found: Option<ContentRef>)
    requires found.Some? ==> Canonical(found.value.scope)
    ensures Scanned(s, |s|, [], found)
  {
    assert FindRef(s, |s|) == |s| && s[|s|..] == "";
  }

  // ---------------------------------------------------------------------------
  // The command
  // ---------------------------------------------------------------------------

  lemma PiecesMeaning(target: Option<string>, cmd: string, ps: seq<Piece>, line: string)
    requires Loose(ps)
    ensures CommandOf(target, cmd, Spelled(ps), line) == Directive(target, "/" + cmd, ArgsOf(ps), LastOf(ps), line)
  {
    hide Loose, LastOf, ArgsOf;
    var t := Spelled(ps);
    AllScanned("", ps, None);
    assert "" + t == t;
    WordsStrip(WithoutRefs(t, 0));
    if LastRef(t, 0, None).None? {
      NoRefsLeft(t);
    }
  }

  lemma NoRefsLeft(t: string)
    requires LastRef(t, 0, None).None?
    ensures WithoutRefs(t, 0) == t
  {
    var k := FindRef(t, 0);
    if k < |t| {
      LastRefStays(t, RefEnd(t, k), Some(RefFound(t, k)));
    }
  }

  lemma {:induction false} LastRefStays(t: string, i: nat, found: Option<ContentRef>)
    requires i <= |t| && found.Some? && Canonical(found.value.scope)
    ensures LastRef(t, i, found).Some?
    decreases |t| - i
  {
    var k := FindRef(t, i);
    if k < |t| {
      LastRefStays(t, RefEnd(t, k), Some(RefFound(t, k)));
    }
  }

  lemma {:induction false} SpelledConcat(a: seq<Piece>, b: seq<Piece>)
    ensures Spelled(a + b) == Spelled(a) + Spelled(b)
  {
    if a == [] {
      assert a + b == b;
    } else {
      assert (a + b)[1..] == a[1..] + b;
      SpelledConcat(a[1..], b);
    }
  }

  /** The first command token of a text, and what is left around it. */
  lemma CommandInside(before: string, cmd: string, after: string)
    requires CmdName(cmd) && (after == "" || Space(after[0])) && forall j :: 0 <= j < |before| ==> !CmdAt(before, j)
    ensures var body, e := before + "/" + cmd + after, |before| + 1 + |cmd|;
      && FindCmd(body, 0) == |before| && RunEnd(body, |before| + 1, CmdChars) == e
      && body[|before| + 1..e] == cmd && body[..|before|] + body[e..] == before + after
  {
    hide FindCmd, CmdAt;
    CommandChars(before, cmd, after);
    var body, n := before + "/" + cmd + after, |before|;
    RunEndIs(body, n + 1, CmdChars, n + 1 + |cmd|);
    FirstCmd(body, n);
  }

  lemma CommandChars(before: string, cmd: string, after: string)
    requires CmdName(cmd) && (after == "" || Space(after[0])) && forall j :: 0 <= j < |before| ==> !CmdAt(before, j)
    ensures var body, n := before + "/" + cmd + after, |before|;
      && (forall k :: n + 1 <= k < n + 1 + |cmd| ==> Is(body[k], CmdChars))
      && (n + 1 + |cmd| < |body| ==> !Is(body[n + 1 + |cmd|], CmdChars))
      && CmdAt(body, n) && (forall j :: 0 <= j < n ==> !CmdAt(body, j))
      && body[n + 1..n + 1 + |cmd|] == cmd && body[..n] + body[n + 1 + |cmd|..] == before + after
  {
    var body, n := before + "/" + cmd + after, |before|;
    assert body == before + (["/"[0]] + cmd + after);
    forall k | n + 1 <= k < n + 1 + |cmd| ensures Is(body[k], CmdChars) {
      assert body[k] == cmd[k - n - 1] && Is(cmd[k - n - 1], CmdChars);
    }
    assert body[n] == '/' && body[n + 1] == cmd[0];
    forall j | 0 <= j < n ensures !CmdAt(body, j) {
      assert body[j] == before[j] && (j + 1 < n ==> body[j + 1] == before[j + 1]);
      assert !CmdAt(before, j);
    }
    assert body[..n] == before && body[n + 1 + |cmd|..] == after;
  }

  lemma FirstCmd(body: string, n: nat)
    requires CmdAt(body, n) && forall j :: 0 <= j < n ==> !CmdAt(body, j)
    ensures FindCmd(body, 0) == n
  {
  }

  /** A target, the white space after it, and a text that does not start with any. */
  lemma TargetTaken(slug: string, gap: string, body: string)
    requires SlugText(slug) && gap != "" && Every(gap, Spaces) && body != "" && !Space(body[0])
    ensures var line := "@" + slug + gap + body;
            TargetAt(line) && Slug(line, 0) == slug && AfterTarget(line) == body
  {
    hide Every, SlugText, Slug, AtToken;
    var line, e, m := "@" + slug + gap + body, 1 + |slug|, 1 + |slug| + |gap|;
    assert line == "@" + slug + (gap + body);
    GapFirst(gap);
    SlugRun(slug, gap + body);
    GapRun("@" + slug, gap, body);
    assert line[m..] == body;
  }

  lemma GapFirst(gap: string)
    requires gap != "" && Every(gap, Spaces)
    ensures Space(gap[0]) && !Word(gap[0])
  {
    assert Is(gap[0], Spaces);
  }

  lemma GapRun(p: string, gap: string, rest: string)
    requires Every(gap, Spaces) && (rest != "" ==> !Space(rest[0]))
    ensures RunEnd(p + gap + rest, |p|, Spaces) == |p| + |gap|
  {
    var s := p + gap + rest;
    forall k | |p| <= k < |p| + |gap| ensures Is(s[k], Spaces) {
      assert s[k] == gap[k - |p|] && Is(gap[k - |p|], Spaces);
    }
    RunEndIs(s, |p|, Spaces, |p| + |gap|);
  }

  /** A command line: an optional target with white space after it, pieces, the command, pieces. */
  datatype Typed = Typed(target: Option<string>, gap: string, before: seq<Piece>, cmd: string, after: seq<Piece>)

  function Body(t: Typed): string {
    Spelled(t.before) + "/" + t.cmd + Spelled(t.after)
  }

  function LineText(t: Typed): string {
    if t.target.Some? then "@" + t.target.value + t.gap + Body(t) else Body(t)
  }

  /** The command is the first on the line and ends where its name ends; without a target the line
      does not start like one. */
  predicate WellTyped(t: Typed) {
    && CmdName(t.cmd) && Loose(t.before + t.after) && Ends(t.after) && Trim(LineText(t))
    && (forall j :: 0 <= j < |Spelled(t.before)| ==> !CmdAt(Spelled(t.before), j))
    && (if t.target.Some? then SlugText(t.target.value) && t.gap != "" && Every(t.gap, Spaces) && !Space(Body(t)[0])
        else !TargetAt(Body(t)))
  }

  lemma TypedTarget(t: Typed)
    requires WellTyped(t)
    ensures var line := LineText(t);
      && AfterTarget(line) == Body(t) && (TargetAt(line) <==> t.target.Some?)
      && (t.target.Some? ==> TargetAt(line) && Slug(line, 0) == t.target.value)
  {
    hide Loose, Spelled, TargetAt, CmdName;
    if t.target.Some? {
      TargetTaken(t.target.value, t.gap, Body(t));
    }
  }

  lemma EndsSpelled(ps: seq<Piece>)
    requires Ends(ps)
    ensures Spelled(ps) == "" || Space(Spelled(ps)[0])
  {
  }

  lemma TypedDirective(t: Typed)
    requires WellTyped(t)
    ensures DirectiveOf(LineText(t))
            == Some(Directive(t.target, "/" + t.cmd, ArgsOf(t.before + t.after), LastOf(t.before + t.after), LineText(t)))
  {
    hide Loose, Spelled, TargetAt, CmdName, CommandOf, ArgsOf, LastOf, Slug, AfterTarget, Trim;
    var line, rest := LineText(t), Body(t);
    TypedTarget(t);
    EndsSpelled(t.after);
    CommandInside(Spelled(t.before), t.cmd, Spelled(t.after));
    SpelledConcat(t.before, t.after);
    PiecesMeaning(t.target, t.cmd, t.before + t.after, line);
  }

  lemma CommandSeen(t: Typed)
    requires WellTyped(t)
    ensures FindCmd(LineText(t), 0) < |LineText(t)|
  {
    hide Loose, Spelled, Trim;
    var line, n := LineText(t), |LineText(t)| - |Body(t)| + |Spelled(t.before)|;
    assert line[n] == '/' && line[n + 1] == t.cmd[0];
    assert CmdAt(line, n);
  }

  /** Wherever the command stands among its arguments and references, and whatever white space
      is between them: the arguments are the words on both sides, in order, and the reference
      is the last one on the line. */
  lemma CommandLineParsed(t: Typed)
    requires WellTyped(t)
    ensures ParsedLine(LineText(t))
            == Parsed([Directive(t.target, "/" + t.cmd, ArgsOf(t.before + t.after), LastOf(t.before + t.after), LineText(t))], [])
  {
    hide WellTyped, DirectiveOf, LineText, ArgsOf, LastOf, Trim, Strip;
    assert Trim(LineText(t)) && LineText(t) != "" by { TypedTrim(t); }
    TrimStrip(LineText(t));
    TypedDirective(t);
    CommandSeen(t);
  }

  lemma TypedTrim(t: Typed)
    requires WellTyped(t)
    ensures Trim(LineText(t)) && LineText(t) != ""
  {
  }
}

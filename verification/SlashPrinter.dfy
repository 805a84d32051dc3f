/** A printer for the slash protocol, and the proof that parsing undoes printing. */
module SlashPrinter {
  import opened Prelude
  import opened Text
  import opened SlashParser

  datatype Ref = Ref(scope: string, path: Option<string>)

  datatype Line =
    | Command(target: Option<string>, cmd: string, args: seq<string>, ref: Option<Ref>)
    | Chat(slug: string, words: seq<string>)

  function RefText(r: Ref): string {
    "@" + r.scope + if r.path.Some? then ":" + r.path.value else ""
  }

  /** What follows the command name. */
  function Tail(args: seq<string>, ref: Option<Ref>): string {
    Spaced(args) + if ref.Some? then " " + RefText(ref.value) else ""
  }

  function Print(l: Line): string {
    match l
    case Command(target, cmd, args, ref) =>
      (if target.Some? then "@" + target.value + " " else "") + ("/" + cmd + Tail(args, ref))
    case Chat(slug, words) => "@" + slug + Spaced(words)
  }

  function RefMeaning(ref: Option<Ref>): Option<ContentRef> {
    if ref.Some? then Some(ContentRef(NormalizeScope(ref.value.scope), ref.value.path)) else None
  }

  function Meaning(l: Line): Directive {
    match l
    case Command(target, cmd, args, ref) => Directive(target, "/" + cmd, args, RefMeaning(ref), Print(l))
    case Chat(slug, words) => Directive(Some(slug), "", words, None, Print(l))
  }

  predicate SlugText(t: string) {
    t != "" && Every(t, WordChars)
  }

  predicate CmdName(c: string) {
    c != "" && Lower(c[0]) && Every(c, CmdChars)
  }

  predicate Tokens(args: seq<string>) {
    forall i :: 0 <= i < |args| ==> Token(args[i])
  }

  /** No word contains a content reference. */
  predicate NoRefs(args: seq<string>) {
    forall i, j :: 0 <= i < |args| && 0 <= j < |args[i]| ==> !RefAt(args[i], j)
  }

  /** No word contains a command token. */
  predicate NoCmds(args: seq<string>) {
    forall i, j :: 0 <= i < |args| && 0 <= j < |args[i]| ==> !CmdAt(args[i], j)
  }

  /** No word is itself a chat mention. */
  predicate NoMentions(args: seq<string>) {
    forall i :: 0 <= i < |args| ==> !Mention(args[i], 0)
  }

  predicate WellFormedRef(r: Ref) {
    r.scope in Scopes && (r.path.Some? ==> Token(r.path.value))
  }

  predicate WellFormed(l: Line) {
    match l
    case Command(target, cmd, args, ref) =>
      (target.Some? ==> SlugText(target.value)) && CmdName(cmd) && Tokens(args) && NoRefs(args)
      && (ref.Some? ==> WellFormedRef(ref.value))
    case Chat(slug, words) => SlugText(slug) && Tokens(words) && NoCmds(words) && NoMentions(words)
  }

  function Printed(ls: seq<Line>): seq<string> {
    seq(|ls|, i requires 0 <= i < |ls| => Print(ls[i]))
  }

  function Meanings(ls: seq<Line>): seq<Directive> {
    seq(|ls|, i requires 0 <= i < |ls| => Meaning(ls[i]))
  }

  // ---------------------------------------------------------------------------
  // Scopes and references in printed text
  // ---------------------------------------------------------------------------

  predicate DistinctHeads(ws: seq<string>) {
    && (forall i :: 0 <= i < |ws| ==> ws[i] != "")
    && (forall i, j :: 0 <= i < j < |ws| ==> ws[i][0] != ws[j][0])
  }

  lemma {:induction false} FirstScopeFound(s: string, i: nat, ws: seq<string>, w: string)
    requires w in ws && PrefixAt(s, i, w) && DistinctHeads(ws)
    ensures FirstScope(s, i, ws) == w
  {
    if PrefixAt(s, i, ws[0]) {
      assert s[i] == s[i..i + |w|][0] && s[i] == s[i..i + |ws[0]|][0];
    } else {
      FirstScopeFound(s, i, ws[1..], w);
    }
  }

  lemma ScopeHeads()
    ensures DistinctHeads(Scopes)
  {
  }

  lemma ScopeFound(s: string, i: nat, w: string)
    requires w in Scopes && PrefixAt(s, i, w)
    ensures ScopeAt(s, i) == w
  {
    ScopeHeads();
    FirstScopeFound(s, i, Scopes, w);
  }

  lemma ScopeNoSpace(w: string)
    requires w in Scopes
    ensures |w| > 0 && Every(w, NonSpaces) && '\n' !in w
  {
  }

  lemma PrefixInWord(s: string, i: nat, a: string, j: nat, w: string)
    requires j <= |a| && i + |a| <= |s| && s[i..i + |a|] == a && (i + |a| < |s| ==> Space(s[i + |a|]))
    requires w != "" && Every(w, NonSpaces) && PrefixAt(s, i + j, w)
    ensures PrefixAt(a, j, w)
  {
    var e := i + j + |w|;
    forall x | i + j <= x < e ensures !Space(s[x]) {
      assert s[x] == s[i + j..e][x - i - j];
      assert Is(w[x - i - j], NonSpaces);
    }
    assert e <= i + |a|;
    SliceOfSlice(s, i, |a|, j, j + |w|);
  }

  /** A reference inside a word is a reference of the whole text at the same place. */
  lemma RefInWord(s: string, i: nat, a: string, j: nat)
    requires j < |a| && i + |a| <= |s| && s[i..i + |a|] == a && (i + |a| < |s| ==> Space(s[i + |a|]))
    requires RefAt(s, i + j)
    ensures RefAt(a, j)
  {
    var w := ScopeAt(s, i + j + 1);
    ScopeNoSpace(w);
    PrefixInWord(s, i, a, j + 1, w);
    assert a[j] == s[i..i + |a|][j] == s[i + j];
    ScopeFound(a, j + 1, w);
  }

  lemma RefShift(s: string, m: nat, j: nat, t: string)
    requires m <= j < |s| && t == s[m..] && RefAt(s, j)
    ensures RefAt(t, j - m)
  {
    var w := ScopeAt(s, j + 1);
    assert t[j - m + 1..j - m + 1 + |w|] == s[j + 1..j + 1 + |w|];
    ScopeFound(t, j - m + 1, w);
  }

  lemma NotARef(s: string, j: nat)
    requires j >= |s| || s[j] != '@'
    ensures !RefAt(s, j)
  {
  }

  lemma NoRefIn(args: seq<string>, i: nat, j: nat)
    requires NoRefs(args) && i < |args|
    ensures !RefAt(args[i], j)
  {
    if j >= |args[i]| {
      NotARef(args[i], j);
    }
  }

  lemma RestOfWords(args: seq<string>)
    requires Tokens(args) && NoRefs(args) && args != []
    ensures Tokens(args[1..]) && NoRefs(args[1..])
  {
    hide RefAt, Token;
  }

  lemma {:induction false} NoRefBefore(args: seq<string>, rest: string, j: nat)
    requires Tokens(args) && NoRefs(args) && (rest == "" || Space(rest[0]))
    requires j < |Spaced(args)|
    ensures !RefAt(Spaced(args) + rest, j)
  {
    hide RefAt, Tokens, NoRefs;
    var a, u, s := args[0], Spaced(args[1..]) + rest, Spaced(args) + rest;
    assert s == " " + a + u;
    var m := 1 + |a|;
    RestOfWords(args);
    if j == 0 {
      NotARef(s, j);
    } else if j < m {
      assert s[1..m] == a;
      NoRefIn(args, 0, j - 1);
      if RefAt(s, j) {
        RefInWord(s, 1, a, j - 1);
      }
    } else {
      NoRefBefore(args[1..], rest, j - m);
      assert u == s[m..];
      if RefAt(s, j) {
        RefShift(s, m, j, u);
      }
    }
  }

  /** The printed reference, seen by the scans. */
  lemma RefPrinted(p: string, r: Ref)
    requires WellFormedRef(r)
    ensures var s := p + RefText(r);
            RefAt(s, |p|) && RefEnd(s, |p|) == |s| && RefFound(s, |p|) == ContentRef(NormalizeScope(r.scope), r.path)
  {
    hide NormalizeScope, ScopeAt;
    var s, k := p + RefText(r), |p|;
    ScopeNoSpace(r.scope);
    assert s[k + 1..k + 1 + |r.scope|] == r.scope;
    ScopeFound(s, k + 1, r.scope);
    var e := k + 1 + |r.scope|;
    if r.path.Some? {
      assert s[e] == ':' && s[e + 1..] == r.path.value;
      TokenEnds(s, e + 1, r.path.value);
      assert s[PathStart(s, k)..|s|] == r.path.value;
    }
  }

  lemma TokenEnds(s: string, i: nat, a: string)
    requires i <= |s| && s[i..] == a && Token(a)
    ensures i < |s| && !Space(s[i]) && RunEnd(s, i, NonSpaces) == |s|
  {
    forall x | i <= x < |s| ensures Is(s[x], NonSpaces) {
      assert s[x] == s[i..][x - i];
      assert Is(a[x - i], NonSpaces);
    }
    RunEndIs(s, i, NonSpaces, |s|);
  }

  // ---------------------------------------------------------------------------
  // Stripping
  // ---------------------------------------------------------------------------

  lemma {:induction false} WordsSnocSpace(s: string, c: char)
    requires Space(c)
    ensures Words(s + [c]) == Words(s)
    decreases |s|
  {
    if s == "" {
      assert s + [c] == [c] && [c][1..] == "";
    } else if Space(s[0]) {
      WordsSnocSpace(s[1..], c);
      assert (s + [c])[1..] == s[1..] + [c];
    } else {
      var e := RunEnd(s, 0, NonSpaces);
      forall k | 0 <= k < e ensures Is((s + [c])[k], NonSpaces) {
        assert (s + [c])[k] == s[k];
      }
      RunEndIs(s + [c], 0, NonSpaces, e);
      assert (s + [c])[..e] == s[..e] && (s + [c])[e..] == s[e..] + [c];
      WordsSnocSpace(s[e..], c);
    }
  }

  lemma {:induction false} WordsStripRight(s: string)
    ensures Words(StripRight(s)) == Words(s)
  {
    if s != "" && Space(s[|s| - 1]) {
      WordsStripRight(s[..|s| - 1]);
      WordsSnocSpace(s[..|s| - 1], s[|s| - 1]);
      assert s == s[..|s| - 1] + [s[|s| - 1]];
    }
  }

  lemma {:induction false} WordsStripLeft(s: string)
    ensures Words(StripLeft(s)) == Words(s)
  {
    if s != "" && Space(s[0]) {
      WordsStripLeft(s[1..]);
    }
  }

  /** `strip()` before `split()` changes nothing. */
  lemma WordsStrip(s: string)
    ensures Words(Strip(s)) == Words(s)
  {
    WordsStripRight(StripLeft(s));
    WordsStripLeft(s);
  }

  lemma {:induction false} SpacedEnds(args: seq<string>)
    requires Tokens(args) && args != []
    ensures Spaced(args)[0] == ' ' && !Space(Spaced(args)[|Spaced(args)| - 1])
    ensures '\n' !in Spaced(args)
  {
    var a, rest := args[0], Spaced(args[1..]);
    assert Spaced(args) == " " + a + rest;
    assert forall c :: c in a ==> !Space(c);
    if args[1..] == [] {
      assert Spaced(args)[|Spaced(args)| - 1] == a[|a| - 1];
    } else {
      SpacedEnds(args[1..]);
      assert Spaced(args)[|Spaced(args)| - 1] == rest[|rest| - 1];
    }
  }

  // ---------------------------------------------------------------------------
  // Commands
  // ---------------------------------------------------------------------------

  lemma NoRefFound(t: string, i: nat)
    requires i <= |t| && forall j :: i <= j < |t| ==> !RefAt(t, j)
    ensures LastRef(t, i, None) == None
  {
    assert FindRef(t, i) == |t|;
  }

  lemma OneRefFound(t: string, k: nat)
    requires RefAt(t, k) && RefEnd(t, k) == |t| && forall j :: 0 <= j < k ==> !RefAt(t, j)
    ensures LastRef(t, 0, None) == Some(RefFound(t, k)) && WithoutRefs(t, 0) == t[..k]
  {
    assert FindRef(t, 0) == k;
    assert FindRef(t, |t|) == |t|;
    assert WithoutRefs(t, |t|) == "";
  }

  lemma TailParsed(target: Option<string>, cmd: string, args: seq<string>, ref: Option<Ref>, line: string)
    requires Tokens(args) && NoRefs(args) && (ref.Some? ==> WellFormedRef(ref.value))
    ensures CommandOf(target, cmd, Tail(args, ref), line) == Directive(target, "/" + cmd, args, RefMeaning(ref), line)
  {
    var t, n := Tail(args, ref), |Spaced(args)|;
    var rest := if ref.Some? then " " + RefText(ref.value) else "";
    forall j | 0 <= j < n ensures !RefAt(t, j) {
      NoRefBefore(args, rest, j);
    }
    if ref.None? {
      assert t == Spaced(args) + "";
      NoRefFound(t, 0);
      WordsSpaced(args, "");
    } else {
      var p := Spaced(args) + " ";
      assert t == p + RefText(ref.value) && t[n] == ' ';
      RefPrinted(p, ref.value);
      OneRefFound(t, |p|);
      assert t[..|p|] == p;
      WordsStrip(p);
      WordsSpaced(args, " ");
    }
  }

  lemma CommandFound(line: string, body: string, cmd: string, tail: string)
    requires AfterTarget(line) == body && CmdName(cmd) && (tail == "" || tail[0] == ' ') && body == "/" + cmd + tail
    ensures DirectiveOf(line) == Some(CommandOf(if TargetAt(line) then Some(Slug(line, 0)) else None, cmd, tail, line))
  {
    hide CommandOf, AfterTarget, TargetAt, Slug, CmdAt, CmdName;
    CommandBody(cmd, tail);
  }

  lemma CommandParsed(target: Option<string>, cmd: string, args: seq<string>, ref: Option<Ref>)
    requires WellFormed(Command(target, cmd, args, ref))
    ensures DirectiveOf(Print(Command(target, cmd, args, ref))) == Some(Meaning(Command(target, cmd, args, ref)))
    ensures FindCmd(Print(Command(target, cmd, args, ref)), 0) < |Print(Command(target, cmd, args, ref))|
  {
    hide CommandOf, NoRefs, Tokens, WellFormedRef, Slug, DirectiveOf, FindCmd, RefMeaning;
    var line, tail := Print(Command(target, cmd, args, ref)), Tail(args, ref);
    var body := "/" + cmd + tail;
    CommandStart(cmd, tail);
    TailParsed(target, cmd, args, ref, line);
    if target.Some? {
      assert line == "@" + target.value + " " + body;
      TargetParsed(target.value, body);
      CommandVisible("@" + target.value + " ", body);
    } else {
      assert line == body;
      CommandVisible("", body);
    }
    CommandFound(line, body, cmd, tail);
  }

  lemma CommandStart(cmd: string, tail: string)
    requires CmdName(cmd)
    ensures CmdAt("/" + cmd + tail, 0)
  {
  }

  lemma CommandVisible(p: string, body: string)
    requires CmdAt(body, 0)
    ensures FindCmd(p + body, 0) < |p + body|
  {
    assert CmdAt(p + body, |p|);
  }

  lemma CommandBody(cmd: string, tail: string)
    requires CmdName(cmd) && (tail == "" || tail[0] == ' ')
    ensures var body := "/" + cmd + tail;
            && CmdAt(body, 0) && FindCmd(body, 0) == 0 && RunEnd(body, 1, CmdChars) == 1 + |cmd|
            && body[1..1 + |cmd|] == cmd && body[..0] + body[1 + |cmd|..] == tail
  {
    var body := "/" + cmd + tail;
    forall k | 1 <= k < 1 + |cmd| ensures Is(body[k], CmdChars) {
      assert Is(cmd[k - 1], CmdChars);
    }
    RunEndIs(body, 1, CmdChars, 1 + |cmd|);
  }

  lemma TargetParsed(t: string, body: string)
    requires SlugText(t) && body != "" && !Space(body[0])
    ensures var line := "@" + t + " " + body;
            TargetAt(line) && Slug(line, 0) == t && AfterTarget(line) == body
  {
    var line, e := "@" + t + " " + body, 1 + |t|;
    SlugRun(t, " " + body);
    assert line == "@" + t + (" " + body);
    assert line[e] == ' ' && line[e + 1] == body[0];
    RunEndIs(line, e, Spaces, e + 1);
    assert line[e + 1..] == body;
  }

  lemma SlugRun(t: string, rest: string)
    requires SlugText(t) && (rest == "" || !Word(rest[0]))
    ensures var line := "@" + t + rest;
            AtToken(line, 0) && RunEnd(line, 1, WordChars) == 1 + |t| && Slug(line, 0) == t
  {
    var line := "@" + t + rest;
    forall k | 1 <= k < 1 + |t| ensures Is(line[k], WordChars) {
      assert line[k] == t[k - 1];
      assert Is(t[k - 1], WordChars);
    }
    RunEndIs(line, 1, WordChars, 1 + |t|);
    assert line[1..1 + |t|] == t;
  }

  // ---------------------------------------------------------------------------
  // Chat mentions
  // ---------------------------------------------------------------------------

  lemma {:induction false} NoCmdInside(args: seq<string>, j: nat)
    requires Tokens(args) && NoCmds(args) && j < |Spaced(args)|
    ensures !CmdAt(Spaced(args), j)
  {
    var a, u, s := args[0], Spaced(args[1..]), Spaced(args);
    assert s == " " + a + u;
    var m := 1 + |a|;
    if 1 <= j < m {
      assert s[j] == a[j - 1] && (j + 1 < m ==> s[j + 1] == a[j]);
      assert !CmdAt(a, j - 1);
    } else if j >= m {
      assert s[m..] == u && s[j] == u[j - m] && (j + 1 < |s| ==> s[j + 1] == u[j + 1 - m]);
      NoCmdInside(args[1..], j - m);
    }
  }

  lemma ChatNoCmd(slug: string, words: seq<string>)
    requires SlugText(slug) && Tokens(words) && NoCmds(words)
    ensures forall j :: 0 <= j <= |Print(Chat(slug, words))| ==> !CmdAt(Print(Chat(slug, words)), j)
  {
    var line, n := Print(Chat(slug, words)), 1 + |slug|;
    forall j | 0 <= j <= |line| ensures !CmdAt(line, j) {
      if 1 <= j < n {
        assert line[j] == slug[j - 1];
        assert Is(slug[j - 1], WordChars);
      } else if n <= j < |line| {
        assert line[j] == Spaced(words)[j - n] && (j + 1 < |line| ==> line[j + 1] == Spaced(words)[j + 1 - n]);
        NoCmdInside(words, j - n);
      }
    }
  }

  lemma ChatRest(slug: string, words: seq<string>)
    requires SlugText(slug) && Tokens(words)
    ensures var line, rest := Print(Chat(slug, words)), AfterTarget(Print(Chat(slug, words)));
            && TargetAt(line) && Slug(line, 0) == slug && Words(rest) == words
            && |rest| <= |line| && rest == line[|line| - |rest|..]
  {
    var line, s, e := Print(Chat(slug, words)), Spaced(words), 1 + |slug|;
    SlugRun(slug, s);
    WordsSpaced(words, "");
    assert s + "" == s;
    if words == [] {
      assert AfterTarget(line) == "";
    } else {
      assert line[e] == s[0] == ' ' && line[e + 1] == s[1] == words[0][0];
      RunEndIs(line, e, Spaces, e + 1);
      assert AfterTarget(line) == s[1..];
    }
  }

  lemma NoCmdAfter(line: string, d: nat)
    requires d <= |line| && forall j :: 0 <= j <= |line| ==> !CmdAt(line, j)
    ensures FindCmd(line[d..], 0) == |line[d..]|
  {
    var rest := line[d..];
    forall j | 0 <= j < |rest| ensures !CmdAt(rest, j) {
      assert !CmdAt(line, d + j);
    }
  }

  lemma ChatParsed(slug: string, words: seq<string>)
    requires WellFormed(Chat(slug, words))
    ensures DirectiveOf(Print(Chat(slug, words))) == Some(Meaning(Chat(slug, words)))
  {
    hide AfterTarget, TargetAt, CommandOf, SlugText, Tokens, NoCmds, NoMentions, Slug, CmdAt;
    var line := Print(Chat(slug, words));
    ChatRest(slug, words);
    ChatNoCmd(slug, words);
    NoCmdAfter(line, |line| - |AfterTarget(line)|);
  }

  /** Inside one printed chat line, only its first character starts a mention, wherever
      the line stands in the text and as long as white space or nothing follows it. */
  lemma MentionFree(s: string, off: nat, slug: string, words: seq<string>, j: nat)
    requires SlugText(slug) && Tokens(words) && NoMentions(words)
    requires StandsAt(s, off, Print(Chat(slug, words)), NonSpaces)
    requires off < j <= off + |Print(Chat(slug, words))| && j < |s|
    ensures !Mention(s, j)
  {
    hide Mention, NoMentions, StandsAt, Token, AtToken;
    var line, sp := Print(Chat(slug, words)), Spaced(words);
    var n, k := 1 + |slug|, j - off;
    assert line == ("@" + slug) + sp;
    assert StandsThere(s, off, line) by {
      StandsEnd(s, off, line);
    }
    CharsThere(s, off, line);
    if k < n {
      assert s[j] == line[k] == slug[k - 1] && Is(slug[k - 1], WordChars);
      NotAt(s, j);
    } else if k == |line| {
      NotAt(s, j);
    } else if s[j] == '@' && Space(s[j - 1]) {
      assert line[k] == sp[k - n];
      assert k > n && line[k - 1] == sp[k - 1 - n];
      MentionAtWord(s, off, line, words, n, j);
    } else {
      NotAt(s, j);
    }
  }

  lemma StandsEnd(s: string, off: nat, line: string)
    requires StandsAt(s, off, line, NonSpaces)
    ensures StandsThere(s, off, line)
  {
  }

  predicate StandsThere(s: string, off: nat, line: string) {
    off + |line| <= |s| && s[off..off + |line|] == line && (off + |line| < |s| ==> Space(s[off + |line|]))
  }

  lemma MentionAtWord(s: string, off: nat, line: string, words: seq<string>, n: nat, j: nat)
    requires Tokens(words) && NoMentions(words) && StandsThere(s, off, line)
    requires n <= |line| && line[n..] == Spaced(words) && off + n < j < off + |line|
    requires Space(Spaced(words)[j - off - n - 1]) && !Space(Spaced(words)[j - off - n])
    ensures !Mention(s, j)
  {
    hide Mention, NoMentions;
    var k := j - off;
    var i := SpacedStart(words, k - n);
    SliceOfSlice(s, off, |line|, k, |line|);
    assert line[k..] == line[n..][k - n..];
    NoMentionIn(words, i);
    if Mention(s, j) {
      WordMention(s, j, off + |line|, words, i);
    }
  }

  lemma CharsThere(s: string, off: nat, line: string)
    requires off + |line| <= |s| && s[off..off + |line|] == line
    ensures forall x :: off <= x < off + |line| ==> s[x] == line[x - off]
  {
    forall x | off <= x < off + |line| ensures s[x] == line[x - off] {
      assert s[x] == s[off..off + |line|][x - off];
    }
  }

  lemma NotAt(s: string, j: nat)
    requires 0 < j < |s| && (s[j] != '@' || !Space(s[j - 1]))
    ensures !Mention(s, j)
  {
  }

  lemma NoMentionIn(words: seq<string>, i: nat)
    requires NoMentions(words) && i < |words|
    ensures !Mention(words[i], 0)
  {
  }

  lemma StandsHere(s: string, j: nat, end: nat, a: string, rest: string)
    requires j < end <= |s| && (end < |s| ==> Space(s[end])) && s[j..end] == a + rest
    requires rest != "" ==> Space(rest[0])
    ensures StandsAt(s, j, a, WordChars)
  {
    assert s[j..j + |a|] == s[j..end][..|a|];
    if rest != "" {
      assert s[j + |a|] == s[j..end][|a|];
    }
  }

  lemma TokenInWord(s: string, j: nat, a: string)
    requires StandsAt(s, j, a, WordChars) && a != "" && AtToken(s, j)
    ensures AtToken(a, 0) && Slug(a, 0) == Slug(s, j)
  {
    RunEndInside(s, j, a, 1, WordChars);
    var e := RunEnd(a, 1, WordChars);
    assert e > 1;
    assert a[0] == s[j..j + |a|][0] && a[1] == s[j..j + |a|][1];
    SliceOfSlice(s, j, |a|, 1, e);
  }

  lemma WordMention(s: string, j: nat, end: nat, words: seq<string>, i: nat)
    requires i < |words| && Tokens(words) && j < end <= |s| && (end < |s| ==> Space(s[end]))
    requires s[j..end] == words[i] + Spaced(words[i + 1..])
    requires Mention(s, j)
    ensures Mention(words[i], 0)
  {
    StandsHere(s, j, end, words[i], Spaced(words[i + 1..]));
    TokenInWord(s, j, words[i]);
  }

  lemma {:induction false} MentionsSkip(s: string, i: nat, j: nat)
    requires i <= j <= |s| && (j < |s| ==> !Word(s[j]))
    requires forall k :: i <= k < j ==> !Mention(s, k)
    ensures Mentions(s, i) == Mentions(s, j)
    decreases j - i
  {
    if i < j {
      MentionsSkip(s, if AtToken(s, i) then RunEnd(s, i + 1, WordChars) else i + 1, j);
    }
  }

  lemma ChatSingle(slug: string, words: seq<string>)
    requires WellFormed(Chat(slug, words))
    ensures |Mentions(Print(Chat(slug, words)), 0)| <= 1
  {
    var line := Print(Chat(slug, words));
    var ms := Mentions(line, 0);
    if |ms| > 1 {
      MentionsMark(line, 0);
      assert line[0..0 + |line|] == line;
      assert 0 <= ms[0] < ms[1] && AtToken(line, ms[1]);
      MentionFree(line, 0, slug, words, ms[1]);
    }
  }

  // ---------------------------------------------------------------------------
  // Whole turns
  // ---------------------------------------------------------------------------

  lemma PrintTrim(l: Line)
    requires WellFormed(l)
    ensures Trim(Print(l)) && '\n' !in Print(l)
  {
    var line := Print(l);
    match l {
      case Chat(slug, words) =>
        assert forall c :: c in slug ==> Word(c);
        if words == [] {
          assert line[|line| - 1] == slug[|slug| - 1];
        } else {
          SpacedEnds(words);
          assert line[|line| - 1] == Spaced(words)[|Spaced(words)| - 1];
        }
      case Command(target, cmd, args, ref) =>
        TailTrim(cmd, args, ref);
        var body := "/" + cmd + Tail(args, ref);
        assert line[|line| - 1] == body[|body| - 1];
        if target.Some? {
          assert forall c :: c in target.value ==> Word(c);
        }
    }
  }

  lemma TailTrim(cmd: string, args: seq<string>, ref: Option<Ref>)
    requires CmdName(cmd) && Tokens(args) && (ref.Some? ==> WellFormedRef(ref.value))
    ensures Trim("/" + cmd + Tail(args, ref)) && '\n' !in "/" + cmd + Tail(args, ref)
  {
    var body := "/" + cmd + Tail(args, ref);
    assert forall c :: c in cmd ==> Is(c, CmdChars);
    if args != [] {
      SpacedEnds(args);
    }
    if ref.Some? {
      RefTrim(ref.value);
      assert body[|body| - 1] == RefText(ref.value)[|RefText(ref.value)| - 1];
    } else if args != [] {
      assert body[|body| - 1] == Spaced(args)[|Spaced(args)| - 1];
    } else {
      assert body[|body| - 1] == cmd[|cmd| - 1];
    }
  }

  lemma RefTrim(r: Ref)
    requires WellFormedRef(r)
    ensures !Space(RefText(r)[|RefText(r)| - 1]) && '\n' !in RefText(r)
  {
    ScopeNoSpace(r.scope);
    var t := RefText(r);
    if r.path.Some? {
      var p := r.path.value;
      assert forall c :: c in p ==> !Space(c);
      assert t[|t| - 1] == p[|p| - 1];
    } else {
      assert t[|t| - 1] == r.scope[|r.scope| - 1];
      assert Is(r.scope[|r.scope| - 1], NonSpaces);
    }
  }

  lemma LineParsed(l: Line)
    requires WellFormed(l)
    ensures ParsedLine(Print(l)) == Parsed([Meaning(l)], [])
  {
    hide DirectiveOf, FindCmd, Mentions, WellFormed, Print, Meaning, Trim, Strip;
    PrintTrim(l);
    TrimStrip(Print(l));
    match l {
      case Command(target, cmd, args, ref) => CommandParsed(target, cmd, args, ref);
      case Chat(slug, words) => ChatParsed(slug, words); ChatSingle(slug, words);
    }
  }

  lemma {:induction false} OneEach(ps: seq<Parsed>, ds: seq<Directive>, n: nat)
    requires n <= |ps| == |ds| && forall i :: 0 <= i < |ps| ==> ps[i] == Parsed([ds[i]], [])
    ensures AllDirectives(ps, n) == ds[..n] && AllText(ps, n) == []
  {
    if n > 0 {
      OneEach(ps, ds, n - 1);
      assert ds[..n] == ds[..n - 1] + [ds[n - 1]];
    }
  }

  lemma GatheredOneEach(ps: seq<Parsed>, ds: seq<Directive>)
    requires |ps| == |ds| && forall i :: 0 <= i < |ps| ==> ps[i] == Parsed([ds[i]], [])
    ensures Gathered(ps) == Turn(ds, None)
  {
    OneEach(ps, ds, |ps|);
    assert ds[..|ps|] == ds;
  }

  lemma LinesSplit(lines: seq<string>)
    requires lines != [] && forall i :: 0 <= i < |lines| ==> Trim(lines[i]) && '\n' !in lines[i]
    ensures Split(Strip(Joined(lines, '\n')), '\n') == lines
  {
    hide Split, Joined;
    JoinedTrim(lines, '\n');
    TrimStrip(Joined(lines, '\n'));
    SplitJoined(lines, '\n');
  }

  lemma TrimStrip(s: string)
    requires Trim(s)
    ensures Strip(s) == s
  {
  }

  lemma EmptyTurn()
    ensures TurnOf("") == Turn([], None)
  {
    var ps := ParsedLines(Split("", '\n'));
    assert ps == [Parsed([], [])];
    assert AllDirectives(ps, 1) == AllDirectives(ps, 0) && AllText(ps, 1) == AllText(ps, 0);
  }

  /** Printing well-formed directives one per line and parsing the text gives them back,
      in order and with nothing left over. */
  lemma RoundTrip(ls: seq<Line>)
    requires forall i :: 0 <= i < |ls| ==> WellFormed(ls[i])
    ensures TurnOf(Joined(Printed(ls), '\n')) == Turn(Meanings(ls), None)
  {
    if ls == [] {
      EmptyTurn();
    } else {
      var lines := Printed(ls);
      forall i | 0 <= i < |ls| ensures Trim(lines[i]) && '\n' !in lines[i] && ParsedLine(lines[i]) == Parsed([Meaning(ls[i])], []) {
        PrintTrim(ls[i]);
        LineParsed(ls[i]);
      }
      LinesSplit(lines);
      GatheredOneEach(ParsedLines(lines), Meanings(ls));
    }
  }

  // ---------------------------------------------------------------------------
  // Several mentions on one line
  // ---------------------------------------------------------------------------

  /** A chat line whose slug is not one of the content scopes. */
  predicate Addressed(l: Line) {
    l.Chat? && WellFormed(l) && l.slug !in Scopes
  }

  function OneLine(ls: seq<Line>): string {
    Joined(Printed(ls), ' ')
  }

  /** Where each of the blank-separated texts starts. */
  function Offsets(ps: seq<string>, off: nat): (r: seq<nat>)
    ensures |r| == |ps|
  {
    if ps == [] then [] else [off] + Offsets(ps[1..], off + |ps[0]| + 1)
  }

  lemma OneLineSplit(ls: seq<Line>)
    requires ls != []
    ensures OneLine(ls) == Print(ls[0]) + if |ls| == 1 then "" else " " + OneLine(ls[1..])
  {
    assert Printed(ls)[1..] == Printed(ls[1..]);
  }

  lemma OneLineHead(ls: seq<Line>)
    requires ls != [] && Addressed(ls[0])
    ensures OneLine(ls) != "" && OneLine(ls)[0] == '@'
  {
    OneLineSplit(ls);
  }

  /** One line of several, standing in the text at `off`. */
  lemma OneMention(s: string, off: nat, slug: string, words: seq<string>, next: nat)
    requires SlugText(slug) && slug !in Scopes && Tokens(words) && NoMentions(words) && off < |s| && (off > 0 ==> Space(s[off - 1]))
    requires StandsAt(s, off, Print(Chat(slug, words)), NonSpaces)
    requires StandsAt(s, off, Print(Chat(slug, words)), WordChars)
    requires off + |Print(Chat(slug, words))| <= next <= off + |Print(Chat(slug, words))| + 1
    requires next <= |s| && (next < |s| ==> s[next] == '@')
    ensures Mentions(s, off) == [off] + Mentions(s, next)
  {
    FirstIsMention(s, off, slug, words);
    MentionHead(s, off);
    forall j | off + 1 + |slug| <= j < next ensures !Mention(s, j) {
      MentionFree(s, off, slug, words, j);
    }
    MentionsSkip(s, off + 1 + |slug|, next);
  }

  lemma MentionHead(s: string, off: nat)
    requires off < |s| && Mention(s, off)
    ensures Mentions(s, off) == [off] + Mentions(s, RunEnd(s, off + 1, WordChars))
  {
  }

  lemma TokenOutside(s: string, j: nat, a: string)
    requires StandsAt(s, j, a, WordChars) && AtToken(a, 0)
    ensures AtToken(s, j) && Slug(s, j) == Slug(a, 0)
    ensures RunEnd(s, j + 1, WordChars) == j + RunEnd(a, 1, WordChars)
  {
    RunEndInside(s, j, a, 1, WordChars);
    CharsThere(s, j, a);
    SliceOfSlice(s, j, |a|, 1, RunEnd(a, 1, WordChars));
  }

  lemma FirstIsMention(s: string, off: nat, slug: string, words: seq<string>)
    requires SlugText(slug) && slug !in Scopes && off < |s| && (off > 0 ==> Space(s[off - 1]))
    requires StandsAt(s, off, Print(Chat(slug, words)), WordChars)
    ensures Mention(s, off) && RunEnd(s, off + 1, WordChars) == off + 1 + |slug|
  {
    hide StandsAt, Slug, AtToken;
    SlugRun(slug, Spaced(words));
    TokenOutside(s, off, Print(Chat(slug, words)));
  }

  /** Where the first text ends and what is left. */
  lemma FirstText(s: string, ps: seq<string>, off: nat)
    requires off <= |s| && s[off..] == Joined(ps, ' ') && ps != []
    ensures var next := off + |ps[0]| + 1;
            && next - 1 <= |s| && s[off..next - 1] == ps[0]
            && (|ps| == 1 ==> next - 1 == |s|)
            && (|ps| > 1 ==> next <= |s| && s[next - 1] == ' ' && s[next..] == Joined(ps[1..], ' ') && s[off..next] == ps[0] + " ")
  {
    var n := |ps[0]|;
    assert s[off..off + n] == s[off..][..n];
    if |ps| > 1 {
      assert s[off + n] == s[off..][n];
      assert s[off + n + 1..] == s[off..][n + 1..];
      assert s[off..off + n + 1] == s[off..][..n + 1];
    }
  }

  lemma FirstMention(s: string, ls: seq<Line>, off: nat)
    requires off < |s| && s[off..] == OneLine(ls) && ls != [] && Addressed(ls[0]) && (|ls| > 1 ==> Addressed(ls[1]))
    requires off > 0 ==> Space(s[off - 1])
    ensures var next := off + |Print(ls[0])| + 1;
            if |ls| == 1 then Mentions(s, off) == [off]
            else next < |s| && Space(s[next - 1]) && s[next..] == OneLine(ls[1..]) && Mentions(s, off) == [off] + Mentions(s, next)
  {
    hide WellFormed, SlugText, Tokens, NoMentions, StandsAt;
    var l, next := ls[0], off + |Print(ls[0])| + 1;
    AddressedFacts(l);
    FirstLineStands(s, ls, off);
    if |ls| == 1 {
      OneMention(s, off, l.slug, l.words, |s|);
    } else {
      OneLineHead(ls[1..]);
      assert s[next] == s[next..][0];
      OneMention(s, off, l.slug, l.words, next);
    }
  }

  lemma {:induction false} OffsetsFound(s: string, ls: seq<Line>, off: nat)
    requires off < |s| && s[off..] == OneLine(ls) && ls != []
    requires off > 0 ==> Space(s[off - 1])
    requires forall i :: 0 <= i < |ls| ==> Addressed(ls[i])
    ensures Mentions(s, off) == Offsets(Printed(ls), off)
    decreases |ls|
  {
    hide Addressed, Mentions, Print;
    FirstMention(s, ls, off);
    assert Printed(ls)[1..] == Printed(ls[1..]);
    if |ls| > 1 {
      OffsetsFound(s, ls[1..], off + |Print(ls[0])| + 1);
    }
  }

  lemma AddressedFacts(l: Line)
    requires Addressed(l)
    ensures SlugText(l.slug) && l.slug !in Scopes && Tokens(l.words) && NoMentions(l.words) && NoCmds(l.words)
  {
  }

  lemma FirstLineStands(s: string, ls: seq<Line>, off: nat)
    requires off <= |s| && s[off..] == OneLine(ls) && ls != [] && Addressed(ls[0])
    ensures var l, next := ls[0], off + |Print(ls[0])| + 1;
            && Print(l) == Print(Chat(l.slug, l.words))
            && StandsAt(s, off, Print(l), NonSpaces) && StandsAt(s, off, Print(l), WordChars)
            && (|ls| == 1 ==> next - 1 == |s|)
            && (|ls| > 1 ==> next <= |s| && s[next - 1] == ' ' && s[next..] == OneLine(ls[1..]))
  {
    hide WellFormed;
    FirstText(s, Printed(ls), off);
    assert Printed(ls)[1..] == Printed(ls[1..]);
  }

  lemma {:induction false} PieceIsText(s: string, ps: seq<string>, off: nat, k: nat)
    requires off <= |s| && s[off..] == Joined(ps, ' ') && k < |ps|
    ensures var ms := Offsets(ps, off);
            off <= ms[k] <= (if k + 1 < |ps| then ms[k + 1] else |s|) <= |s|
            && s[ms[k]..if k + 1 < |ps| then ms[k + 1] else |s|] == ps[k] + if k + 1 < |ps| then " " else ""
    decreases k
  {
    hide Joined;
    FirstText(s, ps, off);
    var next := off + |ps[0]| + 1;
    if k > 0 {
      PieceIsText(s, ps[1..], next, k - 1);
    } else if |ps| > 1 {
      assert Offsets(ps[1..], next)[0] == next;
    } else {
      assert ps[0] + "" == ps[0];
    }
  }

  lemma PieceMeaning(l: Line, blank: string)
    requires Addressed(l) && (blank == "" || blank == " ")
    ensures AtToken(Print(l) + blank, 0) && MentionDirective(Print(l) + blank) == Meaning(l)
  {
    hide WellFormed, AtToken, Slug, SlugText, Tokens, Trim, Strip;
    var piece, rest := Print(l) + blank, Spaced(l.words) + blank;
    AddressedFacts(l);
    assert piece == "@" + l.slug + rest;
    BlankNext(l.words, blank);
    SlugRun(l.slug, rest);
    assert piece[1 + |l.slug|..] == rest;
    WordsStrip(rest);
    WordsSpaced(l.words, blank);
    PrintTrim(l);
    StripBlank(Print(l), blank);
  }

  lemma BlankNext(words: seq<string>, blank: string)
    requires blank == "" || blank == " "
    ensures Every(blank, Spaces) && (Spaced(words) + blank == "" || !Word((Spaced(words) + blank)[0]))
  {
  }

  lemma StripBlank(s: string, blank: string)
    requires Trim(s) && (blank == "" || blank == " ")
    ensures Strip(s + blank) == s
  {
    if blank == "" {
      assert s + blank == s;
    } else {
      assert (s + blank)[0] == s[0] && (s + blank)[|s|] == ' ';
      assert (s + blank)[..|s|] == s;
      assert StripLeft(s + blank) == s + blank;
      assert StripRight(s + blank) == StripRight(s);
    }
  }

  lemma {:induction false} PiecesParsed(s: string, ms: seq<nat>, ds: seq<Directive>, n: nat)
    requires n <= |ms| == |ds| && Marks(s, ms)
    requires forall k :: 0 <= k < |ms| ==> AtToken(MentionPiece(s, ms, k), 0) && MentionDirective(MentionPiece(s, ms, k)) == ds[k]
    ensures ExpandedFrom(s, ms, n) == ds[..n]
  {
    if n > 0 {
      PiecesParsed(s, ms, ds, n - 1);
      assert ds[..n] == ds[..n - 1] + [ds[n - 1]];
    }
  }

  lemma PieceParsed(s: string, ls: seq<Line>, k: nat)
    requires s == OneLine(ls) && k < |ls| && Marks(s, Offsets(Printed(ls), 0))
    requires forall i :: 0 <= i < |ls| ==> Addressed(ls[i])
    ensures var piece := MentionPiece(s, Offsets(Printed(ls), 0), k);
            AtToken(piece, 0) && MentionDirective(piece) == Meaning(ls[k])
  {
    assert s[0..] == s;
    PieceIsText(s, Printed(ls), 0, k);
    PieceMeaning(ls[k], if k + 1 < |ls| then " " else "");
  }

  lemma {:induction false} OneLineNoCmd(ls: seq<Line>, j: nat)
    requires ls != [] && forall i :: 0 <= i < |ls| ==> Addressed(ls[i])
    ensures !CmdAt(OneLine(ls), j)
    decreases |ls|
  {
    var s, p := OneLine(ls), Print(ls[0]);
    OneLineSplit(ls);
    ChatNoCmd(ls[0].slug, ls[0].words);
    if j + 1 < |s| {
      if j < |p| {
        assert !CmdAt(p, j);
        assert s[j] == p[j] && (j + 1 < |p| ==> s[j + 1] == p[j + 1]);
      } else if j > |p| {
        assert s[|p| + 1..] == OneLine(ls[1..]);
        assert s[j] == s[|p| + 1..][j - |p| - 1] && s[j + 1] == s[|p| + 1..][j - |p|];
        OneLineNoCmd(ls[1..], j - |p| - 1);
      }
    }
  }

  lemma InlineExpanded(s: string, ls: seq<Line>)
    requires s == OneLine(ls) && |ls| >= 2 && s != ""
    requires forall i :: 0 <= i < |ls| ==> Addressed(ls[i])
    ensures Expanded(s) == Some(Meanings(ls))
  {
    hide Mentions, FindCmd, Addressed, Print, Meaning, OneLine, MentionDirective, MentionPiece;
    var ms, ds := Mentions(s, 0), Meanings(ls);
    assert s[0..] == s;
    OffsetsFound(s, ls, 0);
    MentionsMark(s, 0);
    OneLineNoCmd(ls, FindCmd(s, 0));
    forall k | 0 <= k < |ms| ensures AtToken(MentionPiece(s, ms, k), 0) && MentionDirective(MentionPiece(s, ms, k)) == ds[k] {
      PieceParsed(s, ls, k);
    }
    PiecesParsed(s, ms, ds, |ls|);
    assert ds[..|ls|] == ds;
  }

  /** Several chat mentions printed on one line parse to one directive for each. */
  lemma InlineRoundTrip(ls: seq<Line>)
    requires |ls| >= 2 && forall i :: 0 <= i < |ls| ==> Addressed(ls[i])
    ensures ParsedLine(OneLine(ls)) == Parsed(Meanings(ls), [])
  {
    forall i | 0 <= i < |ls| ensures Trim(Printed(ls)[i]) {
      PrintTrim(ls[i]);
    }
    JoinedTrim(Printed(ls), ' ');
    assert Strip(OneLine(ls)) == OneLine(ls);
    InlineExpanded(OneLine(ls), ls);
  }

  // ---------------------------------------------------------------------------
  // Scopes
  // ---------------------------------------------------------------------------

  predicate CanonicalRefs(ds: seq<Directive>) {
    forall i :: 0 <= i < |ds| && ds[i].contentRef.Some? ==> Canonical(ds[i].contentRef.value.scope)
  }

  /** Whatever the text, a parsed reference is to the hub or to an instance. */
  lemma ScopesCanonical(raw: string)
    ensures CanonicalRefs(TurnOf(raw).directives)
  {
    var lines := Split(Strip(raw), '\n');
    forall i | 0 <= i < |lines| ensures CanonicalRefs(ParsedLine(lines[i]).directives) {
      LineCanonical(lines[i]);
    }
    AllCanonical(ParsedLines(lines), |lines|);
  }

  lemma LineCanonical(line: string)
    ensures CanonicalRefs(ParsedLine(line).directives)
  {
    var s := Strip(line);
    if Expanded(s).Some? {
      MentionsMark(s, 0);
      MentionsHaveNoRef(s, Mentions(s, 0), |Mentions(s, 0)|);
    }
  }

  lemma {:induction false} AllCanonical(ps: seq<Parsed>, n: nat)
    requires n <= |ps| && forall i :: 0 <= i < |ps| ==> CanonicalRefs(ps[i].directives)
    ensures CanonicalRefs(AllDirectives(ps, n))
  {
    if n > 0 {
      AllCanonical(ps, n - 1);
    }
  }

  lemma MentionNoRef(piece: string)
    requires AtToken(piece, 0)
    ensures MentionDirective(piece).contentRef.None?
  {
  }

  lemma {:induction false} MentionsHaveNoRef(raw: string, ms: seq<nat>, n: nat)
    requires n <= |ms| && Marks(raw, ms)
    ensures forall i :: 0 <= i < |ExpandedFrom(raw, ms, n)| ==> ExpandedFrom(raw, ms, n)[i].contentRef.None?
  {
    hide MentionDirective, MentionPiece, Marks, AtToken;
    if n > 0 {
      MentionsHaveNoRef(raw, ms, n - 1);
      PieceToken(raw, ms, n - 1);
      MentionNoRef(MentionPiece(raw, ms, n - 1));
    }
  }

  lemma {:induction false} NoScopeHere(s: string, i: nat, ws: seq<string>)
    requires i < |s| && s[i] == 'b' && forall w :: w in ws ==> w in Scopes
    ensures FirstScope(s, i, ws) == ""
  {
    if ws != [] {
      ScopeNotB(ws[0]);
      if PrefixAt(s, i, ws[0]) {
        PrefixHead(s, i, ws[0]);
      }
      NoScopeHere(s, i, ws[1..]);
    }
  }

  lemma PrefixHead(s: string, i: nat, w: string)
    requires w != "" && PrefixAt(s, i, w)
    ensures s[i] == w[0]
  {
    assert s[i] == s[i..i + |w|][0];
  }

  lemma ScopeNotB(w: string)
    requires w in Scopes
    ensures w != "" && w[0] != 'b'
  {
  }

  /** The scopes the normalisation knows: those of the pattern, and one more. */
  predicate Documented(scope: string) {
    scope in Scopes || scope == "blackboard"
  }

  /** A reference as it can be written: its path is a word without a reference in it. */
  predicate Writable(r: Ref) {
    Documented(r.scope) && (r.path.Some? ==> Token(r.path.value) && NoRefs([r.path.value]))
  }

  lemma BlackboardText(r: Ref)
    requires r.scope == "blackboard"
    ensures var a := RefText(r);
            && |a| >= 11 && a[..11] == "@blackboard" && a[0] == '@' && a[1] == 'b'
            && (if r.path.None? then |a| == 11 else |a| == 12 + |r.path.value| && a[11] == ':' && a[12..] == r.path.value)
  {
    assert "@" + "blackboard" == "@blackboard";
  }

  lemma BlackboardNoRef(r: Ref)
    requires Writable(r) && r.scope == "blackboard"
    ensures NoRefs([RefText(r)])
  {
    hide ScopeAt, RefText, FirstScope;
    var a := RefText(r);
    BlackboardText(r);
    forall j | 0 <= j < |a| ensures !RefAt(a, j) {
      if j == 0 {
        NotScopeB(a, 1);
      } else if j >= 12 {
        assert [r.path.value][0] == r.path.value;
        assert !RefAt(r.path.value, j - 12);
        if RefAt(a, j) {
          RefShift(a, 12, j, r.path.value);
        }
      } else {
        BlackboardChars(a, j);
      }
    }
  }

  lemma NotScopeB(a: string, i: nat)
    requires i < |a| && a[i] == 'b'
    ensures ScopeAt(a, i) == ""
  {
    NoScopeHere(a, i, Scopes);
  }

  lemma BlackboardToken(r: Ref)
    requires Writable(r) && r.scope == "blackboard"
    ensures Token(RefText(r))
  {
    hide RefText, NoRefs;
    var a := RefText(r);
    BlackboardText(r);
    forall x | 0 <= x < |a| ensures Is(a[x], NonSpaces) {
      if x >= 12 {
        assert a[x] == a[12..][x - 12];
        assert Is(r.path.value[x - 12], NonSpaces);
      } else if x > 0 {
        BlackboardChars(a, x);
      }
    }
  }

  lemma BlackboardChars(a: string, j: nat)
    requires 0 < j < 12 && j < |a| && |a| >= 11 && a[..11] == "@blackboard" && (|a| > 11 ==> a[11] == ':')
    ensures a[j] != '@' && !Space(a[j])
  {
    if j < 11 {
      assert a[j] == a[..11][j];
    }
  }

  lemma {:induction false} SpacedSnoc(args: seq<string>, a: string)
    ensures Spaced(args + [a]) == Spaced(args) + " " + a
  {
    if args == [] {
      assert [] + [a] == [a] && Spaced([a][1..]) == "";
    } else {
      SpacedSnoc(args[1..], a);
      assert (args + [a])[1..] == args[1..] + [a];
    }
  }

  /** A reference the pattern does not know is printed as one more word. */
  lemma RefAsWord(target: Option<string>, cmd: string, args: seq<string>, r: Ref)
    ensures Print(Command(target, cmd, args, Some(r))) == Print(Command(target, cmd, args + [RefText(r)], None))
  {
    hide RefText;
    TailAsWord(args, r);
  }

  lemma TailAsWord(args: seq<string>, r: Ref)
    ensures Tail(args, Some(r)) == Tail(args + [RefText(r)], None)
  {
    hide RefText, Spaced;
    SpacedSnoc(args, RefText(r));
    Join3(Spaced(args), RefText(r));
  }

  lemma Join3(a: string, b: string)
    ensures a + (" " + b) == a + " " + b + ""
  {
  }

  lemma WellFormedMore(target: Option<string>, cmd: string, args: seq<string>, a: string)
    requires WellFormed(Command(target, cmd, args, None)) && Token(a) && NoRefs([a])
    ensures WellFormed(Command(target, cmd, args + [a], None))
  {
    hide RefAt;
    assert [a][0] == a;
  }

  lemma OneLineTurn(l: Line)
    requires WellFormed(l)
    ensures TurnOf(Print(l)) == Turn([Meaning(l)], None)
  {
    hide WellFormed, Print, TurnOf, Meaning;
    RoundTrip([l]);
    assert Printed([l]) == [Print(l)] && Meanings([l]) == [Meaning(l)];
  }

  /** A command printed with a reference at its end reads back with the reference exactly when
      the pattern knows the scope.  The one scope it does not know, `blackboard`, has a place
      in the normalisation all the same: the reference stays the last argument. */
  lemma ReferenceExactly(target: Option<string>, cmd: string, args: seq<string>, r: Ref)
    requires WellFormed(Command(target, cmd, args, None)) && Writable(r)
    ensures Canonical(NormalizeScope(r.scope))
    ensures var line := Print(Command(target, cmd, args, Some(r)));
            TurnOf(line) == Turn([if r.scope in Scopes
                                  then Directive(target, "/" + cmd, args, Some(ContentRef(NormalizeScope(r.scope), r.path)), line)
                                  else Directive(target, "/" + cmd, args + [RefText(r)], None, line)], None)
  {
    hide TurnOf, NoRefs, Tokens, RefText, Print;
    if r.scope in Scopes {
      OneLineTurn(Command(target, cmd, args, Some(r)));
    } else {
      BlackboardNoRef(r);
      BlackboardToken(r);
      WellFormedMore(target, cmd, args, RefText(r));
      RefAsWord(target, cmd, args, r);
      OneLineTurn(Command(target, cmd, args + [RefText(r)], None));
    }
  }
}

/** Text that is not a directive: which lines are general text, and the round trip for
    directives and plain lines mixed in one message. */
module SlashText {
  import opened Prelude
  import opened Text
  import opened SlashParser
  import opened SlashPrinter
  import opened SlashCommand

  // ---------------------------------------------------------------------------
  // Which lines are general text
  // ---------------------------------------------------------------------------

  /** No two positions of the text are chat mentions. */
  predicate OneMentionAtMost(s: string) {
    forall j, k :: 0 <= j < k < |s| ==> !(Mention(s, j) && Mention(s, k))
  }

  /** No command token, no target at the start, and at most one mention. */
  predicate Plain(s: string) {
    (forall j :: 0 <= j < |s| ==> !CmdAt(s, j)) && !TargetAt(s) && OneMentionAtMost(s)
  }

  /** The scan by tokens misses no mention. */
  lemma {:induction false} MentionsComplete(s: string, i: nat, j: nat)
    requires i <= j < |s| && Mention(s, j)
    ensures j in Mentions(s, i)
    decreases |s| - i
  {
    if i < j {
      if AtToken(s, i) {
        assert !Word(s[j]);
        MentionsComplete(s, RunEnd(s, i + 1, WordChars), j);
      } else {
        MentionsComplete(s, i + 1, j);
      }
    }
  }

  lemma FewMentions(s: string)
    ensures |Mentions(s, 0)| <= 1 <==> OneMentionAtMost(s)
  {
    hide Mention, AtToken;
    var ms := Mentions(s, 0);
    MentionsMark(s, 0);
    if |ms| > 1 {
      TokenInside(s, ms[1]);
      assert ms[0] < ms[1] && Mention(s, ms[0]) && Mention(s, ms[1]);
    } else {
      forall j, k | 0 <= j < k < |s| ensures !(Mention(s, j) && Mention(s, k)) {
        if Mention(s, j) && Mention(s, k) {
          MentionsComplete(s, 0, j);
          MentionsComplete(s, 0, k);
        }
      }
    }
  }

  lemma TokenInside(s: string, i: nat)
    requires AtToken(s, i)
    ensures i < |s|
  {
  }

  /** A command token never lies in the target. */
  lemma CommandAfterTarget(s: string)
    ensures FindCmd(AfterTarget(s), 0) == |AfterTarget(s)| <==> forall j :: 0 <= j < |s| ==> !CmdAt(s, j)
  {
    hide TargetAt;
    var rest := AfterTarget(s);
    var d := |s| - |rest|;
    RestOfTarget(s);
    if FindCmd(rest, 0) < |rest| {
      assert CmdAt(s, d + FindCmd(rest, 0));
    } else {
      forall j | 0 <= j < |s| ensures !CmdAt(s, j) {
        if j >= d {
          assert !CmdAt(rest, j - d);
        }
      }
    }
  }

  /** What comes before the rest is the target and white space. */
  lemma RestOfTarget(s: string)
    ensures |AfterTarget(s)| <= |s| && AfterTarget(s) == s[|s| - |AfterTarget(s)|..]
    ensures forall j :: 0 <= j < |s| - |AfterTarget(s)| ==> s[j] != '/'
  {
    if TargetAt(s) {
      var e := RunEnd(s, 1, WordChars);
      var m := RunEnd(s, e, Spaces);
      forall j | 0 <= j < m ensures s[j] != '/' {
        if j >= e {
          assert Is(s[j], Spaces);
        } else if j > 0 {
          assert Is(s[j], WordChars);
        }
      }
    }
  }

  /** For every line: it is general text, as it stands without the white space around it,
      exactly when it is plain; a blank line is nothing, and any other line is directives only. */
  lemma LineExactly(line: string)
    ensures var s, p := Strip(line), ParsedLine(line);
      && (s == "" ==> p == Parsed([], []))
      && (s != "" && Plain(s) ==> p == Parsed([], [s]))
      && (s != "" && !Plain(s) ==> p.directives != [] && p.text == [])
  {
    hide CommandOf, Mentions, FindCmd, CmdAt, TargetAt, AfterTarget, OneMentionAtMost, MentionDirective, MentionPiece, Strip;
    var s := Strip(line);
    CommandAfterTarget(s);
    CommandAnywhere(s);
    FewMentions(s);
    if Expanded(s).Some? {
      MentionsMark(s, 0);
      OneForEach(s, Mentions(s, 0), |Mentions(s, 0)|);
    }
  }

  lemma CommandAnywhere(s: string)
    ensures FindCmd(s, 0) == |s| <==> forall j :: 0 <= j < |s| ==> !CmdAt(s, j)
  {
  }

  lemma {:induction false} OneForEach(raw: string, ms: seq<nat>, n: nat)
    requires n <= |ms| && Marks(raw, ms)
    ensures |ExpandedFrom(raw, ms, n)| == n
  {
    hide MentionDirective, MentionPiece, Marks, AtToken;
    if n > 0 {
      OneForEach(raw, ms, n - 1);
    }
  }

  // ---------------------------------------------------------------------------
  // White space around lines and around the message
  // ---------------------------------------------------------------------------

  lemma StripLeftMore(c: char, s: string)
    requires Space(c)
    ensures Strip([c] + s) == Strip(s)
  {
    assert ([c] + s)[1..] == s;
  }

  lemma {:induction false} StripLeftSnoc(s: string, c: char)
    requires Space(c)
    ensures StripLeft(s + [c]) == if Every(s, Spaces) then "" else StripLeft(s) + [c]
    ensures Every(s, Spaces) ==> StripLeft(s) == ""
  {
    if s == "" {
      assert s + [c] == [c] && [c][1..] == "";
      assert StripLeft([c]) == StripLeft([c][1..]);
    } else {
      assert (s + [c])[0] == s[0];
      if Space(s[0]) {
        assert (s + [c])[1..] == s[1..] + [c];
        StripLeftSnoc(s[1..], c);
        assert Every(s, Spaces) <==> Every(s[1..], Spaces) by {
          assert s == [s[0]] + s[1..];
          assert Is(s[0], Spaces);
        }
      } else {
        assert !Is(s[0], Spaces);
      }
    }
  }

  lemma StripRightMore(s: string, c: char)
    requires Space(c)
    ensures Strip(s + [c]) == Strip(s)
  {
    StripLeftSnoc(s, c);
    var t := StripLeft(s);
    assert (t + [c])[..|t|] == t && (t + [c])[|t|] == c;
  }

  lemma {:induction false} StripPadded(before: string, t: string, after: string)
    requires Every(before, Spaces) && Every(after, Spaces)
    ensures Strip(before + t + after) == Strip(t)
    decreases |before| + |after|
  {
    if before != "" {
      var c := before[0];
      assert Is(c, Spaces);
      assert before + t + after == [c] + (before[1..] + t + after);
      StripLeftMore(c, before[1..] + t + after);
      StripPadded(before[1..], t, after);
    } else if after != "" {
      var c, rest := after[|after| - 1], after[..|after| - 1];
      assert Is(c, Spaces);
      assert before + t + after == before + t + rest + [c];
      StripRightMore(before + t + rest, c);
      StripPadded(before, t, rest);
    } else {
      assert before + t + after == t;
    }
  }

  /** One more character at the end of the last piece, or one more piece. */
  function Snoc(r: seq<string>, c: char, sep: char): seq<string>
    requires r != []
  {
    if c == sep then r + [""] else r[..|r| - 1] + [r[|r| - 1] + [c]]
  }

  /** One more character at the start of the first piece, or one more piece. */
  function Cons(d: char, r: seq<string>, sep: char): (t: seq<string>)
    requires r != []
    ensures t != []
  {
    if d == sep then [""] + r else [[d] + r[0]] + r[1..]
  }

  lemma ConsSnoc(d: char, r: seq<string>, c: char, sep: char)
    requires r != []
    ensures Cons(d, Snoc(r, c, sep), sep) == Snoc(Cons(d, r, sep), c, sep)
  {
    var a, b := Cons(d, Snoc(r, c, sep), sep), Snoc(Cons(d, r, sep), c, sep);
    assert |a| == |b|;
    if |r| == 1 && d != sep && c != sep {
      assert [d] + (r[0] + [c]) == [d] + r[0] + [c];
    }
    forall k | 0 <= k < |a| ensures a[k] == b[k] {}
  }

  lemma SplitCons(s: string, sep: char)
    requires s != ""
    ensures Split(s, sep) == Cons(s[0], Split(s[1..], sep), sep)
  {
  }

  lemma {:induction false} SplitSnoc(s: string, c: char, sep: char)
    ensures Split(s + [c], sep) == Snoc(Split(s, sep), c, sep)
    decreases |s|
  {
    hide Cons, Snoc;
    if s == "" {
      SplitSingle(c, sep);
      assert s + [c] == [c];
    } else {
      SplitSnoc(s[1..], c, sep);
      SplitCons(s, sep);
      SplitCons(s + [c], sep);
      assert (s + [c])[1..] == s[1..] + [c] && (s + [c])[0] == s[0];
      ConsSnoc(s[0], Split(s[1..], sep), c, sep);
    }
  }

  lemma SplitSingle(c: char, sep: char)
    ensures Split([c], sep) == Snoc(Split("", sep), c, sep)
  {
    assert [c][1..] == "";
    assert [c] + "" == [c] == "" + [c];
  }

  /** What all the lines add up to. */
  function Told(lines: seq<string>): Parsed {
    var ps := ParsedLines(lines);
    Parsed(AllDirectives(ps, |ps|), AllText(ps, |ps|))
  }

  lemma {:induction false} ToldPrefix(ps: seq<Parsed>, qs: seq<Parsed>, n: nat)
    requires n <= |ps| && n <= |qs| && forall i :: 0 <= i < n ==> ps[i] == qs[i]
    ensures AllDirectives(ps, n) == AllDirectives(qs, n) && AllText(ps, n) == AllText(qs, n)
  {
    if n > 0 {
      ToldPrefix(ps, qs, n - 1);
    }
  }

  lemma ToldSnoc(lines: seq<string>, line: string)
    ensures Told(lines + [line])
            == Parsed(Told(lines).directives + ParsedLine(line).directives, Told(lines).text + ParsedLine(line).text)
  {
    hide ParsedLine;
    var n := |lines|;
    ToldPrefix(ParsedLines(lines + [line]), ParsedLines(lines), n);
  }

  lemma {:induction false} ToldFirst(line: string, rest: seq<string>)
    ensures Told([line] + rest)
            == Parsed(ParsedLine(line).directives + Told(rest).directives, ParsedLine(line).text + Told(rest).text)
  {
    hide Told, ParsedLine;
    if rest == [] {
      ToldSnoc([], line);
      NothingTold();
      assert [line] + rest == [] + [line];
    } else {
      var n := |rest| - 1;
      ToldFirst(line, rest[..n]);
      ToldSnoc([line] + rest[..n], rest[n]);
      ToldSnoc(rest[..n], rest[n]);
      assert [line] + rest[..n] + [rest[n]] == [line] + rest && rest[..n] + [rest[n]] == rest;
    }
  }

  lemma NothingTold()
    ensures Told([]) == Parsed([], [])
  {
  }

  lemma SameStripSameLine(a: string, b: string)
    requires Strip(a) == Strip(b)
    ensures ParsedLine(a) == ParsedLine(b)
  {
  }

  lemma BlankLine()
    ensures ParsedLine("") == Parsed([], [])
  {
  }

  lemma {:induction false} OuterLeft(raw: string)
    ensures Told(Split(StripLeft(raw), '\n')) == Told(Split(raw, '\n'))
  {
    hide Told, ParsedLine;
    if raw != "" && Space(raw[0]) {
      OuterLeft(raw[1..]);
      var c, rest := raw[0], Split(raw[1..], '\n');
      ToldFirst(rest[0], rest[1..]);
      assert rest == [rest[0]] + rest[1..];
      if c == '\n' {
        ToldFirst("", rest);
        BlankLine();
        assert [] + Told(rest).directives == Told(rest).directives && [] + Told(rest).text == Told(rest).text;
      } else {
        StripLeftMore(c, rest[0]);
        SameStripSameLine([c] + rest[0], rest[0]);
        ToldFirst([c] + rest[0], rest[1..]);
      }
    }
  }

  lemma {:induction false} OuterRight(raw: string)
    ensures Told(Split(StripRight(raw), '\n')) == Told(Split(raw, '\n'))
  {
    hide Told, ParsedLine, Split;
    if raw != "" && Space(raw[|raw| - 1]) {
      var s, c := raw[..|raw| - 1], raw[|raw| - 1];
      OuterRight(s);
      assert raw == s + [c];
      SplitSnoc(s, c, '\n');
      var r := Split(s, '\n');
      var last, front := r[|r| - 1], r[..|r| - 1];
      assert r == front + [last];
      ToldSnoc(front, last);
      if c == '\n' {
        ToldSnoc(r, "");
        BlankLine();
        assert Told(r).directives + [] == Told(r).directives && Told(r).text + [] == Told(r).text;
      } else {
        StripRightMore(last, c);
        SameStripSameLine(last + [c], last);
        ToldSnoc(front, last + [c]);
      }
    }
  }

  /** White space around the whole message changes nothing. */
  lemma TurnIsLines(raw: string)
    ensures TurnOf(raw) == var p := Told(Split(raw, '\n')); Turn(p.directives, if p.text == [] then None else Some(Joined(p.text, '\n')))
  {
    hide Split, Joined;
    OuterRight(StripLeft(raw));
    OuterLeft(raw);
  }

  // ---------------------------------------------------------------------------
  // Messages of directives and plain lines
  // ---------------------------------------------------------------------------

  /** A line of a message: a printed directive, a command line as typed, several chat mentions, plain
      text, or nothing. */
  datatype Item = One(line: Line) | Order(typed: Typed) | Several(lines: seq<Line>) | Prose(text: string) | Nothing

  /** A line with the white space around it. */
  datatype Row = Row(before: string, item: Item, after: string)

  function ItemText(i: Item): string {
    match i
    case One(line) => Print(line)
    case Order(typed) => LineText(typed)
    case Several(lines) => OneLine(lines)
    case Prose(text) => text
    case Nothing => ""
  }

  function RowText(r: Row): string {
    r.before + ItemText(r.item) + r.after
  }

  predicate Padding(s: string) {
    Every(s, Spaces) && '\n' !in s
  }

  predicate WellFormedRow(r: Row) {
    && Padding(r.before) && Padding(r.after)
    && match r.item
       case One(line) => WellFormed(line)
       case Order(typed) => WellTyped(typed) && '\n' !in LineText(typed)
       case Several(lines) => |lines| >= 2 && forall i :: 0 <= i < |lines| ==> Addressed(lines[i])
       case Prose(text) => Trim(text) && '\n' !in text && Plain(text)
       case Nothing => true
  }

  function RowTexts(rows: seq<Row>): seq<string> {
    if rows == [] then [] else [RowText(rows[0])] + RowTexts(rows[1..])
  }

  /** The directives that the lines mean, in order. */
  function Directed(rows: seq<Row>): seq<Directive> {
    if rows == [] then []
    else (match rows[0].item
          case One(line) => [Meaning(line)]
          case Order(t) => [Directive(t.target, "/" + t.cmd, ArgsOf(t.before + t.after), LastOf(t.before + t.after), LineText(t))]
          case Several(lines) => Meanings(lines)
          case _ => []) + Directed(rows[1..])
  }

  /** The plain lines, in order. */
  function Prosed(rows: seq<Row>): seq<string> {
    if rows == [] then [] else (if rows[0].item.Prose? then [rows[0].item.text] else []) + Prosed(rows[1..])
  }

  lemma NoBreak(r: Row)
    requires WellFormedRow(r)
    ensures '\n' !in RowText(r)
  {
    hide Print, Plain, WellFormed, WellTyped, LineText;
    match r.item {
      case One(line) => PrintTrim(line);
      case Several(lines) => OneLineNoBreak(lines);
      case _ =>
    }
  }

  lemma {:induction false} OneLineNoBreak(ls: seq<Line>)
    requires forall i :: 0 <= i < |ls| ==> Addressed(ls[i])
    ensures '\n' !in OneLine(ls)
  {
    hide Print;
    if ls != [] {
      OneLineSplit(ls);
      PrintTrim(ls[0]);
      OneLineNoBreak(ls[1..]);
    }
  }

  lemma RowParsed(r: Row)
    requires WellFormedRow(r)
    ensures ParsedLine(RowText(r)) == match r.item
      case One(line) => Parsed([Meaning(line)], [])
      case Order(t) =>
        Parsed([Directive(t.target, "/" + t.cmd, ArgsOf(t.before + t.after), LastOf(t.before + t.after), LineText(t))], [])
      case Several(lines) => Parsed(Meanings(lines), [])
      case Prose(text) => Parsed([], [text])
      case Nothing => Parsed([], [])
  {
    hide ParsedLine, Print, Meaning, WellFormed, WellTyped, LineText, ArgsOf, LastOf, Addressed, Plain, Strip, OneLine, Meanings, Trim;
    var text := ItemText(r.item);
    StripPadded(r.before, text, r.after);
    SameStripSameLine(RowText(r), text);
    match r.item {
      case One(line) => LineParsed(line);
      case Order(typed) => CommandLineParsed(typed);
      case Several(lines) => InlineRoundTrip(lines);
      case Prose(text) => TrimStrip(text); TrimNotEmpty(text); LineExactly(text);
      case Nothing => BlankLine();
    }
  }

  lemma TrimNotEmpty(s: string)
    requires Trim(s)
    ensures s != ""
  {
  }

  lemma {:induction false} RowsTold(rows: seq<Row>)
    requires forall i :: 0 <= i < |rows| ==> WellFormedRow(rows[i])
    ensures Told(RowTexts(rows)) == Parsed(Directed(rows), Prosed(rows))
  {
    hide Told, ParsedLine, WellFormedRow, RowText, Meaning, Meanings, ArgsOf, LastOf, LineText;
    if rows == [] {
      NothingTold();
    } else {
      RowParsed(rows[0]);
      RowsTold(rows[1..]);
      ToldFirst(RowText(rows[0]), RowTexts(rows[1..]));
    }
  }

  lemma {:induction false} RowsBroken(rows: seq<Row>)
    requires forall i :: 0 <= i < |rows| ==> WellFormedRow(rows[i])
    ensures |RowTexts(rows)| == |rows| && forall i :: 0 <= i < |rows| ==> '\n' !in RowTexts(rows)[i]
  {
    hide WellFormedRow, RowText;
    if rows != [] {
      NoBreak(rows[0]);
      RowsBroken(rows[1..]);
    }
  }

  /** Printed directives, typed commands, several mentions on one line, plain lines and blank lines, in any order and with
      any white space around them: parsing gives the meanings in order, and as general text
      the plain lines, in order, one per line; none exactly when there is no plain line. */
  lemma MixedRoundTrip(rows: seq<Row>)
    requires forall i :: 0 <= i < |rows| ==> WellFormedRow(rows[i])
    ensures TurnOf(Joined(RowTexts(rows), '\n'))
            == Turn(Directed(rows), if Prosed(rows) == [] then None else Some(Joined(Prosed(rows), '\n')))
  {
    hide Told, Split, Joined, WellFormedRow, RowTexts, Directed, Prosed, TurnOf;
    var lines := RowTexts(rows);
    TurnIsLines(Joined(lines, '\n'));
    RowsTold(rows);
    RowsBroken(rows);
    if rows == [] {
      EmptyMessage();
    } else {
      SplitJoined(lines, '\n');
    }
  }

  lemma EmptyMessage()
    ensures Told(Split(Joined(RowTexts([]), '\n'), '\n')) == Told(RowTexts([]))
  {
    hide ParsedLine;
    assert Split(Joined(RowTexts([]), '\n'), '\n') == [""] == [""] + [];
    ToldFirst("", []);
    BlankLine();
    NothingTold();
  }
}

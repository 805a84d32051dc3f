/** Characters, runs and words, as Python's `str` methods see them. */
module Text {

  /** Characters that `str.isspace`, `str.split` and the regular expression \s accept. */
  predicate Space(c: char) {
    var n := c as int;
    || 9 <= n <= 13 || 28 <= n <= 32 || n == 0x85 || n == 0xA0 || n == 0x1680
    || 0x2000 <= n <= 0x200A || n == 0x2028 || n == 0x2029 || n == 0x202F || n == 0x205F || n == 0x3000
  }

  /** The character classes of the slash patterns. */
  datatype Class = Spaces | NonSpaces | WordChars | CmdChars

  predicate Word(c: char) {
    'a' <= c <= 'z' || 'A' <= c <= 'Z' || '0' <= c <= '9' || c == '_' || c == '-'
  }

  predicate Is(c: char, p: Class) {
    match p
    case Spaces => Space(c)
    case NonSpaces => !Space(c)
    case WordChars => Word(c)
    case CmdChars => 'a' <= c <= 'z' || '0' <= c <= '9' || c == '-'
  }

  predicate Every(s: string, p: Class) {
    forall i :: 0 <= i < |s| ==> Is(s[i], p)
  }

  /** End of the longest run of characters of one class that starts at i. */
  function RunEnd(s: string, i: nat, p: Class): (e: nat)
    requires i <= |s|
    ensures i <= e <= |s|
    ensures forall k :: i <= k < e ==> Is(s[k], p)
    ensures e < |s| ==> !Is(s[e], p)
    decreases |s| - i
  {
    if i < |s| && Is(s[i], p) then RunEnd(s, i + 1, p) else i
  }

  lemma RunEndIs(s: string, i: nat, p: Class, e: nat)
    requires i <= e <= |s| && (forall k :: i <= k < e ==> Is(s[k], p)) && (e < |s| ==> !Is(s[e], p))
    ensures RunEnd(s, i, p) == e
  {
  }

  lemma SliceOfSlice<T>(s: seq<T>, i: nat, n: nat, x: nat, y: nat)
    requires i + n <= |s| && x <= y <= n
    ensures s[i..i + n][x..y] == s[i + x..i + y]
  {
    var t, u := s[i..i + n][x..y], s[i + x..i + y];
    forall k | 0 <= k < y - x ensures t[k] == u[k] {
      assert t[k] == s[i..i + n][x + k] == s[i + x + k];
    }
  }

  /** `a` stands at position j of s and is not continued by a character of the run. */
  predicate StandsAt(s: string, j: nat, a: string, p: Class) {
    j + |a| <= |s| && s[j..j + |a|] == a && (j + |a| < |s| ==> !Is(s[j + |a|], p))
  }

  lemma RunEndInside(s: string, j: nat, a: string, i: nat, p: Class)
    requires StandsAt(s, j, a, p) && i <= |a|
    ensures RunEnd(s, j + i, p) == j + RunEnd(a, i, p)
  {
    var e := RunEnd(a, i, p);
    forall k | j + i <= k < j + e ensures Is(s[k], p) {
      assert s[k] == s[j..j + |a|][k - j] && Is(a[k - j], p);
    }
    if e < |a| {
      assert s[j + e] == s[j..j + |a|][e];
    }
    RunEndIs(s, j + i, p, j + e);
  }

  /** `str.split()`: the maximal runs of non-space characters. */
  function Words(s: string): seq<string>
    decreases |s|
  {
    if s == "" then []
    else if Space(s[0]) then Words(s[1..])
    else
      var e := RunEnd(s, 0, NonSpaces);
      [s[..e]] + Words(s[e..])
  }

  /** A word: not empty, no white space. */
  predicate Token(a: string) {
    a != "" && Every(a, NonSpaces)
  }

  /** Every word, with one blank before it. */
  function Spaced(args: seq<string>): string {
    if args == [] then "" else " " + args[0] + Spaced(args[1..])
  }

  lemma WordsToken(a: string, rest: string)
    requires Token(a) && (rest == "" || Space(rest[0]))
    ensures Words(a + rest) == [a] + Words(rest)
  {
    var s := a + rest;
    forall k | 0 <= k < |a| ensures Is(s[k], NonSpaces) {
      assert Is(a[k], NonSpaces);
    }
    RunEndIs(s, 0, NonSpaces, |a|);
    assert s[..|a|] == a && s[|a|..] == rest;
    assert s[0] == a[0];
  }

  lemma {:induction false} WordsSpaced(args: seq<string>, tail: string)
    requires (forall i :: 0 <= i < |args| ==> Token(args[i])) && Every(tail, Spaces)
    ensures Words(Spaced(args) + tail) == args
  {
    if args == [] {
      WordsBlank(tail);
      assert Spaced(args) + tail == tail;
    } else {
      var a, rest := args[0], Spaced(args[1..]) + tail;
      assert Spaced(args) + tail == " " + (a + rest);
      assert (" " + (a + rest))[1..] == a + rest;
      WordsToken(a, rest);
      WordsSpaced(args[1..], tail);
      assert args == [a] + args[1..];
    }
  }

  lemma {:induction false} WordsBlank(s: string)
    requires Every(s, Spaces)
    ensures Words(s) == []
  {
    if s != "" {
      WordsBlank(s[1..]);
    }
  }

  /** Every word boundary inside `Spaced(args)` is the start of one of the words. */
  lemma {:induction false} SpacedStart(args: seq<string>, k: nat) returns (i: nat)
    requires forall j :: 0 <= j < |args| ==> Token(args[j])
    requires 0 < k < |Spaced(args)| && Space(Spaced(args)[k - 1]) && !Space(Spaced(args)[k])
    ensures i < |args| && Spaced(args)[k..] == args[i] + Spaced(args[i + 1..])
  {
    var s, a, rest := Spaced(args), args[0], Spaced(args[1..]);
    assert s == [' '] + a + rest;
    if k == 1 {
      assert s[1..] == a + rest;
      i := 0;
    } else {
      var m := 1 + |a|;
      assert forall x :: 1 <= x < m ==> s[x] == a[x - 1];
      assert s[k - 1] == rest[k - 1 - m] && s[k] == rest[k - m];
      var i' := SpacedStart(args[1..], k - m);
      i := i' + 1;
      assert s[k..] == rest[k - m..];
      assert args[1..][i'] == args[i] && args[1..][i' + 1..] == args[i + 1..];
    }
  }

  function StripLeft(s: string): string {
    if s != "" && Space(s[0]) then StripLeft(s[1..]) else s
  }

  function StripRight(s: string): string {
    if s != "" && Space(s[|s| - 1]) then StripRight(s[..|s| - 1]) else s
  }

  /** `str.strip()`. */
  function Strip(s: string): string {
    StripRight(StripLeft(s))
  }

  /** `s.split("\n")`: the pieces between separators. */
  function Split(s: string, sep: char): (r: seq<string>)
    ensures |r| >= 1
    decreases |s|
  {
    if s == "" then [""]
    else if s[0] == sep then [""] + Split(s[1..], sep)
    else
      var rest := Split(s[1..], sep);
      [[s[0]] + rest[0]] + rest[1..]
  }

  function Joined(lines: seq<string>, sep: char): string {
    if lines == [] then "" else if |lines| == 1 then lines[0] else lines[0] + [sep] + Joined(lines[1..], sep)
  }

  lemma {:induction false} SplitOne(s: string, sep: char, rest: string)
    requires sep !in s
    ensures Split(s, sep) == [s]
    ensures Split(s + [sep] + rest, sep) == [s] + Split(rest, sep)
  {
    var t := s + [sep] + rest;
    if s == "" {
      assert t[1..] == rest;
    } else {
      SplitOne(s[1..], sep, rest);
      assert t[1..] == s[1..] + [sep] + rest;
      assert s == [s[0]] + s[1..];
    }
  }

  lemma {:induction false} SplitJoined(lines: seq<string>, sep: char)
    requires lines != [] && forall i :: 0 <= i < |lines| ==> sep !in lines[i]
    ensures Split(Joined(lines, sep), sep) == lines
  {
    hide Split;
    if |lines| == 1 {
      SplitOne(lines[0], sep, "");
      assert lines == [lines[0]];
    } else {
      SplitOne(lines[0], sep, Joined(lines[1..], sep));
      SplitJoined(lines[1..], sep);
    }
  }

  /** Text without white space at either end is its own strip. */
  predicate Trim(s: string) {
    s != "" && !Space(s[0]) && !Space(s[|s| - 1])
  }

  lemma {:induction false} JoinedTrim(lines: seq<string>, sep: char)
    requires lines != [] && forall i :: 0 <= i < |lines| ==> Trim(lines[i])
    ensures Trim(Joined(lines, sep))
  {
    if |lines| > 1 {
      JoinedTrim(lines[1..], sep);
      var rest := Joined(lines[1..], sep);
      assert Joined(lines, sep)[|Joined(lines, sep)| - 1] == rest[|rest| - 1];
    }
  }
}

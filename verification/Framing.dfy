/** Newline framing of a child process's output, read in arbitrary chunks. */
module Framing {
  import opened Prelude
  import opened Text

  /** Characters that JavaScript's `trim` removes. */
  predicate JsSpace(c: char) {
    var n := c as int;
    || 9 <= n <= 13 || n == 32 || n == 0xA0 || n == 0x1680 || 0x2000 <= n <= 0x200A
    || n == 0x2028 || n == 0x2029 || n == 0x202F || n == 0x205F || n == 0x3000 || n == 0xFEFF
  }

  predicate Blank(s: string) {
    forall i :: 0 <= i < |s| ==> JsSpace(s[i])
  }

  /** The pieces that a newline ends, and what follows the last newline. */
  function Lines(text: string): seq<string> {
    Split(text, '\n')[..|Split(text, '\n')| - 1]
  }

  function Rest(text: string): string {
    Split(text, '\n')[|Split(text, '\n')| - 1]
  }

  function WithoutCr(line: string): string {
    if line != "" && line[|line| - 1] == '\r' then line[..|line| - 1] else line
  }

  /** How a stream is read: the RPC reader also drops one carriage return from each line. */
  datatype Format<E> = Format(dropsCr: bool, parse: string -> Option<E>)

  /** What one line says: blank lines and lines that are not JSON say nothing. */
  function Said<E>(f: Format<E>, line: string): seq<E> {
    var l := if f.dropsCr then WithoutCr(line) else line;
    if Blank(l) || f.parse(l).None? then [] else [f.parse(l).value]
  }

  function Heard<E>(lines: seq<string>, f: Format<E>): seq<E> {
    if lines == [] then [] else Said(f, lines[0]) + Heard(lines[1..], f)
  }

  datatype Reader<E> = Reader(buffer: string, events: seq<E>)

  /** A reader after one more chunk. */
  function Fed<E>(r: Reader<E>, chunk: string, f: Format<E>): Reader<E> {
    var text := r.buffer + chunk;
    Reader(Rest(text), r.events + Heard(Lines(text), f))
  }

  function FedAll<E>(chunks: seq<string>, f: Format<E>): Reader<E> {
    if chunks == [] then Reader("", []) else Fed(FedAll(chunks[..|chunks| - 1], f), chunks[|chunks| - 1], f)
  }

  function Flat(chunks: seq<string>): string {
    if chunks == [] then "" else Flat(chunks[..|chunks| - 1]) + chunks[|chunks| - 1]
  }

  // ---------------------------------------------------------------------------
  // The readers
  // ---------------------------------------------------------------------------

  /** Position of the first newline; the length if there is none. */
  function IndexOf(s: string, c: char): (i: nat)
    ensures i <= |s| && c !in s[..i] && (i < |s| ==> s[i] == c)
  {
    if s == "" || s[0] == c then 0 else
      assert s[..1 + IndexOf(s[1..], c)] == [s[0]] + s[1..][..IndexOf(s[1..], c)];
      1 + IndexOf(s[1..], c)
  }

  class PiRpc<E> {
    var buffer: string
    var events: seq<E>
    const parse: string -> Option<E>
    ghost const format: Format<E> := Format(true, parse)

    constructor (parse: string -> Option<E>)
      ensures this.parse == parse && State() == FedAll([], format)
    {
      this.parse, buffer, events := parse, "", [];
    }

    ghost function State(): Reader<E>
      reads this
    {
      Reader(buffer, events)
    }

    method OnData(chunk: string)
      modifies this
      ensures State() == Fed(old(State()), chunk, format)
    {
      buffer := buffer + chunk;
      assert buffer + "" == buffer;
      Drain();
    }

    method Drain()
      modifies this
      ensures State() == Fed(old(State()), "", format)
    {
      hide Lines, Rest, Heard;
      ghost var text := buffer;
      assert buffer + "" == buffer;
      while '\n' in buffer
        invariant events + Heard(Lines(buffer), format) == old(events) + Heard(Lines(text), format)
        invariant Rest(buffer) == Rest(text)
        decreases |buffer|
      {
        var idx := IndexOf(buffer, '\n');
        FirstLine(buffer, idx, format);
        var line := buffer[..idx];
        buffer := buffer[idx + 1..];
        Emit(line);
      }
      NoLine(buffer, format);
    }

    method Emit(raw: string)
      modifies this`events
      ensures events == old(events) + Said(format, raw)
    {
      var line := raw;
      if line != "" && line[|line| - 1] == '\r' {
        line := line[..|line| - 1];
      }
      if Blank(line) {
        return;
      }
      var evt := parse(line);
      if evt.Some? {
        events := events + [evt.value];
      }
    }
  }

  class AgentOutput<E> {
    var buffer: string
    var events: seq<E>
    const parse: string -> Option<E>
    ghost const format: Format<E> := Format(false, parse)

    constructor (parse: string -> Option<E>)
      ensures this.parse == parse && State() == FedAll([], format)
    {
      this.parse, buffer, events := parse, "", [];
    }

    ghost function State(): Reader<E>
      reads this
    {
      Reader(buffer, events)
    }

    method ProcessLine(line: string)
      modifies this`events
      ensures events == old(events) + Said(format, line)
    {
      if Blank(line) {
        return;
      }
      var event := parse(line);
      if event.Some? {
        events := events + [event.value];
      }
    }

    method OnData(data: string)
      modifies this
      ensures State() == Fed(old(State()), data, format)
    {
      hide Heard, Said;
      var lines := Split(buffer + data, '\n');
      buffer := lines[|lines| - 1];
      ProcessLines(lines[..|lines| - 1]);
    }

    method ProcessLines(lines: seq<string>)
      modifies this`events
      ensures events == old(events) + Heard(lines, format)
    {
      hide Said;
      for i := 0 to |lines|
        invariant old(events) + Heard(lines, format) == events + Heard(lines[i..], format)
      {
        ProcessLine(lines[i]);
        assert lines[i..][1..] == lines[i + 1..];
      }
    }

    /** The child's output has ended: what is left is a line too. */
    method OnClose()
      modifies this`events
      ensures events == old(events) + Said(format, buffer)
    {
      if !Blank(buffer) {
        ProcessLine(buffer);
      }
    }
  }

  lemma FirstLine<E>(s: string, i: nat, f: Format<E>)
    requires i < |s| && '\n' !in s[..i] && s[i] == '\n'
    ensures Lines(s) == [s[..i]] + Lines(s[i + 1..]) && Rest(s) == Rest(s[i + 1..])
    ensures Heard(Lines(s), f) == Said(f, s[..i]) + Heard(Lines(s[i + 1..]), f)
  {
    hide Split, Said;
    var p, rest := s[..i], s[i + 1..];
    SplitOne(p, '\n', rest);
    assert s == p + ['\n'] + rest;
    assert Lines(s) == [p] + Lines(rest);
    assert ([p] + Lines(rest))[1..] == Lines(rest);
  }

  lemma NoLine<E>(s: string, f: Format<E>)
    requires '\n' !in s
    ensures Lines(s) == [] && Rest(s) == s && Heard(Lines(s), f) == []
  {
    hide Split;
    SplitOne(s, '\n', "");
  }

  // ---------------------------------------------------------------------------
  // Chunking
  // ---------------------------------------------------------------------------

  lemma {:induction false} HeardConcat<E>(a: seq<string>, b: seq<string>, f: Format<E>)
    ensures Heard(a + b, f) == Heard(a, f) + Heard(b, f)
  {
    if a == [] {
      assert a + b == b;
    } else {
      assert (a + b)[1..] == a[1..] + b;
      HeardConcat(a[1..], b, f);
    }
  }

  /** Splitting can stop anywhere and go on from the unterminated piece. */
  lemma {:induction false} SplitContinues(a: string, b: string)
    ensures Lines(a + b) == Lines(a) + Lines(Rest(a) + b) && Rest(a + b) == Rest(Rest(a) + b)
    decreases |a|
  {
    hide Split, Lines, Rest;
    if '\n' in a {
      var i := IndexOf(a, '\n');
      assert (a + b)[..i] == a[..i] && (a + b)[i + 1..] == a[i + 1..] + b;
      SplitContinues(a[i + 1..], b);
      FirstLine(a, i, Format(false, l => Some(l)));
      FirstLine(a + b, i, Format(false, l => Some(l)));
    } else {
      NoLine(a, Format(false, l => Some(l)));
    }
  }

  /** However the stream is cut into chunks, a reader has heard the complete lines of the
      whole text and holds its unterminated end. */
  lemma {:induction false} AnyChunking<E>(chunks: seq<string>, f: Format<E>)
    ensures FedAll(chunks, f) == Reader(Rest(Flat(chunks)), Heard(Lines(Flat(chunks)), f))
  {
    hide Lines, Rest, Said;
    if chunks == [] {
      NoLine("", f);
    } else {
      var before, chunk := chunks[..|chunks| - 1], chunks[|chunks| - 1];
      AnyChunking(before, f);
      SplitContinues(Flat(before), chunk);
      HeardConcat(Lines(Flat(before)), Lines(Rest(Flat(before)) + chunk), f);
    }
  }

  /** With the child's end, a subagent's reader has heard every piece of the text. */
  lemma EndHeard<E>(chunks: seq<string>, f: Format<E>)
    ensures FedAll(chunks, f).events + Said(f, FedAll(chunks, f).buffer) == Heard(Split(Flat(chunks), '\n'), f)
  {
    hide Split, Said, FedAll;
    var text := Flat(chunks);
    AnyChunking(chunks, f);
    assert Split(text, '\n') == Lines(text) + [Rest(text)];
    HeardConcat(Lines(text), [Rest(text)], f);
    assert Heard([Rest(text)], f) == Said(f, Rest(text)) + Heard([], f);
  }

  /** Text that the RPC reader turns back into `e`: one line, not blank, no return at its end. */
  ghost predicate Writes<E>(line: string, e: E, parse: string -> Option<E>) {
    '\n' !in line && !Blank(line) && WithoutCr(line) == line && parse(line) == Some(e)
  }

  /** Every line ended by a newline, or by a return and a newline. */
  function Framed(lines: seq<string>, crlf: seq<bool>): string
    requires |lines| == |crlf|
  {
    if lines == [] then "" else lines[0] + (if crlf[0] then "\r" else "") + "\n" + Framed(lines[1..], crlf[1..])
  }

  lemma SaysItsEvent<E>(line: string, cr: string, e: E, parse: string -> Option<E>)
    requires Writes(line, e, parse) && (cr == "" || cr == "\r")
    ensures '\n' !in line + cr && Said(Format(true, parse), line + cr) == [e]
  {
    assert WithoutCr(line + cr) == line;
  }

  lemma {:induction false} FramedHeard<E>(lines: seq<string>, crlf: seq<bool>, es: seq<E>, parse: string -> Option<E>)
    requires |lines| == |crlf| == |es| && forall i :: 0 <= i < |es| ==> Writes(lines[i], es[i], parse)
    ensures var f := Format(true, parse);
            Heard(Lines(Framed(lines, crlf)), f) == es && Rest(Framed(lines, crlf)) == ""
  {
    hide Lines, Rest, Said, Writes;
    var f, text := Format(true, parse), Framed(lines, crlf);
    if lines == [] {
      NoLine("", f);
    } else {
      var cr, rest := if crlf[0] then "\r" else "", Framed(lines[1..], crlf[1..]);
      var p := lines[0] + cr;
      FramedHeard(lines[1..], crlf[1..], es[1..], parse);
      SaysItsEvent(lines[0], cr, es[0], parse);
      assert text[..|p|] == p && text[|p|] == '\n' && text[|p| + 1..] == rest;
      FirstLine(text, |p|, f);
    }
  }

  /** Written one per line and read back in any chunks, the events are the same. */
  lemma FramedRoundTrip<E>(lines: seq<string>, crlf: seq<bool>, es: seq<E>, parse: string -> Option<E>, chunks: seq<string>)
    requires |lines| == |crlf| == |es| && forall i :: 0 <= i < |es| ==> Writes(lines[i], es[i], parse)
    requires Flat(chunks) == Framed(lines, crlf)
    ensures FedAll(chunks, Format(true, parse)) == Reader("", es)
  {
    FramedHeard(lines, crlf, es, parse);
    AnyChunking(chunks, Format(true, parse));
  }
}

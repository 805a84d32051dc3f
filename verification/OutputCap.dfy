/** The byte cap on a subagent's output.

    JavaScript strings are sequences of 16-bit units; their length in bytes is that of their
    UTF-8 form (section 3 of RFC 3629), where a surrogate without its partner is written as
    the replacement character. */
module OutputCap {

  type Unit = x: nat | x < 0x1_0000

  const PER_TASK_OUTPUT_CAP: nat := 50 * 1024

  predicate High(u: Unit) {
    0xD800 <= u < 0xDC00
  }

  predicate Low(u: Unit) {
    0xDC00 <= u < 0xE000
  }

  predicate PairAt(s: seq<Unit>, i: nat) {
    i + 1 < |s| && High(s[i]) && Low(s[i + 1])
  }

  function UnitBytes(u: Unit): nat {
    if u < 0x80 then 1 else if u < 0x800 then 2 else 3
  }

  function ByteLength(s: seq<Unit>): nat {
    if s == [] then 0
    else if PairAt(s, 0) then 4 + ByteLength(s[2..])
    else UnitBytes(s[0]) + ByteLength(s[1..])
  }

  /** An output as it is shown: all of it, or a prefix and the number of bytes reported as
      omitted. */
  datatype Shown = Whole(text: seq<Unit>) | Cut(text: seq<Unit>, omitted: int)

  lemma {:induction false} AtLeastUnits(s: seq<Unit>)
    ensures ByteLength(s) >= |s|
  {
    if s != [] {
      AtLeastUnits(if PairAt(s, 0) then s[2..] else s[1..]);
    }
  }

  /** A cut between the halves of a surrogate pair. */
  predicate SplitsPair(s: seq<Unit>, n: nat) {
    0 < n < |s| && High(s[n - 1]) && Low(s[n])
  }

  /** Cutting is exact in bytes but for a split pair, whose halves count six bytes instead
      of four. */
  lemma {:induction false} CutBytes(s: seq<Unit>, n: nat)
    requires n <= |s|
    ensures ByteLength(s[..n]) + ByteLength(s[n..]) == ByteLength(s) + if SplitsPair(s, n) then 2 else 0
    decreases |s|
  {
    if n == 0 {
      assert s[0..] == s;
    } else if PairAt(s, 0) {
      if n == 1 {
        HalvedPair(s);
      } else {
        assert s[..n][2..] == s[2..][..n - 2] && s[n..] == s[2..][n - 2..];
        CutBytes(s[2..], n - 2);
      }
    } else {
      assert s[..n][1..] == s[1..][..n - 1] && s[n..] == s[1..][n - 1..];
      CutBytes(s[1..], n - 1);
    }
  }

  lemma HalvedPair(s: seq<Unit>)
    requires PairAt(s, 0)
    ensures ByteLength(s[..1]) + ByteLength(s[1..]) == ByteLength(s) + 2
  {
    assert ByteLength(s[..1]) == UnitBytes(s[0]) + ByteLength(s[..1][1..]);
    assert !PairAt(s[1..], 0) && s[1..][1..] == s[2..];
  }

  /** The bytes of a prefix never shrink as it grows. */
  lemma {:induction false} LongerIsMore(s: seq<Unit>, m: nat, n: nat)
    requires m <= n <= |s|
    ensures ByteLength(s[..m]) <= ByteLength(s[..n])
    decreases n
  {
    if m < n {
      LongerIsMore(s, m, n - 1);
      OneMoreUnit(s, n - 1);
    }
  }

  /** One more unit: its own bytes, but one byte where it completes a pair. */
  lemma OneMoreUnit(s: seq<Unit>, n: nat)
    requires n < |s|
    ensures ByteLength(s[..n + 1]) == ByteLength(s[..n]) + if SplitsPair(s, n) then 1 else UnitBytes(s[n])
  {
    var t := s[..n + 1];
    CutBytes(t, n);
    assert t[..n] == s[..n] && t[n..] == [s[n]];
    assert SplitsPair(t, n) <==> SplitsPair(s, n);
    assert ByteLength([s[n]]) == UnitBytes(s[n]) + ByteLength([s[n]][1..]);
  }

  /** A surrogate pair of which the first half ends exactly at the cap. */
  ghost predicate PairAtCap(s: seq<Unit>) {
    exists i :: 0 <= i < |s| && PairAt(s, i) && ByteLength(s[..i]) == PER_TASK_OUTPUT_CAP - 3
  }

  /** The n-unit prefix is the longest that fits. */
  ghost predicate LongestFit(s: seq<Unit>, n: nat) {
    n < |s| && ByteLength(s[..n]) <= PER_TASK_OUTPUT_CAP && ByteLength(s[..n + 1]) > PER_TASK_OUTPUT_CAP
  }

  /** The longest prefix that fits splits a pair exactly when a pair stands across the cap. */
  lemma SplitExactly(s: seq<Unit>, n: nat)
    requires LongestFit(s, n)
    ensures SplitsPair(s, n) <==> PairAtCap(s)
  {
    if SplitsPair(s, n) {
      OneMoreUnit(s, n - 1);
      OneMoreUnit(s, n);
      assert PairAt(s, n - 1);
    }
    if PairAtCap(s) {
      var i :| 0 <= i < |s| && PairAt(s, i) && ByteLength(s[..i]) == PER_TASK_OUTPUT_CAP - 3;
      OneMoreUnit(s, i);
      OneMoreUnit(s, i + 1);
      if n > i + 1 {
        LongerIsMore(s, i + 2, n);
      } else if n < i + 1 {
        LongerIsMore(s, n + 1, i + 1);
      }
    }
  }

  lemma {:induction false} PlainBytes(n: nat)
    ensures ByteLength(seq(n, _ => 97)) == n
  {
    if n > 0 {
      var s: seq<Unit> := seq(n, _ => 97);
      PlainBytes(n - 1);
      assert s[1..] == seq(n - 1, _ => 97);
    }
  }

  /** An output that is cut inside a pair: plain text up to three bytes below the cap, then
      one character of four bytes.  One byte is reported as omitted; three are. */
  lemma SplitOutput(s: seq<Unit>)
    requires s == seq(PER_TASK_OUTPUT_CAP - 3, _ => 97) + [0xD83D, 0xDE00]
    ensures PairAtCap(s) && LongestFit(s, |s| - 1)
    ensures ByteLength(s) - ByteLength(s[..|s| - 1]) == 1 && ByteLength(s[|s| - 1..]) == 3
  {
    var i := PER_TASK_OUTPUT_CAP - 3;
    PlainBytes(i);
    assert s[..i] == seq(i, _ => 97) && PairAt(s, i);
    OneMoreUnit(s, i);
    OneMoreUnit(s, i + 1);
    assert s[..|s|] == s && s[|s| - 1..] == [0xDE00];
    assert ByteLength([0xDE00]) == UnitBytes(0xDE00) + ByteLength([0xDE00][1..]);
  }

  /** The cut keeps the longest prefix that fits, and an output that fits is kept whole.  The
      number reported is the size of what was left out exactly when no surrogate pair stands
      across the cap. */
  method TruncateParallelOutput(output: seq<Unit>) returns (r: Shown)
    ensures r.Whole? <==> ByteLength(output) <= PER_TASK_OUTPUT_CAP
    ensures r.Whole? ==> r.text == output
    ensures r.Cut? ==>
              && |r.text| < |output| && r.text == output[..|r.text|] && ByteLength(r.text) <= PER_TASK_OUTPUT_CAP
              && (forall n :: |r.text| < n <= |output| ==> ByteLength(output[..n]) > PER_TASK_OUTPUT_CAP)
              && r.omitted == ByteLength(output) - ByteLength(r.text)
              && (r.omitted == ByteLength(output[|r.text|..]) <==> !PairAtCap(output))
  {
    var byteLength := ByteLength(output);
    if byteLength <= PER_TASK_OUTPUT_CAP {
      return Whole(output);
    }
    assert output[..|output|] == output;
    var truncated := if |output| <= PER_TASK_OUTPUT_CAP then output else output[..PER_TASK_OUTPUT_CAP];
    forall n | |truncated| < n <= |output| ensures ByteLength(output[..n]) > PER_TASK_OUTPUT_CAP {
      AtLeastUnits(output[..n]);
    }
    while ByteLength(truncated) > PER_TASK_OUTPUT_CAP
      invariant |truncated| <= |output| && truncated == output[..|truncated|]
      invariant forall n :: |truncated| < n <= |output| ==> ByteLength(output[..n]) > PER_TASK_OUTPUT_CAP
      decreases |truncated|
    {
      truncated := truncated[..|truncated| - 1];
    }
    SplitExactly(output, |truncated|);
    CutBytes(output, |truncated|);
    return Cut(truncated, byteLength - ByteLength(truncated));
  }
}

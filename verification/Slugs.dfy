/** Slugs with a numeric suffix, and why the search for a free one ends. */
module Slugs {

  function Digits(n: nat): (s: string)
    ensures s != ""
  {
    var d := ['0' + (n % 10) as char];
    if n < 10 then d else Digits(n / 10) + d
  }

  /** A number as its decimal digits are read. */
  function Value(s: string): int {
    if s == "" then 0 else 10 * Value(s[..|s| - 1]) + (s[|s| - 1] as int - '0' as int)
  }

  lemma {:induction false} DigitsRead(n: nat)
    ensures Value(Digits(n)) == n && (n > 0 ==> Digits(n)[0] != '0') && forall i :: 0 <= i < |Digits(n)| ==> '0' <= Digits(n)[i] <= '9'
  {
    var d := ['0' + (n % 10) as char];
    if n < 10 {
      assert d[..0] == "" && Value(d) == 10 * Value(d[..0]) + n;
    } else {
      DigitsRead(n / 10);
      assert (Digits(n / 10) + d)[..|Digits(n / 10)|] == Digits(n / 10);
    }
  }

  lemma {:induction false} DigitsInjective(a: nat, b: nat)
    requires Digits(a) == Digits(b)
    ensures a == b
  {
    var s, t := Digits(a), Digits(b);
    assert s[|s| - 1] == '0' + (a % 10) as char && t[|t| - 1] == '0' + (b % 10) as char;
    if a >= 10 && b >= 10 {
      assert s[..|s| - 1] == Digits(a / 10) && t[..|t| - 1] == Digits(b / 10);
      DigitsInjective(a / 10, b / 10);
    }
  }

  function Candidate(base: string, i: nat): string {
    base + "-" + Digits(i)
  }

  lemma CandidateInjective(base: string, i: nat, j: nat)
    requires Candidate(base, i) == Candidate(base, j)
    ensures i == j
  {
    assert Candidate(base, i)[|base| + 1..] == Digits(i);
    assert Candidate(base, j)[|base| + 1..] == Digits(j);
    DigitsInjective(i, j);
  }

  /** The candidates with a suffix from 2 up to, but not including, n. */
  function Candidates(base: string, n: nat): set<string> {
    set i | 2 <= i < n :: Candidate(base, i)
  }

  lemma {:induction false} CandidatesCount(base: string, n: nat)
    requires n >= 2
    ensures |Candidates(base, n)| == n - 2
  {
    if n > 2 {
      CandidatesCount(base, n - 1);
      assert Candidates(base, n) == Candidates(base, n - 1) + {Candidate(base, n - 1)};
      forall i | 2 <= i < n - 1 ensures Candidate(base, i) != Candidate(base, n - 1) {
        if Candidate(base, i) == Candidate(base, n - 1) {
          CandidateInjective(base, i, n - 1);
        }
      }
    } else {
      assert Candidates(base, 2) == {};
    }
  }

  lemma SubsetCount(a: set<string>, b: set<string>)
    requires a <= b
    ensures |a| <= |b|
  {
    assert b == a + (b - a);
  }

  /** Only so many candidates can be taken. */
  lemma Pigeonhole(base: string, existing: set<string>, n: nat)
    requires n >= 2 && Candidates(base, n) <= existing
    ensures n - 2 <= |existing|
  {
    CandidatesCount(base, n);
    SubsetCount(Candidates(base, n), existing);
  }

  /** The first suffix from i on whose candidate is free. */
  function FirstFree(base: string, existing: set<string>, i: nat): (s: string)
    requires i >= 2 && Candidates(base, i) <= existing
    ensures s !in existing && exists k: nat :: k >= i && s == Candidate(base, k) && Candidates(base, k) <= existing
    decreases |existing| + 2 - i
  {
    Pigeonhole(base, existing, i);
    if Candidate(base, i) !in existing then Candidate(base, i)
    else
      assert Candidates(base, i + 1) == Candidates(base, i) + {Candidate(base, i)};
      Pigeonhole(base, existing, i + 1);
      FirstFree(base, existing, i + 1)
  }

  function FreeSlug(base: string, existing: set<string>): (s: string)
    ensures s !in existing && (base !in existing ==> s == base)
    ensures base in existing ==> exists k: nat :: k >= 2 && s == Candidate(base, k) && Candidates(base, k) <= existing
  {
    assert Candidates(base, 2) == {};
    if base !in existing then base else FirstFree(base, existing, 2)
  }

  method UniqueSlug(existing: set<string>, base: string) returns (slug: string)
    ensures slug == FreeSlug(base, existing) && slug !in existing && (base !in existing ==> slug == base)
    ensures base in existing ==> exists k: nat :: k >= 2 && slug == base + "-" + Digits(k) && Candidates(base, k) <= existing
  {
    if base !in existing {
      return base;
    }
    var i := 2;
    assert Candidates(base, 2) == {};
    while Candidate(base, i) in existing
      invariant i >= 2 && Candidates(base, i) <= existing
      invariant FirstFree(base, existing, i) == FreeSlug(base, existing)
      decreases |existing| + 2 - i
    {
      assert Candidates(base, i + 1) == Candidates(base, i) + {Candidate(base, i)};
      Pigeonhole(base, existing, i + 1);
      i := i + 1;
    }
    return Candidate(base, i);
  }
}

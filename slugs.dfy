/** The slugs `create_page` tries for a page name: the slugified name
    itself, then the same with `-1`, `-2`, ... appended, until one is not
    used by any page. Django's `slugify` is not part of this model: it is an
    arbitrary function the store is given. */
module Slugs {

  function DigitChar(d: nat): (c: char)
    requires d < 10
    ensures '0' <= c <= '9' && c as int - '0' as int == d
  {
    "0123456789"[d]
  }

  /** Python's `str(n)` for a natural number: its decimal digits. */
  function NatToString(n: nat): (s: string)
    ensures |s| >= 1
    ensures forall i :: 0 <= i < |s| ==> '0' <= s[i] <= '9'
    decreases n
  {
    if n < 10 then [DigitChar(n)] else NatToString(n / 10) + [DigitChar(n % 10)]
  }

  /** Only one-digit numbers have one-character strings. */
  lemma NatToStringShort(n: nat)
    ensures |NatToString(n)| == 1 <==> n < 10
  {
  }

  /** Distinct numbers have distinct decimal strings. */
  lemma {:induction false} NatToStringInjective(a: nat, b: nat)
    ensures NatToString(a) == NatToString(b) ==> a == b
    decreases a
  {
    if NatToString(a) == NatToString(b) {
      var s := NatToString(a);
      NatToStringShort(a);
      NatToStringShort(b);
      if a < 10 {
        assert b < 10;
        assert DigitChar(a) == s[0] == DigitChar(b);
      } else {
        assert b >= 10;
        var pa, pb := NatToString(a / 10), NatToString(b / 10);
        assert s == pa + [DigitChar(a % 10)] == pb + [DigitChar(b % 10)];
        assert |pa| == |pb|;
        assert DigitChar(a % 10) == s[|s| - 1] == DigitChar(b % 10);
        assert pa == s[..|s| - 1] == pb;
        NatToStringInjective(a / 10, b / 10);
      }
    }
  }

  /** The `k`-th slug tried: `base` first, then `f"{base}-{k}"`. */
  function Candidate(base: string, k: nat): (s: string)
    ensures base <= s
    ensures k > 0 ==> |s| > |base| + 1 && s[|base|] == '-'
  {
    if k == 0 then base else base + "-" + NatToString(k)
  }

  /** Different counters give different slugs. */
  lemma CandidateInjective(base: string, j: nat, k: nat)
    ensures Candidate(base, j) == Candidate(base, k) ==> j == k
  {
    if Candidate(base, j) == Candidate(base, k) && j > 0 && k > 0 {
      var n := |base| + 1;
      assert NatToString(j) == Candidate(base, j)[n..] == Candidate(base, k)[n..] == NatToString(k);
      NatToStringInjective(j, k);
    }
  }

  /** The first `n` slugs tried. */
  function Candidates(base: string, n: nat): set<string>
  {
    set k | 0 <= k < n :: Candidate(base, k)
  }

  lemma {:induction false} CandidatesCount(base: string, n: nat)
    ensures |Candidates(base, n)| == n
  {
    if n > 0 {
      CandidatesCount(base, n - 1);
      assert Candidates(base, n) == Candidates(base, n - 1) + {Candidate(base, n - 1)};
      forall k | 0 <= k < n - 1 ensures Candidate(base, k) != Candidate(base, n - 1) {
        CandidateInjective(base, k, n - 1);
      }
    }
  }

  /** If the first `n` slugs tried are all taken, at least `n` slugs are in
      use: the search in `create_page` stops after at most `|used| + 1` tries. */
  lemma TakenCandidatesBound(base: string, n: nat, used: set<string>)
    requires forall k :: 0 <= k < n ==> Candidate(base, k) in used
    ensures n <= |used|
  {
    CandidatesCount(base, n);
    SubsetCount(Candidates(base, n), used);
  }

  lemma {:induction false} SubsetCount(a: set<string>, b: set<string>)
    requires a <= b
    ensures |a| <= |b|
    decreases |a|
  {
    if a != {} {
      var x :| x in a;
      SubsetCount(a - {x}, b - {x});
    }
  }

  /** `s` is what the loop of `create_page` settles on: the first slug in
      the sequence not already in `used`. */
  ghost predicate IsFirstFreeSlug(base: string, used: set<string>, s: string)
  {
    exists k: nat :: s == Candidate(base, k) && s !in used &&
      forall j :: 0 <= j < k ==> Candidate(base, j) in used
  }

  /** There is only one first free slug. */
  lemma FirstFreeSlugUnique(base: string, used: set<string>, s: string, t: string)
    requires IsFirstFreeSlug(base, used, s) && IsFirstFreeSlug(base, used, t)
    ensures s == t
  {
    var j: nat :| s == Candidate(base, j) && s !in used && forall i :: 0 <= i < j ==> Candidate(base, i) in used;
    var k: nat :| t == Candidate(base, k) && t !in used && forall i :: 0 <= i < k ==> Candidate(base, i) in used;
    assert j < k ==> Candidate(base, j) in used;
    assert k < j ==> Candidate(base, k) in used;
  }

  /** Creating two pages with the same name when neither slug is taken
      gives them `base` and `base-1`. */
  lemma SameNameTwice(base: string, used: set<string>)
    requires base !in used && base + "-1" !in used
    ensures IsFirstFreeSlug(base, used, base)
    ensures forall s :: IsFirstFreeSlug(base, used + {base}, s) <==> s == base + "-1"
  {
    assert Candidate(base, 0) == base;
    assert NatToString(1) == "1";
    assert Candidate(base, 1) == base + "-1";
    assert IsFirstFreeSlug(base, used + {base}, base + "-1");
    forall s | IsFirstFreeSlug(base, used + {base}, s) ensures s == base + "-1" {
      FirstFreeSlugUnique(base, used + {base}, s, base + "-1");
    }
  }
}

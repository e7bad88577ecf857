/** Making a slug unique: the loop that tries numeric suffixes until one is free. */
module Slugs {
  import opened Numerals

  /** The n-th slug tried: the base itself, then the base with suffixes from 2 on. */
  function Candidate(slug: string, n: nat): string
    requires n >= 1
  {
    if n == 1 then slug else slug + "-" + Digits(n)
  }

  lemma CandidatesDiffer(slug: string, m: nat, n: nat)
    requires 1 <= m < n
    ensures Candidate(slug, m) != Candidate(slug, n)
  {
    var suffix := "-" + Digits(n);
    assert slug + "-" + Digits(n) == slug + suffix;
    if m > 1 && Candidate(slug, m) == Candidate(slug, n) {
      assert Candidate(slug, m)[|slug| + 1..] == Digits(m);
      assert Candidate(slug, n)[|slug| + 1..] == Digits(n);
      DigitsReadBack(m);
      DigitsReadBack(n);
    }
  }

  lemma {:induction false} SubsetIsSmaller(a: set<string>, b: set<string>)
    requires a <= b
    ensures |a| <= |b|
    ensures a != b ==> |a| < |b|
  {
    assert b == a + (b - a);
    assert |b| == |a| + |b - a|;
    if a != b {
      assert b - a != {};
    }
  }

  /**
   Stops for every finite set of slugs already taken, with the first candidate that is free, having
   met no more taken candidates than there are taken slugs.
   */
  method UniqueSlugify(slug: string, taken: set<string>) returns (unique: string, ghost tries: nat)
    ensures unique !in taken
    ensures 1 <= tries <= |taken| + 1
    ensures unique == if tries == 1 then slug else slug + "-" + Digits(tries)
    ensures tries > 1 ==> slug in taken
    ensures forall k | 2 <= k < tries :: slug + "-" + Digits(k) in taken
  {
    unique := slug;
    var counter := 2;
    tries := 1;
    ghost var rejected: set<string> := {};
    while unique in taken
      invariant counter == tries + 1 && tries >= 1 && unique == Candidate(slug, tries)
      invariant rejected <= taken && |rejected| == tries - 1
      invariant forall k | 1 <= k < tries :: Candidate(slug, k) in taken
      invariant forall s <- rejected :: exists k | 1 <= k < tries :: s == Candidate(slug, k)
      decreases |taken| - |rejected|
    {
      forall k | 1 <= k < tries
        ensures Candidate(slug, k) != unique
      {
        CandidatesDiffer(slug, k, tries);
      }
      ghost var more := rejected + {unique};
      SubsetIsSmaller(more, taken);
      assert forall s <- more :: exists k | 1 <= k < tries + 1 :: s == Candidate(slug, k);
      rejected := more;
      unique := slug + "-" + Digits(counter);
      counter := counter + 1;
      tries := tries + 1;
    }
    SubsetIsSmaller(rejected, taken);
    forall k | 2 <= k < tries
      ensures slug + "-" + Digits(k) in taken
    {
      assert Candidate(slug, k) in taken;
    }
    assert tries > 1 ==> Candidate(slug, 1) in taken;
  }
}

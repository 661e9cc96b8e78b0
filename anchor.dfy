/** Unique heading anchors: a slug already taken gets the first free suffix
    `-2`, `-3`, … */
module Anchor {
  import opened Decimal

  /** `f"{anchor}-{i}"`. */
  function Candidate(anchor: string, i: nat): string {
    anchor + "-" + ToString(i)
  }

  /** Different suffixes give different candidates. */
  lemma {:induction false} CandidateInjective(anchor: string, i: nat, j: nat)
    requires Candidate(anchor, i) == Candidate(anchor, j)
    ensures i == j
  {
    var n := |anchor| + 1;
    assert Candidate(anchor, i)[n..] == ToString(i);
    assert Candidate(anchor, j)[n..] == ToString(j);
    ToStringInjective(i, j);
  }

  /** The candidates with suffixes from 2 up to, not including, `i`. */
  function Tried(anchor: string, i: nat): set<string>
    decreases i
  {
    if i <= 2 then {} else Tried(anchor, i - 1) + {Candidate(anchor, i - 1)}
  }

  lemma {:induction false} TriedHas(anchor: string, i: nat, k: nat)
    requires 2 <= k < i
    ensures Candidate(anchor, k) in Tried(anchor, i)
    decreases i
  {
    if k < i - 1 {
      TriedHas(anchor, i - 1, k);
    }
  }

  lemma {:induction false} NotTried(anchor: string, i: nat, j: nat)
    requires j >= i
    ensures Candidate(anchor, j) !in Tried(anchor, i)
    decreases i
  {
    if i > 2 {
      NotTried(anchor, i - 1, j);
      if Candidate(anchor, j) == Candidate(anchor, i - 1) {
        CandidateInjective(anchor, j, i - 1);
      }
    }
  }

  lemma {:induction false} TriedSize(anchor: string, i: nat)
    requires i >= 2
    ensures |Tried(anchor, i)| == i - 2
    decreases i
  {
    if i > 2 {
      TriedSize(anchor, i - 1);
      NotTried(anchor, i - 1, i - 1);
    }
  }

  lemma {:induction false} SubsetSize(a: set<string>, b: set<string>)
    requires a <= b
    ensures |a| <= |b|
  {
    assert b == a + (b - a);
  }

  /** The first suffix from `i` on whose candidate is free, given that every
      candidate below `i` is taken. */
  function FirstFree(anchor: string, existing: set<string>, i: nat): (j: nat)
    requires i >= 2 && Tried(anchor, i) <= existing
    ensures j >= i && Candidate(anchor, j) !in existing && Tried(anchor, j) <= existing
    decreases |existing| + 2 - i
  {
    TriedSize(anchor, i);
    SubsetSize(Tried(anchor, i), existing);
    if Candidate(anchor, i) !in existing then i
    else
      TriedSize(anchor, i + 1);
      SubsetSize(Tried(anchor, i + 1), existing);
      FirstFree(anchor, existing, i + 1)
  }

  /** The anchor a heading gets when the anchors in `existing` are taken. */
  function Dedupe(anchor: string, existing: set<string>): (a: string)
    ensures a !in existing
    ensures anchor !in existing ==> a == anchor
  {
    if anchor !in existing then anchor else Candidate(anchor, FirstFree(anchor, existing, 2))
  }

  /** A taken anchor gets the smallest suffix `i >= 2` whose candidate is
      free: any such `i` is the one chosen. */
  lemma {:induction false} DedupeSmallest(anchor: string, existing: set<string>, i: nat)
    requires anchor in existing && i >= 2 && Candidate(anchor, i) !in existing
    requires forall k :: 2 <= k < i ==> Candidate(anchor, k) in existing
    ensures Dedupe(anchor, existing) == Candidate(anchor, i)
  {
    var j := FirstFree(anchor, existing, 2);
    if i < j {
      TriedHas(anchor, j, i);
    }
  }

  /** The suffix search of the heading branch. */
  method UniqueAnchor(anchor: string, existing: set<string>) returns (a: string)
    ensures a == Dedupe(anchor, existing)
  {
    a := anchor;
    if anchor in existing {
      var i := 2;
      while Candidate(anchor, i) in existing
        invariant i >= 2 && Tried(anchor, i) <= existing
        decreases |existing| + 2 - i
      {
        TriedSize(anchor, i + 1);
        SubsetSize(Tried(anchor, i + 1), existing);
        i := i + 1;
      }
      a := Candidate(anchor, i);
      forall k | 2 <= k < i
        ensures Candidate(anchor, k) in existing
      {
        TriedHas(anchor, i, k);
      }
      DedupeSmallest(anchor, existing, i);
    }
  }
}

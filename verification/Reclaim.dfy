/**
  What every scan of a retired array is meant to do, whatever algorithm it uses: keep the
  pointers that some guard holds and dispose of the others, each exactly once.
 */
module Reclaim {
  type Ptr = nat      // 0 is nullptr

  /** A retired array is split into kept and disposed pointers, kept exactly when hazardous. */
  ghost predicate ScanOutcome(retired: seq<Ptr>, hazards: set<Ptr>, kept: seq<Ptr>, gone: seq<Ptr>) {
    && multiset(kept) + multiset(gone) == multiset(retired)
    && (forall p :: p in kept ==> p in hazards)
    && (forall p :: p in gone ==> p !in hazards)
  }

  /** The hazardous pointers of a, in order. */
  function Keep(a: seq<Ptr>, hazards: set<Ptr>): (kept: seq<Ptr>)
    ensures |kept| <= |a|
  {
    if a == [] then []
    else
      var n := |a| - 1;
      Keep(a[..n], hazards) + if a[n] in hazards then [a[n]] else []
  }

  /** The other pointers of a, in order. */
  function Drop(a: seq<Ptr>, hazards: set<Ptr>): (gone: seq<Ptr>)
    ensures |gone| <= |a|
  {
    if a == [] then []
    else
      var n := |a| - 1;
      Drop(a[..n], hazards) + if a[n] in hazards then [] else [a[n]]
  }

  lemma KeepDropNext(a: seq<Ptr>, n: nat, hazards: set<Ptr>)
    requires n < |a|
    ensures Keep(a[..n + 1], hazards) == Keep(a[..n], hazards) + if a[n] in hazards then [a[n]] else []
    ensures Drop(a[..n + 1], hazards) == Drop(a[..n], hazards) + if a[n] in hazards then [] else [a[n]]
  {
    assert a[..n + 1][..n] == a[..n];
  }

  lemma {:induction false} KeepDropMembers(a: seq<Ptr>, hazards: set<Ptr>, p: Ptr)
    ensures p in Keep(a, hazards) <==> p in a && p in hazards
    ensures p in Drop(a, hazards) <==> p in a && p !in hazards
  {
    if a != [] {
      KeepDropMembers(a[..|a| - 1], hazards, p);
      assert a == a[..|a| - 1] + [a[|a| - 1]];
    }
  }

  lemma CountSnoc(a: seq<Ptr>, x: Ptr, p: Ptr)
    ensures multiset(a + [x])[p] == multiset(a)[p] + if x == p then 1 else 0
  {
  }

  /** One more pointer is kept or disposed of, never both and never neither. */
  lemma KeepDropOne(kept: seq<Ptr>, gone: seq<Ptr>, a: seq<Ptr>, x: Ptr, keep: bool, p: Ptr)
    requires multiset(kept)[p] + multiset(gone)[p] == multiset(a)[p] && |kept| + |gone| == |a|
    ensures var k, g := kept + if keep then [x] else [], gone + if keep then [] else [x];
      multiset(k)[p] + multiset(g)[p] == multiset(a + [x])[p] && |k| + |g| == |a| + 1
  {
    CountSnoc(a, x, p);
    if keep { CountSnoc(kept, x, p); assert gone + [] == gone; } else { CountSnoc(gone, x, p); assert kept + [] == kept; }
  }

  lemma {:induction false} KeepDropCounts(a: seq<Ptr>, hazards: set<Ptr>, p: Ptr)
    ensures multiset(Keep(a, hazards))[p] + multiset(Drop(a, hazards))[p] == multiset(a)[p]
    ensures |Keep(a, hazards)| + |Drop(a, hazards)| == |a|
  {
    if a != [] {
      var n := |a| - 1;
      var b, x := a[..n], a[n];
      KeepDropCounts(b, hazards, p);
      KeepDropOne(Keep(b, hazards), Drop(b, hazards), b, x, x in hazards, p);
      KeepDropLast(a, hazards);
      assert a == b + [x];
    }
  }

  lemma {:induction false} KeepDropLast(a: seq<Ptr>, hazards: set<Ptr>)
    requires a != []
    ensures var b, x := a[..|a| - 1], a[|a| - 1];
      && Keep(a, hazards) == Keep(b, hazards) + (if x in hazards then [x] else [])
      && Drop(a, hazards) == Drop(b, hazards) + (if x in hazards then [] else [x])
  {
  }

  lemma KeepDropSplit(a: seq<Ptr>, hazards: set<Ptr>)
    ensures ScanOutcome(a, hazards, Keep(a, hazards), Drop(a, hazards))
  {
    var both := multiset(Keep(a, hazards)) + multiset(Drop(a, hazards));
    forall p ensures both[p] == multiset(a)[p] {
      KeepDropCounts(a, hazards, p);
    }
    assert both == multiset(a);
    forall p ensures p in Keep(a, hazards) ==> p in hazards {
      KeepDropMembers(a, hazards, p);
    }
    forall p ensures p in Drop(a, hazards) ==> p !in hazards {
      KeepDropMembers(a, hazards, p);
    }
  }

  /** Any outcome of a permutation of an array is an outcome of the array. */
  lemma OutcomeOfPermutation(a: seq<Ptr>, b: seq<Ptr>, hazards: set<Ptr>)
    requires multiset(a) == multiset(b)
    ensures ScanOutcome(a, hazards, Keep(b, hazards), Drop(b, hazards))
  {
    KeepDropSplit(b, hazards);
  }

  lemma {:induction false} KeepAll(a: seq<Ptr>, hazards: set<Ptr>)
    requires forall i :: 0 <= i < |a| ==> a[i] in hazards
    ensures Keep(a, hazards) == a && Drop(a, hazards) == []
  {
    if a != [] {
      KeepAll(a[..|a| - 1], hazards);
      assert a == a[..|a| - 1] + [a[|a| - 1]];
    }
  }

  lemma {:induction false} DropAll(a: seq<Ptr>, hazards: set<Ptr>)
    requires forall i :: 0 <= i < |a| ==> a[i] !in hazards
    ensures Keep(a, hazards) == [] && Drop(a, hazards) == a
  {
    if a != [] {
      DropAll(a[..|a| - 1], hazards);
      assert a == a[..|a| - 1] + [a[|a| - 1]];
    }
  }

  lemma TwiceInSeq(a: seq<Ptr>, i: nat, j: nat)
    requires i < |a| && j < |a| && i != j && a[i] == a[j]
    ensures multiset(a)[a[i]] >= 2
  {
    var lo, hi := if i < j then i else j, if i < j then j else i;
    assert a == a[..hi] + [a[hi]] + a[hi + 1..];
    assert a[lo] in multiset(a[..hi]);
  }

  ghost predicate Distinct(a: seq<Ptr>) {
    forall i, j :: 0 <= i < j < |a| ==> a[i] != a[j]
  }

  lemma DistinctCount(a: seq<Ptr>)
    ensures Distinct(a) <==> forall p :: multiset(a)[p] <= 1
  {
    if Distinct(a) {
      forall p ensures multiset(a)[p] <= 1 { AtMostOnce(a, p); }
    }
    if forall p :: multiset(a)[p] <= 1 {
      forall i, j | 0 <= i < j < |a| ensures a[i] != a[j] {
        if a[i] == a[j] { TwiceInSeq(a, i, j); }
      }
    }
  }

  lemma {:induction false} AtMostOnce(a: seq<Ptr>, p: Ptr)
    requires Distinct(a)
    ensures multiset(a)[p] <= 1
  {
    if a != [] {
      var n := |a| - 1;
      AtMostOnce(a[..n], p);
      assert a == a[..n] + [a[n]];
      if a[n] == p { assert p !in a[..n]; }
    }
  }

  /** Distinct members of a set are no more than the set has. */
  lemma {:induction false} DistinctFitIn(a: seq<Ptr>, b: set<Ptr>)
    requires Distinct(a)
    requires forall p :: p in a ==> p in b
    ensures |a| <= |b|
  {
    if a != [] {
      var n := |a| - 1;
      assert a[n] in b;
      forall p | p in a[..n] ensures p in b - {a[n]} {
        assert p in a;
      }
      DistinctFitIn(a[..n], b - {a[n]});
    }
  }

  function Members(a: seq<Ptr>): (m: set<Ptr>) {
    set p | p in a
  }

  lemma {:induction false} MembersFit(a: seq<Ptr>)
    ensures |Members(a)| <= |a|
  {
    if a != [] {
      var n := |a| - 1;
      MembersFit(a[..n]);
      assert Members(a) == Members(a[..n]) + {a[n]};
    }
  }

  lemma Pigeonhole(all: seq<Ptr>, a: seq<Ptr>)
    requires |all| > |a| && forall p :: p in all ==> p in a
    ensures exists p :: multiset(all)[p] >= 2
  {
    assert !Distinct(all) by {
      if Distinct(all) {
        DistinctFitIn(all, Members(a));
        MembersFit(a);
      }
    }
    var i, j :| 0 <= i < j < |all| && all[i] == all[j];
    TwiceInSeq(all, i, j);
  }
}

/**
  The two scan algorithms of deps/cds/src/hp.cpp on a retired array in memory.

  inplace_scan sorts the array, then records which pointers are guarded in the lowest bit of the
  sorted keys themselves while it keeps searching among them, then compacts.  classic_scan
  collects the guards in a list and searches that; as written (line 426) it searches for the
  first retired pointer every time.  Disposers travel with their pointers and are not modelled.
 */
module HazardScan {
  import opened Common
  import opened Reclaim

  /** What a scan reads of one thread record. */
  datatype RecordView = RecordView(owner: nat, guards: seq<Ptr>)

  function NonNull(guards: seq<Ptr>): (h: set<Ptr>) {
    set p | p in guards && p != 0
  }

  /** The pointers held by guards of owned records. */
  function Hazards(list: seq<RecordView>): (h: set<Ptr>) {
    if list == [] then {}
    else
      var last := list[|list| - 1];
      Hazards(list[..|list| - 1]) + if last.owner == 0 then {} else NonNull(last.guards)
  }

  /** Some guard of a record with an owner holds p. */
  ghost predicate Guarded(list: seq<RecordView>, p: Ptr) {
    p != 0 && exists i, k :: 0 <= i < |list| && 0 <= k < |list[i].guards| && list[i].owner != 0 && list[i].guards[k] == p
  }

  lemma {:induction false} HazardsAreGuarded(list: seq<RecordView>, p: Ptr)
    ensures p in Hazards(list) <==> Guarded(list, p)
  {
    if list != [] {
      var n := |list| - 1;
      HazardsAreGuarded(list[..n], p);
      if Guarded(list[..n], p) {
        var i, k :| 0 <= i < n && 0 <= k < |list[..n][i].guards| && list[..n][i].owner != 0 && list[..n][i].guards[k] == p;
        assert list[i].guards[k] == p;
      }
      if Guarded(list, p) {
        var i, k :| 0 <= i < |list| && 0 <= k < |list[i].guards| && list[i].owner != 0 && list[i].guards[k] == p;
        if i < n { assert list[..n][i].guards[k] == p; }
      }
    }
  }

  /** What a scan is for: of the pointers `a`, exactly the guarded ones are kept and exactly the
      others disposed of, each copy once. */
  ghost predicate Spares(list: seq<RecordView>, a: seq<Ptr>, kept: seq<Ptr>, gone: seq<Ptr>) {
    forall p ::
      && (p in kept <==> p in a && Guarded(list, p))
      && (p in gone <==> p in a && !Guarded(list, p))
      && multiset(kept)[p] + multiset(gone)[p] == multiset(a)[p]
  }

  lemma KeepDropSpares(list: seq<RecordView>, a: seq<Ptr>, b: seq<Ptr>)
    requires multiset(a) == multiset(b)
    ensures Spares(list, a, Keep(b, Hazards(list)), Drop(b, Hazards(list)))
  {
    var h := Hazards(list);
    forall p ensures (p in Keep(b, h) <==> p in a && Guarded(list, p)) && (p in Drop(b, h) <==> p in a && !Guarded(list, p))
      && multiset(Keep(b, h))[p] + multiset(Drop(b, h))[p] == multiset(a)[p]
    {
      HazardsAreGuarded(list, p);
      KeepDropMembers(b, h, p);
      KeepDropCounts(b, h, p);
      assert p in a <==> p in multiset(a);
      assert p in b <==> p in multiset(b);
    }
  }

  ghost predicate Ascending(a: seq<Ptr>) {
    forall i, j :: 0 <= i < j < |a| ==> a[i] <= a[j]
  }

  ghost predicate Strict(a: seq<Ptr>) {
    forall i, j :: 0 <= i < j < |a| ==> a[i] < a[j]
  }

  /** All pointers have a zero lowest bit, which inplace_scan needs for its marks. */
  predicate Aligned(a: seq<Ptr>) {
    forall i :: 0 <= i < |a| ==> a[i] % 2 == 0
  }

  // ---------------------------------------------------------------- sorting and searching

  function Insert(a: seq<Ptr>, p: Ptr): (b: seq<Ptr>)
    ensures |b| == |a| + 1
  {
    if a == [] || a[|a| - 1] <= p then a + [p]
    else Insert(a[..|a| - 1], p) + [a[|a| - 1]]
  }

  /** The result of std::sort. */
  function Sorted(a: seq<Ptr>): (b: seq<Ptr>)
    ensures |b| == |a|
  {
    if a == [] then [] else Insert(Sorted(a[..|a| - 1]), a[|a| - 1])
  }

  lemma {:induction false} InsertBelow(a: seq<Ptr>, p: Ptr, top: Ptr)
    requires p <= top && forall i :: 0 <= i < |a| ==> a[i] <= top
    ensures forall i :: 0 <= i < |a| + 1 ==> Insert(a, p)[i] <= top
  {
    if a != [] && a[|a| - 1] > p { InsertBelow(a[..|a| - 1], p, top); }
  }

  lemma {:induction false} InsertKeeps(a: seq<Ptr>, p: Ptr)
    requires Ascending(a)
    ensures Ascending(Insert(a, p))
    ensures multiset(Insert(a, p)) == multiset(a) + multiset{p}
  {
    if a != [] && a[|a| - 1] > p {
      var n := |a| - 1;
      InsertKeeps(a[..n], p);
      InsertBelow(a[..n], p, a[n]);
      assert a == a[..n] + [a[n]];
      assert multiset(Insert(a, p)) == multiset(Insert(a[..n], p)) + multiset{a[n]};
    }
  }

  lemma {:induction false} SortedSorts(a: seq<Ptr>)
    ensures Ascending(Sorted(a))
    ensures multiset(Sorted(a)) == multiset(a)
  {
    if a != [] {
      var n := |a| - 1;
      SortedSorts(a[..n]);
      InsertKeeps(Sorted(a[..n]), a[n]);
      assert a == a[..n] + [a[n]];
    }
  }

  /** Sorting distinct aligned pointers gives strictly ascending aligned pointers. */
  lemma SortedStrict(a: seq<Ptr>)
    requires Distinct(a) && Aligned(a)
    ensures Strict(Sorted(a)) && Aligned(Sorted(a))
  {
    var b := Sorted(a);
    SortedSorts(a);
    DistinctCount(a);
    DistinctCount(b);
    forall i | 0 <= i < |b| ensures b[i] % 2 == 0 {
      assert b[i] in multiset(b);
      assert b[i] in a;
    }
  }

  lemma {:induction false} KeepAscending(a: seq<Ptr>, hazards: set<Ptr>)
    requires Ascending(a)
    ensures Ascending(Keep(a, hazards))
  {
    if a != [] {
      var n := |a| - 1;
      KeepAscending(a[..n], hazards);
      var k := Keep(a[..n], hazards);
      forall j | 0 <= j < |k| ensures k[j] <= a[n] {
        KeepDropMembers(a[..n], hazards, k[j]);
        var i :| 0 <= i < n && a[..n][i] == k[j];
        assert a[i] <= a[n];
      }
    }
  }

  /** std::lower_bound on the first n cells. */
  method LowerBound(a: array<Ptr>, n: nat, key: Ptr) returns (k: nat)
    requires n <= a.Length && Ascending(a[..n])
    ensures k <= n
    ensures forall i :: 0 <= i < k ==> a[i] < key
    ensures forall i :: k <= i < n ==> a[i] >= key
  {
    var lo, hi := 0, n;
    while lo < hi
      invariant 0 <= lo <= hi <= n
      invariant forall i :: 0 <= i < lo ==> a[..n][i] < key
      invariant forall i :: hi <= i < n ==> a[..n][i] >= key
    {
      var mid := (lo + hi) / 2;
      assert a[mid] == a[..n][mid];
      if a[mid] < key { lo := mid + 1; } else { hi := mid; }
    }
    k := lo;
    assert forall i :: 0 <= i < n ==> a[..n][i] == a[i];
  }

  /** std::binary_search. */
  method BinarySearch(plist: seq<Ptr>, key: Ptr) returns (found: bool)
    requires Ascending(plist)
    ensures found <==> key in plist
  {
    var lo, hi := 0, |plist|;
    while lo < hi
      invariant 0 <= lo <= hi <= |plist|
      invariant forall i :: 0 <= i < lo ==> plist[i] < key
      invariant forall i :: hi <= i < |plist| ==> plist[i] >= key
    {
      var mid := (lo + hi) / 2;
      if plist[mid] < key { lo := mid + 1; } else { hi := mid; }
    }
    found := lo < |plist| && plist[lo] == key;
  }

  // ---------------------------------------------------------------- marks in the keys

  /** m_n |= 1 */
  function SetMark(n: Ptr): (m: Ptr) { if n % 2 == 0 then n + 1 else n }

  /** m_n &= ~1 */
  function ClearMark(n: Ptr): (m: Ptr) { n - n % 2 }

  /** The sorted array with the pointers of `seen` marked. */
  ghost function Marked(base: seq<Ptr>, seen: set<Ptr>): (a: seq<Ptr>)
    ensures |a| == |base|
  {
    seq(|base|, i requires 0 <= i < |base| => if base[i] in seen then SetMark(base[i]) else base[i])
  }

  /** Marks do not disturb the order later searches rely on. */
  lemma MarkedStrict(base: seq<Ptr>, seen: set<Ptr>)
    requires Strict(base) && Aligned(base)
    ensures Strict(Marked(base, seen))
  {
    var a := Marked(base, seen);
    forall i, j | 0 <= i < j < |a| ensures a[i] < a[j] {
      assert base[i] < base[j];
      assert base[i] + 1 != base[j];
    }
  }

  /** Marking what a search for `hptr` among marked keys finds marks exactly the pointer hptr. */
  lemma MarkedNext(base: seq<Ptr>, seen: set<Ptr>, hptr: Ptr, k: nat)
    requires Strict(base) && Aligned(base) && k <= |base|
    requires forall i :: 0 <= i < k ==> Marked(base, seen)[i] < hptr
    requires forall i :: k <= i < |base| ==> Marked(base, seen)[i] >= hptr
    ensures var a := Marked(base, seen);
      Marked(base, seen + {hptr}) == if k < |base| && a[k] == hptr then a[k := SetMark(hptr)] else a
  {
    var a := Marked(base, seen);
    var b := if k < |base| && a[k] == hptr then a[k := SetMark(hptr)] else a;
    forall i | 0 <= i < |base| ensures Marked(base, seen + {hptr})[i] == b[i] {
      if base[i] == hptr && base[i] !in seen {
        assert a[i] == hptr;
        MarkedStrict(base, seen);
        assert i == k;
      }
    }
  }

  // ---------------------------------------------------------------- the retired array

  class RetiredArray {
    const cells: array<Ptr>
    var count: nat
    var disposed: seq<Ptr>    // every pointer whose disposer has been called, in order

    ghost predicate Valid()
      reads this
    {
      count <= cells.Length
    }

    ghost function Contents(): (a: seq<Ptr>)
      reads this, cells
      requires Valid()
    {
      cells[..count]
    }

    constructor (capacity: nat)
      ensures Valid() && fresh(cells) && cells.Length == capacity
      ensures Contents() == [] && disposed == []
    {
      cells := new Ptr[capacity];
      count := 0;
      disposed := [];
    }

    /** retired_array::push: stores the pointer even when it reports that the array is now full. */
    method Push(p: Ptr) returns (more: bool)
      requires Valid() && count < cells.Length
      modifies this`count, cells
      ensures Valid() && Contents() == old(Contents()) + [p]
      ensures more <==> count < cells.Length
    {
      cells[count] := p;
      count := count + 1;
      more := count < cells.Length;
    }

    /** std::sort over the retired pointers, by its contract. */
    method Sort()
      requires Valid()
      modifies cells
      ensures Contents() == Sorted(old(Contents()))
    {
      var s := Sorted(cells[..count]);
      forall i | 0 <= i < count { cells[i] := s[i]; }
      assert cells[..count] == s;
    }

    /** hp.cpp 349-357: look up one guard value and mark the retired pointer it protects. */
    method MarkGuard(hptr: Ptr, ghost base: seq<Ptr>, ghost seen: set<Ptr>)
      requires Valid() && Strict(base) && Aligned(base) && Contents() == Marked(base, seen)
      modifies cells
      ensures Contents() == Marked(base, seen + NonNull([hptr]))
    {
      if hptr != 0 {
        MarkedStrict(base, seen);
        var k := LowerBound(cells, count, hptr);
        assert forall i :: 0 <= i < count ==> cells[i] == Marked(base, seen)[i];
        MarkedNext(base, seen, hptr, k);
        if k < count && cells[k] == hptr {
          cells[k] := SetMark(cells[k]);
        }
        assert NonNull([hptr]) == {hptr};
        assert Contents() == Marked(base, seen + {hptr});
      } else {
        assert NonNull([hptr]) == {};
        assert seen + {} == seen;
      }
    }

    /** hp.cpp 339-362: visit the guards of every owned record. */
    method MarkGuarded(list: seq<RecordView>, ghost base: seq<Ptr>)
      requires Valid() && Strict(base) && Aligned(base) && Contents() == base
      modifies cells
      ensures Contents() == Marked(base, Hazards(list))
    {
      assert Marked(base, {}) == base;
      for n := 0 to |list|
        invariant Contents() == Marked(base, Hazards(list[..n]))
      {
        var node := list[n];
        assert list[..n + 1][..n] == list[..n];
        if node.owner != 0 {
          for i := 0 to |node.guards|
            invariant Contents() == Marked(base, Hazards(list[..n]) + NonNull(node.guards[..i]))
          {
            assert node.guards[..i + 1] == node.guards[..i] + [node.guards[i]];
            assert Hazards(list[..n]) + NonNull(node.guards[..i]) + NonNull([node.guards[i]])
                == Hazards(list[..n]) + NonNull(node.guards[..i + 1]);
            MarkGuard(node.guards[i], base, Hazards(list[..n]) + NonNull(node.guards[..i]));
          }
          assert node.guards[..|node.guards|] == node.guards;
        }
        assert Hazards(list[..n + 1]) == Hazards(list[..n]) + if node.owner == 0 then {} else NonNull(node.guards);
      }
      assert list[..|list|] == list;
    }

    /** hp.cpp 364-382: move the marked pointers to the front, dispose of the others. */
    method Compact(ghost base: seq<Ptr>, ghost seen: set<Ptr>)
      requires Valid() && Strict(base) && Aligned(base) && Contents() == Marked(base, seen)
      modifies this`count, this`disposed, cells
      ensures Valid() && Contents() == Keep(base, seen)
      ensures disposed == old(disposed) + Drop(base, seen)
    {
      var insertPos, n := 0, count;
      ghost var marked := Marked(base, seen);
      for it := 0 to n
        invariant count == n && insertPos <= it
        invariant cells[..insertPos] == Keep(base[..it], seen)
        invariant forall j :: it <= j < n ==> cells[j] == marked[j]
        invariant disposed == old(disposed) + Drop(base[..it], seen)
      {
        KeepDropNext(base, it, seen);
        if cells[it] % 2 == 1 {
          cells[it] := ClearMark(cells[it]);
          MoveUp(insertPos, it);
          insertPos := insertPos + 1;
        } else {
          disposed := disposed + [cells[it]];
        }
      }
      assert base[..n] == base;
      count := insertPos;
    }
  
    /** smr::inplace_scan: of aligned pointers exactly the guarded ones stay, sorted; otherwise it
        hands over to the classic scan. */
    method InplaceScan(list: seq<RecordView>)
      requires Valid() && Distinct(Contents())
      modifies this`count, this`disposed, cells
      ensures Valid() && old(disposed) <= disposed
      ensures Aligned(old(Contents())) ==> Ascending(Contents())
      ensures Aligned(old(Contents())) ==> Spares(list, old(Contents()), Contents(), disposed[|old(disposed)|..])
      ensures !Aligned(old(Contents())) ==>
        Contents() == WrittenKeep(old(Contents()), Hazards(list))
        && disposed == old(disposed) + WrittenDrop(old(Contents()), Hazards(list))
    {
      SortedSorts(Contents());
      KeepAscending(Sorted(Contents()), Hazards(list));
      KeepDropSpares(list, Contents(), Sorted(Contents()));
      InplacePass(list);
    }

    /** Its body: the test for marks, then sort, mark and compact. */
    method InplacePass(list: seq<RecordView>)
      requires Valid() && Distinct(Contents())
      modifies this`count, this`disposed, cells
      ensures Valid()
      ensures var a, h := old(Contents()), Hazards(list);
        var r := if Aligned(a) then Keep(Sorted(a), h) else WrittenKeep(a, h);
        var g := if Aligned(a) then Drop(Sorted(a), h) else WrittenDrop(a, h);
        Contents() == r && disposed == old(disposed) + g
    {
      if count == 0 {
        assert Contents() == [];
        return;
      }
      for it := 0 to count
        invariant Aligned(cells[..it])
      {
        if cells[it] % 2 == 1 {
          assert Contents()[it] % 2 == 1;
          ClassicScanAsWritten(list);
          return;
        }
      }
      assert Aligned(Contents());
      ghost var base := Sorted(Contents());
      SortedStrict(Contents());
      Sort();
      MarkGuarded(list, base);
      Compact(base, Hazards(list));
    }

    /** Moves a kept pointer up to the insert position. */
    method MoveUp(insertPos: nat, it: nat)
      requires Valid() && insertPos <= it < count
      modifies cells
      ensures cells[..insertPos + 1] == old(cells[..insertPos] + [cells[it]])
      ensures forall j :: it < j < cells.Length ==> cells[j] == old(cells[j])
    {
      if insertPos != it { cells[insertPos] := cells[it]; }
    }

    /** smr::classic_scan with the test it is meant to make, `it->m_p`. */
    method ClassicScan(list: seq<RecordView>)
      requires Valid()
      modifies this`count, this`disposed, cells
      ensures Valid()
      ensures Contents() == Keep(old(Contents()), Hazards(list))
      ensures disposed == old(disposed) + Drop(old(Contents()), Hazards(list))
      ensures Spares(list, old(Contents()), Contents(), disposed[|old(disposed)|..])
    {
      KeepDropSpares(list, Contents(), Contents());
      ClassicStages(list);
    }

    /** Its two stages: collect and sort the guards, then search them. */
    method ClassicStages(list: seq<RecordView>)
      requires Valid()
      modifies this`count, this`disposed, cells
      ensures Valid()
      ensures Contents() == Keep(old(Contents()), Hazards(list))
      ensures disposed == old(disposed) + Drop(old(Contents()), Hazards(list))
    {
      var plist := CollectHazards(list);
      ghost var a, h := Contents(), Hazards(list);
      var insertPos, n := 0, count;
      for it := 0 to n
        invariant count == n && insertPos <= it
        invariant cells[..insertPos] == Keep(a[..it], h)
        invariant forall j :: it <= j < n ==> cells[j] == a[j]
        invariant disposed == old(disposed) + Drop(a[..it], h)
      {
        KeepDropNext(a, it, h);
        var found := BinarySearch(plist, cells[it]);
        if found {
          MoveUp(insertPos, it);
          insertPos := insertPos + 1;
        } else {
          disposed := disposed + [cells[it]];
        }
      }
      assert a[..n] == a;
      count := insertPos;
    }

    /** smr::classic_scan as line 426 has it: every test is of `first_retired->m_p`. */
    method ClassicScanAsWritten(list: seq<RecordView>)
      requires Valid()
      modifies this`count, this`disposed, cells
      ensures Valid()
      ensures Contents() == WrittenKeep(old(Contents()), Hazards(list))
      ensures disposed == old(disposed) + WrittenDrop(old(Contents()), Hazards(list))
    {
      var plist := CollectHazards(list);
      ghost var a, h := Contents(), Hazards(list);
      var insertPos, n := 0, count;
      for it := 0 to n
        invariant count == n && cells[..n] == a
        invariant insertPos == if n > 0 && a[0] in h then it else 0
        invariant disposed == old(disposed) + if n > 0 && a[0] in h then [] else a[..it]
      {
        var found := BinarySearch(plist, cells[0]);
        assert cells[0] == cells[..n][0] && cells[it] == cells[..n][it];
        if found {
          assert insertPos == it;  // so nothing is ever moved
          insertPos := insertPos + 1;
        } else {
          disposed := disposed + [cells[it]];
          assert a[..it + 1] == a[..it] + [a[it]];
        }
      }
      assert a[..n] == a;
      count := insertPos;
    }
  }

  // ---------------------------------------------------------------- classic_scan

  /** Stage 1 of classic_scan: the sorted list of non-null guards of owned records. */
  method CollectHazards(list: seq<RecordView>) returns (plist: seq<Ptr>)
    ensures Ascending(plist)
    ensures forall p :: p in plist <==> p in Hazards(list)
    ensures forall p :: p in plist <==> Guarded(list, p)
  {
    forall p ensures p in Hazards(list) <==> Guarded(list, p) { HazardsAreGuarded(list, p); }
    var found: seq<Ptr> := [];
    for n := 0 to |list|
      invariant forall p :: p in found <==> p in Hazards(list[..n])
    {
      var node := list[n];
      assert list[..n + 1][..n] == list[..n];
      if node.owner != 0 {
        for i := 0 to |node.guards|
          invariant forall p :: p in found <==> p in Hazards(list[..n]) || p in NonNull(node.guards[..i])
        {
          assert node.guards[..i + 1] == node.guards[..i] + [node.guards[i]];
          if node.guards[i] != 0 { found := found + [node.guards[i]]; }
        }
        assert node.guards[..|node.guards|] == node.guards;
      }
    }
    assert list[..|list|] == list;
    plist := Sorted(found);
    SortedSorts(found);
    forall p ensures p in plist <==> p in found {
      assert p in plist <==> p in multiset(plist);
      assert p in found <==> p in multiset(found);
    }
  }

  /** What classic_scan as written keeps: all or nothing, by its first pointer. */
  ghost function WrittenKeep(a: seq<Ptr>, hazards: set<Ptr>): (kept: seq<Ptr>) {
    if a != [] && a[0] in hazards then a else []
  }

  ghost function WrittenDrop(a: seq<Ptr>, hazards: set<Ptr>): (gone: seq<Ptr>) {
    if a != [] && a[0] in hazards then [] else a
  }

  /** It disposes of a guarded pointer exactly when its first pointer is unguarded and another
      is guarded. */
  lemma WrittenIsSafeIff(a: seq<Ptr>, hazards: set<Ptr>)
    ensures (forall p :: p in WrittenDrop(a, hazards) ==> p !in hazards)
      <==> a == [] || a[0] in hazards || forall i :: 0 <= i < |a| ==> a[i] !in hazards
  {
    if forall p :: p in WrittenDrop(a, hazards) ==> p !in hazards {
      forall i | 0 <= i < |a| && a[0] !in hazards ensures a[i] !in hazards {
        assert a[i] in WrittenDrop(a, hazards);
      }
    }
  }

  /** It does what a scan is for exactly when its pointers are all guarded or all unguarded. */
  lemma WrittenMeetsIntentIff(a: seq<Ptr>, hazards: set<Ptr>)
    ensures ScanOutcome(a, hazards, WrittenKeep(a, hazards), WrittenDrop(a, hazards))
      <==> (forall i :: 0 <= i < |a| ==> a[i] in hazards) || (forall i :: 0 <= i < |a| ==> a[i] !in hazards)
  {
    assert multiset(WrittenKeep(a, hazards)) + multiset(WrittenDrop(a, hazards)) == multiset(a);
    if ScanOutcome(a, hazards, WrittenKeep(a, hazards), WrittenDrop(a, hazards)) && a != [] {
      forall i | 0 <= i < |a| ensures a[i] in hazards <==> a[0] in hazards {
        if a[0] in hazards {
          assert a[i] in WrittenKeep(a, hazards);
        } else {
          assert a[i] in WrittenDrop(a, hazards);
        }
      }
    }
  }

  /** A retired array that classic_scan as written treats wrongly: pointer 6 is guarded and freed. */
  lemma WrittenFreesGuarded()
    ensures var a, h := [4, 6], Hazards([RecordView(1, [6])]);
      6 in h && 6 in WrittenDrop(a, h) && !ScanOutcome(a, h, WrittenKeep(a, h), WrittenDrop(a, h))
  {
    var list := [RecordView(1, [6])];
    assert Hazards(list) == Hazards(list[..0]) + NonNull([6]);
    assert 6 in Hazards(list);
    assert 6 in WrittenDrop([4, 6], Hazards(list)) by { assert [4, 6][1] == 6; }
  }

  /** inplace_scan of aligned pointers does what a scan is for, and so does classic_scan as meant;
      they keep and dispose of the same pointers. */
  lemma ScansAgree(a: seq<Ptr>, hazards: set<Ptr>)
    ensures ScanOutcome(a, hazards, Keep(Sorted(a), hazards), Drop(Sorted(a), hazards))
    ensures ScanOutcome(a, hazards, Keep(a, hazards), Drop(a, hazards))
    ensures forall p :: p in Keep(Sorted(a), hazards) <==> p in Keep(a, hazards)
  {
    SortedSorts(a);
    OutcomeOfPermutation(a, Sorted(a), hazards);
    KeepDropSplit(a, hazards);
    forall p ensures p in Keep(Sorted(a), hazards) <==> p in Keep(a, hazards) {
      KeepDropMembers(a, hazards, p);
      KeepDropMembers(Sorted(a), hazards, p);
      assert p in a <==> p in multiset(a);
      assert p in Sorted(a) <==> p in multiset(Sorted(a));
    }
  }

  // ---------------------------------------------------------------- capacity

  /** calc_retired_size */
  function RetiredCapacity(requested: nat, hazardCount: nat, maxThreads: nat): (capacity: nat) {
    var least := hazardCount * maxThreads;
    if requested < least then least * 2 else requested
  }

  function OwnedCount(list: seq<RecordView>): (n: nat) {
    if list == [] then 0
    else OwnedCount(list[..|list| - 1]) + if list[|list| - 1].owner == 0 then 0 else 1
  }

  lemma {:induction false} NonNullSize(guards: seq<Ptr>)
    ensures |NonNull(guards)| <= |guards|
  {
    if guards == [] {
      assert NonNull(guards) == {};
    } else {
      var n := |guards| - 1;
      NonNullSize(guards[..n]);
      assert NonNull(guards) <= NonNull(guards[..n]) + {guards[n]};
      SubsetSize(NonNull(guards), NonNull(guards[..n]) + {guards[n]});
    }
  }

  lemma {:induction false} SubsetSize(a: set<Ptr>, b: set<Ptr>)
    requires a <= b
    ensures |a| <= |b|
  {
    if a != {} {
      var x :| x in a;
      SubsetSize(a - {x}, b - {x});
    }
  }

  lemma {:induction false} HazardsSize(list: seq<RecordView>, hazardCount: nat)
    requires forall i :: 0 <= i < |list| ==> |list[i].guards| == hazardCount
    ensures |Hazards(list)| <= hazardCount * OwnedCount(list)
  {
    if list != [] {
      var n := |list| - 1;
      HazardsSize(list[..n], hazardCount);
      NonNullSize(list[n].guards);
      var h, k := Hazards(list[..n]), OwnedCount(list[..n]);
      UnionSize(h, NonNull(list[n].guards), hazardCount, k);
    }
  }

  lemma UnionSize(a: set<Ptr>, b: set<Ptr>, h: nat, k: nat)
    requires |a| <= h * k && |b| <= h
    ensures |a + b| <= h * (k + 1)
  {
    assert h * (k + 1) == h * k + h;
    assert |a + b| <= |a| + |b| by { assert a + b == a + (b - a); }
  }

  /** A scan keeps at most one pointer per guard of an owned record. */
  lemma KeptBound(a: seq<Ptr>, list: seq<RecordView>, hazardCount: nat)
    requires Distinct(a) && forall i :: 0 <= i < |list| ==> |list[i].guards| == hazardCount
    ensures |Keep(a, Hazards(list))| <= hazardCount * OwnedCount(list)
  {
    var h := Hazards(list);
    DistinctCount(a);
    forall p ensures multiset(Keep(a, h))[p] <= 1 { KeepDropCounts(a, h, p); }
    DistinctCount(Keep(a, h));
    forall p | p in Keep(a, h) ensures p in h { KeepDropMembers(a, h, p); }
    DistinctFitIn(Keep(a, h), h);
    HazardsSize(list, hazardCount);
  }

  /** With at most maxThreads owned records, scanning a full array of the calculated capacity
      leaves a free cell unless the caller asked for exactly one cell per guard; with the
      default (nothing requested) it frees at least half. */
  lemma FullScanMakesRoom(a: seq<Ptr>, list: seq<RecordView>, hazardCount: nat, maxThreads: nat, requested: nat)
    requires Distinct(a) && forall i :: 0 <= i < |list| ==> |list[i].guards| == hazardCount
    requires OwnedCount(list) <= maxThreads && hazardCount * maxThreads > 0
    requires |a| == RetiredCapacity(requested, hazardCount, maxThreads)
    ensures requested != hazardCount * maxThreads ==> |Keep(a, Hazards(list))| < |a|
    ensures requested < hazardCount * maxThreads ==> 2 * |Drop(a, Hazards(list))| >= |a|
  {
    KeptBound(a, list, hazardCount);
    MulMono(hazardCount, OwnedCount(list), maxThreads);
    KeepDropCounts(a, Hazards(list), 0);
    RoomArithmetic(hazardCount * maxThreads, requested, |Keep(a, Hazards(list))|, |Drop(a, Hazards(list))|);
  }

  /** Whatever is kept of a full array of this capacity, at least half of it is freed, as long as
      no more than `least` pointers are guarded. */
  ghost predicate FreesHalf(capacity: nat, least: nat) {
    forall kept: nat :: kept <= least ==> HalfGone(capacity, kept)
  }

  predicate HalfGone(capacity: nat, kept: nat) {
    kept <= capacity ==> 2 * (capacity - kept) >= capacity
  }

  /** A smaller request than one cell per guard gets the least capacity of which a scan always frees
      half, and any other gets what it asks for. */
  lemma DefaultCapacityIsLeast(requested: nat, hazardCount: nat, maxThreads: nat, capacity: nat)
    ensures var least := hazardCount * maxThreads;
      && (requested < least ==>
            && FreesHalf(RetiredCapacity(requested, hazardCount, maxThreads), least)
            && (least <= capacity && FreesHalf(capacity, least) ==> RetiredCapacity(requested, hazardCount, maxThreads) <= capacity))
      && (requested >= least ==> RetiredCapacity(requested, hazardCount, maxThreads) == requested)
  {
    var least := hazardCount * maxThreads;
    if least <= capacity && FreesHalf(capacity, least) {
      assert HalfGone(capacity, least);
    }
  }

  lemma RoomArithmetic(least: nat, requested: nat, kept: nat, gone: nat)
    requires least > 0 && kept <= least
    requires kept + gone == if requested < least then least * 2 else requested
    ensures requested != least ==> gone > 0
    ensures requested < least ==> gone >= least
  {
  }

  /** Pointers 2, 4, ..., 2n. */
  function Evens(n: nat): (a: seq<Ptr>)
    ensures |a| == n && forall i :: 0 <= i < n ==> a[i] == 2 * i + 2
  {
    seq(n, i requires 0 <= i => 2 * i + 2)
  }

  /** maxThreads owned records whose guards hold those pointers, hazardCount each. */
  function Holders(hazardCount: nat, maxThreads: nat): (list: seq<RecordView>)
    ensures |list| == maxThreads
    ensures forall i :: 0 <= i < |list| ==> |list[i].guards| == hazardCount
  {
    if maxThreads == 0 then []
    else
      var m := maxThreads - 1;
      Holders(hazardCount, m) + [RecordView(1, seq(hazardCount, k requires 0 <= k => 2 * (hazardCount * m + k) + 2))]
  }

  lemma {:induction false} HoldersHold(hazardCount: nat, maxThreads: nat, i: nat)
    requires i < hazardCount * maxThreads
    ensures 2 * i + 2 in Hazards(Holders(hazardCount, maxThreads))
  {
    var m := maxThreads - 1;
    var list := Holders(hazardCount, maxThreads);
    assert hazardCount * maxThreads == hazardCount * m + hazardCount;
    assert list[..|list| - 1] == Holders(hazardCount, m);
    if i < hazardCount * m {
      HoldersHold(hazardCount, m, i);
    } else {
      var g := list[m].guards;
      assert g[i - hazardCount * m] == 2 * i + 2;
      assert 2 * i + 2 in NonNull(g);
    }
  }

  lemma {:induction false} HoldersOwned(hazardCount: nat, maxThreads: nat)
    ensures OwnedCount(Holders(hazardCount, maxThreads)) == maxThreads
  {
    if maxThreads > 0 {
      var list := Holders(hazardCount, maxThreads);
      assert list[..|list| - 1] == Holders(hazardCount, maxThreads - 1);
      HoldersOwned(hazardCount, maxThreads - 1);
    }
  }

  lemma HoldersKeepAll(hazardCount: nat, maxThreads: nat, n: nat)
    requires n == hazardCount * maxThreads
    ensures var h := Hazards(Holders(hazardCount, maxThreads)); Keep(Evens(n), h) == Evens(n) && Drop(Evens(n), h) == []
  {
    var h := Hazards(Holders(hazardCount, maxThreads));
    forall i | 0 <= i < n ensures Evens(n)[i] in h {
      HoldersHold(hazardCount, maxThreads, i);
    }
    KeepAll(Evens(n), h);
  }

  /** A requested capacity of exactly hazardCount * maxThreads is accepted, and then a scan of a
      full array can free nothing at all: the next push would be out of bounds. */
  lemma ExactCapacityMayStayFull(hazardCount: nat, maxThreads: nat, n: nat)
    requires n == hazardCount * maxThreads
    ensures RetiredCapacity(n, hazardCount, maxThreads) == n
    ensures Distinct(Evens(n)) && Aligned(Evens(n))
    ensures var list := Holders(hazardCount, maxThreads);
      && OwnedCount(list) <= maxThreads
      && Keep(Evens(n), Hazards(list)) == Evens(n) && Drop(Evens(n), Hazards(list)) == []
  {
    HoldersOwned(hazardCount, maxThreads);
    HoldersKeepAll(hazardCount, maxThreads, n);
  }
}

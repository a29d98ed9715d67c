/**
  Copying a guard.  A scan reads the slots of a record upwards, so a pointer copied to a higher
  slot stays protected; copied to a lower slot it may be missed, because the scan read the lower
  slot before the copy and reads the higher one after it was cleared.  CopyLosesIff is the exact
  condition on slots, for every number of slots; GuardStorage says which slots the indices of a
  guard array stand for, and with it whether a copy between two indices is upward.
 */
module HazardCopy {
  import opened Common
  import opened Reclaim
  import opened HazardProtocol
  import opened HazardSafety

  /** At run[i] thread t copies the protected pointer of slot src to slot dst.  Slot dst is not
      changed up to run[j], and yet the pointer is dead by then. */
  ghost predicate Loses(run: seq<State>, i: nat, j: nat, t: Tid, src: nat, dst: nat) {
    && Run(run) && i < j < |run|
    && Enabled(run[i], t, CopyGuard(src, dst)) && run[i + 1] == Next(run[i], t, CopyGuard(src, dst))
    && var r := run[i].threads[t].mode.rec;
       && run[i].recs[r].guards[src].validated
       && run[i].recs[r].guards[src].ptr in run[j].dead
       && forall m :: i < m <= j ==> SlotIs(run[m], r, dst, run[i + 1].recs[r].guards[dst])
  }

  /** In some run with h slots a copy from src to dst loses its pointer. */
  ghost predicate CanLose(h: nat, src: nat, dst: nat) {
    exists run: seq<State>, i: nat, j: nat, t: Tid :: Loses(run, i, j, t, src, dst) && run[0].hazardCount == h
  }

  ghost predicate SlotIs(s: State, r: RecId, k: nat, slot: Slot) {
    r < |s.recs| && k < |s.recs[r].guards| && s.recs[r].guards[k] == slot
  }

  // ---------------------------------------------------------------- the run that loses a pointer

  // Thread 1 reads pointer 4 through record 0; thread 2 retires it and scans from record 1.

  function Empty(h: nat): (g: seq<Slot>) {
    seq(h, _ => EMPTY)
  }

  /** Both threads are attached; g are the reader's slots, the other fields are the reclaimer's. */
  ghost predicate Both(s: State, h: nat, g: seq<Slot>, retired: seq<Ptr>, scan: Scan) {
    && s.hazardCount == h == |g| && s.capacity > 0 && s.head == To(1) && |s.recs| == 2
    && s.recs[0].owner == 1 && s.recs[0].next == Null && s.recs[0].guards == g
    && s.recs[1].owner == 2 && s.recs[1].next == To(0) && s.recs[1].guards == Empty(h)
    && s.recs[1].retired == retired
    && s.threads.Keys == {1, 2}
    && s.threads[1] == Thread(Attached(0), Off) && s.threads[2] == Thread(Attached(1), scan)
  }

  function Last(run: seq<State>): (s: State)
    requires run != []
  {
    run[|run| - 1]
  }

  /** One more step of a run. */
  lemma Do(run: seq<State>, t: Tid, a: Action) returns (more: seq<State>)
    requires Run(run) && Enabled(Last(run), t, a)
    ensures Run(more) && more == run + [Next(Last(run), t, a)]
  {
    more := run + [Next(Last(run), t, a)];
    forall i | 0 <= i < |more| - 1 ensures Step(more[i], more[i + 1]) {
      if i < |run| - 1 {
        assert Step(run[i], run[i + 1]);
      } else {
        assert more[i] == Last(run);
      }
    }
  }

  lemma Attach(h: nat, capacity: nat) returns (run: seq<State>)
    requires h > 0 && capacity > 0
    ensures Run(run) && Both(Last(run), h, Empty(h), [], Off) && run[0].hazardCount == h
    ensures Last(run).unlinked == {} && Last(run).capacity == capacity && Last(run).freed == []
  {
    var idle := Thread(Detached, Off);
    run := [State(h, capacity, Null, [], map[1 := idle, 2 := idle], [], {}, {}, [], [])];
    run := Do(run, 1, AttachStart);
    run := Do(run, 1, Create);
    run := Do(run, 1, StoreNext);
    run := Do(run, 1, SwapHead(false));
    run := AttachSecond(run, h);
  }

  lemma AttachSecond(run0: seq<State>, h: nat) returns (run: seq<State>)
    requires Run(run0) && run0[0].hazardCount == h
    requires var s := Last(run0);
      && s.hazardCount == h && s.capacity > 0 && s.head == To(0) && |s.recs| == 1 && s.unlinked == {}
      && s.recs[0].owner == 1 && s.recs[0].next == Null && s.recs[0].guards == Empty(h)
      && s.threads.Keys == {1, 2} && s.threads[1] == Thread(Attached(0), Off) && s.threads[2] == Thread(Detached, Off)
    ensures Run(run) && Both(Last(run), h, Empty(h), [], Off) && run[0].hazardCount == h
    ensures Last(run).unlinked == {} && Last(run).capacity == Last(run0).capacity && Last(run).freed == Last(run0).freed
  {
    run := Do(run0, 2, AttachStart);
    run := Do(run, 2, TryClaim);
    run := Do(run, 2, Create);
    run := Do(run, 2, StoreNext);
    run := Do(run, 2, SwapHead(false));
  }

  /** The scan reads the slots of one record from `from` up to `upto`, all of them empty, and no
      slot of the reader changes meanwhile. */
  lemma {:induction false} ReadEmpty(run0: seq<State>, h: nat, g: seq<Slot>, retired: seq<Ptr>, node: RecId,
                                     from: nat, upto: nat, seen: set<Ptr>, owned: nat) returns (run: seq<State>)
    requires Run(run0) && from < upto <= h && node < 2
    requires Both(Last(run0), h, g, retired, Walk(To(node), true, from, seen, owned))
    requires forall k: nat :: from <= k < upto ==> Last(run0).recs[node].guards[k].ptr == 0
    ensures Run(run) && run0 <= run && Last(run).unlinked == Last(run0).unlinked
    ensures Last(run).freed == Last(run0).freed && Last(run).capacity == Last(run0).capacity
    ensures Both(Last(run), h, g, retired,
                 if upto < h then Walk(To(node), true, upto, seen, owned)
                 else Walk(if node == 0 then Null else To(0), false, 0, seen, owned))
    ensures forall m :: |run0| <= m < |run| ==> (|run[m].recs| == 2 && run[m].recs[0].guards == g)
    decreases upto - from
  {
    run := Do(run0, 2, ScanReadGuard);
    if from + 1 < upto { run := ReadEmpty(run, h, g, retired, node, from + 1, upto, seen, owned); }
  }

  // ---------------------------------------------------------------- one address, many retirements

  /** Thread 2 retires pointer 4 into an array of one cell, and so scans and frees it. */
  lemma RetireAndFree(run0: seq<State>, h: nat) returns (run: seq<State>)
    requires Run(run0) && h > 0 && Both(Last(run0), h, Empty(h), [], Off)
    requires Last(run0).capacity == 1 && 4 !in Last(run0).unlinked
    ensures Run(run) && Both(Last(run), h, Empty(h), [], Off) && Last(run).capacity == 1 && run[0] == run0[0]
    ensures 4 in Last(run).dead && Last(run).freed == Last(run0).freed + [4]
  {
    run := Do(run0, 2, Retire(4));
    run := Do(run, 2, ScanLoadHead);
    run := Do(run, 2, ScanLoadOwner);
    assert Both(Last(run), h, Empty(h), [4], Walk(To(1), true, 0, {}, 1));
    run := ReadEmpty(run, h, Empty(h), [4], 1, 0, h, {}, 1);
    run := Do(run, 2, ScanLoadOwner);
    run := ReadEmpty(run, h, Empty(h), [4], 0, 0, h, {}, 2);
    run := Do(run, 2, ScanEnd([], [4]));
    assert 4 in Members([4]);
  }

  /** An address can be freed and given out again any number of times. */
  lemma {:induction false} FreedManyTimes(h: nat, n: nat) returns (run: seq<State>)
    requires h > 0
    ensures Run(run) && run[0].hazardCount == h && multiset(Last(run).freed)[4] == n
    ensures Both(Last(run), h, Empty(h), [], Off) && Last(run).capacity == 1 && 4 !in Last(run).unlinked
  {
    if n == 0 {
      run := Attach(h, 1);
    } else {
      run := FreedManyTimes(h, n - 1);
      ghost var freed := Last(run).freed;
      run := RetireAndFree(run, h);
      assert multiset(freed + [4])[4] == n;
      run := Do(run, 2, Allocate(4));
    }
  }

  /** Thread 1 protects pointer 4 in slot src, and thread 2 retires it. */
  lemma Protect(h: nat, src: nat) returns (run: seq<State>)
    requires src < h
    ensures Run(run) && run[0].hazardCount == h
    ensures Both(Last(run), h, Empty(h)[src := Slot(4, true)], [4], Off)
  {
    run := Attach(h, 2);
    run := Do(run, 1, SetGuard(src, 4));
    run := Do(run, 1, Validate(src));
    var g := Empty(h)[src := Slot(4, true)];
    assert Both(Last(run), h, g, [], Off);
    run := Do(run, 2, Retire(4));
  }

  /** Thread 2 scans its own record and loads the owner of the reader's. */
  lemma ScanStarts(h: nat, src: nat) returns (run: seq<State>)
    requires src < h
    ensures Run(run) && run[0].hazardCount == h
    ensures Both(Last(run), h, Empty(h)[src := Slot(4, true)], [4], Walk(To(0), true, 0, {}, 2))
  {
    var g := Empty(h)[src := Slot(4, true)];
    run := Protect(h, src);
    run := Do(run, 2, UserScan);
    run := Do(run, 2, ScanLoadHead);
    run := Do(run, 2, ScanLoadOwner);
    assert Both(Last(run), h, g, [4], Walk(To(1), true, 0, {}, 1));
    run := ReadEmpty(run, h, g, [4], 1, 0, h, {}, 1);
    run := Do(run, 2, ScanLoadOwner);
  }

  /** The scan reads the rest of the reader's slots, which are empty by now, and frees the pointer. */
  lemma ScanEnds(run0: seq<State>, h: nat, dst: nat) returns (run: seq<State>)
    requires Run(run0) && dst + 1 < h
    requires Both(Last(run0), h, Empty(h)[dst := Slot(4, false)], [4], Walk(To(0), true, dst + 1, {}, 2))
    ensures Run(run) && run0 <= run && |run0| < |run| && 4 in Last(run).dead
    ensures forall m :: |run0| <= m < |run| ==> SlotIs(run[m], 0, dst, Slot(4, false))
  {
    run := ReadEmpty(run0, h, Empty(h)[dst := Slot(4, false)], [4], 0, dst + 1, h, {}, 2);
    run := Do(run, 2, ScanEnd([], [4]));
    assert 4 in Members([4]);
  }

  /** Thread 1 copies the pointer down. */
  lemma CopyStep(s: State, h: nat, src: nat, dst: nat, scan: Scan)
    requires dst < src < h && Both(s, h, Empty(h)[src := Slot(4, true)], [4], scan)
    ensures Enabled(s, 1, CopyGuard(src, dst))
    ensures Both(Next(s, 1, CopyGuard(src, dst)), h, Empty(h)[src := Slot(4, true)][dst := Slot(4, false)], [4], scan)
  {
  }

  /** Thread 1 clears the higher slot. */
  lemma ClearStep(s: State, h: nat, src: nat, dst: nat, scan: Scan)
    requires dst < src < h && Both(s, h, Empty(h)[src := Slot(4, true)][dst := Slot(4, false)], [4], scan)
    ensures Enabled(s, 1, SetGuard(src, 0))
    ensures Both(Next(s, 1, SetGuard(src, 0)), h, Empty(h)[dst := Slot(4, false)], [4], scan)
  {
    assert Empty(h)[src := Slot(4, true)][dst := Slot(4, false)][src := EMPTY] == Empty(h)[dst := Slot(4, false)];
  }

  /** Up to the copy, which comes when the scan has just read the lower slot. */
  lemma CopyComes(h: nat, src: nat, dst: nat) returns (run: seq<State>, i: nat)
    requires dst < src < h
    ensures Run(run) && run[0].hazardCount == h && i + 3 == |run|
    ensures Enabled(run[i], 1, CopyGuard(src, dst)) && run[i + 1] == Next(run[i], 1, CopyGuard(src, dst))
    ensures run[i].threads[1].mode.rec == 0 && SlotIs(run[i], 0, src, Slot(4, true))
    ensures SlotIs(run[i + 1], 0, dst, Slot(4, false)) && SlotIs(run[i + 2], 0, dst, Slot(4, false))
    ensures Both(Last(run), h, Empty(h)[dst := Slot(4, false)], [4], Walk(To(0), true, dst + 1, {}, 2))
  {
    var scan := Walk(To(0), true, dst + 1, {}, 2);
    run := CopyReady(h, src, dst);
    i := |run| - 1;
    CopyStep(Last(run), h, src, dst, scan);
    run := Do(run, 1, CopyGuard(src, dst));
    ClearStep(Last(run), h, src, dst, scan);
    run := Do(run, 1, SetGuard(src, 0));
  }

  lemma CopyReady(h: nat, src: nat, dst: nat) returns (run: seq<State>)
    requires dst < src < h
    ensures Run(run) && run[0].hazardCount == h
    ensures Both(Last(run), h, Empty(h)[src := Slot(4, true)], [4], Walk(To(0), true, dst + 1, {}, 2))
  {
    run := ScanStarts(h, src);
    run := ReadEmpty(run, h, Empty(h)[src := Slot(4, true)], [4], 0, 0, dst + 1, {}, 2);
  }

  lemma CopyDownLoses(h: nat, src: nat, dst: nat) returns (run: seq<State>, i: nat, j: nat)
    requires dst < src < h
    ensures Loses(run, i, j, 1, src, dst) && run[0].hazardCount == h
  {
    var before;
    before, i := CopyComes(h, src, dst);
    run := ScanEnds(before, h, dst);
    j := |run| - 1;
    assert run[i] == before[i] && run[i + 1] == before[i + 1] && run[i + 2] == before[i + 2];
  }

  /** A copy from slot src to slot dst can lose protection if and only if dst is the lower one:
      for every number of slots, over all runs. */
  lemma CopyLosesIff(h: nat, src: nat, dst: nat)
    requires src < h && dst < h
    ensures CanLose(h, src, dst) <==> dst < src
  {
    if dst < src {
      var run, i, j := CopyDownLoses(h, src, dst);
      assert Loses(run, i, j, 1, src, dst);
    }
    forall run: seq<State>, i: nat, j: nat, t: Tid | Loses(run, i, j, t, src, dst) ensures dst < src {
      var r := run[i].threads[t].mode.rec;
      assert SlotIs(run[j], r, dst, run[i + 1].recs[r].guards[dst]);
      if src <= dst { NoUseAfterFree(run, j, r, dst); }
    }
  }

  // ---------------------------------------------------------------- indices and slots

  function Reversed(s: seq<nat>): (r: seq<nat>)
    ensures |r| == |s|
  {
    seq(|s|, i requires 0 <= i < |s| => s[|s| - 1 - i])
  }

  /** thread_hp_storage: the slots of one record, the free ones in a list. */
  class GuardStorage {
    const capacity: nat
    var free: seq<nat>

    constructor (capacity: nat)
      ensures this.capacity == capacity && free == seq(capacity, i => i)
    {
      this.capacity := capacity;
      free := seq(capacity, i => i);
    }

    /** alloc( guard_array ): the first slots of the free list, or an exception. */
    method Alloc(n: nat) returns (slots: Option<seq<nat>>)
      modifies this
      ensures n <= |old(free)| ==> slots == Some(old(free)[..n]) && free == old(free)[n..]
      ensures n > |old(free)| ==> slots == None && free == old(free)
    {
      var arr: seq<nat> := [];
      var g := 0;
      while |arr| < n && g < |free|
        invariant g == |arr| <= n && g <= |free| && arr == free[..g]
        decreases n - |arr|
      {
        arr := arr + [free[g]];
        g := g + 1;
      }
      if |arr| != n {
        return None;
      }
      free := free[g..];
      return Some(arr);
    }

    /** free( guard_array ): each slot in turn is put in front of the list. */
    method Free(slots: seq<nat>)
      modifies this
      ensures free == Reversed(slots) + old(free)
    {
      for i := 0 to |slots|
        invariant free == Reversed(slots[..i]) + old(free)
      {
        free := [slots[i]] + free;
        assert Reversed(slots[..i + 1]) == [slots[i]] + Reversed(slots[..i]);
      }
      assert slots[..|slots|] == slots;
    }
  }

  /** The slots that the n indices of a guard array stand for after `rounds` arrays of that size
      have been allocated and freed, by the contracts of Alloc and Free. */
  function SlotsOf(capacity: nat, n: nat, rounds: nat): (slots: seq<nat>)
    requires n <= capacity
    ensures |slots| == n
  {
    FreeList(capacity, n, rounds)[..n]
  }

  function FreeList(capacity: nat, n: nat, rounds: nat): (free: seq<nat>)
    requires n <= capacity
    ensures |free| == capacity
  {
    if rounds == 0 then seq(capacity, i => i) else
      var f := FreeList(capacity, n, rounds - 1);
      Reversed(f[..n]) + f[n..]
  }

  /** The order of the slots turns around with every array. */
  lemma {:induction false} SlotsAlternate(capacity: nat, n: nat, rounds: nat, i: nat)
    requires i < n <= capacity
    ensures SlotsOf(capacity, n, rounds)[i] == if rounds % 2 == 0 then i else n - 1 - i
  {
    if rounds > 0 { SlotsAlternate(capacity, n, rounds - 1, n - 1 - i); }
  }

  /** GuardArray::copy( dst, src ) on the array allocated after `rounds` others: it can lose
      protection if and only if it goes to the lower index on an even round or to the higher
      index on an odd one. */
  lemma IndexCopyLosesIff(capacity: nat, n: nat, rounds: nat, dst: nat, src: nat)
    requires n <= capacity && dst < n && src < n && dst != src
    ensures var slots := SlotsOf(capacity, n, rounds);
      && slots[src] < capacity && slots[dst] < capacity
      && (CanLose(capacity, slots[src], slots[dst]) <==> (dst < src <==> rounds % 2 == 0))
  {
    SlotsAlternate(capacity, n, rounds, src);
    SlotsAlternate(capacity, n, rounds, dst);
    var slots := SlotsOf(capacity, n, rounds);
    CopyLosesIff(capacity, slots[src], slots[dst]);
  }
}

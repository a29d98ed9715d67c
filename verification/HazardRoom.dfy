/**
  Room in the retired arrays, over every run.  Each pointer a scan keeps was read from a guard
  of its own, so a scan that found `owned` records owned keeps at most hazardCount * owned
  pointers.  If the capacity exceeds hazardCount times the length of the record list, then a
  push in retire or help_scan never meets a full array, and no thread is ever stuck.
 */
module HazardRoom {
  import opened Common
  import opened Reclaim
  import opened HazardProtocol
  import opened HazardShape
  import opened HazardSafety

  // ---------------------------------------------------------------- counting

  /** What a scan keeps are distinct pointers it has seen. */
  lemma KeptAtMostSeen(s: State, t: Tid, kept: seq<Ptr>, gone: seq<Ptr>)
    requires Conserved(s) && Enabled(s, t, ScanEnd(kept, gone))
    ensures |kept| <= |s.threads[t].scan.seen|
  {
    var r := s.threads[t].mode.rec;
    forall p ensures multiset(kept)[p] <= 1 {
      PendingHas(s.recs, r, p);
      assert Accounted(s, p);
      assert multiset(kept)[p] <= (multiset(kept) + multiset(gone))[p];
    }
    DistinctCount(kept);
    DistinctFitIn(kept, s.threads[t].scan.seen);
  }

  // ---------------------------------------------------------------- what a scan has seen

  /** `seen` holds one value at most per guard read; `owned` counts the records found owned. */
  ghost predicate SeenBound(s: State, sc: Scan) {
    sc.Walk? ==>
      && (if sc.reading then |sc.seen| + s.hazardCount <= s.hazardCount * sc.owned + sc.slot
          else |sc.seen| <= s.hazardCount * sc.owned)
      && sc.owned + Ahead(s, sc) <= |s.chain|
  }

  /** Records of the list the scan has still to ask for their owner. */
  ghost function Ahead(s: State, sc: Scan): (n: int)
    requires sc.Walk?
  {
    if sc.node.To? && Published(s, sc.node.rec) then
      s.recs[sc.node.rec].rank + (if sc.reading then 0 else 1)
    else 0
  }

  ghost predicate SeenBounds(s: State) {
    forall t :: t in s.threads ==> SeenBound(s, s.threads[t].scan)
  }

  lemma OwnWalkBound(s: State, t: Tid, a: Action)
    requires Shape(s) && Enabled(s, t, a) && SeenBound(s, s.threads[t].scan)
    requires a.ScanLoadHead? || a.ScanLoadOwner? || a.ScanReadGuard?
    ensures SeenBound(s, Next(s, t, a).threads[t].scan)
  {
    assert ThreadOk(s, t);
    if a.ScanLoadHead? {
      assert s.chain != [] ==> RecOk(s, s.chain[|s.chain| - 1]);
    } else {
      OwnReadBound(s, t, a);
    }
  }

  lemma OwnReadBound(s: State, t: Tid, a: Action)
    requires Shape(s) && Enabled(s, t, a) && SeenBound(s, s.threads[t].scan)
    requires a.ScanLoadOwner? || a.ScanReadGuard?
    ensures SeenBound(s, Next(s, t, a).threads[t].scan)
  {
    var sc := s.threads[t].scan;
    assert ThreadOk(s, t) && RecOk(s, sc.node.rec);
    OneMore(s.hazardCount, sc.owned);
  }

  lemma OneMore(h: nat, k: nat)
    ensures h * (k + 1) == h * k + h
  {
  }

  lemma BoundFrame(s: State, t: Tid, a: Action, sc: Scan)
    requires Shape(s) && Enabled(s, t, a) && SeenBound(s, sc) && (sc.Walk? ==> PublishedLink(s, sc.node))
    ensures SeenBound(Next(s, t, a), sc)
  {
    ChainStep(s, t, a);
    ConstantsFrame(s, t, a);
    if sc.Walk? && sc.node.To? {
      RanksKept(s, t, a, sc.node.rec);
    }
  }

  lemma ConstantsFrame(s: State, t: Tid, a: Action)
    requires Enabled(s, t, a)
    ensures Next(s, t, a).hazardCount == s.hazardCount && Next(s, t, a).capacity == s.capacity
    ensures Next(s, t, a).threads.Keys == s.threads.Keys
    ensures forall u :: u in s.threads && u != t ==> Next(s, t, a).threads[u] == s.threads[u]
  {
  }

  lemma SeenBoundsStep(s: State, t: Tid, a: Action)
    requires Shape(s) && SeenBounds(s) && Enabled(s, t, a)
    ensures SeenBounds(Next(s, t, a))
  {
    var s' := Next(s, t, a);
    ConstantsFrame(s, t, a);
    forall u | u in s'.threads ensures SeenBound(s', s'.threads[u].scan) {
      assert ThreadOk(s, u) && SeenBound(s, s.threads[u].scan);
      if u == t && (a.ScanLoadHead? || a.ScanLoadOwner? || a.ScanReadGuard?) {
        OwnWalkBound(s, t, a);
        OwnWalkLink(s, t, a);
        BoundFrame(s, t, a, s'.threads[u].scan);
      } else if s'.threads[u].scan.Walk? {
        ScanFrame(s, u, t, a);
        BoundFrame(s, t, a, s.threads[u].scan);
      }
    }
  }

  lemma OwnWalkLink(s: State, t: Tid, a: Action)
    requires Shape(s) && Enabled(s, t, a)
    requires a.ScanLoadHead? || a.ScanLoadOwner? || a.ScanReadGuard?
    ensures var sc := Next(s, t, a).threads[t].scan; sc.Walk? ==> PublishedLink(s, sc.node)
  {
    assert ThreadOk(s, t);
    if !a.ScanLoadHead? { assert RecOk(s, s.threads[t].scan.node.rec); }
  }

  // ---------------------------------------------------------------- room

  /** The caller-checkable condition: capacity beyond one slot per guard of the record list. */
  ghost predicate Roomy(s: State) {
    s.hazardCount * |s.chain| < s.capacity
  }

  /** Record r can take a pointer, unless its owner is about to make room by scanning. */
  ghost predicate RoomAt(s: State, r: RecId)
    requires r < |s.recs|
  {
    || |s.recs[r].retired| < s.capacity
    || (s.recs[r].owner in s.threads
        && Owns(s.threads[s.recs[r].owner].mode, r) && !s.threads[s.recs[r].owner].scan.Off?)
  }

  ghost predicate RoomInv(s: State) {
    && SeenBounds(s)
    && (Roomy(s) ==> forall r :: 0 <= r < |s.recs| ==> RoomAt(s, r))
  }

  lemma RoomyBefore(s: State, t: Tid, a: Action)
    requires Enabled(s, t, a) && Roomy(Next(s, t, a))
    ensures Roomy(s)
  {
    ChainStep(s, t, a);
    ConstantsFrame(s, t, a);
    MulMono(s.hazardCount, |s.chain|, |Next(s, t, a).chain|);
  }

  lemma ScanEndRoom(s: State, t: Tid, kept: seq<Ptr>, gone: seq<Ptr>)
    requires Shape(s) && Conserved(s) && SeenBounds(s) && Enabled(s, t, ScanEnd(kept, gone))
    ensures |kept| <= s.hazardCount * s.threads[t].scan.owned
    ensures s.threads[t].scan.owned <= |s.chain|
    ensures Roomy(s) ==> |kept| < s.capacity
  {
    KeptAtMostSeen(s, t, kept, gone);
    assert ThreadOk(s, t) && SeenBound(s, s.threads[t].scan);
    MulMono(s.hazardCount, s.threads[t].scan.owned, |s.chain|);
  }

  /** How one step affects the room of a record that is not the scanner's own. */
  lemma RoomAtStep(s: State, t: Tid, a: Action, r: RecId)
    requires Shape(s) && Enabled(s, t, a) && !a.ScanEnd? && r < |s.recs| && RoomAt(s, r) && s.capacity > 0
    ensures r < |Next(s, t, a).recs| && RoomAt(Next(s, t, a), r)
  {
    if Detaching(a) { RoomAtDetach(s, t, a, r); } else { RoomAtRest(s, t, a, r); }
  }

  lemma RoomAtDetach(s: State, t: Tid, a: Action, r: RecId)
    requires Shape(s) && Enabled(s, t, a) && Detaching(a) && r < |s.recs| && RoomAt(s, r) && s.capacity > 0
    ensures r < |Next(s, t, a).recs| && RoomAt(Next(s, t, a), r)
  {
    RetiredFrame(s, t, a);
    ShapeReady(s, t, a);
    DetachFrame(s, t, a);
    RoomAtKept(s, Next(s, t, a), t, a, r);
  }

  lemma RoomAtKept(s: State, s': State, t: Tid, a: Action, r: RecId)
    requires Shape(s) && Enabled(s, t, a) && Detaching(a) && r < |s.recs| && RoomAt(s, r)
    requires OnlyChanges(s, s', t, Target(s, t, a)) && s'.recs[r].retired == s.recs[r].retired
    ensures RoomAt(s', r)
  {
    assert ThreadOk(s, t) && RecOk(s, r);
    assert !s.threads[t].scan.Off? ==> !Detaching(a);
  }

  lemma RoomAtRest(s: State, t: Tid, a: Action, r: RecId)
    requires Shape(s) && Enabled(s, t, a) && !Detaching(a) && !a.ScanEnd? && r < |s.recs| && RoomAt(s, r) && s.capacity > 0
    ensures r < |Next(s, t, a).recs| && RoomAt(Next(s, t, a), r)
  {
    assert ThreadOk(s, t) && RecOk(s, r);
  }

  lemma RoomAfterScan(s: State, t: Tid, kept: seq<Ptr>, gone: seq<Ptr>, r: RecId)
    requires Shape(s) && Conserved(s) && RoomInv(s) && Roomy(s) && Enabled(s, t, ScanEnd(kept, gone)) && r < |s.recs|
    ensures RoomAt(Next(s, t, ScanEnd(kept, gone)), r)
  {
    ScanEndRoom(s, t, kept, gone);
    assert RoomAt(s, r) && ThreadOk(s, t) && RecOk(s, r);
  }

  lemma RoomStep(s: State, t: Tid, a: Action)
    requires Shape(s) && Conserved(s) && RoomInv(s) && Enabled(s, t, a)
    ensures RoomInv(Next(s, t, a))
  {
    var s' := Next(s, t, a);
    SeenBoundsStep(s, t, a);
    if Roomy(s') {
      RoomyBefore(s, t, a);
      forall r | 0 <= r < |s'.recs| ensures RoomAt(s', r) {
        if a.ScanEnd? {
          RoomAfterScan(s, t, a.kept, a.gone, r);
        } else if r < |s.recs| {
          RoomAtStep(s, t, a, r);
        }
      }
    }
  }

  lemma {:induction false} RunRoom(run: seq<State>, i: nat)
    requires Run(run) && i < |run|
    ensures RoomInv(run[i])
  {
    if i > 0 {
      RunRoom(run, i - 1);
      RunInv(run, i - 1);
      assert Step(run[i - 1], run[i - 1 + 1]);
      var t, a :| Enabled(run[i - 1], t, a) && run[i] == Next(run[i - 1], t, a);
      RoomStep(run[i - 1], t, a);
    }
  }

  /** In every run, as long as the capacity exceeds one slot per guard in the record list, a
      thread that is free to push finds room: neither retire nor help_scan overruns the array. */
  lemma PushFindsRoom(run: seq<State>, i: nat, t: Tid)
    requires Run(run) && i < |run| && Roomy(run[i])
    requires t in run[i].threads && run[i].threads[t].scan.Off?
    requires run[i].threads[t].mode.Attached? || run[i].threads[t].mode.Moving?
    ensures var r := run[i].threads[t].mode.rec; r < |run[i].recs| && |run[i].recs[r].retired| < run[i].capacity
  {
    RunInv(run, i);
    RunRoom(run, i);
    var m := run[i].threads[t].mode;
    assert ThreadOk(run[i], t) && Holds(m, m.rec);
    assert RoomAt(run[i], m.rec);
  }

  /** A scan that found `owned` records owned keeps at most hazardCount * owned pointers.  With
      at most T of them and the default capacity 2 * hazardCount * T, scanning a full array
      disposes of at least half of it. */
  lemma ScanFreesHalf(run: seq<State>, i: nat, t: Tid, kept: seq<Ptr>, gone: seq<Ptr>, maxThreads: nat)
    requires Run(run) && i < |run| && Enabled(run[i], t, ScanEnd(kept, gone))
    requires run[i].threads[t].scan.owned <= maxThreads
    ensures |kept| <= run[i].hazardCount * maxThreads
    ensures var s := run[i];
      s.capacity == 2 * (s.hazardCount * maxThreads) && |s.recs[s.threads[t].mode.rec].retired| == s.capacity
      ==> 2 * |gone| >= s.capacity
  {
    var s := run[i];
    RunInv(run, i);
    RunRoom(run, i);
    ScanEndRoom(s, t, kept, gone);
    MulMono(s.hazardCount, s.threads[t].scan.owned, maxThreads);
    KeptFits(s.recs[s.threads[t].mode.rec].retired, s.threads[t].scan.seen, kept, gone);
  }

  /** The next step of a thread that is inside a scan. */
  ghost function NextScanAction(s: State, t: Tid): (a: Action)
    requires t in s.threads
  {
    var th := s.threads[t];
    if !th.scan.Walk? then ScanLoadHead
    else if th.scan.node.Null? then
      if CanScan(th.mode) && th.mode.rec < |s.recs| then
        ScanEnd(Keep(s.recs[th.mode.rec].retired, th.scan.seen), Drop(s.recs[th.mode.rec].retired, th.scan.seen))
      else ScanEnd([], [])
    else if th.scan.reading then ScanReadGuard
    else ScanLoadOwner
  }

  /** A next step of a thread that is not inside a scan. */
  ghost function NextModeAction(s: State, t: Tid): (a: Action)
    requires t in s.threads
  {
    match s.threads[t].mode
    case Detached => AttachStart
    case Searching(c) => if c.To? then TryClaim else Create
    case Claimed(_) => ClearFreeFlag
    case Fresh(_, _) => StoreNext
    case Linked(_, _) => SwapHead(false)
    case Attached(_) => DetachStart
    case Clearing(_, _) => ClearSlot
    case DetachScan(_) => HelpStart
    case Helping(_, c) => if c.To? then HelpTestFree else HelpEnd
    case HelpClaim(_, _) => HelpTryClaim
    case Moving(_, src) => if src < |s.recs| && s.recs[src].retired == [] then MoveEnd else MoveOne
    case Drained(_, _) => SetFreeFlag
    case Marked(_, _) => ReleaseHelped
    case Releasing(_) => Release
  }

  lemma ScanGoesOn(s: State, t: Tid)
    requires Shape(s) && t in s.threads && !s.threads[t].scan.Off?
    ensures Enabled(s, t, NextScanAction(s, t))
  {
    var th := s.threads[t];
    assert ThreadOk(s, t) && Holds(th.mode, th.mode.rec);
    if th.scan.Walk? {
      if th.scan.node.To? {
        assert RecOk(s, th.scan.node.rec);
      } else {
        KeepDropSplit(s.recs[th.mode.rec].retired, th.scan.seen);
      }
    }
  }

  /** The guards of the step relation never block: in every run that stays roomy, every thread
      can always take a next step, whatever the others are doing. */
  lemma NeverStuck(run: seq<State>, i: nat, t: Tid)
    requires Run(run) && i < |run| && Roomy(run[i]) && t in run[i].threads
    ensures exists a :: Enabled(run[i], t, a)
  {
    var s := run[i];
    RunInv(run, i);
    if !s.threads[t].scan.Off? {
      ScanGoesOn(s, t);
    } else {
      assert ThreadOk(s, t);
      var m := s.threads[t].mode;
      if !m.Detached? && !m.Searching? {
        assert Holds(m, m.rec);
        assert RecOk(s, m.rec);
      }
      if m.Moving? {
        assert Holds(m, m.src);
        PushFindsRoom(run, i, t);
      }
      assert Enabled(s, t, NextModeAction(s, t));
    }
  }
}

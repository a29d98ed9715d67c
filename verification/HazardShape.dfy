/**
  Every step of the hazard-pointer protocol keeps the shape of its shared structure: the
  record list stays acyclic and loses no record, every record has at most one holder, guards
  are null unless their owner is attached, and a set free flag means an empty retired array.

  Each step touches one thread and at most one record of another thread's concern, so the
  proof is local: `Local` says what a step must establish about the thread and record it
  touches, and `ShapeFrame` lifts that to the whole state.
 */
module HazardShape {
  import opened Reclaim
  import opened HazardProtocol

  /** Everything but thread t and record r is as before; if r changed, t or nobody owned it.
      `r == |s.recs|` says that no record changed. */
  ghost predicate OnlyChanges(s: State, s': State, t: Tid, r: RecId) {
    && t in s.threads
    && s'.hazardCount == s.hazardCount && s'.capacity == s.capacity
    && s'.head == s.head && s'.chain == s.chain
    && |s'.recs| == |s.recs|
    && (forall x :: 0 <= x < |s.recs| && x != r ==> s'.recs[x] == s.recs[x])
    && s'.threads.Keys == s.threads.Keys
    && (forall u :: u in s.threads && u != t ==> s'.threads[u] == s.threads[u])
    && (r < |s.recs| ==>
          && s'.recs[r].rank == s.recs[r].rank
          && (s'.recs[r] == s.recs[r] || s.recs[r].owner == 0 || s.recs[r].owner == t))
  }

  /** Thread t keeps holding what it held, apart from record r. */
  ghost predicate KeepsHolding(m: Mode, m': Mode, r: RecId) {
    && (forall x: RecId :: x != r && Holds(m, x) ==> Holds(m', x))
    && (forall x: RecId, k: nat :: x != r && MaySet(m, x, k) ==> MaySet(m', x, k))
    && ((m.Fresh? || m.Linked?) && m.rec != r ==> m'.Fresh? || m'.Linked?)
  }

  ghost predicate Local(s: State, s': State, t: Tid, r: RecId) {
    && OnlyChanges(s, s', t, r)
    && KeepsHolding(s.threads[t].mode, s'.threads[t].mode, r)
    && InOrder(s, s', t, r)
  }

  ghost predicate InOrder(s: State, s': State, t: Tid, r: RecId)
    requires |s'.recs| == |s.recs|
  {
    (r < |s.recs| ==> RecOk(s', r)) && t in s'.threads && ThreadOk(s', t)
  }

  lemma OtherRecord(s: State, s': State, t: Tid, r: RecId, x: RecId)
    requires OnlyChanges(s, s', t, r) && x < |s.recs| && x != r
    requires KeepsHolding(s.threads[t].mode, s'.threads[t].mode, r)
    requires RecOk(s, x)
    ensures RecOk(s', x)
  {
  }

  lemma OtherThread(s: State, s': State, t: Tid, r: RecId, u: Tid)
    requires OnlyChanges(s, s', t, r) && u in s.threads && u != t
    requires ThreadOk(s, u)
    ensures ThreadOk(s', u)
  {
    assert r < |s.recs| && s'.recs[r] != s.recs[r] ==> !Holds(s.threads[u].mode, r);
  }

  lemma ShapeFrame(s: State, s': State, t: Tid, r: RecId)
    requires Shape(s) && Local(s, s', t, r)
    ensures Shape(s')
  {
    forall x | 0 <= x < |s'.recs| ensures RecOk(s', x) {
      assert RecOk(s, x);
      if x != r { OtherRecord(s, s', t, r, x); }
    }
    forall u | u in s'.threads ensures ThreadOk(s', u) {
      assert ThreadOk(s, u);
      if u != t { OtherThread(s, s', t, r, u); }
    }
  }

  /** The record a step reads or changes, apart from what it knows to be its own. */
  ghost function Target(s: State, t: Tid, a: Action): (r: RecId)
    requires Enabled(s, t, a)
  {
    var m := s.threads[t].mode;
    match a
    case TryClaim => m.cur.rec
    case ClearFreeFlag => m.rec
    case StoreNext => m.rec
    case SetGuard(_, _) => m.rec
    case Validate(_) => m.rec
    case CopyGuard(_, _) => m.rec
    case Retire(_) => m.rec
    case ScanLoadOwner => s.threads[t].scan.node.rec
    case ScanReadGuard => s.threads[t].scan.node.rec
    case ScanEnd(_, _) => m.rec
    case ClearSlot => m.rec
    case HelpTestFree => m.cur.rec
    case HelpTryClaim => m.src
    case SetFreeFlag => m.src
    case ReleaseHelped => m.src
    case Release => m.rec
    case _ => |s.recs|
  }

  /** What a step may rely on about the thread and the record it touches. */
  ghost predicate Ready(s: State, t: Tid, a: Action) {
    && Enabled(s, t, a)
    && s.hazardCount > 0 && 0 !in s.threads
    && ListOk(s) && ThreadOk(s, t)
    && (Target(s, t, a) < |s.recs| ==> RecOk(s, Target(s, t, a)))
  }

  lemma ShapeReady(s: State, t: Tid, a: Action)
    requires Shape(s) && Enabled(s, t, a)
    ensures Ready(s, t, a)
  {
    assert 0 in s.threads ==> ThreadOk(s, 0);
    assert ThreadOk(s, t);
  }

  lemma KeptFits(retired: seq<Ptr>, seen: set<Ptr>, kept: seq<Ptr>, gone: seq<Ptr>)
    requires ScanOutcome(retired, seen, kept, gone)
    ensures |kept| + |gone| == |retired|
    ensures retired == [] ==> kept == []
  {
    assert |multiset(kept) + multiset(gone)| == |multiset(retired)|;
  }

  lemma ClaimLocal(s: State, t: Tid, a: Action)
    requires Ready(s, t, a) && a.TryClaim?
    ensures |Next(s, t, a).recs| == |s.recs| && InOrder(s, Next(s, t, a), t, Target(s, t, a))
  {
  }

  lemma SearchLocal(s: State, t: Tid, a: Action)
    requires Ready(s, t, a) && a.AttachStart?
    ensures |Next(s, t, a).recs| == |s.recs| && InOrder(s, Next(s, t, a), t, Target(s, t, a))
  {
  }

  lemma LinkLocal(s: State, t: Tid, a: Action)
    requires Ready(s, t, a) && (a.ClearFreeFlag? || a.StoreNext?)
    ensures |Next(s, t, a).recs| == |s.recs| && InOrder(s, Next(s, t, a), t, Target(s, t, a))
  {
  }

  lemma GuardLocal(s: State, t: Tid, a: Action)
    requires Ready(s, t, a) && (a.SetGuard? || a.Validate? || a.CopyGuard?)
    ensures |Next(s, t, a).recs| == |s.recs| && InOrder(s, Next(s, t, a), t, Target(s, t, a))
  {
  }

  lemma RetireLocal(s: State, t: Tid, a: Action)
    requires Ready(s, t, a) && a.Retire?
    ensures |Next(s, t, a).recs| == |s.recs| && InOrder(s, Next(s, t, a), t, Target(s, t, a))
  {
  }

  lemma LeaveLocal(s: State, t: Tid, a: Action)
    requires Ready(s, t, a) && (a.UserScan? || a.DetachStart?)
    ensures |Next(s, t, a).recs| == |s.recs| && InOrder(s, Next(s, t, a), t, Target(s, t, a))
  {
  }

  lemma WalkLocal(s: State, t: Tid, a: Action)
    requires Ready(s, t, a) && (a.ScanLoadHead? || a.ScanLoadOwner? || a.ScanReadGuard?)
    ensures |Next(s, t, a).recs| == |s.recs| && InOrder(s, Next(s, t, a), t, Target(s, t, a))
  {
  }

  lemma ScanEndLocal(s: State, t: Tid, a: Action)
    requires Ready(s, t, a) && (a.ScanEnd?)
    ensures |Next(s, t, a).recs| == |s.recs| && InOrder(s, Next(s, t, a), t, Target(s, t, a))
  {
    KeptFits(s.recs[s.threads[t].mode.rec].retired, s.threads[t].scan.seen, a.kept, a.gone);
  }

  lemma ClearSlotLocal(s: State, t: Tid, a: Action)
    requires Ready(s, t, a) && (a.ClearSlot?)
    ensures |Next(s, t, a).recs| == |s.recs| && InOrder(s, Next(s, t, a), t, Target(s, t, a))
  {
  }

  lemma HelpStartLocal(s: State, t: Tid, a: Action)
    requires Ready(s, t, a) && (a.HelpStart?)
    ensures |Next(s, t, a).recs| == |s.recs| && InOrder(s, Next(s, t, a), t, Target(s, t, a))
  {
  }

  lemma HelpTestLocal(s: State, t: Tid, a: Action)
    requires Ready(s, t, a) && (a.HelpTestFree?)
    ensures |Next(s, t, a).recs| == |s.recs| && InOrder(s, Next(s, t, a), t, Target(s, t, a))
  {
  }

  lemma HelpClaimLocal(s: State, t: Tid, a: Action)
    requires Ready(s, t, a) && a.HelpTryClaim?
    ensures |Next(s, t, a).recs| == |s.recs| && InOrder(s, Next(s, t, a), t, Target(s, t, a))
  {
    if s.recs[s.threads[t].mode.src].owner == 0 { HelpClaimTakes(s, t, a); } else { HelpClaimFails(s, t, a); }
  }

  lemma HelpClaimTakes(s: State, t: Tid, a: Action)
    requires Ready(s, t, a) && a.HelpTryClaim? && s.recs[s.threads[t].mode.src].owner == 0
    ensures RecOk(Next(s, t, a), Target(s, t, a)) && ThreadOk(Next(s, t, a), t)
  {
    var src := s.threads[t].mode.src;
    assert forall k :: 0 <= k < |s.recs[src].guards| ==> s.recs[src].guards[k].ptr == 0;
  }

  lemma HelpClaimFails(s: State, t: Tid, a: Action)
    requires Ready(s, t, a) && a.HelpTryClaim? && s.recs[s.threads[t].mode.src].owner != 0
    ensures RecOk(Next(s, t, a), Target(s, t, a)) && ThreadOk(Next(s, t, a), t)
  {
  }

  lemma MoveEndLocal(s: State, t: Tid, a: Action)
    requires Ready(s, t, a) && (a.MoveEnd?)
    ensures |Next(s, t, a).recs| == |s.recs| && InOrder(s, Next(s, t, a), t, Target(s, t, a))
  {
  }

  lemma SetFreeLocal(s: State, t: Tid, a: Action)
    requires Ready(s, t, a) && (a.SetFreeFlag?)
    ensures |Next(s, t, a).recs| == |s.recs| && InOrder(s, Next(s, t, a), t, Target(s, t, a))
  {
  }

  lemma ReleaseHelpedLocal(s: State, t: Tid, a: Action)
    requires Ready(s, t, a) && (a.ReleaseHelped?)
    ensures |Next(s, t, a).recs| == |s.recs| && InOrder(s, Next(s, t, a), t, Target(s, t, a))
  {
  }

  lemma HelpEndLocal(s: State, t: Tid, a: Action)
    requires Ready(s, t, a) && (a.HelpEnd?)
    ensures |Next(s, t, a).recs| == |s.recs| && InOrder(s, Next(s, t, a), t, Target(s, t, a))
  {
  }

  lemma ReleaseLocal(s: State, t: Tid, a: Action)
    requires Ready(s, t, a) && (a.Release?)
    ensures |Next(s, t, a).recs| == |s.recs| && InOrder(s, Next(s, t, a), t, Target(s, t, a))
  {
  }

  // ---------------------------------------------------------------- steps that are not local

  lemma CreateShape(s: State, t: Tid)
    requires Shape(s) && Enabled(s, t, Create)
    ensures Shape(Next(s, t, Create))
  {
    var s' := Next(s, t, Create);
    forall x | 0 <= x < |s'.recs| ensures RecOk(s', x) {
      CreateRecord(s, t, x);
    }
    forall u | u in s'.threads ensures ThreadOk(s', u) {
      CreateThread(s, t, u);
    }
  }

  lemma CreateRecord(s: State, t: Tid, x: RecId)
    requires Shape(s) && Enabled(s, t, Create) && x <= |s.recs|
    ensures RecOk(Next(s, t, Create), x)
  {
    assert ThreadOk(s, t);
    if x < |s.recs| { assert RecOk(s, x); }
  }

  lemma CreateThread(s: State, t: Tid, u: Tid)
    requires Shape(s) && Enabled(s, t, Create) && u in s.threads
    ensures ThreadOk(Next(s, t, Create), u)
  {
    assert ThreadOk(s, u);
  }

  /** Publishing a record in front of a head that has not moved since it was linked to it. */
  ghost predicate Publishing(s: State, t: Tid) {
    Enabled(s, t, SwapHead(false)) && s.head == s.threads[t].mode.seenHead
  }

  lemma PublishRecord(s: State, t: Tid, x: RecId)
    requires Publishing(s, t) && ListOk(s) && ThreadOk(s, t) && x < |s.recs| && RecOk(s, x)
    ensures RecOk(Next(s, t, SwapHead(false)), x)
  {
  }

  lemma PublishThread(s: State, t: Tid, u: Tid)
    requires Publishing(s, t) && ListOk(s) && ThreadOk(s, t) && u in s.threads && ThreadOk(s, u)
    ensures ThreadOk(Next(s, t, SwapHead(false)), u)
  {
    assert u != t ==> !Holds(s.threads[u].mode, s.threads[t].mode.rec);
  }

  lemma SwapHeadShape(s: State, t: Tid, spurious: bool)
    requires Shape(s) && Enabled(s, t, SwapHead(spurious))
    ensures Shape(Next(s, t, SwapHead(spurious)))
  {
    var s' := Next(s, t, SwapHead(spurious));
    assert ThreadOk(s, t);
    if s.head == s.threads[t].mode.seenHead && !spurious {
      forall x | 0 <= x < |s'.recs| ensures RecOk(s', x) {
        assert RecOk(s, x);
        PublishRecord(s, t, x);
      }
      forall u | u in s'.threads ensures ThreadOk(s', u) {
        assert ThreadOk(s, u);
        PublishThread(s, t, u);
      }
    } else {
      SwapFails(s, t, spurious);
      ShapeFrame(s, s', t, |s.recs|);
    }
  }

  lemma SwapFails(s: State, t: Tid, spurious: bool)
    requires Enabled(s, t, SwapHead(spurious)) && ThreadOk(s, t) && ListOk(s)
    requires s.head != s.threads[t].mode.seenHead || spurious
    ensures Local(s, Next(s, t, SwapHead(spurious)), t, |s.recs|)
  {
  }

  /** MoveOne changes two records of one thread: take the pointer out, then put it in. */
  ghost function TakenOut(s: State, src: RecId): (s1: State)
    requires src < |s.recs| && |s.recs[src].retired| > 0
  {
    WithRec(s, src, s.recs[src].(retired := s.recs[src].retired[1..]))
  }

  lemma TakeOutLocal(s: State, t: Tid)
    requires Enabled(s, t, MoveOne) && ThreadOk(s, t) && RecOk(s, s.threads[t].mode.src)
    ensures Local(s, TakenOut(s, s.threads[t].mode.src), t, s.threads[t].mode.src)
  {
  }

  lemma PutInLocal(s: State, t: Tid)
    requires Enabled(s, t, MoveOne)
    requires var s1 := TakenOut(s, s.threads[t].mode.src); ThreadOk(s1, t) && RecOk(s1, s.threads[t].mode.rec)
    ensures Local(TakenOut(s, s.threads[t].mode.src), Next(s, t, MoveOne), t, s.threads[t].mode.rec)
  {
  }

  lemma MoveOneShape(s: State, t: Tid)
    requires Shape(s) && Enabled(s, t, MoveOne)
    ensures Shape(Next(s, t, MoveOne))
  {
    var m := s.threads[t].mode;
    var s1 := TakenOut(s, m.src);
    assert ThreadOk(s, t) && RecOk(s, m.src);
    TakeOutLocal(s, t);
    ShapeFrame(s, s1, t, m.src);
    assert ThreadOk(s1, t) && RecOk(s1, m.rec);
    PutInLocal(s, t);
    ShapeFrame(s1, Next(s, t, MoveOne), t, m.rec);
  }

  // ---------------------------------------------------------------- every step

  /** The steps of a detach. */
  predicate Detaching(a: Action) {
    || a.DetachStart? || a.ClearSlot? || a.HelpStart? || a.HelpTestFree? || a.HelpTryClaim? || a.MoveEnd?
    || a.SetFreeFlag? || a.ReleaseHelped? || a.HelpEnd? || a.Release?
  }

  lemma DetachFrame(s: State, t: Tid, a: Action)
    requires Ready(s, t, a) && Detaching(a)
    ensures OnlyChanges(s, Next(s, t, a), t, Target(s, t, a))
  {
  }

  lemma AttachedFrame(s: State, t: Tid, a: Action)
    requires Ready(s, t, a) && !Detaching(a) && !a.Create? && !a.SwapHead? && !a.MoveOne? && !a.Allocate?
    ensures OnlyChanges(s, Next(s, t, a), t, Target(s, t, a))
  {
  }

  lemma LocalHolding(s: State, t: Tid, a: Action)
    requires Ready(s, t, a) && !a.Create? && !a.SwapHead? && !a.MoveOne? && !a.Allocate?
    ensures KeepsHolding(s.threads[t].mode, Next(s, t, a).threads[t].mode, Target(s, t, a))
  {
  }

  lemma LocalStep(s: State, t: Tid, a: Action)
    requires Ready(s, t, a) && !a.Create? && !a.SwapHead? && !a.MoveOne? && !a.Allocate?
    ensures Local(s, Next(s, t, a), t, Target(s, t, a))
  {
    if Detaching(a) { DetachFrame(s, t, a); } else { AttachedFrame(s, t, a); }
    LocalHolding(s, t, a);
    match a
    case AttachStart => SearchLocal(s, t, a);
    case TryClaim => ClaimLocal(s, t, a);
    case ClearFreeFlag => LinkLocal(s, t, a);
    case StoreNext => LinkLocal(s, t, a);
    case SetGuard(_, _) => GuardLocal(s, t, a);
    case Validate(_) => GuardLocal(s, t, a);
    case CopyGuard(_, _) => GuardLocal(s, t, a);
    case Retire(_) => RetireLocal(s, t, a);
    case UserScan => LeaveLocal(s, t, a);
    case DetachStart => LeaveLocal(s, t, a);
    case ScanLoadHead => WalkLocal(s, t, a);
    case ScanLoadOwner => WalkLocal(s, t, a);
    case ScanReadGuard => WalkLocal(s, t, a);
    case ScanEnd(_, _) => ScanEndLocal(s, t, a);
    case ClearSlot => ClearSlotLocal(s, t, a);
    case HelpStart => HelpStartLocal(s, t, a);
    case HelpTestFree => HelpTestLocal(s, t, a);
    case HelpTryClaim => HelpClaimLocal(s, t, a);
    case MoveEnd => MoveEndLocal(s, t, a);
    case SetFreeFlag => SetFreeLocal(s, t, a);
    case ReleaseHelped => ReleaseHelpedLocal(s, t, a);
    case HelpEnd => HelpEndLocal(s, t, a);
    case Release => ReleaseLocal(s, t, a);
  }

  /** Shape says nothing about the histories. */
  lemma SameShape(s: State, s': State)
    requires Shape(s) && s'.hazardCount == s.hazardCount && s'.capacity == s.capacity
    requires s'.head == s.head && s'.recs == s.recs && s'.threads == s.threads && s'.chain == s.chain
    ensures Shape(s')
  {
    forall x | 0 <= x < |s.recs| ensures RecOk(s', x) { assert RecOk(s, x); }
    forall u | u in s.threads ensures ThreadOk(s', u) { assert ThreadOk(s, u); }
  }

  lemma ShapeStep(s: State, t: Tid, a: Action)
    requires Shape(s) && Enabled(s, t, a)
    ensures Shape(Next(s, t, a))
  {
    if a.Create? {
      CreateShape(s, t);
    } else if a.SwapHead? {
      SwapHeadShape(s, t, a.spurious);
    } else if a.MoveOne? {
      MoveOneShape(s, t);
    } else if a.Allocate? {
      SameShape(s, Next(s, t, a));
    } else {
      ShapeReady(s, t, a);
      LocalStep(s, t, a);
      ShapeFrame(s, Next(s, t, a), t, Target(s, t, a));
    }
  }
}

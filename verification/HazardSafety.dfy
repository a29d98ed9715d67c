/**
  What the hazard-pointer protocol is for, over every run and every interleaving:

  - a pointer whose guard was validated is not freed while the guard stays (NoUseAfterFree);
  - a pointer some guard holds from before a scan loads the list head until the scan has
    read that guard is not freed by that scan (HeldPointerSurvivesScan);
  - every retired pointer is pending in exactly one retired array or has been freed, never
    both and never twice, and destruction frees the rest (ExactlyOnce, Destroy).
 */
module HazardSafety {
  import opened Reclaim
  import opened HazardProtocol
  import opened HazardShape

  // ---------------------------------------------------------------- conservation

  /** How often p waits in retired arrays. */
  ghost function Pending(recs: seq<Record>, p: Ptr): (n: nat) {
    if recs == [] then 0
    else Pending(recs[..|recs| - 1], p) + multiset(recs[|recs| - 1].retired)[p]
  }

  /** A pointer retired since its last allocation is in one place, pending or dead, and any other
      in none; and every retirement is pending or was answered by one disposal. */
  ghost predicate Accounted(s: State, p: Ptr) {
    && Pending(s.recs, p) + (if p in s.dead then 1 else 0) == (if p in s.unlinked then 1 else 0)
    && Pending(s.recs, p) + multiset(s.freed)[p] == multiset(s.retires)[p]
  }

  ghost predicate Conserved(s: State) {
    forall p :: Accounted(s, p)
  }

  lemma {:induction false} PendingUpdate(recs: seq<Record>, r: RecId, rec: Record, p: Ptr)
    requires r < |recs|
    ensures Pending(recs[r := rec], p) + multiset(recs[r].retired)[p] == Pending(recs, p) + multiset(rec.retired)[p]
  {
    var n := |recs| - 1;
    if r == n {
      assert recs[r := rec][..n] == recs[..n];
    } else {
      assert recs[r := rec][..n] == recs[..n][r := rec];
      PendingUpdate(recs[..n], r, rec, p);
    }
  }

  lemma {:induction false} PendingHas(recs: seq<Record>, r: RecId, p: Ptr)
    requires r < |recs|
    ensures multiset(recs[r].retired)[p] <= Pending(recs, p)
  {
    if r < |recs| - 1 { PendingHas(recs[..|recs| - 1], r, p); }
  }

  lemma {:induction false} PendingHasTwo(recs: seq<Record>, r: RecId, q: RecId, p: Ptr)
    requires r < q < |recs|
    ensures multiset(recs[r].retired)[p] + multiset(recs[q].retired)[p] <= Pending(recs, p)
  {
    var n := |recs| - 1;
    if q == n { PendingHas(recs[..n], r, p); } else { PendingHasTwo(recs[..n], r, q, p); }
  }

  /** Steps other than these leave every retired array and the histories alone. */
  ghost predicate TouchesRetired(a: Action) {
    a.Retire? || a.Allocate? || a.ScanEnd? || a.MoveOne? || a.Create?
  }

  lemma RetiredFrame(s: State, t: Tid, a: Action)
    requires Enabled(s, t, a) && !TouchesRetired(a)
    ensures var s' := Next(s, t, a);
      && s'.unlinked == s.unlinked && s'.dead == s.dead && s'.retires == s.retires && s'.freed == s.freed
      && |s'.recs| == |s.recs|
      && forall x :: 0 <= x < |s.recs| ==> s'.recs[x].retired == s.recs[x].retired
  {
  }

  lemma {:induction false} PendingSame(recs: seq<Record>, recs': seq<Record>, p: Ptr)
    requires |recs| == |recs'|
    requires forall x :: 0 <= x < |recs| ==> recs'[x].retired == recs[x].retired
    ensures Pending(recs', p) == Pending(recs, p)
  {
    if recs != [] { PendingSame(recs[..|recs| - 1], recs'[..|recs| - 1], p); }
  }

  lemma RetireAccounted(s: State, t: Tid, q: Ptr, p: Ptr)
    requires Accounted(s, p) && Enabled(s, t, Retire(q))
    ensures Accounted(Next(s, t, Retire(q)), p)
  {
    var r := s.threads[t].mode.rec;
    PendingUpdate(s.recs, r, s.recs[r].(retired := s.recs[r].retired + [q]), p);
    CountSnoc(s.recs[r].retired, q, p);
    CountSnoc(s.retires, q, p);
  }

  lemma ScanEndAccounted(s: State, t: Tid, kept: seq<Ptr>, gone: seq<Ptr>, p: Ptr)
    requires Accounted(s, p) && Enabled(s, t, ScanEnd(kept, gone))
    ensures Accounted(Next(s, t, ScanEnd(kept, gone)), p)
  {
    var r := s.threads[t].mode.rec;
    PendingUpdate(s.recs, r, s.recs[r].(retired := kept), p);
    assert multiset(kept)[p] + multiset(gone)[p] == (multiset(kept) + multiset(gone))[p];
    assert multiset(s.freed + gone)[p] == multiset(s.freed)[p] + multiset(gone)[p];
    PendingHas(s.recs, r, p);
    assert p in gone <==> multiset(gone)[p] > 0;
  }

  lemma MoveOneAccounted(s: State, t: Tid, p: Ptr)
    requires Accounted(s, p) && Enabled(s, t, MoveOne)
    ensures Accounted(Next(s, t, MoveOne), p)
  {
    var m := s.threads[t].mode;
    var c := s.recs[m.src];
    var s1 := TakenOut(s, m.src);
    var d := s1.recs[m.rec];
    PendingUpdate(s.recs, m.src, c.(retired := c.retired[1..]), p);
    assert c.retired == [c.retired[0]] + c.retired[1..];
    PendingUpdate(s1.recs, m.rec, d.(retired := d.retired + [c.retired[0]]), p);
    assert multiset(d.retired + [c.retired[0]])[p] == multiset(d.retired)[p] + multiset{c.retired[0]}[p];
  }

  lemma AccountedStep(s: State, t: Tid, a: Action, p: Ptr)
    requires Accounted(s, p) && Enabled(s, t, a)
    ensures Accounted(Next(s, t, a), p)
  {
    if a.Retire? {
      RetireAccounted(s, t, a.ptr, p);
    } else if a.ScanEnd? {
      ScanEndAccounted(s, t, a.kept, a.gone, p);
    } else if a.MoveOne? {
      MoveOneAccounted(s, t, p);
    } else if a.Allocate? {
    } else if a.Create? {
      var s' := Next(s, t, a);
      assert s'.recs[..|s'.recs| - 1] == s.recs;
    } else {
      RetiredFrame(s, t, a);
      PendingSame(s.recs, Next(s, t, a).recs, p);
    }
  }

  /** Reading of Conserved: a retired pointer has one place, and one only. */
  lemma OnePlace(s: State, r: RecId, i: nat)
    requires Conserved(s) && r < |s.recs| && i < |s.recs[r].retired|
    ensures var p := s.recs[r].retired[i];
      && p in s.unlinked && p !in s.dead && Pending(s.recs, p) == 1
      && (forall j :: 0 <= j < |s.recs[r].retired| && j != i ==> s.recs[r].retired[j] != p)
      && (forall q, j :: 0 <= q < |s.recs| && q != r && 0 <= j < |s.recs[q].retired| ==> s.recs[q].retired[j] != p)
  {
    var a := s.recs[r].retired;
    var p := a[i];
    PendingHas(s.recs, r, p);
    assert p in multiset(a) && Accounted(s, p);
    forall j | 0 <= j < |a| && j != i ensures a[j] != p {
      if a[j] == p { TwiceInSeq(a, i, j); }
    }
    forall q, j | 0 <= q < |s.recs| && q != r && 0 <= j < |s.recs[q].retired| ensures s.recs[q].retired[j] != p {
      if q < r { PendingHasTwo(s.recs, q, r, p); } else { PendingHasTwo(s.recs, r, q, p); }
      assert s.recs[q].retired[j] in multiset(s.recs[q].retired);
    }
  }

  // ---------------------------------------------------------------- what a scan has still to read

  /** The scan has not yet read guard k of record r. */
  ghost predicate Unread(s: State, sc: Scan, r: RecId, k: nat) {
    match sc
    case Off => true
    case Begin => true
    case Walk(node, reading, slot, _, _) =>
      && node.To? && Published(s, node.rec) && Published(s, r)
      && (s.recs[node.rec].rank > s.recs[r].rank || (node.rec == r && (!reading || slot <= k)))
  }

  /** If p is about to be judged by this scan, then p has been seen or its guard is still ahead. */
  ghost predicate Watched(s: State, sc: Scan, r: RecId, k: nat, p: Ptr) {
    Unread(s, sc, r, k) || (sc.Walk? && p in sc.seen)
  }

  ghost predicate HoldsAt(s: State, r: RecId, k: nat, p: Ptr) {
    p != 0 && r < |s.recs| && k < |s.recs[r].guards| && s.recs[r].guards[k].ptr == p
  }

  lemma HolderPublished(s: State, r: RecId, k: nat, p: Ptr)
    requires Shape(s) && HoldsAt(s, r, k, p)
    ensures Published(s, r) && s.recs[r].owner != 0
  {
    assert RecOk(s, r);
    assert 0 in s.threads ==> ThreadOk(s, 0);
    assert ThreadOk(s, s.recs[r].owner);
  }

  /** The scan of thread t itself moves on. */
  lemma WatchedScanStep(s: State, t: Tid, a: Action, r: RecId, k: nat, p: Ptr)
    requires Shape(s) && Enabled(s, t, a) && HoldsAt(s, r, k, p)
    requires a.ScanLoadHead? || a.ScanLoadOwner? || a.ScanReadGuard?
    requires Watched(s, s.threads[t].scan, r, k, p)
    ensures Watched(s, Next(s, t, a).threads[t].scan, r, k, p)
  {
    HolderPublished(s, r, k, p);
    assert RecOk(s, r) && ThreadOk(s, t);
    if !a.ScanLoadHead? {
      assert RecOk(s, s.threads[t].scan.node.rec);
    }
  }

  lemma RanksKept(s: State, t: Tid, a: Action, x: RecId)
    requires Shape(s) && Enabled(s, t, a) && Published(s, x)
    ensures Published(Next(s, t, a), x) && Next(s, t, a).recs[x].rank == s.recs[x].rank
  {
    assert ThreadOk(s, t);
  }

  lemma WatchedFrame(s: State, t: Tid, a: Action, sc: Scan, r: RecId, k: nat, p: Ptr)
    requires Shape(s) && Enabled(s, t, a) && Watched(s, sc, r, k, p)
    ensures Watched(Next(s, t, a), sc, r, k, p)
  {
    if sc.Walk? && p !in sc.seen {
      RanksKept(s, t, a, r);
      RanksKept(s, t, a, sc.node.rec);
    }
  }

  // ---------------------------------------------------------------- validated guards

  /** Thread u is deciding, in the scan it is in, about a retired array that contains p. */
  ghost predicate Judges(s: State, u: Tid, p: Ptr)
    requires u in s.threads
  {
    var th := s.threads[u];
    th.scan.Walk? && CanScan(th.mode) && th.mode.rec < |s.recs| && p in s.recs[th.mode.rec].retired
  }

  ghost predicate SlotSafe(s: State, r: RecId, k: nat)
    requires r < |s.recs| && k < |s.recs[r].guards|
  {
    var p := s.recs[r].guards[k].ptr;
    && p !in s.dead
    && (forall u :: u in s.threads && Judges(s, u, p) ==> Watched(s, s.threads[u].scan, r, k, p))
  }

  ghost predicate Safe(s: State) {
    forall r, k :: 0 <= r < |s.recs| && 0 <= k < |s.recs[r].guards| && s.recs[r].guards[k].validated ==> SlotSafe(s, r, k)
  }

  /** No step of t changes the retired array another thread is scanning. */
  lemma OthersRetired(s: State, t: Tid, a: Action, u: Tid)
    requires Shape(s) && Enabled(s, t, a) && u in s.threads && u != t && CanScan(s.threads[u].mode)
    ensures var x := s.threads[u].mode.rec;
      x < |s.recs| && Next(s, t, a).threads[u] == s.threads[u] && Next(s, t, a).recs[x].retired == s.recs[x].retired
  {
    var x := s.threads[u].mode.rec;
    assert ThreadOk(s, u) && ThreadOk(s, t);
    assert Holds(s.threads[u].mode, x) && !Holds(s.threads[t].mode, x);
    if TouchesRetired(a) {
      assert a.MoveOne? ==> Holds(s.threads[t].mode, s.threads[t].mode.src);
      assert !a.Create? && !a.Allocate? ==> Holds(s.threads[t].mode, s.threads[t].mode.rec);
    } else {
      RetiredFrame(s, t, a);
    }
  }

  lemma JudgedByOther(s: State, t: Tid, a: Action, r: RecId, k: nat, p: Ptr, u: Tid)
    requires Shape(s) && Enabled(s, t, a) && HoldsAt(s, r, k, p) && SlotSafe(s, r, k)
    requires u in s.threads && u != t && Judges(Next(s, t, a), u, p)
    ensures Watched(Next(s, t, a), Next(s, t, a).threads[u].scan, r, k, p)
  {
    assert Next(s, t, a).threads[u] == s.threads[u];
    OthersRetired(s, t, a, u);
    assert Judges(s, u, p);
    WatchedFrame(s, t, a, s.threads[u].scan, r, k, p);
  }

  lemma JudgedByMover(s: State, t: Tid, a: Action, r: RecId, k: nat, p: Ptr)
    requires Shape(s) && Enabled(s, t, a) && HoldsAt(s, r, k, p) && SlotSafe(s, r, k)
    requires Judges(Next(s, t, a), t, p)
    ensures Watched(Next(s, t, a), Next(s, t, a).threads[t].scan, r, k, p)
  {
    assert ThreadOk(s, t);
    assert a.ScanLoadHead? || a.ScanLoadOwner? || a.ScanReadGuard? || a.Allocate?;
    if a.Allocate? {
      assert Judges(s, t, p);
    } else {
      RetiredFrame(s, t, a);
      assert s.threads[t].scan.Walk? ==> Judges(s, t, p);
      WatchedScanStep(s, t, a, r, k, p);
    }
    WatchedFrame(s, t, a, Next(s, t, a).threads[t].scan, r, k, p);
  }

  lemma GoneWasRetired(retired: seq<Ptr>, seen: set<Ptr>, kept: seq<Ptr>, gone: seq<Ptr>)
    requires ScanOutcome(retired, seen, kept, gone)
    ensures forall q :: q in gone ==> q in retired
  {
    forall q | q in gone ensures q in retired {
      assert q in multiset(kept) + multiset(gone);
      assert q in multiset(retired);
    }
  }

  lemma NotFreedByStep(s: State, t: Tid, a: Action, r: RecId, k: nat, p: Ptr)
    requires Shape(s) && Enabled(s, t, a) && HoldsAt(s, r, k, p) && SlotSafe(s, r, k)
    ensures p !in Next(s, t, a).dead
  {
    if a.ScanEnd? {
      GoneWasRetired(s.recs[s.threads[t].mode.rec].retired, s.threads[t].scan.seen, a.kept, a.gone);
      if p in s.recs[s.threads[t].mode.rec].retired {
        assert Judges(s, t, p);
      }
    }
  }

  /** A slot whose pointer the step leaves in place stays safe. */
  lemma SlotSafeFrame(s: State, t: Tid, a: Action, r: RecId, k: nat, p: Ptr)
    requires Shape(s) && Enabled(s, t, a) && HoldsAt(s, r, k, p) && SlotSafe(s, r, k)
    requires HoldsAt(Next(s, t, a), r, k, p)
    ensures SlotSafe(Next(s, t, a), r, k)
  {
    var s' := Next(s, t, a);
    NotFreedByStep(s, t, a, r, k, p);
    forall u | u in s'.threads && Judges(s', u, p) ensures Watched(s', s'.threads[u].scan, r, k, p) {
      if u == t { JudgedByMover(s, t, a, r, k, p); } else { JudgedByOther(s, t, a, r, k, p, u); }
    }
  }

  /** A pointer not retired since its last allocation is in no retired array and not dead. */
  lemma NotRetired(s: State, p: Ptr)
    requires Accounted(s, p) && p !in s.unlinked
    ensures p !in s.dead
    ensures forall r :: 0 <= r < |s.recs| ==> p !in s.recs[r].retired
  {
    forall r | 0 <= r < |s.recs| ensures p !in s.recs[r].retired {
      PendingHas(s.recs, r, p);
      assert p !in multiset(s.recs[r].retired);
    }
  }

  lemma ValidateSafe(s: State, t: Tid, k: nat)
    requires Shape(s) && Conserved(s) && Enabled(s, t, Validate(k))
    ensures SlotSafe(Next(s, t, Validate(k)), s.threads[t].mode.rec, k)
  {
    var p := s.recs[s.threads[t].mode.rec].guards[k].ptr;
    assert Accounted(s, p);
    NotRetired(s, p);
    RetiredFrame(s, t, Validate(k));
  }

  /** Scans read the guards of a record upwards, so a copy to a higher slot is seen too. */
  lemma CopySafe(s: State, t: Tid, i: nat, j: nat)
    requires Shape(s) && Enabled(s, t, CopyGuard(i, j)) && i < j
    requires SlotSafe(s, s.threads[t].mode.rec, i)
    ensures SlotSafe(Next(s, t, CopyGuard(i, j)), s.threads[t].mode.rec, j)
  {
    var s' := Next(s, t, CopyGuard(i, j));
    var r := s.threads[t].mode.rec;
    var p := s.recs[r].guards[i].ptr;
    RetiredFrame(s, t, CopyGuard(i, j));
    forall u | u in s'.threads && Judges(s', u, p) ensures Watched(s', s'.threads[u].scan, r, j, p) {
      assert Judges(s, u, p);
      assert Watched(s, s.threads[u].scan, r, i, p);
      WatchedFrame(s, t, CopyGuard(i, j), s.threads[u].scan, r, i, p);
    }
  }

  ghost predicate TouchesGuards(a: Action) {
    a.SetGuard? || a.Validate? || a.CopyGuard? || a.ClearSlot? || a.Create?
  }

  lemma GuardsFrame(s: State, t: Tid, a: Action)
    requires Enabled(s, t, a) && !TouchesGuards(a)
    ensures var s' := Next(s, t, a);
      |s'.recs| == |s.recs| && forall x :: 0 <= x < |s.recs| ==> s'.recs[x].guards == s.recs[x].guards
  {
  }

  /** A slot that is validated after a step was so before, unless the step is one of these. */
  lemma ValidatedSource(s: State, t: Tid, a: Action, r: RecId, k: nat)
    requires Shape(s) && Enabled(s, t, a)
    requires var s' := Next(s, t, a); r < |s'.recs| && k < |s'.recs[r].guards| && s'.recs[r].guards[k].validated
    ensures
      || (r < |s.recs| && k < |s.recs[r].guards| && s.recs[r].guards[k] == Next(s, t, a).recs[r].guards[k])
      || (a == Validate(k) && r == s.threads[t].mode.rec)
      || (a.CopyGuard? && a.dst == k && a.src < k && r == s.threads[t].mode.rec && s.recs[r].guards[a.src].validated)
  {
    if !TouchesGuards(a) { GuardsFrame(s, t, a); }
  }

  lemma SafeStep(s: State, t: Tid, a: Action)
    requires Shape(s) && Conserved(s) && Safe(s) && Enabled(s, t, a)
    ensures Safe(Next(s, t, a))
  {
    var s' := Next(s, t, a);
    forall r, k | 0 <= r < |s'.recs| && 0 <= k < |s'.recs[r].guards| && s'.recs[r].guards[k].validated
      ensures SlotSafe(s', r, k)
    {
      ValidatedSource(s, t, a, r, k);
      if r < |s.recs| && k < |s.recs[r].guards| && s.recs[r].guards[k] == s'.recs[r].guards[k] {
        assert RecOk(s, r);
        SlotSafeFrame(s, t, a, r, k, s.recs[r].guards[k].ptr);
      } else if a == Validate(k) {
        ValidateSafe(s, t, k);
      } else {
        CopySafe(s, t, a.src, k);
      }
    }
  }

  // ---------------------------------------------------------------- every run

  ghost predicate Inv(s: State) {
    Shape(s) && Conserved(s) && Safe(s)
  }

  lemma InitInv(s: State)
    requires Init(s)
    ensures Inv(s)
  {
    forall p ensures Accounted(s, p) {}
  }

  lemma InvStep(s: State, s': State)
    requires Inv(s) && Step(s, s')
    ensures Inv(s')
  {
    var t, a :| Enabled(s, t, a) && s' == Next(s, t, a);
    ShapeStep(s, t, a);
    SafeStep(s, t, a);
    forall p ensures Accounted(s', p) {
      assert Accounted(s, p);
      AccountedStep(s, t, a, p);
    }
  }

  /** A finite run: an initial state and then steps of any threads in any order. */
  ghost predicate Run(run: seq<State>) {
    && |run| > 0 && Init(run[0])
    && forall i :: 0 <= i < |run| - 1 ==> Step(run[i], run[i + 1])
  }

  lemma {:induction false} RunInv(run: seq<State>, i: nat)
    requires Run(run) && i < |run|
    ensures Inv(run[i])
  {
    if i == 0 {
      InitInv(run[0]);
    } else {
      RunInv(run, i - 1);
      assert Step(run[i - 1], run[i - 1 + 1]);
      InvStep(run[i - 1], run[i]);
    }
  }

  /** Use-after-free is impossible: at every point of every run, a pointer in a guard that
      was validated after it was set, or copied upwards from such a guard, has not been freed
      since it was last allocated, and its address cannot be allocated anew. */
  lemma NoUseAfterFree(run: seq<State>, i: nat, r: RecId, k: nat)
    requires Run(run) && i < |run|
    requires r < |run[i].recs| && k < |run[i].recs[r].guards| && run[i].recs[r].guards[k].validated
    ensures run[i].recs[r].guards[k].ptr !in run[i].dead
    ensures forall t :: !Enabled(run[i], t, Allocate(run[i].recs[r].guards[k].ptr))
  {
    RunInv(run, i);
    assert SlotSafe(run[i], r, k);
  }

  /** At every point of every run: every retirement of p is still pending or was answered by one
      disposal.  A pointer retired since its last allocation either waits in exactly one position
      of one record and is not freed, or is freed and waits nowhere; any other waits nowhere. */
  lemma ExactlyOnce(run: seq<State>, i: nat, p: Ptr)
    requires Run(run) && i < |run|
    ensures var s := run[i];
      && multiset(s.retires)[p] == multiset(s.freed)[p] + Pending(s.recs, p)
      && (p in s.unlinked && p !in s.dead <==> exists r, j :: Waits(s, r, j, p))
      && (p in s.dead ==> p in s.unlinked)
      && (forall r, j, r', j' :: Waits(s, r, j, p) && Waits(s, r', j', p) ==> r == r' && j == j')
      && (Pending(s.recs, p) == if exists r, j :: Waits(s, r, j, p) then 1 else 0)
  {
    var s := run[i];
    RunInv(run, i);
    assert Accounted(s, p);
    forall r, j | Waits(s, r, j, p) ensures p in s.unlinked && p !in s.dead && Pending(s.recs, p) == 1 {
      OnePlace(s, r, j);
    }
    forall r, j, r', j' | Waits(s, r, j, p) && Waits(s, r', j', p) ensures r == r' && j == j' {
      OnePlace(s, r, j);
    }
    if Pending(s.recs, p) > 0 {
      PendingWhere(s.recs, p);
      var r, j :| 0 <= r < |s.recs| && 0 <= j < |s.recs[r].retired| && s.recs[r].retired[j] == p;
      assert Waits(s, r, j, p);
    }
  }

  /** p is at position j of the retired array of record r. */
  ghost predicate Waits(s: State, r: int, j: int, p: Ptr) {
    0 <= r < |s.recs| && 0 <= j < |s.recs[r].retired| && s.recs[r].retired[j] == p
  }

  lemma {:induction false} PendingWhere(recs: seq<Record>, p: Ptr)
    requires Pending(recs, p) > 0
    ensures exists r, j :: 0 <= r < |recs| && 0 <= j < |recs[r].retired| && recs[r].retired[j] == p
  {
    var n := |recs| - 1;
    if multiset(recs[n].retired)[p] > 0 {
      assert p in recs[n].retired;
    } else {
      PendingWhere(recs[..n], p);
      var r, j :| 0 <= r < n && 0 <= j < |recs[..n][r].retired| && recs[..n][r].retired[j] == p;
      assert recs[r].retired[j] == p;
    }
  }

  /** One record at most is held twice over: a thread holds its own and the one it helps, and
      no record has two holders; a set free flag means nothing is pending there. */
  lemma OneHolder(run: seq<State>, i: nat, t: Tid, u: Tid, r: RecId)
    requires Run(run) && i < |run|
    requires t in run[i].threads && u in run[i].threads
    requires Holds(run[i].threads[t].mode, r) && Holds(run[i].threads[u].mode, r)
    ensures t == u && r < |run[i].recs| && run[i].recs[r].owner == t
    ensures run[i].recs[r].isFree ==> run[i].recs[r].retired == []
  {
    RunInv(run, i);
    assert ThreadOk(run[i], t) && ThreadOk(run[i], u) && RecOk(run[i], r);
  }

  // ---------------------------------------------------------------- the list

  /** The link reached after n hops from the list head. */
  ghost function Follow(s: State, n: nat): (l: Link) {
    if n == 0 then s.head
    else match Follow(s, n - 1)
      case Null => Null
      case To(r) => if r < |s.recs| then s.recs[r].next else Null
  }

  lemma {:induction false} FollowChain(s: State, n: nat)
    requires Shape(s) && n <= |s.chain|
    ensures Follow(s, n) == if n == |s.chain| then Null else To(s.chain[|s.chain| - 1 - n])
  {
    if n > 0 {
      FollowChain(s, n - 1);
      assert RecOk(s, s.chain[|s.chain| - n]);
    }
  }

  /** The list ends, meets no record twice, and holds exactly the records whose head swap succeeded. */
  lemma ListIsExact(run: seq<State>, i: nat)
    requires Run(run) && i < |run|
    ensures var s := run[i];
      && Follow(s, |s.chain|) == Null
      && (forall n :: 0 <= n < |s.chain| ==> Follow(s, n) == To(s.chain[|s.chain| - 1 - n]))
      && (forall x, y :: 0 <= x < y < |s.chain| ==> s.chain[x] != s.chain[y])
      && (forall r :: 0 <= r < |s.recs| ==> (r in s.chain <==> Published(s, r)))
  {
    var s := run[i];
    RunInv(run, i);
    FollowChain(s, |s.chain|);
    forall n | 0 <= n < |s.chain| ensures Follow(s, n) == To(s.chain[|s.chain| - 1 - n]) {
      FollowChain(s, n);
    }
    forall r | 0 <= r < |s.recs| ensures r in s.chain <==> Published(s, r) {
      assert RecOk(s, r);
    }
  }

  /** No record is lost: what was in the list stays, in order, whoever pushes concurrently. */
  lemma {:induction false} ListOnlyGrows(run: seq<State>, i: nat, j: nat)
    requires Run(run) && i <= j < |run|
    ensures run[i].chain <= run[j].chain
  {
    if i < j {
      ListOnlyGrows(run, i, j - 1);
      assert Step(run[j - 1], run[j - 1 + 1]);
      var t, a :| Enabled(run[j - 1], t, a) && run[j] == Next(run[j - 1], t, a);
      ChainStep(run[j - 1], t, a);
    }
  }

  lemma ChainStep(s: State, t: Tid, a: Action)
    requires Enabled(s, t, a)
    ensures s.chain <= Next(s, t, a).chain
  {
  }

  // ---------------------------------------------------------------- one scan of one run

  lemma SeenGrows(s: State, t: Tid, a: Action)
    requires Enabled(s, t, a) && s.threads[t].scan.Walk? && (a.ScanLoadOwner? || a.ScanReadGuard?)
    ensures Next(s, t, a).threads[t].scan.Walk? && s.threads[t].scan.seen <= Next(s, t, a).threads[t].scan.seen
  {
  }

  /** While a scan of t lasts, only its own reads move it. */
  lemma ScanFrame(s: State, t: Tid, u: Tid, a: Action)
    requires Enabled(s, u, a) && t in s.threads
    requires !s.threads[t].scan.Off? && !Next(s, u, a).threads[t].scan.Off?
    requires ScanOk(s, s.threads[t].mode, s.threads[t].scan)
    requires u != t || !(a.ScanLoadHead? || a.ScanLoadOwner? || a.ScanReadGuard?)
    ensures Next(s, u, a).threads[t].scan == s.threads[t].scan
  {
  }

  lemma WatchedStep(s: State, u: Tid, a: Action, t: Tid, r: RecId, k: nat, p: Ptr)
    requires Shape(s) && Enabled(s, u, a) && t in s.threads
    requires !s.threads[t].scan.Off? && !Next(s, u, a).threads[t].scan.Off?
    requires Unread(s, s.threads[t].scan, r, k) ==> HoldsAt(s, r, k, p)
    requires Watched(s, s.threads[t].scan, r, k, p)
    ensures Watched(Next(s, u, a), Next(s, u, a).threads[t].scan, r, k, p)
  {
    var sc' := Next(s, u, a).threads[t].scan;
    if u == t && (a.ScanLoadHead? || a.ScanLoadOwner? || a.ScanReadGuard?) {
      if Unread(s, s.threads[t].scan, r, k) {
        WatchedScanStep(s, t, a, r, k, p);
      } else {
        SeenGrows(s, t, a);
      }
    } else {
      assert ThreadOk(s, t);
      ScanFrame(s, t, u, a);
    }
    WatchedFrame(s, u, a, sc', r, k, p);
  }

  /** From run[b], where it starts, to run[e], thread t is inside one scan. */
  ghost predicate Scanning(run: seq<State>, b: nat, e: nat, t: Tid)
    requires b <= e < |run|
  {
    && (forall m :: b <= m <= e ==> t in run[m].threads && !run[m].threads[t].scan.Off?)
    && run[b].threads[t].scan.Begin?
  }

  /** Guard k of record r holds p as long as that scan has not read it. */
  ghost predicate HeldUntilRead(run: seq<State>, b: nat, e: nat, t: Tid, r: RecId, k: nat, p: Ptr)
    requires b <= e < |run| && Scanning(run, b, e, t)
  {
    forall m :: b <= m <= e ==> Unread(run[m], run[m].threads[t].scan, r, k) ==> HoldsAt(run[m], r, k, p)
  }

  lemma {:induction false} WatchedThroughScan(run: seq<State>, b: nat, e: nat, t: Tid, r: RecId, k: nat, p: Ptr)
    requires Run(run) && b <= e < |run| && Scanning(run, b, e, t) && HeldUntilRead(run, b, e, t, r, k, p)
    ensures Watched(run[e], run[e].threads[t].scan, r, k, p)
  {
    if b < e {
      var s := run[e - 1];
      WatchedThroughScan(run, b, e - 1, t, r, k, p);
      RunInv(run, e - 1);
      assert Step(run[e - 1], run[e - 1 + 1]);
      var u, a :| Enabled(s, u, a) && run[e] == Next(s, u, a);
      WatchedStep(s, u, a, t, r, k, p);
    }
  }

  /** The hazard-pointer guarantee for one scan, whatever happens around it.  Thread t starts a
      scan at run[b] and ends it at run[e], disposing of `gone`.  If guard k of record r holds p
      at every point at which this scan has not yet read it, then p is not in `gone`. */
  lemma HeldPointerSurvivesScan(run: seq<State>, b: nat, e: nat, t: Tid, r: RecId, k: nat, p: Ptr,
                                kept: seq<Ptr>, gone: seq<Ptr>)
    requires Run(run) && b <= e < |run| && Scanning(run, b, e, t) && HeldUntilRead(run, b, e, t, r, k, p)
    requires Enabled(run[e], t, ScanEnd(kept, gone))
    ensures p !in gone
  {
    WatchedThroughScan(run, b, e, t, r, k, p);
  }

  // ---------------------------------------------------------------- destruction

  /** How often p waits in the records whose rank is below n. */
  ghost function PendingBelow(recs: seq<Record>, n: nat, p: Ptr): (c: nat) {
    if recs == [] then 0
    else
      var rec := recs[|recs| - 1];
      PendingBelow(recs[..|recs| - 1], n, p) + (if 0 <= rec.rank < n then multiset(rec.retired)[p] else 0)
  }

  lemma {:induction false} PendingBelowAll(recs: seq<Record>, n: nat, p: Ptr)
    requires forall x :: 0 <= x < |recs| ==> recs[x].rank < n && (recs[x].rank < 0 ==> recs[x].retired == [])
    ensures PendingBelow(recs, n, p) == Pending(recs, p)
  {
    if recs != [] { PendingBelowAll(recs[..|recs| - 1], n, p); }
  }

  lemma {:induction false} PendingBelowNone(recs: seq<Record>, n: nat, p: Ptr)
    requires forall x :: 0 <= x < |recs| ==> recs[x].rank != n
    ensures PendingBelow(recs, n + 1, p) == PendingBelow(recs, n, p)
  {
    if recs != [] { PendingBelowNone(recs[..|recs| - 1], n, p); }
  }

  lemma {:induction false} PendingBelowNext(recs: seq<Record>, n: nat, c: RecId, p: Ptr)
    requires c < |recs| && recs[c].rank == n
    requires forall x :: 0 <= x < |recs| && x != c ==> recs[x].rank != n
    ensures PendingBelow(recs, n + 1, p) == PendingBelow(recs, n, p) + multiset(recs[c].retired)[p]
  {
    var front := recs[..|recs| - 1];
    if c == |recs| - 1 {
      PendingBelowNone(front, n, p);
    } else {
      PendingBelowNext(front, n, c, p);
    }
  }

  lemma {:induction false} PendingBelowZero(recs: seq<Record>, p: Ptr)
    ensures PendingBelow(recs, 0, p) == 0
  {
    if recs != [] { PendingBelowZero(recs[..|recs| - 1], p); }
  }

  /** smr::~smr: walks the list and disposes of everything still retired. */
  method Destroy(s: State) returns (freed: seq<Ptr>)
    requires Inv(s)
    ensures forall p :: multiset(freed)[p] == multiset(s.retires)[p]
  {
    freed := s.freed;
    var node := s.head;
    ghost var n := |s.chain|;
    forall p ensures multiset(freed)[p] + PendingBelow(s.recs, n, p) == multiset(s.retires)[p] {
      DestroyStart(s, p);
    }
    while node.To?
      invariant 0 <= n <= |s.chain|
      invariant node == if n == 0 then Null else To(s.chain[n - 1])
      invariant forall p :: multiset(freed)[p] + PendingBelow(s.recs, n, p) == multiset(s.retires)[p]
      decreases n
    {
      var rec := s.recs[node.rec];
      ghost var before := freed;
      freed := freed + rec.retired;
      forall p ensures multiset(freed)[p] + PendingBelow(s.recs, n - 1, p) == multiset(s.retires)[p] {
        DestroyNext(s, n, p);
        assert multiset(freed)[p] == multiset(before)[p] + multiset(rec.retired)[p];
      }
      assert RecOk(s, node.rec);
      node := rec.next;
      n := n - 1;
    }
    forall p ensures multiset(freed)[p] == multiset(s.retires)[p] {
      PendingBelowZero(s.recs, p);
    }
  }

  lemma DestroyStart(s: State, p: Ptr)
    requires Inv(s)
    ensures multiset(s.freed)[p] + PendingBelow(s.recs, |s.chain|, p) == multiset(s.retires)[p]
  {
    forall x | 0 <= x < |s.recs| ensures s.recs[x].rank < |s.chain| && (s.recs[x].rank < 0 ==> s.recs[x].retired == []) {
      assert RecOk(s, x);
    }
    PendingBelowAll(s.recs, |s.chain|, p);
    assert Accounted(s, p);
  }

  lemma DestroyNext(s: State, n: nat, p: Ptr)
    requires Inv(s) && 0 < n <= |s.chain|
    ensures s.chain[n - 1] < |s.recs|
    ensures PendingBelow(s.recs, n, p) == PendingBelow(s.recs, n - 1, p) + multiset(s.recs[s.chain[n - 1]].retired)[p]
  {
    forall x | 0 <= x < |s.recs| && x != s.chain[n - 1] ensures s.recs[x].rank != n - 1 {
      assert RecOk(s, x);
    }
    PendingBelowNext(s.recs, n - 1, s.chain[n - 1], p);
  }
}

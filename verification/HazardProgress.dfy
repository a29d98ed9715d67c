/**
  What the operations of the hazard-pointer protocol get done, over every run: help_scan takes
  over every record that stays abandoned, a scan leaves only pointers that some guard held
  meanwhile, a detach leaves no others behind, and an attach creates a record only if every
  record of the list was in use.
 */
module HazardProgress {
  import opened Reclaim
  import opened HazardProtocol
  import opened HazardShape
  import opened HazardSafety

  /** Thread t takes step a from run[i]. */
  ghost predicate Takes(run: seq<State>, i: nat, t: Tid, a: Action)
    requires i + 1 < |run|
  {
    Enabled(run[i], t, a) && run[i + 1] == Next(run[i], t, a)
  }

  /** Record r is abandoned, or thread t has taken it. */
  ghost predicate LeftTo(s: State, t: Tid, r: RecId) {
    r < |s.recs| && (s.recs[r].owner == 0 || s.recs[r].owner == t)
  }

  lemma LeftAlone(s: State, u: Tid, a: Action, t: Tid, r: RecId)
    requires Shape(s) && Enabled(s, u, a) && u != t
    requires LeftTo(s, t, r) && LeftTo(Next(s, u, a), t, r)
    ensures Next(s, u, a).recs[r] == s.recs[r]
  {
    assert ThreadOk(s, u);
    assert !Holds(s.threads[u].mode, r);
  }

  // ---------------------------------------------------------------- help_scan

  predicate InHelp(m: Mode) {
    m.Helping? || m.HelpClaim? || m.Moving? || m.Drained? || m.Marked?
  }

  ghost predicate Done(s: State, r: RecId) {
    r < |s.recs| && s.recs[r].isFree && s.recs[r].retired == []
  }

  /** The record help_scan is at. */
  function Cursor(m: Mode): (l: Link)
    requires InHelp(m)
  {
    if m.Helping? then m.cur else To(m.src)
  }

  /** The walk has r still ahead, is at work on it, or is done with it. */
  ghost predicate Covered(s: State, t: Tid, r: RecId) {
    && t in s.threads && InHelp(s.threads[t].mode) && Published(s, r)
    && var m := s.threads[t].mode;
       var c := Cursor(m);
       || Done(s, r)
       || (c.To? && Published(s, c.rec) && s.recs[c.rec].rank > s.recs[r].rank)
       || (c == To(r) && !m.Marked?)
  }

  lemma CoveredFrame(s: State, s': State, t: Tid, r: RecId)
    requires Covered(s, t, r) && t in s'.threads && s'.threads[t].mode == s.threads[t].mode
    requires forall x: RecId | Published(s, x) :: Published(s', x) && s'.recs[x].rank == s.recs[x].rank
    requires Done(s, r) ==> Done(s', r)
    ensures Covered(s', t, r)
  {
  }

  lemma OthersMode(s: State, u: Tid, a: Action, t: Tid)
    requires Enabled(s, u, a) && t in s.threads && u != t
    ensures t in Next(s, u, a).threads && Next(s, u, a).threads[t] == s.threads[t]
  {
  }

  lemma CoveredOther(s: State, u: Tid, a: Action, t: Tid, r: RecId)
    requires Shape(s) && Enabled(s, u, a) && u != t
    requires LeftTo(s, t, r) && LeftTo(Next(s, u, a), t, r) && Covered(s, t, r)
    ensures Covered(Next(s, u, a), t, r)
  {
    OthersMode(s, u, a, t);
    LeftAlone(s, u, a, t, r);
    forall x: RecId | Published(s, x) ensures Published(Next(s, u, a), x) && Next(s, u, a).recs[x].rank == s.recs[x].rank {
      RanksKept(s, u, a, x);
    }
    CoveredFrame(s, Next(s, u, a), t, r);
  }

  /** The steps by which help_scan itself moves on. */
  predicate Walks(a: Action) {
    a.HelpTestFree? || a.HelpTryClaim? || a.MoveEnd? || a.SetFreeFlag? || a.ReleaseHelped?
  }

  /** Going on to the next record from one that is not r, or that is done with. */
  lemma NextCovers(s: State, c: RecId, r: RecId)
    requires Shape(s) && Published(s, c) && Published(s, r) && s.recs[c].rank >= s.recs[r].rank
    requires c == r ==> Done(s, r)
    ensures var l := s.recs[c].next;
      Done(s, r) || (l.To? && Published(s, l.rec) && s.recs[l.rec].rank >= s.recs[r].rank
                     && (s.recs[l.rec].rank == s.recs[r].rank ==> l.rec == r))
  {
    assert RecOk(s, c) && RecOk(s, r);
  }

  lemma CoveredTest(s: State, t: Tid, r: RecId)
    requires Shape(s) && Enabled(s, t, HelpTestFree) && Covered(s, t, r) && r != s.threads[t].mode.rec
    ensures Covered(Next(s, t, HelpTestFree), t, r)
  {
    var c := s.threads[t].mode.cur.rec;
    assert ThreadOk(s, t) && RecOk(s, c);
    if Done(s, r) {
    } else if c == s.threads[t].mode.rec || s.recs[c].isFree {
      NextCovers(s, c, r);
    }
  }

  lemma CoveredClaim(s: State, t: Tid, r: RecId)
    requires Shape(s) && Enabled(s, t, HelpTryClaim) && LeftTo(s, t, r) && Covered(s, t, r) && r != s.threads[t].mode.rec
    ensures Covered(Next(s, t, HelpTryClaim), t, r)
  {
    var c := s.threads[t].mode.src;
    assert ThreadOk(s, t) && RecOk(s, c);
    if s.recs[c].owner != 0 && !Done(s, r) {
      NextCovers(s, c, r);
    }
  }

  lemma CoveredRelease(s: State, t: Tid, r: RecId)
    requires Shape(s) && Enabled(s, t, ReleaseHelped) && Covered(s, t, r)
    ensures Covered(Next(s, t, ReleaseHelped), t, r)
  {
    var c := s.threads[t].mode.src;
    assert ThreadOk(s, t);
    if !Done(s, r) {
      NextCovers(s, c, r);
    }
  }

  lemma CoveredEmptied(s: State, t: Tid, a: Action, r: RecId)
    requires Shape(s) && Enabled(s, t, a) && Covered(s, t, r) && (a.MoveEnd? || a.SetFreeFlag?)
    ensures Covered(Next(s, t, a), t, r)
  {
    assert ThreadOk(s, t);
  }

  lemma CoveredWalk(s: State, t: Tid, a: Action, r: RecId)
    requires Shape(s) && Enabled(s, t, a) && LeftTo(s, t, r) && Covered(s, t, r) && Walks(a)
    requires r != s.threads[t].mode.rec
    ensures Covered(Next(s, t, a), t, r)
  {
    match a
    case HelpTestFree => CoveredTest(s, t, r);
    case HelpTryClaim => CoveredClaim(s, t, r);
    case ReleaseHelped => CoveredRelease(s, t, r);
    case _ => CoveredEmptied(s, t, a, r);
  }

  lemma CoveredStay(s: State, t: Tid, a: Action, r: RecId)
    requires Shape(s) && Enabled(s, t, a) && Covered(s, t, r) && !Walks(a)
    requires r != s.threads[t].mode.rec && InHelp(Next(s, t, a).threads[t].mode)
    ensures Covered(Next(s, t, a), t, r)
  {
    forall x: RecId | Published(s, x) ensures Published(Next(s, t, a), x) && Next(s, t, a).recs[x].rank == s.recs[x].rank {
      RanksKept(s, t, a, x);
    }
    StayMode(s, t, a, r);
    CoveredFrame(s, Next(s, t, a), t, r);
  }

  lemma StayMode(s: State, t: Tid, a: Action, r: RecId)
    requires Enabled(s, t, a) && !Walks(a) && InHelp(s.threads[t].mode) && InHelp(Next(s, t, a).threads[t].mode)
    requires r != s.threads[t].mode.rec
    ensures Next(s, t, a).threads[t].mode == s.threads[t].mode
    ensures Done(s, r) ==> Done(Next(s, t, a), r)
  {
  }

  /** p waits in record r or in t's own record, or has been freed more than `before` times. */
  ghost predicate TakenCareOf(s: State, own: RecId, r: RecId, p: Ptr, before: nat) {
    && own < |s.recs| && r < |s.recs|
    && (p in s.recs[r].retired || p in s.recs[own].retired || multiset(s.freed)[p] > before)
  }

  lemma FreedGrows(s: State, u: Tid, a: Action, p: Ptr)
    requires Enabled(s, u, a)
    ensures multiset(s.freed)[p] <= multiset(Next(s, u, a).freed)[p]
  {
    if a.ScanEnd? {
      assert multiset(s.freed + a.gone)[p] == multiset(s.freed)[p] + multiset(a.gone)[p];
    } else {
      FreedStays(s, u, a);
    }
  }

  lemma FreedStays(s: State, u: Tid, a: Action)
    requires Enabled(s, u, a) && !a.ScanEnd?
    ensures Next(s, u, a).freed == s.freed
  {
  }

  lemma CareOther(s: State, u: Tid, a: Action, t: Tid, own: RecId, r: RecId, p: Ptr, before: nat)
    requires Shape(s) && Enabled(s, u, a) && u != t && TakenCareOf(s, own, r, p, before)
    requires LeftTo(s, t, r) && LeftTo(Next(s, u, a), t, r) && LeftTo(s, t, own) && LeftTo(Next(s, u, a), t, own)
    ensures TakenCareOf(Next(s, u, a), own, r, p, before)
  {
    LeftAlone(s, u, a, t, r);
    LeftAlone(s, u, a, t, own);
    FreedGrows(s, u, a, p);
  }

  lemma CareScan(s: State, t: Tid, a: Action, r: RecId, p: Ptr, before: nat)
    requires Shape(s) && Enabled(s, t, a) && a.ScanEnd? && InHelp(s.threads[t].mode)
    requires multiset(s.freed)[p] >= before && r != s.threads[t].mode.rec
    requires TakenCareOf(s, s.threads[t].mode.rec, r, p, before)
    ensures TakenCareOf(Next(s, t, a), s.threads[t].mode.rec, r, p, before)
  {
    var own := s.threads[t].mode.rec;
    assert multiset(s.freed + a.gone)[p] == multiset(s.freed)[p] + multiset(a.gone)[p];
    if p in s.recs[own].retired {
      assert p in multiset(s.recs[own].retired);
      assert p in multiset(a.kept) + multiset(a.gone);
    }
  }

  lemma CareMove(s: State, t: Tid, r: RecId, p: Ptr, before: nat)
    requires Shape(s) && Enabled(s, t, MoveOne) && r != s.threads[t].mode.rec
    requires TakenCareOf(s, s.threads[t].mode.rec, r, p, before)
    ensures TakenCareOf(Next(s, t, MoveOne), s.threads[t].mode.rec, r, p, before)
  {
    var m := s.threads[t].mode;
    var c := s.recs[m.src].retired;
    assert ThreadOk(s, t);
    if r == m.src && p in c {
      assert c == [c[0]] + c[1..];
      var d := Next(s, t, MoveOne).recs[m.rec].retired;
      assert d[|d| - 1] == c[0];
    }
  }

  lemma CareOwn(s: State, t: Tid, a: Action, r: RecId, p: Ptr, before: nat)
    requires Shape(s) && Enabled(s, t, a) && InHelp(s.threads[t].mode)
    requires multiset(s.freed)[p] >= before && r != s.threads[t].mode.rec
    requires TakenCareOf(s, s.threads[t].mode.rec, r, p, before)
    ensures TakenCareOf(Next(s, t, a), s.threads[t].mode.rec, r, p, before)
  {
    if a.ScanEnd? {
      CareScan(s, t, a, r, p, before);
    } else if a.MoveOne? {
      CareMove(s, t, r, p, before);
    } else if !a.Allocate? {
      RetiredFrame(s, t, a);
    }
  }

  /** Thread t is inside help_scan, and record r is abandoned or taken by t. */
  ghost predicate StillHelps(s: State, t: Tid, r: RecId) {
    t in s.threads && InHelp(s.threads[t].mode) && LeftTo(s, t, r)
  }

  /** From run[b] to run[e] thread t is inside help_scan, and record r is abandoned or taken by t. */
  ghost predicate StaysInHelp(run: seq<State>, b: nat, e: nat, t: Tid, r: RecId)
    requires b <= e < |run|
  {
    forall m :: b <= m <= e ==> StillHelps(run[m], t, r)
  }

  lemma HelpBegins(s: State, t: Tid, r: RecId)
    requires Shape(s) && Enabled(s, t, HelpStart) && r in s.chain && r != s.threads[t].mode.rec
    ensures Covered(Next(s, t, HelpStart), t, r)
    ensures Next(s, t, HelpStart).recs == s.recs && Next(s, t, HelpStart).freed == s.freed
    ensures Next(s, t, HelpStart).threads[t].mode.rec == s.threads[t].mode.rec
  {
    var k :| 0 <= k < |s.chain| && s.chain[k] == r;
    assert s.recs[s.chain[|s.chain| - 1]].rank == |s.chain| - 1;
  }

  lemma CoveredStep(s: State, s': State, t: Tid, r: RecId)
    requires Shape(s) && Step(s, s') && Covered(s, t, r) && LeftTo(s, t, r) && LeftTo(s', t, r)
    requires r != s.threads[t].mode.rec && t in s'.threads && InHelp(s'.threads[t].mode)
    ensures Covered(s', t, r)
  {
    var u, a :| Enabled(s, u, a) && s' == Next(s, u, a);
    if u != t {
      CoveredOther(s, u, a, t, r);
    } else if Walks(a) {
      CoveredWalk(s, t, a, r);
    } else {
      CoveredStay(s, t, a, r);
    }
  }

  lemma OwnLeft(s: State, t: Tid)
    requires Shape(s) && t in s.threads && InHelp(s.threads[t].mode)
    ensures LeftTo(s, t, s.threads[t].mode.rec)
  {
    assert ThreadOk(s, t);
    assert Holds(s.threads[t].mode, s.threads[t].mode.rec);
  }

  lemma OwnKept(s: State, s': State, t: Tid)
    requires Step(s, s') && t in s.threads && InHelp(s.threads[t].mode)
    requires t in s'.threads && InHelp(s'.threads[t].mode)
    ensures s'.threads[t].mode.rec == s.threads[t].mode.rec
  {
    var u, a :| Enabled(s, u, a) && s' == Next(s, u, a);
    if u != t { OthersMode(s, u, a, t); }
  }

  lemma CareStep(s: State, s': State, t: Tid, r: RecId, p: Ptr, before: nat)
    requires Shape(s) && Step(s, s') && t in s.threads && InHelp(s.threads[t].mode)
    requires var own := s.threads[t].mode.rec;
      && r != own && TakenCareOf(s, own, r, p, before)
      && LeftTo(s, t, r) && LeftTo(s', t, r) && LeftTo(s, t, own) && LeftTo(s', t, own)
    requires multiset(s.freed)[p] >= before
    ensures TakenCareOf(s', s.threads[t].mode.rec, r, p, before) && multiset(s'.freed)[p] >= before
  {
    var u, a :| Enabled(s, u, a) && s' == Next(s, u, a);
    FreedGrows(s, u, a, p);
    if u == t {
      CareOwn(s, t, a, r, p, before);
    } else {
      CareOther(s, u, a, t, s.threads[t].mode.rec, r, p, before);
    }
  }

  /** Thread t walks the list for its record `own` and has r covered. */
  ghost predicate AtWork(s: State, t: Tid, own: RecId, r: RecId) {
    Covered(s, t, r) && s.threads[t].mode.rec == own && own != r && LeftTo(s, t, own)
  }

  lemma AtWorkStep(s: State, s': State, t: Tid, own: RecId, r: RecId)
    requires Inv(s) && Step(s, s') && AtWork(s, t, own, r) && StillHelps(s, t, r) && StillHelps(s', t, r)
    ensures AtWork(s', t, own, r)
  {
    InvStep(s, s');
    OwnKept(s, s', t);
    CoveredStep(s, s', t, r);
    OwnLeft(s', t);
  }

  lemma AtWorkNext(run: seq<State>, e: nat, t: Tid, own: RecId, r: RecId)
    requires Run(run) && e + 1 < |run| && AtWork(run[e], t, own, r)
    requires StillHelps(run[e], t, r) && StillHelps(run[e + 1], t, r)
    ensures AtWork(run[e + 1], t, own, r)
  {
    RunInv(run, e);
    AtWorkStep(run[e], run[e + 1], t, own, r);
  }

  lemma {:induction false} StaysCovered(run: seq<State>, b: nat, e: nat, t: Tid, own: RecId, r: RecId)
    requires Run(run) && b <= e < |run| && StaysInHelp(run, b, e, t, r) && AtWork(run[b], t, own, r)
    ensures AtWork(run[e], t, own, r)
    decreases e - b
  {
    if b < e {
      AtWorkNext(run, b, t, own, r);
      StaysCovered(run, b + 1, e, t, own, r);
    }
  }

  /** p is taken care of and the count of its disposals has not gone back. */
  ghost predicate Cared(s: State, own: RecId, r: RecId, p: Ptr, before: nat) {
    TakenCareOf(s, own, r, p, before) && multiset(s.freed)[p] >= before
  }

  lemma CaredStep(s: State, s': State, t: Tid, own: RecId, r: RecId, p: Ptr, before: nat)
    requires Inv(s) && Step(s, s') && AtWork(s, t, own, r) && AtWork(s', t, own, r)
    requires StillHelps(s, t, r) && StillHelps(s', t, r) && Cared(s, own, r, p, before)
    ensures Cared(s', own, r, p, before)
  {
    CareStep(s, s', t, r, p, before);
  }

  lemma CaredNext(run: seq<State>, e: nat, t: Tid, own: RecId, r: RecId, p: Ptr, before: nat)
    requires Run(run) && e + 1 < |run| && AtWork(run[e], t, own, r) && Cared(run[e], own, r, p, before)
    requires StillHelps(run[e], t, r) && StillHelps(run[e + 1], t, r)
    ensures AtWork(run[e + 1], t, own, r) && Cared(run[e + 1], own, r, p, before)
  {
    RunInv(run, e);
    AtWorkNext(run, e, t, own, r);
    CaredStep(run[e], run[e + 1], t, own, r, p, before);
  }

  lemma {:induction false} StaysCaredFor(run: seq<State>, b: nat, e: nat, t: Tid, own: RecId, r: RecId, p: Ptr, before: nat)
    requires Run(run) && b <= e < |run| && StaysInHelp(run, b, e, t, r) && AtWork(run[b], t, own, r)
    requires Cared(run[b], own, r, p, before)
    ensures Cared(run[e], own, r, p, before)
    decreases e - b
  {
    if b < e {
      CaredNext(run, b, t, own, r, p, before);
      StaysCaredFor(run, b + 1, e, t, own, r, p, before);
    }
  }

  /** help_scan leaves no abandoned record behind.  From the load of the list head at run[b] to the
      end of the walk at run[e], a record r of the list that stays abandoned, or thread t's own, is
      emptied and marked free; each pointer that waited there waits in t's record or is freed. */
  lemma HelpTakesOver(run: seq<State>, b: nat, e: nat, t: Tid, own: RecId, r: RecId)
    requires Run(run) && b < e < |run| && Takes(run, b, t, HelpStart) && Enabled(run[e], t, HelpEnd)
    requires StaysInHelp(run, b + 1, e, t, r)
    requires own == run[b].threads[t].mode.rec && r in run[b].chain && r != own && LeftTo(run[b], t, r)
    ensures Done(run[e], r) && own < |run[e].recs|
    ensures forall p :: p in run[b].recs[r].retired ==>
      p in run[e].recs[own].retired || multiset(run[e].freed)[p] > multiset(run[b].freed)[p]
  {
    RunInv(run, b);
    RunInv(run, b + 1);
    HelpBegins(run[b], t, r);
    OwnLeft(run[b + 1], t);
    StaysCovered(run, b + 1, e, t, own, r);
    forall p | p in run[b].recs[r].retired
      ensures p in run[e].recs[own].retired || multiset(run[e].freed)[p] > multiset(run[b].freed)[p]
    {
      StaysCaredFor(run, b + 1, e, t, own, r, p, multiset(run[b].freed)[p]);
    }
  }

  // ---------------------------------------------------------------- what scans leave behind

  /** Some guard held p at some point from run[b] to run[e]. */
  ghost predicate HeldSince(run: seq<State>, b: nat, e: nat, p: Ptr)
    requires b <= e < |run|
  {
    exists m: nat, r, k :: b <= m <= e && HoldsAt(run[m], r, k, p)
  }

  /** Thread t works for record `own`: attached, or in the course of detaching. */
  ghost predicate WorksFor(s: State, t: Tid, own: RecId) {
    t in s.threads &&
    var m := s.threads[t].mode;
    Owns(m, own) && (m.Attached? || m.Clearing? || m.DetachScan? || InHelp(m))
  }

  /** Between taking pointers over from other records. */
  predicate Settled(m: Mode) {
    m.Attached? || m.DetachScan? || m.Helping? || m.HelpClaim?
  }

  /** What t's scan has seen, and what its last scan has left, was held. */
  ghost predicate LeftHeld(s: State, t: Tid, own: RecId, held: iset<Ptr>) {
    && WorksFor(s, t, own) && own < |s.recs|
    && var th := s.threads[t];
       && (th.scan.Walk? ==> forall p :: p in th.scan.seen ==> p in held)
       && (th.scan.Off? && Settled(th.mode) ==> forall p :: p in s.recs[own].retired ==> p in held)
  }

  ghost predicate AllHeld(s: State, held: iset<Ptr>) {
    forall r, k, p :: HoldsAt(s, r, k, p) ==> p in held
  }

  lemma LeftHeldMore(s: State, t: Tid, own: RecId, held: iset<Ptr>, more: iset<Ptr>)
    requires LeftHeld(s, t, own, held) && held <= more
    ensures LeftHeld(s, t, own, more)
  {
  }

  lemma LeftHeldRead(s: State, t: Tid, a: Action, own: RecId, held: iset<Ptr>)
    requires Shape(s) && Enabled(s, t, a) && LeftHeld(s, t, own, held) && AllHeld(s, held)
    requires a.ScanLoadHead? || a.ScanLoadOwner? || a.ScanReadGuard? || a.ScanEnd?
    ensures LeftHeld(Next(s, t, a), t, own, held)
  {
    var sc := s.threads[t].scan;
    if a.ScanReadGuard? && s.recs[sc.node.rec].guards[sc.slot].ptr != 0 {
      assert HoldsAt(s, sc.node.rec, sc.slot, s.recs[sc.node.rec].guards[sc.slot].ptr);
    }
  }

  lemma LeftHeldMode(s: State, t: Tid, a: Action, own: RecId, held: iset<Ptr>)
    requires Shape(s) && Enabled(s, t, a) && LeftHeld(s, t, own, held)
    requires !(a.ScanLoadHead? || a.ScanLoadOwner? || a.ScanReadGuard? || a.ScanEnd? || a.Retire?)
    requires WorksFor(Next(s, t, a), t, own)
    ensures LeftHeld(Next(s, t, a), t, own, held)
  {
  }

  lemma LeftHeldOther(s: State, u: Tid, a: Action, t: Tid, own: RecId, held: iset<Ptr>)
    requires Shape(s) && Enabled(s, u, a) && u != t && LeftHeld(s, t, own, held)
    ensures LeftHeld(Next(s, u, a), t, own, held)
  {
    OthersMode(s, u, a, t);
    ShapeStep(s, u, a);
    assert ThreadOk(s, t) && ThreadOk(Next(s, u, a), t);
    LeftAlone(s, u, a, t, own);
  }

  lemma LeftHeldStep(s: State, s': State, t: Tid, own: RecId, held: iset<Ptr>)
    requires Shape(s) && Step(s, s') && LeftHeld(s, t, own, held) && AllHeld(s, held) && WorksFor(s', t, own)
    requires s.threads[t].mode.Attached? ==> !s.threads[t].scan.Off?
    ensures LeftHeld(s', t, own, held)
  {
    var u, a :| Enabled(s, u, a) && s' == Next(s, u, a);
    if u != t {
      LeftHeldOther(s, u, a, t, own, held);
    } else if a.ScanLoadHead? || a.ScanLoadOwner? || a.ScanReadGuard? || a.ScanEnd? {
      LeftHeldRead(s, t, a, own, held);
    } else {
      LeftHeldMode(s, t, a, own, held);
    }
  }

  /** Thread t works for its record and, while attached, does nothing but scan. */
  ghost predicate OnlyScans(s: State, t: Tid, own: RecId) {
    WorksFor(s, t, own) && (s.threads[t].mode.Attached? ==> !s.threads[t].scan.Off?)
  }

  ghost function HeldFrom(run: seq<State>, b: nat, e: nat): (held: iset<Ptr>)
    requires b <= e < |run|
  {
    iset p: Ptr | HeldSince(run, b, e, p)
  }

  lemma HeldLater(run: seq<State>, b: nat, e: nat)
    requires b <= e && e + 1 < |run|
    ensures HeldFrom(run, b, e) <= HeldFrom(run, b, e + 1)
  {
    forall p | HeldSince(run, b, e, p) ensures HeldSince(run, b, e + 1, p) {
      var m: nat, r, k :| b <= m <= e && HoldsAt(run[m], r, k, p);
      assert m <= e + 1;
    }
  }

  lemma HeldNow(run: seq<State>, b: nat, e: nat)
    requires b <= e < |run|
    ensures AllHeld(run[e], HeldFrom(run, b, e))
  {
  }

  lemma LeftHeldNext(run: seq<State>, b: nat, e: nat, t: Tid, own: RecId)
    requires Run(run) && b <= e && e + 1 < |run| && OnlyScans(run[e], t, own) && WorksFor(run[e + 1], t, own)
    requires LeftHeld(run[e], t, own, HeldFrom(run, b, e))
    ensures LeftHeld(run[e + 1], t, own, HeldFrom(run, b, e + 1))
  {
    RunInv(run, e);
    HeldNow(run, b, e);
    LeftHeldStep(run[e], run[e + 1], t, own, HeldFrom(run, b, e));
    HeldLater(run, b, e);
    LeftHeldMore(run[e + 1], t, own, HeldFrom(run, b, e), HeldFrom(run, b, e + 1));
  }

  lemma {:induction false} StaysLeftHeld(run: seq<State>, b: nat, m: nat, e: nat, t: Tid, own: RecId)
    requires Run(run) && b <= m <= e < |run| && LeftHeld(run[m], t, own, HeldFrom(run, b, m))
    requires forall i :: m <= i < e ==> OnlyScans(run[i], t, own)
    requires WorksFor(run[e], t, own)
    ensures LeftHeld(run[e], t, own, HeldFrom(run, b, e))
    decreases e - m
  {
    if m < e {
      assert OnlyScans(run[m], t, own);
      LeftHeldNext(run, b, m, t, own);
      StaysLeftHeld(run, b, m + 1, e, t, own);
    }
  }

  /** The steps that set off a scan of an attached thread: HP::scan, and a push that fills the array. */
  ghost predicate Requests(s: State, t: Tid, a: Action) {
    Enabled(s, t, a) && (a.UserScan? || (a.Retire? && |s.recs[s.threads[t].mode.rec].retired| + 1 >= s.capacity))
  }

  lemma RequestBegins(s: State, t: Tid, a: Action, held: iset<Ptr>)
    requires Shape(s) && Requests(s, t, a)
    ensures LeftHeld(Next(s, t, a), t, s.threads[t].mode.rec, held)
  {
    assert ThreadOk(s, t);
    assert Holds(s.threads[t].mode, s.threads[t].mode.rec);
  }

  lemma DetachBegins(s: State, t: Tid, held: iset<Ptr>)
    requires Shape(s) && Enabled(s, t, DetachStart)
    ensures LeftHeld(Next(s, t, DetachStart), t, s.threads[t].mode.rec, held)
  {
    assert ThreadOk(s, t);
    assert Holds(s.threads[t].mode, s.threads[t].mode.rec);
  }

  /** A scan leaves only pointers that some guard held meanwhile: if t sets it off at run[b] and it
      is over at run[e], each pointer still in t's retired array was in a guard in between. */
  lemma ScanLeavesOnlyHeld(run: seq<State>, b: nat, e: nat, t: Tid, a: Action, own: RecId)
    requires Run(run) && b < e < |run| && Requests(run[b], t, a) && Takes(run, b, t, a)
    requires own == run[b].threads[t].mode.rec
    requires forall i :: b < i < e ==> OnlyScans(run[i], t, own)
    requires WorksFor(run[e], t, own) && run[e].threads[t].scan.Off? && run[e].threads[t].mode.Attached?
    ensures own < |run[e].recs| && forall p :: p in run[e].recs[own].retired ==> HeldSince(run, b, e, p)
  {
    RunInv(run, b);
    RequestBegins(run[b], t, a, HeldFrom(run, b, b + 1));
    StaysLeftHeld(run, b, b + 1, e, t, own);
  }

  /** A detach leaves only pointers that some guard held meanwhile, its own or taken over: from the
      start of free_thread_data at run[b] to the end of its help_scan at run[e]. */
  lemma DetachLeavesOnlyHeld(run: seq<State>, b: nat, e: nat, t: Tid, own: RecId)
    requires Run(run) && b < e < |run| && Takes(run, b, t, DetachStart) && Enabled(run[e], t, HelpEnd)
    requires own == run[b].threads[t].mode.rec
    requires forall i :: b < i <= e ==> WorksFor(run[i], t, own) && !run[i].threads[t].mode.Attached?
    ensures own < |run[e].recs| && forall p :: p in run[e].recs[own].retired ==> HeldSince(run, b, e, p)
  {
    RunInv(run, b);
    DetachBegins(run[b], t, HeldFrom(run, b, b + 1));
    StaysLeftHeld(run, b, b + 1, e, t, own);
  }

  // ---------------------------------------------------------------- attach

  /** Record r was owned at some point from run[b] to run[e]. */
  ghost predicate OwnedSince(run: seq<State>, b: nat, e: nat, r: RecId)
    requires b <= e < |run|
  {
    exists m: nat :: b <= m <= e && r < |run[m].recs| && run[m].recs[r].owner != 0
  }

  /** The search for a record to reuse has r still ahead. */
  ghost predicate SearchAhead(s: State, t: Tid, r: RecId) {
    && t in s.threads && s.threads[t].mode.Searching? && Published(s, r)
    && var c := s.threads[t].mode.cur;
       c.To? && Published(s, c.rec) && s.recs[c.rec].rank >= s.recs[r].rank
  }

  lemma SearchBegins(s: State, t: Tid, r: RecId)
    requires Shape(s) && Enabled(s, t, AttachStart) && r in s.chain
    ensures SearchAhead(Next(s, t, AttachStart), t, r)
  {
    var k :| 0 <= k < |s.chain| && s.chain[k] == r;
    assert s.recs[s.chain[|s.chain| - 1]].rank == |s.chain| - 1;
  }

  lemma SearchStep(s: State, s': State, t: Tid, r: RecId)
    requires Shape(s) && Step(s, s') && SearchAhead(s, t, r) && t in s'.threads && s'.threads[t].mode.Searching?
    ensures SearchAhead(s', t, r) || s.recs[r].owner != 0
  {
    var u, a :| Enabled(s, u, a) && s' == Next(s, u, a);
    RanksKept(s, u, a, r);
    var c := s.threads[t].mode.cur;
    RanksKept(s, u, a, c.rec);
    assert RecOk(s, c.rec) && RecOk(s, r);
    if u != t { OthersMode(s, u, a, t); } else { SearchOwn(s, t, a, r); }
  }

  lemma SearchOwn(s: State, t: Tid, a: Action, r: RecId)
    requires Shape(s) && Enabled(s, t, a) && SearchAhead(s, t, r) && Next(s, t, a).threads[t].mode.Searching?
    ensures SearchAhead(Next(s, t, a), t, r) || s.recs[r].owner != 0
  {
    if a.TryClaim? { SearchOn(s, t, r); } else { OnlyClaims(s, t, a); }
  }

  lemma OnlyClaims(s: State, t: Tid, a: Action)
    requires Shape(s) && Enabled(s, t, a) && s.threads[t].mode.Searching? && Next(s, t, a).threads[t].mode.Searching?
    ensures a.TryClaim? || a.Allocate?
  {
    assert ThreadOk(s, t);
  }

  lemma SearchOn(s: State, t: Tid, r: RecId)
    requires Shape(s) && Enabled(s, t, TryClaim) && SearchAhead(s, t, r) && Next(s, t, TryClaim).threads[t].mode.Searching?
    ensures SearchAhead(Next(s, t, TryClaim), t, r) || s.recs[r].owner != 0
  {
    var c := s.threads[t].mode.cur.rec;
    assert RecOk(s, c) && RecOk(s, r);
    assert s.recs[c].owner != 0;
  }

  lemma {:induction false} SearchInvariant(run: seq<State>, b: nat, m: nat, e: nat, t: Tid, r: RecId)
    requires Run(run) && b <= m <= e < |run| && (SearchAhead(run[m], t, r) || OwnedSince(run, b, e, r))
    requires forall i :: m <= i <= e ==> t in run[i].threads && run[i].threads[t].mode.Searching?
    ensures SearchAhead(run[e], t, r) || OwnedSince(run, b, e, r)
    decreases e - m
  {
    if m < e {
      RunInv(run, m);
      if SearchAhead(run[m], t, r) {
        assert Step(run[m], run[m + 1]);
        SearchStep(run[m], run[m + 1], t, r);
      }
      SearchInvariant(run, b, m + 1, e, t, r);
    }
  }

  /** An attach creates a record only if none could be reused: every record that was in the list
      when it started to search has been in use at some point since. */
  lemma AttachReuses(run: seq<State>, b: nat, e: nat, t: Tid, r: RecId)
    requires Run(run) && b < e < |run| && Takes(run, b, t, AttachStart) && Enabled(run[e], t, Create)
    requires forall i :: b < i <= e ==> t in run[i].threads && run[i].threads[t].mode.Searching?
    requires r in run[b].chain
    ensures OwnedSince(run, b, e, r)
  {
    RunInv(run, b);
    SearchBegins(run[b], t, r);
    SearchInvariant(run, b, b + 1, e, t, r);
  }

  // ---------------------------------------------------------------- protect

  lemma SlotStaysSafe(s: State, s': State, r: RecId, k: nat, p: Ptr)
    requires Shape(s) && Step(s, s') && HoldsAt(s, r, k, p) && HoldsAt(s', r, k, p) && SlotSafe(s, r, k)
    ensures SlotSafe(s', r, k)
  {
    var u, a :| Enabled(s, u, a) && s' == Next(s, u, a);
    SlotSafeFrame(s, u, a, r, k, p);
  }

  ghost predicate SafelyHeld(s: State, r: RecId, k: nat, p: Ptr) {
    HoldsAt(s, r, k, p) && SlotSafe(s, r, k)
  }

  lemma {:induction false} StaysSafe(run: seq<State>, b: nat, e: nat, r: RecId, k: nat, p: Ptr)
    requires Run(run) && b <= e < |run| && (forall m :: b <= m <= e ==> HoldsAt(run[m], r, k, p))
    requires SafelyHeld(run[b], r, k, p)
    ensures SafelyHeld(run[e], r, k, p)
    decreases e - b
  {
    if b < e {
      RunInv(run, b);
      SlotStaysSafe(run[b], run[b + 1], r, k, p);
      StaysSafe(run, b + 1, e, r, k, p);
    }
  }

  /** What protect promises: once t has found the source unchanged at run[b], the pointer in its
      guard is not freed, and its address not given out anew, as long as the guard holds it. */
  lemma ProtectedWhileHeld(run: seq<State>, b: nat, e: nat, t: Tid, r: RecId, k: nat, p: Ptr)
    requires Run(run) && b < e < |run| && Takes(run, b, t, Validate(k)) && r == run[b].threads[t].mode.rec
    requires forall m :: b <= m <= e ==> HoldsAt(run[m], r, k, p)
    ensures p !in run[e].dead && forall u :: !Enabled(run[e], u, Allocate(p))
  {
    RunInv(run, b);
    ValidateSafe(run[b], t, k);
    StaysSafe(run, b + 1, e, r, k, p);
  }
}

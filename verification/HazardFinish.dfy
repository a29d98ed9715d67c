/**
  Every operation of the hazard-pointer protocol comes to an end: from every state of every roomy
  run, a thread left alone completes its attach, its detach with help_scan, or its scan.
 */
module HazardFinish {
  import opened Reclaim
  import opened HazardProtocol
  import opened HazardShape
  import opened HazardSafety
  import opened HazardRoom

  /** Thread t is inside no operation. */
  ghost predicate Resting(s: State, t: Tid) {
    t in s.threads && s.threads[t].scan.Off? && (s.threads[t].mode.Detached? || s.threads[t].mode.Attached?)
  }

  // ---------------------------------------------------------------- what is left to do

  /** Compared from left to right. */
  datatype Left = Left(phase: nat, cursor: nat, stage: nat, moves: nat, scan: nat, node: nat, slot: nat)

  predicate Less(a: Left, b: Left) {
    || a.phase < b.phase
    || (a.phase == b.phase && a.cursor < b.cursor)
    || (a.phase == b.phase && a.cursor == b.cursor && a.stage < b.stage)
    || (a.phase == b.phase && a.cursor == b.cursor && a.stage == b.stage && LessInside(a, b))
  }

  predicate LessInside(a: Left, b: Left) {
    || a.moves < b.moves
    || (a.moves == b.moves && a.scan < b.scan)
    || (a.moves == b.moves && a.scan == b.scan && a.node < b.node)
    || (a.moves == b.moves && a.scan == b.scan && a.node == b.node && a.slot < b.slot)
  }

  ghost function Phase(s: State, th: Thread): (n: nat) {
    match th.mode
    case Detached => 0
    case Attached(_) => if th.scan.Off? then 0 else 1
    case Claimed(_) => 1
    case Linked(_, h) => if h == s.head then 2 else 4
    case Fresh(_, h) => if h == s.head then 3 else 5
    case Searching(_) => 6
    case Releasing(_) => 1
    case DetachScan(_) => 3
    case Clearing(_, _) => 4
    case _ => 2
  }

  /** How many records from this one to the end of the list. */
  ghost function Behind(s: State, l: Link): (n: nat) {
    if l.To? && Published(s, l.rec) then s.recs[l.rec].rank + 1 else 0
  }

  ghost function CursorLeft(s: State, m: Mode): (n: nat) {
    match m
    case Searching(c) => Behind(s, c)
    case Clearing(_, k) => if k <= s.hazardCount then s.hazardCount - k else 0
    case Helping(_, c) => Behind(s, c)
    case HelpClaim(_, c) => Behind(s, To(c))
    case Moving(_, c) => Behind(s, To(c))
    case Drained(_, c) => Behind(s, To(c))
    case Marked(_, c) => Behind(s, To(c))
    case _ => 0
  }

  function Stage(m: Mode): (n: nat) {
    match m
    case Helping(_, _) => 5
    case HelpClaim(_, _) => 4
    case Moving(_, _) => 3
    case Drained(_, _) => 2
    case Marked(_, _) => 1
    case _ => 0
  }

  ghost function MovesLeft(s: State, m: Mode): (n: nat) {
    if m.Moving? && m.src < |s.recs| then |s.recs[m.src].retired| else 0
  }

  ghost function LeftOf(s: State, t: Tid): (l: Left)
    requires t in s.threads
  {
    var th := s.threads[t];
    Left(Phase(s, th), CursorLeft(s, th.mode), Stage(th.mode), MovesLeft(s, th.mode),
      if th.scan.Begin? then 2 else if th.scan.Walk? then 1 else 0,
      if th.scan.Walk? then Behind(s, th.scan.node) else 0,
      if !th.scan.Walk? then 0 else if !th.scan.reading then s.hazardCount + 1
      else if th.scan.slot <= s.hazardCount then s.hazardCount - th.scan.slot else 0)
  }

  // ---------------------------------------------------------------- each step leaves less

  lemma BehindNext(s: State, r: RecId)
    requires Shape(s) && Published(s, r)
    ensures Behind(s, s.recs[r].next) < Behind(s, To(r))
  {
    assert RecOk(s, r);
  }

  /** A step of its own scan leaves the rest of t's work alone. */
  lemma ScanKeepsWork(s: State, t: Tid, a: Action)
    requires Shape(s) && Enabled(s, t, a) && (a.ScanLoadHead? || a.ScanLoadOwner? || a.ScanReadGuard?)
    ensures var s' := Next(s, t, a); var m := s.threads[t].mode;
      && s'.threads[t].mode == m && CursorLeft(s', m) == CursorLeft(s, m) && MovesLeft(s', m) == MovesLeft(s, m)
      && Phase(s', s'.threads[t]) <= Phase(s, s.threads[t])
  {
  }

  lemma HeadLess(s: State, t: Tid)
    requires Shape(s) && Enabled(s, t, ScanLoadHead)
    ensures Less(LeftOf(Next(s, t, ScanLoadHead), t), LeftOf(s, t))
  {
    ScanKeepsWork(s, t, ScanLoadHead);
  }

  lemma OwnerLess(s: State, t: Tid)
    requires Shape(s) && Enabled(s, t, ScanLoadOwner)
    ensures Less(LeftOf(Next(s, t, ScanLoadOwner), t), LeftOf(s, t))
  {
    ScanKeepsWork(s, t, ScanLoadOwner);
    assert ThreadOk(s, t);
    BehindNext(s, s.threads[t].scan.node.rec);
  }

  lemma ReadLess(s: State, t: Tid)
    requires Shape(s) && Enabled(s, t, ScanReadGuard)
    ensures Less(LeftOf(Next(s, t, ScanReadGuard), t), LeftOf(s, t))
  {
    ScanKeepsWork(s, t, ScanReadGuard);
    assert ThreadOk(s, t);
    BehindNext(s, s.threads[t].scan.node.rec);
    assert RecOk(s, s.threads[t].scan.node.rec);
  }

  lemma EndLess(s: State, t: Tid, kept: seq<Ptr>, gone: seq<Ptr>)
    requires Shape(s) && Enabled(s, t, ScanEnd(kept, gone))
    ensures Less(LeftOf(Next(s, t, ScanEnd(kept, gone)), t), LeftOf(s, t))
  {
    assert ThreadOk(s, t);
    EndKeepsWork(s, t, kept, gone);
  }

  lemma EndKeepsWork(s: State, t: Tid, kept: seq<Ptr>, gone: seq<Ptr>)
    requires Shape(s) && Enabled(s, t, ScanEnd(kept, gone))
    ensures var s' := Next(s, t, ScanEnd(kept, gone)); var m := s.threads[t].mode;
      && s'.threads[t].mode == m && CursorLeft(s', m) == CursorLeft(s, m) && MovesLeft(s', m) == MovesLeft(s, m)
      && Phase(s', s'.threads[t]) <= Phase(s, s.threads[t])
  {
    assert ThreadOk(s, t);
  }

  lemma ScanLess(s: State, t: Tid)
    requires Shape(s) && t in s.threads && !s.threads[t].scan.Off?
    ensures Enabled(s, t, NextScanAction(s, t))
    ensures Less(LeftOf(Next(s, t, NextScanAction(s, t)), t), LeftOf(s, t))
  {
    ScanGoesOn(s, t);
    match NextScanAction(s, t)
    case ScanLoadHead => HeadLess(s, t);
    case ScanLoadOwner => OwnerLess(s, t);
    case ScanReadGuard => ReadLess(s, t);
    case ScanEnd(kept, gone) => EndLess(s, t, kept, gone);
  }

  // The steps of an attach and a detach

  lemma SearchLess(s: State, t: Tid)
    requires Shape(s) && t in s.threads && s.threads[t].mode.Searching?
    ensures Enabled(s, t, NextModeAction(s, t)) && Less(LeftOf(Next(s, t, NextModeAction(s, t)), t), LeftOf(s, t))
  {
    assert ThreadOk(s, t);
    var c := s.threads[t].mode.cur;
    if c.To? {
      BehindNext(s, c.rec);
      assert RecOk(s, c.rec);
    }
  }

  lemma AttachLess(s: State, t: Tid)
    requires Shape(s) && t in s.threads && s.threads[t].scan.Off?
    requires var m := s.threads[t].mode; m.Claimed? || m.Fresh? || m.Linked?
    ensures Enabled(s, t, NextModeAction(s, t)) && Less(LeftOf(Next(s, t, NextModeAction(s, t)), t), LeftOf(s, t))
  {
    assert ThreadOk(s, t);
    assert Holds(s.threads[t].mode, s.threads[t].mode.rec);
  }

  lemma LeaveLess(s: State, t: Tid)
    requires Shape(s) && t in s.threads && s.threads[t].scan.Off?
    requires var m := s.threads[t].mode; m.Clearing? || m.DetachScan? || m.Releasing?
    ensures Enabled(s, t, NextModeAction(s, t)) && Less(LeftOf(Next(s, t, NextModeAction(s, t)), t), LeftOf(s, t))
  {
    assert ThreadOk(s, t);
    assert Holds(s.threads[t].mode, s.threads[t].mode.rec);
    assert RecOk(s, s.threads[t].mode.rec);
  }

  lemma HelpingLess(s: State, t: Tid)
    requires Shape(s) && t in s.threads && s.threads[t].scan.Off? && s.threads[t].mode.Helping?
    ensures Enabled(s, t, NextModeAction(s, t)) && Less(LeftOf(Next(s, t, NextModeAction(s, t)), t), LeftOf(s, t))
  {
    assert ThreadOk(s, t);
    var c := s.threads[t].mode.cur;
    if c.To? { BehindNext(s, c.rec); }
  }

  lemma ClaimLess(s: State, t: Tid)
    requires Shape(s) && t in s.threads && s.threads[t].scan.Off?
    requires var m := s.threads[t].mode; m.HelpClaim? || m.Drained? || m.Marked?
    ensures Enabled(s, t, NextModeAction(s, t)) && Less(LeftOf(Next(s, t, NextModeAction(s, t)), t), LeftOf(s, t))
  {
    assert ThreadOk(s, t);
    BehindNext(s, s.threads[t].mode.src);
  }

  lemma MovingLess(s: State, t: Tid)
    requires Shape(s) && t in s.threads && s.threads[t].scan.Off? && s.threads[t].mode.Moving?
    requires |s.recs[s.threads[t].mode.rec].retired| < s.capacity
    ensures Enabled(s, t, NextModeAction(s, t)) && Less(LeftOf(Next(s, t, NextModeAction(s, t)), t), LeftOf(s, t))
  {
    assert ThreadOk(s, t);
    assert Holds(s.threads[t].mode, s.threads[t].mode.src);
  }

  /** The next step of a thread that is inside an operation. */
  ghost function NextAction(s: State, t: Tid): (a: Action)
    requires t in s.threads
  {
    if s.threads[t].scan.Off? then NextModeAction(s, t) else NextScanAction(s, t)
  }

  lemma NextLess(s: State, t: Tid)
    requires Shape(s) && t in s.threads && !Resting(s, t)
    requires s.threads[t].mode.Moving? && s.threads[t].scan.Off? ==>
      s.threads[t].mode.rec < |s.recs| && |s.recs[s.threads[t].mode.rec].retired| < s.capacity
    ensures Enabled(s, t, NextAction(s, t)) && Less(LeftOf(Next(s, t, NextAction(s, t)), t), LeftOf(s, t))
  {
    if !s.threads[t].scan.Off? {
      ScanLess(s, t);
    } else {
      match s.threads[t].mode
      case Searching(_) => SearchLess(s, t);
      case Claimed(_) => AttachLess(s, t);
      case Fresh(_, _) => AttachLess(s, t);
      case Linked(_, _) => AttachLess(s, t);
      case Helping(_, _) => HelpingLess(s, t);
      case HelpClaim(_, _) => ClaimLess(s, t);
      case Drained(_, _) => ClaimLess(s, t);
      case Marked(_, _) => ClaimLess(s, t);
      case Moving(_, _) => MovingLess(s, t);
      case _ => LeaveLess(s, t);
    }
  }

  /** Until it has pushed its record, t's next step leaves the list as long as it is. */
  lemma StaysRoomy(s: State, t: Tid)
    requires t in s.threads && !Resting(s, t) && Enabled(s, t, NextAction(s, t))
    ensures var s' := Next(s, t, NextAction(s, t)); Roomy(s) ==> Roomy(s') || Resting(s', t)
  {
  }

  lemma AloneNext(run: seq<State>, t: Tid) returns (s': State)
    requires Run(run) && t in run[|run| - 1].threads && Roomy(run[|run| - 1]) && !Resting(run[|run| - 1], t)
    ensures Run(run + [s']) && t in s'.threads && (Roomy(s') || Resting(s', t))
    ensures Less(LeftOf(s', t), LeftOf(run[|run| - 1], t))
  {
    var n := |run| - 1;
    var s := run[n];
    RunInv(run, n);
    if s.threads[t].mode.Moving? && s.threads[t].scan.Off? { PushFindsRoom(run, n, t); }
    NextLess(s, t);
    StaysRoomy(s, t);
    s' := Next(s, t, NextAction(s, t));
    RunOn(run, s', t, NextAction(s, t));
  }

  lemma {:induction false} Finish(run: seq<State>, t: Tid, l: Left) returns (more: seq<State>)
    requires Run(run) && t in run[|run| - 1].threads && (Roomy(run[|run| - 1]) || Resting(run[|run| - 1], t))
    requires l == LeftOf(run[|run| - 1], t)
    ensures Run(run + more) && Resting((run + more)[|run + more| - 1], t)
    decreases l.phase, l.cursor, l.stage, l.moves, l.scan, l.node, l.slot
  {
    if Resting(run[|run| - 1], t) {
      more := [];
      assert run + more == run;
    } else {
      var s' := AloneNext(run, t);
      var rest := Finish(run + [s'], t, LeftOf(s', t));
      more := [s'] + rest;
      assert run + more == run + [s'] + rest;
    }
  }

  /** From every state of every roomy run, a thread running alone completes the operation it is in. */
  lemma FinishesAlone(run: seq<State>, t: Tid) returns (more: seq<State>)
    requires Run(run) && t in run[|run| - 1].threads && Roomy(run[|run| - 1])
    ensures Run(run + more) && Resting((run + more)[|run + more| - 1], t)
  {
    more := Finish(run, t, LeftOf(run[|run| - 1], t));
  }

  lemma RunOn(run: seq<State>, s': State, t: Tid, a: Action)
    requires Run(run) && Enabled(run[|run| - 1], t, a) && s' == Next(run[|run| - 1], t, a)
    ensures Run(run + [s'])
  {
    var longer := run + [s'];
    forall i | 0 <= i < |longer| - 1 ensures Step(longer[i], longer[i + 1]) {
      if i < |run| - 1 { assert Step(run[i], run[i + 1]); }
    }
  }

  // ---------------------------------------------------------------- others do not get in the way

  /** Thread t is detaching. */
  predicate Leaving(m: Mode) {
    || m.Clearing? || m.DetachScan? || m.Helping? || m.HelpClaim? || m.Moving? || m.Drained? || m.Marked?
    || m.Releasing?
  }

  lemma ScanStepLess(s: State, t: Tid, a: Action)
    requires Shape(s) && Enabled(s, t, a) && (a.ScanLoadHead? || a.ScanLoadOwner? || a.ScanReadGuard? || a.ScanEnd?)
    ensures Less(LeftOf(Next(s, t, a), t), LeftOf(s, t))
  {
    match a
    case ScanLoadHead => HeadLess(s, t);
    case ScanLoadOwner => OwnerLess(s, t);
    case ScanReadGuard => ReadLess(s, t);
    case ScanEnd(kept, gone) => EndLess(s, t, kept, gone);
  }

  /** A detaching thread that is not scanning has one step only, apart from the allocator's. */
  lemma OneStep(s: State, t: Tid, a: Action)
    requires Shape(s) && Enabled(s, t, a) && Leaving(s.threads[t].mode) && !a.Allocate?
    requires !(a.ScanLoadHead? || a.ScanLoadOwner? || a.ScanReadGuard? || a.ScanEnd?)
    ensures s.threads[t].scan.Off? && a == NextModeAction(s, t)
    ensures a.MoveOne? ==> |s.recs[s.threads[t].mode.rec].retired| < s.capacity
  {
    assert ThreadOk(s, t);
  }

  lemma OwnStepLess(s: State, t: Tid, a: Action)
    requires Shape(s) && Enabled(s, t, a) && Leaving(s.threads[t].mode) && !a.Allocate?
    ensures Less(LeftOf(Next(s, t, a), t), LeftOf(s, t))
  {
    if a.ScanLoadHead? || a.ScanLoadOwner? || a.ScanReadGuard? || a.ScanEnd? {
      ScanStepLess(s, t, a);
    } else {
      OneStep(s, t, a);
      if a.MoveEnd? { EndMoveLess(s, t); } else { NextLess(s, t); }
    }
  }

  lemma EndMoveLess(s: State, t: Tid)
    requires Enabled(s, t, MoveEnd)
    ensures Less(LeftOf(Next(s, t, MoveEnd), t), LeftOf(s, t))
  {
  }

  lemma LeftFrame(s: State, s': State, t: Tid)
    requires t in s.threads && t in s'.threads && s'.threads[t] == s.threads[t] && Leaving(s.threads[t].mode)
    requires s'.hazardCount == s.hazardCount
    requires forall l: Link | PublishedLink(s, l) :: Behind(s', l) == Behind(s, l)
    requires ThreadOk(s, t) && MovesLeft(s', s.threads[t].mode) == MovesLeft(s, s.threads[t].mode)
    ensures LeftOf(s', t) == LeftOf(s, t)
  {
  }

  lemma OthersKeepLeft(s: State, u: Tid, a: Action, t: Tid)
    requires Shape(s) && Enabled(s, u, a) && t in s.threads && u != t && Leaving(s.threads[t].mode)
    ensures t in Next(s, u, a).threads && LeftOf(Next(s, u, a), t) == LeftOf(s, t)
  {
    var s' := Next(s, u, a);
    assert ThreadOk(s, t);
    ConstantsFrame(s, u, a);
    forall l: Link | PublishedLink(s, l) ensures Behind(s', l) == Behind(s, l) {
      if l.To? { RanksKept(s, u, a, l.rec); }
    }
    if s.threads[t].mode.Moving? { SourceKept(s, u, a, t); }
    LeftFrame(s, s', t);
  }

  /** No other thread touches the record that t is emptying. */
  lemma SourceKept(s: State, u: Tid, a: Action, t: Tid)
    requires Shape(s) && Enabled(s, u, a) && t in s.threads && u != t && s.threads[t].mode.Moving?
    ensures var r := s.threads[t].mode.src;
      r < |s.recs| && r < |Next(s, u, a).recs| && Next(s, u, a).recs[r].retired == s.recs[r].retired
  {
    var r := s.threads[t].mode.src;
    assert ThreadOk(s, t) && ThreadOk(s, u);
    assert Holds(s.threads[t].mode, r) && !Holds(s.threads[u].mode, r);
  }

  /** A detach is wait-free: in every run, each step a detaching thread takes leaves it less to do,
      and no step of another thread gives it more. */
  lemma DetachIsWaitFree(run: seq<State>, i: nat, u: Tid, a: Action, t: Tid)
    requires Run(run) && i + 1 < |run| && Enabled(run[i], u, a) && run[i + 1] == Next(run[i], u, a)
    requires t in run[i].threads && Leaving(run[i].threads[t].mode)
    ensures t in run[i + 1].threads
    ensures if u == t && !a.Allocate? then Less(LeftOf(run[i + 1], t), LeftOf(run[i], t))
            else LeftOf(run[i + 1], t) == LeftOf(run[i], t)
  {
    RunInv(run, i);
    if u != t {
      OthersKeepLeft(run[i], u, a, t);
    } else if !a.Allocate? {
      OwnStepLess(run[i], t, a);
    }
  }
}

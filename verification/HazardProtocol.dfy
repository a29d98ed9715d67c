/**
  The hazard-pointer reclamation protocol of libcds (deps/cds/src/hp.cpp) as a state
  machine whose steps are the single shared-memory accesses of the C++ code, interleaved
  freely between any number of threads.

  Shared state: a list of thread records that only grows at its head; each record has an
  owner, a free flag, a next link, `hazardCount` guard slots and a retired array of
  capacity `capacity`.  Thread-local state: where the thread is inside attach, detach and
  help_scan (`Mode`), and where it is inside a scan it has called (`Scan`).

  Some fields are history only: no step reads them to decide what to do.  They are
  `chain`, `rank`, `unlinked`, `dead`, `retires`, `freed`, `Slot.validated` and the count
  `Walk.owned`.  A freed address may be allocated again and then be retired again.
 */
module HazardProtocol {
  import opened Reclaim

  type Tid = nat      // 0 is c_NullThreadId
  type RecId = nat    // index into State.recs, in order of creation

  datatype Link = Null | To(rec: RecId)

  /** A guard slot: the published pointer, and whether its holder has re-read the shared
      source after publishing it and found the pointer still there (Guard::protect). */
  datatype Slot = Slot(ptr: Ptr, validated: bool)

  const EMPTY: Slot := Slot(0, false)

  datatype Record = Record(
    owner: Tid,           // m_idOwner
    isFree: bool,         // m_bFree
    next: Link,           // m_pNextNode
    guards: seq<Slot>,    // hazards_
    retired: seq<Ptr>,    // retired_, first() up to last()
    rank: int)            // history: position in State.chain, -1 before publication

  /** Progress of a scan.  `Walk(node, reading, slot, ...)`: about to load the owner of
      `node` when `reading` is false, about to read its guard `slot` when it is true. */
  datatype Scan =
    | Off
    | Begin
    | Walk(node: Link, reading: bool, slot: nat, seen: set<Ptr>, owned: nat)

  /** Where a thread is, apart from the scan it may be in. */
  datatype Mode =
    | Detached
    | Searching(cur: Link)                 // alloc_thread_data, reuse loop
    | Claimed(rec: RecId)                  // reuse: owner swapped in, free flag not yet cleared
    | Fresh(rec: RecId, seenHead: Link)         // new record: about to store its next link
    | Linked(rec: RecId, seenHead: Link)        // new record: about to swap the list head
    | Attached(rec: RecId)
    | Clearing(rec: RecId, slot: nat)      // free_thread_data: hazards_.clear()
    | DetachScan(rec: RecId)               // free_thread_data: scan( pRec )
    | Helping(rec: RecId, cur: Link)       // help_scan: loop test
    | HelpClaim(rec: RecId, src: RecId)    // help_scan: free flag seen false, about to swap the owner
    | Moving(rec: RecId, src: RecId)       // help_scan: owns src, moving its retired pointers
    | Drained(rec: RecId, src: RecId)      // help_scan: src cleared, about to set its free flag
    | Marked(rec: RecId, src: RecId)       // help_scan: about to release src
    | Releasing(rec: RecId)                // free_thread_data: about to drop ownership

  datatype Thread = Thread(mode: Mode, scan: Scan)

  datatype State = State(
    hazardCount: nat,
    capacity: nat,
    head: Link,                // thread_list_
    recs: seq<Record>,
    threads: map<Tid, Thread>,
    chain: seq<RecId>,         // history: published records, oldest first
    unlinked: set<Ptr>,        // history: pointers retired since they were last allocated
    dead: set<Ptr>,            // history: pointers freed and not allocated since
    retires: seq<Ptr>,         // history: every call of retire, in order
    freed: seq<Ptr>)           // history: every call of a disposer, in order

  // ---------------------------------------------------------------- helpers on modes

  /** The record the thread works for: the one in its tls_, or being attached or detached. */
  predicate Owns(m: Mode, r: RecId) {
    !m.Detached? && !m.Searching? && m.rec == r
  }

  /** The abandoned record the thread has taken over inside help_scan. */
  predicate Helps(m: Mode, r: RecId) {
    (m.Moving? || m.Drained? || m.Marked?) && m.src == r
  }

  predicate Holds(m: Mode, r: RecId) { Owns(m, r) || Helps(m, r) }

  /** Guard slot k of record r can be non-null only while its owner is here. */
  predicate MaySet(m: Mode, r: RecId, k: nat) {
    (m.Attached? && m.rec == r) || (m.Clearing? && m.rec == r && m.slot <= k)
  }

  predicate CanScan(m: Mode) {
    m.Attached? || m.DetachScan? || m.Helping? || m.Moving?
  }

  predicate Published(s: State, r: RecId) {
    r < |s.recs| && s.recs[r].rank >= 0
  }

  predicate PublishedLink(s: State, l: Link) {
    l.Null? || Published(s, l.rec)
  }

  function WithThread(s: State, t: Tid, th: Thread): State {
    s.(threads := s.threads[t := th])
  }

  function WithRec(s: State, r: RecId, rec: Record): State
    requires r < |s.recs|
  {
    s.(recs := s.recs[r := rec])
  }

  /** After pushing onto the retired array of `rec`: scan when push reports it full. */
  function AfterPush(count: nat, capacity: nat): Scan {
    if count < capacity then Off else Begin
  }

  // ---------------------------------------------------------------- the steps

  datatype Action =
    | AttachStart                    // load thread_list_
    | TryClaim                       // compare_exchange on m_idOwner in the reuse loop
    | ClearFreeFlag                  // m_bFree.store( false )
    | Create                         // create_thread_data, set owner, load thread_list_
    | StoreNext                      // m_pNextNode.store( pOldHead )
    | SwapHead(spurious: bool)       // compare_exchange_weak on thread_list_
    | SetGuard(slot: nat, ptr: Ptr)  // guard::set / guard::clear
    | Validate(slot: nat)            // second load in Guard::protect
    | CopyGuard(src: nat, dst: nat)  // Guard::copy / GuardArray::copy
    | Retire(ptr: Ptr)               // retired_.push
    | Allocate(ptr: Ptr)             // the allocator hands out a freed address again
    | UserScan                       // HP::scan
    | ScanLoadHead
    | ScanLoadOwner
    | ScanReadGuard
    | ScanEnd(kept: seq<Ptr>, gone: seq<Ptr>)
    | DetachStart
    | ClearSlot
    | HelpStart                      // help_scan: load thread_list_
    | HelpTestFree                   // skip own record; load m_bFree
    | HelpTryClaim                   // load and compare_exchange m_idOwner
    | MoveOne                        // dest.push( std::move( *src_first ))
    | MoveEnd                        // src.interthread_clear()
    | SetFreeFlag                    // m_bFree.store( true )
    | ReleaseHelped                  // m_idOwner.store( nullThreadId ), then scan
    | HelpEnd
    | Release                        // free_thread_data: m_idOwner.store( null )

  ghost predicate Enabled(s: State, t: Tid, a: Action) {
    t in s.threads &&
    var th := s.threads[t];
    var m := th.mode;
    match a
    case AttachStart => m.Detached? && th.scan.Off?
    case TryClaim => m.Searching? && m.cur.To? && m.cur.rec < |s.recs|
    case ClearFreeFlag => m.Claimed? && m.rec < |s.recs|
    case Create => m.Searching? && m.cur.Null?
    case StoreNext => m.Fresh? && m.rec < |s.recs|
    case SwapHead(_) => m.Linked? && m.rec < |s.recs|
    case SetGuard(k, _) => m.Attached? && m.rec < |s.recs| && k < |s.recs[m.rec].guards| && th.scan.Off?
    case Validate(k) =>
      && m.Attached? && m.rec < |s.recs| && k < |s.recs[m.rec].guards| && th.scan.Off?
      && s.recs[m.rec].guards[k].ptr != 0
      && s.recs[m.rec].guards[k].ptr !in s.unlinked
    case CopyGuard(i, j) =>
      && m.Attached? && m.rec < |s.recs| && th.scan.Off?
      && i < |s.recs[m.rec].guards| && j < |s.recs[m.rec].guards|
    case Retire(p) =>
      && m.Attached? && m.rec < |s.recs| && th.scan.Off?
      && p != 0 && p !in s.unlinked && |s.recs[m.rec].retired| < s.capacity
    case Allocate(p) => p in s.dead
    case UserScan => m.Attached? && th.scan.Off?
    case ScanLoadHead => CanScan(m) && th.scan.Begin? && m.rec < |s.recs|
    case ScanLoadOwner => th.scan.Walk? && th.scan.node.To? && th.scan.node.rec < |s.recs| && !th.scan.reading
    case ScanReadGuard =>
      && th.scan.Walk? && th.scan.node.To? && th.scan.node.rec < |s.recs| && th.scan.reading
      && th.scan.slot < |s.recs[th.scan.node.rec].guards|
    case ScanEnd(kept, gone) =>
      && CanScan(m) && m.rec < |s.recs| && th.scan.Walk? && th.scan.node.Null?
      && ScanOutcome(s.recs[m.rec].retired, th.scan.seen, kept, gone)
    case DetachStart => m.Attached? && th.scan.Off?
    case ClearSlot => m.Clearing? && m.rec < |s.recs| && m.slot < |s.recs[m.rec].guards|
    case HelpStart => m.DetachScan? && th.scan.Off?
    case HelpTestFree => m.Helping? && m.cur.To? && m.cur.rec < |s.recs| && th.scan.Off?
    case HelpTryClaim => m.HelpClaim? && m.src < |s.recs|
    case MoveOne =>
      && m.Moving? && m.rec < |s.recs| && m.src < |s.recs| && th.scan.Off?
      && |s.recs[m.src].retired| > 0 && |s.recs[m.rec].retired| < s.capacity
    case MoveEnd => m.Moving? && m.src < |s.recs| && th.scan.Off? && s.recs[m.src].retired == []
    case SetFreeFlag => m.Drained? && m.src < |s.recs|
    case ReleaseHelped => m.Marked? && m.src < |s.recs|
    case HelpEnd => m.Helping? && m.cur.Null? && th.scan.Off?
    case Release => m.Releasing? && m.rec < |s.recs|
  }

  /** The state after thread t takes step a. */
  ghost function Next(s: State, t: Tid, a: Action): (s': State)
    requires Enabled(s, t, a)
  {
    var th := s.threads[t];
    var m := th.mode;
    match a
    case AttachStart => WithThread(s, t, th.(mode := Searching(s.head)))
    case TryClaim =>
      var r := s.recs[m.cur.rec];
      if r.owner == 0 then
        WithThread(WithRec(s, m.cur.rec, r.(owner := t)), t, th.(mode := Claimed(m.cur.rec)))
      else
        WithThread(s, t, th.(mode := Searching(r.next)))
    case ClearFreeFlag =>
      WithThread(WithRec(s, m.rec, s.recs[m.rec].(isFree := false)), t, th.(mode := Attached(m.rec)))
    case Create =>
      var rec := Record(t, false, Null, seq(s.hazardCount, _ => EMPTY), [], -1);
      WithThread(s.(recs := s.recs + [rec]), t, th.(mode := Fresh(|s.recs|, s.head)))
    case StoreNext =>
      WithThread(WithRec(s, m.rec, s.recs[m.rec].(next := m.seenHead)), t, th.(mode := Linked(m.rec, m.seenHead)))
    case SwapHead(spurious) =>
      if s.head == m.seenHead && !spurious then
        var s1 := WithRec(s, m.rec, s.recs[m.rec].(rank := |s.chain|));
        WithThread(s1.(head := To(m.rec), chain := s.chain + [m.rec]), t, th.(mode := Attached(m.rec)))
      else
        WithThread(s, t, th.(mode := Fresh(m.rec, s.head)))
    case SetGuard(k, p) =>
      var r := s.recs[m.rec];
      WithRec(s, m.rec, r.(guards := r.guards[k := Slot(p, false)]))
    case Validate(k) =>
      var r := s.recs[m.rec];
      WithRec(s, m.rec, r.(guards := r.guards[k := Slot(r.guards[k].ptr, true)]))
    case CopyGuard(i, j) =>
      var r := s.recs[m.rec];
      WithRec(s, m.rec, r.(guards := r.guards[j := Slot(r.guards[i].ptr, r.guards[i].validated && i <= j)]))
    case Retire(p) =>
      var r := s.recs[m.rec];
      var s1 := WithRec(s, m.rec, r.(retired := r.retired + [p]));
      WithThread(s1.(unlinked := s.unlinked + {p}, retires := s.retires + [p]), t,
        th.(scan := AfterPush(|r.retired| + 1, s.capacity)))
    case Allocate(p) => s.(unlinked := s.unlinked - {p}, dead := s.dead - {p})
    case UserScan => WithThread(s, t, th.(scan := Begin))
    case ScanLoadHead =>
      WithThread(s, t, th.(scan := if s.recs[m.rec].retired == [] then Off else Walk(s.head, false, 0, {}, 0)))
    case ScanLoadOwner =>
      var r := s.recs[th.scan.node.rec];
      WithThread(s, t, th.(scan :=
        if r.owner == 0 then th.scan.(node := r.next)
        else th.scan.(reading := true, slot := 0, owned := th.scan.owned + 1)))
    case ScanReadGuard =>
      var r := s.recs[th.scan.node.rec];
      var p := r.guards[th.scan.slot].ptr;
      var seen := if p == 0 then th.scan.seen else th.scan.seen + {p};
      WithThread(s, t, th.(scan :=
        if th.scan.slot + 1 < |r.guards| then th.scan.(slot := th.scan.slot + 1, seen := seen)
        else th.scan.(node := r.next, reading := false, slot := 0, seen := seen)))
    case ScanEnd(kept, gone) =>
      var s1 := WithRec(s, m.rec, s.recs[m.rec].(retired := kept));
      WithThread(s1.(freed := s.freed + gone, dead := s.dead + Members(gone)), t, th.(scan := Off))
    case DetachStart => WithThread(s, t, th.(mode := Clearing(m.rec, 0)))
    case ClearSlot =>
      var r := s.recs[m.rec];
      var s1 := WithRec(s, m.rec, r.(guards := r.guards[m.slot := EMPTY]));
      WithThread(s1, t,
        if m.slot + 1 < |r.guards| then th.(mode := Clearing(m.rec, m.slot + 1))
        else Thread(DetachScan(m.rec), Begin))
    case HelpStart => WithThread(s, t, th.(mode := Helping(m.rec, s.head)))
    case HelpTestFree =>
      var c := s.recs[m.cur.rec];
      WithThread(s, t, th.(mode :=
        if m.cur.rec == m.rec || c.isFree then Helping(m.rec, c.next) else HelpClaim(m.rec, m.cur.rec)))
    case HelpTryClaim =>
      var c := s.recs[m.src];
      if c.owner == 0 then
        WithThread(WithRec(s, m.src, c.(owner := t)), t, th.(mode := Moving(m.rec, m.src)))
      else
        WithThread(s, t, th.(mode := Helping(m.rec, c.next)))
    case MoveOne =>
      var c, d := s.recs[m.src], s.recs[m.rec];
      var s1 := WithRec(s, m.src, c.(retired := c.retired[1..]));
      WithThread(WithRec(s1, m.rec, s1.recs[m.rec].(retired := s1.recs[m.rec].retired + [c.retired[0]])), t,
        th.(scan := AfterPush(|d.retired| + 1, s.capacity)))
    case MoveEnd => WithThread(s, t, th.(mode := Drained(m.rec, m.src)))
    case SetFreeFlag =>
      WithThread(WithRec(s, m.src, s.recs[m.src].(isFree := true)), t, th.(mode := Marked(m.rec, m.src)))
    case ReleaseHelped =>
      WithThread(WithRec(s, m.src, s.recs[m.src].(owner := 0)), t, Thread(Helping(m.rec, s.recs[m.src].next), Begin))
    case HelpEnd => WithThread(s, t, th.(mode := Releasing(m.rec)))
    case Release =>
      WithThread(WithRec(s, m.rec, s.recs[m.rec].(owner := 0)), t, th.(mode := Detached))
  }

  // ---------------------------------------------------------------- the invariant

  ghost predicate ListOk(s: State) {
    && s.head == (if s.chain == [] then Null else To(s.chain[|s.chain| - 1]))
    && (forall i :: 0 <= i < |s.chain| ==> s.chain[i] < |s.recs| && s.recs[s.chain[i]].rank == i)
  }

  /** Links of record r: a published record points at the one published just before it. */
  ghost predicate LinkOk(s: State, r: RecId)
    requires r < |s.recs|
  {
    var k := s.recs[r].rank;
    && -1 <= k < |s.chain|
    && (k >= 0 ==> s.chain[k] == r && s.recs[r].next == (if k == 0 then Null else To(s.chain[k - 1])))
  }

  /** A record that is owned is held by the thread it names. */
  ghost predicate OwnerOk(s: State, r: RecId)
    requires r < |s.recs|
  {
    var o := s.recs[r].owner;
    o != 0 ==> o in s.threads && Holds(s.threads[o].mode, r)
  }

  /** A record not yet in the list is private to the thread creating it, and empty. */
  ghost predicate PrivateOk(s: State, r: RecId)
    requires r < |s.recs|
  {
    var rec := s.recs[r];
    rec.rank < 0 ==>
      && rec.owner != 0 && rec.owner in s.threads
      && (s.threads[rec.owner].mode.Fresh? || s.threads[rec.owner].mode.Linked?)
      && rec.retired == []
  }

  /** Guards are set only while their owner is attached, and cleared before it lets go. */
  ghost predicate GuardsOk(s: State, r: RecId)
    requires r < |s.recs|
  {
    var rec := s.recs[r];
    && |rec.guards| == s.hazardCount
    && (forall k :: 0 <= k < |rec.guards| ==> rec.guards[k].validated ==> rec.guards[k].ptr != 0)
    && (forall k :: 0 <= k < |rec.guards| ==> rec.guards[k].ptr != 0 ==>
          rec.owner in s.threads && MaySet(s.threads[rec.owner].mode, r, k))
  }

  ghost predicate RecOk(s: State, r: RecId)
    requires r < |s.recs|
  {
    && LinkOk(s, r)
    && OwnerOk(s, r)
    && PrivateOk(s, r)
    && GuardsOk(s, r)
    && (s.recs[r].isFree ==> s.recs[r].retired == [])
    && |s.recs[r].retired| <= s.capacity
  }

  ghost predicate ModeOk(s: State, t: Tid, m: Mode) {
    && (forall r: RecId :: Holds(m, r) ==> r < |s.recs| && s.recs[r].owner == t)
    && match m
       case Detached => true
       case Searching(c) => PublishedLink(s, c)
       case Claimed(r) => Published(s, r)
       case Fresh(r, h) => r < |s.recs| && s.recs[r].rank < 0 && !s.recs[r].isFree && PublishedLink(s, h)
       case Linked(r, h) => r < |s.recs| && s.recs[r].rank < 0 && !s.recs[r].isFree && PublishedLink(s, h) && s.recs[r].next == h
       case Attached(r) => Published(s, r) && !s.recs[r].isFree
       case Clearing(r, k) => Published(s, r) && !s.recs[r].isFree && k < s.hazardCount
       case DetachScan(r) => Published(s, r) && !s.recs[r].isFree
       case Helping(r, c) => Published(s, r) && !s.recs[r].isFree && PublishedLink(s, c)
       case HelpClaim(r, c) => Published(s, r) && !s.recs[r].isFree && Published(s, c) && c != r
       case Moving(r, c) => Published(s, r) && !s.recs[r].isFree && Published(s, c) && c != r
       case Drained(r, c) => Published(s, r) && !s.recs[r].isFree && Published(s, c) && c != r && s.recs[c].retired == []
       case Marked(r, c) => Published(s, r) && !s.recs[r].isFree && Published(s, c) && c != r && s.recs[c].retired == []
       case Releasing(r) => Published(s, r) && !s.recs[r].isFree
  }

  ghost predicate ScanOk(s: State, m: Mode, sc: Scan) {
    && (!sc.Off? ==> CanScan(m))
    && (sc.Walk? ==> PublishedLink(s, sc.node) && (sc.reading ==> sc.node.To? && sc.slot < s.hazardCount))
  }

  ghost predicate ThreadOk(s: State, t: Tid)
    requires t in s.threads
  {
    && t != 0
    && ModeOk(s, t, s.threads[t].mode)
    && ScanOk(s, s.threads[t].mode, s.threads[t].scan)
  }

  /** Shape and ownership of the whole structure. */
  ghost predicate Shape(s: State) {
    && s.hazardCount > 0
    && ListOk(s)
    && (forall r :: 0 <= r < |s.recs| ==> RecOk(s, r))
    && (forall t :: t in s.threads ==> ThreadOk(s, t))
  }

  ghost predicate Init(s: State) {
    && s.hazardCount > 0
    && s.head == Null && s.recs == [] && s.chain == []
    && s.unlinked == {} && s.dead == {} && s.retires == [] && s.freed == []
    && (forall t :: t in s.threads ==> t != 0 && s.threads[t] == Thread(Detached, Off))
  }

  ghost predicate Step(s: State, s': State) {
    exists t, a :: Enabled(s, t, a) && s' == Next(s, t, a)
  }
}

/**
  Flat combining with elimination (deps/cds/cds/container/fcdeque.h, fcqueue.h, fcstack.h over
  deps/cds/cds/algo/flat_combining/kernel.h).

  Threads publish operations in records.  The combiner makes elimination passes (fc_process), which
  pair a push with a pop and complete both without touching the container, and then applies the
  operations still pending (fc_apply).  The containers are sequences; the queue is pushed at the
  back and popped at the front, the stack is pushed and popped at the front.
 */
module FlatCombining {
  import opened Common

  datatype Kind = FCDeque | FCQueue | FCStack

  /** `move` tells op_push_front_move from op_push_front, and so on. */
  datatype Op =
    | PushFront(value: int, move: bool)
    | PushBack(value: int, move: bool)
    | PopFront
    | PopBack
    | Clear
    | TestEmpty

  /** What a completed record tells its thread: nothing, a popped value, or the flag bEmpty. */
  datatype Answer = Ack | Popped(value: int) | Nothing | Emptiness(isEmpty: bool)

  /** A publication record: req_EmptyRecord, an operation, or req_Response. */
  datatype Record = Idle | Pending(op: Op) | Done(op: Op, answer: Answer)

  predicate Supports(kind: Kind, op: Op) {
    match kind
    case FCDeque => !op.TestEmpty?
    case FCQueue => op.PushBack? || op.PopFront? || op.Clear?
    case FCStack => op.PushFront? || op.PopFront? || op.Clear? || op.TestEmpty?
  }

  // ---------------------------------------------------------------- the sequential container

  /** fc_apply: the container after op, and the answer. */
  function Apply(c: seq<int>, op: Op): (r: (seq<int>, Answer)) {
    match op
    case PushFront(v, _) => ([v] + c, Ack)
    case PushBack(v, _) => (c + [v], Ack)
    case PopFront => if c == [] then (c, Nothing) else (c[1..], Popped(c[0]))
    case PopBack => if c == [] then (c, Nothing) else (c[..|c| - 1], Popped(c[|c| - 1]))
    case Clear => ([], Ack)
    case TestEmpty => (c, Emptiness(c == []))
  }

  predicate IsPush(op: Op) { op.PushFront? || op.PushBack? }

  predicate IsPop(op: Op) { op.PopFront? || op.PopBack? }

  // ---------------------------------------------------------------- one visit of an elimination pass

  /** What fc_process does with the record it visits: nothing, remember it in itPrev, or complete
      it together with itPrev. */
  datatype Decision = Skip | Remember | Collide(push: nat, pop: nat)

  /** Two pending records, a push and a pop. */
  predicate Pair(recs: seq<Record>, push: nat, pop: nat) {
    && push < |recs| && pop < |recs|
    && recs[push].Pending? && recs[pop].Pending? && IsPush(recs[push].op) && IsPop(recs[pop].op)
  }

  /** The switch of FCDeque::fc_process.  `prev` is itPrev, -1 for itEnd. */
  function DecideDeque(empty: bool, recs: seq<Record>, prev: int, i: nat): (d: Decision)
    requires i < |recs| && -1 <= prev < |recs|
    requires recs[i].Pending? && (prev >= 0 ==> recs[prev].Pending?)
    ensures d.Collide? ==> Pair(recs, d.push, d.pop)
  {
    match recs[i].op
    case PushFront(_, _) =>
      if prev >= 0 && (recs[prev].op.PopFront? || (empty && recs[prev].op.PopBack?)) then Collide(i, prev) else Remember
    case PushBack(_, _) =>
      if prev >= 0 && (recs[prev].op.PopBack? || (empty && recs[prev].op.PopFront?)) then Collide(i, prev) else Remember
    case PopFront =>
      if prev < 0 then Remember
      else if empty then (if recs[prev].op.PushBack? then Collide(prev, i) else Remember)
      else (if recs[prev].op.PushFront? then Collide(prev, i) else Remember)
    case PopBack =>
      if prev < 0 then Remember
      else if empty then (if recs[prev].op.PushFront? then Collide(prev, i) else Remember)
      else (if recs[prev].op.PushBack? then Collide(prev, i) else Remember)
    case _ => Skip
  }

  /** FCQueue::collide and FCStack::collide: do the two records pair, and which is the push? */
  function Pairing(recs: seq<Record>, prev: int, i: nat): (d: Decision)
    requires i < |recs| && -1 <= prev < |recs|
    requires recs[i].Pending? && (prev >= 0 ==> recs[prev].Pending?)
    ensures d.Collide? ==> Pair(recs, d.push, d.pop)
  {
    if prev < 0 then Remember
    else if IsPush(recs[prev].op) && IsPop(recs[i].op) then Collide(prev, i)
    else if IsPop(recs[prev].op) && IsPush(recs[i].op) then Collide(i, prev)
    else Remember
  }

  function Decide(kind: Kind, empty: bool, recs: seq<Record>, prev: int, i: nat): (d: Decision)
    requires i < |recs| && -1 <= prev < |recs| && (prev >= 0 ==> recs[prev].Pending?)
    ensures d.Collide? ==> Pair(recs, d.push, d.pop)
  {
    if !recs[i].Pending? then Skip     // iterator::skip_inactive
    else match kind
      case FCDeque => DecideDeque(empty, recs, prev, i)
      case FCQueue => if IsPush(recs[i].op) || IsPop(recs[i].op) then (if empty then Pairing(recs, prev, i) else Skip) else Skip
      case FCStack => if IsPush(recs[i].op) || IsPop(recs[i].op) then Pairing(recs, prev, i) else Skip
  }

  /** collide / collide_move: both records get their answers. */
  function Collided(recs: seq<Record>, push: nat, pop: nat): (r: seq<Record>)
    requires Pair(recs, push, pop)
  {
    recs[push := Done(recs[push].op, Ack)][pop := Done(recs[pop].op, Popped(recs[push].op.value))]
  }

  /** A decision to collide is always about two different pending records, a push and a pop, whose
      execution one right after the other gives just these answers and leaves the container as it is. */
  lemma DecideSound(kind: Kind, c: seq<int>, recs: seq<Record>, prev: int, i: nat)
    requires i < |recs| && -1 <= prev < |recs| && prev != i && (prev >= 0 ==> recs[prev].Pending?)
    requires forall k :: 0 <= k < |recs| && recs[k].Pending? ==> Supports(kind, recs[k].op)
    ensures var d := Decide(kind, c == [], recs, prev, i);
      && (d.Remember? ==> recs[i].Pending?)
      && (d.Collide? ==>
            && d.push != d.pop
            && var mid := Apply(c, recs[d.push].op);
               mid.1 == Ack && Apply(mid.0, recs[d.pop].op) == (c, Popped(recs[d.push].op.value)))
  {
    var d := Decide(kind, c == [], recs, prev, i);
    if d.Collide? {
      var v := recs[d.push].op.value;
      assert ([v] + c)[1..] == c && (c + [v])[..|c|] == c;
      assert c == [] ==> [v] + c == c + [v] == [v] && [v][1..] == [] && [v][..0] == [];
    }
  }

  /** A push and a pop right after it leave every container of that emptiness as it is. */
  ghost predicate Cancels(empty: bool, push: Op, pop: Op)
    requires IsPush(push)
  {
    forall d: seq<int> :: (d == []) == empty ==> Apply(Apply(d, push).0, pop) == (d, Popped(push.value))
  }

  predicate SameEnd(push: Op, pop: Op) {
    (push.PushFront? && pop.PopFront?) || (push.PushBack? && pop.PopBack?)
  }

  lemma CancelsIff(empty: bool, push: Op, pop: Op)
    requires IsPush(push) && IsPop(pop)
    ensures Cancels(empty, push, pop) <==> SameEnd(push, pop) || empty
  {
    var v := push.value;
    forall d: seq<int> | (d == []) == empty && (SameEnd(push, pop) || empty)
      ensures Apply(Apply(d, push).0, pop) == (d, Popped(v))
    {
      assert ([v] + d)[1..] == d && (d + [v])[..|d|] == d;
      assert empty ==> [v] + d == d + [v] == [v] && [v][1..] == [] && [v][..0] == [];
    }
    var other := [v + 1];
    assert Apply(Apply(other, push).0, pop) == (other, Popped(v)) ==> SameEnd(push, pop);
  }

  /** The two operations, whichever is the push, cancel out. */
  ghost predicate Eliminable(empty: bool, x: Op, y: Op) {
    (IsPush(x) && IsPop(y) && Cancels(empty, x, y)) || (IsPush(y) && IsPop(x) && Cancels(empty, y, x))
  }

  /** When two records visited in succession collide: exactly if the operations cancel out, except
      that an empty FCDeque, visiting a pop, eliminates it only with a push at the other end.  Which
      records are remembered: the pushes and pops left over, in an FCQueue only while it is empty. */
  lemma DecideExact(kind: Kind, empty: bool, recs: seq<Record>, prev: int, i: nat)
    requires i < |recs| && -1 <= prev < |recs| && prev != i && (prev >= 0 ==> recs[prev].Pending?)
    requires forall k :: 0 <= k < |recs| && recs[k].Pending? ==> Supports(kind, recs[k].op)
    ensures var d := Decide(kind, empty, recs, prev, i);
      && (d.Collide? <==>
            && prev >= 0 && recs[i].Pending? && Eliminable(empty, recs[prev].op, recs[i].op)
            && !(kind.FCDeque? && empty && SameEnd(recs[prev].op, recs[i].op)))
      && (d.Skip? <==>
            || !recs[i].Pending? || !(IsPush(recs[i].op) || IsPop(recs[i].op))
            || (kind.FCQueue? && !empty))
  {
    if prev >= 0 && recs[i].Pending? {
      var x, y := recs[prev].op, recs[i].op;
      if IsPush(x) && IsPop(y) { CancelsIff(empty, x, y); }
      if IsPush(y) && IsPop(x) { CancelsIff(empty, y, x); }
    }
  }

  // ---------------------------------------------------------------- histories

  /** A thread publishes an operation, the operation takes effect, the thread takes the answer. */
  datatype Event =
    | Invoke(rec: nat, op: Op)
    | Effect(rec: nat, op: Op, answer: Answer)
    | Return(rec: nat, answer: Answer)

  /** The container after executing the effects of a history one by one, if every answer is the one
      a sequential container gives. */
  function Replay(c: seq<int>, h: seq<Event>): (r: Option<seq<int>>) {
    if h == [] then Some(c)
    else
      var e := h[|h| - 1];
      match Replay(c, h[..|h| - 1])
      case None => None
      case Some(d) =>
        if e.Effect? then (if Apply(d, e.op).1 == e.answer then Some(Apply(d, e.op).0) else None)
        else Some(d)
  }

  /** What a record must hold after a history in which each operation takes effect exactly once,
      between being published and being answered, and the answer is that of its effect. */
  function Track(start: Record, h: seq<Event>, i: nat): (r: Option<Record>) {
    if h == [] then Some(start)
    else
      var e := h[|h| - 1];
      match Track(start, h[..|h| - 1], i)
      case None => None
      case Some(rec) =>
        if e.rec != i then Some(rec)
        else match e
          case Invoke(_, op) => if rec.Idle? then Some(Pending(op)) else None
          case Effect(_, op, a) => if rec == Pending(op) then Some(Done(op, a)) else None
          case Return(_, a) => if rec.Done? && rec.answer == a then Some(Idle) else None
  }

  /** The history from (c0, recs0) explains the container c and the records recs. */
  ghost predicate Explains(c0: seq<int>, recs0: seq<Record>, h: seq<Event>, c: seq<int>, recs: seq<Record>) {
    && Replay(c0, h) == Some(c)
    && |recs| == |recs0|
    && forall i :: 0 <= i < |recs| ==> Track(recs0[i], h, i) == Some(recs[i])
  }

  lemma ExplainsEffect(c0: seq<int>, recs0: seq<Record>, h: seq<Event>, c: seq<int>, recs: seq<Record>, i: nat)
    requires Explains(c0, recs0, h, c, recs) && i < |recs| && recs[i].Pending?
    ensures var r := Apply(c, recs[i].op);
      Explains(c0, recs0, h + [Effect(i, recs[i].op, r.1)], r.0, recs[i := Done(recs[i].op, r.1)])
  {
    var h' := h + [Effect(i, recs[i].op, Apply(c, recs[i].op).1)];
    assert h'[..|h'| - 1] == h;
  }

  /** So does a thread that publishes an operation in an idle record or takes an answer. */
  lemma ExplainsThread(c0: seq<int>, recs0: seq<Record>, h: seq<Event>, c: seq<int>, recs: seq<Record>, i: nat, e: Event, r: Record)
    requires Explains(c0, recs0, h, c, recs) && i < |recs| && e.rec == i
    requires (recs[i].Idle? && e.Invoke? && r == Pending(e.op)) || (recs[i].Done? && e == Return(i, recs[i].answer) && r == Idle)
    ensures Explains(c0, recs0, h + [e], c, recs[i := r])
  {
    var h' := h + [e];
    assert h'[..|h'| - 1] == h;
  }

  /** Two effects in a row explain a collision. */
  lemma ExplainsCollision(c0: seq<int>, recs0: seq<Record>, h: seq<Event>, c: seq<int>, recs: seq<Record>, push: nat, pop: nat)
    requires Explains(c0, recs0, h, c, recs)
    requires Pair(recs, push, pop) && push != pop
    requires var mid := Apply(c, recs[push].op);
      mid.1 == Ack && Apply(mid.0, recs[pop].op) == (c, Popped(recs[push].op.value))
    ensures Explains(c0, recs0, h + CollisionEvents(recs, push, pop), c, Collided(recs, push, pop))
  {
    ExplainsEffect(c0, recs0, h, c, recs, push);
    var h1 := h + [Effect(push, recs[push].op, Ack)];
    var recs1 := recs[push := Done(recs[push].op, Ack)];
    ExplainsEffect(c0, recs0, h1, Apply(c, recs[push].op).0, recs1, pop);
    assert h + CollisionEvents(recs, push, pop) == h1 + [Effect(pop, recs[pop].op, Popped(recs[push].op.value))];
  }

  function CollisionEvents(recs: seq<Record>, push: nat, pop: nat): (h: seq<Event>)
    requires Pair(recs, push, pop)
  {
    [Effect(push, recs[push].op, Ack), Effect(pop, recs[pop].op, Popped(recs[push].op.value))]
  }

  // ---------------------------------------------------------------- every run

  /** The container, the records, and the elimination pass in progress if `pos >= 0`.  `history` is
      history only. */
  datatype State = State(kind: Kind, container: seq<int>, recs: seq<Record>, pos: int, prev: int, history: seq<Event>)

  datatype Action =
    | Submit(rec: nat, op: Op)   // a thread stores its request
    | Collect(rec: nat)          // a thread takes its answer and empties its record
    | PassStart                  // the combiner calls fc_process
    | Visit                      // one round of the loop in fc_process
    | PassEnd
    | ApplyOne(rec: nat)         // combining_pass applies one pending record

  predicate Enabled(s: State, a: Action) {
    match a
    case Submit(i, op) => i < |s.recs| && s.recs[i].Idle? && Supports(s.kind, op)
    case Collect(i) => i < |s.recs| && s.recs[i].Done?
    case PassStart => s.pos < 0
    case Visit => 0 <= s.pos < |s.recs| && -1 <= s.prev < s.pos && (s.prev >= 0 ==> s.recs[s.prev].Pending?)
    case PassEnd => s.pos == |s.recs|
    case ApplyOne(i) => s.pos < 0 && i < |s.recs| && s.recs[i].Pending?
  }

  function Next(s: State, a: Action): (s': State)
    requires Enabled(s, a)
  {
    match a
    case Submit(i, op) => s.(recs := s.recs[i := Pending(op)], history := s.history + [Invoke(i, op)])
    case Collect(i) => s.(recs := s.recs[i := Idle], history := s.history + [Return(i, s.recs[i].answer)])
    case PassStart => s.(pos := 0, prev := -1)
    case Visit =>
      (match Decide(s.kind, s.container == [], s.recs, s.prev, s.pos)
       case Skip => s.(pos := s.pos + 1)
       case Remember => s.(pos := s.pos + 1, prev := s.pos)
       case Collide(push, pop) =>
         s.(pos := s.pos + 1, prev := -1, recs := Collided(s.recs, push, pop),
            history := s.history + CollisionEvents(s.recs, push, pop)))
    case PassEnd => s.(pos := -1, prev := -1)
    case ApplyOne(i) =>
      var r := Apply(s.container, s.recs[i].op);
      s.(container := r.0, recs := s.recs[i := Done(s.recs[i].op, r.1)],
         history := s.history + [Effect(i, s.recs[i].op, r.1)])
  }

  ghost predicate Started(s: State) {
    s.pos == -1 && s.prev == -1 && s.history == [] && forall i :: 0 <= i < |s.recs| ==> s.recs[i].Idle?
  }

  ghost predicate Supported(kind: Kind, recs: seq<Record>) {
    forall k :: 0 <= k < |recs| && recs[k].Pending? ==> Supports(kind, recs[k].op)
  }

  ghost predicate PassOk(recs: seq<Record>, pos: int, prev: int) {
    -1 <= prev && prev <= pos <= |recs| && (pos >= 0 ==> prev < pos) && (prev >= 0 ==> recs[prev].Pending?)
  }

  ghost predicate Inv(s0: State, s: State) {
    && s.kind == s0.kind
    && Explains(s0.container, s0.recs, s.history, s.container, s.recs)
    && Supported(s.kind, s.recs) && PassOk(s.recs, s.pos, s.prev)
  }

  lemma VisitInv(s0: State, s: State)
    requires Inv(s0, s) && Enabled(s, Visit)
    ensures Inv(s0, Next(s, Visit))
  {
    DecideSound(s.kind, s.container, s.recs, s.prev, s.pos);
    var d := Decide(s.kind, s.container == [], s.recs, s.prev, s.pos);
    if d.Collide? {
      ExplainsCollision(s0.container, s0.recs, s.history, s.container, s.recs, d.push, d.pop);
    }
  }

  /** A visit completes both records when the operation remembered and the one found cancel out (see
      DecideExact): the push is acknowledged, the pop gets its value, and the container is not touched. */
  lemma VisitEliminates(s: State)
    requires Enabled(s, Visit) && Supported(s.kind, s.recs) && s.prev >= 0 && s.recs[s.pos].Pending?
    requires Eliminable(s.container == [], s.recs[s.prev].op, s.recs[s.pos].op)
    requires !(s.kind.FCDeque? && s.container == [] && SameEnd(s.recs[s.prev].op, s.recs[s.pos].op))
    ensures var s' := Next(s, Visit);
      var (push, pop) := if IsPush(s.recs[s.pos].op) then (s.pos, s.prev) else (s.prev, s.pos);
      && s'.recs[push] == Done(s.recs[push].op, Ack)
      && s'.recs[pop] == Done(s.recs[pop].op, Popped(s.recs[push].op.value))
      && s'.container == s.container && s'.prev == -1
      && forall k :: 0 <= k < |s.recs| && k != push && k != pop ==> s'.recs[k] == s.recs[k]
  {
    DecideExact(s.kind, s.container == [], s.recs, s.prev, s.pos);
    var d := Decide(s.kind, s.container == [], s.recs, s.prev, s.pos);
    assert d.Collide?;
  }

  lemma SubmitInv(s0: State, s: State, a: Action)
    requires Inv(s0, s) && Enabled(s, a) && a.Submit?
    ensures Inv(s0, Next(s, a))
  {
    ExplainsThread(s0.container, s0.recs, s.history, s.container, s.recs, a.rec, Invoke(a.rec, a.op), Pending(a.op));
  }

  lemma CollectInv(s0: State, s: State, a: Action)
    requires Inv(s0, s) && Enabled(s, a) && a.Collect?
    ensures Inv(s0, Next(s, a))
  {
    ExplainsThread(s0.container, s0.recs, s.history, s.container, s.recs, a.rec, Return(a.rec, s.recs[a.rec].answer), Idle);
  }

  lemma StepInv(s0: State, s: State, a: Action)
    requires Inv(s0, s) && Enabled(s, a)
    ensures Inv(s0, Next(s, a))
  {
    match a
    case Visit => VisitInv(s0, s);
    case ApplyOne(i) => ExplainsEffect(s0.container, s0.recs, s.history, s.container, s.recs, i);
    case Submit(_, _) => SubmitInv(s0, s, a);
    case Collect(_) => CollectInv(s0, s, a);
    case PassStart =>
    case PassEnd =>
  }

  ghost predicate Run(run: seq<State>) {
    && |run| > 0 && Started(run[0])
    && forall i :: 0 <= i < |run| - 1 ==> Step(run[i], run[i + 1])
  }

  ghost predicate Step(s: State, s': State) {
    exists a :: Enabled(s, a) && s' == Next(s, a)
  }

  /** Linearizability of all three containers, with elimination, over every run in which operations
      arrive and answers are taken at any time: the history up to any point executes sequentially to
      the very container and answers found, each operation taking effect exactly once between its
      publication and its answer. */
  lemma {:induction false} Linearizable(run: seq<State>, n: nat)
    requires Run(run) && n < |run|
    ensures Explains(run[0].container, run[0].recs, run[n].history, run[n].container, run[n].recs)
    ensures Inv(run[0], run[n])
  {
    if n > 0 {
      Linearizable(run, n - 1);
      assert Step(run[n - 1], run[n - 1 + 1]);
      var a :| Enabled(run[n - 1], a) && run[n] == Next(run[n - 1], a);
      StepInv(run[0], run[n - 1], a);
    }
  }

  // ---------------------------------------------------------------- the combiner, in place

  /** The record is as it was, or its operation has been answered. */
  ghost predicate Completed(before: Record, after: Record) {
    after == before || (before.Pending? && after.Done? && after.op == before.op)
  }

  /** The first two pending pushes or pops of a batch, and they collide. */
  ghost predicate FirstTwo(kind: Kind, empty: bool, recs: seq<Record>, i: nat, j: nat) {
    && i < j < |recs| && recs[i].Pending? && recs[j].Pending?
    && (IsPush(recs[i].op) || IsPop(recs[i].op)) && (kind.FCQueue? ==> empty)
    && (forall k :: 0 <= k < j && k != i && recs[k].Pending? ==> !IsPush(recs[k].op) && !IsPop(recs[k].op))
    && Eliminable(empty, recs[i].op, recs[j].op)
    && !(kind.FCDeque? && empty && SameEnd(recs[i].op, recs[j].op))
  }

  /** How far a pass at position pos has come with them. */
  ghost predicate TwoSeen(before: seq<Record>, recs: seq<Record>, prev: int, pos: nat, i: nat, j: nat) {
    && |recs| == |before| && i < j < |recs|
    && (pos <= i ==> prev == -1)
    && (i < pos <= j ==> prev == i)
    && (pos <= j ==> recs == before)
    && (pos > j ==> recs[i].Done? && recs[j].Done?)
  }

  /** What one visit does to the records and to itPrev. */
  ghost predicate Visited(kind: Kind, empty: bool, recs: seq<Record>, prev: int, pos: nat, recs': seq<Record>, prev': int)
    requires pos < |recs| && -1 <= prev < |recs| && (prev >= 0 ==> recs[prev].Pending?)
  {
    match Decide(kind, empty, recs, prev, pos)
    case Skip => recs' == recs && prev' == prev
    case Remember => recs' == recs && prev' == pos
    case Collide(push, pop) => recs' == Collided(recs, push, pop) && prev' == -1
  }

  lemma TwoSeenStep(kind: Kind, empty: bool, before: seq<Record>, recs: seq<Record>, prev: int, pos: nat,
                    recs': seq<Record>, prev': int, i: nat, j: nat)
    requires pos < |recs| && -1 <= prev < pos && (prev >= 0 ==> recs[prev].Pending?) && Supported(kind, recs)
    requires Visited(kind, empty, recs, prev, pos, recs', prev')
    requires FirstTwo(kind, empty, before, i, j) && TwoSeen(before, recs, prev, pos, i, j)
    ensures TwoSeen(before, recs', prev', pos + 1, i, j)
  {
    DecideExact(kind, empty, recs, prev, pos);
  }

  class Combiner {
    const kind: Kind
    const recs: array<Record>
    var container: seq<int>
    ghost var history: seq<Event>

    constructor (kind: Kind, size: nat)
      ensures this.kind == kind && fresh(recs) && recs.Length == size
      ensures container == [] && history == [] && forall i :: 0 <= i < size ==> recs[i] == Idle
    {
      this.kind := kind;
      recs := new Record[size](_ => Idle);
      container, history := [], [];
    }

    /** The state of the combiner explained from the state (c0, recs0) by the history from `mark` on. */
    ghost predicate Explained(c0: seq<int>, recs0: seq<Record>, mark: nat)
      reads this, recs
    {
      && mark <= |history| && Supported(kind, recs[..])
      && Explains(c0, recs0, history[mark..], container, recs[..])
    }

    /** fc_process */
    method FcProcess(ghost c0: seq<int>, ghost recs0: seq<Record>, ghost mark: nat)
      requires Explained(c0, recs0, mark)
      modifies recs, this`history
      ensures Explained(c0, recs0, mark) && container == old(container) && old(history) <= history
      ensures forall i :: 0 <= i < recs.Length ==> Completed(old(recs[i]), recs[i])
      ensures forall i: nat, j: nat :: FirstTwo(kind, container == [], old(recs[..]), i, j) ==>
        recs[i].Done? && recs[j].Done?
    {
      var prev := -1;
      ghost var before, empty := recs[..], container == [];
      for i := 0 to recs.Length
        invariant Explained(c0, recs0, mark) && container == old(container) && old(history) <= history
        invariant -1 <= prev < i && (prev >= 0 ==> recs[prev].Pending?)
        invariant forall k :: 0 <= k < recs.Length ==> Completed(old(recs[k]), recs[k])
        invariant forall x: nat, y: nat :: FirstTwo(kind, empty, before, x, y) ==> TwoSeen(before, recs[..], prev, i, x, y)
      {
        ghost var was, wasPrev := recs[..], prev;
        prev := Visit(i, prev, c0, recs0, mark);
        forall x: nat, y: nat | FirstTwo(kind, empty, before, x, y) ensures TwoSeen(before, recs[..], prev, i + 1, x, y) {
          TwoSeenStep(kind, empty, before, was, wasPrev, i, recs[..], prev, x, y);
        }
      }
    }

    /** One round of that loop: itPrev afterwards. */
    method Visit(i: nat, prev: int, ghost c0: seq<int>, ghost recs0: seq<Record>, ghost mark: nat) returns (prev': int)
      requires Explained(c0, recs0, mark) && i < recs.Length
      requires -1 <= prev < i && (prev >= 0 ==> recs[prev].Pending?)
      modifies recs, this`history
      ensures Explained(c0, recs0, mark) && old(history) <= history
      ensures Visited(kind, container == [], old(recs[..]), prev, i, recs[..], prev')
      ensures -1 <= prev' <= i && (prev' >= 0 ==> recs[prev'].Pending?)
      ensures forall k :: 0 <= k < recs.Length ==> Completed(old(recs[k]), recs[k])
    {
      DecideSound(kind, container, recs[..], prev, i);
      match Decide(kind, container == [], recs[..], prev, i)
      case Skip => return prev;
      case Remember => return i;
      case Collide(push, pop) =>
        DoCollide(push, pop, c0, recs0, mark);
        return -1;
    }

    method DoCollide(push: nat, pop: nat, ghost c0: seq<int>, ghost recs0: seq<Record>, ghost mark: nat)
      requires Explained(c0, recs0, mark)
      requires Pair(recs[..], push, pop) && push != pop
      requires var mid := Apply(container, recs[push].op);
        mid.1 == Ack && Apply(mid.0, recs[pop].op) == (container, Popped(recs[push].op.value))
      modifies recs, this`history
      ensures Explained(c0, recs0, mark) && old(history) <= history && recs[..] == Collided(old(recs[..]), push, pop)
    {
      ghost var before := recs[..];
      ExplainsCollision(c0, recs0, history[mark..], container, before, push, pop);
      recs[pop] := Done(recs[pop].op, Popped(recs[push].op.value));
      recs[push] := Done(recs[push].op, Ack);
      ghost var more := CollisionEvents(before, push, pop);
      assert (history + more)[mark..] == history[mark..] + more;
      history := history + more;
      assert recs[..] == Collided(before, push, pop);
    }

    /** fc_apply followed by operation_done */
    method FcApply(i: nat, ghost c0: seq<int>, ghost recs0: seq<Record>, ghost mark: nat)
      requires Explained(c0, recs0, mark) && i < recs.Length && recs[i].Pending?
      modifies recs, this`container, this`history
      ensures Explained(c0, recs0, mark) && old(history) <= history
      ensures recs[..] == old(recs[..])[i := Done(old(recs[i]).op, Apply(old(container), old(recs[i]).op).1)]
      ensures container == Apply(old(container), old(recs[i]).op).0
    {
      ghost var before := recs[..];
      ExplainsEffect(c0, recs0, history[mark..], container, before, i);
      var (c, answer) := Apply(container, recs[i].op);
      ghost var e := Effect(i, recs[i].op, answer);
      assert (history + [e])[mark..] == history[mark..] + [e];
      history := history + [e];
      recs[i] := Done(recs[i].op, answer);
      container := c;
      assert recs[..] == before[i := Done(before[i].op, answer)];
    }

    /** kernel::combining_pass */
    method CombiningPass(ghost c0: seq<int>, ghost recs0: seq<Record>, ghost mark: nat)
      requires Explained(c0, recs0, mark)
      modifies recs, this`container, this`history
      ensures Explained(c0, recs0, mark) && old(history) <= history
      ensures forall i :: 0 <= i < recs.Length ==> Completed(old(recs[i]), recs[i]) && !recs[i].Pending?
    {
      for i := 0 to recs.Length
        invariant Explained(c0, recs0, mark) && old(history) <= history
        invariant forall k :: 0 <= k < i ==> Completed(old(recs[k]), recs[k]) && !recs[k].Pending?
        invariant forall k :: i <= k < recs.Length ==> recs[k] == old(recs[k])
      {
        if recs[i].Pending? { FcApply(i, c0, recs0, mark); }
      }
    }

    /** kernel::batch_combining: for every container and every batch of records, the result is that of
        executing the pending operations one by one in the order of the events added to the history;
        each pending record is completed once and no other is touched. */
    method BatchCombining(passes: nat)
      requires Supported(kind, recs[..])
      modifies recs, this`container, this`history
      ensures old(history) <= history
      ensures Explains(old(container), old(recs[..]), history[|old(history)|..], container, recs[..])
      ensures forall i :: 0 <= i < recs.Length ==>
        Completed(old(recs[i]), recs[i]) && !recs[i].Pending?
    {
      ghost var c0, recs0, mark, h0 := container, recs[..], |history|, history;
      assert history[mark..] == [];
      for n := 0 to passes
        invariant Explained(c0, recs0, mark) && h0 <= history
        invariant forall i :: 0 <= i < recs.Length ==> Completed(recs0[i], recs[i])
      {
        FcProcess(c0, recs0, mark);
      }
      CombiningPass(c0, recs0, mark);
    }
  }
}

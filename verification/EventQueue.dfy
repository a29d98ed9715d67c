/** The life of a command (src/eventqueue.h, src/eventqueue.cpp, src/redpar.cpp): the server's
    thread makes events and queues them, or executes commands of the sequential handler itself;
    any number of workers take events and execute them, access by access (Execution); whichever
    thread drops the last reference destroys the event, which unblocks its client. */
module EventQueue {
  import C = Commands
  import X = Execution
  import S = ExecutionSerial
  import opened Common

  /** `refs` is the shared pointer's count. `started` and `unblocked` count the calls of
      execute and of the destructor; `replies` are those sent to the event's client. */
  datatype Event = Event(cmd: C.Command, refs: int, started: nat, replies: seq<C.Reply>, unblocked: nat)

  /** A command of the sequential handler, with the replies sent. */
  datatype Direct = Direct(cmd: C.Command, replies: seq<C.Reply>)

  /** Where the server's thread stands: conc_handler made the event and holds the one pointer to
      it; it also holds the converted pointer that enqueue's argument needs; the queue has its
      copy; the converted pointer is gone and its own is about to go. Or seq_handler is inside
      execute. */
  datatype Handler =
    | Idle | Made(id: nat) | Converted(id: nat) | Pushed(id: nat) | Returning(id: nat)
    | Serving(n: nat)

  /** Where a worker stands: outside dequeue; inside, with a copy of the front, holding the
      mutex; popped and returned; inside execute; after it, with the pointer still held. */
  datatype Worker = Polling | Copied(id: nat) | Holding(id: nat) | Running(id: nat) | Finished(id: nat)

  /** `taken` lists the events popped so far. In `exec` agent 0 is the server's thread and agent
      w + 1 is worker w. */
  datatype State = State(
    events: seq<Event>, directs: seq<Direct>, queue: seq<nat>, handler: Handler, workers: seq<Worker>,
    mutex: Option<nat>, exec: X.State, taken: seq<nat>)

  datatype Action =
    | Make(cmd: C.Command) | Convert | Push | DropCopy | Return
    | Serve(cmd: C.Command) | ServeOn | ServeEnd
    | Front(w: nat) | Pop(w: nat) | Poll(w: nat) | Start(w: nat) | RunOn(w: nat) | Finish(w: nat) | Drop(w: nat)

  predicate Enabled(s: State, a: Action) {
    match a
    case Make(_) => s.handler.Idle?
    case Convert => s.handler.Made?
    case Push => s.handler.Converted? && s.mutex.None?
    case DropCopy => s.handler.Pushed?
    case Return => s.handler.Returning?
    case Serve(c) => s.handler.Idle? && X.Enabled(s.exec, X.Begin(0, X.Direct(|s.directs|), c))
    case ServeOn => s.handler.Serving? && X.Enabled(s.exec, X.Advance(0))
    case ServeEnd => s.handler.Serving? && s.handler.n < |s.directs| && X.Enabled(s.exec, X.End(0))
    case Front(w) => w < |s.workers| && s.workers[w].Polling? && s.mutex.None? && s.queue != []
    case Poll(w) => w < |s.workers| && s.workers[w].Polling? && s.mutex.None? && s.queue == []
    case Pop(w) => w < |s.workers| && s.workers[w].Copied? && s.queue != []
    case Start(w) =>
      && w < |s.workers| && s.workers[w].Holding? && s.workers[w].id < |s.events|
      && X.Enabled(s.exec, X.Begin(w + 1, X.Queued(s.workers[w].id), s.events[s.workers[w].id].cmd))
    case RunOn(w) => w < |s.workers| && s.workers[w].Running? && X.Enabled(s.exec, X.Advance(w + 1))
    case Finish(w) =>
      w < |s.workers| && s.workers[w].Running? && s.workers[w].id < |s.events| && X.Enabled(s.exec, X.End(w + 1))
    case Drop(w) => w < |s.workers| && s.workers[w].Finished?
  }

  /** Copying a shared pointer. */
  function Copy(events: seq<Event>, id: nat): (r: seq<Event>)
    ensures |r| == |events|
  {
    if id < |events| then events[id := events[id].(refs := events[id].refs + 1)] else events
  }

  /** Destroying a shared pointer: the last one takes the event along. */
  function Release(events: seq<Event>, id: nat): (r: seq<Event>)
    ensures |r| == |events|
  {
    if id < |events| then
      var e := events[id];
      events[id := e.(refs := e.refs - 1, unblocked := if e.refs == 1 then e.unblocked + 1 else e.unblocked)]
    else events
  }

  function Next(s: State, a: Action): (t: State)
    requires Enabled(s, a)
  {
    match a
    case Make(cmd) => s.(events := s.events + [Event(cmd, 1, 0, [], 0)], handler := Made(|s.events|))
    case Convert => s.(events := Copy(s.events, s.handler.id), handler := Converted(s.handler.id))
    case Push => s.(events := Copy(s.events, s.handler.id), queue := s.queue + [s.handler.id],
                    handler := Pushed(s.handler.id))
    case DropCopy => s.(events := Release(s.events, s.handler.id), handler := Returning(s.handler.id))
    case Return => s.(events := Release(s.events, s.handler.id), handler := Idle)
    case Front(w) => s.(events := Copy(s.events, s.queue[0]), mutex := Some(w),
                        workers := s.workers[w := Copied(s.queue[0])])
    case Poll(_) => s
    case Pop(w) => s.(events := Release(s.events, s.queue[0]), queue := s.queue[1..], mutex := None,
                      taken := s.taken + [s.queue[0]], workers := s.workers[w := Holding(s.workers[w].id)])
    case Serve(c) =>
      s.(handler := Serving(|s.directs|), directs := s.directs + [Direct(c, [])],
         exec := X.Next(s.exec, X.Begin(0, X.Direct(|s.directs|), c)))
    case ServeOn => s.(exec := X.Next(s.exec, X.Advance(0)))
    case ServeEnd =>
      var n := s.handler.n;
      s.(handler := Idle, exec := X.Next(s.exec, X.End(0)),
         directs := s.directs[n := s.directs[n].(replies := s.directs[n].replies + [s.exec.agents[0].pc.reply])])
    case Start(w) =>
      var id := s.workers[w].id;
      s.(workers := s.workers[w := Running(id)],
         exec := X.Next(s.exec, X.Begin(w + 1, X.Queued(id), s.events[id].cmd)),
         events := s.events[id := s.events[id].(started := s.events[id].started + 1)])
    case RunOn(w) => s.(exec := X.Next(s.exec, X.Advance(w + 1)))
    case Finish(w) =>
      var id := s.workers[w].id;
      s.(workers := s.workers[w := Finished(id)], exec := X.Next(s.exec, X.End(w + 1)),
         events := s.events[id := s.events[id].(replies := s.events[id].replies + [s.exec.agents[w + 1].pc.reply])])
    case Drop(w) => s.(events := Release(s.events, s.workers[w].id), workers := s.workers[w := Polling])
  }

  ghost predicate Init(s: State) {
    && s.events == [] && s.directs == [] && s.queue == [] && s.handler.Idle? && s.mutex.None? && s.taken == []
    && X.Init(s.exec) && |s.exec.agents| == |s.workers| + 1
    && forall w: nat :: w < |s.workers| ==> s.workers[w].Polling?
  }

  ghost predicate Step(s: State, t: State) {
    exists a :: Enabled(s, a) && t == Next(s, a)
  }

  ghost predicate Run(run: seq<State>) {
    && |run| > 0 && Init(run[0])
    && forall i :: 0 <= i < |run| - 1 ==> Step(run[i], run[i + 1])
  }

  // ---------------------------------------------------------------------------
  // What every step keeps

  /** How many events the queue has ever been given. */
  function Queued(s: State): (n: int) {
    if s.handler.Made? || s.handler.Converted? then |s.events| - 1 else |s.events|
  }

  /** The pointers that conc_handler itself holds to event `id`. */
  function HandlerRefs(h: Handler, id: nat): (n: nat) {
    if h.Idle? || h.Serving? || h.id != id then 0 else if h.Converted? || h.Pushed? then 2 else 1
  }

  predicate Has(k: Worker, id: nat) {
    !k.Polling? && k.id == id
  }

  ghost predicate Held(s: State, id: nat) {
    exists w: nat :: w < |s.workers| && Has(s.workers[w], id)
  }

  /** Events are queued in the order they are made and popped in that order. */
  ghost predicate QueueOk(s: State) {
    && (!s.handler.Idle? && !s.handler.Serving? ==> s.handler.id == |s.events| - 1)
    && |s.taken| + |s.queue| == Queued(s)
    && (forall i: nat :: i < |s.taken| ==> s.taken[i] == i)
    && (forall i: nat :: i < |s.queue| ==> s.queue[i] == |s.taken| + i)
  }

  /** No two workers have one event, and only the mutex's owner is inside dequeue. */
  ghost predicate WorkersOk(s: State) {
    && (forall w: nat, u: nat :: w < |s.workers| && u < |s.workers| && w != u && !s.workers[w].Polling? ==>
          !Has(s.workers[u], s.workers[w].id))
    && (forall w: nat :: w < |s.workers| ==> WorkerOk(s, w))
  }

  ghost predicate WorkerOk(s: State, w: nat)
    requires w < |s.workers|
  {
    var k := s.workers[w];
    && (k.Copied? ==> k.id == |s.taken| && s.queue != [])
    && (k.Holding? || k.Running? || k.Finished? ==> k.id < |s.taken|)
    && (k.Copied? <==> s.mutex == Some(w))
  }

  /** How far execution of event `id` has got, told from who holds it. */
  ghost predicate ProgressOk(s: State, id: nat)
    requires id < |s.events|
  {
    var e := s.events[id];
    && |e.replies| <= e.started <= 1
    && (id >= |s.taken| ==> e.started == 0)
    && (forall w: nat :: w < |s.workers| && Has(s.workers[w], id) ==>
          && (e.started == 1 <==> s.workers[w].Running? || s.workers[w].Finished?)
          && (|e.replies| == 1 <==> s.workers[w].Finished?))
    && (id < |s.taken| && !Held(s, id) ==> |e.replies| == 1)
  }

  /** The count is the number of pointers there are, and the destructor has run when it is 0. */
  ghost predicate RefsOk(s: State, id: nat)
    requires id < |s.events|
  {
    var e := s.events[id];
    && e.refs == HandlerRefs(s.handler, id)
                 + (if |s.taken| <= id < Queued(s) then 1 else 0)
                 + (if Held(s, id) then 1 else 0)
    && e.unblocked == if e.refs == 0 then 1 else 0
  }

  /** Each thread that is inside execute is at work on its command, the others are not. */
  ghost predicate AgentOk(s: State, w: nat)
    requires w < |s.workers| && |s.exec.agents| == |s.workers| + 1
  {
    var g, k := s.exec.agents[w + 1], s.workers[w];
    if k.Running? then k.id < |s.events| && g.Busy? && g.job == X.Queued(k.id) && g.cmd == s.events[k.id].cmd
    else g.Idle?
  }

  ghost predicate ServerOk(s: State)
    requires |s.exec.agents| > 0
  {
    var g := s.exec.agents[0];
    if s.handler.Serving? then
      s.handler.n < |s.directs| && g.Busy? && g.job == X.Direct(s.handler.n) && g.cmd == s.directs[s.handler.n].cmd
      && s.directs[s.handler.n].replies == [] && s.handler.n == |s.directs| - 1
    else g.Idle?
  }

  /** Executions begun and answers given are those of the events and direct commands. */
  ghost predicate JobOk(s: State, j: X.Job) {
    match j
    case Queued(id) =>
      && (j in s.exec.jobs <==> id < |s.events| && s.events[id].started > 0)
      && (j in s.exec.said <==> id < |s.events| && s.events[id].replies != [])
      && (j in s.exec.said ==> s.events[id].replies == [s.exec.said[j]])
    case Direct(n) =>
      && (j in s.exec.jobs <==> n < |s.directs|)
      && (j in s.exec.said <==> n < |s.directs| && s.directs[n].replies != [])
      && (j in s.exec.said ==> s.directs[n].replies == [s.exec.said[j]])
  }

  ghost predicate ExecOk(s: State) {
    && |s.exec.agents| == |s.workers| + 1 && S.LockInv(s.exec) && ServerOk(s)
    && (forall w: nat :: w < |s.workers| ==> AgentOk(s, w))
    && (forall j :: JobOk(s, j))
  }

  ghost predicate LifeOk(s: State) {
    && QueueOk(s) && WorkersOk(s)
    && forall id: nat :: id < |s.events| ==> ProgressOk(s, id) && RefsOk(s, id)
  }

  ghost predicate Inv(s: State) {
    LifeOk(s) && ExecOk(s)
  }

  lemma HeldUnchanged(s: State, t: State, w: nat, id: nat)
    requires w < |s.workers| == |t.workers|
    requires forall u: nat :: u < |s.workers| && u != w ==> s.workers[u] == t.workers[u]
    requires Has(s.workers[w], id) == Has(t.workers[w], id)
    ensures Held(s, id) == Held(t, id)
  {
    if Held(s, id) {
      var u: nat :| u < |s.workers| && Has(s.workers[u], id);
      assert Has(t.workers[u], id);
    }
    if Held(t, id) {
      var u: nat :| u < |t.workers| && Has(t.workers[u], id);
      assert Has(s.workers[u], id);
    }
  }

  /** Workers have events that were queued, and inside dequeue only one at a time has the front. */
  lemma HeldWhere(s: State, w: nat)
    requires QueueOk(s) && WorkersOk(s) && w < |s.workers| && !s.workers[w].Polling?
    ensures s.workers[w].id < Queued(s)
    ensures s.mutex.None? ==> s.workers[w].id < |s.taken|
  {
    assert WorkerOk(s, w);
  }

  lemma HandlerStep(s: State, a: Action)
    requires LifeOk(s) && Enabled(s, a)
    requires a.Make? || a.Convert? || a.Push? || a.DropCopy? || a.Return?
    ensures LifeOk(Next(s, a))
  {
    var t := Next(s, a);
    assert QueueOk(t);
    forall w: nat | w < |t.workers| ensures WorkerOk(t, w) { assert WorkerOk(s, w); }
    forall id: nat | id < |t.events| ensures ProgressOk(t, id) && RefsOk(t, id) {
      assert Held(s, id) == Held(t, id);
      if id < |s.events| {
        assert ProgressOk(s, id) && RefsOk(s, id);
      } else if w: nat :| w < |s.workers| && Has(s.workers[w], id) {
        HeldWhere(s, w);
      }
    }
  }

  lemma DequeueStep(s: State, a: Action)
    requires LifeOk(s) && Enabled(s, a)
    requires a.Front? || a.Pop?
    ensures LifeOk(Next(s, a))
  {
    var t, w := Next(s, a), a.w;
    assert WorkerOk(s, w);
    forall u: nat | u < |t.workers| ensures WorkerOk(t, u) { assert WorkerOk(s, u); }
    forall u: nat | u < |s.workers| && !s.workers[u].Polling? ensures s.workers[u].id < |s.taken| || a.Pop? {
      HeldWhere(s, u);
    }
    assert Has(t.workers[w], |s.taken|);
    forall id: nat | id < |t.events| ensures ProgressOk(t, id) && RefsOk(t, id) {
      assert ProgressOk(s, id) && RefsOk(s, id);
      if Has(s.workers[w], id) == Has(t.workers[w], id) { HeldUnchanged(s, t, w, id); }
    }
  }

  lemma ExecuteStep(s: State, a: Action)
    requires LifeOk(s) && Enabled(s, a)
    requires a.Start? || a.Finish? || a.Drop?
    ensures LifeOk(Next(s, a))
  {
    var t, w := Next(s, a), a.w;
    assert WorkerOk(s, w);
    forall u: nat | u < |t.workers| ensures WorkerOk(t, u) { assert WorkerOk(s, u); }
    forall id: nat | id < |t.events| ensures ProgressOk(t, id) && RefsOk(t, id) {
      assert ProgressOk(s, id) && RefsOk(s, id);
      if Has(s.workers[w], id) == Has(t.workers[w], id) { HeldUnchanged(s, t, w, id); }
    }
  }

  lemma ServeStep(s: State, a: Action)
    requires LifeOk(s) && Enabled(s, a)
    requires a.Serve? || a.ServeOn? || a.ServeEnd? || a.RunOn? || a.Poll?
    ensures LifeOk(Next(s, a))
  {
    var t := Next(s, a);
    forall u: nat | u < |t.workers| ensures WorkerOk(t, u) { assert WorkerOk(s, u); }
    forall id: nat | id < |t.events| ensures ProgressOk(t, id) && RefsOk(t, id) {
      assert ProgressOk(s, id) && RefsOk(s, id);
      assert Held(s, id) == Held(t, id);
    }
  }

  /** What becomes of the execution: nothing, or one step of it. */
  ghost function Part(s: State, a: Action): (x: Option<X.Action>)
    requires Enabled(s, a)
  {
    match a
    case Serve(c) => Some(X.Begin(0, X.Direct(|s.directs|), c))
    case ServeOn => Some(X.Advance(0))
    case ServeEnd => Some(X.End(0))
    case Start(w) => Some(X.Begin(w + 1, X.Queued(s.workers[w].id), s.events[s.workers[w].id].cmd))
    case RunOn(w) => Some(X.Advance(w + 1))
    case Finish(w) => Some(X.End(w + 1))
    case _ => None
  }

  lemma ExecPart(s: State, a: Action)
    requires Enabled(s, a)
    ensures var x := Part(s, a);
      if x.None? then Next(s, a).exec == s.exec
      else X.Enabled(s.exec, x.value) && Next(s, a).exec == X.Next(s.exec, x.value)
  {
  }

  lemma IdleExec(s: State, a: Action)
    requires LifeOk(s) && ExecOk(s) && Enabled(s, a) && Part(s, a).None?
    ensures ExecOk(Next(s, a))
  {
    var t := Next(s, a);
    assert t.exec == s.exec && t.directs == s.directs;
    forall w: nat | w < |t.workers| ensures AgentOk(t, w) { assert AgentOk(s, w); }
    forall j ensures JobOk(t, j) { assert JobOk(s, j); }
  }

  lemma WorkExec(s: State, a: Action)
    requires LifeOk(s) && ExecOk(s) && Enabled(s, a) && (a.Start? || a.RunOn? || a.Finish?)
    ensures ExecOk(Next(s, a))
  {
    var t := Next(s, a);
    ExecPart(s, a);
    S.LockStep(s.exec, Part(s, a).value);
    assert AgentOk(s, a.w) && WorkerOk(s, a.w);
    var id := s.workers[a.w].id;
    assert ProgressOk(s, id) && Has(s.workers[a.w], id);
    forall w: nat | w < |t.workers| ensures AgentOk(t, w) { assert AgentOk(s, w); }
    forall j ensures JobOk(t, j) { assert JobOk(s, j); }
  }

  lemma ServeExec(s: State, a: Action)
    requires LifeOk(s) && ExecOk(s) && Enabled(s, a) && (a.Serve? || a.ServeOn? || a.ServeEnd?)
    ensures ExecOk(Next(s, a))
  {
    var t := Next(s, a);
    ExecPart(s, a);
    S.LockStep(s.exec, Part(s, a).value);
    forall w: nat | w < |t.workers| ensures AgentOk(t, w) { assert AgentOk(s, w); }
    forall j ensures JobOk(t, j) { assert JobOk(s, j); }
  }

  lemma InvStep(s: State, t: State)
    requires Inv(s) && Step(s, t)
    ensures Inv(t)
  {
    var a :| Enabled(s, a) && t == Next(s, a);
    if a.Front? || a.Pop? {
      DequeueStep(s, a);
    } else if a.Start? || a.Finish? || a.Drop? {
      ExecuteStep(s, a);
    } else if a.Make? || a.Convert? || a.Push? || a.DropCopy? || a.Return? {
      HandlerStep(s, a);
    } else {
      ServeStep(s, a);
    }
    if a.Start? || a.RunOn? || a.Finish? {
      WorkExec(s, a);
    } else if a.Serve? || a.ServeOn? || a.ServeEnd? {
      ServeExec(s, a);
    } else {
      IdleExec(s, a);
    }
  }

  lemma InitInv(s: State)
    requires Init(s)
    ensures Inv(s)
  {
    forall w: nat | w < |s.workers| ensures AgentOk(s, w) && WorkerOk(s, w) { }
    forall j ensures JobOk(s, j) { }
  }

  lemma {:induction false} RunInv(run: seq<State>, n: nat)
    requires Run(run) && n < |run|
    ensures Inv(run[n])
  {
    if n == 0 {
      InitInv(run[0]);
    } else {
      RunInv(run, n - 1);
      assert Step(run[n - 1], run[n - 1 + 1]);
      InvStep(run[n - 1], run[n]);
    }
  }

  // ---------------------------------------------------------------------------
  // Main results, for any number of workers

  /** First in, first out: events are numbered as they are made, and at any point those
      popped, then those waiting, are all that were queued, in that order. */
  lemma FirstInFirstOut(run: seq<State>, n: nat)
    requires Run(run) && n < |run|
    ensures |run[n].taken + run[n].queue| == Queued(run[n])
    ensures forall i: nat :: i < Queued(run[n]) ==> (run[n].taken + run[n].queue)[i] == i
  {
    RunInv(run, n);
  }

  /** Each event is executed at most once, and replies once, when it is through. */
  lemma ExecutedOnce(run: seq<State>, n: nat, id: nat)
    requires Run(run) && n < |run| && id < |run[n].events|
    ensures |run[n].events[id].replies| <= run[n].events[id].started <= 1
  {
    RunInv(run, n);
    assert ProgressOk(run[n], id);
  }

  /** Somebody still has a pointer to the event. */
  ghost predicate Referenced(s: State, id: nat) {
    HandlerRefs(s.handler, id) > 0 || id in s.queue || Held(s, id)
  }

  /** The destructor runs at most once; it has run exactly when nobody has a pointer to
      the event any more, and then execute has finished and its reply is out. */
  lemma UnblockedOnce(run: seq<State>, n: nat, id: nat)
    requires Run(run) && n < |run| && id < |run[n].events|
    ensures run[n].events[id].unblocked == if Referenced(run[n], id) then 0 else 1
    ensures run[n].events[id].unblocked == 1 ==> |run[n].events[id].replies| == 1
  {
    var s := run[n];
    RunInv(run, n);
    assert ProgressOk(s, id) && RefsOk(s, id);
    if |s.taken| <= id < Queued(s) { assert s.queue[id - |s.taken|] == id; }
  }

  /** Nothing is under way. */
  ghost predicate Quiet(s: State) {
    s.handler.Idle? && s.queue == [] && forall w: nat :: w < |s.workers| ==> s.workers[w].Polling?
  }

  /** Once nothing is under way, every queued command has been executed once, answered once
      and its client unblocked once. */
  lemma QuietIsComplete(run: seq<State>, n: nat, id: nat)
    requires Run(run) && n < |run| && Quiet(run[n]) && id < |run[n].events|
    ensures var e := run[n].events[id];
            e.started == 1 && |e.replies| == 1 && e.unblocked == 1 && e.refs == 0
  {
    RunInv(run, n);
    assert ProgressOk(run[n], id) && RefsOk(run[n], id);
  }

  // ---------------------------------------------------------------------------
  // Progress

  /** An access brings a command nearer to its answer. */
  function PcLeft(pc: X.Pc): (n: nat) {
    match pc
    case Enter => 10
    case Acquire => 9
    case Open => 8
    case Leave(_) => 7
    case Check(_) => 6
    case Bind => 5
    case Destroy(_) => 4
    case Look(_, _) => 4
    case Unbind => 3
    case Relink(_, _, _, _) => 3
    case Walk(_, _) => 3
    case Apply(_) => 3
    case Release(_) => 2
    case Answer(_) => 1
  }

  function AgentLeft(g: X.Agent): (n: nat) {
    if g.Busy? then PcLeft(g.pc) else 0
  }

  function WorkerLeft(k: Worker): (n: nat) {
    match k
    case Polling => 0
    case Copied(_) => 14
    case Holding(_) => 13
    case Running(_) => 2
    case Finished(_) => 1
  }

  function HandlerLeft(h: Handler): (n: nat) {
    match h
    case Idle => 0
    case Made(_) => 19
    case Converted(_) => 18
    case Pushed(_) => 2
    case Returning(_) => 1
    case Serving(_) => 1
  }

  function WorkersLeft(ks: seq<Worker>): (n: nat) {
    if ks == [] then 0 else WorkerLeft(ks[0]) + WorkersLeft(ks[1..])
  }

  function AgentsLeft(gs: seq<X.Agent>): (n: nat) {
    if gs == [] then 0 else AgentLeft(gs[0]) + AgentsLeft(gs[1..])
  }

  lemma {:induction false} WorkersLeftUpdate(ks: seq<Worker>, w: nat, k: Worker)
    requires w < |ks|
    ensures WorkersLeft(ks[w := k]) == WorkersLeft(ks) - WorkerLeft(ks[w]) + WorkerLeft(k)
  {
    if w > 0 {
      WorkersLeftUpdate(ks[1..], w - 1, k);
      assert ks[w := k][1..] == ks[1..][w - 1 := k];
    } else {
      assert ks[w := k][1..] == ks[1..];
    }
  }

  lemma {:induction false} AgentsLeftUpdate(gs: seq<X.Agent>, i: nat, g: X.Agent)
    requires i < |gs|
    ensures AgentsLeft(gs[i := g]) == AgentsLeft(gs) - AgentLeft(gs[i]) + AgentLeft(g)
  {
    if i > 0 {
      AgentsLeftUpdate(gs[1..], i - 1, g);
      assert gs[i := g][1..] == gs[1..][i - 1 := g];
    } else {
      assert gs[i := g][1..] == gs[1..];
    }
  }

  lemma {:induction false} NoneLeft(ks: seq<Worker>)
    ensures WorkersLeft(ks) == 0 <==> forall w: nat :: w < |ks| ==> ks[w].Polling?
  {
    if ks != [] {
      NoneLeft(ks[1..]);
      assert ks == [ks[0]] + ks[1..];
    }
  }

  lemma {:induction false} NoneBusy(gs: seq<X.Agent>)
    requires forall i: nat :: i < |gs| ==> gs[i].Idle?
    ensures AgentsLeft(gs) == 0
  {
    if gs != [] { NoneBusy(gs[1..]); }
  }

  /** A bound on the steps still to be taken for the commands already made. */
  function Work(s: State): (n: int) {
    HandlerLeft(s.handler) + WorkersLeft(s.workers) + AgentsLeft(s.exec.agents)
    + 15 * (if s.mutex.Some? then |s.queue| - 1 else |s.queue|)
  }

  lemma AccessWorks(m: X.Memory, server: bool, c: C.Command, pc: X.Pc)
    requires !pc.Answer?
    ensures PcLeft(X.Do(m, server, c, pc).pc) < PcLeft(pc)
  {
  }

  lemma ExecWorks(s: X.State, x: X.Action)
    requires X.Enabled(s, x)
    ensures var t := X.Next(s, x);
      && (x.Begin? ==> AgentsLeft(t.agents) == AgentsLeft(s.agents) + 10)
      && (x.Advance? ==> AgentsLeft(t.agents) < AgentsLeft(s.agents))
      && (x.End? ==> AgentsLeft(t.agents) == AgentsLeft(s.agents) - 1)
  {
    var g := s.agents[x.agent];
    if x.Advance? { AccessWorks(s.mem, x.agent == 0, g.cmd, g.pc); }
    AgentsLeftUpdate(s.agents, x.agent, X.Next(s, x).agents[x.agent]);
  }

  /** Every step but the making of a command and the poll of an empty queue leaves less to do. */
  lemma StepWorks(s: State, a: Action)
    requires Inv(s) && Enabled(s, a)
    ensures a.Poll? ==> Work(Next(s, a)) == Work(s)
    ensures !a.Poll? && !a.Make? && !a.Serve? ==> Work(Next(s, a)) < Work(s)
  {
    if Part(s, a).Some? { ExecStepWorks(s, a); } else { QueueStepWorks(s, a); }
  }

  lemma ExecStepWorks(s: State, a: Action)
    requires Inv(s) && Enabled(s, a) && Part(s, a).Some?
    ensures !a.Serve? ==> Work(Next(s, a)) < Work(s)
  {
    ExecPart(s, a);
    ExecWorks(s.exec, Part(s, a).value);
    match a
    case Start(w) => WorkersLeftUpdate(s.workers, w, Running(s.workers[w].id));
    case Finish(w) => WorkersLeftUpdate(s.workers, w, Finished(s.workers[w].id));
    case _ =>
  }

  lemma QueueStepWorks(s: State, a: Action)
    requires Inv(s) && Enabled(s, a) && Part(s, a).None?
    ensures a.Poll? ==> Work(Next(s, a)) == Work(s)
    ensures !a.Poll? && !a.Make? ==> Work(Next(s, a)) < Work(s)
  {
    match a
    case Front(w) => WorkersLeftUpdate(s.workers, w, Copied(s.queue[0]));
    case Pop(w) => assert WorkerOk(s, w); WorkersLeftUpdate(s.workers, w, Holding(s.workers[w].id));
    case Drop(w) => WorkersLeftUpdate(s.workers, w, Polling);
    case _ =>
  }

  lemma {:induction false} MutexHasOwner(run: seq<State>, n: nat)
    requires Run(run) && n < |run| && run[n].mutex.Some?
    ensures run[n].mutex.value < |run[n].workers| && run[n].workers[run[n].mutex.value].Copied?
    ensures run[n].queue != []
  {
    if n > 0 {
      assert Step(run[n - 1], run[n - 1 + 1]);
      RunInv(run, n);
      if run[n - 1].mutex.Some? { MutexHasOwner(run, n - 1); }
      assert run[n].mutex.value < |run[n].workers|;
      assert WorkerOk(run[n], run[n].mutex.value);
    }
  }

  /** The thread that has the module lock can go on. */
  lemma LockGoesOn(s: State) returns (a: Action)
    requires Inv(s) && s.exec.lock.Some?
    ensures Enabled(s, a) && !a.Make? && !a.Poll? && !a.Serve?
  {
    var i := s.exec.lock.value;
    var g := s.exec.agents[i];
    assert S.HasLock(i, g) && S.KindOk(i, g);
    if i == 0 {
      a := if g.pc.Answer? then ServeEnd else ServeOn;
    } else {
      assert AgentOk(s, i - 1);
      a := RunOn(i - 1);
    }
  }

  lemma WorkerGoesOn(s: State, w: nat) returns (a: Action)
    requires Inv(s) && s.exec.lock.None? && s.mutex.None? && w < |s.workers| && !s.workers[w].Polling?
    ensures Enabled(s, a) && !a.Make? && !a.Poll? && !a.Serve?
  {
    assert AgentOk(s, w) && WorkerOk(s, w);
    var id := s.workers[w].id;
    assert ProgressOk(s, id) && Has(s.workers[w], id) && JobOk(s, X.Queued(id));
    a := match s.workers[w]
      case Holding(_) => Start(w)
      case Running(_) => if s.exec.agents[w + 1].pc.Answer? then Finish(w) else RunOn(w)
      case _ => Drop(w);
  }

  lemma Useful(run: seq<State>, n: nat) returns (a: Action)
    requires Run(run) && n < |run| && run[n].workers != [] && !Quiet(run[n])
    ensures Enabled(run[n], a) && !a.Make? && !a.Poll? && !a.Serve?
  {
    var s := run[n];
    RunInv(run, n);
    if s.mutex.Some? {
      MutexHasOwner(run, n);
      a := Pop(s.mutex.value);
    } else if s.exec.lock.Some? {
      a := LockGoesOn(s);
    } else if w: nat :| w < |s.workers| && !s.workers[w].Polling? {
      a := WorkerGoesOn(s, w);
    } else if s.queue != [] {
      a := Front(0);
    } else {
      assert S.HasLock(0, s.exec.agents[0]) ==> s.exec.lock == Some(0);
      a := match s.handler
        case Made(_) => Convert
        case Converted(_) => Push
        case Pushed(_) => DropCopy
        case _ => Return;
    }
  }

  /** With at least one worker, until nothing is under way some thread can take a step that
      leaves less to do; so every command is answered after finitely many of them, whatever
      waits for the lock. */
  lemma NeverStuck(run: seq<State>, n: nat)
    requires Run(run) && n < |run| && run[n].workers != []
    ensures Work(run[n]) >= 0 && (Work(run[n]) == 0 <==> Quiet(run[n]))
    ensures Quiet(run[n]) || exists a :: Enabled(run[n], a) && Work(Next(run[n], a)) < Work(run[n])
  {
    var s := run[n];
    RunInv(run, n);
    NoneLeft(s.workers);
    if s.mutex.Some? { MutexHasOwner(run, n); }
    if Quiet(s) {
      forall i: nat | i < |s.exec.agents| ensures s.exec.agents[i].Idle? {
        if i > 0 { assert AgentOk(s, i - 1); }
      }
      NoneBusy(s.exec.agents);
    } else {
      var a := Useful(run, n);
      StepWorks(s, a);
    }
  }

  // ---------------------------------------------------------------------------
  // What the commands did

  lemma {:induction false} ExecInv(run: seq<State>, n: nat)
    requires Run(run) && n < |run| && forall i: nat :: i < n ==> S.NoClash(run[i].exec)
    ensures S.Inv(X.View(run[0].exec.mem), run[n].exec)
  {
    if n == 0 {
      S.InitInv(run[0].exec);
    } else {
      var s := run[n - 1];
      ExecInv(run, n - 1);
      assert Step(run[n - 1], run[n - 1 + 1]);
      var a :| Enabled(s, a) && run[n] == Next(s, a);
      ExecPart(s, a);
      if Part(s, a).Some? {
        assert X.Step(s.exec, run[n].exec);
        S.InvStep(X.View(run[0].exec.mem), s.exec, run[n].exec);
      }
    }
  }

  /** For any number of workers and for commands of the sequential handler beside them: as long
      as no two commands under way conflict (ExecutionSerial.Conflict, which is the exact
      condition by ExecutionConflict.MayOverlapIff), nothing freed is touched, the key space is
      that of the decided commands executed one after the other, and so is every reply sent. */
  lemma Serializable(run: seq<State>, n: nat)
    requires Run(run) && n < |run| && forall i: nat :: i < n ==> S.NoClash(run[i].exec)
    ensures S.Serial(X.View(run[0].exec.mem), run[n].exec)
    ensures forall id: nat :: id < |run[n].events| && run[n].events[id].replies != [] ==>
              exists i: nat :: i < |run[n].exec.log| && run[n].exec.log[i].job == X.Queued(id)
                               && run[n].events[id].replies == [run[n].exec.log[i].reply]
    ensures forall d: nat :: d < |run[n].directs| && run[n].directs[d].replies != [] ==>
              exists i: nat :: i < |run[n].exec.log| && run[n].exec.log[i].job == X.Direct(d)
                               && run[n].directs[d].replies == [run[n].exec.log[i].reply]
  {
    var s := run[n];
    ExecInv(run, n);
    RunInv(run, n);
    forall id: nat | id < |s.events| && s.events[id].replies != []
      ensures exists i: nat :: i < |s.exec.log| && s.exec.log[i].job == X.Queued(id)
                               && s.events[id].replies == [s.exec.log[i].reply]
    {
      assert JobOk(s, X.Queued(id)) && S.SaidOk(s.exec, X.Queued(id));
    }
    forall d: nat | d < |s.directs| && s.directs[d].replies != []
      ensures exists i: nat :: i < |s.exec.log| && s.exec.log[i].job == X.Direct(d)
                               && s.directs[d].replies == [s.exec.log[i].reply]
    {
      assert JobOk(s, X.Direct(d)) && S.SaidOk(s.exec, X.Direct(d));
    }
  }

  /** One worker, and nothing run by the sequential handler: commands never overlap. */
  lemma AloneNoClash(run: seq<State>, n: nat)
    requires Run(run) && n < |run| && |run[n].workers| == 1 && run[n].directs == []
    ensures S.NoClash(run[n].exec)
  {
    RunInv(run, n);
  }

  lemma {:induction false} SameWorkers(run: seq<State>, n: nat, m: nat)
    requires Run(run) && n <= m < |run|
    ensures |run[n].workers| == |run[m].workers| && |run[n].directs| <= |run[m].directs|
  {
    if n < m {
      SameWorkers(run, n, m - 1);
      assert Step(run[m - 1], run[m - 1 + 1]);
    }
  }

  /** The worker has taken an event that is not decided yet. */
  predicate Undecided(s: State)
    requires |s.workers| == 1 && |s.exec.agents| == 2
  {
    s.workers[0].Holding? || (s.workers[0].Running? && s.exec.agents[1].Busy? && S.Decided(s.exec.agents[1].pc).None?)
  }

  /** One worker executes in the order of the queue. */
  ghost predicate InOrder(s: State) {
    && |s.workers| == 1 && |s.exec.agents| == 2
    && |s.exec.log| == |s.taken| - (if Undecided(s) then 1 else 0)
    && (s.workers[0].Holding? || s.workers[0].Running? ==> s.workers[0].id == |s.taken| - 1)
    && |s.exec.log| <= |s.events|
    && forall i: nat :: i < |s.exec.log| ==> s.exec.log[i].job == X.Queued(i) && s.exec.log[i].cmd == s.events[i].cmd
  }

  lemma InOrderStep(s: State, a: Action)
    requires Inv(s) && S.ShapeOk(s.exec) && InOrder(s) && Enabled(s, a) && Next(s, a).directs == []
    ensures InOrder(Next(s, a))
  {
    assert WorkerOk(s, 0) && AgentOk(s, 0);
    if a.RunOn? {
      InOrderAccess(s, a);
    } else if a.Start? || a.Finish? {
      InOrderEdge(s, a);
    }
  }

  lemma InOrderEdge(s: State, a: Action)
    requires Inv(s) && InOrder(s) && Enabled(s, a) && (a.Start? || a.Finish?)
    ensures InOrder(Next(s, a))
  {
    assert WorkerOk(s, 0) && AgentOk(s, 0);
  }

  lemma InOrderAccess(s: State, a: Action)
    requires Inv(s) && S.ShapeOk(s.exec) && InOrder(s) && Enabled(s, a) && a.RunOn?
    ensures InOrder(Next(s, a))
  {
    assert WorkerOk(s, 0) && AgentOk(s, 0);
    var g := s.exec.agents[1];
    assert S.PcOk(s.exec.mem, g.cmd, g.pc);
    S.DecidedOnce(s.exec.mem, false, g.cmd, g.pc);
  }

  lemma {:induction false} OneWorkerInOrder(run: seq<State>, n: nat)
    requires Run(run) && n < |run| && |run[n].workers| == 1 && run[n].directs == []
    ensures InOrder(run[n])
    ensures forall i: nat :: i <= n ==> S.NoClash(run[i].exec)
  {
    forall i: nat | i <= n ensures S.NoClash(run[i].exec) {
      SameWorkers(run, i, n);
      AloneNoClash(run, i);
    }
    if n > 0 {
      SameWorkers(run, n - 1, n);
      OneWorkerInOrder(run, n - 1);
      RunInv(run, n - 1);
      ExecInv(run, n - 1);
      assert Step(run[n - 1], run[n - 1 + 1]);
      var a :| Enabled(run[n - 1], a) && run[n] == Next(run[n - 1], a);
      InOrderStep(run[n - 1], a);
    }
  }

  /** The commands made so far, in order. */
  ghost function Commands(s: State): (cs: seq<C.Command>) {
    seq(|s.events|, i requires 0 <= i < |s.events| => s.events[i].cmd)
  }

  /** The module as built, with one worker, as long as the sequential handler is not used: once
      drained, the queue has left the key space and given each client the one reply that
      executing the commands directly, one after the other, would have; and nothing freed was
      touched. */
  lemma DrainedIsSequential(run: seq<State>, n: nat)
    requires Run(run) && n < |run| && |run[n].workers| == 1 && run[n].directs == [] && Quiet(run[n])
    ensures var s, v := run[n], X.View(run[0].exec.mem);
            && !s.exec.broken
            && X.View(s.exec.mem) == C.Run(v, Commands(s))
            && forall id: nat :: id < |s.events| ==>
                 s.events[id].replies == [C.ReplyTo(v, Commands(s), id)]
  {
    var s, v := run[n], X.View(run[0].exec.mem);
    RunInv(run, n);
    OneWorkerInOrder(run, n);
    ExecInv(run, n);
    assert S.Commands(s.exec.log) == Commands(s);
    forall id: nat | id < |s.events| ensures s.events[id].replies == [C.ReplyTo(v, Commands(s), id)] {
      QuietIsComplete(run, n, id);
      assert JobOk(s, X.Queued(id)) && S.SaidOk(s.exec, X.Queued(id));
      assert s.exec.log[id].reply == C.ReplyTo(v, S.Commands(s.exec.log), id);
    }
  }

  // ---------------------------------------------------------------------------
  // The same, in place

  class Queue {
    var events: seq<C.Command>

    constructor ()
      ensures events == []
    {
      events := [];
    }

    method Enqueue(c: C.Command)
      modifies this
      ensures events == old(events) + [c]
    {
      events := events + [c];
    }

    method Dequeue() returns (c: Option<C.Command>)
      modifies this
      ensures c == if old(events) == [] then None else Some(old(events)[0])
      ensures events == if old(events) == [] then [] else old(events)[1..]
    {
      if events != [] {
        c := Some(events[0]);
        events := events[1..];
      } else {
        c := None;
      }
    }

    /** The worker's loop, until the queue is empty: what it does to the server is what
        running the queued commands directly does (Commands.RunSequentially). */
    method Drain(s: C.Server)
      requires C.Owned(s.world) && !s.locked
      modifies this, s
      ensures events == []
      ensures C.Owned(s.world) && !s.locked
      ensures C.View(s.world) == C.Run(C.View(old(s.world)), old(events))
      ensures |s.replies| == |old(s.replies)| + |old(events)|
      ensures s.replies[..|old(s.replies)|] == old(s.replies)
      ensures forall i: nat :: i < |old(events)| ==>
                s.replies[|old(s.replies)| + i] == C.ReplyTo(C.View(old(s.world)), old(events), i)
    {
      ghost var v, rs, cs, n := C.View(s.world), s.replies, events, 0;
      assert cs[..0] == [];
      var c := Dequeue();
      while c.Some?
        invariant n <= |cs|
        invariant if n < |cs| then c == Some(cs[n]) && events == cs[n + 1..] else c.None? && events == []
        invariant C.Owned(s.world) && !s.locked
        invariant C.View(s.world) == C.Run(v, cs[..n])
        invariant |s.replies| == |rs| + n && s.replies[..|rs|] == rs
        invariant forall i: nat :: i < n ==> s.replies[|rs| + i] == C.ReplyTo(v, cs, i)
        decreases |cs| - n
      {
        s.Execute(c.value, false);
        assert cs[..n + 1][..n] == cs[..n];
        c := Dequeue();
        n := n + 1;
      }
      assert cs[..n] == cs;
    }
  }
}

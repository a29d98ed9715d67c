/** Commands executed by several threads at once: execute, broken up into the accesses that the
    code makes to what the threads share (src/llca.cpp, src/skip_list.cpp).

    Agent 0 is the server's own thread, which runs the commands of the sequential handler and holds
    the module lock all the while; the other agents are the workers. A key handle remembers what
    its key was bound to when it was opened. One operation of the skip list is one access. A list
    operation reads its place among the cells, then relinks them; llca_contains loads the first
    cell, then walks on from it. Reaching into an object or a cell that has been freed is recorded
    in `broken`. */
module Execution {
  import C = Commands
  import opened Common

  // ---------------------------------------------------------------------------
  // Shared memory

  datatype Cell = Cell(id: nat, value: int)

  /** A set, or a list: its cells in link order, the cells freed so far, the next cell to be
      allocated. `due` is history only: the value of an insert that has bound a new list and is
      still to link its cell. */
  datatype Object =
    | SetObj(elements: set<int>)
    | ListObj(chain: seq<Cell>, freed: set<nat>, next: nat, due: Option<int>)

  /** `gone` are the objects freed so far; a freed object keeps its last contents. */
  datatype Memory = Memory(keys: map<string, C.Entry>, objects: map<nat, Object>, gone: set<nat>, next: nat)

  const NEW_LIST := ListObj([], {}, 0, None)

  function BagOf(chain: seq<Cell>): (b: multiset<int>) {
    if chain == [] then multiset{} else multiset{chain[0].value} + BagOf(chain[1..])
  }

  function DueBag(due: Option<int>): (b: multiset<int>) {
    match due case None => multiset{} case Some(x) => multiset{x}
  }

  function ValueOf(m: Memory, e: C.Entry): (v: C.Value) {
    if e.Foreign? || e.obj !in m.objects then C.Other
    else match m.objects[e.obj]
      case SetObj(s) => C.Ints(s)
      case ListObj(chain, _, _, due) => C.Bag(BagOf(chain) + DueBag(due))
  }

  /** The key space as the commands mean it, counting what is due as there. */
  function View(m: Memory): (v: C.KeySpace) {
    map k | k in m.keys :: ValueOf(m, m.keys[k])
  }

  // ---------------------------------------------------------------------------
  // Places in a chain

  /** The first position whose value is not smaller than `x`. */
  function Place(chain: seq<Cell>, x: int): (k: nat)
    ensures k <= |chain|
  {
    if chain == [] || chain[0].value >= x then 0 else 1 + Place(chain[1..], x)
  }

  /** The first position of `x`, or the end. */
  function Find(chain: seq<Cell>, x: int): (k: nat)
    ensures k <= |chain|
    ensures k < |chain| ==> chain[k].value == x
  {
    if chain == [] || chain[0].value == x then 0 else 1 + Find(chain[1..], x)
  }

  function IndexOf(chain: seq<Cell>, id: nat): (k: nat)
    ensures k <= |chain|
    ensures k < |chain| ==> chain[k].id == id
  {
    if chain == [] || chain[0].id == id then 0 else 1 + IndexOf(chain[1..], id)
  }

  function Before(chain: seq<Cell>, k: nat): (id: Option<nat>)
    requires k <= |chain|
  {
    if k == 0 then None else Some(chain[k - 1].id)
  }

  function From(chain: seq<Cell>, k: nat): (id: Option<nat>) {
    if k < |chain| then Some(chain[k].id) else None
  }

  /** The chain as far as cell `prev`: what stays when that cell, or the head, is relinked. */
  function Front(chain: seq<Cell>, prev: Option<nat>): (s: seq<Cell>) {
    match prev
    case None => []
    case Some(id) => var k := IndexOf(chain, id); if k < |chain| then chain[..k + 1] else chain
  }

  /** The chain from cell `at` on: what that cell leads to. */
  function Back(chain: seq<Cell>, at: Option<nat>): (s: seq<Cell>) {
    match at
    case None => []
    case Some(id) => chain[IndexOf(chain, id)..]
  }

  predicate Dangles(freed: set<nat>, id: Option<nat>) {
    id.Some? && id.value in freed
  }

  // ---------------------------------------------------------------------------
  // Commands

  predicate SetOp(c: C.Command) { c.verb.SetInsert? || c.verb.SetRemove? || c.verb.SetContains? }

  predicate ListOp(c: C.Command) { c.verb.ListInsert? || c.verb.ListRemove? || c.verb.ListContains? }

  /** The number of arguments is right, so that argv[1] is the key. */
  predicate Proper(c: C.Command) {
    |c.argv| == if c.verb.SetCreate? || c.verb.SetDelete? then 2 else 3
  }

  predicate HasNumber(c: C.Command) {
    |c.argv| == 3 && c.argv[2].number.Some?
  }

  function Key(c: C.Command): (k: string) {
    if |c.argv| > 1 then c.argv[1].text else ""
  }

  function Number(c: C.Command): (x: int) {
    if HasNumber(c) then c.argv[2].number.value else 0
  }

  // ---------------------------------------------------------------------------
  // The accesses of one command

  /** What a list command finds when it opens its key. */
  datatype Handle = Told(reply: C.Reply) | Missing | Found(obj: nat)

  /** Where a command stands. */
  datatype Pc =
    | Enter                          // about to look at its arguments
    | Acquire                        // waits for the lock
    | Open                           // about to open its key
    | Leave(handle: Handle)          // list commands: about to give the lock back
    | Check(obj: nat)                // list commands: about to read the type through the handle
    | Bind                           // about to bind its key to a new object
    | Destroy(obj: nat)              // delete: about to free the object
    | Unbind                         // delete: about to delete the key
    | Apply(obj: nat)                // about to call the skip list
    | Look(obj: nat, made: bool)     // about to read the cells; `made` if it bound the list itself
    | Relink(obj: nat, prev: Option<nat>, at: Option<nat>, made: bool)
    | Walk(obj: nat, cell: nat)      // contains: stands on a cell
    | Release(reply: C.Reply)        // create and delete: about to give the lock back
    | Answer(reply: C.Reply)         // about to reply

  /** What an access does: `commit` is the answer, at the access that decides it. */
  datatype Effect = Effect(mem: Memory, pc: Pc, commit: Option<C.Reply>, bad: bool)

  function Says(m: Memory, pc: Pc, r: C.Reply): (e: Effect) { Effect(m, pc, Some(r), false) }

  function Goes(m: Memory, pc: Pc): (e: Effect) { Effect(m, pc, None, false) }

  function Do(m: Memory, server: bool, c: C.Command, pc: Pc): (e: Effect) {
    match pc
    case Enter =>
      if !Proper(c) then Says(m, Answer(C.BadArity), C.BadArity)
      else if SetOp(c) && !HasNumber(c) then Says(m, Answer(C.BadNumber), C.BadNumber)
      else Goes(m, if SetOp(c) || server then Open else Acquire)
    case Acquire => Goes(m, Open)
    case Open => DoOpen(m, c)
    case Leave(h) =>
      Goes(m, match h case Told(r) => Answer(r) case Missing => Bind case Found(o) => Check(o))
    case Check(o) =>
      var e :=
        if o !in m.objects || !m.objects[o].ListObj? then Says(m, Answer(C.WrongType), C.WrongType)
        else if !HasNumber(c) then Says(m, Answer(C.BadNumber), C.BadNumber)
        else Goes(m, Look(o, false));
      e.(bad := o in m.gone)
    case Bind => DoBind(m, c)
    case Destroy(o) => Effect(m.(gone := m.gone + {o}), Unbind, None, o in m.gone)
    case Unbind => Says(m.(keys := m.keys - {Key(c)}), Release(C.OK), C.OK)
    case Apply(o) => DoApply(m, c, o)
    case Look(o, made) => DoLook(m, c, o, made)
    case Relink(o, prev, at, made) => DoRelink(m, c, o, prev, at, made)
    case Walk(o, cell) => DoWalk(m, c, o, cell)
    case Release(r) => Goes(m, Answer(r))
    case Answer(r) => Goes(m, pc)
  }

  function DoOpen(m: Memory, c: C.Command): (e: Effect) {
    var k := Key(c);
    var v := if k in m.keys then Some(ValueOf(m, m.keys[k])) else None;
    match c.verb
    case SetCreate => if v.Some? then Says(m, Release(C.KeyExists), C.KeyExists) else Goes(m, Bind)
    case SetDelete =>
      if v.None? then Says(m, Release(C.NoKey), C.NoKey)
      else if !v.value.Ints? then Says(m, Release(C.WrongType), C.WrongType)
      else Goes(m, Destroy(ObjAt(m, k)))
    case _ =>
      if SetOp(c) then
        if v.None? then Says(m, Answer(C.NoList), C.NoList)
        else if !v.value.Ints? then Says(m, Answer(C.WrongType), C.WrongType)
        else Goes(m, Apply(ObjAt(m, k)))
      else
        if v.None? then
          if !HasNumber(c) then Says(m, Leave(Told(C.BadNumber)), C.BadNumber)
          else if !c.verb.ListInsert? then Says(m, Leave(Told(C.NoList)), C.NoList)
          else Goes(m, Leave(Missing))
        else if v.value.Other? then Says(m, Leave(Told(C.WrongType)), C.WrongType)
        else Goes(m, Leave(Found(ObjAt(m, k))))
  }

  function ObjAt(m: Memory, k: string): (o: nat) {
    if k in m.keys && m.keys[k].At? then m.keys[k].obj else 0
  }

  /** Allocation of an object and RedisModule_ModuleTypeSetValue, which replaces what is there. */
  function DoBind(m: Memory, c: C.Command): (e: Effect) {
    var k, o := Key(c), m.next;
    if c.verb.ListInsert? then
      Says(Memory(m.keys[k := C.At(o)], m.objects[o := NEW_LIST.(due := Some(Number(c)))], m.gone, o + 1),
           Look(o, true), C.Success)
    else
      Says(Memory(m.keys[k := C.At(o)], m.objects[o := SetObj({})], m.gone, o + 1), Release(C.OK), C.OK)
  }

  function DoApply(m: Memory, c: C.Command, o: nat): (e: Effect) {
    var s := if o in m.objects && m.objects[o].SetObj? then m.objects[o].elements else {};
    var x := Number(c);
    var r :=
      if c.verb.SetInsert? then (if x in s then C.ValueExists else C.OK)
      else if x in s then C.OK else C.NoValue;
    var t := if c.verb.SetInsert? then s + {x} else if c.verb.SetRemove? then s - {x} else s;
    Effect(m.(objects := m.objects[o := SetObj(t)]), Answer(r), Some(r), o in m.gone)
  }

  function ListAt(m: Memory, o: nat): (l: Object)
    ensures l.ListObj?
  {
    if o in m.objects && m.objects[o].ListObj? then m.objects[o] else NEW_LIST
  }

  function DoLook(m: Memory, c: C.Command, o: nat, made: bool): (e: Effect) {
    var chain, x := ListAt(m, o).chain, Number(c);
    var e :=
      if c.verb.ListInsert? then
        var k := Place(chain, x);
        Goes(m, Relink(o, Before(chain, k), From(chain, k), made))
      else if c.verb.ListRemove? then
        var k := Find(chain, x);
        if k == |chain| then Says(m, Answer(C.Failure), C.Failure)
        else Goes(m, Relink(o, Before(chain, k), From(chain, k), made))
      else if chain == [] then Says(m, Answer(C.Absent), C.Absent)
      else Goes(m, Walk(o, chain[0].id));
    e.(bad := o in m.gone)
  }

  /** The cells as relinked: an insert puts a new cell between `prev` and `at`, a remove takes the
      cell `at` out behind `prev` and frees it. Cells that came between since are lost. */
  function Relinked(l: Object, c: C.Command, prev: Option<nat>, at: Option<nat>): (t: Object)
    requires l.ListObj?
    ensures t.ListObj?
  {
    if c.verb.ListInsert? then
      l.(chain := Front(l.chain, prev) + [Cell(l.next, Number(c))] + Back(l.chain, at), next := l.next + 1)
    else
      var rest := Back(l.chain, at);
      l.(chain := Front(l.chain, prev) + (if rest == [] then [] else rest[1..]),
         freed := if at.Some? then l.freed + {at.value} else l.freed)
  }

  function DoRelink(m: Memory, c: C.Command, o: nat, prev: Option<nat>, at: Option<nat>, made: bool): (e: Effect) {
    var l := ListAt(m, o);
    var t := Relinked(l, c, prev, at);
    var m' := m.(objects := m.objects[o := if made then t.(due := None) else t]);
    Effect(m', Answer(C.Success), if made then None else Some(C.Success),
           o in m.gone || Dangles(l.freed, prev) || Dangles(l.freed, at))
  }

  function DoWalk(m: Memory, c: C.Command, o: nat, cell: nat): (e: Effect) {
    var l := ListAt(m, o);
    var ahead := Back(l.chain, Some(cell));
    var r := if Find(ahead, Number(c)) < |ahead| then C.Present else C.Absent;
    Effect(m, Answer(r), Some(r), o in m.gone || cell in l.freed)
  }

  // ---------------------------------------------------------------------------
  // Several of them

  /** An execution: of a queued event, or of a command of the sequential handler. */
  datatype Job = Queued(id: nat) | Direct(n: nat)

  datatype Agent = Idle | Busy(job: Job, cmd: C.Command, pc: Pc)

  datatype LogEntry = LogEntry(job: Job, cmd: C.Command, reply: C.Reply)

  /** `lock` tells who holds the module lock. `jobs` are the executions begun; `log` has those
      whose answer is decided, in that order; `said` has the answers given. */
  datatype State = State(mem: Memory, lock: Option<nat>, agents: seq<Agent>, jobs: set<Job>,
                         log: seq<LogEntry>, said: map<Job, C.Reply>, broken: bool)

  datatype Action =
    | Begin(agent: nat, job: Job, cmd: C.Command)
    | Advance(agent: nat)
    | End(agent: nat)

  predicate Enabled(s: State, a: Action) {
    && a.agent < |s.agents|
    && match a
       case Begin(i, job, c) =>
         s.agents[i].Idle? && job !in s.jobs && (i == 0 ==> s.lock.None? && C.OnSets(c))
       case Advance(i) =>
         && s.agents[i].Busy? && !s.agents[i].pc.Answer?
         && (s.agents[i].pc.Acquire? ==> s.lock.None?)
       case End(i) => s.agents[i].Busy? && s.agents[i].pc.Answer?
  }

  function Next(s: State, a: Action): (t: State)
    requires Enabled(s, a)
  {
    match a
    case Begin(i, job, c) =>
      s.(agents := s.agents[i := Busy(job, c, Enter)], jobs := s.jobs + {job},
         lock := if i == 0 then Some(0) else s.lock)
    case Advance(i) =>
      var g := s.agents[i];
      var e := Do(s.mem, i == 0, g.cmd, g.pc);
      s.(mem := e.mem, agents := s.agents[i := g.(pc := e.pc)], broken := s.broken || e.bad,
         log := if e.commit.Some? then s.log + [LogEntry(g.job, g.cmd, e.commit.value)] else s.log,
         lock := if g.pc.Acquire? then Some(i)
                 else if (g.pc.Release? || g.pc.Leave?) && i != 0 then None else s.lock)
    case End(i) =>
      s.(agents := s.agents[i := Idle], lock := if i == 0 then None else s.lock,
         said := s.said[s.agents[i].job := s.agents[i].pc.reply])
  }

  /** Keys are bound to live objects, one each; the cells of a list are distinct and live. */
  ghost predicate MemOk(m: Memory) {
    && (forall k :: k in m.keys && m.keys[k].At? ==> m.keys[k].obj in m.objects)
    && (forall k, l :: k in m.keys && l in m.keys && k != l && m.keys[k].At? ==> m.keys[k] != m.keys[l])
    && (forall o :: o in m.objects ==> o < m.next && CellsOk(m.objects[o]))
    && (forall o :: o in m.gone ==> o < m.next)
  }

  ghost predicate CellsOk(x: Object) {
    x.ListObj? ==>
      && (forall i: nat :: i < |x.chain| ==> x.chain[i].id < x.next && x.chain[i].id !in x.freed)
      && (forall id :: id in x.freed ==> id < x.next)
      && (forall i: nat, j: nat :: i < j < |x.chain| ==> x.chain[i].id != x.chain[j].id)
  }

  /** Nothing is under way, nothing is due and every binding is to an object that has not been freed. */
  ghost predicate Init(s: State) {
    && MemOk(s.mem) && s.lock.None? && s.jobs == {} && s.log == [] && s.said == map[] && !s.broken
    && (forall i: nat :: i < |s.agents| ==> s.agents[i].Idle?)
    && (forall k :: k in s.mem.keys && s.mem.keys[k].At? ==> Settled(s.mem, s.mem.keys[k].obj))
  }

  ghost predicate Settled(m: Memory, o: nat) {
    o !in m.gone && o in m.objects && (m.objects[o].ListObj? ==> m.objects[o].due.None?)
  }

  ghost predicate Step(s: State, t: State) {
    exists a :: Enabled(s, a) && t == Next(s, a)
  }

  ghost predicate Run(run: seq<State>) {
    && |run| > 0 && Init(run[0])
    && forall i :: 0 <= i < |run| - 1 ==> Step(run[i], run[i + 1])
  }
}

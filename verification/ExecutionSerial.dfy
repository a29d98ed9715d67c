/** Commands that do not conflict may overlap as they like: what they leave and answer is what
    executing them one after the other would, for any number of threads. */
module ExecutionSerial {
  import C = Commands
  import opened Common
  import opened Execution

  // ---------------------------------------------------------------------------
  // Conflicts

  /** `c`, executed by agent `a`, can spoil `d`, executed by agent `b` at the same time: deleting a
      key while an element command uses its object, unless that is the server's own; inserting
      into a list while it may be created, or relinked, or asked for that very value; removing
      from a list while it is removed from or walked. */
  predicate Harms(a: nat, c: C.Command, b: nat, d: C.Command) {
    || (c.verb.SetDelete? && b != 0 && ((SetOp(d) && HasNumber(d)) || ListOp(d)))
    || (c.verb.ListInsert? && HasNumber(c) &&
          (|| d.verb.SetCreate?
           || ((d.verb.ListInsert? || d.verb.ListRemove?) && HasNumber(d))
           || (d.verb.ListContains? && HasNumber(d) && Number(d) == Number(c))))
    || (c.verb.ListRemove? && HasNumber(c) && (d.verb.ListRemove? || d.verb.ListContains?) && HasNumber(d))
  }

  /** Two commands, by the agents that execute them, that must not overlap. */
  predicate Conflict(a: nat, c: C.Command, b: nat, d: C.Command) {
    Proper(c) && Proper(d) && Key(c) == Key(d) && (Harms(a, c, b, d) || Harms(b, d, a, c))
  }

  /** No two commands under way conflict. */
  ghost predicate NoClash(s: State) {
    forall a: nat, b: nat :: a < |s.agents| && b < |s.agents| && a != b && s.agents[a].Busy? && s.agents[b].Busy? ==>
      !Conflict(a, s.agents[a].cmd, b, s.agents[b].cmd)
  }

  // ---------------------------------------------------------------------------
  // What holds while there are none

  ghost predicate Bound(m: Memory, k: string, o: nat) {
    k in m.keys && m.keys[k] == C.At(o) && o in m.objects
  }

  ghost predicate BoundSet(m: Memory, k: string, o: nat) {
    Bound(m, k, o) && m.objects[o].SetObj? && o !in m.gone
  }

  ghost predicate BoundList(m: Memory, k: string, o: nat) {
    Bound(m, k, o) && m.objects[o].ListObj? && o !in m.gone
  }

  /** The place that a list command has read is still the right one. */
  ghost predicate Placed(chain: seq<Cell>, c: C.Command, prev: Option<nat>, at: Option<nat>) {
    var k := if c.verb.ListInsert? then Place(chain, Number(c)) else Find(chain, Number(c));
    && prev == Before(chain, k) && at == From(chain, k)
    && (c.verb.ListInsert? || (c.verb.ListRemove? && k < |chain|))
  }

  /** What a command at `pc` relies on. */
  ghost predicate PcOk(m: Memory, c: C.Command, pc: Pc) {
    var k := Key(c);
    match pc
    case Enter => true
    case Acquire => Proper(c) && !SetOp(c)
    case Open => Proper(c) && (SetOp(c) ==> HasNumber(c))
    case Leave(h) =>
      && Proper(c) && ListOp(c)
      && (h.Missing? ==> c.verb.ListInsert? && HasNumber(c) && k !in m.keys)
      && (h.Found? ==> Bound(m, k, h.obj) && h.obj !in m.gone)
    case Check(o) => Proper(c) && ListOp(c) && Bound(m, k, o) && o !in m.gone
    case Bind => Proper(c) && k !in m.keys && (c.verb.SetCreate? || (c.verb.ListInsert? && HasNumber(c)))
    case Destroy(o) => Proper(c) && c.verb.SetDelete? && BoundSet(m, k, o)
    case Unbind =>
      Proper(c) && c.verb.SetDelete? && k in m.keys && m.keys[k].At? && Bound(m, k, m.keys[k].obj)
      && m.objects[m.keys[k].obj].SetObj?
    case Apply(o) => Proper(c) && SetOp(c) && HasNumber(c) && BoundSet(m, k, o)
    case Look(o, made) =>
      && Proper(c) && ListOp(c) && HasNumber(c) && BoundList(m, k, o)
      && (made ==> c.verb.ListInsert? && m.objects[o].due == Some(Number(c)))
    case Relink(o, prev, at, made) =>
      && Proper(c) && ListOp(c) && HasNumber(c) && BoundList(m, k, o)
      && (made ==> c.verb.ListInsert? && m.objects[o].due == Some(Number(c)))
      && Placed(m.objects[o].chain, c, prev, at)
    case Walk(o, cell) =>
      && Proper(c) && c.verb.ListContains? && HasNumber(c) && BoundList(m, k, o)
      && var i := IndexOf(m.objects[o].chain, cell);
         i < |m.objects[o].chain| && forall j: nat :: j < i ==> m.objects[o].chain[j].value != Number(c)
    case Release(_) => Proper(c) && (c.verb.SetCreate? || c.verb.SetDelete?)
    case Answer(_) => true
  }

  /** The agent has the module lock. */
  predicate HasLock(a: nat, g: Agent) {
    g.Busy? &&
    (|| a == 0
     || g.pc.Release? || g.pc.Leave? || g.pc.Destroy? || g.pc.Unbind?
     || (g.pc.Open? && !SetOp(g.cmd)) || (g.pc.Bind? && g.cmd.verb.SetCreate?))
  }

  ghost predicate LockOk(s: State) {
    && (forall a: nat :: a < |s.agents| && HasLock(a, s.agents[a]) ==> s.lock == Some(a))
    && (s.lock.Some? ==> s.lock.value < |s.agents| && HasLock(s.lock.value, s.agents[s.lock.value]))
  }

  /** Which command can be at which point; the server's own thread runs set commands only and
      never waits for the lock. */
  predicate KindOk(a: nat, g: Agent) {
    g.Busy? ==>
      && (a == 0 ==> C.OnSets(g.cmd) && !g.pc.Acquire?)
      && (g.pc.Acquire? ==> !SetOp(g.cmd))
      && (g.pc.Leave? ==> ListOp(g.cmd) && (g.pc.handle.Missing? ==> g.cmd.verb.ListInsert?))
      && (g.pc.Bind? ==> g.cmd.verb.SetCreate? || g.cmd.verb.ListInsert?)
      && (g.pc.Destroy? || g.pc.Unbind? ==> g.cmd.verb.SetDelete?)
  }

  /** The lock is held by an agent that has it, and by that one only. */
  ghost predicate LockInv(s: State) {
    LockOk(s) && forall a: nat :: a < |s.agents| ==> KindOk(a, s.agents[a])
  }

  /** Its own accesses keep an agent in order, and change who has the lock only where they should. */
  lemma {:induction false} OwnLock(a: nat, m: Memory, g: Agent)
    requires g.Busy? && !g.pc.Answer? && KindOk(a, g)
    ensures var h := g.(pc := Do(m, a == 0, g.cmd, g.pc).pc);
      && KindOk(a, h)
      && (HasLock(a, h) <==> (a == 0 || g.pc.Acquire? || (HasLock(a, g) && !g.pc.Leave? && !g.pc.Release?)))
  {
  }

  lemma {:induction false} LockStep(s: State, act: Action)
    requires LockInv(s) && Enabled(s, act)
    ensures LockInv(Next(s, act))
  {
    var t, a := Next(s, act), act.agent;
    var g := s.agents[a];
    assert KindOk(a, g);
    assert HasLock(a, g) ==> s.lock == Some(a);
    if act.Advance? { OwnLock(a, s.mem, g); }
    forall b: nat | b < |t.agents| ensures KindOk(b, t.agents[b]) && (HasLock(b, t.agents[b]) ==> t.lock == Some(b)) {
      assert KindOk(b, s.agents[b]);
      if b != a { assert HasLock(b, s.agents[b]) ==> s.lock == Some(b); }
    }
  }

  /** An agent that is about to delete the key of an object it has freed. */
  ghost predicate Deleting(g: Agent, k: string) {
    g.Busy? && g.pc.Unbind? && g.cmd.verb.SetDelete? && Proper(g.cmd) && Key(g.cmd) == k
  }

  ghost predicate Freed(m: Memory, k: string) {
    k in m.keys && m.keys[k].At? && m.keys[k].obj in m.gone
  }

  ghost predicate BeingDeleted(s: State, k: string) {
    exists a: nat :: a < |s.agents| && Deleting(s.agents[a], k)
  }

  ghost predicate GoneOk(s: State) {
    forall k :: Freed(s.mem, k) ==> BeingDeleted(s, k)
  }

  /** An agent that has bound a list and is about to link its value. */
  ghost predicate Filling(g: Agent, k: string, o: nat, x: int) {
    && g.Busy? && g.cmd.verb.ListInsert? && Proper(g.cmd) && HasNumber(g.cmd) && Key(g.cmd) == k && Number(g.cmd) == x
    && ((g.pc.Look? && g.pc.obj == o && g.pc.made) || (g.pc.Relink? && g.pc.obj == o && g.pc.made))
  }

  ghost predicate HasDue(m: Memory, k: string) {
    && k in m.keys && m.keys[k].At? && m.keys[k].obj in m.objects
    && m.objects[m.keys[k].obj].ListObj? && m.objects[m.keys[k].obj].due.Some?
  }

  ghost predicate BeingFilled(s: State, k: string)
    requires HasDue(s.mem, k)
  {
    var o := s.mem.keys[k].obj;
    exists a: nat :: a < |s.agents| && Filling(s.agents[a], k, o, s.mem.objects[o].due.value)
  }

  ghost predicate DueOk(s: State) {
    forall k :: HasDue(s.mem, k) ==> BeingFilled(s, k)
  }

  ghost predicate AgentsOk(s: State) {
    forall a: nat :: a < |s.agents| && s.agents[a].Busy? ==> PcOk(s.mem, s.agents[a].cmd, s.agents[a].pc)
  }

  ghost predicate ShapeOk(s: State) {
    MemOk(s.mem) && LockInv(s) && GoneOk(s) && DueOk(s) && AgentsOk(s)
  }

  /** What a command finds at its key is live, and not about to be given the value it asks for. */
  ghost predicate Undisturbed(m: Memory, c: C.Command, pc: Pc) {
    && (pc.Open? && Key(c) in m.keys && m.keys[Key(c)].At? ==> m.keys[Key(c)].obj !in m.gone)
    && ((pc.Look? && !pc.made) || (pc.Relink? && !pc.made) || pc.Walk? ==>
          pc.obj in m.objects && m.objects[pc.obj].ListObj? ==> m.objects[pc.obj].due != Some(Number(c)))
  }

  lemma NotDisturbed(s: State, a: nat)
    requires ShapeOk(s) && NoClash(s) && a < |s.agents| && s.agents[a].Busy?
    ensures Undisturbed(s.mem, s.agents[a].cmd, s.agents[a].pc)
  {
    var k := Key(s.agents[a].cmd);
    assert PcOk(s.mem, s.agents[a].cmd, s.agents[a].pc);
    assert Freed(s.mem, k) ==> BeingDeleted(s, k);
    assert HasDue(s.mem, k) ==> BeingFilled(s, k);
  }

  // ---------------------------------------------------------------------------
  // Bags and chains

  lemma {:induction false} BagOfAppend(a: seq<Cell>, b: seq<Cell>)
    ensures BagOf(a + b) == BagOf(a) + BagOf(b)
  {
    if a == [] {
      assert a + b == b;
    } else {
      assert (a + b)[1..] == a[1..] + b;
      BagOfAppend(a[1..], b);
    }
  }

  lemma {:induction false} InBag(chain: seq<Cell>, x: int)
    ensures x in BagOf(chain) <==> exists i: nat :: i < |chain| && chain[i].value == x
  {
    if chain != [] {
      InBag(chain[1..], x);
      if i: nat :| i < |chain| && chain[i].value == x {
        if i > 0 { assert chain[1..][i - 1].value == x; }
      }
      if i: nat :| i < |chain[1..]| && chain[1..][i].value == x {
        assert chain[i + 1].value == x;
      }
    }
  }

  lemma {:induction false} FindFirst(chain: seq<Cell>, x: int)
    ensures forall i: nat :: i < Find(chain, x) ==> chain[i].value != x
  {
    if chain != [] && chain[0].value != x {
      FindFirst(chain[1..], x);
      forall i: nat | i < Find(chain, x) ensures chain[i].value != x {
        if i > 0 { assert chain[i] == chain[1..][i - 1]; }
      }
    }
  }

  lemma {:induction false} IndexFirst(chain: seq<Cell>, id: nat)
    ensures forall i: nat :: i < IndexOf(chain, id) ==> chain[i].id != id
  {
    if chain != [] && chain[0].id != id {
      IndexFirst(chain[1..], id);
      forall i: nat | i < IndexOf(chain, id) ensures chain[i].id != id {
        if i > 0 { assert chain[i] == chain[1..][i - 1]; }
      }
    }
  }

  lemma {:induction false} IndexIs(chain: seq<Cell>, k: nat)
    requires k < |chain|
    requires forall i: nat, j: nat :: i < j < |chain| ==> chain[i].id != chain[j].id
    ensures IndexOf(chain, chain[k].id) == k
  {
    IndexFirst(chain, chain[k].id);
  }

  /** Relinking at the place just read: the chain is cut there, with a cell more or one less. */
  lemma {:induction false} RelinkedAt(l: Object, c: C.Command, prev: Option<nat>, at: Option<nat>)
    requires l.ListObj? && CellsOk(l) && Placed(l.chain, c, prev, at)
    ensures c.verb.ListInsert? ==>
      var k := Place(l.chain, Number(c));
      Relinked(l, c, prev, at).chain == l.chain[..k] + [Cell(l.next, Number(c))] + l.chain[k..]
    ensures c.verb.ListRemove? ==>
      var k := Find(l.chain, Number(c));
      k < |l.chain| && Relinked(l, c, prev, at).chain == l.chain[..k] + l.chain[k + 1..]
      && Relinked(l, c, prev, at).freed == l.freed + {l.chain[k].id}
    ensures !Dangles(l.freed, prev) && !Dangles(l.freed, at)
  {
    if c.verb.ListInsert? {
      CutAt(l, Place(l.chain, Number(c)));
    } else {
      var k := Find(l.chain, Number(c));
      CutAt(l, k);
      assert l.chain[k..][1..] == l.chain[k + 1..];
    }
  }

  lemma {:induction false} CutAt(l: Object, k: nat)
    requires l.ListObj? && CellsOk(l) && k <= |l.chain|
    ensures Front(l.chain, Before(l.chain, k)) == l.chain[..k] && Back(l.chain, From(l.chain, k)) == l.chain[k..]
    ensures !Dangles(l.freed, Before(l.chain, k)) && !Dangles(l.freed, From(l.chain, k))
  {
    if k > 0 { IndexIs(l.chain, k - 1); }
    if k < |l.chain| { IndexIs(l.chain, k); }
  }

  lemma {:induction false} SplicedIn(s: seq<Cell>, k: nat, cell: Cell)
    requires k <= |s|
    ensures var t := s[..k] + [cell] + s[k..];
      |t| == |s| + 1 && forall i: nat :: i < |t| ==> t[i] == if i < k then s[i] else if i == k then cell else s[i - 1]
  {
  }

  lemma {:induction false} SplicedOut(s: seq<Cell>, k: nat)
    requires k < |s|
    ensures var t := s[..k] + s[k + 1..];
      |t| == |s| - 1 && forall i: nat :: i < |t| ==> t[i] == if i < k then s[i] else s[i + 1]
  {
  }

  lemma {:induction false} InsertedOk(l: Object, t: Object, k: nat, x: int)
    requires l.ListObj? && CellsOk(l) && k <= |l.chain| && t.ListObj?
    requires t.freed == l.freed && t.next == l.next + 1 && l.next !in l.freed
    requires t.chain == l.chain[..k] + [Cell(l.next, x)] + l.chain[k..]
    ensures CellsOk(t)
  {
    SplicedIn(l.chain, k, Cell(l.next, x));
  }

  lemma {:induction false} RemovedOk(l: Object, t: Object, k: nat)
    requires l.ListObj? && CellsOk(l) && k < |l.chain| && t.ListObj?
    requires t.freed == l.freed + {l.chain[k].id} && t.next == l.next
    requires t.chain == l.chain[..k] + l.chain[k + 1..]
    ensures CellsOk(t)
  {
    SplicedOut(l.chain, k);
  }

  lemma {:induction false} RelinkedOk(l: Object, c: C.Command, prev: Option<nat>, at: Option<nat>)
    requires l.ListObj? && CellsOk(l) && Placed(l.chain, c, prev, at)
    ensures CellsOk(Relinked(l, c, prev, at))
  {
    RelinkedAt(l, c, prev, at);
    if c.verb.ListInsert? {
      InsertedOk(l, Relinked(l, c, prev, at), Place(l.chain, Number(c)), Number(c));
    } else {
      RemovedOk(l, Relinked(l, c, prev, at), Find(l.chain, Number(c)));
    }
  }

  lemma {:induction false} InsertedBag(s: seq<Cell>, k: nat, cell: Cell)
    requires k <= |s|
    ensures BagOf(s[..k] + [cell] + s[k..]) == BagOf(s) + multiset{cell.value}
  {
    assert s == s[..k] + s[k..];
    BagOfAppend(s[..k], s[k..]);
    BagOfAppend(s[..k] + [cell], s[k..]);
    BagOfAppend(s[..k], [cell]);
    assert BagOf([cell]) == multiset{cell.value};
  }

  lemma {:induction false} RemovedBag(s: seq<Cell>, k: nat)
    requires k < |s|
    ensures s[k].value in BagOf(s) && BagOf(s[..k] + s[k + 1..]) == BagOf(s) - multiset{s[k].value}
  {
    assert s == s[..k] + s[k..];
    BagOfAppend(s[..k], s[k..]);
    BagOfAppend(s[..k], s[k + 1..]);
    assert s[k..][1..] == s[k + 1..];
  }

  lemma {:induction false} RelinkedBag(l: Object, c: C.Command, prev: Option<nat>, at: Option<nat>)
    requires l.ListObj? && CellsOk(l) && Placed(l.chain, c, prev, at)
    ensures var b, x := BagOf(l.chain), Number(c);
      && (c.verb.ListInsert? ==> BagOf(Relinked(l, c, prev, at).chain) == b + multiset{x})
      && (c.verb.ListRemove? ==> x in b && BagOf(Relinked(l, c, prev, at).chain) == b - multiset{x})
  {
    RelinkedAt(l, c, prev, at);
    if c.verb.ListInsert? {
      InsertedBag(l.chain, Place(l.chain, Number(c)), Cell(l.next, Number(c)));
    } else {
      RemovedBag(l.chain, Find(l.chain, Number(c)));
    }
  }

  // ---------------------------------------------------------------------------
  // What an access means

  lemma {:induction false} PutView(m: Memory, k: string, o: nat, x: Object)
    requires MemOk(m) && Bound(m, k, o)
    ensures var m' := m.(objects := m.objects[o := x]);
      View(m') == View(m)[k := ValueOf(m', C.At(o))]
  {
  }

  lemma {:induction false} KeyView(m: Memory, k: string, o: nat)
    requires Bound(m, k, o)
    ensures k in View(m) && View(m)[k] == ValueOf(m, C.At(o)) && View(m)[k := View(m)[k]] == View(m)
  {
  }

  lemma {:induction false} NewView(m: Memory, k: string, x: Object)
    requires MemOk(m) && k !in m.keys
    ensures var m' := Memory(m.keys[k := C.At(m.next)], m.objects[m.next := x], m.gone, m.next + 1);
      View(m') == View(m)[k := ValueOf(m', C.At(m.next))]
  {
  }

  /** The access is not to anything freed; if it decides the answer, the command takes effect with
      that answer, and otherwise the key space stays. */
  ghost predicate Means(m: Memory, c: C.Command, e: Effect) {
    && !e.bad
    && (e.commit.Some? ==> C.Meaning(View(m), c) == (View(e.mem), e.commit.value))
    && (e.commit.None? ==> View(e.mem) == View(m))
  }

  lemma {:induction false} OpenMeans(m: Memory, c: C.Command)
    requires MemOk(m) && PcOk(m, c, Open)
    ensures Means(m, c, DoOpen(m, c))
  {
  }

  lemma {:induction false} CheckMeans(m: Memory, c: C.Command, o: nat)
    requires MemOk(m) && PcOk(m, c, Check(o))
    ensures Means(m, c, Do(m, false, c, Check(o)))
  {
  }

  lemma {:induction false} BindMeans(m: Memory, c: C.Command)
    requires MemOk(m) && PcOk(m, c, Bind)
    ensures Means(m, c, DoBind(m, c))
  {
    if c.verb.ListInsert? {
      NewView(m, Key(c), NEW_LIST.(due := Some(Number(c))));
    } else {
      NewView(m, Key(c), SetObj({}));
    }
  }

  lemma {:induction false} UnbindMeans(m: Memory, c: C.Command)
    requires MemOk(m) && PcOk(m, c, Unbind)
    ensures Means(m, c, Do(m, false, c, Unbind))
  {
    assert View(m.(keys := m.keys - {Key(c)})) == View(m) - {Key(c)};
  }

  lemma {:induction false} ApplyMeans(m: Memory, c: C.Command, o: nat)
    requires MemOk(m) && PcOk(m, c, Apply(o))
    ensures Means(m, c, DoApply(m, c, o))
  {
    PutView(m, Key(c), o, DoApply(m, c, o).mem.objects[o]);
    assert View(m)[Key(c) := View(m)[Key(c)]] == View(m);
  }

  lemma {:induction false} LookMeans(m: Memory, c: C.Command, o: nat)
    requires MemOk(m) && PcOk(m, c, Look(o, false)) && Undisturbed(m, c, Look(o, false))
    ensures Means(m, c, DoLook(m, c, o, false))
  {
    var b, x := ValueOf(m, C.At(o)).bag, Number(c);
    LookFinds(m.objects[o], x);
    KeyView(m, Key(c), o);
    OnBagMeans(View(m), c);
    assert x !in b ==> b - multiset{x} == b;
  }

  lemma {:induction false} LookFinds(l: Object, x: int)
    requires l.ListObj? && l.due != Some(x)
    ensures x in BagOf(l.chain) + DueBag(l.due) <==> Find(l.chain, x) < |l.chain|
  {
    InBag(l.chain, x);
    FindFirst(l.chain, x);
  }

  lemma {:induction false} BagSums(b: multiset<int>, due: Option<int>, x: int)
    ensures (b + multiset{x}) + DueBag(due) == (b + DueBag(due)) + multiset{x}
    ensures x in b ==> (b - multiset{x}) + DueBag(due) == (b + DueBag(due)) - multiset{x}
    ensures (b + multiset{x}) + DueBag(None) == b + DueBag(Some(x))
  {
  }

  /** What relinking does to the value under the key. */
  lemma {:induction false} RelinkValue(m: Memory, c: C.Command, o: nat, prev: Option<nat>, at: Option<nat>, made: bool)
    requires MemOk(m) && PcOk(m, c, Relink(o, prev, at, made))
    ensures var b, x := ValueOf(m, C.At(o)).bag, Number(c);
      ValueOf(DoRelink(m, c, o, prev, at, made).mem, C.At(o))
      == C.Bag(if made then b else if c.verb.ListInsert? then b + multiset{x} else b - multiset{x})
    ensures c.verb.ListRemove? ==> Number(c) in ValueOf(m, C.At(o)).bag
    ensures !DoRelink(m, c, o, prev, at, made).bad
  {
    var l := m.objects[o];
    RelinkedAt(l, c, prev, at);
    RelinkedBag(l, c, prev, at);
    BagSums(BagOf(l.chain), l.due, Number(c));
  }

  lemma {:induction false} OnBagMeans(v: C.KeySpace, c: C.Command)
    requires Proper(c) && ListOp(c) && HasNumber(c) && Key(c) in v && v[Key(c)].Bag?
    ensures C.Meaning(v, c) == C.OnBag(v, c.verb, Key(c), Number(c))
  {
  }

  lemma {:induction false} RelinkAnswer(v: C.KeySpace, c: C.Command, b: multiset<int>)
    requires Proper(c) && HasNumber(c) && Key(c) in v && v[Key(c)] == C.Bag(b)
    requires c.verb.ListInsert? || (c.verb.ListRemove? && Number(c) in b)
    ensures C.Meaning(v, c)
         == (v[Key(c) := C.Bag(if c.verb.ListInsert? then b + multiset{Number(c)} else b - multiset{Number(c)})], C.Success)
  {
    OnBagMeans(v, c);
  }

  lemma {:induction false} RelinkMeans(m: Memory, c: C.Command, o: nat, prev: Option<nat>, at: Option<nat>)
    requires MemOk(m) && PcOk(m, c, Relink(o, prev, at, false))
    ensures Means(m, c, DoRelink(m, c, o, prev, at, false))
  {
    RelinkValue(m, c, o, prev, at, false);
    PutView(m, Key(c), o, DoRelink(m, c, o, prev, at, false).mem.objects[o]);
    KeyView(m, Key(c), o);
    RelinkAnswer(View(m), c, ValueOf(m, C.At(o)).bag);
  }

  lemma {:induction false} FillMeans(m: Memory, c: C.Command, o: nat, prev: Option<nat>, at: Option<nat>)
    requires MemOk(m) && PcOk(m, c, Relink(o, prev, at, true))
    ensures Means(m, c, DoRelink(m, c, o, prev, at, true))
  {
    RelinkValue(m, c, o, prev, at, true);
    PutView(m, Key(c), o, DoRelink(m, c, o, prev, at, true).mem.objects[o]);
    KeyView(m, Key(c), o);
  }

  lemma {:induction false} WalkFinds(chain: seq<Cell>, cell: nat, x: int)
    requires var i := IndexOf(chain, cell); forall j: nat :: j < i ==> chain[j].value != x
    ensures var ahead := Back(chain, Some(cell)); Find(ahead, x) < |ahead| <==> x in BagOf(chain)
  {
    var i := IndexOf(chain, cell);
    assert chain == chain[..i] + chain[i..];
    BagOfAppend(chain[..i], chain[i..]);
    InBag(chain[..i], x);
    InBag(chain[i..], x);
    FindFirst(chain[i..], x);
  }

  lemma {:induction false} WalkMeans(m: Memory, c: C.Command, o: nat, cell: nat)
    requires MemOk(m) && PcOk(m, c, Walk(o, cell)) && Undisturbed(m, c, Walk(o, cell))
    ensures Means(m, c, DoWalk(m, c, o, cell))
  {
    WalkFinds(m.objects[o].chain, cell, Number(c));
    KeyView(m, Key(c), o);
    OnBagMeans(View(m), c);
  }

  lemma {:induction false} AccessMeans(m: Memory, server: bool, c: C.Command, pc: Pc)
    requires MemOk(m) && PcOk(m, c, pc) && Undisturbed(m, c, pc)
    ensures Means(m, c, Do(m, server, c, pc))
  {
    match pc
    case Open => OpenMeans(m, c);
    case Check(o) => CheckMeans(m, c, o);
    case Bind => BindMeans(m, c);
    case Unbind => UnbindMeans(m, c);
    case Apply(o) => ApplyMeans(m, c, o);
    case Look(o, made) => if !made { LookMeans(m, c, o); }
    case Relink(o, prev, at, made) =>
      if made { FillMeans(m, c, o, prev, at); } else { RelinkMeans(m, c, o, prev, at); }
    case Walk(o, cell) => WalkMeans(m, c, o, cell);
    case _ =>
  }

  // ---------------------------------------------------------------------------
  // Every access keeps the rest in order

  lemma {:induction false} MemStep(m: Memory, server: bool, c: C.Command, pc: Pc)
    requires MemOk(m) && PcOk(m, c, pc)
    ensures MemOk(Do(m, server, c, pc).mem)
  {
    if pc.Relink? {
      RelinkedOk(m.objects[pc.obj], c, pc.prev, pc.at);
      PutOk(m, pc.obj, Do(m, server, c, pc).mem.objects[pc.obj]);
    }
  }

  lemma {:induction false} PutOk(m: Memory, o: nat, x: Object)
    requires MemOk(m) && o in m.objects && CellsOk(x)
    ensures MemOk(m.(objects := m.objects[o := x]))
  {
  }

  lemma {:induction false} OwnStep(m: Memory, server: bool, c: C.Command, pc: Pc)
    requires MemOk(m) && PcOk(m, c, pc) && Undisturbed(m, c, pc) && (server ==> C.OnSets(c))
    ensures var e := Do(m, server, c, pc); PcOk(e.mem, c, e.pc)
  {
  }

  /** Only the key `k` and what it is bound to differ. */
  ghost predicate OnlyAt(m: Memory, m': Memory, k: string) {
    && (forall l :: l != k ==> (l in m.keys <==> l in m'.keys) && (l in m.keys ==> m.keys[l] == m'.keys[l]))
    && (forall o :: o in m.objects && (k !in m.keys || m.keys[k] != C.At(o)) ==>
          o in m'.objects && m'.objects[o] == m.objects[o] && (o in m.gone <==> o in m'.gone))
  }

  lemma {:induction false} OnlyOwnKey(m: Memory, server: bool, c: C.Command, pc: Pc)
    requires MemOk(m) && PcOk(m, c, pc)
    ensures OnlyAt(m, Do(m, server, c, pc).mem, Key(c))
  {
  }

  lemma {:induction false} OtherKey(m: Memory, m': Memory, k: string, c: C.Command, pc: Pc)
    requires MemOk(m) && OnlyAt(m, m', k) && PcOk(m, c, pc) && Key(c) != k
    ensures PcOk(m', c, pc)
  {
  }

  /** Agent `a` makes an access while `b`, with the same key, is under way too. */
  ghost predicate Meet(s: State, a: nat, b: nat) {
    && ShapeOk(s) && NoClash(s) && a < |s.agents| && b < |s.agents| && a != b
    && s.agents[a].Busy? && s.agents[b].Busy? && Key(s.agents[a].cmd) == Key(s.agents[b].cmd)
  }

  ghost predicate OtherKept(s: State, a: nat, b: nat)
    requires a < |s.agents| && b < |s.agents| && s.agents[a].Busy? && s.agents[b].Busy?
  {
    PcOk(Do(s.mem, a == 0, s.agents[a].cmd, s.agents[a].pc).mem, s.agents[b].cmd, s.agents[b].pc)
  }

  lemma {:induction false} MeetBind(s: State, a: nat, b: nat)
    requires Meet(s, a, b) && s.agents[a].pc.Bind?
    ensures OtherKept(s, a, b)
  {
    assert PcOk(s.mem, s.agents[a].cmd, s.agents[a].pc) && PcOk(s.mem, s.agents[b].cmd, s.agents[b].pc);
    assert !Conflict(a, s.agents[a].cmd, b, s.agents[b].cmd);
    assert HasLock(a, s.agents[a]) ==> !HasLock(b, s.agents[b]);
  }

  lemma {:induction false} MeetDelete(s: State, a: nat, b: nat)
    requires Meet(s, a, b) && (s.agents[a].pc.Destroy? || s.agents[a].pc.Unbind?)
    ensures OtherKept(s, a, b)
  {
    assert PcOk(s.mem, s.agents[a].cmd, s.agents[a].pc) && PcOk(s.mem, s.agents[b].cmd, s.agents[b].pc);
    assert !Conflict(a, s.agents[a].cmd, b, s.agents[b].cmd);
    assert HasLock(a, s.agents[a]) && !HasLock(b, s.agents[b]);
  }

  lemma {:induction false} MeetApply(s: State, a: nat, b: nat)
    requires Meet(s, a, b) && s.agents[a].pc.Apply?
    ensures OtherKept(s, a, b)
  {
    assert PcOk(s.mem, s.agents[a].cmd, s.agents[a].pc) && PcOk(s.mem, s.agents[b].cmd, s.agents[b].pc);
  }

  lemma {:induction false} MeetRelink(s: State, a: nat, b: nat)
    requires Meet(s, a, b) && s.agents[a].pc.Relink? && !s.agents[b].pc.Walk?
    ensures OtherKept(s, a, b)
  {
    var g, h := s.agents[a], s.agents[b];
    assert PcOk(s.mem, g.cmd, g.pc) && PcOk(s.mem, h.cmd, h.pc);
    assert !Conflict(a, g.cmd, b, h.cmd);
    RelinkThenOther(s.mem, g.cmd, g.pc, h.cmd, h.pc);
  }

  lemma {:induction false} RelinkThenOther(m: Memory, c: C.Command, pc: Pc, d: C.Command, q: Pc)
    requires MemOk(m) && PcOk(m, c, pc) && PcOk(m, d, q) && Key(c) == Key(d) && pc.Relink?
    requires !q.Relink? && !q.Walk? && !(q.Look? && q.made)
    ensures PcOk(DoRelink(m, c, pc.obj, pc.prev, pc.at, pc.made).mem, d, q)
  {
  }

  lemma {:induction false} MeetWalk(s: State, a: nat, b: nat)
    requires Meet(s, a, b) && s.agents[a].pc.Relink? && s.agents[b].pc.Walk?
    ensures OtherKept(s, a, b)
  {
    var g, h := s.agents[a], s.agents[b];
    assert PcOk(s.mem, g.cmd, g.pc) && PcOk(s.mem, h.cmd, h.pc);
    assert !Conflict(a, g.cmd, b, h.cmd);
    RelinkThenWalk(s.mem, g.cmd, g.pc, h.cmd, h.pc);
  }

  lemma {:induction false} RelinkThenWalk(m: Memory, c: C.Command, pc: Pc, d: C.Command, q: Pc)
    requires MemOk(m) && PcOk(m, c, pc) && PcOk(m, d, q) && Key(c) == Key(d)
    requires pc.Relink? && c.verb.ListInsert? && q.Walk? && Number(c) != Number(d)
    ensures PcOk(DoRelink(m, c, pc.obj, pc.prev, pc.at, pc.made).mem, d, q)
  {
    var l := m.objects[pc.obj];
    RelinkedAt(l, c, pc.prev, pc.at);
    WalkKept(l.chain, Place(l.chain, Number(c)), Cell(l.next, Number(c)), q.cell, Number(d));
  }

  lemma {:induction false} WalkKept(s: seq<Cell>, k: nat, cell: Cell, id: nat, y: int)
    requires k <= |s| && IndexOf(s, id) < |s| && cell.value != y
    requires forall i: nat :: i < |s| ==> s[i].id != cell.id
    requires forall j: nat :: j < IndexOf(s, id) ==> s[j].value != y
    ensures var t := s[..k] + [cell] + s[k..];
      IndexOf(t, id) < |t| && forall j: nat :: j < IndexOf(t, id) ==> t[j].value != y
  {
    var t := s[..k] + [cell] + s[k..];
    SplicedIn(s, k, cell);
    var i := IndexOf(s, id);
    assert t[if i < k then i else i + 1].id == id;
    IndexFirst(t, id);
  }

  lemma {:induction false} OtherStep(s: State, a: nat, b: nat)
    requires ShapeOk(s) && NoClash(s) && a < |s.agents| && b < |s.agents| && a != b
    requires s.agents[a].Busy? && s.agents[b].Busy?
    ensures OtherKept(s, a, b)
  {
    var g, h := s.agents[a], s.agents[b];
    assert PcOk(s.mem, g.cmd, g.pc) && PcOk(s.mem, h.cmd, h.pc);
    if Key(g.cmd) != Key(h.cmd) {
      OnlyOwnKey(s.mem, a == 0, g.cmd, g.pc);
      OtherKey(s.mem, Do(s.mem, a == 0, g.cmd, g.pc).mem, Key(g.cmd), h.cmd, h.pc);
    } else {
      match g.pc
      case Bind => MeetBind(s, a, b);
      case Destroy(_) => MeetDelete(s, a, b);
      case Unbind => MeetDelete(s, a, b);
      case Apply(_) => MeetApply(s, a, b);
      case Relink(_, _, _, _) => if h.pc.Walk? { MeetWalk(s, a, b); } else { MeetRelink(s, a, b); }
      case _ =>
    }
  }

  lemma {:induction false} GoneKept(s: State, a: nat, k: string)
    requires ShapeOk(s) && Enabled(s, Advance(a)) && Freed(Next(s, Advance(a)).mem, k)
    ensures BeingDeleted(Next(s, Advance(a)), k)
  {
    var t, g := Next(s, Advance(a)), s.agents[a];
    assert PcOk(s.mem, g.cmd, g.pc);
    if g.pc.Destroy? && k == Key(g.cmd) {
      assert Deleting(t.agents[a], k);
    } else {
      assert Freed(s.mem, k);
      var b: nat :| b < |s.agents| && Deleting(s.agents[b], k);
      assert b != a && t.agents[b] == s.agents[b];
    }
  }

  lemma {:induction false} DueKept(s: State, a: nat, k: string)
    requires ShapeOk(s) && Enabled(s, Advance(a)) && HasDue(Next(s, Advance(a)).mem, k)
    ensures BeingFilled(Next(s, Advance(a)), k)
  {
    var t, g := Next(s, Advance(a)), s.agents[a];
    var o := t.mem.keys[k].obj;
    assert PcOk(s.mem, g.cmd, g.pc);
    if g.pc.Bind? && k == Key(g.cmd) {
      assert Filling(t.agents[a], k, o, t.mem.objects[o].due.value);
    } else {
      DueBefore(s.mem, a == 0, g.cmd, g.pc, k);
      assert BeingFilled(s, k);
      var b: nat :| b < |s.agents| && Filling(s.agents[b], k, o, s.mem.objects[o].due.value);
      assert Filling(t.agents[b], k, o, t.mem.objects[o].due.value);
    }
  }

  lemma {:induction false} DueBefore(m: Memory, server: bool, c: C.Command, pc: Pc, k: string)
    requires MemOk(m) && PcOk(m, c, pc) && !(pc.Bind? && k == Key(c))
    requires var m' := Do(m, server, c, pc).mem; HasDue(m', k)
    ensures var m' := Do(m, server, c, pc).mem;
      && HasDue(m, k) && m.keys[k] == m'.keys[k]
      && m.objects[m.keys[k].obj].due == m'.objects[m.keys[k].obj].due
      && !(pc.Relink? && pc.made && k == Key(c))
  {
  }

  lemma {:induction false} AdvanceShape(s: State, a: nat)
    requires ShapeOk(s) && NoClash(s) && Enabled(s, Advance(a))
    ensures ShapeOk(Next(s, Advance(a)))
  {
    var t, g := Next(s, Advance(a)), s.agents[a];
    NotDisturbed(s, a);
    assert PcOk(s.mem, g.cmd, g.pc);
    MemStep(s.mem, a == 0, g.cmd, g.pc);
    OwnStep(s.mem, a == 0, g.cmd, g.pc);
    LockStep(s, Advance(a));
    forall k | Freed(t.mem, k) ensures BeingDeleted(t, k) { GoneKept(s, a, k); }
    forall k | HasDue(t.mem, k) ensures BeingFilled(t, k) { DueKept(s, a, k); }
    forall b: nat | b < |t.agents| && t.agents[b].Busy? ensures PcOk(t.mem, t.agents[b].cmd, t.agents[b].pc) {
      if b != a { OtherStep(s, a, b); }
    }
  }

  lemma {:induction false} EdgeShape(s: State, a: Action)
    requires ShapeOk(s) && Enabled(s, a) && !a.Advance?
    ensures ShapeOk(Next(s, a))
  {
    var t := Next(s, a);
    forall k | Freed(t.mem, k) ensures BeingDeleted(t, k) {
      assert Freed(s.mem, k);
      var b: nat :| b < |s.agents| && Deleting(s.agents[b], k);
      assert t.agents[b] == s.agents[b];
    }
    forall k | HasDue(t.mem, k) ensures BeingFilled(t, k) {
      var o := t.mem.keys[k].obj;
      assert BeingFilled(s, k);
      var b: nat :| b < |s.agents| && Filling(s.agents[b], k, o, s.mem.objects[o].due.value);
      assert t.agents[b] == s.agents[b];
    }
    LockStep(s, a);
  }

  // ---------------------------------------------------------------------------
  // Serial order

  ghost function Commands(log: seq<LogEntry>): (cs: seq<C.Command>) {
    seq(|log|, i requires 0 <= i < |log| => log[i].cmd)
  }

  /** Nothing freed was touched; the key space is that of the decided commands executed one after
      the other, and so is each answer. */
  ghost predicate Serial(v: C.KeySpace, s: State) {
    !s.broken && Explains(v, s.log, View(s.mem))
  }

  ghost predicate Explains(v: C.KeySpace, log: seq<LogEntry>, w: C.KeySpace) {
    && w == C.Run(v, Commands(log))
    && forall i: nat :: i < |log| ==> log[i].reply == C.ReplyTo(v, Commands(log), i)
  }

  lemma {:induction false} ExplainsNext(v: C.KeySpace, log: seq<LogEntry>, w: C.KeySpace, e: LogEntry, w': C.KeySpace)
    requires Explains(v, log, w) && C.Meaning(w, e.cmd) == (w', e.reply)
    ensures Explains(v, log + [e], w')
  {
    var cs, all := Commands(log), log + [e];
    assert Commands(all) == cs + [e.cmd];
    C.RunNext(v, cs, e.cmd);
    forall i: nat | i < |all| ensures all[i].reply == C.ReplyTo(v, cs + [e.cmd], i) {
      if i < |log| { C.ReplyKept(v, cs, e.cmd, i); }
    }
  }

  /** The answer of a command, once decided. */
  function Decided(pc: Pc): (r: Option<C.Reply>) {
    match pc
    case Leave(h) => if h.Told? then Some(h.reply) else None
    case Look(_, made) => if made then Some(C.Success) else None
    case Relink(_, _, _, made) => if made then Some(C.Success) else None
    case Release(r) => Some(r)
    case Answer(r) => Some(r)
    case _ => None
  }

  /** A command under way is in the log, with the answer it will give, exactly when that is decided. */
  ghost predicate JobOk(s: State, a: nat)
    requires a < |s.agents| && s.agents[a].Busy?
  {
    var g := s.agents[a];
    && g.job in s.jobs
    && (Decided(g.pc).Some? ==> LogEntry(g.job, g.cmd, Decided(g.pc).value) in s.log)
    && (Decided(g.pc).None? ==> forall i: nat :: i < |s.log| ==> s.log[i].job != g.job)
  }

  ghost predicate JobsOk(s: State) {
    && (forall a: nat :: a < |s.agents| && s.agents[a].Busy? ==> JobOk(s, a))
    && (forall a: nat, b: nat :: a < b < |s.agents| && s.agents[a].Busy? && s.agents[b].Busy? ==>
          s.agents[a].job != s.agents[b].job)
    && (forall i: nat :: i < |s.log| ==> s.log[i].job in s.jobs)
    && (forall i: nat, j: nat :: i < j < |s.log| ==> s.log[i].job != s.log[j].job)
    && (forall j :: j in s.said ==> SaidOk(s, j))
  }

  /** An answer given is the one in the log. */
  ghost predicate SaidOk(s: State, j: Job)
    requires j in s.said
  {
    exists i: nat :: i < |s.log| && s.log[i].job == j && s.log[i].reply == s.said[j]
  }

  ghost predicate Inv(v: C.KeySpace, s: State) {
    ShapeOk(s) && Serial(v, s) && JobsOk(s)
  }

  lemma {:induction false} SerialStep(v: C.KeySpace, s: State, a: nat)
    requires Inv(v, s) && NoClash(s) && Enabled(s, Advance(a))
    ensures Serial(v, Next(s, Advance(a)))
  {
    var t, g := Next(s, Advance(a)), s.agents[a];
    NotDisturbed(s, a);
    assert PcOk(s.mem, g.cmd, g.pc);
    AccessMeans(s.mem, a == 0, g.cmd, g.pc);
    var e := Do(s.mem, a == 0, g.cmd, g.pc);
    if e.commit.Some? {
      ExplainsNext(v, s.log, View(s.mem), LogEntry(g.job, g.cmd, e.commit.value), View(e.mem));
    }
  }

  /** An access decides the answer of a command that had none, or leaves it. */
  ghost predicate DecidesOnce(pc: Pc, e: Effect) {
    if e.commit.Some? then Decided(pc).None? && Decided(e.pc) == e.commit else Decided(e.pc) == Decided(pc)
  }

  lemma {:induction false} DecidedOnce(m: Memory, server: bool, c: C.Command, pc: Pc)
    requires !pc.Answer? && (pc.Look? && pc.made ==> c.verb.ListInsert?)
    ensures DecidesOnce(pc, Do(m, server, c, pc))
  {
    if pc.Open? {
      OpenDecides(m, c);
    } else if pc.Look? {
      LookDecides(m, c, pc.obj, pc.made);
    } else if pc.Walk? {
      WalkDecides(m, c, pc.obj, pc.cell);
    } else if pc.Relink? {
      RelinkDecides(m, c, pc.obj, pc.prev, pc.at, pc.made);
    }
  }

  lemma {:induction false} WalkDecides(m: Memory, c: C.Command, o: nat, cell: nat)
    ensures DecidesOnce(Walk(o, cell), DoWalk(m, c, o, cell))
  {
    var e := DoWalk(m, c, o, cell);
    assert e.commit.Some? && e.pc == Answer(e.commit.value);
  }

  lemma {:induction false} RelinkDecides(m: Memory, c: C.Command, o: nat, prev: Option<nat>, at: Option<nat>, made: bool)
    ensures DecidesOnce(Relink(o, prev, at, made), DoRelink(m, c, o, prev, at, made))
  {
  }

  lemma {:induction false} LookDecides(m: Memory, c: C.Command, o: nat, made: bool)
    requires made ==> c.verb.ListInsert?
    ensures var e := DoLook(m, c, o, made); Decided(e.pc) == if made then Some(C.Success) else e.commit
    ensures made ==> DoLook(m, c, o, made).commit.None?
  {
  }

  lemma {:induction false} OpenDecides(m: Memory, c: C.Command)
    ensures var e := DoOpen(m, c); Decided(e.pc) == e.commit
  {
  }

  lemma {:induction false} JobsStep(s: State, a: nat)
    requires ShapeOk(s) && JobsOk(s) && Enabled(s, Advance(a))
    ensures JobsOk(Next(s, Advance(a)))
  {
    var t, g := Next(s, Advance(a)), s.agents[a];
    assert PcOk(s.mem, g.cmd, g.pc) && JobOk(s, a);
    DecidedOnce(s.mem, a == 0, g.cmd, g.pc);
    forall b: nat | b < |t.agents| && t.agents[b].Busy? ensures JobOk(t, b) {
      assert JobOk(s, b);
      if b == a {
        if Decided(g.pc).None? && Decided(t.agents[a].pc).Some? {
          assert t.log[|s.log|] == LogEntry(g.job, g.cmd, Decided(t.agents[a].pc).value);
        }
      } else {
        assert s.agents[b].job != g.job;
      }
    }
    forall j | j in t.said ensures SaidOk(t, j) { SaidKept(s, t, j); }
  }

  lemma {:induction false} SaidKept(s: State, t: State, j: Job)
    requires j in s.said && SaidOk(s, j) && s.log <= t.log && j in t.said && t.said[j] == s.said[j]
    ensures SaidOk(t, j)
  {
    var i: nat :| i < |s.log| && s.log[i].job == j && s.log[i].reply == s.said[j];
    assert t.log[i] == s.log[i];
  }

  lemma {:induction false} EdgeJobs(s: State, a: Action)
    requires JobsOk(s) && Enabled(s, a) && !a.Advance?
    ensures JobsOk(Next(s, a))
  {
    var t := Next(s, a);
    forall b: nat | b < |t.agents| && t.agents[b].Busy? ensures JobOk(t, b) {
      if b != a.agent { assert JobOk(s, b); }
    }
    if a.Begin? {
      forall b: nat | b < |s.agents| && b != a.agent && s.agents[b].Busy? ensures s.agents[b].job != a.job {
        assert JobOk(s, b);
      }
    }
    forall j | j in t.said ensures SaidOk(t, j) {
      if a.End? && j == s.agents[a.agent].job {
        assert JobOk(s, a.agent);
      } else {
        SaidKept(s, t, j);
      }
    }
  }

  lemma {:induction false} InvStep(v: C.KeySpace, s: State, t: State)
    requires Inv(v, s) && NoClash(s) && Step(s, t)
    ensures Inv(v, t)
  {
    var a :| Enabled(s, a) && t == Next(s, a);
    if a.Advance? {
      AdvanceShape(s, a.agent);
      SerialStep(v, s, a.agent);
      JobsStep(s, a.agent);
    } else {
      EdgeShape(s, a);
      EdgeJobs(s, a);
    }
  }

  lemma {:induction false} InitInv(s: State)
    requires Init(s)
    ensures Inv(View(s.mem), s)
  {
  }

  lemma {:induction false} RunInv(run: seq<State>, n: nat)
    requires Run(run) && n < |run| && forall i: nat :: i < n ==> NoClash(run[i])
    ensures Inv(View(run[0].mem), run[n])
  {
    if n == 0 {
      InitInv(run[0]);
    } else {
      RunInv(run, n - 1);
      assert Step(run[n - 1], run[n - 1 + 1]);
      InvStep(View(run[0].mem), run[n - 1], run[n]);
    }
  }

  /** Nothing is being executed. */
  ghost predicate Still(s: State) {
    forall a: nat :: a < |s.agents| ==> s.agents[a].Idle?
  }

  /** For any number of threads: as long as no two commands under way conflict, nothing freed is
      touched, the key space is that of executing the decided commands one after the other, and
      every answer given is the one it then has. Once nothing is under way, nothing is due, so
      that the lists themselves hold what the key space says. */
  lemma {:induction false} NoClashIsSerial(run: seq<State>, n: nat)
    requires Run(run) && n < |run| && forall i: nat :: i < n ==> NoClash(run[i])
    ensures Serial(View(run[0].mem), run[n])
    ensures forall j :: j in run[n].said ==> SaidOk(run[n], j)
    ensures Still(run[n]) ==> forall k :: !HasDue(run[n].mem, k) && !Freed(run[n].mem, k)
  {
    RunInv(run, n);
    var s := run[n];
    if Still(s) {
      forall k ensures !HasDue(s.mem, k) && !Freed(s.mem, k) {
        assert HasDue(s.mem, k) ==> BeingFilled(s, k);
        assert Freed(s.mem, k) ==> BeingDeleted(s, k);
      }
    }
  }
}

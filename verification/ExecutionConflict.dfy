/** Commands that conflict must not overlap: for every conflicting pair there is a run in which
    they touch something freed, or leave and answer what neither order of them would. */
module ExecutionConflict {
  import C = Commands
  import opened Common
  import opened Execution
  import opened ExecutionSerial

  /** Agent `a` executes `c` and agent `b` executes `d`, among `n` agents. */
  datatype Two = Two(n: nat, a: nat, c: C.Command, b: nat, d: C.Command)

  /** Different agents, and only set commands for the server's own thread. */
  predicate Able(p: Two) {
    p.a != p.b && p.a < p.n && p.b < p.n && (p.a == 0 ==> C.OnSets(p.c)) && (p.b == 0 ==> C.OnSets(p.d))
  }

  /** Only those two are under way, as the jobs of their agents' numbers. */
  ghost predicate Only(s: State, p: Two) {
    && |s.agents| == p.n
    && (forall i: nat :: i < |s.agents| && s.agents[i].Busy? ==>
          || (i == p.a && s.agents[i].cmd == p.c && s.agents[i].job == Direct(p.a))
          || (i == p.b && s.agents[i].cmd == p.d && s.agents[i].job == Direct(p.b)))
    && (forall i: nat :: i < |s.log| ==>
          || (s.log[i].job == Direct(p.a) && s.log[i].cmd == p.c)
          || (s.log[i].job == Direct(p.b) && s.log[i].cmd == p.d))
  }

  /** A run of those two commands and no others. */
  ghost predicate Duel(run: seq<State>, p: Two) {
    Run(run) && forall i :: 0 <= i < |run| ==> Only(run[i], p)
  }

  /** What is left and answered is so in one order of the two or the other. */
  ghost predicate OneByOne(v: C.KeySpace, w: C.KeySpace, c: C.Command, rc: C.Reply, d: C.Command, rd: C.Reply) {
    || (w == C.Run(v, [c, d]) && rc == C.ReplyTo(v, [c, d], 0) && rd == C.ReplyTo(v, [c, d], 1))
    || (w == C.Run(v, [d, c]) && rd == C.ReplyTo(v, [d, c], 0) && rc == C.ReplyTo(v, [d, c], 1))
  }

  /** Both have answered. */
  ghost predicate Through(s: State, p: Two) {
    Still(s) && Direct(p.a) in s.said && Direct(p.b) in s.said
  }

  /** Nothing freed was touched, and the outcome is that of one order or the other. */
  ghost predicate Good(v: C.KeySpace, s: State, p: Two)
    requires Through(s, p)
  {
    !s.broken && OneByOne(v, View(s.mem), p.c, s.said[Direct(p.a)], p.d, s.said[Direct(p.b)])
  }

  /** The two may overlap: however they do, the outcome is good. */
  ghost predicate MayOverlap(p: Two) {
    forall run: seq<State> :: Duel(run, p) && Through(Last(run), p) ==> Good(View(run[0].mem), Last(run), p)
  }

  function Last(run: seq<State>): (s: State)
    requires run != []
  {
    run[|run| - 1]
  }

  function Swap(p: Two): (q: Two) { Two(p.n, p.b, p.d, p.a, p.c) }

  ghost predicate Spoilt(run: seq<State>, p: Two) {
    Duel(run, p) && Through(Last(run), p) && !Good(View(run[0].mem), Last(run), p)
  }

  lemma SpoiltEitherWay(run: seq<State>, p: Two)
    requires Spoilt(run, p)
    ensures Spoilt(run, Swap(p))
  {
    forall i | 0 <= i < |run| ensures Only(run[i], Swap(p)) {
      assert Only(run[i], p);
    }
  }

  // ---------------------------------------------------------------------------
  // Building runs

  lemma More(run: seq<State>, p: Two, act: Action) returns (more: seq<State>)
    requires Duel(run, p) && Enabled(Last(run), act)
    requires act.Begin? ==> act == Begin(p.a, Direct(p.a), p.c) || act == Begin(p.b, Direct(p.b), p.d)
    ensures Duel(more, p) && more == run + [Next(Last(run), act)]
  {
    more := run + [Next(Last(run), act)];
    assert Only(Last(run), p);
    forall i | 0 <= i < |more| - 1 ensures Step(more[i], more[i + 1]) {
      if i < |run| - 1 {
        assert Step(run[i], run[i + 1]);
      } else {
        assert more[i] == Last(run);
      }
    }
  }

  /** A memory with one key. */
  ghost predicate OneKey(m: Memory, k: string, x: Object) {
    m.keys == map[k := C.At(0)] && m.objects == map[0 := x] && m.gone == {} && m.next == 1
  }

  lemma Start(p: Two, m: Memory) returns (run: seq<State>)
    requires Able(p) && MemOk(m)
    requires forall k :: k in m.keys && m.keys[k].At? ==> Settled(m, m.keys[k].obj)
    ensures Duel(run, p) && Last(run) == run[0] && run[0].mem == m && run[0].lock.None? && run[0].log == []
    ensures run[0].said == map[] && run[0].jobs == {} && !run[0].broken && Still(run[0]) && |run[0].agents| == p.n
  {
    run := [State(m, None, seq(p.n, _ => Idle), {}, [], map[], false)];
  }

  /** Agent `i` has begun its command and stands at `pc`. */
  ghost predicate IsAt(s: State, p: Two, i: nat, pc: Pc) {
    && (i == p.a || i == p.b) && i < |s.agents|
    && s.agents[i] == Busy(Direct(i), if i == p.a then p.c else p.d, pc)
  }

  /** The other agent stands as before. */
  ghost predicate OtherStays(s: State, t: State, i: nat) {
    |s.agents| == |t.agents| && forall j: nat :: j < |s.agents| && j != i ==> t.agents[j] == s.agents[j]
  }

  ghost predicate SameBut(s: State, t: State, i: nat) {
    OtherStays(s, t, i) && t.mem == s.mem && t.lock == s.lock && t.said == s.said && t.jobs == s.jobs && t.broken == s.broken
  }

  lemma Begins(run0: seq<State>, p: Two, i: nat) returns (run: seq<State>)
    requires Able(p) && Duel(run0, p) && (i == p.a || i == p.b) && Last(run0).agents[i].Idle?
    requires Direct(i) !in Last(run0).jobs && Last(run0).lock.None?
    ensures Duel(run, p) && run[0] == run0[0] && IsAt(Last(run), p, i, Enter) && OtherStays(Last(run0), Last(run), i)
    ensures var s, t := Last(run0), Last(run);
      t.mem == s.mem && t.said == s.said && t.jobs == s.jobs + {Direct(i)} && t.broken == s.broken
      && t.lock == (if i == 0 then Some(0) else None)
  {
    run := More(run0, p, Begin(i, Direct(i), if i == p.a then p.c else p.d));
  }

  lemma Ends(run0: seq<State>, p: Two, i: nat, r: C.Reply) returns (run: seq<State>)
    requires Duel(run0, p) && IsAt(Last(run0), p, i, Answer(r))
    ensures Duel(run, p) && run[0] == run0[0] && Last(run).agents[i].Idle? && OtherStays(Last(run0), Last(run), i)
    ensures var s, t := Last(run0), Last(run);
      t.mem == s.mem && t.said == s.said[Direct(i) := r] && t.jobs == s.jobs && t.broken == s.broken
      && t.lock == (if i == 0 then None else s.lock)
  {
    run := More(run0, p, End(i));
  }

  /** A list command on a worker waits for the lock, opens its key and gives the lock back. */
  lemma OpensList(run0: seq<State>, p: Two, i: nat, c: C.Command) returns (run: seq<State>)
    requires Duel(run0, p) && i > 0 && IsAt(Last(run0), p, i, Enter) && Last(run0).lock.None?
    requires c == Last(run0).agents[i].cmd && Proper(c) && ListOp(c) && DoOpen(Last(run0).mem, c).commit.None?
    ensures Duel(run, p) && run[0] == run0[0] && SameBut(Last(run0), Last(run), i)
    ensures var m := Last(run0).mem;
      IsAt(Last(run), p, i, if Key(c) in m.keys then Check(ObjAt(m, Key(c))) else Bind)
  {
    run := LocksList(run0, p, i, c);
    run := Moves(run, p, i, Open);
    run := More(run, p, Advance(i));
  }

  lemma LocksList(run0: seq<State>, p: Two, i: nat, c: C.Command) returns (run: seq<State>)
    requires Duel(run0, p) && i > 0 && IsAt(Last(run0), p, i, Enter) && Last(run0).lock.None?
    requires c == Last(run0).agents[i].cmd && Proper(c) && ListOp(c)
    ensures Duel(run, p) && run[0] == run0[0] && OtherStays(Last(run0), Last(run), i) && IsAt(Last(run), p, i, Open)
    ensures var s, t := Last(run0), Last(run);
      t.mem == s.mem && t.lock == Some(i) && t.said == s.said && t.jobs == s.jobs && t.broken == s.broken
  {
    run := More(run0, p, Advance(i));
    run := More(run, p, Advance(i));
  }

  /** ... and reads its place in the list it found. */
  lemma Looks(run0: seq<State>, p: Two, i: nat, c: C.Command, o: nat) returns (run: seq<State>)
    requires Duel(run0, p) && IsAt(Last(run0), p, i, Check(o))
    requires var m := Last(run0).mem; o in m.objects && m.objects[o].ListObj? && o !in m.gone
    requires c == Last(run0).agents[i].cmd && HasNumber(c)
    ensures Duel(run, p) && run[0] == run0[0] && SameBut(Last(run0), Last(run), i)
    ensures IsAt(Last(run), p, i, DoLook(Last(run0).mem, c, o, false).pc)
  {
    run := More(run0, p, Advance(i));
    run := More(run, p, Advance(i));
  }

  /** One access, whatever it is. */
  lemma Moves(run0: seq<State>, p: Two, i: nat, pc: Pc) returns (run: seq<State>)
    requires Duel(run0, p) && IsAt(Last(run0), p, i, pc) && !pc.Acquire? && !pc.Answer? && !pc.Release? && !pc.Leave?
    ensures Duel(run, p) && run[0] == run0[0] && OtherStays(Last(run0), Last(run), i)
    ensures var s, t := Last(run0), Last(run);
      var e := Do(s.mem, i == 0, s.agents[i].cmd, pc);
      && IsAt(t, p, i, e.pc) && t.mem == e.mem && t.lock == s.lock && t.said == s.said && t.jobs == s.jobs
      && t.broken == (s.broken || e.bad)
  {
    run := More(run0, p, Advance(i));
  }

  /** A create or delete comes to hold the lock, if it is not the server's, which holds it anyway. */
  lemma Locks(run0: seq<State>, p: Two, i: nat, c: C.Command) returns (run: seq<State>)
    requires Duel(run0, p) && IsAt(Last(run0), p, i, Enter) && Last(run0).lock == (if i == 0 then Some(0) else None)
    requires c == Last(run0).agents[i].cmd && Proper(c) && (c.verb.SetCreate? || c.verb.SetDelete?)
    ensures Duel(run, p) && run[0] == run0[0] && OtherStays(Last(run0), Last(run), i) && IsAt(Last(run), p, i, Open)
    ensures var s, t := Last(run0), Last(run);
      t.mem == s.mem && t.lock == Some(i) && t.said == s.said && t.jobs == s.jobs && t.broken == s.broken
  {
    run := More(run0, p, Advance(i));
    if i > 0 { run := More(run, p, Advance(i)); }
  }

  /** ... and gives it back, and answers. */
  lemma Unlocks(run0: seq<State>, p: Two, i: nat, r: C.Reply) returns (run: seq<State>)
    requires Duel(run0, p) && IsAt(Last(run0), p, i, Release(r)) && Last(run0).lock == Some(i)
    ensures Duel(run, p) && run[0] == run0[0] && OtherStays(Last(run0), Last(run), i) && Last(run).agents[i].Idle?
    ensures var s, t := Last(run0), Last(run);
      t.mem == s.mem && t.lock.None? && t.said == s.said[Direct(i) := r] && t.jobs == s.jobs && t.broken == s.broken
  {
    run := More(run0, p, Advance(i));
    run := Ends(run, p, i, r);
  }

  lemma FreesSet(run0: seq<State>, p: Two, i: nat, c: C.Command) returns (run: seq<State>)
    requires Duel(run0, p) && IsAt(Last(run0), p, i, Destroy(0)) && c == Last(run0).agents[i].cmd
    requires OneKey(Last(run0).mem, Key(c), SetObj({}))
    ensures Duel(run, p) && run[0] == run0[0] && OtherStays(Last(run0), Last(run), i) && IsAt(Last(run), p, i, Release(C.OK))
    ensures Last(run).mem.gone == {0} && Last(run).mem.objects == Last(run0).mem.objects
    ensures Last(run).said == Last(run0).said && Last(run).lock == Last(run0).lock && Last(run).jobs == Last(run0).jobs
  {
    run := Moves(run0, p, i, Destroy(0));
    run := Moves(run, p, i, Unbind);
  }

  /** A delete, from beginning to end. */
  lemma Deletes(run0: seq<State>, p: Two, i: nat, c: C.Command) returns (run: seq<State>)
    requires Able(p) && Duel(run0, p) && (i == p.a || i == p.b) && Last(run0).agents[i].Idle?
    requires Direct(i) !in Last(run0).jobs && Last(run0).lock.None?
    requires c == (if i == p.a then p.c else p.d) && Proper(c) && c.verb.SetDelete? && OneKey(Last(run0).mem, Key(c), SetObj({}))
    ensures Duel(run, p) && run[0] == run0[0] && OtherStays(Last(run0), Last(run), i) && Last(run).agents[i].Idle?
    ensures Last(run).mem.gone == {0} && Last(run).said == Last(run0).said[Direct(i) := C.OK] && Last(run).lock.None?
    ensures Last(run).jobs == Last(run0).jobs + {Direct(i)} && Last(run).mem.objects == Last(run0).mem.objects
  {
    run := Begins(run0, p, i);
    run := Locks(run, p, i, c);
    run := Moves(run, p, i, Open);
    run := FreesSet(run, p, i, c);
    run := Unlocks(run, p, i, C.OK);
  }

  /** A create, from beginning to end. */
  lemma Creates(run0: seq<State>, p: Two, i: nat, c: C.Command) returns (run: seq<State>)
    requires Able(p) && Duel(run0, p) && (i == p.a || i == p.b) && Last(run0).agents[i].Idle?
    requires Direct(i) !in Last(run0).jobs && Last(run0).lock.None?
    requires c == (if i == p.a then p.c else p.d) && Proper(c) && c.verb.SetCreate? && Key(c) !in Last(run0).mem.keys
    ensures Duel(run, p) && run[0] == run0[0] && OtherStays(Last(run0), Last(run), i) && Last(run).agents[i].Idle?
    ensures Last(run).said == Last(run0).said[Direct(i) := C.OK] && Last(run).lock.None?
    ensures Last(run).mem == DoBind(Last(run0).mem, c).mem && Last(run).broken == Last(run0).broken
    ensures Last(run).jobs == Last(run0).jobs + {Direct(i)}
  {
    run := Begins(run0, p, i);
    run := Locks(run, p, i, c);
    run := Moves(run, p, i, Open);
    run := Moves(run, p, i, Bind);
    run := Unlocks(run, p, i, C.OK);
  }

  // ---------------------------------------------------------------------------
  // A delete under a command that uses the object

  /** A set command is about to call the skip list. */
  lemma UsesSet(p: Two) returns (run: seq<State>)
    requires Able(p) && Proper(p.d) && p.b != 0 && SetOp(p.d) && HasNumber(p.d)
    ensures Duel(run, p) && IsAt(Last(run), p, p.b, Apply(0)) && OneKey(Last(run).mem, Key(p.d), SetObj({}))
    ensures Last(run).agents[p.a].Idle? && Last(run).jobs == {Direct(p.b)} && Last(run).lock.None?
    ensures Last(run).said == map[] && forall j: nat :: j < p.n && j != p.b ==> Last(run).agents[j].Idle?
  {
    var m := Memory(map[Key(p.d) := C.At(0)], map[0 := SetObj({})], {}, 1);
    run := Start(p, m);
    run := Begins(run, p, p.b);
    run := Moves(run, p, p.b, Enter);
    run := Moves(run, p, p.b, Open);
  }

  lemma DeleteUnderSetOp(p: Two) returns (run: seq<State>)
    requires Able(p) && Proper(p.c) && Proper(p.d) && Key(p.c) == Key(p.d)
    requires p.c.verb.SetDelete? && p.b != 0 && SetOp(p.d) && HasNumber(p.d)
    ensures Spoilt(run, p)
  {
    run := UsesSet(p);
    run := Deletes(run, p, p.a, p.c);
    run := Moves(run, p, p.b, Apply(0));
    run := Ends(run, p, p.b, Last(run).agents[p.b].pc.reply);
  }

  lemma DeleteUnderListOp(p: Two) returns (run: seq<State>)
    requires Able(p) && Proper(p.c) && Proper(p.d) && Key(p.c) == Key(p.d)
    requires p.c.verb.SetDelete? && p.b != 0 && ListOp(p.d)
    ensures Spoilt(run, p)
  {
    var m := Memory(map[Key(p.c) := C.At(0)], map[0 := SetObj({})], {}, 1);
    run := Start(p, m);
    run := Begins(run, p, p.b);
    run := OpensList(run, p, p.b, p.d);
    run := Deletes(run, p, p.a, p.c);
    run := Moves(run, p, p.b, Check(0));
    run := Ends(run, p, p.b, C.WrongType);
  }

  // ---------------------------------------------------------------------------
  // An insert that creates its list

  lemma {:induction false} InTurn(v: C.KeySpace, c: C.Command, d: C.Command)
    ensures var m := C.Meaning(v, c);
      && C.Run(v, [c, d]) == C.Meaning(m.0, d).0
      && C.ReplyTo(v, [c, d], 0) == m.1 && C.ReplyTo(v, [c, d], 1) == C.Meaning(m.0, d).1
  {
    assert [c, d][..1] == [c] && [c, d][..0] == [] && [c][..0] == [];
    assert C.Run(v, [c]) == C.Meaning(v, c).0;
  }

  /** Both agents are at the points given, with nothing bound yet. */
  ghost predicate Poised(s: State, p: Two, pa: Option<Pc>, pb: Option<Pc>) {
    && p.a < p.n && p.b < p.n && |s.agents| == p.n && s.lock.None? && s.said == map[] && !s.broken
    && (if pa.Some? then IsAt(s, p, p.a, pa.value) else s.agents[p.a].Idle? && Direct(p.a) !in s.jobs)
    && (if pb.Some? then IsAt(s, p, p.b, pb.value) else s.agents[p.b].Idle? && Direct(p.b) !in s.jobs)
    && (forall j: nat :: j < p.n && j != p.a && j != p.b ==> s.agents[j].Idle?)
  }

  const NOTHING: Memory := Memory(map[], map[], {}, 0)

  /** An insert finds its key missing. */
  lemma FindsNothing(p: Two) returns (run: seq<State>)
    requires Able(p) && p.a != 0 && Proper(p.c) && p.c.verb.ListInsert? && HasNumber(p.c)
    ensures Duel(run, p) && run[0].mem == NOTHING && Last(run).mem == NOTHING && Poised(Last(run), p, Some(Bind), None)
  {
    run := Start(p, NOTHING);
    run := Begins(run, p, p.a);
    run := OpensList(run, p, p.a, p.c);
  }

  /** It has bound a list, and links its value. */
  lemma Fills(run0: seq<State>, p: Two, i: nat, c: C.Command, o: nat) returns (run: seq<State>)
    requires Able(p) && Duel(run0, p) && IsAt(Last(run0), p, i, Look(o, true)) && i != 0
    requires c == Last(run0).agents[i].cmd && c.verb.ListInsert?
    requires var m := Last(run0).mem; o in m.objects && m.objects[o] == NEW_LIST.(due := Some(Number(c))) && o !in m.gone
    ensures Duel(run, p) && run[0] == run0[0] && OtherStays(Last(run0), Last(run), i) && Last(run).agents[i].Idle?
    ensures var s, t := Last(run0), Last(run);
      && t.mem == s.mem.(objects := s.mem.objects[o := ListObj([Cell(0, Number(c))], {}, 1, None)])
      && t.said == s.said[Direct(i) := C.Success] && t.lock == s.lock && t.jobs == s.jobs && t.broken == s.broken
  {
    run := Moves(run0, p, i, Look(o, true));
    assert [] + [Cell(0, Number(c))] + [] == [Cell(0, Number(c))];
    run := Moves(run, p, i, Relink(o, None, None, true));
    run := Ends(run, p, i, C.Success);
  }

  lemma {:induction false} NotWithCreate(c: C.Command, d: C.Command, w: C.KeySpace)
    requires Proper(c) && Proper(d) && Key(c) == Key(d) && c.verb.ListInsert? && HasNumber(c) && d.verb.SetCreate?
    ensures !OneByOne(map[], w, c, C.Success, d, C.OK)
  {
    InTurn(map[], c, d);
    InTurn(map[], d, c);
  }

  lemma {:induction false} NotWithInsert(c: C.Command, d: C.Command, w: C.KeySpace)
    requires Proper(c) && Proper(d) && Key(c) == Key(d) && c.verb.ListInsert? && HasNumber(c)
    requires d.verb.ListInsert? && HasNumber(d) && Key(c) in w && w[Key(c)] == C.Bag(multiset{Number(d)})
    ensures !OneByOne(map[], w, c, C.Success, d, C.Success)
  {
    InTurn(map[], c, d);
    InTurn(map[], d, c);
    var x, y := Number(c), Number(d);
    assert |multiset{y}| == 1 && |multiset{} + multiset{x} + multiset{y}| == 2 && |multiset{} + multiset{y} + multiset{x}| == 2;
  }

  lemma {:induction false} NotWithContains(c: C.Command, d: C.Command, w: C.KeySpace)
    requires Proper(c) && Proper(d) && Key(c) == Key(d) && c.verb.ListInsert? && HasNumber(c)
    requires d.verb.ListContains? && HasNumber(d) && Number(d) == Number(c)
    ensures !OneByOne(map[], w, c, C.Success, d, C.Absent)
  {
    InTurn(map[], c, d);
    InTurn(map[], d, c);
  }

  lemma BindsAndFills(run0: seq<State>, p: Two) returns (run: seq<State>)
    requires Able(p) && Duel(run0, p) && IsAt(Last(run0), p, p.a, Bind) && p.a != 0
    requires p.c.verb.ListInsert? && Last(run0).mem.next !in Last(run0).mem.gone
    ensures Duel(run, p) && run[0] == run0[0] && OtherStays(Last(run0), Last(run), p.a) && Last(run).agents[p.a].Idle?
    ensures Last(run).said == Last(run0).said[Direct(p.a) := C.Success]
  {
    run := Moves(run0, p, p.a, Bind);
    run := Fills(run, p, p.a, p.c, Last(run0).mem.next);
  }

  lemma InsertOverCreate(p: Two) returns (run: seq<State>)
    requires Able(p) && Proper(p.c) && Proper(p.d) && Key(p.c) == Key(p.d)
    requires p.c.verb.ListInsert? && HasNumber(p.c) && p.d.verb.SetCreate?
    ensures Spoilt(run, p)
  {
    run := FindsNothing(p);
    run := Creates(run, p, p.b, p.d);
    run := BindsAndFills(run, p);
    NotWithCreate(p.c, p.d, View(Last(run).mem));
  }

  /** Two inserts find their key missing, and both bind it. */
  lemma InsertOverInsert(p: Two) returns (run: seq<State>)
    requires Able(p) && Proper(p.c) && Proper(p.d) && Key(p.c) == Key(p.d)
    requires p.c.verb.ListInsert? && HasNumber(p.c) && p.d.verb.ListInsert? && HasNumber(p.d)
    ensures Spoilt(run, p)
  {
    run := FindsNothing(p);
    run := Begins(run, p, p.b);
    run := OpensList(run, p, p.b, p.d);
    assert Poised(Last(run), p, Some(Bind), Some(Bind));
    run := BindsTwice(run, p);
    var o := ListObj([Cell(0, Number(p.d))], {}, 1, None);
    assert BagOf(o.chain) == multiset{Number(p.d)} && DueBag(o.due) == multiset{};
    NotWithInsert(p.c, p.d, View(Last(run).mem));
  }

  lemma BindsTwice(run0: seq<State>, p: Two) returns (run: seq<State>)
    requires Able(p) && Key(p.c) == Key(p.d) && p.a != 0 && p.b != 0
    requires p.c.verb.ListInsert? && HasNumber(p.c) && p.d.verb.ListInsert? && HasNumber(p.d)
    requires Duel(run0, p) && Poised(Last(run0), p, Some(Bind), Some(Bind)) && Last(run0).mem == NOTHING
    ensures Duel(run, p) && run[0] == run0[0] && Still(Last(run))
    ensures Last(run).said == map[Direct(p.a) := C.Success][Direct(p.b) := C.Success] && !Last(run).broken
    ensures Last(run).mem.keys == map[Key(p.d) := C.At(1)] && 1 in Last(run).mem.objects
    ensures Last(run).mem.objects[1] == ListObj([Cell(0, Number(p.d))], {}, 1, None)
  {
    run := Moves(run0, p, p.a, Bind);
    run := Fills(run, p, p.a, p.c, 0);
    run := Moves(run, p, p.b, Bind);
    run := Fills(run, p, p.b, p.d, 1);
  }

  /** A list is asked for a value that is about to be linked. */
  lemma ContainsBeforeFill(p: Two) returns (run: seq<State>)
    requires Able(p) && Proper(p.c) && Proper(p.d) && Key(p.c) == Key(p.d)
    requires p.c.verb.ListInsert? && HasNumber(p.c)
    requires p.d.verb.ListContains? && HasNumber(p.d) && Number(p.d) == Number(p.c)
    ensures Spoilt(run, p)
  {
    run := FindsNothing(p);
    run := Moves(run, p, p.a, Bind);
    assert Poised(Last(run), p, Some(Look(0, true)), None);
    run := AsksEmpty(run, p);
    run := Fills(run, p, p.a, p.c, 0);
    NotWithContains(p.c, p.d, View(Last(run).mem));
  }

  lemma AsksEmpty(run0: seq<State>, p: Two) returns (run: seq<State>)
    requires Able(p) && p.b != 0 && Proper(p.d) && p.d.verb.ListContains? && HasNumber(p.d)
    requires Duel(run0, p) && Poised(Last(run0), p, Some(Look(0, true)), None)
    requires var m := Last(run0).mem;
      Key(p.d) in m.keys && m.keys[Key(p.d)] == C.At(0) && 0 in m.objects && 0 !in m.gone
      && m.objects[0].ListObj? && m.objects[0].chain == []
    ensures Duel(run, p) && run[0] == run0[0] && OtherStays(Last(run0), Last(run), p.b) && Last(run).agents[p.b].Idle?
    ensures Last(run).mem == Last(run0).mem && Last(run).said == map[Direct(p.b) := C.Absent] && !Last(run).broken
  {
    run := Begins(run0, p, p.b);
    run := OpensList(run, p, p.b, p.d);
    run := Looks(run, p, p.b, p.d, 0);
    run := Ends(run, p, p.b, C.Absent);
  }

  // ---------------------------------------------------------------------------
  // A removal under another list command

  lemma OneLooks(p: Two, chain: seq<Cell>) returns (run: seq<State>)
    requires Able(p) && p.a != 0 && Proper(p.c) && ListOp(p.c) && HasNumber(p.c)
    requires CellsOk(ListObj(chain, {}, 2, None))
    ensures Duel(run, p) && OneKey(Last(run).mem, Key(p.c), ListObj(chain, {}, 2, None))
    ensures Poised(Last(run), p, Some(DoLook(Last(run).mem, p.c, 0, false).pc), None)
  {
    run := Start(p, Memory(map[Key(p.c) := C.At(0)], map[0 := ListObj(chain, {}, 2, None)], {}, 1));
    run := Begins(run, p, p.a);
    run := OpensList(run, p, p.a, p.c);
    run := Looks(run, p, p.a, p.c, 0);
  }

  /** Both list commands have read their place in a list with these cells. */
  lemma BothLook(p: Two, chain: seq<Cell>) returns (run: seq<State>)
    requires Able(p) && p.a != 0 && p.b != 0 && Proper(p.c) && Proper(p.d) && Key(p.c) == Key(p.d)
    requires ListOp(p.c) && HasNumber(p.c) && ListOp(p.d) && HasNumber(p.d)
    requires CellsOk(ListObj(chain, {}, 2, None))
    ensures Duel(run, p) && OneKey(Last(run).mem, Key(p.c), ListObj(chain, {}, 2, None))
    ensures Poised(Last(run), p, Some(DoLook(Last(run).mem, p.c, 0, false).pc), Some(DoLook(Last(run).mem, p.d, 0, false).pc))
  {
    run := OneLooks(p, chain);
    run := Begins(run, p, p.b);
    run := OpensList(run, p, p.b, p.d);
    run := Looks(run, p, p.b, p.d, 0);
  }

  /** Agent `a` removes the first cell; `b`, which had come to rest on it or in front of it,
      then goes on. */
  lemma RemovesUnder(run0: seq<State>, p: Two, chain: seq<Cell>, pc: Pc) returns (run: seq<State>)
    requires Able(p) && Duel(run0, p) && p.c.verb.ListRemove? && ListOp(p.d)
    requires Poised(Last(run0), p, Some(Relink(0, None, Some(0), false)), Some(pc))
    requires OneKey(Last(run0).mem, Key(p.c), ListObj(chain, {}, 2, None))
    requires pc == Walk(0, 0) || (pc.Relink? && pc.obj == 0 && (pc.prev == Some(0) || pc.at == Some(0)))
    ensures Spoilt(run, p)
  {
    run := Moves(run0, p, p.a, Relink(0, None, Some(0), false));
    run := Ends(run, p, p.a, C.Success);
    run := Moves(run, p, p.b, pc);
    run := Ends(run, p, p.b, Last(run).agents[p.b].pc.reply);
  }

  lemma {:induction false} StandsOnFirst(m: Memory, d: C.Command, x: int, chain: seq<Cell>)
    requires OneKey(m, Key(d), ListObj(chain, {}, 2, None)) && ListOp(d)
    requires chain == if d.verb.ListRemove? && x != Number(d) then [Cell(0, x), Cell(1, Number(d))] else [Cell(0, x)]
    ensures var pc := DoLook(m, d, 0, false).pc;
      pc == Walk(0, 0) || (pc.Relink? && pc.obj == 0 && (pc.prev == Some(0) || pc.at == Some(0)))
  {
    assert ListAt(m, 0).chain == chain;
    if d.verb.ListRemove? {
      assert x != Number(d) ==> chain[1..] == [Cell(1, Number(d))] && Find(chain[1..], Number(d)) == 0;
    } else {
      assert chain[1..] == [] && Place(chain[1..], Number(d)) == 0;
    }
  }

  lemma RemoveUnder(p: Two) returns (run: seq<State>)
    requires Able(p) && p.a != 0 && p.b != 0 && Proper(p.c) && Proper(p.d) && Key(p.c) == Key(p.d)
    requires p.c.verb.ListRemove? && HasNumber(p.c) && ListOp(p.d) && HasNumber(p.d)
    requires p.d.verb.ListRemove? ==> Number(p.c) <= Number(p.d)
    ensures Spoilt(run, p)
  {
    var x, y := Number(p.c), Number(p.d);
    var chain := if p.d.verb.ListRemove? && x != y then [Cell(0, x), Cell(1, y)] else [Cell(0, x)];
    run := BothLook(p, chain);
    var pc := DoLook(Last(run).mem, p.d, 0, false).pc;
    StandsOnFirst(Last(run).mem, p.d, x, chain);
    run := RemovesUnder(run, p, chain, pc);
  }

  // ---------------------------------------------------------------------------
  // The exact condition

  lemma HarmSpoils(p: Two) returns (run: seq<State>)
    requires Able(p) && Proper(p.c) && Proper(p.d) && Key(p.c) == Key(p.d) && Harms(p.a, p.c, p.b, p.d)
    ensures Spoilt(run, p)
  {
    if p.c.verb.SetDelete? {
      if SetOp(p.d) { run := DeleteUnderSetOp(p); } else { run := DeleteUnderListOp(p); }
    } else if p.c.verb.ListRemove? {
      if p.d.verb.ListRemove? && Number(p.d) < Number(p.c) {
        run := RemoveUnder(Swap(p));
        SpoiltEitherWay(run, Swap(p));
      } else {
        run := RemoveUnder(p);
      }
    } else if p.d.verb.SetCreate? {
      run := InsertOverCreate(p);
    } else if p.d.verb.ListInsert? {
      run := InsertOverInsert(p);
    } else if p.d.verb.ListRemove? {
      run := RemoveUnder(Swap(p));
      SpoiltEitherWay(run, Swap(p));
    } else {
      run := ContainsBeforeFill(p);
    }
  }

  lemma {:induction false} NeverClash(run: seq<State>, p: Two, i: nat)
    requires Duel(run, p) && i < |run| && !Conflict(p.a, p.c, p.b, p.d)
    ensures NoClash(run[i])
  {
    assert Only(run[i], p);
  }

  lemma {:induction false} AtMostTwo(log: seq<LogEntry>, x: Job, y: Job)
    requires forall i: nat :: i < |log| ==> log[i].job == x || log[i].job == y
    requires forall i: nat, j: nat :: i < j < |log| ==> log[i].job != log[j].job
    ensures |log| <= 2
  {
    if |log| > 2 { NotThree(log[0].job, log[1].job, log[2].job, x, y); }
  }

  lemma NotThree(i: Job, j: Job, k: Job, x: Job, y: Job)
    requires (i == x || i == y) && (j == x || j == y) && (k == x || k == y)
    ensures i == j || j == k || i == k
  {
  }

  /** The log of such a run has the two jobs, in one order or the other. */
  lemma {:induction false} LogOfTwo(s: State, p: Two)
    requires JobsOk(s) && Only(s, p) && Through(s, p) && p.a != p.b
    ensures var la, lb := LogEntry(Direct(p.a), p.c, s.said[Direct(p.a)]), LogEntry(Direct(p.b), p.d, s.said[Direct(p.b)]);
      s.log == [la, lb] || s.log == [lb, la]
  {
    AtMostTwo(s.log, Direct(p.a), Direct(p.b));
    assert SaidOk(s, Direct(p.a)) && SaidOk(s, Direct(p.b));
    var i: nat :| i < |s.log| && s.log[i].job == Direct(p.a) && s.log[i].reply == s.said[Direct(p.a)];
    var j: nat :| j < |s.log| && s.log[j].job == Direct(p.b) && s.log[j].reply == s.said[Direct(p.b)];
    assert |s.log| == 2 && s.log == [s.log[0], s.log[1]];
  }

  lemma {:induction false} SerialIsGood(v: C.KeySpace, s: State, p: Two)
    requires Serial(v, s) && JobsOk(s) && Only(s, p) && Through(s, p) && p.a != p.b
    ensures Good(v, s, p)
  {
    LogOfTwo(s, p);
    assert Commands(s.log) == [s.log[0].cmd, s.log[1].cmd];
    assert s.log[0].reply == C.ReplyTo(v, Commands(s.log), 0) && s.log[1].reply == C.ReplyTo(v, Commands(s.log), 1);
  }

  /** Two commands may overlap on two agents, whatever the key space and however they interleave,
      if and only if they do not conflict: then nothing freed is touched, and what they leave and
      answer is what one of them after the other would. */
  lemma {:induction false} MayOverlapIff(p: Two)
    requires Able(p)
    ensures MayOverlap(p) <==> !Conflict(p.a, p.c, p.b, p.d)
  {
    if Conflict(p.a, p.c, p.b, p.d) {
      if Harms(p.a, p.c, p.b, p.d) {
        var run := HarmSpoils(p);
        assert Spoilt(run, p);
      } else {
        var run := HarmSpoils(Swap(p));
        SpoiltEitherWay(run, Swap(p));
        assert Spoilt(run, p);
      }
    } else {
      forall run: seq<State> | Duel(run, p) && Through(Last(run), p) ensures Good(View(run[0].mem), Last(run), p) {
        var n := |run| - 1;
        forall i: nat | i < n ensures NoClash(run[i]) { NeverClash(run, p, i); }
        RunInv(run, n);
        assert Only(run[n], p);
        SerialIsGood(View(run[0].mem), run[n], p);
      }
    }
  }

  /** The module as built, one worker beside the server's thread: a command of the sequential
      handler may overlap a queued one if and only if it does not delete the key of an element
      command and does not create the key of a list insert. */
  lemma {:induction false} AsBuiltIff(c: C.Command, d: C.Command)
    requires C.OnSets(c)
    ensures MayOverlap(Two(2, 0, c, 1, d)) <==>
      !(&& Proper(c) && Proper(d) && Key(c) == Key(d)
        && (|| (c.verb.SetDelete? && ((SetOp(d) && HasNumber(d)) || ListOp(d)))
            || (c.verb.SetCreate? && d.verb.ListInsert? && HasNumber(d))))
  {
    MayOverlapIff(Two(2, 0, c, 1, d));
  }
}

/**
  What the containers behind flat combining promise, told by the operations and answers of a
  history alone: how many elements there are, which push each of them comes from, first in first
  out for FCQueue, last in first out for FCStack, and the same at either end for FCDeque.  Every
  run of the combiner keeps these laws, since its history executes sequentially (Linearizable).
 */
module ContainerLaws {
  import opened Common
  import opened FlatCombining

  predicate Puts(e: Event) { e.Effect? && IsPush(e.op) }

  predicate Takes(e: Event) { e.Effect? && e.answer.Popped? }

  predicate Clears(e: Event) { e.Effect? && e.op.Clear? }

  predicate Supported(kind: Kind, h: seq<Event>) {
    forall k :: 0 <= k < |h| && h[k].Effect? ==> Supports(kind, h[k].op)
  }

  // ---------------------------------------------------------------- how many

  /** Pushes minus successful pops since the last clear; `n` elements are there to begin with. */
  function Size(n: int, h: seq<Event>): (s: int) {
    if h == [] then n
    else
      var e, s := h[|h| - 1], Size(n, h[..|h| - 1]);
      if Clears(e) then 0 else if Puts(e) then s + 1 else if Takes(e) then s - 1 else s
  }

  lemma {:induction false} SizeIs(c: seq<int>, h: seq<Event>)
    requires Replay(c, h).Some?
    ensures Size(|c|, h) == |Replay(c, h).value|
  {
    if h != [] { SizeIs(c, h[..|h| - 1]); }
  }

  lemma {:induction false} ReplayUpTo(c: seq<int>, h: seq<Event>, i: nat)
    requires Replay(c, h).Some? && i <= |h|
    ensures Replay(c, h[..i]).Some?
  {
    if i < |h| {
      ReplayUpTo(c, h[..|h| - 1], i);
      assert h[..|h| - 1][..i] == h[..i];
    } else {
      assert h[..i] == h;
    }
  }

  /** The event at i acts on the container that the events before it leave. */
  lemma ReplayAt(c: seq<int>, h: seq<Event>, i: nat)
    requires Replay(c, h).Some? && i < |h|
    ensures var d := Replay(c, h[..i]);
      && d.Some? && Size(|c|, h[..i]) == |d.value|
      && (h[i].Effect? ==> Apply(d.value, h[i].op).1 == h[i].answer)
  {
    ReplayUpTo(c, h, i + 1);
    ReplayUpTo(c, h, i);
    SizeIs(c, h[..i]);
    assert h[..i + 1][..i] == h[..i];
  }

  /** Pushes and clears are acknowledged; a pop fails, and the test for emptiness says so, exactly
      when the pushes since the last clear do not outnumber the successful pops. */
  lemma Answers(c: seq<int>, h: seq<Event>, i: nat)
    requires Replay(c, h).Some? && i < |h| && h[i].Effect?
    ensures var n := Size(|c|, h[..i]);
      match h[i].op
      case PushFront(_, _) => h[i].answer == Ack
      case PushBack(_, _) => h[i].answer == Ack
      case Clear => h[i].answer == Ack
      case TestEmpty => h[i].answer == Emptiness(n == 0)
      case _ => if n == 0 then h[i].answer == Nothing else h[i].answer.Popped?
  {
    ReplayAt(c, h, i);
  }

  /** After a clear, and until the next push, there is nothing to pop. */
  lemma {:induction false} SizeAfterClear(n: int, h: seq<Event>, i: nat)
    requires i < |h| && Clears(h[i]) && forall k :: i < k < |h| ==> !Puts(h[k]) && !Takes(h[k])
    ensures Size(n, h) == 0
  {
    if i < |h| - 1 { SizeAfterClear(n, h[..|h| - 1], i); }
  }

  lemma {:induction false} NoneTaken(c: seq<int>, h: seq<Event>, i: nat, j: nat)
    requires Replay(c, h).Some? && i < j <= |h| && Clears(h[i])
    requires forall k :: i < k < j ==> !Puts(h[k])
    ensures forall k :: i < k < j ==> !Takes(h[k])
  {
    if j - 1 > i {
      NoneTaken(c, h, i, j - 1);
      SizeAfterClear(|c|, h[..j - 1], i);
      if h[j - 1].Effect? { Answers(c, h, j - 1); }
    }
  }

  lemma ClearEmpties(c: seq<int>, h: seq<Event>, i: nat, j: nat)
    requires Replay(c, h).Some? && i < j < |h| && Clears(h[i]) && h[j].Effect? && IsPop(h[j].op)
    requires forall k :: i < k < j ==> !Puts(h[k])
    ensures h[j].answer == Nothing
  {
    NoneTaken(c, h, i, j);
    SizeAfterClear(|c|, h[..j], i);
    Answers(c, h, j);
  }

  // ---------------------------------------------------------------- from which push

  /** An element was there to begin with, or was pushed by an event. */
  datatype Source = Given(index: int) | By(event: nat)

  /** Where the element at position k, counted from the front, comes from. */
  function Origin(n: int, h: seq<Event>, k: int): (s: Source) {
    if h == [] then Given(k)
    else
      var e, g := h[|h| - 1], h[..|h| - 1];
      if !e.Effect? then Origin(n, g, k)
      else match e.op
        case PushFront(_, _) => if k == 0 then By(|g|) else Origin(n, g, k - 1)
        case PushBack(_, _) => if k == Size(n, g) then By(|g|) else Origin(n, g, k)
        case PopFront => Origin(n, g, if Takes(e) then k + 1 else k)
        case _ => Origin(n, g, k)
  }

  predicate ComesFrom(c: seq<int>, h: seq<Event>, s: Source, v: int) {
    match s
    case Given(k) => 0 <= k < |c| && c[k] == v
    case By(j) => j < |h| && Puts(h[j]) && h[j].op.value == v
  }

  lemma {:induction false} OriginIs(c: seq<int>, h: seq<Event>, k: nat)
    requires Replay(c, h).Some? && k < |Replay(c, h).value|
    ensures ComesFrom(c, h, Origin(|c|, h, k), Replay(c, h).value[k])
  {
    if h != [] {
      var e, g := h[|h| - 1], h[..|h| - 1];
      SizeIs(c, g);
      var before := match e
        case Effect(_, PushFront(_, _), _) => k - 1
        case Effect(_, PopFront, _) => if Takes(e) then k + 1 else k
        case _ => k;
      if 0 <= before < |Replay(c, g).value| {
        OriginIs(c, g, before);
      }
    }
  }

  /** Each end of the deque: a successful pop hands out what came to be at its end. */
  lemma EndsPopped(c: seq<int>, h: seq<Event>, i: nat)
    requires Replay(c, h).Some? && i < |h| && Takes(h[i])
    ensures IsPop(h[i].op)
    ensures var k := if h[i].op.PopFront? then 0 else Size(|c|, h[..i]) - 1;
      ComesFrom(c, h[..i], Origin(|c|, h[..i], k), h[i].answer.value)
  {
    ReplayAt(c, h, i);
    var d := Replay(c, h[..i]).value;
    OriginIs(c, h[..i], if h[i].op.PopFront? then 0 else |d| - 1);
  }

  // ---------------------------------------------------------------- first in, first out

  /** The values that entered since the last clear, in order, those to begin with first. */
  function Entered(c: seq<int>, h: seq<Event>): (s: seq<int>) {
    if h == [] then c
    else
      var e, s := h[|h| - 1], Entered(c, h[..|h| - 1]);
      if Clears(e) then [] else if Puts(e) then s + [e.op.value] else s
  }

  /** The values handed out since the last clear, in order. */
  function Left(h: seq<Event>): (s: seq<int>) {
    if h == [] then []
    else
      var e, s := h[|h| - 1], Left(h[..|h| - 1]);
      if Clears(e) then [] else if Takes(e) then s + [e.answer.value] else s
  }

  /** FCQueue: what entered is what has left followed by what is there. */
  lemma {:induction false} QueueLaw(c: seq<int>, h: seq<Event>)
    requires Replay(c, h).Some? && Supported(FCQueue, h)
    ensures Entered(c, h) == Left(h) + Replay(c, h).value
  {
    if h != [] {
      QueueLaw(c, h[..|h| - 1]);
    }
  }

  // ---------------------------------------------------------------- last in, first out

  function Change(e: Event): (d: int) {
    if Puts(e) then 1 else if Takes(e) then -1 else 0
  }

  /** Pushes minus successful pops from event m on. */
  function Net(h: seq<Event>, m: nat): (d: int)
    requires m <= |h|
  {
    if m == |h| then 0 else Net(h[..|h| - 1], m) + Change(h[|h| - 1])
  }

  ghost predicate NoClear(h: seq<Event>, m: nat) {
    forall k :: m <= k < |h| ==> !Clears(h[k])
  }

  /** The push at j is the last from which on there are k + 1 more pushes than pops: all but k of
      the later ones have been popped. */
  ghost predicate Latest(h: seq<Event>, j: nat, k: int) {
    && j < |h| && Puts(h[j]) && NoClear(h, j) && Net(h, j) == k + 1
    && forall m :: j < m <= |h| ==> Net(h, m) <= k
  }

  /** Nothing pushed is left: the first elements there were to begin with have been popped. */
  ghost predicate Below(h: seq<Event>, q: int, k: int) {
    && NoClear(h, 0) && Net(h, 0) == k - q
    && forall m :: 0 <= m <= |h| ==> Net(h, m) <= k
  }

  lemma NetStep(h: seq<Event>, e: Event, m: nat)
    requires m <= |h|
    ensures Net(h + [e], m) == Net(h, m) + Change(e)
  {
    assert (h + [e])[..|h|] == h;
  }

  /** Only pops hand out values. */
  ghost predicate Proper(h: seq<Event>) {
    forall k :: 0 <= k < |h| && Takes(h[k]) ==> IsPop(h[k].op)
  }

  lemma ReplayProper(c: seq<int>, h: seq<Event>)
    requires Replay(c, h).Some?
    ensures Proper(h)
  {
    forall k | 0 <= k < |h| && Takes(h[k]) ensures IsPop(h[k].op) { Answers(c, h, k); }
  }

  lemma {:induction false} StackOrigin(n: int, h: seq<Event>, k: int)
    requires Supported(FCStack, h) && Proper(h) && 0 <= k < Size(n, h)
    ensures var s := Origin(n, h, k); if s.By? then Latest(h, s.event, k) else Below(h, s.index, k)
  {
    if h != [] {
      var e, g := h[|h| - 1], h[..|h| - 1];
      assert h == g + [e];
      forall m | 0 <= m <= |g| ensures Net(h, m) == Net(g, m) + Change(e) { NetStep(g, e, m); }
      assert e.Effect? ==> Supports(FCStack, e.op);
      var before := k - Change(e);
      if 0 <= before { StackOrigin(n, g, before); }
    }
  }

  /** FCStack: a pop hands out the latest push not yet popped, or, when every push has been popped,
      the first element not yet popped of those there to begin with. */
  lemma StackLaw(c: seq<int>, h: seq<Event>, i: nat)
    requires Replay(c, h).Some? && Supported(FCStack, h) && i < |h| && Takes(h[i])
    ensures var g := h[..i];
      || (exists j: nat :: Latest(g, j, 0) && h[i].answer.value == h[j].op.value)
      || (exists q :: Below(g, q, 0) && 0 <= q < |c| && h[i].answer.value == c[q])
  {
    ReplayProper(c, h);
    EndsPopped(c, h, i);
    ReplayAt(c, h, i);
    Answers(c, h, i);
    var g := h[..i];
    assert Supports(FCStack, h[i].op);
    StackOrigin(|c|, g, 0);
  }

  /** There is one latest push at most. */
  lemma LatestUnique(h: seq<Event>, i: nat, j: nat, k: int)
    requires Latest(h, i, k) && Latest(h, j, k)
    ensures i == j
  {
  }

  // ---------------------------------------------------------------- the two ends are alike

  function Reversed(c: seq<int>): (r: seq<int>) {
    seq(|c|, i requires 0 <= i < |c| => c[|c| - 1 - i])
  }

  /** The same operation at the other end. */
  function Opposite(op: Op): (r: Op) {
    match op
    case PushFront(v, m) => PushBack(v, m)
    case PushBack(v, m) => PushFront(v, m)
    case PopFront => PopBack
    case PopBack => PopFront
    case _ => op
  }

  function Swapped(h: seq<Event>): (r: seq<Event>) {
    if h == [] then []
    else
      var e := h[|h| - 1];
      Swapped(h[..|h| - 1]) + [if e.Effect? then e.(op := Opposite(e.op)) else e]
  }

  lemma ApplySwapped(c: seq<int>, op: Op)
    ensures Apply(Reversed(c), Opposite(op)).1 == Apply(c, op).1
    ensures Apply(Reversed(c), Opposite(op)).0 == Reversed(Apply(c, op).0)
  {
  }

  /** FCDeque: seen from the other end, every history is one of the reversed deque. */
  lemma {:induction false} EndsAlike(c: seq<int>, h: seq<Event>)
    requires Replay(c, h).Some?
    ensures Replay(Reversed(c), Swapped(h)) == Some(Reversed(Replay(c, h).value))
  {
    if h != [] {
      var e, g := h[|h| - 1], h[..|h| - 1];
      EndsAlike(c, g);
      assert Swapped(h)[..|Swapped(h)| - 1] == Swapped(g);
      if e.Effect? { ApplySwapped(Replay(c, g).value, e.op); }
    }
  }

  // ---------------------------------------------------------------- every run

  lemma SupportedStep(s: State, a: Action)
    requires FlatCombining.Supported(s.kind, s.recs) && PassOk(s.recs, s.pos, s.prev) && Enabled(s, a)
    requires Supported(s.kind, s.history)
    ensures Supported(s.kind, Next(s, a).history)
  {
    if a.Visit? {
      var d := Decide(s.kind, s.container == [], s.recs, s.prev, s.pos);
    }
  }

  lemma {:induction false} HistorySupported(run: seq<State>, n: nat)
    requires Run(run) && n < |run|
    ensures Supported(run[n].kind, run[n].history)
  {
    if n > 0 {
      HistorySupported(run, n - 1);
      Linearizable(run, n - 1);
      assert Step(run[n - 1], run[n - 1 + 1]);
      var a :| Enabled(run[n - 1], a) && run[n] == Next(run[n - 1], a);
      SupportedStep(run[n - 1], a);
    }
  }

  lemma RunSupported(run: seq<State>, n: nat)
    requires Run(run) && n < |run|
    ensures Supported(run[0].kind, run[n].history) && run[n].kind == run[0].kind
    ensures Replay(run[0].container, run[n].history) == Some(run[n].container)
  {
    HistorySupported(run, n);
    Linearizable(run, n);
  }

  /** In every run of a combined queue, eliminations included, values leave in the order they entered. */
  lemma RunIsFifo(run: seq<State>, n: nat)
    requires Run(run) && n < |run| && run[0].kind.FCQueue?
    ensures Entered(run[0].container, run[n].history) == Left(run[n].history) + run[n].container
  {
    RunSupported(run, n);
    QueueLaw(run[0].container, run[n].history);
  }

  /** In every run of a combined stack that starts empty, each pop hands out the latest push not yet popped. */
  lemma RunIsLifo(run: seq<State>, n: nat, i: nat)
    requires Run(run) && n < |run| && run[0].kind.FCStack? && run[0].container == []
    requires i < |run[n].history| && Takes(run[n].history[i])
    ensures var h := run[n].history;
      exists j: nat :: Latest(h[..i], j, 0) && h[i].answer.value == h[j].op.value
  {
    RunSupported(run, n);
    StackLaw([], run[n].history, i);
  }

  /** In every run each value popped is the one that came to be at that end, each element of the
      container is the one its push put there, and a pop fails exactly if nothing is there. */
  lemma RunKeepsEnds(run: seq<State>, n: nat, i: nat)
    requires Run(run) && n < |run| && i < |run[n].history| && run[n].history[i].Effect?
    ensures var c, h := run[0].container, run[n].history;
      var e, size := h[i], Size(|c|, h[..i]);
      && |run[n].container| == Size(|c|, h)
      && (e.op.TestEmpty? ==> e.answer == Emptiness(size == 0))
      && (IsPop(e.op) && size == 0 ==> e.answer == Nothing)
      && (e.op.PopFront? && size != 0 ==> Takes(e) && ComesFrom(c, h, Origin(|c|, h[..i], 0), e.answer.value))
      && (e.op.PopBack? && size != 0 ==> Takes(e) && ComesFrom(c, h, Origin(|c|, h[..i], size - 1), e.answer.value))
      && forall k :: 0 <= k < |run[n].container| ==> ComesFrom(c, h, Origin(|c|, h, k), run[n].container[k])
  {
    var c, h := run[0].container, run[n].history;
    RunSupported(run, n);
    SizeIs(c, h);
    Answers(c, h, i);
    if Takes(h[i]) { EndsPopped(c, h, i); }
    forall k | 0 <= k < |run[n].container| ensures ComesFrom(c, h, Origin(|c|, h, k), run[n].container[k]) {
      OriginIs(c, h, k);
    }
  }
}

/** The module's commands (src/skip_list.cpp, src/llca.cpp): a key space whose
    entries point at list objects on the heap, and the same commands over plain
    values. The lock-free skip list stands as the set it implements. */
module Commands {
  import L = SortedList
  import opened Common

  /** A command argument with what RedisModule_StringToLongLong makes of it. */
  datatype Arg = Arg(text: string, number: Option<int>)

  datatype Verb =
    | SetCreate | SetDelete | SetInsert | SetRemove | SetContains
    | ListInsert | ListRemove | ListContains

  /** `argv[0]` is the command's own name, so `argc` is `|argv|`. */
  datatype Command = Command(verb: Verb, argv: seq<Arg>)

  /** One constructor for each text the module replies with. */
  datatype Reply =
    | OK | BadArity | BadNumber | WrongType | NoList
    | KeyExists | NoKey | ValueExists | NoValue
    | Success | Failure | Present | Absent

  // ---------------------------------------------------------------------------
  // The commands over values

  datatype Value = Other | Ints(elements: set<int>) | Bag(bag: multiset<int>)

  type KeySpace = map<string, Value>

  /** What a command means, with no objects, locks or cells in sight. */
  ghost function Meaning(v: KeySpace, c: Command): (r: (KeySpace, Reply)) {
    if c.verb.SetCreate? || c.verb.SetDelete? then
      if |c.argv| != 2 then (v, BadArity) else
        var k := c.argv[1].text;
        if c.verb.SetCreate? then
          if k in v then (v, KeyExists) else (v[k := Ints({})], OK)
        else
          if k !in v then (v, NoKey)
          else if !v[k].Ints? then (v, WrongType)
          else (v - {k}, OK)
    else if c.verb.SetInsert? || c.verb.SetRemove? || c.verb.SetContains? then
      if |c.argv| != 3 then (v, BadArity)
      else if c.argv[2].number.None? then (v, BadNumber)
      else
        var k, x := c.argv[1].text, c.argv[2].number.value;
        if k !in v then (v, NoList)
        else if !v[k].Ints? then (v, WrongType)
        else
          var s := v[k].elements;
          match c.verb
          case SetInsert => (v[k := Ints(s + {x})], if x in s then ValueExists else OK)
          case SetRemove => (v[k := Ints(s - {x})], if x in s then OK else NoValue)
          case _ => (v, if x in s then OK else NoValue)
    else
      if |c.argv| != 3 then (v, BadArity) else
        var k := c.argv[1].text;
        if k in v && !v[k].Bag? then (v, WrongType)
        else if c.argv[2].number.None? then (v, BadNumber)
        else
          var x := c.argv[2].number.value;
          if k !in v && !c.verb.ListInsert? then (v, NoList) else OnBag(v, c.verb, k, x)
  }

  /** A list command whose key holds a list, or is about to. */
  ghost function OnBag(v: KeySpace, verb: Verb, k: string, x: int): (r: (KeySpace, Reply))
    requires k in v ==> v[k].Bag?
  {
    var b := if k in v then v[k].bag else multiset{};
    match verb
    case ListInsert => (v[k := Bag(b + multiset{x})], Success)
    case ListRemove => (v[k := Bag(b - multiset{x})], if x in b then Success else Failure)
    case _ => (v, if x in b then Present else Absent)
  }

  // ---------------------------------------------------------------------------
  // The commands over objects

  datatype Object = SetObj(elements: set<int>) | ListObj(values: seq<int>)

  datatype Entry = Foreign | At(obj: nat)

  /** Keys are bound to objects; `next` is the address the allocator gives out next. */
  datatype World = World(keys: map<string, Entry>, objects: map<nat, Object>, next: nat)

  /** Every binding is to a live object, every live object is bound to exactly one
      key, and lists are sorted. */
  ghost predicate Owned(w: World) {
    && (forall k :: k in w.keys && w.keys[k].At? ==> w.keys[k].obj in w.objects)
    && (forall k, l :: k in w.keys && l in w.keys && k != l && w.keys[k].At? ==> w.keys[k] != w.keys[l])
    && (forall o :: o in w.objects ==> o < w.next && Bound(w, o) && Tidy(w.objects[o]))
  }

  ghost predicate Bound(w: World, o: nat) {
    exists k :: k in w.keys && w.keys[k] == At(o)
  }

  ghost predicate Tidy(x: Object) {
    x.ListObj? ==> L.Sorted(x.values)
  }

  predicate Holds(w: World, k: string, list: bool)
    requires k in w.keys && w.keys[k].At? ==> w.keys[k].obj in w.objects
  {
    k in w.keys && w.keys[k].At? && w.objects[w.keys[k].obj].ListObj? == list
  }

  ghost function Abstract(x: Object): (v: Value) {
    if x.SetObj? then Ints(x.elements) else Bag(multiset(x.values))
  }

  ghost function View(w: World): (v: KeySpace)
    requires Owned(w)
  {
    map k | k in w.keys :: if w.keys[k].At? then Abstract(w.objects[w.keys[k].obj]) else Other
  }

  /** A running server: the world, the replies sent so far, whether this thread holds
      the module lock, and how often a key was bound or unbound without it. */
  class Server {
    var world: World
    var replies: seq<Reply>
    var locked: bool
    ghost var bare: nat

    constructor (w: World)
      ensures world == w && replies == [] && !locked && bare == 0
    {
      world, replies, locked, bare := w, [], false, 0;
    }

    method Lock()
      requires !locked
      modifies this`locked
      ensures locked
    {
      locked := true;
    }

    method Unlock()
      requires locked
      modifies this`locked
      ensures !locked
    {
      locked := false;
    }

    method Send(r: Reply)
      modifies this`replies
      ensures replies == old(replies) + [r]
    {
      replies := replies + [r];
    }

    /** Points `k` at `e`, or at nothing. */
    method Bind(k: string, e: Option<Entry>, threadSafe: bool)
      modifies this`world, this`bare
      ensures world == old(world).(keys := if e.Some? then old(world).keys[k := e.value]
                                                      else old(world).keys - {k})
      ensures bare == if locked || threadSafe then old(bare) else old(bare) + 1
    {
      match e {
        case Some(x) => world := world.(keys := world.keys[k := x]);
        case None => world := world.(keys := world.keys - {k});
      }
      if !locked && !threadSafe { bare := bare + 1; }
    }

    /** llca_conc_create_event. */
    method Create(argv: seq<Arg>, threadSafe: bool)
      requires Owned(world) && !locked
      modifies this
      ensures Owned(world) && !locked && bare == old(bare)
      ensures Answered(Command(SetCreate, argv), View(old(world)), old(replies), View(world), replies)
    {
      if |argv| != 2 {
        Send(BadArity);
        return;
      }
      if !threadSafe { Lock(); }
      var k := argv[1].text;
      if k in world.keys {
        Send(KeyExists);
        if !threadSafe { Unlock(); }
        return;
      }
      New(world, k, SetObj({}));
      var ll := world.next;
      world := world.(objects := world.objects[ll := SetObj({})], next := ll + 1);
      Bind(k, Some(At(ll)), threadSafe);
      if !threadSafe { Unlock(); }
      Send(OK);
    }

    /** llca_conc_delete_event: the object goes with its key. */
    method Delete(argv: seq<Arg>, threadSafe: bool)
      requires Owned(world) && !locked
      modifies this
      ensures Owned(world) && !locked && bare == old(bare)
      ensures Answered(Command(SetDelete, argv), View(old(world)), old(replies), View(world), replies)
    {
      if |argv| != 2 {
        Send(BadArity);
        return;
      }
      if !threadSafe { Lock(); }
      var k := argv[1].text;
      if k !in world.keys {
        Send(NoKey);
        if !threadSafe { Unlock(); }
        return;
      }
      if !Holds(world, k, false) {
        Send(WrongType);
        if !threadSafe { Unlock(); }
        return;
      }
      Drop(world, k);
      var ll := world.keys[k].obj;
      world := world.(objects := world.objects - {ll});
      Bind(k, None, threadSafe);
      if !threadSafe { Unlock(); }
      Send(OK);
    }

    /** lookup_key: the set's address, or an error reply and nothing. No lock is taken. */
    method LookupKey(k: string) returns (o: Option<nat>)
      requires Owned(world)
      modifies this`replies
      ensures o.Some? <==> Holds(world, k, false)
      ensures o.Some? ==> world.keys[k] == At(o.value) && replies == old(replies)
      ensures o.None? ==> replies == old(replies) + [if k in world.keys then WrongType else NoList]
    {
      if k in world.keys && !Holds(world, k, false) {
        Send(WrongType);
        return None;
      }
      if k !in world.keys {
        Send(NoList);
        return None;
      }
      return Some(world.keys[k].obj);
    }

    /** llca_conc_insert_event, llca_conc_remove_event and llca_conc_contains_event:
        the same guards, then one operation of the skip list. */
    method OnSet(verb: Verb, argv: seq<Arg>)
      requires verb.SetInsert? || verb.SetRemove? || verb.SetContains?
      requires Owned(world) && !locked
      modifies this
      ensures Owned(world) && !locked && bare == old(bare)
      ensures Answered(Command(verb, argv), View(old(world)), old(replies), View(world), replies)
    {
      if |argv| != 3 {
        Send(BadArity);
        return;
      }
      if argv[2].number.None? {
        Send(BadNumber);
        return;
      }
      var k, x := argv[1].text, argv[2].number.value;
      var o := LookupKey(k);
      if o.None? {
        return;
      }
      var s := world.objects[o.value].elements;
      var there := x in s;
      match verb {
        case SetInsert =>
          Put(world, k, SetObj(s + {x}));
          world := world.(objects := world.objects[o.value := SetObj(s + {x})]);
          Send(if there then ValueExists else OK);
        case SetRemove =>
          Put(world, k, SetObj(s - {x}));
          world := world.(objects := world.objects[o.value := SetObj(s - {x})]);
          Send(if there then OK else NoValue);
        case SetContains =>
          Send(if there then OK else NoValue);
      }
    }

    /** The guards that llca_insert_RedisCommand, llca_remove_RedisCommand and
        llca_contains_RedisCommand share: whether to go on, or a reply. The lock covers only the
        key lookup. */
    method CheckList(verb: Verb, argv: seq<Arg>) returns (goOn: bool)
      requires verb.ListInsert? || verb.ListRemove? || verb.ListContains?
      requires Owned(world) && !locked
      modifies this`replies, this`locked
      ensures !locked
      ensures goOn <==> Runs(argv) && (if argv[1].text in world.keys then Holds(world, argv[1].text, true) else verb.ListInsert?)
      ensures goOn ==> replies == old(replies)
      ensures !goOn ==> Answered(Command(verb, argv), View(world), old(replies), View(world), replies)
    {
      if |argv| != 3 {
        Send(BadArity);
        return false;
      }
      Lock();
      var k := argv[1].text;
      var there := k in world.keys;
      Unlock();
      if there && !Holds(world, k, true) {
        Send(WrongType);
        return false;
      }
      if argv[2].number.None? {
        Send(BadNumber);
        return false;
      }
      if !there && !verb.ListInsert? {
        Send(NoList);
        return false;
      }
      return true;
    }

    /** Opens the list of a command, if the guards let it through; an insert that creates the key
        binds it with the lock released. */
    method OpenList(verb: Verb, argv: seq<Arg>) returns (o: Option<nat>)
      requires verb.ListInsert? || verb.ListRemove? || verb.ListContains?
      requires Owned(world) && !locked
      modifies this
      ensures Owned(world) && !locked
      ensures bare == old(bare) + if verb.ListInsert? && Runs(argv) && argv[1].text !in old(world).keys then 1 else 0
      ensures o.None? ==> Answered(Command(verb, argv), View(old(world)), old(replies), View(world), replies)
      ensures o.Some? ==> Runs(argv) && Holds(world, argv[1].text, true)
                          && world.keys[argv[1].text] == At(o.value) && replies == old(replies)
      ensures o.Some? ==> View(world) == (if argv[1].text in old(world).keys then View(old(world))
                                          else View(old(world))[argv[1].text := Bag(multiset{})])
                          && (argv[1].text in old(world).keys || verb.ListInsert?)
    {
      var goOn := CheckList(verb, argv);
      if !goOn {
        return None;
      }
      var k := argv[1].text;
      if k in world.keys {
        return Some(world.keys[k].obj);
      }
      New(world, k, ListObj([]));
      var ll := world.next;
      world := world.(objects := world.objects[ll := ListObj([])], next := ll + 1);
      Bind(k, Some(At(ll)), false);
      return Some(ll);
    }

    /** The three list commands. */
    method OnList(verb: Verb, argv: seq<Arg>)
      requires verb.ListInsert? || verb.ListRemove? || verb.ListContains?
      requires Owned(world) && !locked
      modifies this
      ensures Owned(world) && !locked
      ensures bare == old(bare) + if verb.ListInsert? && Runs(argv) && argv[1].text !in old(world).keys then 1 else 0
      ensures Answered(Command(verb, argv), View(old(world)), old(replies), View(world), replies)
    {
      var o := OpenList(verb, argv);
      if o.None? {
        return;
      }
      var k, x := argv[1].text, argv[2].number.value;
      OnNewBag(View(old(world)), k, x);
      ApplyToList(verb, k, x, o.value);
    }

    /** The operation itself, on an open list. */
    method ApplyToList(verb: Verb, k: string, x: int, o: nat)
      requires verb.ListInsert? || verb.ListRemove? || verb.ListContains?
      requires Owned(world) && Holds(world, k, true) && world.keys[k] == At(o)
      modifies this`world, this`replies
      ensures Owned(world)
      ensures View(world) == OnBag(View(old(world)), verb, k, x).0
      ensures replies == old(replies) + [OnBag(View(old(world)), verb, k, x).1]
    {
      ListStep(world, verb, k, x);
      var s := world.objects[o].values;
      match verb {
        case ListInsert =>
          world := world.(objects := world.objects[o := ListObj(L.Inserted(s, x))]);
          Send(Success);
        case ListRemove =>
          world := world.(objects := world.objects[o := ListObj(L.Removed(s, x))]);
          Send(if x in s then Success else Failure);
        case ListContains =>
          Send(if x in s then Present else Absent);
      }
    }

    /** event::execute of the event a command makes: one reply, the lock given back,
        objects still one to a key, and the effect the command means. */
    method Execute(c: Command, threadSafe: bool)
      requires threadSafe ==> OnSets(c)
      requires Owned(world) && !locked
      modifies this
      ensures Owned(world) && !locked
      ensures Answered(c, View(old(world)), old(replies), View(world), replies)
    {
      match c.verb {
        case SetCreate => Create(c.argv, threadSafe);
        case SetDelete => Delete(c.argv, threadSafe);
        case SetInsert => OnSet(c.verb, c.argv);
        case SetRemove => OnSet(c.verb, c.argv);
        case SetContains => OnSet(c.verb, c.argv);
        case ListInsert => OnList(c.verb, c.argv);
        case ListRemove => OnList(c.verb, c.argv);
        case ListContains => OnList(c.verb, c.argv);
      }
    }
  }

  /** The commands that are also registered with the sequential handler. */
  predicate OnSets(c: Command) {
    !c.verb.ListInsert? && !c.verb.ListRemove? && !c.verb.ListContains?
  }

  /** The arguments of a command on an element: a key and a number. */
  predicate Runs(argv: seq<Arg>) {
    |argv| == 3 && argv[2].number.Some?
  }

  /** `c` took the key space from `v` to `v'` and sent one reply, as it should. */
  ghost predicate Answered(c: Command, v: KeySpace, rs: seq<Reply>, v': KeySpace, rs': seq<Reply>) {
    v' == Meaning(v, c).0 && rs' == rs + [Meaning(v, c).1]
  }

  // ---------------------------------------------------------------------------
  // Objects stay one to a key

  lemma New(w: World, k: string, x: Object)
    requires Owned(w) && k !in w.keys && Tidy(x)
    ensures var w' := World(w.keys[k := At(w.next)], w.objects[w.next := x], w.next + 1);
            Owned(w') && View(w') == View(w)[k := Abstract(x)]
  {
    var w' := World(w.keys[k := At(w.next)], w.objects[w.next := x], w.next + 1);
    assert w'.keys[k] == At(w.next);
    forall o | o in w.objects ensures Bound(w', o) {
      var l :| l in w.keys && w.keys[l] == At(o);
      assert w'.keys[l] == At(o);
    }
  }

  lemma Drop(w: World, k: string)
    requires Owned(w) && k in w.keys && w.keys[k].At?
    ensures var w' := World(w.keys - {k}, w.objects - {w.keys[k].obj}, w.next);
            Owned(w') && View(w') == View(w) - {k}
  {
    var w' := World(w.keys - {k}, w.objects - {w.keys[k].obj}, w.next);
    forall o | o in w'.objects ensures Bound(w', o) {
      var l :| l in w.keys && w.keys[l] == At(o);
      assert w'.keys[l] == At(o);
    }
  }

  lemma Put(w: World, k: string, x: Object)
    requires Owned(w) && k in w.keys && w.keys[k].At? && Tidy(x)
    ensures var w' := w.(objects := w.objects[w.keys[k].obj := x]);
            Owned(w') && View(w') == View(w)[k := Abstract(x)]
  {
    var w' := w.(objects := w.objects[w.keys[k].obj := x]);
    forall o | o in w'.objects ensures Bound(w', o) {
      assert Bound(w, o);
    }
  }

  lemma ReadList(w: World, k: string)
    requires Owned(w) && Holds(w, k, true)
    ensures k in View(w) && View(w)[k] == Bag(multiset(w.objects[w.keys[k].obj].values))
  {
  }

  /** What the operation of a list command does to the cells' values. */
  function Updated(s: seq<int>, verb: Verb, x: int): (t: seq<int>) {
    if verb.ListInsert? then L.Inserted(s, x) else if verb.ListRemove? then L.Removed(s, x) else s
  }

  lemma UpdatedBag(s: seq<int>, verb: Verb, x: int)
    requires L.Sorted(s)
    ensures L.Sorted(Updated(s, verb, x))
    ensures verb.ListInsert? ==> multiset(Updated(s, verb, x)) == multiset(s) + multiset{x}
    ensures verb.ListRemove? ==> multiset(Updated(s, verb, x)) == multiset(s) - multiset{x}
  {
    L.InsertedSorted(s, x);
    L.InsertedAddsOne(s, x);
    L.RemovedSorted(s, x);
    L.RemovedTakesOne(s, x);
  }

  function ListReply(verb: Verb, there: bool): (r: Reply) {
    if verb.ListInsert? then Success
    else if verb.ListRemove? then (if there then Success else Failure)
    else if there then Present else Absent
  }

  lemma OnBagIs(v: KeySpace, verb: Verb, k: string, s: seq<int>, x: int)
    requires verb.ListInsert? || verb.ListRemove? || verb.ListContains?
    requires L.Sorted(s) && k in v && v[k] == Bag(multiset(s))
    ensures OnBag(v, verb, k, x) == (v[k := Bag(multiset(Updated(s, verb, x)))], ListReply(verb, x in s))
  {
    UpdatedBag(s, verb, x);
    assert x in s <==> x in multiset(s);
    assert v[k := v[k]] == v;
  }

  /** Inserting into a list that has just been created is inserting under a new key. */
  lemma OnNewBag(v: KeySpace, k: string, x: int)
    requires k in v ==> v[k].Bag?
    ensures k !in v ==> OnBag(v[k := Bag(multiset{})], ListInsert, k, x) == OnBag(v, ListInsert, k, x)
  {
    var b := Bag(multiset{} + multiset{x});
    assert v[k := Bag(multiset{})][k := b] == v[k := b];
  }

  lemma ListStep(w: World, verb: Verb, k: string, x: int)
    requires verb.ListInsert? || verb.ListRemove? || verb.ListContains?
    requires Owned(w) && Holds(w, k, true)
    ensures var o := w.keys[k].obj;
            var s := w.objects[o].values;
            var w' := w.(objects := w.objects[o := ListObj(Updated(s, verb, x))]);
            && (verb.ListContains? ==> w' == w)
            && Owned(w') && k in View(w) && View(w)[k].Bag?
            && OnBag(View(w), verb, k, x) == (View(w'), ListReply(verb, x in s))
  {
    var o := w.keys[k].obj;
    var s := w.objects[o].values;
    ReadList(w, k);
    OnBagIs(View(w), verb, k, s, x);
    UpdatedBag(s, verb, x);
    Put(w, k, ListObj(Updated(s, verb, x)));
    assert w.objects[o := ListObj(s)] == w.objects;
  }

  // ---------------------------------------------------------------------------
  // Runs of commands

  /** The key space after the commands of `cs` one after the other. */
  ghost function Run(v: KeySpace, cs: seq<Command>): (r: KeySpace) {
    if cs == [] then v else Meaning(Run(v, cs[..|cs| - 1]), cs[|cs| - 1]).0
  }

  /** The reply to command `i` of such a run. */
  ghost function ReplyTo(v: KeySpace, cs: seq<Command>, i: nat): (r: Reply)
    requires i < |cs|
  {
    Meaning(Run(v, cs[..i]), cs[i]).1
  }

  lemma {:induction false} RunNext(v: KeySpace, cs: seq<Command>, c: Command)
    ensures (Run(v, cs + [c]), ReplyTo(v, cs + [c], |cs|)) == Meaning(Run(v, cs), c)
  {
    assert (cs + [c])[..|cs|] == cs;
  }

  lemma {:induction false} ReplyKept(v: KeySpace, cs: seq<Command>, c: Command, i: nat)
    requires i < |cs|
    ensures ReplyTo(v, cs + [c], i) == ReplyTo(v, cs, i)
  {
    assert (cs + [c])[..i] == cs[..i];
  }

  /** seq_handler for each command of `cs`: a stack object that executes at once. */
  method RunSequentially(s: Server, cs: seq<Command>)
    requires forall i: nat :: i < |cs| ==> OnSets(cs[i])
    requires Owned(s.world) && !s.locked
    modifies s
    ensures Owned(s.world) && !s.locked
    ensures View(s.world) == Run(View(old(s.world)), cs)
    ensures |s.replies| == |old(s.replies)| + |cs|
    ensures s.replies[..|old(s.replies)|] == old(s.replies)
    ensures forall i: nat :: i < |cs| ==>
              s.replies[|old(s.replies)| + i] == ReplyTo(View(old(s.world)), cs, i)
  {
    ghost var v, rs := View(s.world), s.replies;
    var n := 0;
    assert cs[..0] == [];
    while n < |cs|
      invariant n <= |cs|
      invariant Owned(s.world) && !s.locked
      invariant View(s.world) == Run(v, cs[..n])
      invariant |s.replies| == |rs| + n && s.replies[..|rs|] == rs
      invariant forall i: nat :: i < n ==> s.replies[|rs| + i] == ReplyTo(v, cs, i)
    {
      s.Execute(cs[n], true);
      assert cs[..n + 1][..n] == cs[..n];
      n := n + 1;
    }
    assert cs[..n] == cs;
  }

  /** LLCA_TYPE.INSERT k x; nothing looks at `argv[0]`. */
  function InsertCommand(k: string, x: int): (c: Command) {
    Command(ListInsert, [Arg([], None), Arg(k, None), Arg([], Some(x))])
  }

  /** llca_aof_rewrite's output for key `k`. */
  function Rewrite(k: string, s: seq<int>): (cs: seq<Command>) {
    seq(|s|, i requires 0 <= i < |s| => InsertCommand(k, s[i]))
  }

  lemma InsertMeans(v: KeySpace, k: string, b: multiset<int>, x: int)
    requires if k in v then v[k] == Bag(b) else b == multiset{}
    ensures Meaning(v, InsertCommand(k, x)).0 == v[k := Bag(b + multiset{x})]
  {
  }

  /** Replaying a rewrite rebuilds the list under its key and touches no other; but a
      list that was emptied emits nothing, and its key is not there again afterwards. */
  lemma {:induction false} RewriteRebuilds(v: KeySpace, k: string, s: seq<int>)
    requires k !in v
    ensures Run(v, Rewrite(k, s)) == if s == [] then v else v[k := Bag(multiset(s))]
    ensures k in Run(v, Rewrite(k, s)) <==> s != []
  {
    if s != [] {
      var n := |s| - 1;
      RewriteRebuilds(v, k, s[..n]);
      assert Rewrite(k, s)[..n] == Rewrite(k, s[..n]);
      InsertMeans(Run(v, Rewrite(k, s[..n])), k, multiset(s[..n]), s[n]);
      assert s == s[..n] + [s[n]];
    }
  }
}

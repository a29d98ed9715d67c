/**
  What runs of the module's commands promise, told by the commands alone: which keys are bound to
  what, which elements a set holds and how often a list holds a value, and, from that, every reply
  (src/skip_list.cpp, src/llca.cpp).
 */
module CommandLaws {
  import opened Common
  import opened Commands

  datatype Kind = Free | Strange | SetKey | ListKey

  function KindOf(v: KeySpace, k: string): (d: Kind) {
    if k !in v then Free
    else match v[k]
      case Other => Strange
      case Ints(_) => SetKey
      case Bag(_) => ListKey
  }

  /** A create or delete of key k, with the right number of arguments. */
  predicate Names(c: Command, verb: Verb, k: string) {
    c.verb == verb && |c.argv| == 2 && c.argv[1].text == k
  }

  /** A command on the element x of key k, with the right number of arguments. */
  predicate Acts(c: Command, verb: Verb, k: string, x: int) {
    c.verb == verb && Runs(c.argv) && c.argv[1].text == k && c.argv[2].number.value == x
  }

  // ---------------------------------------------------------------- what the commands leave

  /** What a command makes of the binding of key k: a free key is taken by a create or by the first
      insert into a list, and only a set can be deleted. */
  function Rebound(d: Kind, c: Command, k: string): (r: Kind) {
    if d.Free? && Names(c, SetCreate, k) then SetKey
    else if d.SetKey? && Names(c, SetDelete, k) then Free
    else if d.Free? && c.verb.ListInsert? && Runs(c.argv) && c.argv[1].text == k then ListKey
    else d
  }

  function KindAfter(v: KeySpace, cs: seq<Command>, k: string): (d: Kind) {
    if cs == [] then KindOf(v, k) else Rebound(KindAfter(v, cs[..|cs| - 1], k), cs[|cs| - 1], k)
  }

  /** Whether the set at k holds x after a command, if it did or did not before: creating and deleting
      k and removing x let it not, inserting x lets it. */
  function Kept(d: Kind, c: Command, k: string, x: int, before: bool): (b: bool) {
    if d.Free? then before && !Names(c, SetCreate, k)
    else if d.SetKey? then
      Acts(c, SetInsert, k, x) || (before && !Acts(c, SetRemove, k, x) && !Names(c, SetDelete, k))
    else before
  }

  function Member(v: KeySpace, cs: seq<Command>, k: string, x: int): (b: bool) {
    if cs == [] then KindOf(v, k).SetKey? && x in v[k].elements
    else
      var g := cs[..|cs| - 1];
      Kept(KindAfter(v, g, k), cs[|cs| - 1], k, x, Member(v, g, k, x))
  }

  /** How often the list at k holds x after a command: inserts add one, removes take one while there
      is one. */
  function Counted(d: Kind, c: Command, k: string, x: int, n: nat): (r: nat) {
    if Acts(c, ListInsert, k, x) && (d.Free? || d.ListKey?) then n + 1
    else if Acts(c, ListRemove, k, x) && d.ListKey? && n > 0 then n - 1
    else n
  }

  function Times(v: KeySpace, cs: seq<Command>, k: string, x: int): (n: nat) {
    if cs == [] then (if KindOf(v, k).ListKey? then v[k].bag[x] else 0)
    else
      var g := cs[..|cs| - 1];
      Counted(KindAfter(v, g, k), cs[|cs| - 1], k, x, Times(v, g, k, x))
  }

  /** Key k of w holds what `d`, `b` and `n` say. */
  ghost predicate KeyIs(w: KeySpace, k: string, d: Kind, b: int -> bool, n: int -> nat) {
    && KindOf(w, k) == d
    && (forall x :: b(x) <==> d.SetKey? && x in w[k].elements)
    && (forall x :: n(x) == if d.ListKey? then w[k].bag[x] else 0)
  }

  /** A command leaves every key but its own alone. */
  lemma OtherKeysKept(v: KeySpace, c: Command, k: string)
    requires |c.argv| < 2 || c.argv[1].text != k
    ensures var w := Meaning(v, c).0; (k in w <==> k in v) && (k in v ==> w[k] == v[k])
  {
  }

  /** What a command makes of what a key holds. */
  ghost predicate KeyStep(w: KeySpace, c: Command, k: string, d: Kind, b: int -> bool, n: int -> nat) {
    KeyIs(w, k, d, b, n) ==>
      KeyIs(Meaning(w, c).0, k, Rebound(d, c, k), x => Kept(d, c, k, x, b(x)), x => Counted(d, c, k, x, n(x)))
  }

  lemma KeyStepOther(w: KeySpace, c: Command, k: string, d: Kind, b: int -> bool, n: int -> nat)
    requires |c.argv| < 2 || c.argv[1].text != k
    ensures KeyStep(w, c, k, d, b, n)
  {
    OtherKeysKept(w, c, k);
  }

  lemma KeyStepName(w: KeySpace, c: Command, k: string, d: Kind, b: int -> bool, n: int -> nat)
    requires |c.argv| >= 2 && c.argv[1].text == k && (c.verb.SetCreate? || c.verb.SetDelete?)
    ensures KeyStep(w, c, k, d, b, n)
  {
  }

  lemma KeyStepSet(w: KeySpace, c: Command, k: string, d: Kind, b: int -> bool, n: int -> nat)
    requires |c.argv| >= 2 && c.argv[1].text == k && (c.verb.SetInsert? || c.verb.SetRemove? || c.verb.SetContains?)
    ensures KeyStep(w, c, k, d, b, n)
  {
  }

  lemma KeyStepList(w: KeySpace, c: Command, k: string, d: Kind, b: int -> bool, n: int -> nat)
    requires |c.argv| >= 2 && c.argv[1].text == k && (c.verb.ListInsert? || c.verb.ListRemove? || c.verb.ListContains?)
    ensures KeyStep(w, c, k, d, b, n)
  {
  }

  lemma AnyKeyStep(w: KeySpace, c: Command, k: string, d: Kind, b: int -> bool, n: int -> nat)
    ensures KeyStep(w, c, k, d, b, n)
  {
    if |c.argv| < 2 || c.argv[1].text != k {
      KeyStepOther(w, c, k, d, b, n);
    } else if c.verb.SetCreate? || c.verb.SetDelete? {
      KeyStepName(w, c, k, d, b, n);
    } else if c.verb.SetInsert? || c.verb.SetRemove? || c.verb.SetContains? {
      KeyStepSet(w, c, k, d, b, n);
    } else {
      KeyStepList(w, c, k, d, b, n);
    }
  }

  lemma SameKey(w: KeySpace, k: string, d: Kind, b: int -> bool, n: int -> nat, b': int -> bool, n': int -> nat)
    requires KeyIs(w, k, d, b, n) && forall x :: b'(x) == b(x) && n'(x) == n(x)
    ensures KeyIs(w, k, d, b', n')
  {
  }

  function Members(v: KeySpace, cs: seq<Command>, k: string): (b: int -> bool) {
    x => Member(v, cs, k, x)
  }

  function Counts(v: KeySpace, cs: seq<Command>, k: string): (n: int -> nat) {
    x => Times(v, cs, k, x)
  }

  /** After any commands the key space is what they say, key by key. */
  lemma {:induction false} RunIs(v: KeySpace, cs: seq<Command>, k: string)
    ensures KeyIs(Run(v, cs), k, KindAfter(v, cs, k), Members(v, cs, k), Counts(v, cs, k))
  {
    if cs != [] {
      var g, c := cs[..|cs| - 1], cs[|cs| - 1];
      RunIs(v, g, k);
      var d, b, n := KindAfter(v, g, k), Members(v, g, k), Counts(v, g, k);
      AnyKeyStep(Run(v, g), c, k, d, b, n);
      SameKey(Run(v, cs), k, Rebound(d, c, k), x => Kept(d, c, k, x, b(x)), x => Counted(d, c, k, x, n(x)),
        Members(v, cs, k), Counts(v, cs, k));
    }
  }

  // ---------------------------------------------------------------- replies

  /** The reply to each command, told by the commands before it. */
  lemma CreateReplies(v: KeySpace, cs: seq<Command>, i: nat)
    requires i < |cs| && (cs[i].verb.SetCreate? || cs[i].verb.SetDelete?)
    ensures var c, r := cs[i], ReplyTo(v, cs, i);
      if |c.argv| != 2 then r == BadArity
      else match KindAfter(v, cs[..i], c.argv[1].text)
        case Free => r == if c.verb.SetCreate? then OK else NoKey
        case SetKey => r == if c.verb.SetCreate? then KeyExists else OK
        case _ => r == if c.verb.SetCreate? then KeyExists else WrongType
  {
    if |cs[i].argv| == 2 { RunIs(v, cs[..i], cs[i].argv[1].text); }
  }

  lemma SetReplies(v: KeySpace, cs: seq<Command>, i: nat)
    requires i < |cs| && (cs[i].verb.SetInsert? || cs[i].verb.SetRemove? || cs[i].verb.SetContains?)
    ensures var c, r := cs[i], ReplyTo(v, cs, i);
      if |c.argv| != 3 then r == BadArity
      else if c.argv[2].number.None? then r == BadNumber
      else
        var k, x := c.argv[1].text, c.argv[2].number.value;
        match KindAfter(v, cs[..i], k)
        case Free => r == NoList
        case SetKey =>
          && (c.verb.SetInsert? ==> r == if Member(v, cs[..i], k, x) then ValueExists else OK)
          && (!c.verb.SetInsert? ==> r == if Member(v, cs[..i], k, x) then OK else NoValue)
        case _ => r == WrongType
  {
    if Runs(cs[i].argv) {
      var k, x := cs[i].argv[1].text, cs[i].argv[2].number.value;
      RunIs(v, cs[..i], k);
      assert Members(v, cs[..i], k)(x) == Member(v, cs[..i], k, x);
    }
  }

  lemma ListReplies(v: KeySpace, cs: seq<Command>, i: nat)
    requires i < |cs| && (cs[i].verb.ListInsert? || cs[i].verb.ListRemove? || cs[i].verb.ListContains?)
    ensures var c, r := cs[i], ReplyTo(v, cs, i);
      if |c.argv| != 3 then r == BadArity
      else
        var k, d := c.argv[1].text, KindAfter(v, cs[..i], c.argv[1].text);
        if d.Strange? || d.SetKey? then r == WrongType
        else if c.argv[2].number.None? then r == BadNumber
        else
          var n := Times(v, cs[..i], k, c.argv[2].number.value);
          match c.verb
          case ListInsert => r == Success
          case ListRemove => r == if d.Free? then NoList else if n > 0 then Success else Failure
          case _ => r == if d.Free? then NoList else if n > 0 then Present else Absent
  {
    if |cs[i].argv| == 3 {
      var k := cs[i].argv[1].text;
      RunIs(v, cs[..i], k);
      if cs[i].argv[2].number.Some? {
        var x := cs[i].argv[2].number.value;
        assert Counts(v, cs[..i], k)(x) == Times(v, cs[..i], k, x);
      }
    }
  }

  /** Only a command that reports success changes anything; the commands that look something up
      never do. */
  lemma OnlySuccessChanges(v: KeySpace, c: Command)
    requires Meaning(v, c).0 != v
    ensures Meaning(v, c).1 == if OnSets(c) then OK else Success
    ensures !c.verb.SetContains? && !c.verb.ListContains?
  {
    if Runs(c.argv) && c.argv[1].text in v {
      UnchangedBag(v, c.argv[1].text, c.argv[2].number.value);
      UnchangedSet(v, c.argv[1].text, c.argv[2].number.value);
    }
  }

  lemma UnchangedSet(v: KeySpace, k: string, x: int)
    requires k in v
    ensures v[k].Ints? && x in v[k].elements ==> v[k := Ints(v[k].elements + {x})] == v
    ensures v[k].Ints? && x !in v[k].elements ==> v[k := Ints(v[k].elements - {x})] == v
  {
    if v[k].Ints? {
      assert x in v[k].elements ==> v[k].elements + {x} == v[k].elements;
      assert x !in v[k].elements ==> v[k].elements - {x} == v[k].elements;
    }
  }

  lemma UnchangedBag(v: KeySpace, k: string, x: int)
    requires k in v
    ensures v[k].Bag? && x !in v[k].bag ==> v[k := Bag(v[k].bag - multiset{x})] == v
  {
    if v[k].Bag? && x !in v[k].bag {
      assert v[k].bag - multiset{x} == v[k].bag;
    }
  }

  // ---------------------------------------------------------------- in so many words

  /** The command at j inserted x into k, and none after it removed x from k or deleted k. */
  ghost predicate InsertedLast(cs: seq<Command>, k: string, x: int, j: nat) {
    && j < |cs| && Acts(cs[j], SetInsert, k, x) && Untouched(cs, k, x, j + 1)
  }

  /** No command from the m-th on removes x from k or deletes k. */
  ghost predicate Untouched(cs: seq<Command>, k: string, x: int, m: nat) {
    forall i :: m <= i < |cs| ==> !Acts(cs[i], SetRemove, k, x) && !Names(cs[i], SetDelete, k)
  }

  /** The set at k holds x exactly if some insert of x found k to be a set, and since then x was not
      removed nor k deleted; or if it was there to begin with and none of this ever happened. */
  lemma {:induction false} MemberIff(v: KeySpace, cs: seq<Command>, k: string, x: int)
    ensures Member(v, cs, k, x) <==>
      || (KindOf(v, k).SetKey? && x in v[k].elements && Untouched(cs, k, x, 0))
      || (exists j: nat :: InsertedLast(cs, k, x, j) && KindAfter(v, cs[..j], k).SetKey?)
    ensures Member(v, cs, k, x) ==> KindAfter(v, cs, k).SetKey?
  {
    if cs != [] {
      var n, g, c := |cs| - 1, cs[..|cs| - 1], cs[|cs| - 1];
      MemberIff(v, g, k, x);
      assert Untouched(cs, k, x, 0) <==> Untouched(g, k, x, 0) && !Acts(c, SetRemove, k, x) && !Names(c, SetDelete, k);
      forall j: nat | j < n
        ensures cs[..j] == g[..j]
        ensures InsertedLast(cs, k, x, j) <==>
          InsertedLast(g, k, x, j) && !Acts(c, SetRemove, k, x) && !Names(c, SetDelete, k)
      {
      }
      assert InsertedLast(cs, k, x, n) <==> Acts(c, SetInsert, k, x);
      assert cs[..n] == g;
    }
  }

  /** The lookup answers OK exactly if the last insert or remove of x, since k was created, was an
      insert; so does the remove, and the insert then says that the value exists. */
  lemma LookupSeesLast(v: KeySpace, cs: seq<Command>, i: nat, k: string, x: int)
    requires i < |cs| && KindAfter(v, cs[..i], k).SetKey?
    requires Acts(cs[i], SetContains, k, x) || Acts(cs[i], SetRemove, k, x) || Acts(cs[i], SetInsert, k, x)
    ensures var g := cs[..i];
      (ReplyTo(v, cs, i) == if cs[i].verb.SetInsert? then ValueExists else OK) <==>
        || (KindOf(v, k).SetKey? && x in v[k].elements && Untouched(g, k, x, 0))
        || (exists j: nat :: InsertedLast(g, k, x, j) && KindAfter(v, g[..j], k).SetKey?)
  {
    SetReplies(v, cs, i);
    MemberIff(v, cs[..i], k, x);
  }

  /** Inserts of x into k less removes of x from k, counting those that were answered with success. */
  ghost function Balance(v: KeySpace, cs: seq<Command>, k: string, x: int): (n: int) {
    if cs == [] then 0
    else
      var c := cs[|cs| - 1];
      Balance(v, cs[..|cs| - 1], k, x) +
      (if ReplyTo(v, cs, |cs| - 1) != Success then 0
       else if Acts(c, ListInsert, k, x) then 1
       else if Acts(c, ListRemove, k, x) then -1
       else 0)
  }

  /** The list at k holds x as often as it did to begin with plus that balance; a lookup finds x
      present, and a remove succeeds, exactly if that is not zero. */
  lemma {:induction false} TimesBalance(v: KeySpace, cs: seq<Command>, k: string, x: int)
    ensures Times(v, cs, k, x) == Times(v, [], k, x) + Balance(v, cs, k, x)
  {
    if cs != [] {
      TimesBalance(v, cs[..|cs| - 1], k, x);
      var n, c := |cs| - 1, cs[|cs| - 1];
      if Acts(c, ListInsert, k, x) || Acts(c, ListRemove, k, x) { ListReplies(v, cs, n); }
    }
  }
}

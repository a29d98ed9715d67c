/** The linked list of src/llca.cpp: cells that are relinked and freed in place,
    the stream it is saved to, and the commands it is rewritten as. */
module SortedList {

  /** `size_t len` and `uint64_t elements` count modulo this. */
  const WORD_SIZE: nat := 0x1_0000_0000_0000_0000

  // ---------------------------------------------------------------------------
  // What a list is: a sorted sequence, which its multiset determines

  ghost predicate Sorted(s: seq<int>) {
    |s| < 2 || (s[0] <= s[1] && Sorted(s[1..]))
  }

  /** `v` goes in front of the first element that is not smaller. */
  function Inserted(s: seq<int>, v: int): (r: seq<int>) {
    if s != [] && s[0] < v then [s[0]] + Inserted(s[1..], v) else [v] + s
  }

  /** The first copy of `v` goes. */
  function Removed(s: seq<int>, v: int): (r: seq<int>) {
    if s == [] then [] else if s[0] == v then s[1..] else [s[0]] + Removed(s[1..], v)
  }

  /** `s` with `x` put in at position `k`. */
  function With<T>(s: seq<T>, k: nat, x: T): (r: seq<T>)
    requires k <= |s|
  {
    seq(|s| + 1, i requires 0 <= i < |s| + 1 => if i < k then s[i] else if i == k then x else s[i - 1])
  }

  /** `s` with position `k` taken out. */
  function Without<T>(s: seq<T>, k: nat): (r: seq<T>)
    requires k < |s|
  {
    seq(|s| - 1, i requires 0 <= i < |s| - 1 => if i < k then s[i] else s[i + 1])
  }

  lemma {:induction false} HeadLeast(s: seq<int>, x: int)
    requires Sorted(s) && x in s
    ensures s[0] <= x
  {
    if x != s[0] { HeadLeast(s[1..], x); }
  }

  lemma {:induction false} SortedCons(x: int, s: seq<int>)
    requires Sorted(s) && (s == [] || x <= s[0])
    ensures Sorted([x] + s)
  {
    assert ([x] + s)[1..] == s;
  }

  lemma {:induction false} InsertedAt(s: seq<int>, v: int, k: nat)
    requires k <= |s|
    requires forall i: nat :: i < k ==> s[i] < v
    requires k < |s| ==> v <= s[k]
    ensures Inserted(s, v) == With(s, k, v)
  {
    if k > 0 {
      InsertedAt(s[1..], v, k - 1);
      assert With(s, k, v) == [s[0]] + With(s[1..], k - 1, v);
    } else {
      assert With(s, k, v) == [v] + s;
    }
  }

  lemma {:induction false} RemovedAt(s: seq<int>, v: int, k: nat)
    requires k < |s| && s[k] == v
    requires forall i: nat :: i < k ==> s[i] != v
    ensures Removed(s, v) == Without(s, k)
  {
    if k > 0 {
      RemovedAt(s[1..], v, k - 1);
    }
  }

  lemma {:induction false} RemovedNothing(s: seq<int>, v: int)
    requires v !in s
    ensures Removed(s, v) == s
  {
    if s != [] { RemovedNothing(s[1..], v); }
  }

  lemma {:induction false} InsertedAddsOne(s: seq<int>, v: int)
    ensures multiset(Inserted(s, v)) == multiset(s) + multiset{v}
  {
    if s != [] && s[0] < v {
      InsertedAddsOne(s[1..], v);
      assert s == [s[0]] + s[1..];
    }
  }

  lemma {:induction false} RemovedTakesOne(s: seq<int>, v: int)
    ensures multiset(Removed(s, v)) == multiset(s) - multiset{v}
  {
    if s != [] {
      assert s == [s[0]] + s[1..];
      RemovedTakesOne(s[1..], v);
    }
  }

  lemma {:induction false} InsertedSorted(s: seq<int>, v: int)
    requires Sorted(s)
    ensures Sorted(Inserted(s, v))
  {
    if s != [] && s[0] < v {
      InsertedSorted(s[1..], v);
      SortedCons(s[0], Inserted(s[1..], v));
    } else {
      SortedCons(v, s);
    }
  }

  lemma {:induction false} RemovedSorted(s: seq<int>, v: int)
    requires Sorted(s)
    ensures Sorted(Removed(s, v))
    ensures forall x :: x in Removed(s, v) ==> x in s
  {
    if s != [] && s[0] != v {
      RemovedSorted(s[1..], v);
      var t := Removed(s[1..], v);
      if t != [] { HeadLeast(s, t[0]); }
      SortedCons(s[0], t);
    }
  }

  lemma {:induction false} TailMultiset(s: seq<int>)
    requires s != []
    ensures multiset(s[1..]) == multiset(s) - multiset{s[0]}
  {
    assert s == [s[0]] + s[1..];
  }

  /** Equal multisets, equal sorted sequences: what a list holds fixes what
      saving and digesting it emit, whatever history built it. */
  lemma {:induction false} SortedUnique(a: seq<int>, b: seq<int>)
    requires Sorted(a) && Sorted(b) && multiset(a) == multiset(b)
    ensures a == b
  {
    assert |a| == |multiset(a)| && |b| == |multiset(b)|;
    if a != [] {
      SameHead(a, b);
      TailMultiset(a);
      TailMultiset(b);
      SortedUnique(a[1..], b[1..]);
      assert a == [a[0]] + a[1..] && b == [b[0]] + b[1..];
    }
  }

  lemma {:induction false} SameHead(a: seq<int>, b: seq<int>)
    requires Sorted(a) && Sorted(b) && multiset(a) == multiset(b) && a != [] && b != []
    ensures a[0] == b[0]
  {
    assert a[0] in multiset(a) && b[0] in multiset(b);
    HeadLeast(a, b[0]);
    HeadLeast(b, a[0]);
  }

  // ---------------------------------------------------------------------------
  // The cells

  class Node {
    var value: int
    var next: Node?

    constructor (value: int, next: Node?)
      ensures this.value == value && this.next == next
    {
      this.value := value;
      this.next := next;
    }
  }

  function At(nodes: seq<Node>, i: nat): (n: Node?) {
    if i < |nodes| then nodes[i] else null
  }

  ghost predicate Distinct(nodes: seq<Node>) {
    forall i: nat, j: nat :: i < j < |nodes| ==> nodes[i] != nodes[j]
  }

  lemma {:induction false} DistinctWithout(nodes: seq<Node>, k: nat)
    requires Distinct(nodes) && k < |nodes|
    ensures Distinct(Without(nodes, k)) && nodes[k] !in Without(nodes, k)
  {
  }

  lemma {:induction false} DistinctWith(nodes: seq<Node>, k: nat, n: Node)
    requires Distinct(nodes) && k <= |nodes| && n !in nodes
    ensures Distinct(With(nodes, k, n))
  {
  }

  ghost predicate Follows(head: Node?, nodes: seq<Node>)
    reads nodes`next
  {
    && head == At(nodes, 0)
    && (forall i: nat, j: nat :: i < j < |nodes| && j == i + 1 ==> nodes[i].next == nodes[j])
    && (nodes != [] ==> nodes[|nodes| - 1].next == null)
  }

  /** The links lead past position `k`. */
  ghost predicate LeadPast(head: Node?, nodes: seq<Node>, k: nat)
    requires k < |nodes|
    reads nodes`next
  {
    && head == At(nodes, if k == 0 then 1 else 0)
    && (forall i: nat, j: nat :: i < j < |nodes| && i != k && j != k && j == (if i + 1 == k then k + 1 else i + 1)
          ==> nodes[i].next == nodes[j])
    && (k < |nodes| - 1 ==> nodes[|nodes| - 1].next == null)
    && (0 < k == |nodes| - 1 ==> nodes[k - 1].next == null)
  }

  lemma {:induction false} FollowsWithout(head: Node?, nodes: seq<Node>, k: nat)
    requires k < |nodes| && LeadPast(head, nodes, k)
    ensures Follows(head, Without(nodes, k))
  {
    var now := Without(nodes, k);
    forall i: nat, j: nat | i < j < |now| && j == i + 1 ensures now[i].next == now[j] {
      assert now[i] == nodes[if i < k then i else i + 1];
      assert now[j] == nodes[if j < k then j else j + 1];
    }
  }

  /** The links lead through `n` between the positions `k - 1` and `k`. */
  ghost predicate LeadThrough(head: Node?, nodes: seq<Node>, k: nat, n: Node)
    requires k <= |nodes|
    reads nodes`next, n`next
  {
    && head == (if k == 0 then n else nodes[0])
    && (forall i: nat, j: nat :: i < j < |nodes| && j == i + 1 && j != k ==> nodes[i].next == nodes[j])
    && (k < |nodes| ==> nodes[|nodes| - 1].next == null)
    && n.next == At(nodes, k) && (k > 0 ==> nodes[k - 1].next == n)
  }

  lemma {:induction false} FollowsWith(head: Node?, nodes: seq<Node>, k: nat, n: Node)
    requires k <= |nodes| && LeadThrough(head, nodes, k, n)
    ensures Follows(head, With(nodes, k, n))
  {
  }

  /** The cells hold the values and are not freed. */
  ghost predicate Hold(nodes: seq<Node>, values: seq<int>, freed: set<Node>)
    reads nodes`value
  {
    |values| == |nodes| && forall i: nat :: i < |nodes| ==> nodes[i].value == values[i] && nodes[i] !in freed
  }

  lemma {:induction false} HoldWith(nodes: seq<Node>, values: seq<int>, freed: set<Node>, k: nat, n: Node)
    requires Hold(nodes, values, freed) && k <= |nodes| && n !in freed
    ensures Hold(With(nodes, k, n), With(values, k, n.value), freed)
  {
  }

  lemma {:induction false} SplicedIn(head: Node?, nodes: seq<Node>, values: seq<int>, freed: set<Node>, v: int, n: Node, k: nat)
    requires Hold(nodes, values, freed) && Sorted(values) && Distinct(nodes)
    requires k <= |nodes| && LeadThrough(head, nodes, k, n) && n !in nodes && n !in freed && n.value == v
    requires (k < |values| ==> v <= values[k]) && forall i: nat :: i < k ==> values[i] < v
    ensures Follows(head, With(nodes, k, n)) && Hold(With(nodes, k, n), With(values, k, v), freed)
    ensures Distinct(With(nodes, k, n)) && Sorted(With(values, k, v)) && Inserted(values, v) == With(values, k, v)
  {
    FollowsWith(head, nodes, k, n);
    HoldWith(nodes, values, freed, k, n);
    DistinctWith(nodes, k, n);
    InsertedAt(values, v, k);
    InsertedSorted(values, v);
  }

  lemma {:induction false} SplicedOut(values: seq<int>, nodes: seq<Node>, v: int, k: nat)
    requires k < |nodes| == |values| && Sorted(values) && Distinct(nodes)
    requires values[k] == v && forall i: nat :: i < k ==> values[i] != v
    ensures Removed(values, v) == Without(values, k) && Sorted(Without(values, k))
    ensures Distinct(Without(nodes, k)) && nodes[k] !in Without(nodes, k)
  {
    RemovedAt(values, v, k);
    RemovedSorted(values, v);
    DistinctWithout(nodes, k);
  }

  class List {
    var head: Node?
    var len: nat
    ghost var nodes: seq<Node>   // the cells, in link order
    ghost var values: seq<int>   // what they hold
    ghost var freed: set<Node>   // the cells handed back to the allocator

    /** Following `next` from `head` visits `nodes` and stops: no cycle, no cell
        twice, no freed cell, and the values ascend. */
    ghost predicate Valid()
      reads this, nodes
    {
      Follows(head, nodes) && Cells()
    }

    ghost predicate Cells()
      reads this, nodes
    {
      && Distinct(nodes)
      && Hold(nodes, values, freed)
      && Sorted(values)
      && len < WORD_SIZE
    }

    /** createLLCAObject. */
    constructor ()
      ensures Valid() && values == [] && nodes == [] && len == 0 && freed == {}
    {
      head, len, nodes, values, freed := null, 0, [], [], {};
    }

    /** llca_insert. */
    method Insert(v: int) returns (ghost k: nat, ghost cell: Node)
      requires Valid()
      modifies this, nodes
      ensures Valid()
      ensures values == Inserted(old(values), v)
      ensures len == (old(len) + 1) % WORD_SIZE
      ensures freed == old(freed)
      ensures k <= |old(nodes)| && fresh(cell) && nodes == With(old(nodes), k, cell)
    {
      var prev, next;
      prev, next, k := Locate(v);
      var node := new Node(v, next);
      cell := node;
      len := (len + 1) % WORD_SIZE;
      Link(prev, node, k);
      Adopt(v, k, node);
    }

    /** The loop of llca_insert: the first cell that is not smaller, and the one before it. */
    method Locate(v: int) returns (prev: Node?, next: Node?, ghost k: nat)
      requires Valid()
      ensures k <= |nodes| && next == At(nodes, k)
      ensures prev == if k == 0 then null else nodes[k - 1]
      ensures k < |nodes| ==> v <= values[k]
      ensures forall i: nat :: i < k ==> values[i] < v
    {
      next, prev, k := head, null, 0;
      while next != null && next.value < v
        invariant k <= |nodes| && next == At(nodes, k)
        invariant prev == if k == 0 then null else nodes[k - 1]
        invariant forall i: nat :: i < k ==> values[i] < v
        decreases |nodes| - k
      {
        prev := next;
        next := next.next;
        k := k + 1;
      }
    }

    /** Links a cell in at position `k`, behind `prev`. */
    method Link(prev: Node?, node: Node, ghost k: nat)
      requires Valid() && k <= |nodes| && prev == (if k == 0 then null else nodes[k - 1])
      requires node !in nodes && node.next == At(nodes, k)
      modifies this`head, nodes`next
      ensures Cells() && LeadThrough(head, nodes, k, node)
    {
      if prev != null {
        prev.next := node;
      } else {
        head := node;
      }
    }

    /** Keeps account of a cell that was linked in. */
    ghost method Adopt(v: int, k: nat, node: Node)
      requires Cells() && k <= |nodes| && LeadThrough(head, nodes, k, node)
      requires k < |nodes| ==> v <= values[k]
      requires forall i: nat :: i < k ==> values[i] < v
      requires node !in nodes && node !in freed && node.value == v
      modifies this`nodes, this`values
      ensures Valid()
      ensures nodes == With(old(nodes), k, node)
      ensures values == Inserted(old(values), v)
    {
      SplicedIn(head, nodes, values, freed, v, node, k);
      var ns, vs := With(nodes, k, node), With(values, k, v);
      assert Follows(head, ns) && Hold(ns, vs, freed);
      nodes, values := ns, vs;
    }

    /** Leads the links from `prev` past cell `k` to `next`. */
    method Unlink(prev: Node?, next: Node?, ghost k: nat)
      requires Valid() && k < |nodes|
      requires prev == (if k == 0 then null else nodes[k - 1]) && next == At(nodes, k + 1)
      modifies this`head, nodes`next
      ensures Cells() && LeadPast(head, nodes, k)
    {
      if prev != null {
        prev.next := next;
      } else {
        head := next;
      }
    }

    /** RedisModule_Free of cell `k`, which the links lead past. */
    ghost method Free(v: int, k: nat)
      requires Cells() && k < |nodes| && LeadPast(head, nodes, k)
      requires v == values[k] && forall i: nat :: i < k ==> values[i] != v
      modifies this`nodes, this`values, this`freed
      ensures Valid()
      ensures nodes == Without(old(nodes), k)
      ensures freed == old(freed) + {old(nodes)[k]}
      ensures values == Removed(old(values), v)
    {
      SplicedOut(values, nodes, v, k);
      FollowsWithout(head, nodes, k);
      freed := freed + {nodes[k]};
      nodes := Without(nodes, k);
      values := Without(values, k);
    }

    /** llca_remove: one copy goes and exactly its cell is freed, or nothing changes.
        `len` stays as it was either way. */
    method Remove(v: int) returns (ok: bool)
      requires Valid()
      modifies this, nodes
      ensures Valid()
      ensures ok <==> v in old(values)
      ensures values == Removed(old(values), v)
      ensures len == old(len)
      ensures !ok ==> nodes == old(nodes) && freed == old(freed)
      ensures ok ==> exists k: nat :: k < |old(nodes)| && old(values)[k] == v
                                      && nodes == Without(old(nodes), k)
                                      && freed == old(freed) + {old(nodes)[k]}
    {
      if head == null {
        return false;
      }
      var cur := head;
      var prev := cur;
      if cur.value == v {
        Unlink(null, cur.next, 0);
        Free(v, 0);
        return true;
      }
      ghost var k: nat := 0;
      while cur.next != null && cur.value != v
        invariant k < |nodes|
        invariant cur == nodes[k]
        invariant prev == nodes[if k == 0 then 0 else k - 1]
        invariant forall i: nat :: i < k ==> values[i] != v
        decreases |nodes| - k
      {
        prev := cur;
        cur := cur.next;
        k := k + 1;
      }
      assert k + 1 < |nodes| ==> cur.next == nodes[k + 1];
      if cur.next == null {
        if cur.value == v {
          Unlink(prev, null, k);
          Free(v, k);
          return true;
        } else {
          RemovedNothing(values, v);
          return false;
        }
      }
      Unlink(prev, cur.next, k);
      Free(v, k);
      return true;
    }

    /** llca_contains. */
    method Contains(v: int) returns (found: bool)
      requires Valid()
      ensures found <==> v in values
    {
      var cur := head;
      ghost var k: nat := 0;
      while cur != null
        invariant k <= |nodes| && cur == At(nodes, k)
        invariant forall i: nat :: i < k ==> values[i] != v
        decreases |nodes| - k
      {
        if cur.value == v {
          assert values[k] == v;
          return true;
        }
        cur := cur.next;
        k := k + 1;
      }
      return false;
    }

    /** llca_release: every linked cell is freed, each once, and none is read after it is. */
    method Release()
      requires Valid()
      modifies this`freed
      ensures freed == old(freed) + set n | n in nodes
    {
      var cur := head;
      ghost var k: nat := 0;
      while cur != null
        invariant k <= |nodes| && cur == At(nodes, k)
        invariant freed == old(freed) + set n | n in nodes[..k]
        invariant forall i: nat :: k <= i < |nodes| ==> nodes[i] !in freed
        decreases |nodes| - k
      {
        assert cur !in freed;
        var next := cur.next;
        freed := freed + {cur};
        cur := next;
        assert nodes[..k + 1] == nodes[..k] + [nodes[k]];
        k := k + 1;
      }
      assert nodes[..k] == nodes;
    }

    /** llca_rdb_save. */
    method RdbSave() returns (io: seq<Item>)
      requires Valid()
      ensures io == Saved(len, values)
      ensures |io| == |values| + 1 && io[0] == Unsigned(len)
      ensures forall i: nat :: i < |values| ==> io[i + 1] == Signed(values[i])
    {
      var node := head;
      io := [Unsigned(len)];
      ghost var k: nat := 0;
      while node != null
        invariant k <= |nodes| && node == At(nodes, k)
        invariant io == Saved(len, values[..k])
        decreases |nodes| - k
      {
        io := io + [Signed(node.value)];
        node := node.next;
        k := k + 1;
      }
      assert values[..k] == values;
    }

    /** llca_aof_rewrite: one LLCA_TYPE.INSERT a cell. */
    method AofRewrite() returns (inserts: seq<int>)
      requires Valid()
      ensures inserts == values
    {
      var node := head;
      inserts := [];
      ghost var k: nat := 0;
      while node != null
        invariant k <= |nodes| && node == At(nodes, k)
        invariant inserts == values[..k]
        decreases |nodes| - k
      {
        inserts := inserts + [node.value];
        node := node.next;
        k := k + 1;
      }
    }
  }

  // ---------------------------------------------------------------------------
  // The saved stream

  datatype Item = Unsigned(count: nat) | Signed(value: int)

  datatype Loaded = Loaded(values: seq<int>, rest: seq<Item>) | Malformed

  function Saved(len: nat, s: seq<int>): (io: seq<Item>) {
    [Unsigned(len)] + Signeds(s)
  }

  function Signeds(s: seq<int>): (io: seq<Item>) {
    seq(|s|, i requires 0 <= i < |s| => Signed(s[i]))
  }

  /** What reading a header and then that many elements through llca_insert gives. */
  function LoadStream(io: seq<Item>): (r: Loaded) {
    if io == [] || !io[0].Unsigned? then Malformed else LoadItems(io[0].count, io[1..], [])
  }

  function LoadItems(n: nat, io: seq<Item>, acc: seq<int>): (r: Loaded) {
    if n == 0 then Loaded(acc, io)
    else if io == [] || !io[0].Signed? then Malformed
    else LoadItems(n - 1, io[1..], Inserted(acc, io[0].value))
  }

  /** llca_rdb_load. No list comes back for an encoding other than 0, nor when the
      stream does not hold what the header announces. */
  method RdbLoad(io: seq<Item>, encver: int) returns (ll: List?, rest: seq<Item>)
    ensures ll != null <==> encver == 0 && LoadStream(io).Loaded?
    ensures ll != null ==> fresh(ll) && ll.Valid() && Loaded(ll.values, rest) == LoadStream(io)
    ensures ll != null ==> ll.len == |ll.values| % WORD_SIZE && ll.freed == {}
  {
    if encver != 0 || io == [] || !io[0].Unsigned? {
      return null, io;
    }
    var ok, l;
    ok, l, rest := LoadElements(io[0].count, io[1..]);
    ll := if ok then l else null;
  }

  /** A list that has only been inserted into, all of whose cells are in `cells`. */
  ghost predicate NewList(ll: List, cells: set<Node>)
    reads ll, ll.nodes
  {
    && ll.Valid() && ll.freed == {} && ll.len == |ll.values| % WORD_SIZE
    && forall i: nat :: i < |ll.nodes| ==> ll.nodes[i] in cells
  }

  method LoadOne(ll: List, x: int, ghost cells: set<Node>) returns (ghost more: set<Node>)
    requires NewList(ll, cells)
    modifies ll, cells
    ensures NewList(ll, more) && fresh(more - cells)
    ensures ll.values == Inserted(old(ll.values), x)
  {
    InsertedLength(ll.values, x);
    CountOneMore(|ll.values|);
    ghost var k, cell := ll.Insert(x);
    more := cells + {cell};
  }

  method LoadElements(n: nat, io: seq<Item>) returns (ok: bool, ll: List, rest: seq<Item>)
    ensures ok <==> LoadItems(n, io, []).Loaded?
    ensures fresh(ll) && ll.Valid() && ll.freed == {} && ll.len == |ll.values| % WORD_SIZE
    ensures ok ==> Loaded(ll.values, rest) == LoadItems(n, io, [])
  {
    ll := new List();
    rest := io;
    var elements := n;
    ghost var cells: set<Node> := {};
    while elements != 0
      invariant fresh(ll) && fresh(cells) && NewList(ll, cells)
      invariant LoadItems(n, io, []) == LoadItems(elements, rest, ll.values)
    {
      elements := elements - 1;
      if rest == [] || !rest[0].Signed? {
        return false, ll, rest;
      }
      cells := LoadOne(ll, rest[0].value, cells);
      rest := rest[1..];
    }
    ok := true;
  }

  lemma {:induction false} CountOneMore(n: nat)
    ensures (n % WORD_SIZE + 1) % WORD_SIZE == (n + 1) % WORD_SIZE
  {
  }

  /** llca_insert of each element of `t` in turn. */
  function InsertAll(acc: seq<int>, t: seq<int>): (r: seq<int>)
    decreases |t|
  {
    if t == [] then acc else InsertAll(Inserted(acc, t[0]), t[1..])
  }

  lemma {:induction false} InsertAllSorts(acc: seq<int>, t: seq<int>)
    requires Sorted(acc)
    ensures Sorted(InsertAll(acc, t))
    ensures multiset(InsertAll(acc, t)) == multiset(acc) + multiset(t)
    decreases |t|
  {
    if t != [] {
      InsertedSorted(acc, t[0]);
      InsertedAddsOne(acc, t[0]);
      InsertAllSorts(Inserted(acc, t[0]), t[1..]);
      TailMultiset(t);
    }
  }

  /** Inserting a sorted sequence one by one rebuilds it. */
  lemma {:induction false} InsertAllRebuilds(s: seq<int>)
    requires Sorted(s)
    ensures InsertAll([], s) == s
  {
    InsertAllSorts([], s);
    SortedUnique(InsertAll([], s), s);
  }

  lemma {:induction false} LoadItemsReads(t: seq<int>, rest: seq<Item>, acc: seq<int>)
    ensures LoadItems(|t|, Signeds(t) + rest, acc) == Loaded(InsertAll(acc, t), rest)
  {
    if t == [] {
      assert Signeds(t) + rest == rest;
    } else {
      var io := Signeds(t) + rest;
      assert io[1..] == Signeds(t[1..]) + rest;
      LoadItemsReads(t[1..], rest, Inserted(acc, t[0]));
    }
  }

  lemma {:induction false} LoadItemsLength(n: nat, io: seq<Item>, acc: seq<int>)
    requires LoadItems(n, io, acc).Loaded?
    ensures |LoadItems(n, io, acc).values| == |acc| + n
  {
    if n > 0 {
      InsertedLength(acc, io[0].value);
      LoadItemsLength(n - 1, io[1..], Inserted(acc, io[0].value));
    }
  }

  lemma {:induction false} InsertedLength(s: seq<int>, v: int)
    ensures |Inserted(s, v)| == |s| + 1
  {
    if s != [] && s[0] < v { InsertedLength(s[1..], v); }
  }

  lemma {:induction false} LoadSaved(t: seq<int>, rest: seq<Item>)
    ensures LoadStream(Saved(|t|, t) + rest) == Loaded(InsertAll([], t), rest)
  {
    var io := Saved(|t|, t) + rest;
    assert io[0] == Unsigned(|t|) && io[1..] == Signeds(t) + rest;
    LoadItemsReads(t, rest, []);
  }

  lemma {:induction false} LoadLength(len: nat, s: seq<int>)
    requires LoadStream(Saved(len, s)).Loaded?
    ensures |LoadStream(Saved(len, s)).values| == len
  {
    LoadItemsLength(len, Saved(len, s)[1..], []);
  }

  /** Whatever follows a saved list in the file, loading gives the list back and
      stops right behind it. */
  ghost predicate RoundTrips(len: nat, s: seq<int>) {
    forall rest: seq<Item> :: LoadStream(Saved(len, s) + rest) == Loaded(s, rest)
  }

  /** Saving and loading is a round trip exactly when `len` is the number of cells. */
  lemma {:induction false} RoundTripsIff(len: nat, s: seq<int>)
    requires Sorted(s)
    ensures RoundTrips(len, s) <==> len == |s|
  {
    if len == |s| {
      InsertAllRebuilds(s);
      forall rest: seq<Item> ensures LoadStream(Saved(len, s) + rest) == Loaded(s, rest) {
        LoadSaved(s, rest);
      }
    } else if RoundTrips(len, s) {
      assert Saved(len, s) + [] == Saved(len, s);
      LoadLength(len, s);
    }
  }

  /** With a stale `len` the load does not stop at the list's end: it takes the
      elements that follow, which belong to something else, into the list. */
  lemma {:induction false} StaleLengthSwallows(s: seq<int>, extra: seq<int>, rest: seq<Item>)
    requires Sorted(s)
    ensures LoadStream(Saved(|s + extra|, s) + Signeds(extra) + rest)
            == Loaded(InsertAll([], s + extra), rest)
    ensures multiset(InsertAll([], s + extra)) == multiset(s) + multiset(extra)
  {
    assert Saved(|s + extra|, s) + Signeds(extra) == Saved(|s + extra|, s + extra);
    LoadSaved(s + extra, rest);
    InsertAllSorts([], s + extra);
  }

  // ---------------------------------------------------------------------------
  // Histories

  datatype Op = Ins(v: int) | Rem(v: int)

  datatype Played = Played(values: seq<int>, len: nat, inserted: nat, removed: nat)

  /** What a history leaves: by the contracts of Insert and Remove, the values and
      `len` of the list, with the number of insertions and of successful removals. */
  function Play(ops: seq<Op>): (p: Played) {
    if ops == [] then Played([], 0, 0, 0) else PlayOne(Play(ops[..|ops| - 1]), ops[|ops| - 1])
  }

  function PlayOne(p: Played, op: Op): (q: Played) {
    match op
    case Ins(v) => Played(Inserted(p.values, v), (p.len + 1) % WORD_SIZE, p.inserted + 1, p.removed)
    case Rem(v) => Played(Removed(p.values, v), p.len, p.inserted,
                          if v in p.values then p.removed + 1 else p.removed)
  }

  /** The bag a history stands for. */
  ghost function Bag(ops: seq<Op>): (b: multiset<int>) {
    if ops == [] then multiset{} else
      var b, op := Bag(ops[..|ops| - 1]), ops[|ops| - 1];
      if op.Ins? then b + multiset{op.v} else b - multiset{op.v}
  }

  /** What holds of a list that was played with. */
  ghost predicate Consistent(p: Played, b: multiset<int>) {
    && Sorted(p.values) && multiset(p.values) == b
    && p.len == p.inserted % WORD_SIZE && |p.values| == p.inserted - p.removed
  }

  lemma {:induction false} InsertConsistent(p: Played, b: multiset<int>, v: int)
    requires Consistent(p, b)
    ensures Consistent(PlayOne(p, Ins(v)), b + multiset{v})
  {
    InsertedSorted(p.values, v);
    InsertedAddsOne(p.values, v);
    InsertedLength(p.values, v);
    CountOneMore(p.inserted);
  }

  lemma {:induction false} RemoveConsistent(p: Played, b: multiset<int>, v: int)
    requires Consistent(p, b)
    ensures Consistent(PlayOne(p, Rem(v)), b - multiset{v})
  {
    RemovedSorted(p.values, v);
    RemovedTakesOne(p.values, v);
    RemovedLength(p.values, v);
  }

  /** Every history keeps the list sorted and holding its bag; `len` counts the
      insertions, and falls behind by the removals that succeeded. */
  lemma {:induction false} PlayRefinesBag(ops: seq<Op>)
    ensures Consistent(Play(ops), Bag(ops))
  {
    if ops != [] {
      var before, op := ops[..|ops| - 1], ops[|ops| - 1];
      PlayRefinesBag(before);
      if op.Ins? {
        InsertConsistent(Play(before), Bag(before), op.v);
      } else {
        RemoveConsistent(Play(before), Bag(before), op.v);
      }
    }
  }

  lemma {:induction false} RemovedLength(s: seq<int>, v: int)
    ensures |Removed(s, v)| == if v in s then |s| - 1 else |s|
  {
    if s != [] && s[0] != v { RemovedLength(s[1..], v); }
  }

  /** Histories with the same bag leave lists that rewrite and digest alike, and save the same
      elements; the header saved before them is `len`, which may differ. */
  lemma {:induction false} SameBagSameStream(a: seq<Op>, b: seq<Op>)
    requires Bag(a) == Bag(b)
    ensures Play(a).values == Play(b).values
  {
    PlayRefinesBag(a);
    PlayRefinesBag(b);
    SortedUnique(Play(a).values, Play(b).values);
  }

  /** A list survives being saved and loaded exactly when its counter is right, that
      is, unless 2^64 elements went in, when no removal ever succeeded. */
  lemma {:induction false} SavedHistoryIff(ops: seq<Op>)
    ensures var p := Play(ops);
            && (RoundTrips(p.len, p.values) <==> p.inserted % 0x1_0000_0000_0000_0000 == p.inserted - p.removed)
            && (p.inserted < 0x1_0000_0000_0000_0000 ==> (RoundTrips(p.len, p.values) <==> p.removed == 0))
  {
    PlayRefinesBag(ops);
    SavedIff(Play(ops), Bag(ops));
  }

  lemma {:induction false} SavedIff(p: Played, b: multiset<int>)
    requires Consistent(p, b)
    ensures RoundTrips(p.len, p.values) <==> p.inserted % WORD_SIZE == p.inserted - p.removed
    ensures p.inserted < WORD_SIZE ==> (RoundTrips(p.len, p.values) <==> p.removed == 0)
  {
    RoundTripsIff(p.len, p.values);
  }
}

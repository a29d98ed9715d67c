/**
  The retired-pointer storage of dynamic hazard pointers (deps/cds/src/dhp.cpp and
  deps/cds/cds/gc/dhp.h): a linked list of blocks that scan() compacts in place, reading with
  one cursor and writing with another, and then may extend by a block.

  Assertions of the C++ code are taken as compiled out.
 */
module DynamicHazard {
  import opened Reclaim
  import opened HazardScan

  const CAPACITY: nat := 256    // retired_block::c_capacity

  /** The sorted list `plist` has exactly the hazards. */
  ghost predicate Lists(plist: seq<Ptr>, hazards: set<Ptr>) {
    Ascending(plist) && forall p :: p in plist <==> p in hazards
  }

  /** A compaction of the cells `orig` in progress.  The read cursor has reached r; `flat` are the
      cells now and w is the write cursor.  What was kept is in front of w, w has not passed r,
      and the cells from w on are as they were. */
  ghost predicate Compacted(flat: seq<Ptr>, w: nat, orig: seq<Ptr>, hazards: set<Ptr>, r: nat) {
    && w <= r <= |orig| == |flat|
    && flat[..w] == Keep(orig[..r], hazards)
    && (forall k :: w <= k < |orig| ==> flat[k] == orig[k])
  }

  lemma CompactedNext(flat: seq<Ptr>, w: nat, orig: seq<Ptr>, hazards: set<Ptr>, r: nat)
    requires Compacted(flat, w, orig, hazards, r) && r < |orig|
    ensures flat[r] == orig[r]
    ensures orig[r] in hazards ==> Compacted(flat[w := orig[r]], w + 1, orig, hazards, r + 1)
    ensures orig[r] !in hazards ==> Compacted(flat, w, orig, hazards, r + 1)
  {
    KeepDropNext(orig, r, hazards);
    if orig[r] in hazards {
      assert flat[w := orig[r]][..w + 1] == flat[..w] + [orig[r]];
    }
  }

  class Block {
    const cells: array<Ptr>
    var next: Block?

    constructor ()
      ensures fresh(cells) && cells.Length == CAPACITY && next == null
    {
      cells := new Ptr[CAPACITY];
      next := null;
    }
  }

  class RetiredBlocks {
    var head: Block           // list_head_
    var tail: Block           // list_tail_
    var current: Block        // current_block_
    var cell: nat             // current_cell_, as an index into current
    var disposed: seq<Ptr>    // every pointer whose disposer has been called, in order
    ghost var blocks: seq<Block>
    ghost var at: nat         // position of current in blocks
    ghost var flat: seq<Ptr>  // all cells of all blocks, in order

    ghost predicate Valid()
      reads this`at, this`cell, this`head, this`current, this`blocks, this`flat, blocks, Arrays()
    {
      && at < |blocks| && head == blocks[0] && current == blocks[at]
      && cell <= CAPACITY && (cell == CAPACITY ==> at == |blocks| - 1)
      && (forall i {:trigger blocks[i].next} :: 0 <= i < |blocks| - 1 ==> blocks[i].next == blocks[i + 1])
      && blocks[|blocks| - 1].next == null
      && (forall i :: 0 <= i < |blocks| ==> blocks[i].cells.Length == CAPACITY)
      && (forall i, j :: 0 <= i < j < |blocks| ==> blocks[i].cells != blocks[j].cells)
      && |flat| == CAPACITY * |blocks|
      && (forall b, i :: 0 <= b < |blocks| && 0 <= i < CAPACITY ==> flat[CAPACITY * b + i] == blocks[b].cells[i])
    }

    /** list_tail_ is the last block.  Not part of Valid, because free_thread_data breaks it. */
    ghost predicate TailOk()
      reads this`blocks, this`tail
    {
      |blocks| > 0 && tail == blocks[|blocks| - 1]
    }

    ghost function Arrays(): (s: set<array<Ptr>>)
      reads this`blocks
    {
      set i | 0 <= i < |blocks| :: blocks[i].cells
    }

    /** The write cursor as a position in flat. */
    ghost function Cursor(): (w: nat)
      reads this`at, this`cell
    {
      CAPACITY * at + cell
    }

    /** What every reader of the list sees: full blocks before current, then current up to the cell. */
    ghost function Contents(): (a: seq<Ptr>)
      reads this`at, this`cell, this`head, this`current, this`blocks, this`flat, blocks, Arrays()
      requires Valid()
    {
      flat[..Cursor()]
    }

    /** retired_array::init: one empty block. */
    constructor ()
      ensures Valid() && TailOk() && fresh(blocks) && fresh(Arrays()) && Contents() == [] && disposed == []
      ensures |blocks| == 1
    {
      var block := new Block();
      head, tail, current, cell := block, block, block, 0;
      blocks, at, disposed, flat := [block], 0, [], block.cells[..];
    }

    /** retired_array::push and repush. */
    method Push(p: Ptr) returns (more: bool)
      requires Valid() && cell < CAPACITY
      modifies this`current, this`cell, this`at, this`flat, current.cells
      ensures Valid() && Cursor() == old(Cursor()) + 1
      ensures flat == old(flat)[old(Cursor()) := p]
      ensures more <==> cell < CAPACITY
    {
      current.cells[cell] := p;
      flat := flat[Cursor() := p];
      assert Valid();
      cell := cell + 1;
      more := true;
      if cell == CAPACITY {
        if current.next != null {
          current, cell, at := current.next, 0, at + 1;
        } else {
          more := false;
        }
      }
    }

    /** The read cursor of a scan that started on the cells `orig` and the log `base` is at r. */
    ghost predicate Progress(orig: seq<Ptr>, hazards: set<Ptr>, base: seq<Ptr>, r: nat)
      reads this`at, this`cell, this`head, this`current, this`blocks, this`flat, this`disposed, blocks, Arrays()
    {
      && Valid() && Compacted(flat, Cursor(), orig, hazards, r)
      && disposed == base + Drop(orig[..r], hazards)
    }

    /** Handles a hazardous pointer: p is the cell at r. */
    method KeepCell(p: Ptr, ghost orig: seq<Ptr>, ghost hazards: set<Ptr>, ghost base: seq<Ptr>, ghost r: nat)
      requires Progress(orig, hazards, base, r) && r < |orig| && p == orig[r] && p in hazards
      modifies this`current, this`cell, this`at, this`flat, current.cells
      ensures Progress(orig, hazards, base, r + 1)
    {
      CompactedNext(flat, Cursor(), orig, hazards, r);
      KeepDropNext(orig, r, hazards);
      var more := Push(p);
    }

    /** Handles an unguarded pointer. */
    method FreeCell(p: Ptr, ghost orig: seq<Ptr>, ghost hazards: set<Ptr>, ghost base: seq<Ptr>, ghost r: nat)
      requires Progress(orig, hazards, base, r) && r < |orig| && p == orig[r] && p !in hazards
      modifies this`disposed
      ensures Progress(orig, hazards, base, r + 1) && |disposed| == |old(disposed)| + 1
    {
      CompactedNext(flat, Cursor(), orig, hazards, r);
      KeepDropNext(orig, r, hazards);
      disposed := disposed + [p];
    }

    lemma CellAt(orig: seq<Ptr>, hazards: set<Ptr>, base: seq<Ptr>, b: nat, i: nat)
      requires Progress(orig, hazards, base, CAPACITY * b + i) && b < |blocks| && i < CAPACITY
      ensures CAPACITY * b + i < |orig| && orig[CAPACITY * b + i] == blocks[b].cells[i]
    {
    }

    /** Handles cell i of block b. */
    method RetireCell(plist: seq<Ptr>, block: Block, i: nat,
                      ghost orig: seq<Ptr>, ghost hazards: set<Ptr>, ghost base: seq<Ptr>, ghost b: nat,
                      ghost r: nat) returns (freed: nat)
      requires b < |blocks| && block == blocks[b] && i < CAPACITY && r == CAPACITY * b + i
      requires Progress(orig, hazards, base, r)
      requires Lists(plist, hazards)
      modifies this`current, this`cell, this`at, this`flat, this`disposed, Arrays()
      ensures Progress(orig, hazards, base, r + 1)
      ensures freed == |disposed| - |old(disposed)|
    {
      CellAt(orig, hazards, base, b, i);
      var found := BinarySearch(plist, block.cells[i]);
      if found {
        KeepCell(block.cells[i], orig, hazards, base, r);
        freed := 0;
      } else {
        FreeCell(block.cells[i], orig, hazards, base, r);
        freed := 1;
      }
    }

    /** retire_data: handles the first `size` cells of block b. */
    method RetireData(plist: seq<Ptr>, block: Block, size: nat,
                      ghost orig: seq<Ptr>, ghost hazards: set<Ptr>, ghost base: seq<Ptr>, ghost b: nat) returns (count: nat)
      requires b < |blocks| && block == blocks[b] && size <= CAPACITY
      requires Progress(orig, hazards, base, CAPACITY * b)
      requires Lists(plist, hazards)
      modifies this`current, this`cell, this`at, this`flat, this`disposed, Arrays()
      ensures Progress(orig, hazards, base, CAPACITY * b + size)
      ensures count == |disposed| - |old(disposed)|
    {
      count := 0;
      ghost var r := CAPACITY * b;
      for i := 0 to size
        invariant r == CAPACITY * b + i && Progress(orig, hazards, base, r)
        invariant count == |disposed| - |old(disposed)|
      {
        var freed := RetireCell(plist, block, i, orig, hazards, base, b, r);
        count := count + freed;
        r := r + 1;
      }
    }

    /** retired_array::extend: links a new block behind the last one and makes it current,
        wherever the write cursor stands. */
    method Extend()
      requires Valid() && TailOk()
      modifies this`tail, this`current, this`cell, this`at, this`blocks, this`flat, tail`next
      ensures Valid() && TailOk()
      ensures |blocks| == |old(blocks)| + 1 && blocks[..|old(blocks)|] == old(blocks)
      ensures fresh(blocks[|old(blocks)|]) && fresh(blocks[|old(blocks)|].cells)
      ensures cell == 0 && Contents() == old(flat)
    {
      var block := new Block();
      tail.next := block;
      tail, current, cell := block, block, 0;
      blocks, at, flat := blocks + [block], |blocks|, flat + block.cells[..];
    }

    /** dhp.cpp 438-439: the write cursor goes back to the first cell. */
    method Rewind(ghost hazards: set<Ptr>)
      requires Valid()
      modifies this`current, this`cell, this`at
      ensures Progress(flat, hazards, disposed, 0)
    {
      current, cell := head, 0;
      at := 0;
    }

    lemma NextBlock(b: nat, last: nat)
      requires Valid() && b <= last < |blocks|
      ensures blocks[b] == blocks[last] <==> b == last
      ensures b < last ==> blocks[b].next == blocks[b + 1]
    {
    }

    /** One round of the loop of dhp::smr::scan over the blocks: block b, which ends the loop if
        it is the one that was current when the scan began. */
    method CompactBlock(plist: seq<Ptr>, block: Block, lastBlock: Block, lastCell: nat,
                        ghost orig: seq<Ptr>, ghost hazards: set<Ptr>, ghost base: seq<Ptr>, ghost b: nat, ghost lastAt: nat)
      returns (freed: nat, endBlock: bool, after: Block, ghost r: nat)
      requires b <= lastAt < |blocks| && block == blocks[b] && lastBlock == blocks[lastAt] && lastCell <= CAPACITY
      requires Progress(orig, hazards, base, CAPACITY * b)
      requires Lists(plist, hazards)
      modifies this`current, this`cell, this`at, this`flat, this`disposed, Arrays()
      ensures endBlock <==> b == lastAt
      ensures r == if endBlock then CAPACITY * lastAt + lastCell else CAPACITY * (b + 1)
      ensures Progress(orig, hazards, base, r)
      ensures !endBlock ==> after == blocks[b + 1]
      ensures freed == |disposed| - |old(disposed)|
    {
      NextBlock(b, lastAt);
      endBlock := block == lastBlock;
      freed := RetireData(plist, block, if endBlock then lastCell else CAPACITY, orig, hazards, base, b);
      r := CAPACITY * b + (if endBlock then lastCell else CAPACITY);
      after := block;
      if !endBlock { after := block.next; }
    }

    /** The loop of dhp::smr::scan over the blocks. */
    method CompactFrom(plist: seq<Ptr>, first: Block, lastBlock: Block, lastCell: nat,
                       ghost orig: seq<Ptr>, ghost hazards: set<Ptr>, ghost base: seq<Ptr>, ghost lastAt: nat)
      returns (freeCount: nat, retiredCount: nat)
      requires lastAt < |blocks| && first == blocks[0] && lastBlock == blocks[lastAt] && lastCell <= CAPACITY
      requires Progress(orig, hazards, base, 0) && base == disposed
      requires Lists(plist, hazards)
      modifies this`current, this`cell, this`at, this`flat, this`disposed, Arrays()
      ensures Progress(orig, hazards, base, CAPACITY * lastAt + lastCell)
      ensures freeCount == |disposed| - |base| && retiredCount == CAPACITY * (lastAt + 1)
    {
      var block, endBlock := first, false;
      ghost var b, r := 0, 0;
      freeCount, retiredCount := 0, 0;
      while !endBlock
        invariant if endBlock then b == lastAt + 1 else b <= lastAt && block == blocks[b]
        invariant r == if endBlock then CAPACITY * lastAt + lastCell else CAPACITY * b
        invariant Progress(orig, hazards, base, r)
        invariant freeCount == |disposed| - |base| && retiredCount == CAPACITY * b
        decreases lastAt + 1 - b
      {
        var freed;
        freed, endBlock, block, r := CompactBlock(plist, block, lastBlock, lastCell, orig, hazards, base, b, lastAt);
        retiredCount := retiredCount + CAPACITY;
        freeCount := freeCount + freed;
        b := b + 1;
      }
    }

    /** The write cursor goes back to the start, and the blocks are compacted. */
    method CompactBlocks(plist: seq<Ptr>, ghost hazards: set<Ptr>) returns (freeCount: nat, retiredCount: nat)
      requires Valid() && Lists(plist, hazards)
      modifies this`current, this`cell, this`at, this`flat, this`disposed, Arrays()
      ensures Progress(old(flat), hazards, old(disposed), old(Cursor()))
      ensures freeCount == |disposed| - |old(disposed)| && retiredCount == CAPACITY * (old(at) + 1)
    {
      ghost var orig, base, lastAt := flat, disposed, at;
      var lastBlock, lastCell := current, cell;
      Rewind(hazards);
      freeCount, retiredCount := CompactFrom(plist, head, lastBlock, lastCell, orig, hazards, base, lastAt);
    }

    /** The part of dhp::smr::scan up to its last test, and what that test finds. */
    method Compact(list: seq<RecordView>) returns (grow: bool)
      requires Valid() && (tail in blocks ==> TailOk())
      modifies this`current, this`cell, this`at, this`flat, this`disposed, Arrays()
      ensures Valid() && disposed == old(disposed) + Drop(old(Contents()), Hazards(list))
      ensures grow <==>
        old(cell == CAPACITY && tail == current) && |disposed| - |old(disposed)| < |old(Contents())| / 4
      ensures (if grow then flat else Contents())
              == AfterScan(old(Contents()), Hazards(list), old(cell == CAPACITY && tail == current))
      ensures !grow ==> (cell < CAPACITY <==>
        !(old(cell == CAPACITY && tail != current) && Drop(old(Contents()), Hazards(list)) == []))
    {
      var plist := CollectHazards(list);
      var lastBlock, lastCell := current, cell;
      var freeCount, retiredCount := CompactBlocks(plist, Hazards(list));
      CompactionDone(old(flat), old(Cursor()), flat, Cursor(), Hazards(list), lastCell == CAPACITY && lastBlock == tail);
      grow := freeCount < retiredCount / 4 && lastBlock == tail && lastCell == CAPACITY;
    }

    /** dhp::smr::scan. */
    method Scan(list: seq<RecordView>)
      requires Valid() && (tail in blocks ==> TailOk())
      modifies this, Arrays(), tail`next
      ensures Valid() && (tail in blocks ==> TailOk()) && (old(TailOk()) ==> TailOk())
      ensures (blocks == old(blocks) && tail == old(tail)) || (old(cell) == CAPACITY && |blocks| == |old(blocks)| + 1 && blocks[..|old(blocks)|] == old(blocks)
                && fresh(blocks[|old(blocks)|]) && fresh(blocks[|old(blocks)|].cells))
      ensures Contents() == AfterScan(old(Contents()), Hazards(list), old(cell == CAPACITY && tail == current))
      ensures disposed == old(disposed) + Drop(old(Contents()), Hazards(list))
      // a full list grows if less than a quarter of it was freed
      ensures blocks != old(blocks) <==>
        old(cell == CAPACITY && tail == current) && |disposed| - |old(disposed)| < |old(Contents())| / 4
      // room for one more push, except in one case
      ensures cell < CAPACITY <==>
        !(old(cell == CAPACITY && tail != current) && Drop(old(Contents()), Hazards(list)) == [])
    {
      var grow := Compact(list);
      if grow {
        Extend();
      }
    }

    /** The same, told by the guards themselves: exactly the unguarded pointers are disposed of, and
        except in the gap case exactly the guarded ones are kept. */
    method ScanSpares(list: seq<RecordView>)
      requires Valid() && (tail in blocks ==> TailOk())
      modifies this, Arrays(), tail`next
      ensures Valid() && old(disposed) <= disposed
      ensures forall p :: p in disposed[|old(disposed)|..] <==> p in old(Contents()) && !Guarded(list, p)
      ensures !Gap(old(Contents()), Hazards(list), old(cell == CAPACITY && tail == current)) ==>
        Spares(list, old(Contents()), Contents(), disposed[|old(disposed)|..])
    {
      KeepDropSpares(list, Contents(), Contents());
      Scan(list);
    }

    /** free_thread_data, dhp.cpp 349-361: a record with pointers left gives back the blocks behind
        the current one.  list_tail_ is not updated, so it is lost if there were any; a detach of
        a record that has lost it already leaves it lost. */
    method Trim()
      requires Valid() && (tail in blocks ==> TailOk())
      modifies this`blocks, this`flat, current`next
      ensures Valid() && Contents() == old(Contents()) && current.next == null && at == |blocks| - 1
      ensures tail in blocks ==> TailOk()
      ensures TailOk() <==> old(TailOk() && current == tail)
    {
      current.next := null;
      blocks, flat := blocks[..at + 1], flat[..CAPACITY * (at + 1)];
    }

    /** smr::~smr, dhp.cpp 220-232: disposes of whatever the list holds. */
    method DisposeAll()
      requires Valid()
      modifies this`disposed
      ensures disposed == old(disposed) + Contents()
    {
      var block := head;
      ghost var b := 0;
      while block != current
        invariant Valid() && b <= at && block == blocks[b]
        invariant disposed == old(disposed) + flat[..CAPACITY * b]
        decreases at - b
      {
        DisposeCells(block, CAPACITY, b);
        NextBlock(b, at);
        block := block.next;
        b := b + 1;
        assert flat[..CAPACITY * b] == flat[..CAPACITY * (b - 1)] + flat[CAPACITY * (b - 1)..CAPACITY * b];
      }
      NextBlock(b, at);
      DisposeCells(current, cell, b);
      assert flat[..Cursor()] == flat[..CAPACITY * b] + flat[CAPACITY * b..Cursor()];
    }

    method DisposeCells(block: Block, size: nat, ghost b: nat)
      requires Valid() && b < |blocks| && block == blocks[b] && size <= CAPACITY
      modifies this`disposed
      ensures disposed == old(disposed) + flat[CAPACITY * b..CAPACITY * b + size]
    {
      for i := 0 to size
        invariant disposed == old(disposed) + flat[CAPACITY * b..CAPACITY * b + i]
      {
        assert flat[CAPACITY * b + i] == blocks[b].cells[i];
        disposed := disposed + [block.cells[i]];
      }
    }
  }

  // ---------------------------------------------------------------- a lost tail

  /** Pushes the pointers of `ps` one by one, each finding room. */
  method Fill(r: RetiredBlocks, ps: seq<Ptr>)
    requires r.Valid() && r.at == |r.blocks| - 1 && r.cell + |ps| <= CAPACITY
    modifies r`current, r`cell, r`at, r`flat, r.current.cells
    ensures r.Valid() && r.at == old(r.at) && r.cell == old(r.cell) + |ps| && r.current == old(r.current)
    ensures r.Contents() == old(r.Contents()) + ps
  {
    for i := 0 to |ps|
      invariant r.Valid() && r.at == old(r.at) && r.cell == old(r.cell) + i && r.current == old(r.current)
      invariant r.Contents() == old(r.Contents()) + ps[..i]
    {
      var more := r.Push(ps[i]);
    }
    assert ps[..|ps|] == ps;
  }

  const ALL: seq<RecordView> := [RecordView(1, Evens(CAPACITY))]

  const ONE: seq<RecordView> := [RecordView(1, [2])]

  lemma AllGuarded()
    ensures Keep(Evens(CAPACITY), Hazards(ALL)) == Evens(CAPACITY) && Drop(Evens(CAPACITY), Hazards(ALL)) == []
  {
    var a := Evens(CAPACITY);
    assert Hazards(ALL) == Hazards(ALL[..0]) + NonNull(a);
    forall i | 0 <= i < |a| ensures a[i] in Hazards(ALL) {
      assert a[i] in NonNull(a);
    }
    KeepAll(a, Hazards(ALL));
  }

  lemma OneGuarded()
    ensures Keep(Evens(CAPACITY), Hazards(ONE)) == [2]
  {
    var a, h := Evens(CAPACITY), Hazards(ONE);
    assert h == Hazards(ONE[..0]) + NonNull([2]);
    KeepFirst(a, h);
  }

  lemma {:induction false} KeepFirst(a: seq<Ptr>, hazards: set<Ptr>)
    requires |a| > 0 && a[0] in hazards && forall i :: 1 <= i < |a| ==> a[i] !in hazards
    ensures Keep(a, hazards) == [a[0]]
  {
    var n := |a| - 1;
    if n > 0 {
      KeepFirst(a[..n], hazards);
    } else {
      assert a[..n] == [];
    }
  }

  /** The first block is filled, and a scan in which everything is guarded adds a second one. */
  method AddBlock(r: RetiredBlocks)
    requires r.Valid() && r.TailOk() && |r.blocks| == 1 && r.Contents() == []
    modifies r, r.Arrays(), r.tail`next
    ensures r.Valid() && r.TailOk() && r.at == 1 && r.cell == 0
    ensures |r.blocks| == 2 && r.blocks[0] == old(r.blocks)[0] && fresh(r.blocks[1]) && fresh(r.blocks[1].cells)
    ensures r.Contents() == Evens(CAPACITY)
  {
    Fill(r, Evens(CAPACITY));
    AllGuarded();
    assert r.Contents() == Evens(CAPACITY);
    r.Scan(ALL);
  }

  /** A scan in which only the first pointer is guarded leaves it alone in the first block; the
      record is then detached, and the second block given back. */
  method GiveBack(r: RetiredBlocks)
    requires r.Valid() && r.TailOk() && |r.blocks| == 2 && r.cell < CAPACITY && r.Contents() == Evens(CAPACITY)
    modifies r, r.Arrays(), r.tail`next, r.blocks
    ensures r.Valid() && !r.TailOk() && (r.tail in r.blocks ==> r.TailOk())
    ensures r.tail == old(r.tail) && r.blocks == old(r.blocks)[..1] && r.at == 0 && r.cell == 1 && r.Contents() == [2]
  {
    OneGuarded();
    r.Scan(ONE);
    assert r.at == 0 && r.cell == 1 && r.current == r.blocks[0];
    assert r.blocks[0].cells != r.blocks[1].cells;
    r.Trim();
  }

  /** Its next owner fills the block again; a scan in which everything is guarded leaves it full. */
  method StayFull(r: RetiredBlocks)
    requires r.Valid() && !r.TailOk() && (r.tail in r.blocks ==> r.TailOk())
    requires |r.blocks| == 1 && r.cell == 1 && r.Contents() == [2]
    modifies r, r.Arrays(), r.tail`next
    ensures r.Valid() && r.Contents() == Evens(CAPACITY) && r.cell == CAPACITY && r.at == |r.blocks| - 1
  {
    var rest := Evens(CAPACITY)[1..];
    Fill(r, rest);
    assert [2] + rest == Evens(CAPACITY);
    AllGuarded();
    r.Scan(ALL);
  }

  /** The input on which the lost tail matters: a record fills its first block, gets a second one
      from a scan, empties again and is detached, which loses the second block.  When its next
      owner has filled the first block, no scan makes room while its pointers are guarded: the
      next push would be out of bounds. */
  method LoseTail() returns (r: RetiredBlocks)
    ensures fresh(r) && r.Valid() && r.Contents() == Evens(CAPACITY) && r.cell == CAPACITY && r.at == |r.blocks| - 1
  {
    r := new RetiredBlocks();
    AddBlock(r);
    GiveBack(r);
    StayFull(r);
  }

  // ---------------------------------------------------------------- what a scan leaves behind

  /** A scan of a completely full list that frees something, but less than a quarter. */
  predicate Gap(a: seq<Ptr>, hazards: set<Ptr>, full: bool) {
    full && 0 < |Drop(a, hazards)| < |a| / 4
  }

  /** What readers find after a scan: the kept pointers, and in the gap case also the stale cells
      between the write cursor and the end of the old blocks. */
  function AfterScan(a: seq<Ptr>, hazards: set<Ptr>, full: bool): (b: seq<Ptr>) {
    var kept := Keep(a, hazards);
    if Gap(a, hazards, full) then kept + a[|kept|..] else kept
  }

  /** The end of a compaction: either nothing more happens, or the list is extended and then the
      old cells are read to the end. */
  lemma CompactionDone(orig: seq<Ptr>, n: nat, flat: seq<Ptr>, w: nat, hazards: set<Ptr>, full: bool)
    requires Compacted(flat, w, orig, hazards, n) && (full ==> n == |orig|)
    ensures var a := orig[..n]; var freed := |Drop(a, hazards)|;
      && flat[..w] == Keep(a, hazards) && w + freed == n
      && (full && freed < |a| / 4 ==> flat == AfterScan(a, hazards, full))
      && (!(full && freed < |a| / 4) ==> flat[..w] == AfterScan(a, hazards, full))
  {
    KeepDropCounts(orig[..n], hazards, 0);
    if full { FullCompactionDone(orig, flat, w, hazards); }
  }

  lemma FullCompactionDone(orig: seq<Ptr>, flat: seq<Ptr>, w: nat, hazards: set<Ptr>)
    requires Compacted(flat, w, orig, hazards, |orig|)
    ensures orig[..|orig|] == orig && flat == Keep(orig, hazards) + orig[w..]
  {
    assert orig[..|orig|] == orig;
    assert flat == flat[..w] + flat[w..] && flat[w..] == orig[w..];
  }

  /** A scan leaves exactly the hazardous pointers to be read, and loses or duplicates nothing,
      exactly when it is not the gap case. */
  lemma ScanExactIff(a: seq<Ptr>, hazards: set<Ptr>, full: bool)
    ensures AfterScan(a, hazards, full) == Keep(a, hazards) <==> !Gap(a, hazards, full)
    ensures ScanOutcome(a, hazards, AfterScan(a, hazards, full), Drop(a, hazards)) <==> !Gap(a, hazards, full)
  {
    KeepDropCounts(a, hazards, 0);
    KeepDropSplit(a, hazards);
    var b, gone := AfterScan(a, hazards, full), Drop(a, hazards);
    if Gap(a, hazards, full) {
      assert |b| == |a| && |multiset(b) + multiset(gone)| == |b| + |gone| > |multiset(a)|;
    }
  }

  /** In the gap case some pointer is among the disposed ones and still to be read, or twice to be
      read: once no guard holds it, its disposer runs twice. */
  lemma GapDisposesTwice(a: seq<Ptr>, hazards: set<Ptr>)
    requires Gap(a, hazards, true)
    ensures exists p :: multiset(Drop(a, hazards) + AfterScan(a, hazards, true))[p] >= 2
  {
    var all := Drop(a, hazards) + AfterScan(a, hazards, true);
    KeepDropCounts(a, hazards, 0);
    forall p | p in all ensures p in a {
      KeepDropMembers(a, hazards, p);
    }
    Pigeonhole(all, a);
  }

  /** One full block of which the first pointer alone is unguarded: pointer 512, which is kept, is
      then in the list twice. */
  lemma GapExample()
    ensures var a := Evens(CAPACITY);
      var h := set p | p in a[1..];
      Gap(a, h, true) && AfterScan(a, h, true) == a[1..] + [512] && Drop(a, h) == [2]
  {
    var a := Evens(CAPACITY);
    var h := set p | p in a[1..];
    assert a[..1] == [2] && a[1..][254] == a[255] == 512;
    forall i | 1 <= i < CAPACITY ensures a[i] in h { assert a[i] == a[1..][i - 1]; }
    assert 2 !in h;
    SplitFirst(a, h);
  }

  lemma {:induction false} SplitFirst(a: seq<Ptr>, hazards: set<Ptr>)
    requires |a| > 0 && a[0] !in hazards && forall i :: 1 <= i < |a| ==> a[i] in hazards
    ensures Keep(a, hazards) == a[1..] && Drop(a, hazards) == [a[0]]
  {
    var n := |a| - 1;
    if n > 0 {
      SplitFirst(a[..n], hazards);
      assert a[1..] == a[..n][1..] + [a[n]];
    } else {
      assert a[..n] == [];
    }
  }
}

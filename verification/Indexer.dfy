/** The indexer: items found by a 16-bit index through a two-level table whose
    free list runs through the same cells that hold the items. Index 0 is
    reserved. */
module Indexer {
  import opened FreeLists

  const ENTRY_SIZE := 1024
  const ARRAY_SIZE := 64
  const MAX_INDEX := 65535

  ghost predicate Holds<T>(cells: seq<Cell<T>>, live: map<int, T>, i: int)
    requires i in live
  {
    0 < i < |cells| && cells[i] == Used(live[i])
  }

  /** The cells hold the live items, and from freeList on an acyclic list, ending
      in 0, of exactly the other indices but 0. */
  ghost predicate Inv<T>(cells: seq<Cell<T>>, freeList: int, free: seq<nat>, live: map<int, T>) {
    && ListOf(cells, freeList, free, 0) && 0 !in free
    && (forall i :: i in live ==> Holds(cells, live, i))
    && (forall i :: 0 < i < |cells| ==> i in live || i in free)
  }

  // ---- what the operations do to the cells ----

  /** A new block whose cells are linked in order, the last to `tail`. */
  function Block<T>(start: nat, tail: int): (b: seq<Cell<T>>)
    ensures |b| == ENTRY_SIZE
  {
    seq(ENTRY_SIZE, i => Free(if i == ENTRY_SIZE - 1 then tail else start + i + 1))
  }

  /** The indices of a new block, without 0. */
  function Fresh(start: nat): (r: seq<nat>)
    ensures start == 0 ==> |r| == ENTRY_SIZE - 1
    ensures start > 0 ==> |r| == ENTRY_SIZE
  {
    var first := if start == 0 then 1 else start;
    seq(start + ENTRY_SIZE - first, i => first + i)
  }

  lemma GrowKeeps<T>(cells: seq<Cell<T>>, live: map<int, T>)
    requires Inv(cells, 0, [], live)
    ensures var start := |cells|;
      Inv(cells + Block(start, 0), if start == 0 then 1 else start, Fresh(start), live)
  {
    var start := |cells|;
    var cells', free := cells + Block(start, 0), Fresh(start);
    forall k | 0 <= k < |free|
      ensures Linked(cells', free, 0, k)
    {
      assert free[k..][1..] == free[k + 1..];
    }
    forall i | 0 < i < |cells'|
      ensures i in live || i in free
    {
      if i >= |cells| {
        var first := if start == 0 then 1 else start;
        assert free[i - first] == i;
      }
    }
    forall i | i in live
      ensures Holds(cells', live, i)
    {
      assert Holds(cells, live, i);
    }
  }

  /** Taking the head of the list for an item: its index was free. */
  lemma InsertKeeps<T>(cells: seq<Cell<T>>, free: seq<nat>, live: map<int, T>, item: T)
    requires free != [] && Inv(cells, free[0], free, live)
    ensures var index := free[0];
      && 0 < index < |cells| && index !in live && cells[index].Free?
      && Inv(cells[index := Used(item)], cells[index].next, free[1..], live[index := item])
  {
    var index := free[0];
    TakeHead(cells, free, 0, item);
    assert index in live ==> Holds(cells, live, index);
    var cells', free', live' := cells[index := Used(item)], free[1..], live[index := item];
    forall i | i in live'
      ensures Holds(cells', live', i)
    {
      if i != index {
        assert Holds(cells, live, i);
      }
    }
  }

  /** Putting a live index at the head of the list. */
  lemma RemoveKeeps<T>(cells: seq<Cell<T>>, free: seq<nat>, live: map<int, T>, index: int)
    requires Inv(cells, Head(free, 0), free, live) && index in live
    ensures 0 < index < |cells| && cells[index] == Used(live[index])
    ensures Inv(cells[index := Free(Head(free, 0))], index, [index] + free, live - {index})
  {
    assert Holds(cells, live, index);
    NotListed(cells, free, index);
    PutHead(cells, free, 0, index);
    var cells', live' := cells[index := Free(Head(free, 0))], live - {index};
    forall i | i in live'
      ensures Holds(cells', live', i)
    {
      assert Holds(cells, live, i);
    }
  }

  lemma NotListed<T>(cells: seq<Cell<T>>, free: seq<nat>, i: nat)
    requires ListOf(cells, Head(free, 0), free, 0) && i < |cells| && cells[i].Used?
    ensures i !in free
  {
    forall k | 0 <= k < |free|
      ensures free[k] != i
    {
      assert Linked(cells, free, 0, k);
    }
  }

  /** With no index free and every block in use, every index is live. */
  lemma FullWhen<T>(cells: seq<Cell<T>>, live: map<int, T>)
    requires Inv(cells, 0, [], live) && |cells| == ARRAY_SIZE * ENTRY_SIZE
    ensures forall i :: 1 <= i <= MAX_INDEX <==> i in live
  {
    forall i
      ensures 1 <= i <= MAX_INDEX <==> i in live
    {
      if i in live {
        assert Holds(cells, live, i);
      }
    }
  }

  // ---- the table ----

  class Table<T(0)> {
    const array_: array<array?<Cell<T>>>
    var freeList: int
    var size: nat

    /** The cells in index order, the free indices in list order, the live items. */
    ghost var cells: seq<Cell<T>>
    ghost var free: seq<nat>
    ghost var live: map<int, T>

    ghost predicate Blocks()
      reads this, array_, array_[..]
    {
      && array_.Length == ARRAY_SIZE && size <= ARRAY_SIZE && |cells| == size * ENTRY_SIZE
      && (forall b :: 0 <= b < size ==> array_[b] != null && array_[b].Length == ENTRY_SIZE)
      && (forall b, c :: 0 <= b < c < size ==> array_[b] != array_[c])
      && (forall b, e :: 0 <= b < size && 0 <= e < ENTRY_SIZE ==> array_[b][e] == cells[b * ENTRY_SIZE + e])
    }

    ghost predicate Valid()
      reads this, array_, array_[..]
    {
      Blocks() && Inv(cells, freeList, free, live)
    }

    constructor ()
      ensures Valid() && live == map[] && size == 0 && fresh(array_)
    {
      array_ := new array?<Cell<T>>[ARRAY_SIZE](i => null);
      freeList, size := 0, 0;
      cells, free, live := [], [], map[];
    }

    /** A write to the cell of `index`. */
    method Put(index: nat, cell: Cell<T>)
      requires Blocks() && index < |cells|
      modifies `cells, array_[index / ENTRY_SIZE]
      ensures Blocks() && cells == old(cells)[index := cell]
    {
      var b, e := index / ENTRY_SIZE, index % ENTRY_SIZE;
      var block := array_[b];
      block[e] := cell;
      cells := cells[index := cell];
    }

    /** The calloc and the loop of idx_grow: a block linked in order, last to first. */
    method LinkBlock(start: nat, tail: int) returns (block: array<Cell<T>>)
      ensures fresh(block) && block[..] == Block<T>(start, tail)
    {
      block := new Cell<T>[ENTRY_SIZE](i => Free(0));
      block[ENTRY_SIZE - 1] := Free(tail);
      var i := ENTRY_SIZE - 2;
      while i >= 0
        invariant -1 <= i <= ENTRY_SIZE - 2
        invariant forall j :: i < j < ENTRY_SIZE ==> block[j] == Block<T>(start, tail)[j]
      {
        block[i] := Free(start + i + 1);
        i := i - 1;
      }
    }

    /** idx_grow, when nothing is free; `mem` says whether calloc succeeds. */
    method Grow(mem: bool) returns (start: int)
      requires Valid() && free == []
      modifies this, array_
      ensures Valid() && live == old(live)
      ensures if mem && old(size) < ARRAY_SIZE
        then && start == freeList > 0 && free == Fresh(old(size) * ENTRY_SIZE) && size == old(size) + 1
             && fresh(array_[old(size)])
        else start == -1 && size == old(size) && free == [] && freeList == 0
      ensures forall b :: 0 <= b < ARRAY_SIZE && b != old(size) ==> array_[b] == old(array_[b])
    {
      hide Inv, Fresh, Block;
      FreeHead(cells, freeList, free, live);
      if size >= ARRAY_SIZE || !mem {
        return -1;
      }
      start := size * ENTRY_SIZE;
      GrowKeeps(cells, live);
      var block := LinkBlock(start, freeList);
      array_[size] := block;
      cells, free := cells + Block(start, 0), Fresh(start);
      if start == 0 {
        start := start + 1;
      }
      freeList := start;
      size := size + 1;
    }

    /** The rest of idx_insert once there is a free index. */
    method Take(item: T) returns (index: int)
      requires Valid() && free != []
      modifies `cells, `freeList, `free, `live, array_[..]
      ensures Valid() && 1 <= index <= MAX_INDEX && index !in old(live) && live == old(live)[index := item]
    {
      hide Inv;
      index := freeList;
      FreeHead(cells, freeList, free, live);
      InsertKeeps(cells, free, live, item);
      freeList := array_[index / ENTRY_SIZE][index % ENTRY_SIZE].next;
      Put(index, Used(item));
      free, live := free[1..], live[index := item];
    }

    /** idx_insert: a fresh index between 1 and 65535 that now leads to the item,
        or -1 when every index is live or memory is short. */
    method Insert(item: T, mem: bool) returns (index: int)
      requires Valid()
      modifies this, array_, array_[..]
      ensures Valid()
      ensures if index == -1
        then live == old(live) && (!mem || forall i :: 1 <= i <= MAX_INDEX <==> i in live)
        else 1 <= index <= MAX_INDEX && index !in old(live) && live == old(live)[index := item]
      ensures index == -1 <==> old(free) == [] && (!mem || old(size) == ARRAY_SIZE)
    {
      hide Inv;
      FreeHead(cells, freeList, free, live);
      if freeList == 0 {
        var start := Grow(mem);
        if start <= 0 {
          if size == ARRAY_SIZE {
            FullWhen(cells, live);
          }
          return -1;
        }
      }
      index := Take(item);
    }

    /** idx_remove of a live index: the index is free again, the rest stays. */
    method Remove(index: int) returns (item: T)
      requires Valid() && index in live
      modifies this, array_[..]
      ensures Valid() && item == old(live)[index] && live == old(live) - {index}
    {
      RemoveKeeps(cells, free, live, index);
      item := array_[index / ENTRY_SIZE][index % ENTRY_SIZE].value;
      Put(index, Free(freeList));
      freeList := index;
      free, live := [index] + free, live - {index};
    }

    /** idx_at */
    method At(index: int) returns (item: T)
      requires Valid() && index in live
      ensures item == live[index]
    {
      assert Holds(cells, live, index);
      item := array_[index / ENTRY_SIZE][index % ENTRY_SIZE].value;
    }
  }

  lemma FreeHead<T>(cells: seq<Cell<T>>, freeList: int, free: seq<nat>, live: map<int, T>)
    requires Inv(cells, freeList, free, live)
    ensures if free == [] then freeList == 0 else 0 < freeList == free[0] < |cells|
  {
    assert free != [] ==> Linked(cells, free, 0, 0);
  }
}

/** A free list threaded through the cells of a table: a free cell holds the number
    of the next one, the last of them `nil`. */
module FreeLists {

  datatype Cell<T> = Used(value: T) | Free(next: int)

  function Head(free: seq<nat>, nil: int): int {
    if free == [] then nil else free[0]
  }

  predicate Distinct<T(==)>(s: seq<T>) {
    forall i, j :: 0 <= i < j < |s| ==> s[i] != s[j]
  }

  /** Cell free[k] points to the next free cell. */
  ghost predicate Linked<T>(cells: seq<Cell<T>>, free: seq<nat>, nil: int, k: nat)
    requires k < |free|
  {
    free[k] < |cells| && cells[free[k]] == Free(Head(free[k + 1..], nil))
  }

  /** From `head` on the list is acyclic, ends in nil and is `free`. */
  ghost predicate ListOf<T>(cells: seq<Cell<T>>, head: int, free: seq<nat>, nil: int) {
    head == Head(free, nil) && Distinct(free) && forall k :: 0 <= k < |free| ==> Linked(cells, free, nil, k)
  }

  /** The head of the list is taken for a value. */
  lemma TakeHead<T>(cells: seq<Cell<T>>, free: seq<nat>, nil: int, value: T)
    requires free != [] && ListOf(cells, free[0], free, nil)
    ensures var i := free[0];
      i < |cells| && cells[i].Free? && ListOf(cells[i := Used(value)], cells[i].next, free[1..], nil)
    ensures forall j: nat :: j in free[1..] <==> j in free && j != free[0]
  {
    assert Linked(cells, free, nil, 0);
    var cells', free' := cells[free[0] := Used(value)], free[1..];
    forall k | 0 <= k < |free'|
      ensures Linked(cells', free', nil, k)
    {
      assert Linked(cells, free, nil, k + 1);
      assert free'[k + 1..] == free[k + 2..];
    }
    assert free == [free[0]] + free';
  }

  /** A cell in use is put at the head of the list. */
  lemma PutHead<T>(cells: seq<Cell<T>>, free: seq<nat>, nil: int, i: nat)
    requires ListOf(cells, Head(free, nil), free, nil) && i < |cells| && i !in free
    ensures ListOf(cells[i := Free(Head(free, nil))], i, [i] + free, nil)
  {
    var cells', free' := cells[i := Free(Head(free, nil))], [i] + free;
    forall k | 0 <= k < |free'|
      ensures Linked(cells', free', nil, k)
    {
      if k == 0 {
        assert free'[1..] == free;
      } else {
        assert Linked(cells, free, nil, k - 1);
        assert free[k - 1] in free;
        assert free'[k + 1..] == free[k..];
      }
    }
  }
}

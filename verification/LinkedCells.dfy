/**
  Linked lists of cells, and what it takes to change them in place.
 */
module LinkedCells {

  class Cell<T> {
    var item: T
    var next: Cell?<T>

    constructor (item: T)
      ensures this.item == item && next == null
    {
      this.item, next := item, null;
    }
  }

  ghost predicate AllDistinct<T>(cells: seq<Cell<T>>) { forall i, j | 0 <= i < j < |cells| :: cells[i] != cells[j] }

  /** The cells are linked one to the next, the last to the tail, and hold these items. */
  ghost predicate Represents<T>(cells: seq<Cell<T>>, items: seq<T>, tail: Cell?<T>)
    reads cells
  {
    && |cells| == |items| && AllDistinct(cells)
    && forall i | 0 <= i < |cells| :: cells[i].item == items[i] && cells[i].next == At(cells, i + 1, tail)
  }

  /** The i-th cell, or what follows the last. */
  ghost function At<T>(cells: seq<Cell<T>>, i: nat, tail: Cell?<T>): Cell?<T> {
    if i < |cells| then cells[i] else tail
  }

  lemma Here<T>(cells: seq<Cell<T>>, items: seq<T>, k: nat)
    requires Represents(cells, items, null) && k <= |cells|
    ensures |cells| == |items| && (At(cells, k, null) == null <==> k == |cells|)
    ensures k < |cells| ==> At(cells, k, null) == cells[k] && cells[k] in cells && cells[k].item == items[k]
    ensures k < |cells| ==> cells[k].next == At(cells, k + 1, null)
  {
  }

  /** A new cell behind the last one. */
  method Extend<T>(last: Cell<T>, x: T, ghost cells: seq<Cell<T>>, ghost items: seq<T>) returns (c: Cell<T>)
    requires cells != [] && cells[|cells| - 1] == last && Represents(cells, items, last.next)
    modifies last`next
    ensures fresh(c) && c.next == null && Represents(cells + [c], items + [x], null)
  {
    c := new Cell(x);
    last.next := c;
    ghost var all := cells + [c];
    forall i | 0 <= i < |all| ensures all[i].item == (items + [x])[i] && all[i].next == At(all, i + 1, null) {
      if i < |cells| { assert cells[i].item == items[i]; }
    }
  }

  /** The last cell gets another successor. */
  method SetTail<T>(last: Cell<T>, tail: Cell?<T>, ghost cells: seq<Cell<T>>, ghost items: seq<T>)
    requires cells != [] && cells[|cells| - 1] == last && Represents(cells, items, last.next)
    modifies last`next
    ensures Represents(cells, items, tail)
  {
    last.next := tail;
  }

  /** New cells for the items, linked in behind a cell and before what followed it. */
  method InsertAfter<T>(entry: Cell<T>, items: seq<T>) returns (ghost added: seq<Cell<T>>)
    modifies entry`next
    ensures fresh(added) && entry.item == old(entry.item)
    ensures Represents([entry] + added, [entry.item] + items, old(entry.next))
  {
    var next := entry.next;
    var current := entry;
    added := [];
    ghost var cells := [entry];
    ghost var held := [entry.item];
    for number := 0 to |items|
      invariant fresh(added) && cells == [entry] + added && held == [entry.item] + items[..number]
      invariant |cells| == number + 1 && current == cells[number] && entry.item == old(entry.item)
      invariant Represents(cells, held, current.next)
    {
      current := Extend(current, items[number], cells, held);
      added := added + [current];
      cells, held := cells + [current], held + [items[number]];
    }
    assert held == [entry.item] + items;
    SetTail(current, next, cells, held);
  }

  lemma SpliceOk<T>(cells: seq<Cell<T>>, list: seq<T>, added: seq<Cell<T>>, items: seq<T>, k: nat)
    requires k < |cells| == |list| && AllDistinct(cells) && AllDistinct([cells[k]] + added)
    requires forall i, j | 0 <= i < |cells| && 0 <= j < |added| :: cells[i] != added[j]
    requires forall i | 0 <= i < |cells| && i != k ::
      cells[i].item == list[i] && cells[i].next == At(cells, i + 1, null)
    requires Represents([cells[k]] + added, [list[k]] + items, At(cells, k + 1, null))
    ensures Represents(cells[..k + 1] + (added + cells[k + 1..]), list[..k + 1] + (items + list[k + 1..]), null)
  {
    var front, all, held :=
      [cells[k]] + added, cells[..k + 1] + (added + cells[k + 1..]), list[..k + 1] + (items + list[k + 1..]);
    var m := |added|;
    forall i | 0 <= i < |all| ensures all[i].item == held[i] && all[i].next == At(all, i + 1, null) {
      if i < k {
        assert all[i] == cells[i] && all[i + 1] == cells[i + 1];
      } else if i <= k + m {
        assert all[i] == front[i - k] && ([list[k]] + items)[i - k] == held[i];
        if i < k + m { assert all[i + 1] == front[i - k + 1]; }
      } else {
        assert all[i] == cells[i - m];
      }
    }
    SpliceDistinct(cells, added, k);
  }

  lemma SpliceDistinct<T>(cells: seq<Cell<T>>, added: seq<Cell<T>>, k: nat)
    requires k < |cells| && AllDistinct(cells) && AllDistinct([cells[k]] + added)
    requires forall i, j | 0 <= i < |cells| && 0 <= j < |added| :: cells[i] != added[j]
    ensures AllDistinct(cells[..k + 1] + (added + cells[k + 1..]))
  {
    var all, m := cells[..k + 1] + (added + cells[k + 1..]), |added|;
    forall i, j | 0 <= i < j < |all| ensures all[i] != all[j] {
      if k < i <= k + m && k < j <= k + m {
        assert ([cells[k]] + added)[i - k] != ([cells[k]] + added)[j - k];
      }
    }
  }

  /** New cells behind the k-th cell of a list. */
  method InsertAt<T>(entry: Cell<T>, items: seq<T>, ghost cells: seq<Cell<T>>, ghost list: seq<T>, ghost k: nat)
    returns (ghost added: seq<Cell<T>>)
    requires Represents(cells, list, null) && k < |cells| == |list| && cells[k] == entry
    modifies entry`next
    ensures fresh(added)
    ensures Represents(cells[..k + 1] + (added + cells[k + 1..]), list[..k + 1] + (items + list[k + 1..]), null)
  {
    added := InsertAfter(entry, items);
    SpliceOk(cells, list, added, items, k);
  }

  /** An entry is removed by taking over the item and the successor of the cell behind it. */
  method Overwrite<T>(entry: Cell<T>, ghost cells: seq<Cell<T>>, ghost list: seq<T>, ghost k: nat)
    requires Represents(cells, list, null) && k + 1 < |cells| == |list| && cells[k] == entry
    modifies entry
    ensures Represents(cells[..k + 1] + cells[k + 2..], list[..k] + list[k + 1..], null)
  {
    assert cells[k].next == At(cells, k + 1, null);
    entry.item := entry.next.item;
    entry.next := entry.next.next;
    ghost var all, held := cells[..k + 1] + cells[k + 2..], list[..k] + list[k + 1..];
    forall i | 0 <= i < |all| ensures all[i].item == held[i] && all[i].next == At(all, i + 1, null) {
      if i < k {
        assert all[i] == cells[i];
      } else if i > k {
        assert all[i] == cells[i + 1];
      }
    }
  }

  /** A list of the items, built by appending. */
  method Build<T>(items: seq<T>) returns (head: Cell?<T>, ghost cells: seq<Cell<T>>)
    ensures fresh(cells) && head == At(cells, 0, null) && Represents(cells, items, null)
  {
    head, cells := null, [];
    if items != [] {
      var first := new Cell(items[0]);
      ghost var added := InsertAfter(first, items[1..]);
      head, cells := first, [first] + added;
      assert [items[0]] + items[1..] == items;
    }
  }

  /** The items of a list, from its head. */
  method Collect<T>(head: Cell?<T>, ghost cells: seq<Cell<T>>, ghost items: seq<T>) returns (r: seq<T>)
    requires Represents(cells, items, null) && head == At(cells, 0, null)
    ensures r == items
  {
    var entry := head;
    r := [];
    while entry != null
      invariant |r| <= |cells| && r == items[..|r|] && entry == At(cells, |r|, null)
      decreases |cells| - |r|
    {
      r := r + [entry.item];
      entry := entry.next;
    }
  }

  /** The last cell of a list, found by walking along it. */
  method Last<T>(head: Cell<T>, ghost cells: seq<Cell<T>>, ghost items: seq<T>) returns (trail: Cell<T>)
    requires cells != [] && cells[0] == head && Represents(cells, items, null)
    ensures trail == cells[|cells| - 1]
  {
    trail := head;
    var temp := trail.next;
    ghost var k := 0;
    while temp != null
      invariant k < |cells| && trail == cells[k] && temp == At(cells, k + 1, null)
      decreases |cells| - k
    {
      trail := temp;
      temp := temp.next;
      k := k + 1;
    }
  }
}

/** The heap of pqueue/pqueue.c as it is laid out in memory: an array of elements of
    fixed capacity, and the priority and position fields of the elements.

    Every operation is proved equal to its counterpart in Pqueue. */
module PriorityQueue {
  import opened Pqueue

  class Queue {
    const d: array<nat>     // element 0 is not used
    const pri: array<int>
    const pos: array<nat>
    var size: nat

    ghost predicate Valid()
      reads this, d, pri, pos
    {
      && 1 <= size <= d.Length
      && d != pos && pri.Length == pos.Length
      && forall i :: 1 <= i < size ==> d[i] < pos.Length
    }

    ghost function View(): (q: Heap)
      requires Valid()
      reads this, d, pri, pos
      ensures Shaped(q) && |q.d| == size && |q.pos| == pos.Length
    {
      Heap(d[..size], pri[..], pos[..])
    }

    /** pqueue_init for elements 0..n-1, together with the zeroed element fields. */
    constructor (n: nat)
      ensures Valid() && fresh(d) && fresh(pri) && fresh(pos)
      ensures d.Length == n + 1
      ensures View() == Heap([0], seq(n, (l: nat) => 0), seq(n, (l: nat) => 0))
    {
      d := new nat[n + 1](_ => 0);
      pri := new int[n](_ => 0);
      pos := new nat[n](_ => 0);
      size := 1;
    }

    /** q->d[i] = x and q->setpos(x, i). */
    method Store(i: nat, x: nat)
      requires Valid() && 1 <= i < size && x < pos.Length
      modifies d, pos
      ensures Valid() && View() == Put(old(View()), i, x)
    {
      d[i] := x;
      pos[x] := i;
    }

    /** bubble_up of the element at position `from`. */
    method BubbleUp(from: nat)
      requires Valid() && 1 <= from < size
      modifies d, pos
      ensures Valid() && View() == Pqueue.BubbleUp(old(View()), from, old(d[from]))
    {
      var x := d[from];
      var i := from;
      while i > 1 && pri[d[i / 2]] > pri[x]
        invariant Valid() && 1 <= i < size
        invariant Pqueue.BubbleUp(View(), i, x) == Pqueue.BubbleUp(old(View()), from, x)
      {
        Store(i, d[i / 2]);
        i := i / 2;
      }
      Store(i, x);
    }

    method MaxChild(i: nat) returns (c: nat)
      requires Valid() && 1 <= i < size
      ensures c == Pqueue.MaxChild(View(), i)
    {
      c := 2 * i;
      if c >= size {
        return 0;
      }
      if c + 1 < size && pri[d[c]] > pri[d[c + 1]] {
        c := c + 1;
      }
    }

    /** percolate_down of the element at position `from`. */
    method PercolateDown(from: nat)
      requires Valid() && 1 <= from < size
      modifies d, pos
      ensures Valid() && View() == Pqueue.PercolateDown(old(View()), from, old(d[from]))
    {
      var x := d[from];
      var i := from;
      var c := MaxChild(i);
      while c != 0 && pri[x] > pri[d[c]]
        invariant Valid() && 1 <= i < size && c == Pqueue.MaxChild(View(), i)
        invariant Pqueue.PercolateDown(View(), i, x) == Pqueue.PercolateDown(old(View()), from, x)
        decreases size - i
      {
        Store(i, d[c]);
        i := c;
        c := MaxChild(i);
      }
      Store(i, x);
    }

    /** pqueue_insert.  The source writes beyond the array when it is full. */
    method Insert(x: nat)
      requires Valid() && x < pos.Length && size < d.Length
      modifies this, d, pos
      ensures Valid() && View() == Pqueue.Insert(old(View()), x)
    {
      ghost var q := View();
      d[size] := x;
      size := size + 1;
      assert View() == q.(d := q.d + [x]);
      BubbleUp(size - 1);
    }

    /** pqueue_change_priority. */
    method ChangePriority(x: nat, newPri: int)
      requires Valid() && x < pos.Length && 1 <= pos[x] < size
      modifies d, pri, pos
      ensures Valid() && View() == Pqueue.ChangePriority(old(View()), x, newPri)
    {
      ghost var q := View();
      var oldPri := pri[x];
      pri[x] := newPri;
      assert View() == q.(pri := q.pri[x := newPri]);
      if oldPri > newPri {
        BubbleUp(pos[x]);
      } else {
        PercolateDown(pos[x]);
      }
    }

    /** pqueue_pop of a non-empty heap. */
    method Pop() returns (head: nat)
      requires Valid() && 1 < size
      modifies this, d, pos
      ensures Valid() && head == old(d[1]) && View() == Pqueue.Pop(old(View()))
    {
      ghost var q := View();
      head := d[1];
      size := size - 1;
      d[1] := d[size];
      if size == 1 {
        // percolate_down finds no child and rewrites slot 1
        pos[d[1]] := 1;
        assert View() == Pqueue.Pop(q);
      } else {
        ghost var m := q.(d := q.d[..size]);
        assert View() == m.(d := m.d[1 := q.d[size]]);
        PercolateDown(1);
        PercolateIgnoresHole(m, 1, q.d[size], q.d[size]);
      }
    }
  }

  /** percolate_down never reads the slot it starts from. */
  lemma PercolateIgnoresHole(q: Heap, i: nat, x: nat, y: nat)
    requires Shaped(q) && 1 <= i < |q.d| && x < |q.pos| && y < |q.pos|
    ensures PercolateDown(q.(d := q.d[i := y]), i, x) == PercolateDown(q, i, x)
  {
    var q1 := q.(d := q.d[i := y]);
    assert MaxChild(q1, i) == MaxChild(q, i);
    var c := MaxChild(q, i);
    assert Put(q1, i, x) == Put(q, i, x);
    if c != 0 {
      assert Put(q1, i, q.d[c]) == Put(q, i, q.d[c]);
    }
  }
}

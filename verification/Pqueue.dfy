/** Binary min-heap with position back-pointers (pqueue/pqueue.c).

    Elements are naturals (line numbers).  Slot 0 of `d` is never used, as in the
    source.  `pri` and `pos` are the element fields that the getpri/setpri and
    getpos/setpos callbacks reach; the comparison is the FTL's `next > curr`, so
    the element with the smallest priority is on top. */
module Pqueue {

  datatype Heap = Heap(d: seq<nat>, pri: seq<int>, pos: seq<nat>)

  ghost predicate Shaped(q: Heap) {
    && 1 <= |q.d|
    && |q.pri| == |q.pos|
    && forall i :: 1 <= i < |q.d| ==> q.d[i] < |q.pos|
  }

  /** Every stored element's position field is its index. */
  ghost predicate Indexed(q: Heap)
    requires Shaped(q)
  {
    forall i :: 1 <= i < |q.d| ==> q.pos[q.d[i]] == i
  }

  /** No parent has a larger priority than its child. */
  ghost predicate Ordered(q: Heap)
    requires Shaped(q)
  {
    forall i :: 2 <= i < |q.d| ==> q.pri[q.d[i / 2]] <= q.pri[q.d[i]]
  }

  ghost predicate Valid(q: Heap) {
    Shaped(q) && Indexed(q) && Ordered(q)
  }

  /** y is stored at the position its back-pointer names. */
  ghost predicate In(q: Heap, y: nat)
    requires Shaped(q)
  {
    y < |q.pos| && 1 <= q.pos[y] < |q.d| && q.d[q.pos[y]] == y
  }

  ghost function Members(q: Heap): multiset<nat>
    requires Shaped(q)
  {
    multiset(q.d[1..])
  }

  /** r holds the elements of q and touches no other element's position. */
  ghost predicate SameMembers(q: Heap, r: Heap) {
    && Shaped(q) && Shaped(r)
    && |r.d| == |q.d| && |r.pos| == |q.pos|
    && Members(r) == Members(q)
    && (forall y: nat :: In(q, y) <==> In(r, y))
    && (forall y: nat :: y < |q.pos| && !In(q, y) ==> r.pos[y] == q.pos[y])
  }

  /** q with x written into slot i. */
  function Put(q: Heap, i: nat, x: nat): (r: Heap)
    requires i < |q.d| && x < |q.pos|
  {
    q.(d := q.d[i := x], pos := q.pos[x := i])
  }

  /** bubble_up: x travels up from the hole at i. */
  function BubbleUp(q: Heap, i: nat, x: nat): (r: Heap)
    requires Shaped(q) && 1 <= i < |q.d| && x < |q.pos|
    ensures Shaped(r) && |r.d| == |q.d| && |r.pos| == |q.pos| && r.pri == q.pri
    decreases i
  {
    if i > 1 && q.pri[q.d[i / 2]] > q.pri[x] then
      BubbleUp(Put(q, i, q.d[i / 2]), i / 2, x)
    else
      Put(q, i, x)
  }

  /** maxchild: the child that should be on top, 0 when i is a leaf. */
  function MaxChild(q: Heap, i: nat): (c: nat)
    requires Shaped(q) && 1 <= i < |q.d|
    ensures c == 0 <==> 2 * i >= |q.d|
    ensures c != 0 ==> c < |q.d| && c / 2 == i
    ensures c == 2 * i + 1 ==> q.pri[q.d[c]] < q.pri[q.d[2 * i]]
    ensures forall j :: 2 <= j < |q.d| && j / 2 == i ==> q.pri[q.d[c]] <= q.pri[q.d[j]]
  {
    var l := 2 * i;
    if l >= |q.d| then 0
    else if l + 1 < |q.d| && q.pri[q.d[l]] > q.pri[q.d[l + 1]] then l + 1
    else l
  }

  /** percolate_down: x travels down from the hole at i. */
  function PercolateDown(q: Heap, i: nat, x: nat): (r: Heap)
    requires Shaped(q) && 1 <= i < |q.d| && x < |q.pos|
    ensures Shaped(r) && |r.d| == |q.d| && |r.pos| == |q.pos| && r.pri == q.pri
    decreases |q.d| - i
  {
    var c := MaxChild(q, i);
    if c != 0 && q.pri[x] > q.pri[q.d[c]] then
      PercolateDown(Put(q, i, q.d[c]), c, x)
    else
      Put(q, i, x)
  }

  /** Exchanging the hole at i with the element at j keeps the back-pointers... */
  lemma HoleMovesIndex(q: Heap, i: nat, j: nat, x: nat)
    requires Shaped(q) && 1 <= i < |q.d| && 1 <= j < |q.d| && i != j && x < |q.pos|
    requires Indexed(Put(q, i, x))
    ensures
      var a, b := Put(q, i, x), Put(Put(q, i, q.d[j]), j, x);
      && Shaped(b) && Indexed(b)
      && b.d == a.d[i := a.d[j]][j := a.d[i]] && b.pos == a.pos[a.d[i] := j][a.d[j] := i]
      && a.d[i] != a.d[j]
  {
    var a, b := Put(q, i, x), Put(Put(q, i, q.d[j]), j, x);
    assert a.d[j] == q.d[j] && a.pos[a.d[j]] == j;
    assert a.d[i] == x && a.pos[a.d[i]] == i;
    forall k | 1 <= k < |b.d|
      ensures b.pos[b.d[k]] == k
    {
      assert a.pos[a.d[k]] == k;
    }
  }

  /** ...and the contents. */
  lemma HoleMoves(q: Heap, i: nat, j: nat, x: nat)
    requires Shaped(q) && 1 <= i < |q.d| && 1 <= j < |q.d| && i != j && x < |q.pos|
    requires Indexed(Put(q, i, x))
    ensures
      var a, b := Put(q, i, x), Put(Put(q, i, q.d[j]), j, x);
      Shaped(b) && Indexed(b) && SameMembers(a, b)
  {
    HoleMovesIndex(q, i, j, x);
    SwapKeepsMembers(Put(q, i, x), Put(Put(q, i, q.d[j]), j, x), i, j);
  }

  lemma SwapKeepsMembers(a: Heap, b: Heap, i: nat, j: nat)
    requires Shaped(a) && Shaped(b) && Indexed(a)
    requires 1 <= i < |a.d| && 1 <= j < |a.d| && i != j && a.d[i] != a.d[j]
    requires b.d == a.d[i := a.d[j]][j := a.d[i]]
    requires b.pos == a.pos[a.d[i] := j][a.d[j] := i]
    ensures SameMembers(a, b)
  {
    SwapMembers(a, b, i, j);
    hide Members;
    assert a.pos[a.d[i]] == i && a.pos[a.d[j]] == j;
    forall y: nat
      ensures In(a, y) <==> In(b, y)
    {
      SwapKeeps(a, b, i, j, y);
    }
  }

  lemma SwapMembers(a: Heap, b: Heap, i: nat, j: nat)
    requires Shaped(a) && Shaped(b) && 1 <= i < |a.d| && 1 <= j < |a.d| && i != j
    requires b.d == a.d[i := a.d[j]][j := a.d[i]]
    ensures Members(a) == Members(b)
  {
    SwapMultiset(a.d, i, j);
    MembersFromAll(a);
    MembersFromAll(b);
  }

  lemma SwapMultiset(s: seq<nat>, i: nat, j: nat)
    requires i < |s| && j < |s|
    ensures multiset(s[i := s[j]][j := s[i]]) == multiset(s)
  {
    var t := s[i := s[j]];
    assert multiset(t) == multiset(s) - multiset{s[i]} + multiset{s[j]};
  }

  lemma SwapKeeps(a: Heap, b: Heap, i: nat, j: nat, y: nat)
    requires Shaped(a) && Shaped(b)
    requires 1 <= i < |a.d| && 1 <= j < |a.d| && i != j && a.d[i] != a.d[j]
    requires a.pos[a.d[i]] == i && a.pos[a.d[j]] == j
    requires b.d == a.d[i := a.d[j]][j := a.d[i]]
    requires b.pos == a.pos[a.d[i] := j][a.d[j] := i]
    ensures In(a, y) <==> In(b, y)
  {
    if y < |a.pos| && y != a.d[i] && y != a.d[j] {
      assert a.pos[y] == b.pos[y];
    }
  }

  lemma MembersFromAll(q: Heap)
    requires Shaped(q)
    ensures Members(q) == multiset(q.d) - multiset{q.d[0]}
  {
    assert q.d == [q.d[0]] + q.d[1..];
  }

  /** The only disorder is that slot i is too light for its ancestors... */
  ghost predicate LightAt(q: Heap, i: nat)
    requires Shaped(q) && 1 <= i < |q.d|
  {
    && (forall j :: 2 <= j < |q.d| && j != i ==> q.pri[q.d[j / 2]] <= q.pri[q.d[j]])
    && (forall j :: 2 <= j < |q.d| && j / 2 == i && i > 1 ==> q.pri[q.d[i / 2]] <= q.pri[q.d[j]])
  }

  /** ...or too heavy for its descendants. */
  ghost predicate HeavyAt(q: Heap, i: nat)
    requires Shaped(q) && 1 <= i < |q.d|
  {
    && (forall j :: 2 <= j < |q.d| && j / 2 != i ==> q.pri[q.d[j / 2]] <= q.pri[q.d[j]])
    && (forall j :: 2 <= j < |q.d| && j / 2 == i && i > 1 ==> q.pri[q.d[i / 2]] <= q.pri[q.d[j]])
  }

  lemma SameMembersTrans(a: Heap, b: Heap, c: Heap)
    requires SameMembers(a, b) && SameMembers(b, c)
    ensures SameMembers(a, c)
  {
    hide Members;
  }

  lemma BubbleStep(q: Heap, i: nat, x: nat)
    requires Shaped(q) && 1 < i < |q.d| && x < |q.pos| && q.pri[q.d[i / 2]] > q.pri[x]
    requires LightAt(Put(q, i, x), i)
    ensures LightAt(Put(Put(q, i, q.d[i / 2]), i / 2, x), i / 2)
  {
  }

  lemma BubbleStops(q: Heap, i: nat, x: nat)
    requires Shaped(q) && 1 <= i < |q.d| && x < |q.pos| && (i > 1 ==> q.pri[q.d[i / 2]] <= q.pri[x])
    requires LightAt(Put(q, i, x), i)
    ensures Shaped(Put(q, i, x)) && Ordered(Put(q, i, x)) && SameMembers(Put(q, i, x), Put(q, i, x))
  {
  }

  /** bubble_up repairs a heap whose only disorder is x against its ancestors. */
  lemma {:induction false} BubbleUpCorrect(q: Heap, i: nat, x: nat)
    requires Shaped(q) && 1 <= i < |q.d| && x < |q.pos|
    requires Indexed(Put(q, i, x)) && LightAt(Put(q, i, x), i)
    ensures
      var r := BubbleUp(q, i, x);
      Valid(r) && r.pri == q.pri && SameMembers(Put(q, i, x), r)
    decreases i
  {
    hide LightAt, Indexed, Ordered, SameMembers;
    if i > 1 && q.pri[q.d[i / 2]] > q.pri[x] {
      HoleMoves(q, i, i / 2, x);
      BubbleStep(q, i, x);
      BubbleUpCorrect(Put(q, i, q.d[i / 2]), i / 2, x);
      SameMembersTrans(Put(q, i, x), Put(Put(q, i, q.d[i / 2]), i / 2, x), BubbleUp(q, i, x));
    } else {
      BubbleStops(q, i, x);
    }
  }

  lemma PercolateStep(q: Heap, i: nat, c: nat, x: nat)
    requires Shaped(q) && 1 <= i < |q.d| && x < |q.pos|
    requires 2 <= c < |q.d| && c / 2 == i && q.pri[x] > q.pri[q.d[c]]
    requires forall j :: 2 <= j < |q.d| && j / 2 == i ==> q.pri[q.d[c]] <= q.pri[q.d[j]]
    requires HeavyAt(Put(q, i, x), i)
    ensures HeavyAt(Put(Put(q, i, q.d[c]), c, x), c)
  {
    var a, b := Put(q, i, x), Put(Put(q, i, q.d[c]), c, x);
    forall j | 2 <= j < |b.d| && j / 2 != c
      ensures b.pri[b.d[j / 2]] <= b.pri[b.d[j]]
    {
      if j == i {
        assert a.pri[a.d[i / 2]] <= a.pri[a.d[c]];
      } else if j != c && j / 2 != i {
        assert a.pri[a.d[j / 2]] <= a.pri[a.d[j]];
      }
    }
    forall j | 2 <= j < |b.d| && j / 2 == c
      ensures b.pri[b.d[c / 2]] <= b.pri[b.d[j]]
    {
      assert a.pri[a.d[j / 2]] <= a.pri[a.d[j]];
    }
  }

  lemma PercolateStops(q: Heap, i: nat, c: nat, x: nat)
    requires Shaped(q) && 1 <= i < |q.d| && x < |q.pos|
    requires c == MaxChild(q, i) && (c == 0 || q.pri[x] <= q.pri[q.d[c]])
    requires HeavyAt(Put(q, i, x), i)
    ensures Shaped(Put(q, i, x)) && Ordered(Put(q, i, x)) && SameMembers(Put(q, i, x), Put(q, i, x))
  {
    var p := Put(q, i, x);
    forall j | 2 <= j < |p.d|
      ensures p.pri[p.d[j / 2]] <= p.pri[p.d[j]]
    {
      if j / 2 == i {
        assert q.pri[q.d[c]] <= q.pri[q.d[j]];
      }
    }
  }

  /** percolate_down repairs a heap whose only disorder is x against its descendants. */
  lemma {:induction false} PercolateDownCorrect(q: Heap, i: nat, x: nat)
    requires Shaped(q) && 1 <= i < |q.d| && x < |q.pos|
    requires Indexed(Put(q, i, x)) && HeavyAt(Put(q, i, x), i)
    ensures
      var r := PercolateDown(q, i, x);
      Valid(r) && r.pri == q.pri && SameMembers(Put(q, i, x), r)
    decreases |q.d| - i
  {
    hide HeavyAt, Indexed, Ordered, SameMembers;
    var c := MaxChild(q, i);
    if c != 0 && q.pri[x] > q.pri[q.d[c]] {
      HoleMoves(q, i, c, x);
      PercolateStep(q, i, c, x);
      PercolateDownCorrect(Put(q, i, q.d[c]), c, x);
      SameMembersTrans(Put(q, i, x), Put(Put(q, i, q.d[c]), c, x), PercolateDown(q, i, x));
    } else {
      PercolateStops(q, i, c, x);
    }
  }

  /** Elements are moved only past others of strictly larger priority: sifting an element that
      is in its place changes nothing. */
  lemma SiftStays(q: Heap, i: nat, x: nat)
    requires Shaped(q) && 1 <= i < |q.d| && x < |q.pos| && Shaped(Put(q, i, x)) && Ordered(Put(q, i, x))
    ensures BubbleUp(q, i, x) == Put(q, i, x) == PercolateDown(q, i, x)
  {
    var p, c := Put(q, i, x), MaxChild(q, i);
    if i > 1 {
      assert p.pri[p.d[i / 2]] <= p.pri[p.d[i]];
    }
    if c != 0 {
      assert p.pri[p.d[c / 2]] <= p.pri[p.d[c]];
    }
  }

  /** pqueue_insert. */
  function Insert(q: Heap, x: nat): (r: Heap)
    requires Shaped(q) && x < |q.pos|
    ensures Shaped(r) && |r.d| == |q.d| + 1 && |r.pos| == |q.pos| && r.pri == q.pri
  {
    BubbleUp(q.(d := q.d + [x]), |q.d|, x)
  }

  lemma InsertCorrect(q: Heap, x: nat)
    requires Valid(q) && x < |q.pos| && !In(q, x)
    ensures
      var r := Insert(q, x);
      && Valid(r) && r.pri == q.pri && |r.d| == |q.d| + 1 && |r.pos| == |q.pos|
      && Members(r) == Members(q) + multiset{x}
      && (forall y: nat :: In(r, y) <==> In(q, y) || y == x)
      && (forall y: nat :: y < |q.pos| && !In(q, y) && y != x ==> r.pos[y] == q.pos[y])
  {
    var p := q.(d := q.d + [x]);
    var a := Put(p, |q.d|, x);
    assert forall i :: 1 <= i < |q.d| ==> q.d[i] != x;
    assert a.d == q.d + [x];
    assert a.d[1..] == q.d[1..] + [x];
    BubbleUpCorrect(p, |q.d|, x);
    assert forall y: nat :: In(a, y) <==> In(q, y) || y == x;
  }

  /** pqueue_change_priority. */
  function ChangePriority(q: Heap, x: nat, newPri: int): (r: Heap)
    requires Shaped(q) && x < |q.pos| && 1 <= q.pos[x] < |q.d|
    ensures Shaped(r) && |r.d| == |q.d| && |r.pos| == |q.pos| && r.pri == q.pri[x := newPri]
  {
    var q1 := q.(pri := q.pri[x := newPri]);
    if q.pri[x] > newPri then BubbleUp(q1, q.pos[x], q.d[q.pos[x]])
    else PercolateDown(q1, q.pos[x], q.d[q.pos[x]])
  }

  /** A changed priority puts only its own slot out of order. */
  lemma Reweighed(q: Heap, x: nat, newPri: int)
    requires Valid(q) && In(q, x)
    ensures
      var q1, i := q.(pri := q.pri[x := newPri]), q.pos[x];
      && Put(q1, i, x) == q1 && Shaped(q1) && Indexed(q1) && SameMembers(q, q1)
      && if q.pri[x] > newPri then LightAt(q1, i) else HeavyAt(q1, i)
  {
    var q1, i := q.(pri := q.pri[x := newPri]), q.pos[x];
    assert forall j :: 1 <= j < |q.d| && q.d[j] == x ==> j == i;
    if i > 1 {
      assert q.pri[q.d[i / 2]] <= q.pri[q.d[i]];
    }
  }

  lemma ChangePriorityCorrect(q: Heap, x: nat, newPri: int)
    requires Valid(q) && In(q, x)
    ensures
      var r := ChangePriority(q, x, newPri);
      Valid(r) && r.pri == q.pri[x := newPri] && SameMembers(q, r)
  {
    hide LightAt, HeavyAt, Indexed, Ordered, BubbleUp, PercolateDown;
    var q1, i := q.(pri := q.pri[x := newPri]), q.pos[x];
    Reweighed(q, x, newPri);
    if q.pri[x] > newPri {
      BubbleUpCorrect(q1, i, x);
    } else {
      PercolateDownCorrect(q1, i, x);
    }
  }

  /** pqueue_pop of a non-empty heap.  When the last element leaves, percolate_down
      still rewrites slot 1 beyond the new size and sets its position to 1. */
  function Pop(q: Heap): (r: Heap)
    requires Shaped(q) && 1 < |q.d|
    ensures Shaped(r) && |r.d| == |q.d| - 1 && |r.pos| == |q.pos| && r.pri == q.pri
  {
    var n := |q.d| - 1;
    if n == 1 then q.(d := q.d[..1], pos := q.pos[q.d[1] := 1])
    else PercolateDown(q.(d := q.d[..n]), 1, q.d[n])
  }

  /** r is q without the element x. */
  ghost predicate Removes(q: Heap, x: nat, r: Heap) {
    && Shaped(q) && Shaped(r)
    && |r.d| == |q.d| - 1 && |r.pos| == |q.pos|
    && Members(q) == Members(r) + multiset{x}
    && (forall y: nat :: In(r, y) <==> In(q, y) && y != x)
    && (forall y: nat :: y < |q.pos| && !In(q, y) ==> r.pos[y] == q.pos[y])
  }

  /** Pop removes the top, which is an element of least priority, and nothing else. */
  lemma PopCorrect(q: Heap)
    requires Valid(q) && 1 < |q.d|
    ensures Valid(Pop(q)) && Pop(q).pri == q.pri && Removes(q, q.d[1], Pop(q))
    ensures forall y: nat :: In(q, y) ==> q.pri[q.d[1]] <= q.pri[y]
  {
    hide Removes;
    TopIsLeast(q);
    if |q.d| == 2 {
      PopLast(q);
    } else {
      PopMany(q);
    }
  }

  lemma PopLast(q: Heap)
    requires Valid(q) && |q.d| == 2
    ensures Valid(Pop(q)) && Removes(q, q.d[1], Pop(q))
  {
    assert q.d[1..] == [q.d[1]];
  }

  lemma PopMany(q: Heap)
    requires Valid(q) && 2 < |q.d|
    ensures Valid(Pop(q)) && Removes(q, q.d[1], Pop(q))
  {
    hide Removes, SameMembers, HeavyAt, Indexed, Ordered, PercolateDown;
    var n := |q.d| - 1;
    PopMovesLast(q);
    LastOnTopHeavy(q);
    PercolateDownCorrect(q.(d := q.d[..n]), 1, q.d[n]);
    RemovesSame(q, q.d[1], LastOnTop(q), Pop(q));
  }

  lemma LastOnTopHeavy(q: Heap)
    requires Valid(q) && 2 < |q.d| && Shaped(LastOnTop(q))
    ensures HeavyAt(LastOnTop(q), 1)
  {
  }

  lemma RemovesSame(q: Heap, x: nat, a: Heap, r: Heap)
    requires Removes(q, x, a) && SameMembers(a, r)
    ensures Removes(q, x, r)
  {
    hide Members;
  }

  ghost function LastOnTop(q: Heap): Heap
    requires Shaped(q) && 2 < |q.d|
  {
    Put(q.(d := q.d[..|q.d| - 1]), 1, q.d[|q.d| - 1])
  }

  lemma PopMembers(q: Heap)
    requires Shaped(q) && 2 < |q.d|
    ensures Shaped(LastOnTop(q)) && Members(q) == Members(LastOnTop(q)) + multiset{q.d[1]}
  {
    var n := |q.d| - 1;
    assert q.d[1..] == [q.d[1]] + q.d[2..n] + [q.d[n]];
    assert LastOnTop(q).d[1..] == [q.d[n]] + q.d[2..n];
  }

  lemma PopIn(q: Heap, y: nat)
    requires Valid(q) && 2 < |q.d| && Shaped(LastOnTop(q))
    ensures In(LastOnTop(q), y) <==> In(q, y) && y != q.d[1]
  {
    var n := |q.d| - 1;
    assert q.pos[q.d[1]] == 1 && q.pos[q.d[n]] == n;
  }

  lemma PopMovesLast(q: Heap)
    requires Valid(q) && 2 < |q.d|
    ensures Shaped(LastOnTop(q)) && Indexed(LastOnTop(q)) && Removes(q, q.d[1], LastOnTop(q))
  {
    PopMembers(q);
    assert q.pos[q.d[1]] == 1 && q.pos[q.d[|q.d| - 1]] == |q.d| - 1;
    forall y: nat
      ensures In(LastOnTop(q), y) <==> In(q, y) && y != q.d[1]
    {
      PopIn(q, y);
    }
  }

  lemma {:induction false} TopIsLeastAt(q: Heap, i: nat)
    requires Shaped(q) && Ordered(q) && 1 <= i < |q.d|
    ensures q.pri[q.d[1]] <= q.pri[q.d[i]]
    decreases i
  {
    if i > 1 {
      TopIsLeastAt(q, i / 2);
    }
  }

  lemma TopIsLeast(q: Heap)
    requires Valid(q) && 1 < |q.d|
    ensures forall y: nat :: In(q, y) ==> q.pri[q.d[1]] <= q.pri[y]
  {
    forall y: nat | In(q, y)
      ensures q.pri[q.d[1]] <= q.pri[y]
    {
      TopIsLeastAt(q, q.pos[y]);
    }
  }
}

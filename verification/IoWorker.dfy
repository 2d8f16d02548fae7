/** The work queue of one I/O worker (io.c): a fixed array of slots, chained by index into
    a free list and a list of requests in flight.

    The dispatcher enqueues and reclaims, the worker thread copies and completes.  Each
    method is one atomic step; a run is any interleaving of them.  The worker's cursor is
    part of the state because a step of the dispatcher may move the slot under it. */
module IoWorker {
  import opened Finite

  const NONE: int := -1

  datatype Work = Work(next: int, prev: int, target: nat, completed: bool, copied: bool, internal: bool)

  // ---------------------------------------------------------------- chains

  function At(l: seq<nat>, i: nat): (r: int) { if i < |l| then l[i] else NONE }
  function After(l: seq<nat>, i: nat): (r: int) { At(l, i + 1) }
  function Before(l: seq<nat>, i: nat): (r: int) { if 0 < i <= |l| then l[i - 1] else NONE }

  ghost predicate NextAt(q: seq<Work>, l: seq<nat>, i: nat) {
    i < |l| && l[i] < |q| && q[l[i]].next == After(l, i)
  }

  ghost predicate PrevAt(q: seq<Work>, l: seq<nat>, i: nat) {
    i < |l| && l[i] < |q| && q[l[i]].prev == Before(l, i)
  }

  /** l is chained through next and ends in -1. */
  ghost predicate Forward(q: seq<Work>, l: seq<nat>) {
    && (forall i :: 0 <= i < |l| ==> l[i] < |q|)
    && forall i: nat :: i < |l| ==> NextAt(q, l, i)
  }

  ghost predicate Backward(q: seq<Work>, l: seq<nat>) {
    forall i: nat :: i < |l| ==> PrevAt(q, l, i)
  }

  ghost predicate Apart(l: seq<nat>, m: seq<nat>) {
    && (forall i, j :: 0 <= i < |l| && 0 <= j < |m| ==> l[i] != m[j])
    && Distinct(l) && Distinct(m)
  }

  /** Free and in-flight slots make up the whole array, each slot once. */
  ghost predicate Partition(n: nat, free: seq<nat>, flight: seq<nat>) {
    && Apart(free, flight)
    && (forall i :: 0 <= i < |free| ==> free[i] < n) && (forall i :: 0 <= i < |flight| ==> flight[i] < n)
    && |free| + |flight| == n
  }

  /** Requests are due in list order, once those already due are considered equal. */
  ghost predicate Sorted(q: seq<Work>, l: seq<nat>, latest: nat) {
    && (forall i :: 0 <= i < |l| ==> l[i] < |q|)
    && forall i, j :: 0 <= i < j < |l| ==> Key(q[l[i]].target, latest) <= Key(q[l[j]].target, latest)
  }

  function Key(target: nat, latest: nat): (r: nat) { if target >= latest then target else latest }

  /** The clock may move forward without disturbing the order. */
  lemma SortedLater(q: seq<Work>, l: seq<nat>, latest: nat, later: nat)
    requires Sorted(q, l, latest) && latest <= later
    ensures Sorted(q, l, later)
  {
  }

  /** It may not move back: requests due at 30 and 10, enqueued at time 40, are out of order
      again at time 20. */
  lemma SortedEarlierFails()
    ensures
      var q := [Work(1, NONE, 30, false, false, false), Work(NONE, 0, 10, false, false, false)];
      Sorted(q, [0, 1], 40) && !Sorted(q, [0, 1], 20)
  {
    var q := [Work(1, NONE, 30, false, false, false), Work(NONE, 0, 10, false, false, false)];
    assert Key(q[[0, 1][0]].target, 20) == 30 && Key(q[[0, 1][1]].target, 20) == 20;
  }

  ghost function Inserted(l: seq<nat>, p: nat, e: nat): seq<nat>
    requires p <= |l|
  {
    l[..p] + [e] + l[p..]
  }

  /** q1 is q with e linked in at position p of l. */
  ghost predicate Relinked(q: seq<Work>, q1: seq<Work>, l: seq<nat>, p: nat, e: nat)
    requires p <= |l|
  {
    && |q1| == |q| && e < |q|
    && q1[e] == q[e].(next := At(l, p), prev := Before(l, p))
    && forall k :: 0 <= k < |q| && k != e ==>
      q1[k] == q[k].(next := if p > 0 && k == l[p - 1] then e else q[k].next,
                     prev := if p < |l| && k == l[p] then e else q[k].prev)
  }

  lemma InsertedAt(l: seq<nat>, p: nat, e: nat, i: nat)
    requires p <= |l| && i <= |l|
    ensures |Inserted(l, p, e)| == |l| + 1
    ensures Inserted(l, p, e)[i] == if i < p then l[i] else if i == p then e else l[i - 1]
  {
  }

  lemma InsertLinkAt(q: seq<Work>, q1: seq<Work>, l: seq<nat>, p: nat, e: nat, i: nat)
    requires Forward(q, l) && Backward(q, l) && Distinct(l) && e !in l && p <= |l| && Relinked(q, q1, l, p, e)
    requires i <= |l|
    ensures
      NextAt(q1, Inserted(l, p, e), i) && PrevAt(q1, Inserted(l, p, e), i)
  {
    var m := Inserted(l, p, e);
    InsertedAt(l, p, e, i);
    if i < |l| {
      InsertedAt(l, p, e, i + 1);
    }
    if i > 0 {
      InsertedAt(l, p, e, i - 1);
    }
    if i != p {
      var k := if i < p then i else i - 1;
      assert m[i] == l[k] && l[k] != e;
      assert NextAt(q, l, k) && PrevAt(q, l, k);
      assert p > 0 && k != p - 1 ==> l[k] != l[p - 1];
      assert p < |l| && k != p ==> l[k] != l[p];
    }
  }

  lemma InsertLinks(q: seq<Work>, q1: seq<Work>, l: seq<nat>, p: nat, e: nat)
    requires Forward(q, l) && Backward(q, l) && Distinct(l) && e !in l && p <= |l| && Relinked(q, q1, l, p, e)
    ensures Forward(q1, Inserted(l, p, e)) && Backward(q1, Inserted(l, p, e))
  {
    forall i: nat | i <= |l|
      ensures NextAt(q1, Inserted(l, p, e), i) && PrevAt(q1, Inserted(l, p, e), i)
    {
      InsertLinkAt(q, q1, l, p, e, i);
    }
    forall i: nat | i < |Inserted(l, p, e)|
      ensures Inserted(l, p, e)[i] < |q1|
    {
      assert NextAt(q1, Inserted(l, p, e), i);
    }
  }

  /** The three cases of __insert_req_sorted. */
  lemma RelinkHead(q: seq<Work>, q1: seq<Work>, l: seq<nat>, e: nat)
    requires l != [] && l[0] < |q| && e < |q| && e != l[0] && q[e].next == NONE && q[e].prev == NONE
    requires q1 == q[l[0] := q[l[0]].(prev := e)][e := q[e].(next := l[0])]
    ensures Relinked(q, q1, l, 0, e)
  {
  }

  lemma RelinkTail(q: seq<Work>, q1: seq<Work>, l: seq<nat>, e: nat)
    requires l != [] && l[|l| - 1] < |q| && e < |q| && e != l[|l| - 1] && q[e].next == NONE && q[e].prev == NONE
    requires q1 == q[e := q[e].(prev := l[|l| - 1])][l[|l| - 1] := q[l[|l| - 1]].(next := e)]
    ensures Relinked(q, q1, l, |l|, e)
  {
  }

  lemma RelinkBetween(q: seq<Work>, q1: seq<Work>, l: seq<nat>, p: nat, e: nat)
    requires 0 < p < |l| && l[p - 1] < |q| && l[p] < |q| && l[p - 1] != l[p] && e < |q| && e != l[p - 1] && e != l[p]
    requires q[e].next == NONE && q[e].prev == NONE
    requires q1 == q[e := q[e].(prev := l[p - 1], next := l[p])]
                    [l[p] := q[l[p]].(prev := e)][l[p - 1] := q[l[p - 1]].(next := e)]
    ensures Relinked(q, q1, l, p, e)
  {
  }

  lemma InsertOther(q: seq<Work>, q1: seq<Work>, l: seq<nat>, p: nat, e: nat, m: seq<nat>)
    requires Forward(q, m) && Apart(m, l) && e !in m && p <= |l| && Relinked(q, q1, l, p, e)
    ensures Forward(q1, m)
  {
    forall i: nat | i < |m|
      ensures NextAt(q1, m, i)
    {
      assert NextAt(q, m, i) && m[i] != e;
      assert p > 0 ==> m[i] != l[p - 1];
    }
  }

  lemma InsertSorted(q: seq<Work>, q1: seq<Work>, l: seq<nat>, p: nat, e: nat, latest: nat)
    requires Sorted(q, l, latest) && p <= |l| && e < |q1| && |q1| == |q|
    requires forall i :: 0 <= i < |l| ==> q1[l[i]].target == q[l[i]].target
    requires p > 0 ==> Key(q[l[p - 1]].target, latest) <= Key(q1[e].target, latest)
    requires forall i :: p <= i < |l| ==> Key(q1[e].target, latest) <= Key(q[l[i]].target, latest)
    ensures Sorted(q1, Inserted(l, p, e), latest)
  {
    var m := Inserted(l, p, e);
    forall i, j | 0 <= i < j < |m|
      ensures Key(q1[m[i]].target, latest) <= Key(q1[m[j]].target, latest)
    {
      InsertedAt(l, p, e, i);
      InsertedAt(l, p, e, j);
    }
    forall i | 0 <= i < |m|
      ensures m[i] < |q1|
    {
      InsertedAt(l, p, e, i);
    }
  }

  lemma TakePartition(n: nat, free: seq<nat>, flight: seq<nat>, p: nat)
    requires Partition(n, free, flight) && free != [] && p <= |flight|
    ensures Partition(n, free[1..], Inserted(flight, p, free[0]))
  {
    var e, m := free[0], Inserted(flight, p, free[0]);
    forall i | 0 <= i < |m|
      ensures m[i] < n && forall j :: 1 <= j < |free| ==> free[j] != m[i]
    {
      InsertedAt(flight, p, e, i);
    }
    forall i, j | 0 <= i < j < |m|
      ensures m[i] != m[j]
    {
      InsertedAt(flight, p, e, i);
      InsertedAt(flight, p, e, j);
    }
  }

  // ---------------------------------------------------------------- the worker

  function First(l: seq<nat>): (r: int) { if l == [] then NONE else l[0] }

  ghost predicate Chained(q: seq<Work>, flight: seq<nat>, ioSeq: int, ioSeqEnd: int) {
    && Forward(q, flight) && Backward(q, flight) && Distinct(flight)
    && ioSeq == First(flight) && (flight != [] ==> ioSeqEnd == flight[|flight| - 1])
  }

  ghost predicate FreeChained(q: seq<Work>, free: seq<nat>, freeSeq: int, freeSeqEnd: int) {
    && free != [] && Forward(q, free) && freeSeq == free[0] && freeSeqEnd == free[|free| - 1]
  }

  /** Completed requests have been copied; free slots that were ever used are completed. */
  ghost predicate Settled(q: seq<Work>, free: seq<nat>, unused: nat) {
    && unused <= |free| && (forall i :: 0 <= i < |free| ==> free[i] < |q|)
    && (forall k :: 0 <= k < |q| && q[k].completed ==> q[k].copied)
    && (forall i :: unused <= i < |free| ==> q[free[i]].completed)
  }

  /** The worker's cursor is off the list, on a request in flight, or on a free slot that
      was used before. */
  ghost predicate CursorOk(cursor: int, free: seq<nat>, unused: nat, flight: seq<nat>) {
    || cursor == NONE
    || (exists i :: 0 <= i < |flight| && flight[i] == cursor)
    || (exists i :: unused <= i < |free| && free[i] == cursor)
  }

  /** Where the worker is in its visit of the slot under its cursor. */
  datatype Phase = Looking | Copying | Completing | Leaving

  /** Once the worker has found a request outstanding, it stays so until the worker is done
      with it, and it is copied before it is completed. */
  ghost predicate PhaseOk(q: seq<Work>, cursor: int, phase: Phase) {
    && (cursor == NONE ==> phase == Looking)
    && (phase == Copying || phase == Completing ==> 0 <= cursor < |q| && !q[cursor].completed)
    && (phase == Completing ==> q[cursor].copied)
  }

  lemma PhaseKept(q: seq<Work>, q1: seq<Work>, e: int, cursor: int, phase: Phase, free: seq<nat>, flight: seq<nat>,
                  unused: nat)
    requires PhaseOk(q, cursor, phase) && SameRequests(q, q1, e) && (e == NONE || e !in flight)
    requires Settled(q, free, unused) && CursorOk(cursor, free, unused, flight)
    ensures PhaseOk(q1, cursor, phase)
  {
  }

  /** Only the links of slots other than e may differ. */
  ghost predicate SameRequests(q: seq<Work>, q1: seq<Work>, e: int) {
    && |q1| == |q|
    && forall k :: 0 <= k < |q| && k != e ==>
      && q1[k].target == q[k].target && q1[k].completed == q[k].completed
      && q1[k].copied == q[k].copied && q1[k].internal == q[k].internal
  }

  class Worker {
    const queue: array<Work>
    var ioSeq: int
    var ioSeqEnd: int
    var freeSeq: int
    var freeSeqEnd: int
    var latest: nat
    var cursor: int
    var phase: Phase
    var now: nat            // curr_nsecs, the worker's reading of the clock
    ghost var free: seq<nat>
    ghost var flight: seq<nat>
    ghost var unused: nat

    ghost predicate Valid()
      reads this, queue
    {
      && Partition(queue.Length, free, flight)
      && Chained(queue[..], flight, ioSeq, ioSeqEnd) && FreeChained(queue[..], free, freeSeq, freeSeqEnd)
      && Settled(queue[..], free, unused) && CursorOk(cursor, free, unused, flight)
      && PhaseOk(queue[..], cursor, phase)
    }

    ghost predicate InOrder()
      reads this, queue
    {
      Sorted(queue[..], flight, latest)
    }

    /** NVMEV_IO_WORKER_INIT. */
    constructor (n: nat)
      requires n >= 1
      ensures Valid() && InOrder() && fresh(queue) && queue.Length == n && flight == [] && |free| == n
      ensures cursor == NONE
    {
      queue := new Work[n](i => Work(if i + 1 < n then i + 1 else NONE, i - 1, 0, false, false, false));
      freeSeq, freeSeqEnd, ioSeq, ioSeqEnd := 0, n - 1, NONE, NONE;
      latest, now, cursor, phase := 0, 0, NONE, Looking;
      free, flight, unused := seq(n, (i: nat) => i), [], n;
    }

    /** The search of __insert_req_sorted, from the end of the list: the request after which
        one with this target belongs. */
    method FindPlace(target: nat) returns (curr: int, ghost p: nat)
      requires Chained(queue[..], flight, ioSeq, ioSeqEnd) && flight != []
      ensures p <= |flight| && curr == Before(flight, p)
      ensures p > 0 ==> queue[flight[p - 1]].target <= latest || queue[flight[p - 1]].target <= target
      ensures forall i :: p <= i < |flight| ==>
        queue[flight[i]].target > latest && queue[flight[i]].target > target
    {
      curr := ioSeqEnd;
      p := |flight|;
      while curr != NONE
        invariant p <= |flight| && curr == Before(flight, p)
        invariant forall i :: p <= i < |flight| ==>
          queue[flight[i]].target > latest && queue[flight[i]].target > target
        decreases p
      {
        assert PrevAt(queue[..], flight, p - 1);
        if queue[curr].target <= latest {
          break;
        }
        if queue[curr].target <= target {
          break;
        }
        curr := queue[curr].prev;
        p := p - 1;
      }
    }

    /** The linking part of __insert_req_sorted. */
    method Link(e: nat, curr: int, ghost p: nat)
      requires Chained(queue[..], flight, ioSeq, ioSeqEnd) && flight != [] && e < queue.Length && e !in flight
      requires queue[e].next == NONE && queue[e].prev == NONE && p <= |flight| && curr == Before(flight, p)
      modifies queue, `ioSeq, `ioSeqEnd
      ensures Relinked(old(queue[..]), queue[..], flight, p, e)
      ensures ioSeq == if p == 0 then e else flight[0]
      ensures ioSeqEnd == if p == |flight| then e else flight[|flight| - 1]
    {
      ghost var q := queue[..];
      assert NextAt(q, flight, 0);
      if curr == NONE {
        queue[ioSeq] := queue[ioSeq].(prev := e);
        queue[e] := queue[e].(next := ioSeq);
        RelinkHead(q, queue[..], flight, e);
        ioSeq := e;
      } else {
        assert NextAt(q, flight, p - 1);
        if queue[curr].next == NONE {
          queue[e] := queue[e].(prev := curr);
          ioSeqEnd := e;
          queue[curr] := queue[curr].(next := e);
          RelinkTail(q, queue[..], flight, e);
        } else {
          assert NextAt(q, flight, p) && queue[curr].next == flight[p];
          queue[e] := queue[e].(prev := curr);
          queue[e] := queue[e].(next := queue[curr].next);
          queue[queue[e].next] := queue[queue[e].next].(prev := e);
          queue[curr] := queue[curr].(next := e);
          RelinkBetween(q, queue[..], flight, p, e);
        }
      }
    }

    /** __insert_req_sorted. */
    method InsertReq(e: nat) returns (ghost p: nat)
      requires Chained(queue[..], flight, ioSeq, ioSeqEnd) && e < queue.Length && e !in flight
      requires queue[e].next == NONE && queue[e].prev == NONE
      modifies queue, `ioSeq, `ioSeqEnd
      ensures p <= |flight| && Relinked(old(queue[..]), queue[..], flight, p, e)
      ensures Suits(old(queue[..]), flight, p, old(queue[e].target), latest)
      ensures HeadsAfter(flight, p, e, ioSeq, ioSeqEnd)
    {
      if ioSeq == NONE {
        ioSeq, ioSeqEnd, p := e, e, 0;
      } else {
        var curr;
        curr, p := FindPlace(queue[e].target);
        hide Forward, Backward, Relinked;
        Link(e, curr, p);
      }
    }

    /** __enqueue_io_req and schedule_internal_operation: take the first free slot, unless it
        is the only one left. */
    method Enqueue(target: nat, internal: bool) returns (ok: bool, ghost p: nat)
      requires Valid()
      modifies this, queue
      ensures Valid() && latest == old(latest) && cursor == old(cursor) && phase == old(phase) && now == old(now)
      ensures ok == (|old(free)| > 1)
      ensures !ok ==> free == old(free) && flight == old(flight) && queue[..] == old(queue[..])
      ensures ok ==>
        var e := old(free)[0];
        && free == old(free)[1..] && p <= |old(flight)| && flight == Inserted(old(flight), p, e) && e !in old(flight)
        && SameRequests(old(queue[..]), queue[..], e)
        && queue[e].target == target && queue[e].internal == internal
        && !queue[e].completed && queue[e].copied == internal
      ensures ok ==> Suits(old(queue[..]), old(flight), p, target, latest)
      ensures old(InOrder()) ==> InOrder()
    {
      hide Forward, Backward, Sorted, Relinked, Suits, HeadsAfter, Settled, CursorOk, Partition, Inserted,
           SameRequests;
      ghost var q0 := queue[..];
      FirstFree(q0, free, flight, freeSeq, freeSeqEnd);
      var e := freeSeq;
      p := 0;
      if !(0 <= queue[e].next < queue.Length) {
        return false, 0;
      }
      freeSeq := queue[e].next;
      queue[e] := Work(NONE, NONE, target, false, internal, internal);
      ghost var qm := queue[..];
      assert qm == q0[e := Work(NONE, NONE, target, false, internal, internal)];
      ResetKeeps(q0, flight, e, qm[e], latest);
      p := InsertReq(e);
      SuitsSame(q0, e, qm[e], flight, p, target, latest);
      ghost var free0, flight0, unused0 := free, flight, unused;
      EnqueueKeeps(q0, qm, queue[..], free, flight, unused, cursor, p, ioSeq, ioSeqEnd, freeSeqEnd, latest);
      free, flight, unused := free[1..], Inserted(flight, p, e), if unused > 0 then unused - 1 else 0;
      PhaseKept(q0, queue[..], e, cursor, phase, free0, flight0, unused0);
      ok := true;
    }

    /** The walk of __reclaim_completed_reqs over the requests it may take. */
    method CountDone() returns (last: int, curr: int, ghost k: nat)
      requires Chained(queue[..], flight, ioSeq, ioSeqEnd)
      ensures k <= |flight| && last == Before(flight, k) && curr == At(flight, k)
      ensures forall i :: 0 <= i < k ==> flight[i] < queue.Length && Reclaimable(queue[flight[i]], latest)
      ensures k < |flight| ==> flight[k] < queue.Length && !Reclaimable(queue[flight[k]], latest)
    {
      last, curr, k := NONE, ioSeq, 0;
      while curr != NONE
        invariant k <= |flight| && last == Before(flight, k) && curr == At(flight, k)
        invariant forall i :: 0 <= i < k ==> flight[i] < queue.Length && Reclaimable(queue[flight[i]], latest)
        decreases |flight| - k
      {
        assert NextAt(queue[..], flight, k);
        if !(queue[curr].completed && queue[curr].copied && queue[curr].target <= latest) {
          break;
        }
        last, curr, k := curr, queue[curr].next, k + 1;
      }
    }

    /** Hand the requests from the head of the list to `last` to the free list. */
    method Splice(last: nat, curr: int, ghost k: nat)
      requires Partition(queue.Length, free, flight) && free != [] && freeSeqEnd == free[|free| - 1]
      requires 0 < k <= |flight| && ioSeq == flight[0] && last == flight[k - 1] && curr == At(flight, k)
      modifies queue, `ioSeq, `freeSeqEnd
      ensures Spliced(old(queue[..]), queue[..], free, flight, k) && ioSeq == curr && freeSeqEnd == last
    {
      var first := ioSeq;
      ioSeq := curr;
      if curr != NONE {
        queue[curr] := queue[curr].(prev := NONE);
      }
      queue[last] := queue[last].(next := NONE);
      queue[first] := queue[first].(prev := freeSeqEnd);
      queue[freeSeqEnd] := queue[freeSeqEnd].(next := first);
      freeSeqEnd := last;
    }

    /** __reclaim_completed_reqs: the longest prefix of requests that are completed, copied and
        due moves to the end of the free list. */
    method Reclaim() returns (ghost k: nat)
      requires Valid()
      modifies this, queue
      ensures Valid() && latest == old(latest) && cursor == old(cursor) && phase == old(phase) && now == old(now)
      ensures k <= |old(flight)| && flight == old(flight)[k..] && free == old(free) + old(flight)[..k]
      ensures forall i :: 0 <= i < k ==> Reclaimable(old(queue[..])[old(flight)[i]], latest)
      ensures k < |old(flight)| ==> !Reclaimable(old(queue[..])[old(flight)[k]], latest)
      ensures SameRequests(old(queue[..]), queue[..], NONE)
      ensures old(InOrder()) ==> InOrder()
    {
      hide Forward, Backward, Sorted, Settled, CursorOk, Partition, Reclaimable, Spliced;
      ghost var q0 := queue[..];
      var last, curr;
      last, curr, k := CountDone();
      SlotsInRange(q0, free, flight);
      if last == NONE {
        assert free + flight[..0] == free && flight[0..] == flight;
        return;
      }
      Splice(last, curr, k);
      ReclaimKeeps(q0, queue[..], free, flight, unused, cursor, k, freeSeq, ioSeqEnd, latest);
      PhaseKept(q0, queue[..], NONE, cursor, phase, free, flight, unused);
      free, flight := free + flight[..k], flight[k..];
    }

    /** nvmev_io_worker starts another pass over the list. */
    method StartPass()
      requires Valid() && cursor == NONE
      modifies `cursor
      ensures Valid() && cursor == First(flight)
    {
      cursor := ioSeq;
      if flight != [] {
        assert flight[0] == cursor;
      }
    }

    /** The worker reads the clock and looks at the slot under its cursor, which is an
        outstanding request in flight or has been completed.  The dispatcher may take any
        number of steps before and after each of its own. */
    method Look(clock: nat)
      requires Valid() && cursor != NONE && phase == Looking
      modifies `latest, `now, `phase
      ensures Valid() && latest == now == clock
      ensures phase == if queue[..][cursor].completed then Leaving else Copying
      ensures phase == Copying ==> exists i :: 0 <= i < |flight| && flight[i] == cursor
      ensures old(InOrder()) && old(latest) <= clock ==> InOrder()
    {
      CursorFacts(queue[..], free, flight, unused, cursor);
      SortedForward(queue[..], flight, latest, clock);
      latest, now := clock, clock;
      phase := if queue[cursor].completed then Leaving else Copying;
    }

    /** It copies the data unless that has been done... */
    method Copy()
      requires Valid() && phase == Copying
      modifies queue, `phase
      ensures Valid() && phase == Completing
      ensures queue[..] == old(queue[..])[cursor := old(queue[..])[cursor].(copied := true)]
      ensures exists i :: 0 <= i < |flight| && flight[i] == cursor
      ensures old(InOrder()) ==> InOrder()
    {
      hide Forward, Backward, Partition, Sorted, Settled, CursorOk;
      ghost var q0 := queue[..];
      CursorFacts(q0, free, flight, unused, cursor);
      if !queue[cursor].copied {
        queue[cursor] := queue[cursor].(copied := true);
      }
      var w := queue[cursor];
      assert queue[..] == q0[cursor := w];
      VisitKeeps(q0, cursor, w, free, flight, unused, latest, latest);
      phase := Completing;
    }

    /** ...and completes the request if it is due.  It never touches a free slot. */
    method Complete() returns (done: bool)
      requires Valid() && phase == Completing
      modifies queue, `phase
      ensures Valid() && phase == Leaving && done == (old(queue[..])[cursor].target <= now)
      ensures queue[..] == old(queue[..])[cursor := old(queue[..])[cursor].(completed := done)]
      ensures queue[..][cursor].copied && exists i :: 0 <= i < |flight| && flight[i] == cursor
      ensures old(InOrder()) ==> InOrder()
    {
      hide Forward, Backward, Partition, Sorted, Settled, CursorOk;
      ghost var q0 := queue[..];
      CursorFacts(q0, free, flight, unused, cursor);
      done := false;
      if queue[cursor].target <= now {
        done := true;
        queue[cursor] := queue[cursor].(completed := true);
      }
      var w := queue[cursor];
      assert queue[..] == q0[cursor := w];
      VisitKeeps(q0, cursor, w, free, flight, unused, latest, latest);
      phase := Leaving;
    }

    /** The worker moves on; in between, the slot may have been reclaimed or reused. */
    method Step()
      requires Valid() && phase == Leaving
      modifies `cursor, `phase
      ensures Valid() && phase == Looking && cursor == queue[..][old(cursor)].next
    {
      CursorFacts(queue[..], free, flight, unused, cursor);
      CursorNext(queue[..], free, flight, unused, cursor);
      hide Forward, Backward, Partition;
      cursor, phase := queue[cursor].next, Looking;
    }
  }

  lemma CursorFacts(q: seq<Work>, free: seq<nat>, flight: seq<nat>, unused: nat, cursor: int)
    requires Partition(|q|, free, flight) && CursorOk(cursor, free, unused, flight) && Settled(q, free, unused)
    requires cursor != NONE
    ensures 0 <= cursor < |q| && (q[cursor].completed ==> q[cursor].copied)
    ensures !q[cursor].completed ==> exists i :: 0 <= i < |flight| && flight[i] == cursor
  {
  }

  lemma CursorNext(q: seq<Work>, free: seq<nat>, flight: seq<nat>, unused: nat, cursor: int)
    requires Forward(q, free) && Forward(q, flight) && CursorOk(cursor, free, unused, flight) && 0 <= cursor < |q|
    ensures CursorOk(q[cursor].next, free, unused, flight)
  {
    if i :| 0 <= i < |flight| && flight[i] == cursor {
      assert NextAt(q, flight, i);
      if i + 1 < |flight| {
        assert flight[i + 1] == q[cursor].next;
      }
    } else {
      var i :| unused <= i < |free| && free[i] == cursor;
      assert NextAt(q, free, i);
      if i + 1 < |free| {
        assert free[i + 1] == q[cursor].next;
      }
    }
  }

  lemma SortedForward(q: seq<Work>, flight: seq<nat>, latest: nat, clock: nat)
    ensures Sorted(q, flight, latest) && latest <= clock ==> Sorted(q, flight, clock)
  {
    if Sorted(q, flight, latest) && latest <= clock {
      SortedLater(q, flight, latest, clock);
    }
  }

  lemma VisitKeeps(q: seq<Work>, e: nat, w: Work, free: seq<nat>, flight: seq<nat>, unused: nat, latest: nat,
                   clock: nat)
    requires e < |q| && w == q[e].(copied := w.copied, completed := w.completed)
    requires Forward(q, free) && Forward(q, flight) && Backward(q, flight)
    requires Settled(q, free, unused) && (w.completed ==> w.copied) && (q[e].completed ==> w.completed)
    ensures
      var q1 := q[e := w];
      && Settled(q1, free, unused)
      && Forward(q1, free) && Forward(q1, flight) && Backward(q1, flight)
      && (Sorted(q, flight, latest) && latest <= clock ==> Sorted(q1, flight, clock))
  {
    var q1 := q[e := w];
    forall i: nat | i < |free|
      ensures NextAt(q1, free, i)
    {
      assert NextAt(q, free, i);
    }
    forall i: nat | i < |flight|
      ensures NextAt(q1, flight, i) && PrevAt(q1, flight, i)
    {
      assert NextAt(q, flight, i) && PrevAt(q, flight, i);
    }
  }

  ghost predicate Reclaimable(w: Work, latest: nat) { w.completed && w.copied && w.target <= latest }

  lemma SlotsInRange(q: seq<Work>, free: seq<nat>, flight: seq<nat>)
    requires Partition(|q|, free, flight)
    ensures (forall i :: 0 <= i < |flight| ==> flight[i] < |q|) && (forall i :: 0 <= i < |free| ==> free[i] < |q|)
    ensures forall i, j :: 0 <= i < |free| && 0 <= j < |flight| ==> free[i] != flight[j]
    ensures forall i, j :: 0 <= i < j < |flight| ==> flight[i] != flight[j]
  {
  }

  /** q1 is q with the first k requests moved behind the free list. */
  ghost predicate Spliced(q: seq<Work>, q1: seq<Work>, free: seq<nat>, flight: seq<nat>, k: nat)
    requires free != [] && 0 < k <= |flight|
  {
    && |q1| == |q|
    && forall j :: 0 <= j < |q| ==>
      q1[j] == q[j].(next := if j == flight[k - 1] then NONE
                             else if j == free[|free| - 1] then flight[0] else q[j].next,
                     prev := if j == At(flight, k) then NONE
                             else if j == flight[0] then free[|free| - 1] else q[j].prev)
  }

  lemma SpliceFree(q: seq<Work>, q1: seq<Work>, free: seq<nat>, flight: seq<nat>, k: nat)
    requires free != [] && 0 < k <= |flight| && Partition(|q|, free, flight) && Spliced(q, q1, free, flight, k)
    requires Forward(q, free) && Forward(q, flight)
    ensures Forward(q1, free + flight[..k])
  {
    var m := free + flight[..k];
    forall i: nat | i < |m|
      ensures NextAt(q1, m, i) && m[i] < |q1|
    {
      if i < |free| {
        assert NextAt(q, free, i) && m[i] == free[i];
        assert i + 1 < |free| ==> free[i] != free[|free| - 1];
        assert free[i] != flight[k - 1];
      } else {
        var j := i - |free|;
        assert NextAt(q, flight, j) && m[i] == flight[j];
        assert j + 1 < k ==> flight[j] != flight[k - 1];
        assert flight[j] != free[|free| - 1];
      }
    }
  }

  lemma SpliceFlight(q: seq<Work>, q1: seq<Work>, free: seq<nat>, flight: seq<nat>, k: nat)
    requires free != [] && 0 < k <= |flight| && Partition(|q|, free, flight) && Spliced(q, q1, free, flight, k)
    requires Forward(q, flight) && Backward(q, flight)
    ensures Forward(q1, flight[k..]) && Backward(q1, flight[k..])
  {
    var m := flight[k..];
    forall i: nat | i < |m|
      ensures NextAt(q1, m, i) && PrevAt(q1, m, i) && m[i] < |q1|
    {
      var j := i + k;
      assert NextAt(q, flight, j) && PrevAt(q, flight, j) && m[i] == flight[j];
      assert flight[j] != flight[k - 1] && flight[j] != flight[0] && flight[j] != free[|free| - 1];
      assert i > 0 ==> flight[j] != flight[k];
    }
  }

  lemma SplicePartition(n: nat, free: seq<nat>, flight: seq<nat>, k: nat)
    requires Partition(n, free, flight) && k <= |flight|
    ensures Partition(n, free + flight[..k], flight[k..])
  {
  }

  lemma SpliceCursor(free: seq<nat>, flight: seq<nat>, unused: nat, cursor: int, k: nat)
    requires unused <= |free| && CursorOk(cursor, free, unused, flight) && k <= |flight|
    ensures CursorOk(cursor, free + flight[..k], unused, flight[k..])
  {
    var m := free + flight[..k];
    if cursor != NONE {
      if i :| 0 <= i < |flight| && flight[i] == cursor {
        if i < k {
          assert m[|free| + i] == cursor;
        } else {
          assert flight[k..][i - k] == cursor;
        }
      } else {
        var i :| unused <= i < |free| && free[i] == cursor;
        assert m[i] == cursor;
      }
    }
  }

  lemma SpliceSettled(q: seq<Work>, q1: seq<Work>, free: seq<nat>, flight: seq<nat>, unused: nat, k: nat, latest: nat)
    requires free != [] && 0 < k <= |flight| && Spliced(q, q1, free, flight, k) && Settled(q, free, unused)
    requires forall i :: 0 <= i < k ==> flight[i] < |q| && Reclaimable(q[flight[i]], latest)
    ensures Settled(q1, free + flight[..k], unused) && SameRequests(q, q1, NONE)
  {
    var m := free + flight[..k];
    forall i | 0 <= i < |m|
      ensures m[i] < |q1| && (i >= unused ==> q1[m[i]].completed)
    {
      if i >= |free| {
        assert m[i] == flight[i - |free|];
      }
    }
  }

  lemma SpliceSorted(q: seq<Work>, q1: seq<Work>, flight: seq<nat>, k: nat, latest: nat)
    requires Sorted(q, flight, latest) && SameRequests(q, q1, NONE) && k <= |flight|
    ensures Sorted(q1, flight[k..], latest)
  {
  }

  lemma ReclaimKeeps(q: seq<Work>, q1: seq<Work>, free: seq<nat>, flight: seq<nat>, unused: nat, cursor: int, k: nat,
                     freeSeq: int, ioSeqEnd: int, latest: nat)
    requires 0 < k <= |flight| && Partition(|q|, free, flight) && Settled(q, free, unused)
    requires CursorOk(cursor, free, unused, flight)
    requires free != [] && Forward(q, free) && freeSeq == free[0]
    requires Forward(q, flight) && Backward(q, flight) && ioSeqEnd == flight[|flight| - 1]
    requires forall i :: 0 <= i < k ==> flight[i] < |q| && Reclaimable(q[flight[i]], latest)
    requires Spliced(q, q1, free, flight, k)
    ensures Partition(|q1|, free + flight[..k], flight[k..])
    ensures Chained(q1, flight[k..], At(flight, k), ioSeqEnd)
    ensures FreeChained(q1, free + flight[..k], freeSeq, flight[k - 1])
    ensures Settled(q1, free + flight[..k], unused) && CursorOk(cursor, free + flight[..k], unused, flight[k..])
    ensures SameRequests(q, q1, NONE)
    ensures Sorted(q, flight, latest) ==> Sorted(q1, flight[k..], latest)
  {
    SpliceFree(q, q1, free, flight, k);
    SpliceFlight(q, q1, free, flight, k);
    SplicePartition(|q|, free, flight, k);
    SpliceCursor(free, flight, unused, cursor, k);
    SpliceSettled(q, q1, free, flight, unused, k, latest);
    hide Forward, Backward, Spliced, Settled, CursorOk, SameRequests;
    if Sorted(q, flight, latest) {
      SpliceSorted(q, q1, flight, k, latest);
    }
    assert Distinct(flight[k..]);
  }

  lemma FirstFree(q: seq<Work>, free: seq<nat>, flight: seq<nat>, freeSeq: int, freeSeqEnd: int)
    requires FreeChained(q, free, freeSeq, freeSeqEnd) && Partition(|q|, free, flight)
    ensures free[0] < |q| && q[free[0]].next == After(free, 0) && free[0] !in flight
    ensures |free| > 1 ==> free[1] < |q|
  {
    assert NextAt(q, free, 0);
  }

  lemma ResetKeeps(q: seq<Work>, l: seq<nat>, e: nat, w: Work, latest: nat)
    requires Forward(q, l) && Backward(q, l) && e < |q| && e !in l
    ensures Forward(q[e := w], l) && Backward(q[e := w], l)
    ensures Sorted(q, l, latest) ==> Sorted(q[e := w], l, latest)
  {
    var q1 := q[e := w];
    forall i: nat | i < |l|
      ensures NextAt(q1, l, i) && PrevAt(q1, l, i)
    {
      assert NextAt(q, l, i) && PrevAt(q, l, i);
    }
  }

  lemma ForwardRest(q: seq<Work>, l: seq<nat>)
    requires Forward(q, l) && l != []
    ensures Forward(q, l[1..])
  {
    forall i: nat | i < |l[1..]|
      ensures NextAt(q, l[1..], i)
    {
      assert NextAt(q, l, i + 1);
    }
  }

  /** What Enqueue leaves behind is a valid queue again. */
  lemma EnqueueKeeps(q0: seq<Work>, qm: seq<Work>, q1: seq<Work>, free: seq<nat>, flight: seq<nat>,
                     unused: nat, cursor: int,
                     p: nat, ioSeq: int, ioSeqEnd: int, freeSeqEnd: int, latest: nat)
    requires |free| > 1 && Partition(|q0|, free, flight) && Settled(q0, free, unused)
    requires CursorOk(cursor, free, unused, flight)
    requires Forward(q0, free) && freeSeqEnd == free[|free| - 1]
    requires Forward(qm, flight) && Backward(qm, flight)
    requires |qm| == |q0| && qm == q0[free[0] := qm[free[0]]] && !qm[free[0]].completed
    requires p <= |flight| && Relinked(qm, q1, flight, p, free[0])
    requires Suits(qm, flight, p, qm[free[0]].target, latest) && HeadsAfter(flight, p, free[0], ioSeq, ioSeqEnd)
    ensures Partition(|q1|, free[1..], Inserted(flight, p, free[0]))
    ensures Chained(q1, Inserted(flight, p, free[0]), ioSeq, ioSeqEnd)
    ensures FreeChained(q1, free[1..], free[1], freeSeqEnd)
    ensures Settled(q1, free[1..], if unused > 0 then unused - 1 else 0)
    ensures CursorOk(cursor, free[1..], if unused > 0 then unused - 1 else 0, Inserted(flight, p, free[0]))
    ensures SameRequests(q0, q1, free[0])
    ensures q1[free[0]] == qm[free[0]].(next := q1[free[0]].next, prev := q1[free[0]].prev)
    ensures Sorted(qm, flight, latest) ==> Sorted(q1, Inserted(flight, p, free[0]), latest)
  {
    var e, rest := free[0], free[1..];
    TakePartition(|q0|, free, flight, p);
    InsertKeeps(qm, q1, flight, p, e, ioSeq, ioSeqEnd, latest);
    ForwardRest(q0, free);
    assert e !in rest && Apart(rest, flight);
    ResetForward(q0, rest, e, qm[e]);
    InsertOther(qm, q1, flight, p, e, rest);
    SettledAfter(q0, qm, q1, free, flight, unused, p);
    CursorAfter(free, flight, unused, cursor, p);
  }

  lemma ResetForward(q: seq<Work>, l: seq<nat>, e: nat, w: Work)
    requires Forward(q, l) && e < |q| && e !in l
    ensures Forward(q[e := w], l)
  {
    var q1 := q[e := w];
    forall i: nat | i < |l|
      ensures NextAt(q1, l, i)
    {
      assert NextAt(q, l, i);
    }
  }

  lemma SettledAfter(q0: seq<Work>, qm: seq<Work>, q1: seq<Work>, free: seq<nat>, flight: seq<nat>, unused: nat, p: nat)
    requires |free| > 1 && Partition(|q0|, free, flight) && Settled(q0, free, unused)
    requires |qm| == |q0| && qm == q0[free[0] := qm[free[0]]] && !qm[free[0]].completed
    requires p <= |flight| && Relinked(qm, q1, flight, p, free[0])
    ensures Settled(q1, free[1..], if unused > 0 then unused - 1 else 0) && SameRequests(q0, q1, free[0])
  {
    assert forall i :: 1 <= i < |free| ==> free[i] != free[0];
  }

  lemma CursorAfter(free: seq<nat>, flight: seq<nat>, unused: nat, cursor: int, p: nat)
    requires free != [] && unused <= |free| && CursorOk(cursor, free, unused, flight) && p <= |flight|
    ensures CursorOk(cursor, free[1..], if unused > 0 then unused - 1 else 0, Inserted(flight, p, free[0]))
  {
    var m := Inserted(flight, p, free[0]);
    if cursor != NONE {
      if i :| 0 <= i < |flight| && flight[i] == cursor {
        var k := if i < p then i else i + 1;
        InsertedAt(flight, p, free[0], k);
        assert m[k] == cursor;
      } else {
        var i :| unused <= i < |free| && free[i] == cursor;
        if i == 0 {
          InsertedAt(flight, p, free[0], p);
          assert m[p] == cursor;
        } else {
          assert free[1..][i - 1] == cursor;
        }
      }
    }
  }

  /** A request with target t belongs at position p: before those that are due later, none of
      which is due yet, and so behind every other that is due at the same time. */
  ghost predicate Suits(q: seq<Work>, l: seq<nat>, p: nat, t: nat, latest: nat) {
    && p <= |l| && (forall i :: 0 <= i < |l| ==> l[i] < |q|)
    && (p > 0 ==> q[l[p - 1]].target <= latest || q[l[p - 1]].target <= t)
    && (forall i :: p <= i < |l| ==> q[l[i]].target > latest && q[l[i]].target > t)
  }

  lemma SuitsSame(q: seq<Work>, e: nat, w: Work, l: seq<nat>, p: nat, t: nat, latest: nat)
    requires e < |q| && e !in l && Suits(q[e := w], l, p, t, latest)
    ensures Suits(q, l, p, t, latest)
  {
    forall i | 0 <= i < |l|
      ensures l[i] < |q| && q[l[i]] == q[e := w][l[i]]
    {
      assert l[i] in l;
    }
  }

  ghost predicate HeadsAfter(l: seq<nat>, p: nat, e: nat, ioSeq: int, ioSeqEnd: int) {
    && ioSeq == (if p == 0 || l == [] then e else l[0])
    && ioSeqEnd == (if p == |l| || l == [] then e else l[|l| - 1])
  }

  /** An insertion keeps the list chained and ordered. */
  lemma InsertKeeps(q: seq<Work>, q1: seq<Work>, l: seq<nat>, p: nat, e: nat, ioSeq: int, ioSeqEnd: int, latest: nat)
    requires Forward(q, l) && Backward(q, l) && Distinct(l) && e !in l && p <= |l| && Relinked(q, q1, l, p, e)
    requires Suits(q, l, p, q1[e].target, latest) && HeadsAfter(l, p, e, ioSeq, ioSeqEnd)
    ensures Chained(q1, Inserted(l, p, e), ioSeq, ioSeqEnd)
    ensures Sorted(q, l, latest) ==> Sorted(q1, Inserted(l, p, e), latest)
  {
    InsertLinks(q, q1, l, p, e);
    InsertChained(l, p, e);
    hide Forward, Backward;
    if Sorted(q, l, latest) {
      InsertSorted(q, q1, l, p, e, latest);
    }
  }

  lemma InsertChained(l: seq<nat>, p: nat, e: nat)
    requires Distinct(l) && e !in l && p <= |l|
    ensures Distinct(Inserted(l, p, e)) && |Inserted(l, p, e)| == |l| + 1
    ensures Inserted(l, p, e)[0] == (if p == 0 then e else l[0])
    ensures Inserted(l, p, e)[|l|] == (if p == |l| then e else l[|l| - 1])
  {
    forall i, j | 0 <= i < j <= |l|
      ensures Inserted(l, p, e)[i] != Inserted(l, p, e)[j]
    {
      InsertedAt(l, p, e, i);
      InsertedAt(l, p, e, j);
    }
  }
}

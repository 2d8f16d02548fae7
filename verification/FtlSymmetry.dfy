/** Renaming the reclaim unit handles of a trace renames lines and changes nothing else:
    every counter of the FDP statistics log evolves identically. */
module FtlSymmetry {
  import opened Common
  import opened FtlModel
  import P = Pqueue

  /** sigma renames frontiers (the GC frontier n stays put), pi renames lines. */
  datatype Renaming = Renaming(sigma: seq<nat>, pi: seq<nat>)

  ghost predicate Injection(f: seq<nat>, bound: nat) {
    && (forall i :: 0 <= i < |f| ==> f[i] < bound)
    && (forall i, j :: 0 <= i < |f| && 0 <= j < |f| && f[i] == f[j] ==> i == j)
  }

  ghost predicate RenamingOk(c: Config, r: Renaming) {
    && |r.sigma| == c.n + 1 && r.sigma[c.n] == c.n && Injection(r.sigma, c.n + 1)
    && |r.pi| == c.lines && Injection(r.pi, c.lines)
  }

  // ---------------------------------------------------------------- lists and heaps

  ghost predicate SimList(pi: seq<nat>, a: seq<nat>, b: seq<nat>) {
    |a| == |b| && forall i :: 0 <= i < |a| ==> a[i] < |pi| && b[i] == pi[a[i]]
  }

  lemma {:induction false} SimRemove(pi: seq<nat>, bound: nat, a: seq<nat>, b: seq<nat>, x: nat)
    requires Injection(pi, bound) && SimList(pi, a, b) && x < |pi|
    ensures SimList(pi, Remove(a, x), Remove(b, pi[x]))
    decreases |a|
  {
    if a == [] {
    } else if a[0] == x {
      assert Remove(a, x) == a[1..] && Remove(b, pi[x]) == b[1..];
    } else {
      SimRemove(pi, bound, a[1..], b[1..], x);
    }
  }

  ghost predicate SimHeap(pi: seq<nat>, q: P.Heap, q1: P.Heap) {
    && P.Shaped(q) && P.Shaped(q1) && |q1.d| == |q.d| && |q.pos| == |q1.pos| == |pi|
    && (forall i :: 1 <= i < |q.d| ==> q1.d[i] == pi[q.d[i]])
    && (forall l :: 0 <= l < |pi| ==> pi[l] < |pi| && q1.pri[pi[l]] == q.pri[l] && q1.pos[pi[l]] == q.pos[l])
  }

  lemma SimPut(pi: seq<nat>, q: P.Heap, q1: P.Heap, i: nat, x: nat)
    requires Injection(pi, |pi|) && SimHeap(pi, q, q1) && 1 <= i < |q.d| && x < |pi|
    ensures SimHeap(pi, P.Put(q, i, x), P.Put(q1, i, pi[x]))
  {
  }

  lemma {:induction false} SimBubble(pi: seq<nat>, q: P.Heap, q1: P.Heap, i: nat, x: nat)
    requires Injection(pi, |pi|) && SimHeap(pi, q, q1) && 1 <= i < |q.d| && x < |pi|
    ensures SimHeap(pi, P.BubbleUp(q, i, x), P.BubbleUp(q1, i, pi[x]))
    decreases i
  {
    SimPut(pi, q, q1, i, x);
    if i > 1 {
      var y := q.d[i / 2];
      assert q1.d[i / 2] == pi[y];
      SimPut(pi, q, q1, i, y);
      if q.pri[y] > q.pri[x] {
        SimBubble(pi, P.Put(q, i, y), P.Put(q1, i, pi[y]), i / 2, x);
      }
    }
  }

  lemma SimMaxChild(pi: seq<nat>, q: P.Heap, q1: P.Heap, i: nat)
    requires SimHeap(pi, q, q1) && 1 <= i < |q.d|
    ensures P.MaxChild(q, i) == P.MaxChild(q1, i)
  {
  }

  lemma {:induction false} SimPercolate(pi: seq<nat>, q: P.Heap, q1: P.Heap, i: nat, x: nat)
    requires Injection(pi, |pi|) && SimHeap(pi, q, q1) && 1 <= i < |q.d| && x < |pi|
    ensures SimHeap(pi, P.PercolateDown(q, i, x), P.PercolateDown(q1, i, pi[x]))
    decreases |q.d| - i
  {
    hide P.MaxChild;
    SimPut(pi, q, q1, i, x);
    SimMaxChild(pi, q, q1, i);
    var c := P.MaxChild(q, i);
    if c != 0 {
      var y := q.d[c];
      assert q1.d[c] == pi[y];
      SimPut(pi, q, q1, i, y);
      if q.pri[x] > q.pri[y] {
        SimPercolate(pi, P.Put(q, i, y), P.Put(q1, i, pi[y]), c, x);
      }
    }
  }

  lemma SimInsert(pi: seq<nat>, q: P.Heap, q1: P.Heap, x: nat)
    requires Injection(pi, |pi|) && SimHeap(pi, q, q1) && x < |pi|
    ensures SimHeap(pi, P.Insert(q, x), P.Insert(q1, pi[x]))
  {
    SimBubble(pi, q.(d := q.d + [x]), q1.(d := q1.d + [pi[x]]), |q.d|, x);
  }

  lemma SimSetPri(pi: seq<nat>, q: P.Heap, q1: P.Heap, x: nat, v: int)
    requires Injection(pi, |pi|) && SimHeap(pi, q, q1) && x < |pi|
    ensures SimHeap(pi, q.(pri := q.pri[x := v]), q1.(pri := q1.pri[pi[x] := v]))
  {
  }

  lemma SimChange(pi: seq<nat>, q: P.Heap, q1: P.Heap, x: nat, v: int)
    requires Injection(pi, |pi|) && SimHeap(pi, q, q1) && x < |pi| && 1 <= q.pos[x] < |q.d|
    ensures SimHeap(pi, P.ChangePriority(q, x, v), P.ChangePriority(q1, pi[x], v))
  {
    SimSetPri(pi, q, q1, x, v);
    var p, p1 := q.(pri := q.pri[x := v]), q1.(pri := q1.pri[pi[x] := v]);
    var i := q.pos[x];
    if q.pri[x] > v {
      SimBubble(pi, p, p1, i, q.d[i]);
    } else {
      SimPercolate(pi, p, p1, i, q.d[i]);
    }
  }

  lemma SimPop(pi: seq<nat>, q: P.Heap, q1: P.Heap)
    requires Injection(pi, |pi|) && SimHeap(pi, q, q1) && 1 < |q.d|
    ensures SimHeap(pi, P.Pop(q), P.Pop(q1)) && q1.d[1] == pi[q.d[1]]
  {
    var n := |q.d| - 1;
    if n > 1 {
      SimPercolate(pi, q.(d := q.d[..n]), q1.(d := q1.d[..n]), 1, q.d[n]);
    }
  }

  lemma SimSetPos(pi: seq<nat>, q: P.Heap, q1: P.Heap, x: nat, v: nat)
    requires Injection(pi, |pi|) && SimHeap(pi, q, q1) && x < |pi|
    ensures SimHeap(pi, q.(pos := q.pos[x := v]), q1.(pos := q1.pos[pi[x] := v]))
  {
  }

  // ---------------------------------------------------------------- states

  ghost function RenPpa(r: Renaming, a: Ppa): Ppa
    requires a.line < |r.pi|
  {
    Ppa(r.pi[a.line], a.off)
  }

  ghost function RenTag(c: Config, r: Renaming, t: int): int
    requires |r.sigma| == c.n + 1
  {
    if 0 <= t < c.n then r.sigma[t] else t
  }

  ghost function RenLine(c: Config, r: Renaming, line: Line): Line
    requires |r.sigma| == c.n + 1
  {
    line.(ruh := RenTag(c, r, line.ruh))
  }

  ghost predicate SimLines(c: Config, r: Renaming, a: seq<Line>, b: seq<Line>) {
    && RenamingOk(c, r) && |a| == |b| == c.lines
    && forall l :: 0 <= l < c.lines ==> b[r.pi[l]] == RenLine(c, r, a[l]) && -1 <= a[l].ruh < c.n
  }

  ghost predicate SimEntry(c: Config, r: Renaming, o: Option<Ppa>, o1: Option<Ppa>)
    requires RenamingOk(c, r)
  {
    if o.Some? then InRange(c, o.value) && o1 == Some(RenPpa(r, o.value)) else o1.None?
  }

  ghost predicate SimMap(c: Config, r: Renaming, a: seq<Option<Ppa>>, b: seq<Option<Ppa>>)
    requires RenamingOk(c, r)
  {
    |a| == |b| && forall m :: 0 <= m < |a| ==> SimEntry(c, r, a[m], b[m])
  }

  ghost predicate SimWp(c: Config, r: Renaming, a: seq<Ppa>, b: seq<Ppa>)
    requires RenamingOk(c, r)
  {
    |a| == |b| == c.n + 1
    && forall i :: 0 <= i <= c.n ==> a[i].line < c.lines && b[r.sigma[i]] == RenPpa(r, a[i])
  }

  /** The counters of the statistics log. */
  ghost predicate SameStats(a: Context, b: Context) {
    a.hbmw == b.hbmw && a.mbmw == b.mbmw && a.mbe == b.mbe
  }

  /** s1 is s with frontiers and lines renamed. */
  ghost predicate Sim(c: Config, r: Renaming, s: Ftl, s1: Ftl) {
    && RenamingOk(c, r) && Shape(c, s) && Shape(c, s1)
    && SimLines(c, r, s.lines, s1.lines) && SimMap(c, r, s.maptbl, s1.maptbl) && SimWp(c, r, s.wp, s1.wp)
    && SimList(r.pi, s.free, s1.free) && SimList(r.pi, s.full, s1.full) && SimHeap(r.pi, s.pq, s1.pq)
    && s1.freeCnt == s.freeCnt && s1.fullCnt == s.fullCnt && s1.victimCnt == s.victimCnt
    && s1.credits == s.credits && s1.refill == s.refill && SameStats(s.ctx, s1.ctx)
  }

  ghost predicate SimOutcome(c: Config, r: Renaming, o: Outcome<Ftl>, o1: Outcome<Ftl>) {
    && (o.Ok? <==> o1.Ok?) && (o.BugOn? <==> o1.BugOn?)
    && (o.Ok? ==> Sim(c, r, o.value, o1.value))
  }

  // ---------------------------------------------------------------- operations

  lemma SimSetLine(c: Config, r: Renaming, a: seq<Line>, b: seq<Line>, l: nat, x: Line)
    requires SimLines(c, r, a, b) && l < c.lines && -1 <= x.ruh < c.n
    ensures SimLines(c, r, a[l := x], b[r.pi[l] := RenLine(c, r, x)])
  {
  }

  /** The heap after mark_page_invalid on line l. */
  ghost function Demoted(q: P.Heap, l: nat, full: bool): P.Heap
    requires P.Shaped(q) && l < |q.pos| && q.pos[l] < |q.d|
  {
    var q1 := if q.pos[l] != 0 then P.ChangePriority(q, l, q.pri[l] - 1) else q.(pri := q.pri[l := q.pri[l] - 1]);
    if full then P.Insert(q1, l) else q1
  }

  lemma SimDemoted(pi: seq<nat>, q: P.Heap, q1: P.Heap, l: nat, full: bool)
    requires Injection(pi, |pi|) && SimHeap(pi, q, q1) && l < |pi| && q.pos[l] < |q.d|
    ensures q1.pos[pi[l]] < |q1.d| && SimHeap(pi, Demoted(q, l, full), Demoted(q1, pi[l], full))
  {
    hide P.Insert, P.ChangePriority;
    var v := q.pri[l] - 1;
    var r, r1 := q.(pri := q.pri[l := v]), q1.(pri := q1.pri[pi[l] := v]);
    SimSetPri(pi, q, q1, l, v);
    if q.pos[l] != 0 {
      SimChange(pi, q, q1, l, v);
      r, r1 := P.ChangePriority(q, l, v), P.ChangePriority(q1, pi[l], v);
    }
    if full {
      SimInsert(pi, r, r1, l);
    }
  }

  /** mark_page_invalid in terms of its parts. */
  lemma InvalidateParts(c: Config, s: Ftl, a: Ppa)
    requires Shape(c, s) && InRange(c, a) && MarkInvalid(c, s, a).Ok?
    ensures
      var l, v := a.line, MarkInvalid(c, s, a).value;
      var full := s.pq.pri[l] == c.p;
      && s.pq.pos[l] < |s.pq.d| && v.pq == Demoted(s.pq, l, full)
      && v == s.(lines := s.lines[l := v.lines[l]], pq := v.pq,
                 full := if full then Remove(s.full, l) else s.full,
                 fullCnt := if full then s.fullCnt - 1 else s.fullCnt,
                 victimCnt := if full then s.victimCnt + 1 else s.victimCnt)
      && v.lines[l].ruh == s.lines[l].ruh
  {
    hide P.Insert, P.ChangePriority, Remove;
  }

  /** The checks and the new line are the same up to the renaming. */
  lemma InvalidateAlike(c: Config, r: Renaming, s: Ftl, s1: Ftl, a: Ppa)
    requires Sim(c, r, s, s1) && InRange(c, a)
    ensures
      var o, o1 := MarkInvalid(c, s, a), MarkInvalid(c, s1, RenPpa(r, a));
      && (o.Ok? <==> o1.Ok?) && (o.BugOn? <==> o1.BugOn?)
      && (o.Ok? ==> o1.value.lines[r.pi[a.line]] == RenLine(c, r, o.value.lines[a.line]))
  {
    hide P.Insert, P.ChangePriority, Remove, SimWp, SimMap, SimList;
    assert s1.lines[r.pi[a.line]] == RenLine(c, r, s.lines[a.line]);
  }

  lemma SimInvalidate(c: Config, r: Renaming, s: Ftl, s1: Ftl, a: Ppa)
    requires Sim(c, r, s, s1) && InRange(c, a)
    ensures SimOutcome(c, r, MarkInvalid(c, s, a), MarkInvalid(c, s1, RenPpa(r, a)))
  {
    hide MarkInvalid, Demoted, Remove, SimWp, SimMap, SimList;
    var l := a.line;
    var o := MarkInvalid(c, s, a);
    InvalidateAlike(c, r, s, s1, a);
    if o.Ok? {
      InvalidateParts(c, s, a);
      InvalidateParts(c, s1, RenPpa(r, a));
      SimSetLine(c, r, s.lines, s1.lines, l, o.value.lines[l]);
      SimDemoted(r.pi, s.pq, s1.pq, l, s.pq.pri[l] == c.p);
      SimRemove(r.pi, c.lines, s.full, s1.full, l);
    }
  }

  lemma SimProgram(c: Config, r: Renaming, s: Ftl, s1: Ftl, a: Ppa, lpn: nat, data: int)
    requires Sim(c, r, s, s1) && InRange(c, a)
    ensures SimOutcome(c, r, Program(c, s, a, lpn, data), Program(c, s1, RenPpa(r, a), lpn, data))
  {
    hide SimWp, SimList;
    var l := a.line;
    var o := Program(c, s, a, lpn, data);
    assert s1.lines[r.pi[l]] == RenLine(c, r, s.lines[l]);
    if o.Ok? {
      SimSetLine(c, r, s.lines, s1.lines, l, o.value.lines[l]);
      SimSetPri(r.pi, s.pq, s1.pq, l, s.pq.pri[l] + 1);
    }
  }

  lemma SimClose(c: Config, r: Renaming, s: Ftl, s1: Ftl, l: nat)
    requires Sim(c, r, s, s1) && l < c.lines
    ensures SimOutcome(c, r, CloseLine(c, s, l), CloseLine(c, s1, r.pi[l]))
  {
    hide P.Insert;
    assert s1.lines[r.pi[l]] == RenLine(c, r, s.lines[l]);
    SimInsert(r.pi, s.pq, s1.pq, l);
  }

  lemma SimSetWp(c: Config, r: Renaming, a: seq<Ppa>, b: seq<Ppa>, i: nat, w: Ppa)
    requires RenamingOk(c, r) && SimWp(c, r, a, b) && i <= c.n && w.line < c.lines
    ensures SimWp(c, r, a[i := w], b[r.sigma[i] := RenPpa(r, w)])
  {
  }

  lemma TagRenamed(c: Config, r: Renaming, i: nat)
    requires RenamingOk(c, r) && i <= c.n
    ensures Tag(c, r.sigma[i]) == RenTag(c, r, Tag(c, i)) && -1 <= Tag(c, i) < c.n
  {
  }

  lemma SimOpen(c: Config, r: Renaming, s: Ftl, s1: Ftl, i: nat)
    requires Sim(c, r, s, s1) && i <= c.n
    ensures SimOutcome(c, r, OpenLine(c, s, i), OpenLine(c, s1, r.sigma[i]))
  {
    if s.free != [] {
      var l := s.free[0];
      TagRenamed(c, r, i);
      assert s1.lines[r.pi[l]] == RenLine(c, r, s.lines[l]);
      SimSetLine(c, r, s.lines, s1.lines, l, s.lines[l].(ruh := Tag(c, i)));
      SimSetWp(c, r, s.wp, s1.wp, i, Ppa(l, 0));
    }
  }

  lemma SimAdvance(c: Config, r: Renaming, s: Ftl, s1: Ftl, i: nat)
    requires Sim(c, r, s, s1) && i <= c.n
    ensures SimOutcome(c, r, Advance(c, s, i), Advance(c, s1, r.sigma[i]))
  {
    hide CloseLine, OpenLine, SimLines, SimMap, SimList, SimHeap;
    var w := s.wp[i];
    assert s1.wp[r.sigma[i]] == RenPpa(r, w);
    if w.off + 1 < c.p {
      SimSetWp(c, r, s.wp, s1.wp, i, Ppa(w.line, w.off + 1));
    } else {
      SimClose(c, r, s, s1, w.line);
      var o, o1 := CloseLine(c, s, w.line), CloseLine(c, s1, r.pi[w.line]);
      if o.Ok? {
        SimOpen(c, r, o.value, o1.value, i);
      }
    }
  }

  lemma SimAppend(c: Config, r: Renaming, s: Ftl, s1: Ftl, i: nat, lpn: nat, data: int)
    requires Sim(c, r, s, s1) && i <= c.n
    ensures SimOutcome(c, r, Append(c, s, i, lpn, data), Append(c, s1, r.sigma[i], lpn, data))
  {
    hide Program, Advance;
    SimProgram(c, r, s, s1, s.wp[i], lpn, data);
    var o, o1 := Program(c, s, s.wp[i], lpn, data), Program(c, s1, s1.wp[r.sigma[i]], lpn, data);
    if o.Ok? {
      SimAdvance(c, r, o.value, o1.value, i);
    }
  }

  lemma SimGcWrite(c: Config, r: Renaming, s: Ftl, s1: Ftl, a: Ppa)
    requires Sim(c, r, s, s1) && InRange(c, a)
    ensures SimOutcome(c, r, GcWritePage(c, s, a), GcWritePage(c, s1, RenPpa(r, a)))
  {
    hide Append;
    assert s1.lines[r.pi[a.line]] == RenLine(c, r, s.lines[a.line]);
    var pg := PageAt(c, s.lines, a);
    if pg.lpn.Some? {
      SimAppend(c, r, s, s1, c.n, pg.lpn.value, pg.data);
    }
  }

  lemma SimStep(c: Config, r: Renaming, s: Ftl, s1: Ftl, v: nat, st: SweepStep)
    requires Sim(c, r, s, s1) && v < c.lines
    ensures SimOutcome(c, r, Step(c, s, v, st), Step(c, s1, r.pi[v], st))
  {
    hide GcWritePage;
    assert s1.lines[r.pi[v]] == RenLine(c, r, s.lines[v]);
    match st
    case Clean(k) =>
      if k < c.p {
        SimGcWrite(c, r, s, s1, Ppa(v, k));
      }
    case Erase(b) =>
      SimSetLine(c, r, s.lines, s1.lines, v, ErasedLine(c, s.lines[v], {b}));
  }

  lemma {:induction false} SimSweep(c: Config, r: Renaming, s: Ftl, s1: Ftl, v: nat, steps: seq<SweepStep>)
    requires Sim(c, r, s, s1) && v < c.lines
    ensures SimOutcome(c, r, Sweep(c, s, v, steps), Sweep(c, s1, r.pi[v], steps))
    decreases |steps|
  {
    hide Step;
    if steps != [] {
      SimStep(c, r, s, s1, v, steps[0]);
      if Step(c, s, v, steps[0]).Ok? {
        SimSweep(c, r, Step(c, s, v, steps[0]).value, Step(c, s1, r.pi[v], steps[0]).value, v, steps[1..]);
      }
    }
  }

  lemma SimStart(c: Config, r: Renaming, s: Ftl, s1: Ftl)
    requires Sim(c, r, s, s1) && 1 < |s.pq.d|
    ensures
      var v := s.pq.d[1];
      && s1.pq.d[1] == r.pi[v]
      && Sim(c, r, StartGc(c, TakeVictim(c, s), v), StartGc(c, TakeVictim(c, s1), r.pi[v]))
  {
    hide P.Pop;
    var v := s.pq.d[1];
    SimPop(r.pi, s.pq, s1.pq);
    SimSetPos(r.pi, P.Pop(s.pq), P.Pop(s1.pq), v, 0);
    assert s1.lines[r.pi[v]] == RenLine(c, r, s.lines[v]);
  }

  lemma SimFree(c: Config, r: Renaming, s: Ftl, s1: Ftl, v: nat)
    requires Sim(c, r, s, s1) && v < c.lines
    ensures Sim(c, r, MarkLineFree(c, s, v), MarkLineFree(c, s1, r.pi[v]))
  {
    assert s1.lines[r.pi[v]] == RenLine(c, r, s.lines[v]);
    SimSetLine(c, r, s.lines, s1.lines, v, s.lines[v].(ipc := 0, ruh := -1));
    SimSetPri(r.pi, s.pq, s1.pq, v, 0);
  }

  lemma SimGc(c: Config, r: Renaming, s: Ftl, s1: Ftl)
    requires Sim(c, r, s, s1)
    ensures SimOutcome(c, r, DoGc(c, s, true), DoGc(c, s1, true))
  {
    hide TakeVictim, StartGc, Sweep, MarkLineFree, SimLines, SimMap, SimWp, SimList;
    if 1 < |s.pq.d| {
      var v := s.pq.d[1];
      SimStart(c, r, s, s1);
      var t, t1 := StartGc(c, TakeVictim(c, s), v), StartGc(c, TakeVictim(c, s1), r.pi[v]);
      SimSweep(c, r, t, t1, v, c.sweep);
      if Sweep(c, t, v, c.sweep).Ok? {
        SimFree(c, r, Sweep(c, t, v, c.sweep).value, Sweep(c, t1, r.pi[v], c.sweep).value, v);
      }
    }
  }

  lemma SimSpend(c: Config, r: Renaming, s: Ftl, s1: Ftl)
    requires Sim(c, r, s, s1)
    ensures SimOutcome(c, r, SpendCredit(c, s), SpendCredit(c, s1))
  {
    hide DoGc;
    var t, t1 := s.(credits := Dec32(s.credits)), s1.(credits := Dec32(s1.credits));
    assert Sim(c, r, t, t1);
    SimGc(c, r, t, t1);
  }

  lemma SimSupersede(c: Config, r: Renaming, s: Ftl, s1: Ftl, lpn: nat)
    requires Sim(c, r, s, s1) && lpn < c.ttPgs
    ensures SimOutcome(c, r, Supersede(c, s, lpn), Supersede(c, s1, lpn))
  {
    hide MarkInvalid;
    assert SimEntry(c, r, s.maptbl[lpn], s1.maptbl[lpn]);
    if s.maptbl[lpn].Some? {
      SimInvalidate(c, r, s, s1, s.maptbl[lpn].value);
    }
  }

  /** One page write, with its handle renamed, keeps two renamed partitions renamed. */
  lemma SimWrite(c: Config, r: Renaming, s: Ftl, s1: Ftl, lpn: nat, ruh: nat, data: int)
    requires Sim(c, r, s, s1) && lpn < c.ttPgs && ruh < c.n
    ensures r.sigma[ruh] < c.n
    ensures SimOutcome(c, r, WritePage(c, s, lpn, ruh, data), WritePage(c, s1, lpn, r.sigma[ruh], data))
  {
    hide Supersede, Append, SpendCredit, SimLines, SimMap, SimWp, SimList, SimHeap;
    assert r.sigma[ruh] != r.sigma[c.n];
    SimSupersede(c, r, s, s1, lpn);
    if Supersede(c, s, lpn).Ok? {
      var t, t1 := Supersede(c, s, lpn).value, Supersede(c, s1, lpn).value;
      SimAppend(c, r, t, t1, ruh, lpn, data);
      if Append(c, t, ruh, lpn, data).Ok? {
        SimSpend(c, r, Append(c, t, ruh, lpn, data).value, Append(c, t1, r.sigma[ruh], lpn, data).value);
      }
    }
  }
}

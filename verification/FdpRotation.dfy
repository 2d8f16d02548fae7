/** Lines are reused in the order in which they became free. */
module FdpRotation {
  import opened Common
  import opened FtlModel
  import opened FtlGc
  import opened FtlStats
  import opened FtlInit
  import opened FdpDevice
  import opened FdpTheorems

  // ---------------------------------------------------------------- lines opened and freed

  /** From s to s1 a page was appended at frontier i: the line that this opened. */
  ghost function Turns(c: Config, s: Ftl, s1: Ftl, i: nat): (r: seq<nat>)
    requires i < |s.wp| && i < |s1.wp|
  {
    if s.wp[i].off + 1 >= c.p then [s1.wp[i].line] else []
  }

  /** The lines that copying the victim's pages opens, in order. */
  ghost function SweepOpens(c: Config, s: Ftl, v: nat, steps: seq<SweepStep>): (r: seq<nat>)
    requires Shape(c, s) && v < c.lines
    decreases |steps|
  {
    if steps == [] then []
    else
      var s1 := Step(c, s, v, steps[0]);
      if s1.Ok? then
        (if CopiesPage(c, s, v, steps[0]) then Turns(c, s, s1.value, c.n) else [])
        + SweepOpens(c, s1.value, v, steps[1..])
      else []
  }

  /** The lines that spending a credit opens, and the line it frees. */
  ghost function SpendOpens(c: Config, s: Ftl): (r: seq<nat>)
    requires Shape(c, s)
  {
    if Collects(c, s) then SweepOpens(c, SweepStart(c, s.(credits := Dec32(s.credits))), s.pq.d[1], c.sweep) else []
  }

  ghost function SpendFrees(c: Config, s: Ftl): (r: seq<nat>)
    requires Shape(c, s)
  {
    if Collects(c, s) then [s.pq.d[1]] else []
  }

  /** The lines that a page write opens: for its handle, then for the collection it sets off. */
  ghost function WriteOpens(c: Config, s: Ftl, lpn: nat, ruh: nat, data: int): (r: seq<nat>)
    requires Shape(c, s) && lpn < c.ttPgs && ruh < c.n
  {
    var at := Spender(c, s, lpn, ruh, data);
    if at.Ok? then Turns(c, s, at.value, ruh) + SpendOpens(c, at.value) else []
  }

  ghost function WriteFrees(c: Config, s: Ftl, lpn: nat, ruh: nat, data: int): (r: seq<nat>)
    requires Shape(c, s) && lpn < c.ttPgs && ruh < c.n
  {
    var at := Spender(c, s, lpn, ruh, data);
    if at.Ok? then SpendFrees(c, at.value) else []
  }

  // ---------------------------------------------------------------- the free list is a queue

  lemma AppendTurns(c: Config, s: Ftl, i: nat, lpn: nat, data: int)
    requires Shape(c, s) && i <= c.n && Append(c, s, i, lpn, data).Ok?
    ensures s.free == Turns(c, s, Append(c, s, i, lpn, data).value, i) + Append(c, s, i, lpn, data).value.free
  {
  }

  lemma StepTurns(c: Config, s: Ftl, v: nat, st: SweepStep)
    requires Shape(c, s) && v < c.lines && Step(c, s, v, st).Ok?
    ensures
      var s1 := Step(c, s, v, st).value;
      s.free == (if CopiesPage(c, s, v, st) then Turns(c, s, s1, c.n) else []) + s1.free
  {
    hide Append, ErasedLine;
    if CopiesPage(c, s, v, st) {
      var pg := s.lines[v].pages[st.off];
      AppendTurns(c, s, c.n, pg.lpn.value, pg.data);
    }
  }

  lemma {:induction false} SweepTurns(c: Config, s: Ftl, v: nat, steps: seq<SweepStep>)
    requires Shape(c, s) && v < c.lines && Sweep(c, s, v, steps).Ok?
    ensures s.free == SweepOpens(c, s, v, steps) + Sweep(c, s, v, steps).value.free
    decreases |steps|
  {
    hide Step, CopiesPage, Turns;
    if steps == [] {
    } else {
      StepTurns(c, s, v, steps[0]);
      SweepTurns(c, Step(c, s, v, steps[0]).value, v, steps[1..]);
    }
  }

  lemma DoGcTurns(c: Config, s: Ftl)
    requires Shape(c, s) && 1 < |s.pq.d| && DoGc(c, s, true).Ok?
    ensures s.free + [s.pq.d[1]] == SweepOpens(c, SweepStart(c, s), s.pq.d[1], c.sweep) + DoGc(c, s, true).value.free
  {
    hide Sweep, SweepOpens;
    SweepTurns(c, SweepStart(c, s), s.pq.d[1], c.sweep);
  }

  lemma SpendTurns(c: Config, s: Ftl)
    requires Shape(c, s) && SpendCredit(c, s).Ok?
    ensures s.free + SpendFrees(c, s) == SpendOpens(c, s) + SpendCredit(c, s).value.free
  {
    hide DoGc, SweepOpens, SweepStart;
    var s1 := s.(credits := Dec32(s.credits));
    if Collects(c, s) {
      DoGcTurns(c, s1);
    } else if s1.credits <= 0 && s.freeCnt <= c.threshold {
      NoVictimStays(c, s1);
    }
  }

  lemma NoVictimStays(c: Config, s: Ftl)
    requires Shape(c, s) && |s.pq.d| <= 1
    ensures DoGc(c, s, true) == Ok(s)
  {
  }

  /** A page write takes the lines it opens from the front of the free list and puts the line
      it frees at the end. */
  lemma WriteRotates(c: Config, s: Ftl, lpn: nat, ruh: nat, data: int)
    requires Shape(c, s) && lpn < c.ttPgs && ruh < c.n && WritePage(c, s, lpn, ruh, data).Ok?
    ensures s.free + WriteFrees(c, s, lpn, ruh, data) ==
            WriteOpens(c, s, lpn, ruh, data) + WritePage(c, s, lpn, ruh, data).value.free
  {
    hide Supersede, Append, SpendCredit, SpendOpens, SpendFrees;
    var s1 := Supersede(c, s, lpn).value;
    AppendTurns(c, s1, ruh, lpn, data);
    var s2 := Append(c, s1, ruh, lpn, data).value;
    SpendTurns(c, s2);
    Regroup(Turns(c, s, s2, ruh), s2.free, SpendFrees(c, s2), SpendOpens(c, s2), SpendCredit(c, s2).value.free);
  }

  lemma Regroup(a: seq<nat>, b: seq<nat>, f: seq<nat>, o: seq<nat>, r: seq<nat>)
    requires b + f == o + r
    ensures (a + b) + f == (a + o) + r
  {
    assert (a + b) + f == a + (b + f);
    assert (a + o) + r == a + (o + r);
  }

  // ---------------------------------------------------------------- whole runs

  ghost function OpOpens(k: Params, d: Device, op: Op, i: nat): (r: seq<nat>)
    requires DevShape(k, d) && OpOk(k, op) && i < k.np
  {
    if op.Write? && op.part == i then WriteOpens(k.c, Target(k, d, i), op.local, op.ruh, op.data) else []
  }

  ghost function OpFrees(k: Params, d: Device, op: Op, i: nat): (r: seq<nat>)
    requires DevShape(k, d) && OpOk(k, op) && i < k.np
  {
    if op.Write? && op.part == i then WriteFrees(k.c, Target(k, d, i), op.local, op.ruh, op.data) else []
  }

  /** The lines of partition i that operations open, in order... */
  ghost function Opens(k: Params, d: Device, ops: seq<Op>, i: nat): (r: seq<nat>)
    requires DevShape(k, d) && OpsOk(k, ops) && i < k.np
    decreases |ops|
  {
    if ops == [] then []
    else
      var r := Do(k, d, ops[0]);
      OpOpens(k, d, ops[0], i) + if r.Ok? then Opens(k, r.value, ops[1..], i) else []
  }

  /** ...and those that they free. */
  ghost function Frees(k: Params, d: Device, ops: seq<Op>, i: nat): (r: seq<nat>)
    requires DevShape(k, d) && OpsOk(k, ops) && i < k.np
    decreases |ops|
  {
    if ops == [] then []
    else
      var r := Do(k, d, ops[0]);
      OpFrees(k, d, ops[0], i) + if r.Ok? then Frees(k, r.value, ops[1..], i) else []
  }

  lemma DoRotates(k: Params, d: Device, op: Op, i: nat)
    requires DevShape(k, d) && OpOk(k, op) && i < k.np && Do(k, d, op).Ok?
    ensures d.parts[i].free + OpFrees(k, d, op, i) == OpOpens(k, d, op, i) + Do(k, d, op).value.parts[i].free
  {
    hide WritePage, WriteOpens, WriteFrees;
    if op.Write? && op.part == i {
      WriteRotates(k.c, Target(k, d, i), op.local, op.ruh, op.data);
    }
  }

  lemma {:induction false} DoAllRotates(k: Params, d: Device, ops: seq<Op>, i: nat)
    requires DevShape(k, d) && OpsOk(k, ops) && i < k.np && DoAll(k, d, ops).Ok?
    ensures d.parts[i].free + Frees(k, d, ops, i) == Opens(k, d, ops, i) + DoAll(k, d, ops).value.parts[i].free
    decreases |ops|
  {
    hide Do, OpOpens, OpFrees, Shape;
    if ops == [] {
    } else {
      DoRotates(k, d, ops[0], i);
      var d1 := Do(k, d, ops[0]).value;
      DoAllRotates(k, d1, ops[1..], i);
      Chain(d.parts[i].free, OpFrees(k, d, ops[0], i), OpOpens(k, d, ops[0], i), d1.parts[i].free,
            Frees(k, d1, ops[1..], i), Opens(k, d1, ops[1..], i), DoAll(k, d1, ops[1..]).value.parts[i].free);
    }
  }

  lemma Chain(a: seq<nat>, f: seq<nat>, o: seq<nat>, b: seq<nat>, f1: seq<nat>, o1: seq<nat>, c: seq<nat>)
    requires a + f == o + b && b + f1 == o1 + c
    ensures a + (f + f1) == (o + o1) + c
  {
    assert a + (f + f1) == (a + f) + f1;
    assert (o + b) + f1 == o + (b + f1);
    assert o + (o1 + c) == (o + o1) + c;
  }

  /** In every run the lines of a partition are opened in the order in which they became free:
      first those that were never open, then the collected ones, oldest first.  What is not
      yet reopened is the free list. */
  lemma LinesRotate(k: Params, cmds: seq<WriteCmd>, i: nat)
    requires ParamsOk(k) && i < k.np && Run(k, Start(k), cmds).Ok?
    ensures
      var ops := RunOps(k, Start(k), cmds);
      && OpsOk(k, ops)
      && seq(k.c.lines - k.c.n - 1, (j: nat) => k.c.n + 1 + j) + Frees(k, Start(k), ops, i) ==
         Opens(k, Start(k), ops, i) + Run(k, Start(k), cmds).value.parts[i].free
  {
    hide Run, DoAll, RunOps, Frees, Opens;
    RunIsOps(k, Start(k), cmds);
    DoAllRotates(k, Start(k), RunOps(k, Start(k), cmds), i);
    StartFree(k, i);
  }

  lemma StartFree(k: Params, i: nat)
    requires ParamsOk(k) && i < k.np
    ensures Start(k).parts[i].free == seq(k.c.lines - k.c.n - 1, (j: nat) => k.c.n + 1 + j)
  {
  }
}

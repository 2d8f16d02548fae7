/** The FTL theorems, for every run of write commands on the whole namespace. */
module FdpTheorems {
  import opened Common
  import opened Finite
  import opened FtlModel
  import opened FtlInv
  import opened FtlGc
  import opened FtlView
  import opened FtlSpace
  import opened FtlStats
  import opened FtlInit
  import opened FdpDevice
  import P = Pqueue

  // ---------------------------------------------------------------- invariants in every run

  ghost predicate DevInv(k: Params, d: Device) {
    DevShape(k, d) && forall i :: 0 <= i < k.np ==> Inv(k.c, d.parts[i])
  }

  /** The partition that a page write works on, with the shared context in place. */
  ghost function Target(k: Params, d: Device, i: nat): Ftl
    requires DevShape(k, d) && i < k.np
  {
    d.parts[i].(ctx := d.ctx)
  }

  lemma TargetInv(k: Params, d: Device, i: nat)
    requires DevInv(k, d) && i < k.np
    ensures Inv(k.c, Target(k, d, i))
  {
    CoreIgnores(k.c, d.parts[i], Target(k, d, i), Idle, -1);
  }

  lemma DoKeeps(k: Params, d: Device, op: Op)
    requires DevInv(k, d) && ConfigOk(k.c) && OpOk(k, op)
    ensures !Do(k, d, op).BugOn? && (Do(k, d, op).Ok? ==> DevInv(k, Do(k, d, op).value))
  {
    match op
    case Write(i, m, ruh, data) =>
      TargetInv(k, d, i);
      WritePageKeeps(k.c, Target(k, d, i), m, ruh, data);
    case Count(_) =>
    case Note(_, _) =>
  }

  lemma {:induction false} DoAllKeeps(k: Params, d: Device, ops: seq<Op>)
    requires DevInv(k, d) && ConfigOk(k.c) && OpsOk(k, ops)
    ensures !DoAll(k, d, ops).BugOn? && (DoAll(k, d, ops).Ok? ==> DevInv(k, DoAll(k, d, ops).value))
    decreases |ops|
  {
    if ops != [] {
      DoKeeps(k, d, ops[0]);
      if Do(k, d, ops[0]).Ok? {
        DoAllKeeps(k, Do(k, d, ops[0]).value, ops[1..]);
      }
    }
  }

  ghost predicate ParamsOk(k: Params) {
    ConfigOk(k.c) && k.np >= 1 && k.secsPerPg >= 1
  }

  lemma StartInv(k: Params)
    requires ParamsOk(k)
    ensures DevInv(k, Start(k))
  {
    InitInv(k.c);
  }

  /** No run of write commands ever trips an assertion, and every state it reaches
      satisfies the line ledger, the page counts, the heap with its positions, the map
      bijection and the credit bounds. */
  lemma RunSafe(k: Params, cmds: seq<WriteCmd>)
    requires ParamsOk(k)
    ensures
      var r := Run(k, Start(k), cmds);
      !r.BugOn? && (r.Ok? ==> DevInv(k, r.value))
  {
    StartInv(k);
    RunIsOps(k, Start(k), cmds);
    DoAllKeeps(k, Start(k), RunOps(k, Start(k), cmds));
  }

  /** After every run each line of each partition is in exactly one place, the position
      field tells which lines are in the victim heap, and the counters are the lengths. */
  lemma EveryLineOnce(k: Params, cmds: seq<WriteCmd>, i: nat, l: nat)
    requires ParamsOk(k) && i < k.np && l < k.c.lines && Run(k, Start(k), cmds).Ok?
    ensures
      var s := Run(k, Start(k), cmds).value.parts[i];
      && multiset(s.free)[l] + multiset(s.full)[l] + P.Members(s.pq)[l] + multiset(OpenLines(s.wp))[l] == 1
      && (s.pq.pos[l] != 0 <==> P.Members(s.pq)[l] == 1)
      && s.freeCnt == |s.free| && s.fullCnt == |s.full| && s.victimCnt == |s.pq.d| - 1
  {
    RunSafe(k, cmds);
    hide Run, Start;
    var s := Run(k, Start(k), cmds).value.parts[i];
    LineOnce(k.c, s, Idle, l);
    HeapMember(s.pq, l);
  }

  // ---------------------------------------------------------------- the last writer of a page

  ghost predicate Covers(k: Params, cmd: WriteCmd, x: nat)
    requires k.np >= 1 && k.secsPerPg >= 1
  {
    Accepted(k, cmd) && StartLpn(k, cmd) <= x <= EndLpn(k, cmd)
  }

  /** The last command of the run that was accepted and covers logical page x. */
  ghost function LastWriter(k: Params, cmds: seq<WriteCmd>, x: nat): Option<WriteCmd>
    requires k.np >= 1 && k.secsPerPg >= 1
    decreases |cmds|
  {
    if cmds == [] then None
    else
      var o := LastWriter(k, cmds[1..], x);
      if o.Some? then o
      else if Covers(k, cmds[0], x) then Some(cmds[0])
      else None
  }

  ghost function LastOp(ops: seq<Op>, i: nat, m: nat): (r: Option<Op>)
    ensures r.Some? ==> r.value.Write? && r.value.part == i && r.value.local == m
    decreases |ops|
  {
    if ops == [] then None
    else
      var o := LastOp(ops[1..], i, m);
      if o.Some? then o
      else if ops[0].Write? && ops[0].part == i && ops[0].local == m then Some(ops[0])
      else None
  }

  lemma {:induction false} LastOpConcat(a: seq<Op>, b: seq<Op>, i: nat, m: nat)
    ensures LastOp(a + b, i, m) == if LastOp(b, i, m).Some? then LastOp(b, i, m) else LastOp(a, i, m)
    decreases |a|
  {
    if a == [] {
      assert a + b == b;
    } else {
      assert (a + b)[1..] == a[1..] + b;
      LastOpConcat(a[1..], b, i, m);
    }
  }

  lemma SamePage(x: nat, y: nat, n: nat)
    requires n >= 1 && x % n == y % n && x / n == y / n
    ensures x == y
  {
    assert x == (x / n) * n + x % n;
    assert y == (y / n) * n + y % n;
  }

  /** The last operation on logical page x. */
  ghost function LastOn(k: Params, ops: seq<Op>, x: nat): Option<Op>
    requires k.np >= 1
  {
    LastOp(ops, x % k.np, x / k.np)
  }

  lemma {:induction false} LastPageOp(k: Params, lpn: nat, end: nat, ruh: nat, data: int, x: nat)
    requires k.np >= 1
    ensures LastOn(k, PageOps(k, lpn, end, ruh, data), x) ==
            if lpn <= x <= end then Some(PageOp(k, x, ruh, data)) else None
    decreases end + 1 - lpn
  {
    if lpn <= end {
      LastPageOp(k, lpn + 1, end, ruh, data, x);
      LastOpConcat([PageOp(k, lpn, ruh, data)], PageOps(k, lpn + 1, end, ruh, data), x % k.np, x / k.np);
      if x % k.np == lpn % k.np && x / k.np == lpn / k.np {
        SamePage(x, lpn, k.np);
      }
    }
  }

  lemma CmdLast(k: Params, d: Device, cmd: WriteCmd, x: nat)
    requires DevShape(k, d)
    ensures LastOn(k, CmdOps(k, d, cmd), x) ==
            if Covers(k, cmd, x) then Some(PageOp(k, x, RuhOf(cmd), cmd.data)) else None
  {
    if Addressable(k, cmd) && !(Placed(cmd) && cmd.dspec >= k.c.n) && cmd.bufferOk {
      var pages := PageOps(k, StartLpn(k, cmd), EndLpn(k, cmd), RuhOf(cmd), cmd.data);
      var head := [Note(NoteUse(d, cmd).attr, d.ctx.emitted), Count(Bytes(k, cmd))];
      LastOpConcat(head, pages, x % k.np, x / k.np);
      LastPageOp(k, StartLpn(k, cmd), EndLpn(k, cmd), RuhOf(cmd), cmd.data, x);
      assert head[1..] == [Count(Bytes(k, cmd))];
    } else if Addressable(k, cmd) {
      var ops := CmdOps(k, d, cmd);
      assert ops[1..] == [] && !ops[0].Write?;
      assert LastOp(ops[1..], x % k.np, x / k.np).None?;
    }
  }

  lemma LastOnConcat(k: Params, a: seq<Op>, b: seq<Op>, x: nat)
    requires k.np >= 1
    ensures LastOn(k, a + b, x) == if LastOn(k, b, x).Some? then LastOn(k, b, x) else LastOn(k, a, x)
  {
    LastOpConcat(a, b, x % k.np, x / k.np);
  }

  lemma LastOnNone(k: Params, x: nat)
    requires k.np >= 1
    ensures LastOn(k, [], x) == None
  {
  }

  lemma {:induction false} RunLast(k: Params, d: Device, cmds: seq<WriteCmd>, x: nat)
    requires DevShape(k, d)
    ensures
      var o, w := LastOn(k, RunOps(k, d, cmds), x), LastWriter(k, cmds, x);
      && (o.Some? ==> w.Some?)
      && (Run(k, d, cmds).Ok? ==> o == if w.Some? then Some(PageOp(k, x, RuhOf(w.value), w.value.data)) else None)
    decreases |cmds|
  {
    hide LastOn, CmdOps, FdpWrite, Covers, PageOp, RuhOf, Shape;
    if cmds == [] {
      LastOnNone(k, x);
    } else {
      CmdLast(k, d, cmds[0], x);
      var r := FdpWrite(k, d, cmds[0]);
      if r.Ok? {
        RunLast(k, r.value.0, cmds[1..], x);
        LastOnConcat(k, CmdOps(k, d, cmds[0]), RunOps(k, r.value.0, cmds[1..]), x);
      } else {
        assert CmdOps(k, d, cmds[0]) + [] == CmdOps(k, d, cmds[0]);
      }
    }
  }

  // ---------------------------------------------------------------- reads and isolation

  /** What partition i returns for its logical page m. */
  ghost function ReadsAt(k: Params, d: Device, i: nat, m: nat): Option<int>
    requires DevShape(k, d) && i < k.np
  {
    var v := View(k.c, d.parts[i]);
    if m in v then Some(v[m]) else None
  }

  /** What the host reads at logical page x. */
  ghost function Reads(k: Params, d: Device, x: nat): Option<int>
    requires DevShape(k, d)
  {
    ReadsAt(k, d, x % k.np, x / k.np)
  }

  ghost predicate DevIsolated(k: Params, d: Device, owners: seq<map<nat, nat>>)
    requires DevShape(k, d)
  {
    |owners| == k.np && forall i :: 0 <= i < k.np ==> Isolated(k.c, d.parts[i], owners[i])
  }

  ghost function Own(k: Params, owners: seq<map<nat, nat>>, op: Op): (r: seq<map<nat, nat>>)
    requires |owners| == k.np && OpOk(k, op)
    ensures |r| == k.np
  {
    if op.Write? then
      var own: map<nat, nat> := owners[op.part][op.local := op.ruh];
      owners[op.part := own]
    else owners
  }

  lemma DoReads(k: Params, d: Device, op: Op, owners: seq<map<nat, nat>>, i: nat, m: nat)
    requires DevInv(k, d) && ConfigOk(k.c) && OpOk(k, op) && Do(k, d, op).Ok? && DevIsolated(k, d, owners)
    requires i < k.np
    ensures DevIsolated(k, Do(k, d, op).value, Own(k, owners, op))
    ensures ReadsAt(k, Do(k, d, op).value, i, m) ==
            if op.Write? && op.part == i && op.local == m then Some(op.data) else ReadsAt(k, d, i, m)
  {
    if op.Write? {
      var s := Target(k, d, op.part);
      TargetInv(k, d, op.part);
      ViewIgnores(k.c, d.parts[op.part], s);
      WritePageView(k.c, s, op.local, op.ruh, op.data, owners[op.part]);
    }
  }

  lemma {:induction false} DoAllReads(k: Params, d: Device, ops: seq<Op>, owners: seq<map<nat, nat>>, i: nat, m: nat)
    requires DevInv(k, d) && ConfigOk(k.c) && OpsOk(k, ops) && DoAll(k, d, ops).Ok? && DevIsolated(k, d, owners)
    requires i < k.np
    ensures ReadsAt(k, DoAll(k, d, ops).value, i, m) ==
            if LastOp(ops, i, m).Some? then Some(LastOp(ops, i, m).value.data) else ReadsAt(k, d, i, m)
    decreases |ops|
  {
    if ops != [] {
      DoKeeps(k, d, ops[0]);
      DoReads(k, d, ops[0], owners, i, m);
      DoAllReads(k, Do(k, d, ops[0]).value, ops[1..], Own(k, owners, ops[0]), i, m);
    }
  }

  ghost function NoOwners(k: Params): seq<map<nat, nat>> {
    seq(k.np, (i: nat) => map[])
  }

  /** After every run the host reads, at every logical page, what the last accepted
      command covering that page wrote: GC is invisible, and commands change exactly the
      pages they name. */
  lemma ReadsLastWrite(k: Params, cmds: seq<WriteCmd>, x: nat)
    requires ParamsOk(k) && Run(k, Start(k), cmds).Ok?
    ensures
      var w := LastWriter(k, cmds, x);
      Reads(k, Run(k, Start(k), cmds).value, x) == if w.Some? then Some(w.value.data) else None
  {
    hide Run, DoAll, RunOps, LastWriter, LastOn, PageOp, Reads, DevInv, DevShape, Shape, Start;
    var d := Start(k);
    StartInv(k);
    RunIsOps(k, d, cmds);
    RunLast(k, d, cmds, x);
    OpsRead(k, RunOps(k, d, cmds), x);
    PageOpData(k, cmds, x);
  }

  lemma PageOpData(k: Params, cmds: seq<WriteCmd>, x: nat)
    requires k.np >= 1 && k.secsPerPg >= 1
    ensures
      var w := LastWriter(k, cmds, x);
      w.Some? ==> PageOp(k, x, RuhOf(w.value), w.value.data).Write?
                  && PageOp(k, x, RuhOf(w.value), w.value.data).data == w.value.data
  {
  }

  /** The host reads what the last operation on the page wrote. */
  lemma OpsRead(k: Params, ops: seq<Op>, x: nat)
    requires ParamsOk(k) && OpsOk(k, ops) && DoAll(k, Start(k), ops).Ok?
    ensures
      var o := LastOn(k, ops, x);
      && (o.Some? ==> o.value.Write?)
      && Reads(k, DoAll(k, Start(k), ops).value, x) == if o.Some? then Some(o.value.data) else None
  {
    hide DoAll, Start, LastOp, ReadsAt, DevShape, ConfigOk, OpsOk;
    OpsReadAt(k, ops, x % k.np, x / k.np);
  }

  lemma OpsReadAt(k: Params, ops: seq<Op>, i: nat, m: nat)
    requires ParamsOk(k) && OpsOk(k, ops) && DoAll(k, Start(k), ops).Ok? && i < k.np
    ensures
      var o := LastOp(ops, i, m);
      ReadsAt(k, DoAll(k, Start(k), ops).value, i, m) == if o.Some? then Some(o.value.data) else None
  {
    hide DoAll, LastOp;
    StartInv(k);
    InitInv(k.c);
    DoAllReads(k, Start(k), ops, NoOwners(k), i, m);
  }

  // ---------------------------------------------------------------- reclaim-unit isolation

  ghost function OwnAll(k: Params, owners: seq<map<nat, nat>>, ops: seq<Op>): (r: seq<map<nat, nat>>)
    requires |owners| == k.np && OpsOk(k, ops)
    ensures |r| == k.np
    decreases |ops|
  {
    if ops == [] then owners else OwnAll(k, Own(k, owners, ops[0]), ops[1..])
  }

  lemma {:induction false} OwnAllLast(k: Params, owners: seq<map<nat, nat>>, ops: seq<Op>, i: nat, m: nat)
    requires |owners| == k.np && OpsOk(k, ops) && i < k.np
    ensures
      var o, own := LastOp(ops, i, m), OwnAll(k, owners, ops)[i];
      if o.Some? then m in own && own[m] == o.value.ruh
      else (m in own <==> m in owners[i]) && (m in own ==> own[m] == owners[i][m])
    decreases |ops|
  {
    if ops != [] {
      OwnAllLast(k, Own(k, owners, ops[0]), ops[1..], i, m);
    }
  }

  lemma {:induction false} DoAllIsolated(k: Params, d: Device, ops: seq<Op>, owners: seq<map<nat, nat>>)
    requires DevInv(k, d) && ConfigOk(k.c) && OpsOk(k, ops) && DoAll(k, d, ops).Ok? && DevIsolated(k, d, owners)
    ensures DevIsolated(k, DoAll(k, d, ops).value, OwnAll(k, owners, ops))
    decreases |ops|
  {
    if ops != [] {
      DoKeeps(k, d, ops[0]);
      DoReads(k, d, ops[0], owners, 0, 0);
      DoAllIsolated(k, Do(k, d, ops[0]).value, ops[1..], Own(k, owners, ops[0]));
    }
  }

  /** The logical page whose share on partition i is m. */
  ghost function Global(k: Params, i: nat, m: nat): nat {
    m * k.np + i
  }

  lemma Unstripe(k: Params, i: nat, m: nat)
    requires i < k.np
    ensures Global(k, i, m) % k.np == i && Global(k, i, m) / k.np == m
  {
    DivModUnique(m * k.np + i, k.np, m, i);
  }

  /** In every run, a VALID page on a line tagged with handle r holds a logical page whose
      latest accepted write used r; so pages of different handles share a line only after
      GC has moved them to an untagged one. */
  lemma Isolation(k: Params, cmds: seq<WriteCmd>, i: nat, a: Ppa)
    requires ParamsOk(k) && Run(k, Start(k), cmds).Ok? && i < k.np && InRange(k.c, a)
    requires
      var s := Run(k, Start(k), cmds).value.parts[i];
      PageAt(k.c, s.lines, a).status == PgValid && s.lines[a.line].ruh >= 0
    ensures
      var s := Run(k, Start(k), cmds).value.parts[i];
      var o := PageAt(k.c, s.lines, a).lpn;
      && o.Some?
      && var w := LastWriter(k, cmds, Global(k, i, o.value));
         w.Some? && s.lines[a.line].ruh == if w.value.dtype == DIRECTIVE_PLACEMENT then w.value.dspec else 0
  {
    var d := Start(k);
    var ops := RunOps(k, d, cmds);
    StartInv(k);
    InitInv(k.c);
    RunIsOps(k, d, cmds);
    DoAllKeeps(k, d, ops);
    DoAllIsolated(k, d, ops, NoOwners(k));
    var s := DoAll(k, d, ops).value.parts[i];
    var pg := PageAt(k.c, s.lines, a);
    assert MappedBack(k.c, s.maptbl, pg, a, -1);
    var m := pg.lpn.value;
    assert Owned(pg, s.lines[a.line].ruh, OwnAll(k, NoOwners(k), ops)[i]);
    OwnAllLast(k, NoOwners(k), ops, i, m);
    Unstripe(k, i, m);
    RunLast(k, d, cmds, Global(k, i, m));
  }

  // ---------------------------------------------------------------- free lines never run out

  ghost function Lpns(ops: seq<Op>, i: nat): set<nat>
    decreases |ops|
  {
    if ops == [] then {}
    else (if ops[0].Write? && ops[0].part == i then {ops[0].local} else {}) + Lpns(ops[1..], i)
  }

  lemma {:induction false} LpnsLast(ops: seq<Op>, i: nat, m: nat)
    requires m in Lpns(ops, i)
    ensures LastOp(ops, i, m).Some?
    decreases |ops|
  {
    if m in Lpns(ops[1..], i) {
      LpnsLast(ops[1..], i, m);
    }
  }

  lemma {:induction false} LpnsBound(k: Params, ops: seq<Op>, i: nat, m: nat)
    requires OpsOk(k, ops) && m in Lpns(ops, i)
    ensures m < k.c.ttPgs
    decreases |ops|
  {
    if m in Lpns(ops[1..], i) {
      LpnsBound(k, ops[1..], i, m);
    }
  }

  ghost predicate DevSpace(k: Params, d: Device)
    requires DevShape(k, d)
  {
    forall i :: 0 <= i < k.np ==> SpaceOk(k.c, d.parts[i])
  }

  /** On every partition the mapped pages and those still to come stay below the limit. */
  ghost predicate Fits(k: Params, d: Device, ops: seq<Op>)
    requires DevShape(k, d)
  {
    forall i: nat :: i < k.np ==> |Mapped(d.parts[i]) + Lpns(ops, i)| < Limit(k.c)
  }

  lemma WriteSpace(k: Params, d: Device, op: Op)
    requires DevInv(k, d) && DevSpace(k, d) && ConfigOk(k.c) && k.c.threshold >= k.c.n + 1
    requires OpOk(k, op) && op.Write?
    requires |Mapped(d.parts[op.part]) + {op.local}| < Limit(k.c)
    ensures Do(k, d, op).Ok? && DevSpace(k, Do(k, d, op).value)
    ensures forall i :: 0 <= i < k.np ==> Mapped(Do(k, d, op).value.parts[i]) == Grown(Mapped(d.parts[i]), op, i)
  {
    var s := Target(k, d, op.part);
    TargetInv(k, d, op.part);
    SlotsIgnore(k.c, d.parts[op.part], s);
    WritePageSpace(k.c, s, op.local, op.ruh, op.data);
    WriteMapped(k, s, op);
  }

  lemma WriteMapped(k: Params, s: Ftl, op: Op)
    requires Inv(k.c, s) && ConfigOk(k.c) && OpOk(k, op) && op.Write?
    requires WritePage(k.c, s, op.local, op.ruh, op.data).Ok?
    ensures Mapped(WritePage(k.c, s, op.local, op.ruh, op.data).value) == Mapped(s) + {op.local}
  {
    var owner: map<nat, nat> := TagOwners(k.c, s);
    TagOwnersIsolate(k.c, s);
    WritePageKeeps(k.c, s, op.local, op.ruh, op.data);
    WritePageView(k.c, s, op.local, op.ruh, op.data, owner);
    MappedIsView(k.c, s, Idle);
    MappedIsView(k.c, WritePage(k.c, s, op.local, op.ruh, op.data).value, Idle);
  }

  lemma SpaceStep(k: Params, d: Device, ops: seq<Op>)
    requires DevInv(k, d) && DevSpace(k, d) && ConfigOk(k.c) && k.c.threshold >= k.c.n + 1
    requires ops != [] && OpsOk(k, ops) && Fits(k, d, ops)
    ensures Do(k, d, ops[0]).Ok?
    ensures DevSpace(k, Do(k, d, ops[0]).value) && Fits(k, Do(k, d, ops[0]).value, ops[1..])
  {
    var op := ops[0];
    if op.Write? {
      FitsNow(k, d, ops);
      WriteSpace(k, d, op);
    } else {
      QuietMapped(k, d, op);
    }
    FitsOn(k, d, Do(k, d, op).value, ops);
  }

  lemma QuietMapped(k: Params, d: Device, op: Op)
    requires DevShape(k, d) && OpOk(k, op) && !op.Write?
    ensures Do(k, d, op).Ok? && Do(k, d, op).value.parts == d.parts
  {
  }

  /** The mapped pages of partition i after op. */
  ghost function Grown(mapped: set<nat>, op: Op, i: nat): set<nat> {
    if op.Write? && op.part == i then mapped + {op.local} else mapped
  }

  lemma FitsNow(k: Params, d: Device, ops: seq<Op>)
    requires DevShape(k, d) && ops != [] && OpOk(k, ops[0]) && ops[0].Write? && Fits(k, d, ops)
    ensures |Mapped(d.parts[ops[0].part]) + {ops[0].local}| < Limit(k.c)
  {
    var i := ops[0].part;
    SubsetCard(Mapped(d.parts[i]) + {ops[0].local}, Mapped(d.parts[i]) + Lpns(ops, i));
  }

  lemma {:induction false} DoAllSpace(k: Params, d: Device, ops: seq<Op>)
    requires DevInv(k, d) && DevSpace(k, d) && ConfigOk(k.c) && k.c.threshold >= k.c.n + 1
    requires OpsOk(k, ops) && Fits(k, d, ops)
    ensures DoAll(k, d, ops).Ok? && DevSpace(k, DoAll(k, d, ops).value)
    decreases |ops|
  {
    if ops != [] {
      SpaceStep(k, d, ops);
      DoKeeps(k, d, ops[0]);
      DoAllSpace(k, Do(k, d, ops[0]).value, ops[1..]);
    }
  }

  lemma FitsOn(k: Params, d: Device, d1: Device, ops: seq<Op>)
    requires DevShape(k, d) && DevShape(k, d1) && ops != [] && OpsOk(k, ops) && Fits(k, d, ops)
    requires forall i :: 0 <= i < k.np ==> Mapped(d1.parts[i]) == Grown(Mapped(d.parts[i]), ops[0], i)
    ensures Fits(k, d1, ops[1..])
  {
    forall i: nat | i < k.np
      ensures |Mapped(d1.parts[i]) + Lpns(ops[1..], i)| < Limit(k.c)
    {
      assert Mapped(d1.parts[i]) + Lpns(ops[1..], i) == Mapped(d.parts[i]) + Lpns(ops, i);
    }
  }

  /** The logical pages of partition i that the run writes. */
  ghost function Touched(k: Params, cmds: seq<WriteCmd>, i: nat): set<nat>
    requires k.np >= 1 && k.secsPerPg >= 1
  {
    set m: nat | m < k.c.ttPgs && LastWriter(k, cmds, Global(k, i, m)).Some?
  }

  lemma LpnsTouched(k: Params, cmds: seq<WriteCmd>, i: nat)
    requires ParamsOk(k) && i < k.np
    ensures Lpns(RunOps(k, Start(k), cmds), i) <= Touched(k, cmds, i)
  {
    var ops := RunOps(k, Start(k), cmds);
    RunIsOps(k, Start(k), cmds);
    forall m | m in Lpns(ops, i)
      ensures m in Touched(k, cmds, i)
    {
      LpnsLast(ops, i, m);
      LpnsBound(k, ops, i, m);
      Unstripe(k, i, m);
      RunLast(k, Start(k), cmds, Global(k, i, m));
    }
  }

  /** If GC starts at N + 1 free lines or earlier, and every partition sees fewer distinct
      logical pages than the lines beyond the open and reserved ones hold, then every host
      and GC line rotation of every run finds a free line; what makes it so is that the free
      slots beyond the outstanding credits never fall below (N + 1)(P + 1). */
  lemma FreeLinesSuffice(k: Params, cmds: seq<WriteCmd>)
    requires ParamsOk(k) && k.c.threshold >= k.c.n + 1
    requires forall i: nat :: i < k.np ==> |Touched(k, cmds, i)| < Limit(k.c)
    ensures Run(k, Start(k), cmds).Ok? && DevSpace(k, Run(k, Start(k), cmds).value)
  {
    var d := Start(k);
    var ops := RunOps(k, d, cmds);
    StartInv(k);
    InitInv(k.c);
    RunIsOps(k, d, cmds);
    assert Committed(k.c) >= 1 by {
      assert |Touched(k, cmds, 0)| < Limit(k.c);
      Positive(Committed(k.c), k.c.p);
    }
    InitSpace(k.c);
    forall i: nat | i < k.np
      ensures |Mapped(d.parts[i]) + Lpns(ops, i)| < Limit(k.c)
    {
      LpnsTouched(k, cmds, i);
      assert Mapped(d.parts[i]) + Lpns(ops, i) == Lpns(ops, i);
      SubsetCard(Lpns(ops, i), Touched(k, cmds, i));
    }
    DoAllSpace(k, d, ops);
  }

  lemma Positive(a: int, p: nat)
    requires a * p > 0
    ensures a >= 1
  {
    if a <= 0 {
      Monotone(a, 0, p);
    }
  }
}

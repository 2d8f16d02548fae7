/** Conservation of the FDP statistics (HBMW, MBMW, MBE) over every run. */
module FdpAccounting {
  import opened Common
  import opened Finite
  import opened FtlModel
  import opened FtlInv
  import opened FtlGc
  import opened FtlStats
  import opened FtlInit
  import opened FdpDevice
  import opened FdpTheorems

  ghost function WrittenOf(parts: seq<Ftl>): seq<int> {
    seq(|parts|, i requires 0 <= i < |parts| => Written(parts[i].lines, -1))
  }

  /** Pages that are not FREE over all partitions. */
  ghost function DevWritten(d: Device): int {
    Sum(WrittenOf(d.parts))
  }

  ghost function LineBytes(c: Config): nat {
    Times(c.p, c.pgsz)
  }

  /** From d to d1 the host wrote `bytes` in `pages` pages, and `gcs` completed
      collections copied `copies` pages. */
  ghost predicate Accounted(k: Params, d: Device, d1: Device, bytes: nat, pages: nat, copies: nat, gcs: nat) {
    && d1.ctx.hbmw == d.ctx.hbmw + bytes
    && d1.ctx.mbmw == d.ctx.mbmw + bytes + Times(copies, k.c.pgsz)
    && d1.ctx.mbe == d.ctx.mbe + Times(gcs, LineBytes(k.c))
    && DevWritten(d1) + Times(gcs, k.c.p) == DevWritten(d) + pages + copies
    && copies + gcs <= Times(gcs, k.c.p)
    && gcs <= pages
  }

  lemma AccountedAdds(k: Params, d: Device, d1: Device, d2: Device,
                      b: nat, p: nat, c: nat, g: nat, b1: nat, p1: nat, c1: nat, g1: nat)
    requires Accounted(k, d, d1, b, p, c, g) && Accounted(k, d1, d2, b1, p1, c1, g1)
    ensures Accounted(k, d, d2, b + b1, p + p1, c + c1, g + g1)
  {
    TimesAdds(c, c1, k.c.pgsz);
    TimesAdds(g, g1, LineBytes(k.c));
    TimesAdds(g, g1, k.c.p);
  }

  lemma WrittenUpdate(parts: seq<Ftl>, i: nat, s: Ftl)
    requires i < |parts|
    ensures Sum(WrittenOf(parts[i := s])) == Sum(WrittenOf(parts)) - Written(parts[i].lines, -1) + Written(s.lines, -1)
  {
    assert WrittenOf(parts[i := s]) == WrittenOf(parts)[i := Written(s.lines, -1)];
    SumUpdate(WrittenOf(parts), i, Written(s.lines, -1));
  }

  ghost predicate CountsOk(k: Params) {
    ParamsOk(k) && k.c.nblks * k.c.blkPgs == k.c.p
  }

  lemma ChargeAccounted(k: Params, d: Device, d1: Device, s: Ftl, s1: Ftl, i: nat, copies: nat, gcs: nat)
    requires Charged(k.c, s, s1, 1, copies, Times(gcs, k.c.p)) && gcs <= 1 && copies + gcs <= Times(gcs, k.c.p)
    requires i < |d.parts| && s.ctx == d.ctx && s.lines == d.parts[i].lines
    requires d1.parts == d.parts[i := s1] && d1.ctx == s1.ctx
    ensures Accounted(k, d, d1, 0, 1, copies, gcs)
  {
    WrittenUpdate(d.parts, i, s1);
    TimesOne(k.c.p);
    TimesOne(LineBytes(k.c));
  }

  // ---------------------------------------------------------------- what a run counts

  /** The collections that one operation completes. */
  ghost function OpGcs(k: Params, d: Device, op: Op): nat
    requires DevShape(k, d) && OpOk(k, op)
  {
    if op.Write? then WriteCollects(k.c, Target(k, d, op.part), op.local, op.ruh, op.data) else 0
  }

  /** The pages that these copy: one per call of gc_write_page. */
  ghost function OpCopies(k: Params, d: Device, op: Op): nat
    requires DevShape(k, d) && OpOk(k, op)
  {
    if op.Write? then WriteCopies(k.c, Target(k, d, op.part), op.local, op.ruh, op.data) else 0
  }

  ghost function OpsGcs(k: Params, d: Device, ops: seq<Op>): nat
    requires DevShape(k, d) && OpsOk(k, ops)
    decreases |ops|
  {
    if ops == [] then 0
    else
      OpGcs(k, d, ops[0])
      + if Do(k, d, ops[0]).Ok? then OpsGcs(k, Do(k, d, ops[0]).value, ops[1..]) else 0
  }

  ghost function OpsCopies(k: Params, d: Device, ops: seq<Op>): nat
    requires DevShape(k, d) && OpsOk(k, ops)
    decreases |ops|
  {
    if ops == [] then 0
    else
      OpCopies(k, d, ops[0])
      + if Do(k, d, ops[0]).Ok? then OpsCopies(k, Do(k, d, ops[0]).value, ops[1..]) else 0
  }

  /** Completed collections of a run of commands from the start. */
  ghost function Collections(k: Params, cmds: seq<WriteCmd>): nat
    requires ParamsOk(k)
  {
    RunIsOps(k, Start(k), cmds);
    OpsGcs(k, Start(k), RunOps(k, Start(k), cmds))
  }

  /** Pages that they copied. */
  ghost function GcCopies(k: Params, cmds: seq<WriteCmd>): nat
    requires ParamsOk(k)
  {
    RunIsOps(k, Start(k), cmds);
    OpsCopies(k, Start(k), RunOps(k, Start(k), cmds))
  }

  lemma WriteAccounted(k: Params, d: Device, op: Op)
    requires DevInv(k, d) && CountsOk(k) && OpOk(k, op) && op.Write? && Do(k, d, op).Ok?
    ensures Accounted(k, d, Do(k, d, op).value, 0, 1, OpCopies(k, d, op), OpGcs(k, d, op))
  {
    hide LedgerOk, CountersOk, HeapOk, LinesOk, SweptOk, MapOk, BlocksOk, Shape, Charged, Accounted,
         WritePage, WriteCopies, WriteCollects, ConfigOk;
    var s := Target(k, d, op.part);
    TargetInv(k, d, op.part);
    ConfigParts(k);
    WritePageCharged(k.c, s, op.local, op.ruh, op.data);
    var s1 := WritePage(k.c, s, op.local, op.ruh, op.data).value;
    ChargeAccounted(k, d, Do(k, d, op).value, s, s1, op.part, OpCopies(k, d, op), OpGcs(k, d, op));
  }

  lemma ConfigParts(k: Params)
    requires CountsOk(k)
    ensures SweepOk(k.c) && k.c.nblks * k.c.blkPgs == k.c.p
  {
  }

  ghost function OpBytes(ops: seq<Op>): nat
    decreases |ops|
  {
    if ops == [] then 0 else (if ops[0].Count? then ops[0].bytes else 0) + OpBytes(ops[1..])
  }

  ghost function OpPages(ops: seq<Op>): nat
    decreases |ops|
  {
    if ops == [] then 0 else (if ops[0].Write? then 1 else 0) + OpPages(ops[1..])
  }

  lemma DoAccounted(k: Params, d: Device, op: Op)
    requires DevInv(k, d) && CountsOk(k) && OpOk(k, op) && Do(k, d, op).Ok?
    ensures Accounted(k, d, Do(k, d, op).value, if op.Count? then op.bytes else 0, if op.Write? then 1 else 0,
                      OpCopies(k, d, op), OpGcs(k, d, op))
  {
    hide DevInv, DevShape, CountsOk, WriteAt, WriteCopies, WriteCollects;
    if op.Write? {
      WriteAccounted(k, d, op);
    }
  }

  lemma {:induction false} DoAllAccounted(k: Params, d: Device, ops: seq<Op>)
    requires DevInv(k, d) && CountsOk(k) && OpsOk(k, ops) && DoAll(k, d, ops).Ok?
    ensures Accounted(k, d, DoAll(k, d, ops).value, OpBytes(ops), OpPages(ops), OpsCopies(k, d, ops), OpsGcs(k, d, ops))
    decreases |ops|
  {
    hide Inv, Shape, ConfigOk, Do, OpCopies, OpGcs;
    if ops != [] {
      hide Accounted;
      DoKeeps(k, d, ops[0]);
      DoAccounted(k, d, ops[0]);
      var d1, rest := Do(k, d, ops[0]).value, ops[1..];
      DoAllAccounted(k, d1, rest);
      AccountedAdds(k, d, d1, DoAll(k, d1, rest).value,
                    if ops[0].Count? then ops[0].bytes else 0, if ops[0].Write? then 1 else 0,
                    OpCopies(k, d, ops[0]), OpGcs(k, d, ops[0]),
                    OpBytes(rest), OpPages(rest), OpsCopies(k, d1, rest), OpsGcs(k, d1, rest));
    }
  }

  // ---------------------------------------------------------------- bytes and pages of a run

  /** Bytes of the accepted commands. */
  ghost function HostBytes(k: Params, cmds: seq<WriteCmd>): nat
    requires k.np >= 1 && k.secsPerPg >= 1
    decreases |cmds|
  {
    if cmds == [] then 0
    else (if Accepted(k, cmds[0]) then Bytes(k, cmds[0]) else 0) + HostBytes(k, cmds[1..])
  }

  ghost function PageCount(k: Params, cmd: WriteCmd): nat
    requires k.secsPerPg >= 1
  {
    var a, b := StartLpn(k, cmd), EndLpn(k, cmd);
    if a <= b then b + 1 - a else 0
  }

  /** Pages written by the accepted commands. */
  ghost function HostPages(k: Params, cmds: seq<WriteCmd>): nat
    requires k.np >= 1 && k.secsPerPg >= 1
    decreases |cmds|
  {
    if cmds == [] then 0
    else (if Accepted(k, cmds[0]) then PageCount(k, cmds[0]) else 0) + HostPages(k, cmds[1..])
  }

  lemma {:induction false} OpSumsConcat(a: seq<Op>, b: seq<Op>)
    ensures OpBytes(a + b) == OpBytes(a) + OpBytes(b) && OpPages(a + b) == OpPages(a) + OpPages(b)
    decreases |a|
  {
    if a == [] {
      assert a + b == b;
    } else {
      assert (a + b)[1..] == a[1..] + b;
      OpSumsConcat(a[1..], b);
    }
  }

  lemma {:induction false} PageOpsSums(k: Params, lpn: nat, end: nat, ruh: nat, data: int)
    requires k.np >= 1
    ensures OpBytes(PageOps(k, lpn, end, ruh, data)) == 0
    ensures OpPages(PageOps(k, lpn, end, ruh, data)) == if lpn <= end then end + 1 - lpn else 0
    decreases end + 1 - lpn
  {
    if lpn <= end {
      PageOpsSums(k, lpn + 1, end, ruh, data);
      OpSumsConcat([PageOp(k, lpn, ruh, data)], PageOps(k, lpn + 1, end, ruh, data));
    }
  }

  lemma CmdSums(k: Params, d: Device, cmd: WriteCmd)
    requires DevShape(k, d)
    ensures OpBytes(CmdOps(k, d, cmd)) == if Accepted(k, cmd) then Bytes(k, cmd) else 0
    ensures OpPages(CmdOps(k, d, cmd)) == if Accepted(k, cmd) then PageCount(k, cmd) else 0
  {
    if Accepted(k, cmd) {
      var note, count := Note(NoteUse(d, cmd).attr, d.ctx.emitted), Count(Bytes(k, cmd));
      var pages := PageOps(k, StartLpn(k, cmd), EndLpn(k, cmd), RuhOf(cmd), cmd.data);
      OpSumsConcat([note, count], pages);
      PageOpsSums(k, StartLpn(k, cmd), EndLpn(k, cmd), RuhOf(cmd), cmd.data);
      assert [note, count][1..] == [count];
      assert OpBytes([count]) == Bytes(k, cmd) && OpPages([count]) == 0;
    } else {
      var ops := CmdOps(k, d, cmd);
      if ops != [] {
        assert ops[1..] == [];
      }
    }
  }

  lemma {:induction false} RunSums(k: Params, d: Device, cmds: seq<WriteCmd>)
    requires DevShape(k, d) && Run(k, d, cmds).Ok?
    ensures OpBytes(RunOps(k, d, cmds)) == HostBytes(k, cmds)
    ensures OpPages(RunOps(k, d, cmds)) == HostPages(k, cmds)
    decreases |cmds|
  {
    if cmds != [] {
      CmdSums(k, d, cmds[0]);
      var d1 := FdpWrite(k, d, cmds[0]).value.0;
      RunSums(k, d1, cmds[1..]);
      OpSumsConcat(CmdOps(k, d, cmds[0]), RunOps(k, d1, cmds[1..]));
    }
  }

  lemma StartWrittenZero(k: Params)
    requires ParamsOk(k)
    ensures DevWritten(Start(k)) == 0
  {
    NoneWritten(k.c, Init(k.c).lines);
    SumBounds(WrittenOf(Start(k).parts), 0, 0);
  }

  lemma {:induction false} NoneWritten(c: Config, lines: seq<Line>)
    requires forall l :: 0 <= l < |lines| ==> WrittenOffs(lines[l].pages) == {}
    ensures Written(lines, -1) == 0
    decreases |lines|
  {
    if lines != [] {
      NoneWritten(c, lines[..|lines| - 1]);
    }
  }

  /** The statistics of every run: the host counter is the accepted bytes; the media
      counter exceeds it by exactly the pages GC copied; the erase counter is the bytes of
      the collected lines; and programmed minus erased pages are the pages not FREE. */
  lemma RunAccounted(k: Params, cmds: seq<WriteCmd>)
    requires CountsOk(k) && Run(k, Start(k), cmds).Ok?
    ensures
      var d := Run(k, Start(k), cmds).value;
      var copies, gcs := GcCopies(k, cmds), Collections(k, cmds);
      && d.ctx.hbmw == HostBytes(k, cmds)
      && d.ctx.mbmw - d.ctx.hbmw == copies * k.c.pgsz
      && d.ctx.mbe == gcs * (k.c.p * k.c.pgsz)
      && DevWritten(d) == HostPages(k, cmds) + copies - gcs * k.c.p
      && copies <= gcs * (k.c.p - 1) && gcs <= HostPages(k, cmds)
  {
    hide Run, DoAll, OpsCopies, OpsGcs, RunOps, DevWritten, HostBytes, HostPages, OpBytes, OpPages, Accounted,
         DevInv;
    var d := Start(k);
    StartInv(k);
    RunIsOps(k, d, cmds);
    RunSums(k, d, cmds);
    DoAllAccounted(k, d, RunOps(k, d, cmds));
    StartWrittenZero(k);
    StartCounters(k);
    AccountedTotals(k, d, Run(k, d, cmds).value, HostBytes(k, cmds), HostPages(k, cmds),
                    GcCopies(k, cmds), Collections(k, cmds));
  }

  lemma StartCounters(k: Params)
    requires ParamsOk(k)
    ensures Start(k).ctx.hbmw == 0 && Start(k).ctx.mbmw == 0 && Start(k).ctx.mbe == 0
  {
  }

  /** The totals as products. */
  lemma AccountedTotals(k: Params, d: Device, d1: Device, bytes: nat, pages: nat, copies: nat, gcs: nat)
    requires Accounted(k, d, d1, bytes, pages, copies, gcs) && k.c.p >= 1
    requires d.ctx.hbmw == 0 && d.ctx.mbmw == 0 && d.ctx.mbe == 0 && DevWritten(d) == 0
    ensures d1.ctx.hbmw == bytes && d1.ctx.mbmw - d1.ctx.hbmw == copies * k.c.pgsz
    ensures d1.ctx.mbe == gcs * (k.c.p * k.c.pgsz)
    ensures DevWritten(d1) == pages + copies - gcs * k.c.p
    ensures copies <= gcs * (k.c.p - 1) && gcs <= pages
  {
    hide DevWritten;
    TimesIsProduct(copies, k.c.pgsz);
    TimesIsProduct(k.c.p, k.c.pgsz);
    TimesIsProduct(gcs, LineBytes(k.c));
    TimesIsProduct(gcs, k.c.p);
    hide Times;
    LessOnce(gcs, k.c.p);
  }

  lemma LessOnce(g: nat, p: nat)
    requires p >= 1
    ensures g * (p - 1) == g * p - g
  {
  }

  // ---------------------------------------------------------------- page-aligned commands

  ghost predicate Aligned(k: Params, cmd: WriteCmd)
    requires k.secsPerPg >= 1
  {
    cmd.slba % k.secsPerPg == 0 && (cmd.slba + cmd.length + 1) % k.secsPerPg == 0
  }

  /** Sectors s..e lie in pages s/n..e/n and fill them exactly when both ends align. */
  lemma SectorsFill(s: nat, e: nat, n: nat)
    requires n >= 1 && s <= e
    ensures s / n <= e / n
    ensures e + 1 - s <= (e / n + 1 - s / n) * n
    ensures e + 1 - s == (e / n + 1 - s / n) * n <==> s % n == 0 && (e + 1) % n == 0
  {
    DivMonotone(s, e, n);
    var a, b := s / n, e / n;
    SectorsRoom(s, e, n, a, b, s % n, e % n);
    EndAligned(e, n);
  }

  lemma SectorsRoom(s: nat, e: nat, n: nat, a: nat, b: nat, rs: nat, re: nat)
    requires s == a * n + rs && e == b * n + re && rs < n && re < n
    ensures (b + 1 - a) * n - (e + 1 - s) == rs + (n - 1 - re)
  {
    assert (b + 1 - a) * n == b * n + n - a * n;
  }

  lemma EndAligned(e: nat, n: nat)
    requires n >= 1
    ensures (e + 1) % n == 0 <==> e % n == n - 1
  {
    var b, re := e / n, e % n;
    if re == n - 1 {
      assert e + 1 == (b + 1) * n + 0;
      DivModUnique(e + 1, n, b + 1, 0);
    } else {
      DivModUnique(e + 1, n, b, re + 1);
    }
  }

  /** A command's bytes never exceed its pages, and match them exactly when it is aligned. */
  lemma CommandFill(k: Params, cmd: WriteCmd)
    requires k.secsPerPg >= 1 && k.lbaSize >= 1 && k.c.pgsz == k.secsPerPg * k.lbaSize
    ensures Bytes(k, cmd) <= PageCount(k, cmd) * k.c.pgsz
    ensures Bytes(k, cmd) == PageCount(k, cmd) * k.c.pgsz <==> Aligned(k, cmd)
  {
    var n := k.secsPerPg;
    SectorsFill(cmd.slba, cmd.slba + cmd.length, n);
    var sectors, room := cmd.length + 1, PageCount(k, cmd) * n;
    assert PageCount(k, cmd) * k.c.pgsz == room * k.lbaSize;
    Scale(sectors, room, k.lbaSize);
  }

  lemma Scale(a: nat, b: nat, z: nat)
    requires z >= 1 && a <= b
    ensures a * z <= b * z
    ensures a * z == b * z <==> a == b
  {
    if a < b {
      assert b * z == a * z + (b - a) * z;
      assert (b - a) * z >= 1;
    }
  }

  ghost predicate AllAligned(k: Params, cmds: seq<WriteCmd>)
    requires k.np >= 1 && k.secsPerPg >= 1
  {
    forall j :: 0 <= j < |cmds| && Accepted(k, cmds[j]) ==> Aligned(k, cmds[j])
  }

  lemma {:induction false} RunFill(k: Params, cmds: seq<WriteCmd>)
    requires k.np >= 1 && k.secsPerPg >= 1 && k.lbaSize >= 1 && k.c.pgsz == k.secsPerPg * k.lbaSize
    ensures HostBytes(k, cmds) <= HostPages(k, cmds) * k.c.pgsz
    ensures HostBytes(k, cmds) == HostPages(k, cmds) * k.c.pgsz <==> AllAligned(k, cmds)
    decreases |cmds|
  {
    if cmds != [] {
      var rest := cmds[1..];
      CommandFill(k, cmds[0]);
      RunFill(k, rest);
      var accepted := Accepted(k, cmds[0]);
      var p0: nat, b0: nat := if accepted then PageCount(k, cmds[0]) else 0, if accepted then Bytes(k, cmds[0]) else 0;
      FillAdds(b0, p0, HostBytes(k, rest), HostPages(k, rest), k.c.pgsz);
      AlignedSplits(k, cmds);
    }
  }

  lemma FillAdds(b: nat, p: nat, b1: nat, p1: nat, z: nat)
    requires b <= p * z && b1 <= p1 * z
    ensures b + b1 <= (p + p1) * z
    ensures b + b1 == (p + p1) * z <==> b == p * z && b1 == p1 * z
  {
    assert (p + p1) * z == p * z + p1 * z;
  }

  lemma AlignedSplits(k: Params, cmds: seq<WriteCmd>)
    requires k.np >= 1 && k.secsPerPg >= 1 && cmds != []
    ensures AllAligned(k, cmds) <==> (Accepted(k, cmds[0]) ==> Aligned(k, cmds[0])) && AllAligned(k, cmds[1..])
  {
    var rest := cmds[1..];
    assert forall j :: 0 <= j < |rest| ==> rest[j] == cmds[j + 1];
    assert forall j :: 1 <= j < |cmds| ==> cmds[j] == rest[j - 1];
  }

  /** The unwritten remainder: from the four totals alone. */
  lemma Balance(h: int, pages: int, copies: int, gcs: int, p: int, z: int, m: int, e: int, w: int)
    requires m == h + copies * z && e == gcs * (p * z) && w == pages + copies - gcs * p
    ensures m - e == w * z + (h - pages * z)
  {
    assert w * z == pages * z + copies * z - (gcs * p) * z;
    assert gcs * (p * z) == (gcs * p) * z;
  }

  lemma Amplification(h: int, pages: nat, copies: nat, gcs: nat, p: nat, z: nat, m: int)
    requires m == h + copies * z && h == pages * z && copies <= gcs * (p - 1) && gcs <= pages && p >= 1
    ensures m <= p * h
  {
    MulMonotone(gcs, pages, p - 1);
    MulMonotone(copies, pages * (p - 1), z);
    assert (pages * (p - 1)) * z == (p - 1) * (pages * z);
    assert p * h == (p - 1) * h + h;
  }

  /** Media written minus media erased is the space in use exactly when every accepted
      command is page-aligned, and write amplification then stays within a line's pages. */
  lemma MediaBalance(k: Params, cmds: seq<WriteCmd>)
    requires CountsOk(k) && k.lbaSize >= 1 && k.c.pgsz == k.secsPerPg * k.lbaSize
    requires Run(k, Start(k), cmds).Ok?
    ensures
      var d := Run(k, Start(k), cmds).value;
      && (d.ctx.mbmw - d.ctx.mbe == DevWritten(d) * k.c.pgsz <==> AllAligned(k, cmds))
      && (AllAligned(k, cmds) ==> d.ctx.mbmw <= k.c.p * d.ctx.hbmw)
  {
    var d := Run(k, Start(k), cmds).value;
    RunAccounted(k, cmds);
    var copies, gcs := GcCopies(k, cmds), Collections(k, cmds);
    RunFill(k, cmds);
    var h, pages := d.ctx.hbmw, HostPages(k, cmds);
    Balance(h, pages, copies, gcs, k.c.p, k.c.pgsz, d.ctx.mbmw, d.ctx.mbe, DevWritten(d));
    if AllAligned(k, cmds) {
      Amplification(h, pages, copies, gcs, k.c.p, k.c.pgsz, d.ctx.mbmw);
    }
  }
}

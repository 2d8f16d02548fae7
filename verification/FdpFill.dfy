/** The working-set hypothesis of FreeLinesSuffice cannot be dropped: write commands that
    fill the lines of one partition through one handle and then rewrite run out of free
    lines. */
module FdpFill {
  import opened Common
  import opened Finite
  import opened FtlModel
  import opened FtlInv
  import opened FtlGc
  import opened FtlSpace
  import opened FtlFill
  import opened FdpDevice
  import opened FdpTheorems

  /** A placement write of the first sector of page m of partition 0. */
  function PageCmd(k: Params, ruh: nat, m: nat): (r: WriteCmd) {
    WriteCmd((m * k.np) * k.secsPerPg, 0, DIRECTIVE_PLACEMENT, ruh, 1, true, 0)
  }

  function PageCmds(k: Params, ruh: nat, lpns: seq<nat>): (r: seq<WriteCmd>)
    ensures |r| == |lpns|
  {
    if lpns == [] then [] else [PageCmd(k, ruh, lpns[0])] + PageCmds(k, ruh, lpns[1..])
  }

  lemma PageCmdWrites(k: Params, ruh: nat, m: nat)
    requires k.np >= 1 && k.secsPerPg >= 1
    ensures
      var cmd := PageCmd(k, ruh, m);
      && StartLpn(k, cmd) == EndLpn(k, cmd) == m * k.np
      && (m * k.np) % k.np == 0 && (m * k.np) / k.np == m
      && Placed(cmd) && RuhOf(cmd) == ruh
  {
    DivModUnique((m * k.np) * k.secsPerPg, k.secsPerPg, m * k.np, 0);
    DivModUnique(m * k.np, k.np, m, 0);
  }

  /** The context in which the command's page is written. */
  ghost function Charged(k: Params, d: Device, cmd: WriteCmd): Context {
    Account(d, Bytes(k, cmd)).ctx
  }

  lemma {:induction false} OneLpn(k: Params, d: Device, lpn: nat, m: nat, ruh: nat, data: int)
    requires DevShape(k, d) && lpn % k.np == 0 && lpn / k.np == m && m < k.c.ttPgs
    ensures WriteRange(k, d, lpn, lpn, ruh, data) == WriteAt(k, d, 0, m, ruh, data)
  {
    hide WriteAt;
    var r := WriteAt(k, d, 0, m, ruh, data);
    if r.Ok? {
      assert WriteRange(k, r.value, lpn + 1, lpn, ruh, data) == Ok(r.value);
    }
  }

  /** The command is one page write on partition 0. */
  lemma PageCmdOutcome(k: Params, d: Device, ruh: nat, m: nat)
    requires DevShape(k, d) && ruh < k.c.n && m < k.c.ttPgs
    ensures
      var cmd := PageCmd(k, ruh, m);
      var s := d.parts[0].(ctx := Charged(k, d, cmd));
      var r, o := FdpWrite(k, d, cmd), WritePage(k.c, s, m, ruh, 0);
      && Shape(k.c, s)
      && (o.Ok? ==> r.Ok? && r.value.0.parts[0] == o.value)
      && (o.NoFreeLine? ==> r.NoFreeLine?)
  {
    hide WritePage, Shape, Basic, WriteRange, WriteAt, FdpWrite, PageCmd;
    var cmd := PageCmd(k, ruh, m);
    PageCmdWrites(k, ruh, m);
    PageCmdPlaced(k, ruh, m);
    var d1 := Account(NoteUse(d, cmd), Bytes(k, cmd));
    AcceptedOutcome(k, d, cmd, m * k.np);
    OneLpn(k, d1, m * k.np, m, ruh, 0);
    FirstPart(k, d, d1, cmd, m, ruh);
  }

  lemma PageCmdPlaced(k: Params, ruh: nat, m: nat)
    ensures PageCmd(k, ruh, m).bufferOk && PageCmd(k, ruh, m).data == 0 && PageCmd(k, ruh, m).dspec == ruh
  {
  }

  /** An accepted placement command that covers the single page lpn. */
  lemma AcceptedOutcome(k: Params, d: Device, cmd: WriteCmd, lpn: nat)
    requires DevShape(k, d) && Placed(cmd) && cmd.dspec < k.c.n && cmd.bufferOk
    requires StartLpn(k, cmd) == EndLpn(k, cmd) == lpn && lpn / k.np < k.c.ttPgs
    ensures DevShape(k, Account(NoteUse(d, cmd), Bytes(k, cmd)))
    ensures
      var r := FdpWrite(k, d, cmd);
      var o := WriteRange(k, Account(NoteUse(d, cmd), Bytes(k, cmd)), lpn, lpn, cmd.dspec, cmd.data);
      (o.Ok? ==> r.Ok? && r.value.0 == o.value) && (o.NoFreeLine? ==> r.NoFreeLine?)
  {
    hide WriteRange, Shape, Basic, StartLpn, EndLpn, Bytes;
  }

  lemma FirstPart(k: Params, d: Device, d1: Device, cmd: WriteCmd, m: nat, ruh: nat)
    requires DevShape(k, d) && m < k.c.ttPgs && Placed(cmd) && cmd.dspec < k.c.n
    requires d1 == Account(NoteUse(d, cmd), Bytes(k, cmd)) && DevShape(k, d1)
    ensures
      var s := d.parts[0].(ctx := Charged(k, d, cmd));
      && Shape(k.c, s)
      && var r, o := WriteAt(k, d1, 0, m, ruh, 0), WritePage(k.c, s, m, ruh, 0);
      (o.Ok? ==> r.Ok? && r.value.parts[0] == o.value) && (o.NoFreeLine? ==> r.NoFreeLine?)
  {
    hide WritePage, Bytes;
    assert Shape(k.c, d.parts[0]);
  }

  /** One more line of writes, of any pages, and the frontier has nowhere to go. */
  lemma {:induction false} LastLine(k: Params, d: Device, ruh: nat, lpns: seq<nat>)
    requires DevShape(k, d) && Core(k.c, d.parts[0], Idle, -1) && ruh < k.c.n && d.parts[0].free == []
    requires forall j :: 0 <= j < |lpns| ==> lpns[j] < k.c.ttPgs
    requires |lpns| == k.c.p - d.parts[0].wp[ruh].off == d.parts[0].credits
    ensures Run(k, d, PageCmds(k, ruh, lpns)).NoFreeLine?
    decreases |lpns|
  {
    hide LedgerOk, CountersOk, HeapOk, LinesOk, SweptOk, MapOk, BlocksOk, WritePage, FdpWrite, Basic;
    var m := lpns[0];
    var cmd := PageCmd(k, ruh, m);
    var s := d.parts[0].(ctx := Charged(k, d, cmd));
    CoreIgnores(k.c, d.parts[0], s, Idle, -1);
    PageCmdOutcome(k, d, ruh, m);
    RunFirst(k, d, cmd, PageCmds(k, ruh, lpns[1..]));
    if s.wp[ruh].off + 1 < k.c.p {
      InsideWrite(k.c, s, ruh, m);
      LastLine(k, FdpWrite(k, d, cmd).value.0, ruh, lpns[1..]);
    } else {
      CornerWrite(k.c, s, ruh, m);
    }
  }

  lemma RunFirst(k: Params, d: Device, cmd: WriteCmd, rest: seq<WriteCmd>)
    requires DevShape(k, d)
    ensures
      var r, r1 := Run(k, d, [cmd] + rest), FdpWrite(k, d, cmd);
      if r1.Ok? then r == Run(k, r1.value.0, rest) else (r1.NoFreeLine? ==> r.NoFreeLine?)
  {
    hide FdpWrite;
    assert ([cmd] + rest)[1..] == rest;
  }

  /** All but the last line of writes are of distinct pages outside mapped. */
  ghost predicate Fresh(c: Config, mapped: set<nat>, lpns: seq<nat>) {
    && (forall j :: 0 <= j < |lpns| - c.p ==> lpns[j] !in mapped)
    && (forall i, j :: 0 <= i < j < |lpns| - c.p ==> lpns[i] != lpns[j])
  }

  lemma FreshRest(c: Config, mapped: set<nat>, lpns: seq<nat>)
    requires Fresh(c, mapped, lpns) && |lpns| > c.p
    ensures lpns[0] !in mapped && Fresh(c, mapped + {lpns[0]}, lpns[1..])
  {
  }

  lemma {:induction false} FillRunsOut(k: Params, d: Device, ruh: nat, q: nat, o: nat, mapped: set<nat>, lpns: seq<nat>)
    requires DevShape(k, d) && Filling(k.c, d.parts[0], ruh, q, o, mapped)
    requires forall j :: 0 <= j < |lpns| ==> lpns[j] < k.c.ttPgs
    requires |lpns| == FillLeft(k.c, q, o) && (q == k.c.lines - k.c.n - 1 ==> o == 0)
    requires Fresh(k.c, mapped, lpns)
    ensures Run(k, d, PageCmds(k, ruh, lpns)).NoFreeLine?
    decreases |lpns|
  {
    hide LedgerOk, CountersOk, HeapOk, LinesOk, SweptOk, MapOk, BlocksOk, FillLeft, NextLine, NextOff,
         WritePage, FdpWrite, Basic;
    var c := k.c;
    if q == c.lines - c.n - 1 {
      FillLeftLast(c);
      LastLine(k, d, ruh, lpns);
    } else {
      FillRoom(c, q, o);
      var m, rest := lpns[0], lpns[1..];
      var cmd := PageCmd(k, ruh, m);
      var s := d.parts[0].(ctx := Charged(k, d, cmd));
      FreshRest(c, mapped, lpns);
      FillingIgnores(c, d.parts[0], s, ruh, q, o, mapped);
      FillStep(c, s, ruh, q, o, mapped, m);
      FillLeftSteps(c, q, o);
      PageCmdOutcome(k, d, ruh, m);
      RunFirst(k, d, cmd, PageCmds(k, ruh, rest));
      FillRunsOut(k, FdpWrite(k, d, cmd).value.0, ruh, NextLine(c, q, o), NextOff(c, o), mapped + {m}, rest);
    }
  }

  /** Commands that write lines - N - 1 lines of distinct pages of one partition through one
      handle, and then one more line of pages already mapped or not, crash on a missing free
      line. */
  lemma FillThenRewriteRunsOut(k: Params, ruh: nat, lpns: seq<nat>)
    requires ParamsOk(k) && ruh < k.c.n && |lpns| == (k.c.lines - k.c.n) * k.c.p
    requires forall j :: 0 <= j < |lpns| ==> lpns[j] < k.c.ttPgs
    requires forall i, j :: 0 <= i < j < |lpns| - k.c.p ==> lpns[i] != lpns[j]
    ensures Run(k, Start(k), PageCmds(k, ruh, lpns)).NoFreeLine?
  {
    hide Filling, Run, ConfigOk;
    InitFilling(k.c, ruh);
    FillRunsOut(k, Start(k), ruh, 0, 0, {}, lpns);
  }

  // ---------------------------------------------------------------- how many pages that takes

  lemma PageCmdCovers(k: Params, ruh: nat, m: nat, x: nat)
    requires k.np >= 1 && k.secsPerPg >= 1 && ruh < k.c.n && m < k.c.ttPgs
    ensures Covers(k, PageCmd(k, ruh, m), x) <==> x == m * k.np
  {
    PageCmdWrites(k, ruh, m);
  }

  /** The commands write exactly the pages they are made for. */
  lemma {:induction false} PageCmdsWrite(k: Params, ruh: nat, lpns: seq<nat>, x: nat)
    requires k.np >= 1 && k.secsPerPg >= 1 && ruh < k.c.n
    requires forall j :: 0 <= j < |lpns| ==> lpns[j] < k.c.ttPgs
    ensures LastWriter(k, PageCmds(k, ruh, lpns), x).Some? <==> exists j :: 0 <= j < |lpns| && x == lpns[j] * k.np
    decreases |lpns|
  {
    hide Covers, PageCmd;
    if lpns != [] {
      var rest := lpns[1..];
      var cmds := PageCmds(k, ruh, lpns);
      assert cmds[0] == PageCmd(k, ruh, lpns[0]) && cmds[1..] == PageCmds(k, ruh, rest);
      PageCmdCovers(k, ruh, lpns[0], x);
      PageCmdsWrite(k, ruh, rest, x);
      if j :| 0 <= j < |lpns| && x == lpns[j] * k.np && j > 0 {
        assert x == rest[j - 1] * k.np;
      }
      if j :| 0 <= j < |rest| && x == rest[j] * k.np {
        assert x == lpns[j + 1] * k.np;
      }
    }
  }

  lemma SamePage(n: nat, a: nat, b: nat, i: nat)
    requires i < n && b * n + i == a * n
    ensures i == 0 && a == b
  {
    DivModUnique(a * n, n, a, 0);
    DivModUnique(b * n + i, n, b, i);
  }

  lemma PageCmdsTouch(k: Params, ruh: nat, lpns: seq<nat>, i: nat)
    requires k.np >= 1 && k.secsPerPg >= 1 && ruh < k.c.n && i < k.np
    requires forall j :: 0 <= j < |lpns| ==> lpns[j] < k.c.ttPgs
    ensures Touched(k, PageCmds(k, ruh, lpns), i) == if i == 0 then Elements(lpns) else {}
  {
    hide LastWriter, PageCmds;
    var cmds := PageCmds(k, ruh, lpns);
    forall m: nat | m < k.c.ttPgs
      ensures LastWriter(k, cmds, Global(k, i, m)).Some? <==> i == 0 && m in Elements(lpns)
    {
      PageCmdsWrite(k, ruh, lpns, Global(k, i, m));
      if j :| 0 <= j < |lpns| && Global(k, i, m) == lpns[j] * k.np {
        SamePage(k.np, lpns[j], m, i);
      }
      if i == 0 && m in Elements(lpns) {
        var j :| 0 <= j < |lpns| && lpns[j] == m;
        assert Global(k, 0, m) == lpns[j] * k.np;
      }
    }
  }

  /** Pages 0, 1, ..., w - 1, and then the first p of them again. */
  ghost function Twice(w: nat, p: nat): (r: seq<nat>)
    requires p <= w
    ensures |r| == w + p && forall j :: 0 <= j < w + p ==> r[j] == if j < w then j else j - w
  {
    seq(w + p, (j: nat) => if j < w then j else j - w)
  }

  lemma TwiceElements(w: nat, p: nat)
    requires p <= w
    ensures Elements(Twice(w, p)) == Range(w)
  {
    var l := Twice(w, p);
    forall x | x in Range(w)
      ensures x in Elements(l)
    {
      assert l[x] == x;
    }
  }

  lemma LinesOfPages(a: nat, p: nat)
    ensures (a + 1) * p == a * p + p
    ensures a >= 1 ==> p <= a * p
  {
    if a >= 1 {
      MulMonotone(1, a, p);
    }
  }

  lemma FillsExactly(k: Params, w: nat) returns (cmds: seq<WriteCmd>)
    requires ParamsOk(k) && k.c.p <= w <= k.c.ttPgs && w + k.c.p == (k.c.lines - k.c.n) * k.c.p && k.c.n >= 1
    ensures |Touched(k, cmds, 0)| == w
    ensures forall i: nat :: 0 < i < k.np ==> Touched(k, cmds, i) == {}
    ensures Run(k, Start(k), cmds).NoFreeLine?
  {
    hide Touched, PageCmds, Run, ConfigOk, Elements, Start;
    var lpns := Twice(w, k.c.p);
    TwiceElements(w, k.c.p);
    cmds := PageCmds(k, 0, lpns);
    FillThenRewriteRunsOut(k, 0, lpns);
    forall i: nat | i < k.np
      ensures Touched(k, cmds, i) == if i == 0 then Range(w) else {}
    {
      PageCmdsTouch(k, 0, lpns, i);
    }
  }

  /** The bound on distinct pages cannot be raised to (tt_lines - N - 1) * pgs_per_line: on
      every device with a spare line and that many pages, some run writes exactly so many
      pages, all of one partition, and ends without a free line. */
  lemma BoundCannotReach(k: Params) returns (cmds: seq<WriteCmd>)
    requires ParamsOk(k) && k.c.lines >= k.c.n + 2 && (k.c.lines - k.c.n - 1) * k.c.p <= k.c.ttPgs
    ensures |Touched(k, cmds, 0)| == (k.c.lines - k.c.n - 1) * k.c.p
    ensures forall i: nat :: 0 < i < k.np ==> Touched(k, cmds, i) == {}
    ensures Run(k, Start(k), cmds).NoFreeLine?
  {
    hide Touched, Run, ConfigOk, Start;
    ConfigBasic(k);
    LinesOfPages(k.c.lines - k.c.n - 1, k.c.p);
    cmds := FillsExactly(k, (k.c.lines - k.c.n - 1) * k.c.p);
  }

  lemma ConfigBasic(k: Params)
    requires ParamsOk(k)
    ensures Basic(k.c)
  {
  }
}

/** The statistics of a run do not depend on the names of the reclaim unit handles. */
module FdpSymmetry {
  import opened Common
  import opened Finite
  import opened FtlModel
  import opened FtlSymmetry
  import opened FdpDevice

  /** A permutation of the handles. */
  ghost predicate HandlesOk(c: Config, sigma: seq<nat>) {
    |sigma| == c.n && Injection(sigma, c.n)
  }

  /** Initially handle i owns line i, so lines are renamed as the handles are. */
  ghost function Lift(c: Config, sigma: seq<nat>): Renaming
    requires HandlesOk(c, sigma) && c.n <= c.lines
  {
    Renaming(sigma + [c.n], seq(c.lines, (l: nat) => if l < c.n then sigma[l] else l))
  }

  lemma LiftOk(c: Config, sigma: seq<nat>)
    requires HandlesOk(c, sigma) && Basic(c)
    ensures RenamingOk(c, Lift(c, sigma))
  {
  }

  ghost predicate DevSim(k: Params, r: Renaming, d: Device, d1: Device) {
    && DevShape(k, d) && DevShape(k, d1) && RenamingOk(k.c, r) && SameStats(d.ctx, d1.ctx)
    && forall i :: 0 <= i < k.np ==> Sim(k.c, r, d.parts[i], d1.parts[i])
  }

  lemma SimInit(c: Config, sigma: seq<nat>)
    requires HandlesOk(c, sigma) && Basic(c)
    ensures Sim(c, Lift(c, sigma), Init(c), Init(c))
  {
    LiftOk(c, sigma);
    var r, s := Lift(c, sigma), Init(c);
    assert SimWp(c, r, s.wp, s.wp);
    assert SimLines(c, r, s.lines, s.lines) by {
      forall l | 0 <= l < c.lines
        ensures s.lines[r.pi[l]] == RenLine(c, r, s.lines[l])
      {
        assert FreshLine(c, Tag(c, r.pi[l])) == RenLine(c, r, FreshLine(c, Tag(c, l)));
      }
    }
  }

  lemma SimWriteAt(k: Params, r: Renaming, d: Device, d1: Device, i: nat, m: nat, ruh: nat, data: int)
    requires DevSim(k, r, d, d1) && i < k.np && m < k.c.ttPgs && ruh < k.c.n
    ensures r.sigma[ruh] < k.c.n
    ensures
      var o, o1 := WriteAt(k, d, i, m, ruh, data), WriteAt(k, d1, i, m, r.sigma[ruh], data);
      (o.Ok? <==> o1.Ok?) && (o.BugOn? <==> o1.BugOn?) && (o.Ok? ==> DevSim(k, r, o.value, o1.value))
  {
    hide WritePage;
    var s, s1 := d.parts[i].(ctx := d.ctx), d1.parts[i].(ctx := d1.ctx);
    assert Sim(k.c, r, s, s1) by {
      assert Sim(k.c, r, d.parts[i], d1.parts[i]);
    }
    SimWrite(k.c, r, s, s1, m, ruh, data);
  }

  ghost predicate SimDevices(k: Params, r: Renaming, o: Outcome<Device>, o1: Outcome<Device>) {
    (o.Ok? <==> o1.Ok?) && (o.BugOn? <==> o1.BugOn?) && (o.Ok? ==> DevSim(k, r, o.value, o1.value))
  }

  lemma {:induction false} SimRange(k: Params, r: Renaming, d: Device, d1: Device, lpn: nat, end: nat,
                                    ruh: nat, data: int)
    requires DevSim(k, r, d, d1) && end / k.np < k.c.ttPgs && ruh < k.c.n
    ensures SimDevices(k, r, WriteRange(k, d, lpn, end, ruh, data), WriteRange(k, d1, lpn, end, r.sigma[ruh], data))
    decreases end + 1 - lpn
  {
    hide WriteAt, Sim;
    if lpn <= end {
      DivMonotone(lpn, end, k.np);
      var i, m := lpn % k.np, lpn / k.np;
      SimWriteAt(k, r, d, d1, i, m, ruh, data);
      if WriteAt(k, d, i, m, ruh, data).Ok? {
        SimRange(k, r, WriteAt(k, d, i, m, ruh, data).value, WriteAt(k, d1, i, m, r.sigma[ruh], data).value,
                 lpn + 1, end, ruh, data);
      }
    }
  }

  /** The command with its handle renamed; a command without a placement directive uses
      handle 0 and becomes one that names the handle 0 is renamed to. */
  ghost function RenCmd(sigma: seq<nat>, cmd: WriteCmd): WriteCmd
    requires |sigma| >= 1
  {
    if Placed(cmd) && cmd.dspec >= |sigma| then cmd
    else cmd.(dtype := DIRECTIVE_PLACEMENT, dspec := sigma[RuhOf(cmd)])
  }

  ghost function RenCmds(sigma: seq<nat>, cmds: seq<WriteCmd>): seq<WriteCmd>
    requires |sigma| >= 1
  {
    seq(|cmds|, j requires 0 <= j < |cmds| => RenCmd(sigma, cmds[j]))
  }

  lemma SimFdpWrite(k: Params, sigma: seq<nat>, d: Device, d1: Device, cmd: WriteCmd)
    requires HandlesOk(k.c, sigma) && Basic(k.c) && DevSim(k, Lift(k.c, sigma), d, d1)
    ensures
      var o, o1 := FdpWrite(k, d, cmd), FdpWrite(k, d1, RenCmd(sigma, cmd));
      && (o.Ok? <==> o1.Ok?) && (o.BugOn? <==> o1.BugOn?)
      && (o.Ok? ==> DevSim(k, Lift(k.c, sigma), o.value.0, o1.value.0) && o.value.1 == o1.value.1)
  {
    hide WriteRange, Sim;
    var r, cmd1 := Lift(k.c, sigma), RenCmd(sigma, cmd);
    assert Addressable(k, cmd1) == Addressable(k, cmd);
    if Addressable(k, cmd) && !(Placed(cmd) && cmd.dspec >= k.c.n) && cmd.bufferOk {
      var a, a1 := Account(NoteUse(d, cmd), Bytes(k, cmd)), Account(NoteUse(d1, cmd1), Bytes(k, cmd1));
      assert DevSim(k, r, a, a1);
      SimRange(k, r, a, a1, StartLpn(k, cmd), EndLpn(k, cmd), RuhOf(cmd), cmd.data);
    }
  }

  lemma {:induction false} SimRun(k: Params, sigma: seq<nat>, d: Device, d1: Device, cmds: seq<WriteCmd>)
    requires HandlesOk(k.c, sigma) && Basic(k.c) && DevSim(k, Lift(k.c, sigma), d, d1)
    ensures SimDevices(k, Lift(k.c, sigma), Run(k, d, cmds), Run(k, d1, RenCmds(sigma, cmds)))
    decreases |cmds|
  {
    hide FdpWrite, Sim;
    if cmds != [] {
      var o := FdpWrite(k, d, cmds[0]);
      SimFdpWrite(k, sigma, d, d1, cmds[0]);
      assert RenCmds(sigma, cmds)[1..] == RenCmds(sigma, cmds[1..]);
      if o.Ok? {
        SimRun(k, sigma, o.value.0, FdpWrite(k, d1, RenCmd(sigma, cmds[0])).value.0, cmds[1..]);
      }
    }
  }

  /** Permuting the handles throughout any trace gives a device that is the same up to the
      names of handles and lines, with the same HBMW, MBMW and MBE, or the same failure.
      It holds of every prefix, hence at every step. */
  lemma HandlesAreSymmetric(k: Params, sigma: seq<nat>, cmds: seq<WriteCmd>)
    requires HandlesOk(k.c, sigma) && Basic(k.c) && k.np >= 1 && k.secsPerPg >= 1
    ensures
      var o, o1 := Run(k, Start(k), cmds), Run(k, Start(k), RenCmds(sigma, cmds));
      && (o.Ok? <==> o1.Ok?) && (o.BugOn? <==> o1.BugOn?)
      && (o.Ok? ==> DevSim(k, Lift(k.c, sigma), o.value, o1.value) && SameStats(o.value.ctx, o1.value.ctx))
  {
    SimInit(k.c, sigma);
    SimRun(k, sigma, Start(k), Start(k), cmds);
  }

  // ---------------------------------------------------------------- the baseline check

  /** The permutation that exchanges handles 0 and h. */
  ghost function Exchange(n: nat, h: nat): (sigma: seq<nat>)
    requires h < n
    ensures |sigma| == n && Injection(sigma, n) && sigma[0] == h
  {
    seq(n, (i: nat) => if i == 0 then h else if i == h then 0 else i)
  }

  ghost function OnHandle(cmd: WriteCmd, h: nat): WriteCmd {
    cmd.(dtype := DIRECTIVE_PLACEMENT, dspec := h)
  }

  /** A workload that places everything on a single handle reproduces the statistics of
      the same workload issued without placement directives. */
  lemma SingleHandleIsBaseline(k: Params, h: nat, cmds: seq<WriteCmd>)
    requires Basic(k.c) && k.np >= 1 && k.secsPerPg >= 1 && h < k.c.n
    requires forall j :: 0 <= j < |cmds| ==> !Placed(cmds[j])
    ensures
      var placed := seq(|cmds|, j requires 0 <= j < |cmds| => OnHandle(cmds[j], h));
      var o, o1 := Run(k, Start(k), cmds), Run(k, Start(k), placed);
      && (o.Ok? <==> o1.Ok?) && (o.BugOn? <==> o1.BugOn?)
      && (o.Ok? ==> SameStats(o.value.ctx, o1.value.ctx))
  {
    var sigma := Exchange(k.c.n, h);
    var placed := seq(|cmds|, j requires 0 <= j < |cmds| => OnHandle(cmds[j], h));
    assert RenCmds(sigma, cmds) == placed;
    HandlesAreSymmetric(k, sigma, cmds);
  }
}

/** What the host learns from the reply to a write command, in every run. */
module FdpReplies {
  import opened Common
  import opened FtlModel
  import opened FdpDevice
  import opened FdpTheorems
  import opened FdpAccounting
  import ReadPath

  /** Logical page x holds one of the sectors of the command. */
  ghost predicate Holds(k: Params, cmd: WriteCmd, x: nat) {
    ReadPath.Touches(cmd.slba, cmd.length, k.secsPerPg, x)
  }

  lemma HoldsIs(k: Params, cmd: WriteCmd, x: nat)
    requires k.secsPerPg >= 1
    ensures Holds(k, cmd, x) <==> StartLpn(k, cmd) <= x <= EndLpn(k, cmd)
  {
    ReadPath.TouchedPages(cmd.slba, cmd.length, k.secsPerPg, x);
  }

  /** A command is within the device exactly when every page that holds a sector of it is. */
  lemma AddressableIff(k: Params, cmd: WriteCmd)
    requires k.np >= 1 && k.secsPerPg >= 1
    ensures Addressable(k, cmd) <==> forall x: nat :: Holds(k, cmd, x) ==> x / k.np < k.c.ttPgs
  {
    hide Holds;
    var a, b := StartLpn(k, cmd), EndLpn(k, cmd);
    DivMonotone(cmd.slba, cmd.slba + cmd.length, k.secsPerPg);
    HoldsIs(k, cmd, b);
    forall x: nat | Holds(k, cmd, x)
      ensures x / k.np <= b / k.np
    {
      HoldsIs(k, cmd, x);
      DivMonotone(x, b, k.np);
    }
  }

  /** Success for a command within the device whose handle, if it names one, exists and for
      which the buffer had room; an invalid field for one within the device that names a
      handle that does not exist; no answer otherwise. */
  lemma ReplyIs(k: Params, d: Device, cmd: WriteCmd)
    requires DevShape(k, d) && FdpWrite(k, d, cmd).Ok?
    ensures
      var reply := FdpWrite(k, d, cmd).value.1;
      var known := cmd.dtype == DIRECTIVE_PLACEMENT ==> cmd.dspec < k.c.n;
      && (reply == Success <==> Addressable(k, cmd) && known && cmd.bufferOk)
      && (reply == InvalidField <==> Addressable(k, cmd) && !known)
      && (reply == Success <==> Accepted(k, cmd))
  {
    hide WriteRange, Shape;
  }

  /** Without success nothing is written and nothing counted. */
  lemma RefusedKeeps(k: Params, d: Device, cmd: WriteCmd)
    requires DevShape(k, d) && FdpWrite(k, d, cmd).Ok? && FdpWrite(k, d, cmd).value.1 != Success
    ensures
      var d1 := FdpWrite(k, d, cmd).value.0;
      d1.parts == d.parts && d1.ctx == d.ctx.(emitted := d1.ctx.emitted)
  {
    hide WriteRange, Shape;
  }

  // ---------------------------------------------------------------- one more command

  lemma {:induction false} RunThen(k: Params, d: Device, cmds: seq<WriteCmd>, cmd: WriteCmd)
    requires DevShape(k, d) && Run(k, d, cmds).Ok?
    ensures
      var r := FdpWrite(k, Run(k, d, cmds).value, cmd);
      r.Ok? ==> Run(k, d, cmds + [cmd]) == Ok(r.value.0)
    decreases |cmds|
  {
    hide FdpWrite, Shape;
    if cmds == [] {
      assert cmds + [cmd] == [cmd] && [cmd][1..] == [];
    } else {
      assert (cmds + [cmd])[1..] == cmds[1..] + [cmd];
      RunThen(k, FdpWrite(k, d, cmds[0]).value.0, cmds[1..], cmd);
    }
  }

  lemma {:induction false} LastWriterThen(k: Params, cmds: seq<WriteCmd>, cmd: WriteCmd, x: nat)
    requires k.np >= 1 && k.secsPerPg >= 1
    ensures LastWriter(k, cmds + [cmd], x) == if Covers(k, cmd, x) then Some(cmd) else LastWriter(k, cmds, x)
    decreases |cmds|
  {
    hide Covers;
    if cmds == [] {
      assert cmds + [cmd] == [cmd] && [cmd][1..] == [];
    } else {
      assert (cmds + [cmd])[1..] == cmds[1..] + [cmd];
      LastWriterThen(k, cmds[1..], cmd, x);
    }
  }

  /** After a run, a command that is answered with success has written its data to exactly the
      pages that hold its sectors; any other reply leaves every page and every counter as it
      was. */
  lemma CommandAnswered(k: Params, cmds: seq<WriteCmd>, cmd: WriteCmd, x: nat)
    requires ParamsOk(k) && Run(k, Start(k), cmds).Ok?
    requires FdpWrite(k, Run(k, Start(k), cmds).value, cmd).Ok?
    ensures
      var d := Run(k, Start(k), cmds).value;
      var d1, reply := FdpWrite(k, d, cmd).value.0, FdpWrite(k, d, cmd).value.1;
      && (reply == Success ==> Reads(k, d1, x) == if Holds(k, cmd, x) then Some(cmd.data) else Reads(k, d, x))
      && (reply != Success ==>
            Reads(k, d1, x) == Reads(k, d, x)
            && d1.ctx.hbmw == d.ctx.hbmw && d1.ctx.mbmw == d.ctx.mbmw && d1.ctx.mbe == d.ctx.mbe)
  {
    hide Run, FdpWrite, Shape, Start, Holds, Reads, LastWriter;
    var d := Run(k, Start(k), cmds).value;
    var r := FdpWrite(k, d, cmd).value;
    ReplyIs(k, d, cmd);
    if r.1 == Success {
      RunThen(k, Start(k), cmds, cmd);
      ReadsLastWrite(k, cmds, x);
      ReadsLastWrite(k, cmds + [cmd], x);
      LastWriterThen(k, cmds, cmd, x);
      HoldsIs(k, cmd, x);
    } else {
      RefusedKeeps(k, d, cmd);
      SameParts(k, d, r.0, x);
    }
  }

  lemma SameParts(k: Params, d: Device, d1: Device, x: nat)
    requires DevShape(k, d) && DevShape(k, d1) && d1.parts == d.parts
    ensures Reads(k, d1, x) == Reads(k, d, x)
  {
  }

  lemma {:induction false} HostBytesThen(k: Params, cmds: seq<WriteCmd>, cmd: WriteCmd)
    requires k.np >= 1 && k.secsPerPg >= 1
    ensures HostBytes(k, cmds + [cmd]) == HostBytes(k, cmds) + if Accepted(k, cmd) then Bytes(k, cmd) else 0
    decreases |cmds|
  {
    hide Accepted, Bytes;
    if cmds == [] {
      assert cmds + [cmd] == [cmd] && [cmd][1..] == [];
    } else {
      assert (cmds + [cmd])[1..] == cmds[1..] + [cmd];
      HostBytesThen(k, cmds[1..], cmd);
    }
  }

  /** HBMW grows by the sectors of the command exactly when it is answered with success. */
  lemma CommandCounted(k: Params, cmds: seq<WriteCmd>, cmd: WriteCmd)
    requires CountsOk(k) && Run(k, Start(k), cmds).Ok?
    requires FdpWrite(k, Run(k, Start(k), cmds).value, cmd).Ok?
    ensures
      var d := Run(k, Start(k), cmds).value;
      var d1, reply := FdpWrite(k, d, cmd).value.0, FdpWrite(k, d, cmd).value.1;
      d1.ctx.hbmw - d.ctx.hbmw == if reply == Success then (cmd.length + 1) * k.lbaSize else 0
  {
    hide Run, FdpWrite, Shape, Start, HostBytes, HostPages, GcCopies, Collections, DevWritten;
    var d := Run(k, Start(k), cmds).value;
    ReplyIs(k, d, cmd);
    RunThen(k, Start(k), cmds, cmd);
    RunAccounted(k, cmds);
    RunAccounted(k, cmds + [cmd]);
    HostBytesThen(k, cmds, cmd);
  }

  // ---------------------------------------------------------------- handle usage

  /** Some command within the device named handle r... */
  ghost predicate Named(k: Params, cmds: seq<WriteCmd>, r: nat)
    requires k.np >= 1 && k.secsPerPg >= 1
  {
    exists j :: 0 <= j < |cmds| && Addressable(k, cmds[j]) && cmds[j].dtype == DIRECTIVE_PLACEMENT && cmds[j].dspec == r
  }

  /** ...or named none. */
  ghost predicate Unnamed(k: Params, cmds: seq<WriteCmd>)
    requires k.np >= 1 && k.secsPerPg >= 1
  {
    exists j :: 0 <= j < |cmds| && Addressable(k, cmds[j]) && cmds[j].dtype != DIRECTIVE_PLACEMENT
  }

  lemma {:induction false} RangeAttr(k: Params, d: Device, lpn: nat, end: nat, ruh: nat, data: int)
    requires DevShape(k, d) && end / k.np < k.c.ttPgs && WriteRange(k, d, lpn, end, ruh, data).Ok?
    ensures WriteRange(k, d, lpn, end, ruh, data).value.attr == d.attr
    decreases end + 1 - lpn
  {
    hide WritePage, Shape;
    if lpn <= end {
      DivMonotone(lpn, end, k.np);
      RangeAttr(k, WriteAt(k, d, lpn % k.np, lpn / k.np, ruh, data).value, lpn + 1, end, ruh, data);
    }
  }

  lemma CommandAttr(k: Params, d: Device, cmd: WriteCmd, r: nat)
    requires DevShape(k, d) && FdpWrite(k, d, cmd).Ok? && r < k.c.n
    ensures FdpWrite(k, d, cmd).value.0.attr[r] ==
      if Named(k, [cmd], r) then ByHost
      else if r == 0 && Unnamed(k, [cmd]) && d.attr[0] == Unused then ByController
      else d.attr[r]
  {
    hide WriteRange, Shape;
    assert [cmd][0] == cmd;
    if Addressable(k, cmd) && RuhOf(cmd) < k.c.n && cmd.bufferOk {
      var d1 := Account(NoteUse(d, cmd), Bytes(k, cmd));
      RangeAttr(k, d1, StartLpn(k, cmd), EndLpn(k, cmd), RuhOf(cmd), cmd.data);
    }
  }

  /** After every run a handle is reported as used by the host exactly if some command within
      the device named it; handle 0 otherwise as used by the controller if some command
      named none; and every other handle as unused. */
  lemma {:induction false} RunAttr(k: Params, cmds: seq<WriteCmd>, r: nat)
    requires ParamsOk(k) && r < k.c.n && Run(k, Start(k), cmds).Ok?
    ensures Run(k, Start(k), cmds).value.attr[r] ==
      if Named(k, cmds, r) then ByHost else if r == 0 && Unnamed(k, cmds) then ByController else Unused
    decreases |cmds|
  {
    if cmds == [] {
    } else {
      hide Run, FdpWrite, Shape, Start, Addressable;
      var n := |cmds| - 1;
      var init, cmd := cmds[..n], cmds[n];
      assert cmds == init + [cmd];
      RunSplit(k, Start(k), init, cmd);
      RunAttr(k, init, r);
      if r == 0 {
        UnnamedThen(k, init, cmd);
      } else {
        RunAttr(k, init, 0);
      }
      NamedThen(k, init, cmd, r);
      CommandAttr(k, Run(k, Start(k), init).value, cmd, r);
    }
  }

  lemma NamedThen(k: Params, cmds: seq<WriteCmd>, cmd: WriteCmd, r: nat)
    requires k.np >= 1 && k.secsPerPg >= 1
    ensures Named(k, cmds + [cmd], r) <==> Named(k, cmds, r) || Named(k, [cmd], r)
  {
    hide Addressable;
    var all := cmds + [cmd];
    assert all[|cmds|] == cmd && [cmd][0] == cmd;
    if Named(k, cmds, r) {
      var j :| 0 <= j < |cmds| && Addressable(k, cmds[j]) && cmds[j].dtype == DIRECTIVE_PLACEMENT && cmds[j].dspec == r;
      assert all[j] == cmds[j];
    }
  }

  lemma UnnamedThen(k: Params, cmds: seq<WriteCmd>, cmd: WriteCmd)
    requires k.np >= 1 && k.secsPerPg >= 1
    ensures Unnamed(k, cmds + [cmd]) <==> Unnamed(k, cmds) || Unnamed(k, [cmd])
  {
    hide Addressable;
    var all := cmds + [cmd];
    assert all[|cmds|] == cmd && [cmd][0] == cmd;
    if Unnamed(k, cmds) {
      var j :| 0 <= j < |cmds| && Addressable(k, cmds[j]) && cmds[j].dtype != DIRECTIVE_PLACEMENT;
      assert all[j] == cmds[j];
    }
  }

  lemma {:induction false} RunSplit(k: Params, d: Device, cmds: seq<WriteCmd>, cmd: WriteCmd)
    requires DevShape(k, d) && Run(k, d, cmds + [cmd]).Ok?
    ensures Run(k, d, cmds).Ok? && FdpWrite(k, Run(k, d, cmds).value, cmd).Ok?
    ensures Run(k, d, cmds + [cmd]).value == FdpWrite(k, Run(k, d, cmds).value, cmd).value.0
    decreases |cmds|
  {
    hide FdpWrite, Shape;
    if cmds == [] {
      assert cmds + [cmd] == [cmd] && [cmd][1..] == [];
    } else {
      assert (cmds + [cmd])[1..] == cmds[1..] + [cmd];
      RunSplit(k, FdpWrite(k, d, cmds[0]).value.0, cmds[1..], cmd);
    }
  }
}

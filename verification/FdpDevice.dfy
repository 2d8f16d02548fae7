/** The namespace: pages striped over partitions, and the write command (fdp_write).

    A write command is a run of small operations: the event or the usage attribute it
    records, the byte count it accounts, and one page write per logical page.  All
    partitions share one endurance-group context. */
module FdpDevice {
  import opened Common
  import opened FtlModel

  datatype Params = Params(
    c: Config,
    np: nat,          // SSD_PARTITIONS
    secsPerPg: nat,
    lbaSize: nat)

  datatype RuhAttr = Unused | ByHost | ByController

  datatype Device = Device(parts: seq<Ftl>, ctx: Context, attr: seq<RuhAttr>)

  /** `length` is the command's 0-based count; `bufferOk` says whether the write buffer
      had room; `data` identifies the contents written. */
  datatype WriteCmd = WriteCmd(
    slba: nat, length: nat, dtype: nat, dspec: nat, nsid: nat, bufferOk: bool, data: int)

  datatype Reply = Success | InvalidField | NotAccepted

  const DIRECTIVE_PLACEMENT: nat := 2

  ghost predicate DevShape(k: Params, d: Device) {
    && Basic(k.c) && k.np >= 1 && k.secsPerPg >= 1
    && |d.parts| == k.np && |d.attr| == k.c.n
    && forall i :: 0 <= i < k.np ==> Shape(k.c, d.parts[i])
  }

  // ---------------------------------------------------------------- the write command

  /** One iteration of the page loop, on the partition i that owns the page. */
  function WriteAt(k: Params, d: Device, i: nat, m: nat, ruh: nat, data: int): (r: Outcome<Device>)
    requires DevShape(k, d) && i < k.np && m < k.c.ttPgs
    ensures r.Ok? ==> DevShape(k, r.value)
  {
    var s :- WritePage(k.c, d.parts[i].(ctx := d.ctx), m, ruh, data);
    Ok(Device(d.parts[i := s], s.ctx, d.attr))
  }

  function WriteRange(k: Params, d: Device, lpn: nat, end: nat, ruh: nat, data: int): (r: Outcome<Device>)
    requires DevShape(k, d) && end / k.np < k.c.ttPgs
    ensures r.Ok? ==> DevShape(k, r.value)
    decreases end + 1 - lpn
  {
    if lpn > end then Ok(d)
    else
      assert lpn / k.np <= end / k.np by { DivMonotone(lpn, end, k.np); }
      var d1 :- WriteAt(k, d, lpn % k.np, lpn / k.np, ruh, data);
      WriteRange(k, d1, lpn + 1, end, ruh, data)
  }

  function StartLpn(k: Params, cmd: WriteCmd): (r: nat)
    requires k.secsPerPg >= 1
  {
    cmd.slba / k.secsPerPg
  }

  function EndLpn(k: Params, cmd: WriteCmd): (r: nat)
    requires k.secsPerPg >= 1
  {
    (cmd.slba + cmd.length) / k.secsPerPg
  }

  function Bytes(k: Params, cmd: WriteCmd): (r: nat) {
    (cmd.length + 1) * k.lbaSize
  }

  predicate Addressable(k: Params, cmd: WriteCmd)
    requires k.np >= 1 && k.secsPerPg >= 1
  {
    EndLpn(k, cmd) / k.np < k.c.ttPgs
  }

  predicate Placed(cmd: WriteCmd) {
    cmd.dtype == DIRECTIVE_PLACEMENT
  }

  function RuhOf(cmd: WriteCmd): (r: nat) {
    if Placed(cmd) then cmd.dspec else 0
  }

  function NoteUse(d: Device, cmd: WriteCmd): (r: Device)
    requires |d.attr| >= 1 && (Placed(cmd) ==> cmd.dspec < |d.attr|)
  {
    if Placed(cmd) then d.(attr := d.attr[cmd.dspec := ByHost])
    else if d.attr[0] == Unused then d.(attr := d.attr[0 := ByController])
    else d
  }

  function Account(d: Device, bytes: nat): (r: Device) {
    d.(ctx := d.ctx.(hbmw := d.ctx.hbmw + bytes, mbmw := d.ctx.mbmw + bytes))
  }

  function InvalidPid(d: Device, cmd: WriteCmd): (r: Device) {
    d.(ctx := d.ctx.(emitted := d.ctx.emitted + [Emission(EVT_INVALID_PID, F_PIV + F_NSIDV, cmd.dspec, cmd.nsid)]))
  }

  /** fdp_write. */
  function FdpWrite(k: Params, d: Device, cmd: WriteCmd): (r: Outcome<(Device, Reply)>)
    requires DevShape(k, d)
    ensures r.Ok? ==> DevShape(k, r.value.0)
  {
    if !Addressable(k, cmd) then Ok((d, NotAccepted))
    else if Placed(cmd) && cmd.dspec >= k.c.n then Ok((InvalidPid(d, cmd), InvalidField))
    else
      var d1 := NoteUse(d, cmd);
      if !cmd.bufferOk then Ok((d1, NotAccepted))
      else
        var d2 :- WriteRange(k, Account(d1, Bytes(k, cmd)), StartLpn(k, cmd), EndLpn(k, cmd), RuhOf(cmd), cmd.data);
        Ok((d2, Success))
  }

  /** A run of commands from d. */
  function Run(k: Params, d: Device, cmds: seq<WriteCmd>): (r: Outcome<Device>)
    requires DevShape(k, d)
    ensures r.Ok? ==> DevShape(k, r.value)
    decreases |cmds|
  {
    if cmds == [] then Ok(d)
    else
      var r :- FdpWrite(k, d, cmds[0]);
      Run(k, r.0, cmds[1..])
  }

  /** fdp_init_namespace. */
  function Start(k: Params): (r: Device)
    requires Basic(k.c) && k.np >= 1 && k.secsPerPg >= 1
    ensures DevShape(k, r)
  {
    Device(seq(k.np, (i: nat) => Init(k.c)), Context(0, 0, 0, []), seq(k.c.n, (i: nat) => Unused))
  }

  // ---------------------------------------------------------------- commands as operations

  datatype Op =
    | Write(part: nat, local: nat, ruh: nat, data: int)
    | Count(bytes: nat)
    | Note(attr: seq<RuhAttr>, emitted: seq<Emission>)

  ghost predicate OpOk(k: Params, op: Op) {
    match op
    case Write(i, m, ruh, _) => i < k.np && m < k.c.ttPgs && ruh < k.c.n
    case Count(_) => true
    case Note(attr, _) => |attr| == k.c.n
  }

  function Do(k: Params, d: Device, op: Op): (r: Outcome<Device>)
    requires DevShape(k, d) && OpOk(k, op)
    ensures r.Ok? ==> DevShape(k, r.value)
  {
    match op
    case Write(i, m, ruh, data) => WriteAt(k, d, i, m, ruh, data)
    case Count(bytes) => Ok(Account(d, bytes))
    case Note(attr, emitted) => Ok(d.(attr := attr, ctx := d.ctx.(emitted := emitted)))
  }

  ghost predicate OpsOk(k: Params, ops: seq<Op>) {
    forall j :: 0 <= j < |ops| ==> OpOk(k, ops[j])
  }

  function DoAll(k: Params, d: Device, ops: seq<Op>): (r: Outcome<Device>)
    requires DevShape(k, d) && OpsOk(k, ops)
    ensures r.Ok? ==> DevShape(k, r.value)
    decreases |ops|
  {
    if ops == [] then Ok(d)
    else
      var d1 :- Do(k, d, ops[0]);
      DoAll(k, d1, ops[1..])
  }

  lemma DoAllCons(k: Params, d: Device, op: Op, rest: seq<Op>)
    requires DevShape(k, d) && OpOk(k, op) && OpsOk(k, rest)
    ensures OpsOk(k, [op] + rest)
    ensures DoAll(k, d, [op] + rest) ==
            if Do(k, d, op).Ok? then DoAll(k, Do(k, d, op).value, rest) else Do(k, d, op)
  {
    assert ([op] + rest)[1..] == rest;
  }

  lemma {:induction false} DoAllConcat(k: Params, d: Device, a: seq<Op>, b: seq<Op>)
    requires DevShape(k, d) && OpsOk(k, a) && OpsOk(k, b)
    ensures OpsOk(k, a + b)
    ensures DoAll(k, d, a + b) ==
            if DoAll(k, d, a).Ok? then DoAll(k, DoAll(k, d, a).value, b) else DoAll(k, d, a)
    decreases |a|
  {
    if a == [] {
      assert a + b == b;
    } else {
      assert (a + b)[1..] == a[1..] + b;
      if Do(k, d, a[0]).Ok? {
        DoAllConcat(k, Do(k, d, a[0]).value, a[1..], b);
      }
    }
  }

  // ---------------------------------------------------------------- what a run writes

  ghost predicate Accepted(k: Params, cmd: WriteCmd)
    requires k.np >= 1 && k.secsPerPg >= 1
  {
    Addressable(k, cmd) && RuhOf(cmd) < k.c.n && cmd.bufferOk
  }

  ghost function PageOp(k: Params, lpn: nat, ruh: nat, data: int): Op
    requires k.np >= 1
  {
    Write(lpn % k.np, lpn / k.np, ruh, data)
  }

  ghost function PageOps(k: Params, lpn: nat, end: nat, ruh: nat, data: int): seq<Op>
    requires k.np >= 1
    decreases end + 1 - lpn
  {
    if lpn > end then [] else [PageOp(k, lpn, ruh, data)] + PageOps(k, lpn + 1, end, ruh, data)
  }

  lemma {:induction false} PageOpsOk(k: Params, lpn: nat, end: nat, ruh: nat, data: int)
    requires k.np >= 1 && end / k.np < k.c.ttPgs && ruh < k.c.n
    ensures OpsOk(k, PageOps(k, lpn, end, ruh, data))
    decreases end + 1 - lpn
  {
    if lpn <= end {
      PageOpsOk(k, lpn + 1, end, ruh, data);
      DivMonotone(lpn, end, k.np);
    }
  }

  lemma WriteRangeStep(k: Params, d: Device, lpn: nat, end: nat, ruh: nat, data: int)
    requires DevShape(k, d) && end / k.np < k.c.ttPgs && ruh < k.c.n && lpn <= end
    ensures OpOk(k, PageOp(k, lpn, ruh, data))
    ensures WriteRange(k, d, lpn, end, ruh, data) ==
            var r := Do(k, d, PageOp(k, lpn, ruh, data));
            if r.Ok? then WriteRange(k, r.value, lpn + 1, end, ruh, data) else r
  {
    hide WriteAt, Shape;
    DivMonotone(lpn, end, k.np);
  }

  lemma {:induction false} WriteRangeIsOps(k: Params, d: Device, lpn: nat, end: nat, ruh: nat, data: int)
    requires DevShape(k, d) && end / k.np < k.c.ttPgs && ruh < k.c.n
    requires OpsOk(k, PageOps(k, lpn, end, ruh, data))
    ensures DoAll(k, d, PageOps(k, lpn, end, ruh, data)) == WriteRange(k, d, lpn, end, ruh, data)
    decreases end + 1 - lpn
  {
    if lpn <= end {
      var op, rest := PageOp(k, lpn, ruh, data), PageOps(k, lpn + 1, end, ruh, data);
      WriteRangeStep(k, d, lpn, end, ruh, data);
      PageOpsOk(k, lpn + 1, end, ruh, data);
      DoAllCons(k, d, op, rest);
      var r := Do(k, d, op);
      if r.Ok? {
        WriteRangeIsOps(k, r.value, lpn + 1, end, ruh, data);
        assert DoAll(k, r.value, rest) == WriteRange(k, r.value, lpn + 1, end, ruh, data);
      }
      assert DoAll(k, d, [op] + rest) == WriteRange(k, d, lpn, end, ruh, data);
      assert PageOps(k, lpn, end, ruh, data) == [op] + rest;
    }
  }

  /** The operations of one command issued in state d. */
  ghost function CmdOps(k: Params, d: Device, cmd: WriteCmd): (ops: seq<Op>)
    requires DevShape(k, d)
  {
    if !Addressable(k, cmd) then []
    else if Placed(cmd) && cmd.dspec >= k.c.n then [Note(d.attr, InvalidPid(d, cmd).ctx.emitted)]
    else
      var note := Note(NoteUse(d, cmd).attr, d.ctx.emitted);
      if !cmd.bufferOk then [note]
      else [note, Count(Bytes(k, cmd))] + PageOps(k, StartLpn(k, cmd), EndLpn(k, cmd), RuhOf(cmd), cmd.data)
  }

  /** A command is exactly its operations. */
  lemma FdpWriteIsOps(k: Params, d: Device, cmd: WriteCmd)
    requires DevShape(k, d)
    ensures OpsOk(k, CmdOps(k, d, cmd))
    ensures
      var r, r1 := FdpWrite(k, d, cmd), DoAll(k, d, CmdOps(k, d, cmd));
      && (r.Ok? <==> r1.Ok?) && (r.Ok? ==> r.value.0 == r1.value)
      && (r.BugOn? <==> r1.BugOn?)
  {
    if Addressable(k, cmd) && !(Placed(cmd) && cmd.dspec >= k.c.n) {
      var note := Note(NoteUse(d, cmd).attr, d.ctx.emitted);
      var d1 := NoteUse(d, cmd);
      assert Do(k, d, note) == Ok(d1);
      if cmd.bufferOk {
        var pages := PageOps(k, StartLpn(k, cmd), EndLpn(k, cmd), RuhOf(cmd), cmd.data);
        var d2 := Account(d1, Bytes(k, cmd));
        PageOpsOk(k, StartLpn(k, cmd), EndLpn(k, cmd), RuhOf(cmd), cmd.data);
        WriteRangeIsOps(k, d2, StartLpn(k, cmd), EndLpn(k, cmd), RuhOf(cmd), cmd.data);
        assert [note, Count(Bytes(k, cmd))] + pages == [note] + ([Count(Bytes(k, cmd))] + pages);
        DoAllConcat(k, d, [note], [Count(Bytes(k, cmd))] + pages);
        DoAllConcat(k, d1, [Count(Bytes(k, cmd))], pages);
      }
    }
  }

  /** The operations of a whole run. */
  ghost function RunOps(k: Params, d: Device, cmds: seq<WriteCmd>): (ops: seq<Op>)
    requires DevShape(k, d)
    decreases |cmds|
  {
    if cmds == [] then []
    else
      CmdOps(k, d, cmds[0])
      + if FdpWrite(k, d, cmds[0]).Ok? then RunOps(k, FdpWrite(k, d, cmds[0]).value.0, cmds[1..]) else []
  }

  lemma {:induction false} RunIsOps(k: Params, d: Device, cmds: seq<WriteCmd>)
    requires DevShape(k, d)
    ensures OpsOk(k, RunOps(k, d, cmds))
    ensures
      var r, r1 := Run(k, d, cmds), DoAll(k, d, RunOps(k, d, cmds));
      (r.Ok? <==> r1.Ok?) && (r.Ok? ==> r.value == r1.value) && (r.BugOn? <==> r1.BugOn?)
    decreases |cmds|
  {
    if cmds != [] {
      FdpWriteIsOps(k, d, cmds[0]);
      var r := FdpWrite(k, d, cmds[0]);
      if r.Ok? {
        RunIsOps(k, r.value.0, cmds[1..]);
        DoAllConcat(k, d, CmdOps(k, d, cmds[0]), RunOps(k, r.value.0, cmds[1..]));
      } else {
        assert CmdOps(k, d, cmds[0]) + [] == CmdOps(k, d, cmds[0]);
      }
    }
  }
}

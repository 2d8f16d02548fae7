/** Which events the commands of a run hand to fdp_emit_event, and in what order. */
module FdpEvents {
  import opened Common
  import opened FtlModel
  import opened FtlStats
  import opened FdpDevice

  /** Collecting the least line of the heap reports its reclaim unit handle, if it has one. */
  ghost function VictimEvents(c: Config, s: Ftl): (r: seq<Emission>)
    requires Shape(c, s) && 1 < |s.pq.d|
  {
    var ruh := s.lines[s.pq.d[1]].ruh;
    if ruh >= 0 then [Emission(EVT_IMPLICIT_MODIFIED_RU, F_PIV, ruh, 0)] else []
  }

  /** A page write reports the collection that it sets off. */
  ghost function WriteEvents(c: Config, s: Ftl, lpn: nat, ruh: nat, data: int): (r: seq<Emission>)
    requires Shape(c, s) && lpn < c.ttPgs && ruh < c.n
  {
    var r := Spender(c, s, lpn, ruh, data);
    if r.Ok? && Collects(c, r.value) then VictimEvents(c, r.value) else []
  }

  ghost function PartEvents(k: Params, d: Device, i: nat, m: nat, ruh: nat, data: int): (r: seq<Emission>)
    requires DevShape(k, d) && i < k.np && m < k.c.ttPgs && ruh < k.c.n
  {
    WriteEvents(k.c, d.parts[i].(ctx := d.ctx), m, ruh, data)
  }

  ghost function RangeEvents(k: Params, d: Device, lpn: nat, end: nat, ruh: nat, data: int): (r: seq<Emission>)
    requires DevShape(k, d) && end / k.np < k.c.ttPgs && ruh < k.c.n
    decreases end + 1 - lpn
  {
    if lpn > end then []
    else
      DivMonotone(lpn, end, k.np);
      var i, m := lpn % k.np, lpn / k.np;
      var r := WriteAt(k, d, i, m, ruh, data);
      PartEvents(k, d, i, m, ruh, data)
      + if r.Ok? then RangeEvents(k, r.value, lpn + 1, end, ruh, data) else []
  }

  /** A command that names no handle reports that; an accepted one reports its collections. */
  ghost function CmdEvents(k: Params, d: Device, cmd: WriteCmd): (r: seq<Emission>)
    requires DevShape(k, d)
  {
    if !Addressable(k, cmd) then []
    else if RuhOf(cmd) >= k.c.n then [Emission(EVT_INVALID_PID, F_PIV + F_NSIDV, cmd.dspec, cmd.nsid)]
    else if !cmd.bufferOk then []
    else
      RangeEvents(k, Account(NoteUse(d, cmd), Bytes(k, cmd)), StartLpn(k, cmd), EndLpn(k, cmd), RuhOf(cmd), cmd.data)
  }

  ghost function RunEvents(k: Params, d: Device, cmds: seq<WriteCmd>): (r: seq<Emission>)
    requires DevShape(k, d)
    decreases |cmds|
  {
    if cmds == [] then []
    else
      var r := FdpWrite(k, d, cmds[0]);
      CmdEvents(k, d, cmds[0]) + if r.Ok? then RunEvents(k, r.value.0, cmds[1..]) else []
  }

  // ---------------------------------------------------------------- they are what is emitted

  lemma StepQuiet(c: Config, s: Ftl, v: nat, st: SweepStep)
    requires Shape(c, s) && v < c.lines && Step(c, s, v, st).Ok?
    ensures Step(c, s, v, st).value.ctx.emitted == s.ctx.emitted
  {
    hide Append, ErasedLine;
  }

  /** Neither a copied page nor an erased block is reported. */
  lemma {:induction false} SweepQuiet(c: Config, s: Ftl, v: nat, steps: seq<SweepStep>)
    requires Shape(c, s) && v < c.lines && Sweep(c, s, v, steps).Ok?
    ensures Sweep(c, s, v, steps).value.ctx.emitted == s.ctx.emitted
    decreases |steps|
  {
    if steps == [] {
    } else {
      hide Step, Shape;
      StepQuiet(c, s, v, steps[0]);
      SweepQuiet(c, Step(c, s, v, steps[0]).value, v, steps[1..]);
    }
  }

  lemma DoGcEmits(c: Config, s: Ftl)
    requires Shape(c, s) && 1 < |s.pq.d| && DoGc(c, s, true).Ok?
    ensures DoGc(c, s, true).value.ctx.emitted == s.ctx.emitted + VictimEvents(c, s)
  {
    hide Sweep;
    var v := s.pq.d[1];
    SweepQuiet(c, StartGc(c, TakeVictim(c, s), v), v, c.sweep);
  }

  lemma SpendEmits(c: Config, s: Ftl)
    requires Shape(c, s) && SpendCredit(c, s).Ok?
    ensures SpendCredit(c, s).value.ctx.emitted ==
            s.ctx.emitted + if Collects(c, s) then VictimEvents(c, s) else []
  {
    hide DoGc;
    var s1 := s.(credits := Dec32(s.credits));
    if Collects(c, s) {
      DoGcEmits(c, s1);
    } else if s1.credits <= 0 && s.freeCnt <= c.threshold {
      NoGc(c, s1);
    }
  }

  lemma NoGc(c: Config, s: Ftl)
    requires Shape(c, s) && |s.pq.d| <= 1
    ensures DoGc(c, s, true) == Ok(s)
  {
  }

  lemma WritePageEmits(c: Config, s: Ftl, lpn: nat, ruh: nat, data: int)
    requires Shape(c, s) && lpn < c.ttPgs && ruh < c.n && WritePage(c, s, lpn, ruh, data).Ok?
    ensures WritePage(c, s, lpn, ruh, data).value.ctx.emitted == s.ctx.emitted + WriteEvents(c, s, lpn, ruh, data)
  {
    hide Supersede, Append, SpendCredit, Collects, VictimEvents;
    SpendEmits(c, Spender(c, s, lpn, ruh, data).value);
  }

  lemma PartEmits(k: Params, d: Device, i: nat, m: nat, ruh: nat, data: int)
    requires DevShape(k, d) && i < k.np && m < k.c.ttPgs && ruh < k.c.n && WriteAt(k, d, i, m, ruh, data).Ok?
    ensures WriteAt(k, d, i, m, ruh, data).value.ctx.emitted == d.ctx.emitted + PartEvents(k, d, i, m, ruh, data)
  {
    hide WritePage, WriteEvents;
    WritePageEmits(k.c, d.parts[i].(ctx := d.ctx), m, ruh, data);
  }

  lemma RangeNone(k: Params, d: Device, lpn: nat, end: nat, ruh: nat, data: int)
    requires DevShape(k, d) && end / k.np < k.c.ttPgs && ruh < k.c.n && lpn > end
    ensures WriteRange(k, d, lpn, end, ruh, data) == Ok(d) && RangeEvents(k, d, lpn, end, ruh, data) == []
  {
  }

  lemma RangeStep(k: Params, d: Device, lpn: nat, end: nat, ruh: nat, data: int) returns (i: nat, m: nat)
    requires DevShape(k, d) && end / k.np < k.c.ttPgs && ruh < k.c.n && lpn <= end
    ensures i < k.np && m < k.c.ttPgs
    ensures
      var r := WriteAt(k, d, i, m, ruh, data);
      && WriteRange(k, d, lpn, end, ruh, data) == (if r.Ok? then WriteRange(k, r.value, lpn + 1, end, ruh, data) else r)
      && RangeEvents(k, d, lpn, end, ruh, data) == PartEvents(k, d, i, m, ruh, data) +
         if r.Ok? then RangeEvents(k, r.value, lpn + 1, end, ruh, data) else []
  {
    hide WriteAt, PartEvents, Shape;
    DivMonotone(lpn, end, k.np);
    i, m := lpn % k.np, lpn / k.np;
  }

  lemma {:induction false} RangeEmits(k: Params, d: Device, lpn: nat, end: nat, ruh: nat, data: int)
    requires DevShape(k, d) && end / k.np < k.c.ttPgs && ruh < k.c.n && WriteRange(k, d, lpn, end, ruh, data).Ok?
    ensures WriteRange(k, d, lpn, end, ruh, data).value.ctx.emitted ==
            d.ctx.emitted + RangeEvents(k, d, lpn, end, ruh, data)
    decreases end + 1 - lpn
  {
    hide WriteAt, PartEvents, DevShape, WriteRange, RangeEvents;
    if lpn > end {
      RangeNone(k, d, lpn, end, ruh, data);
    } else {
      var i, m := RangeStep(k, d, lpn, end, ruh, data);
      PartEmits(k, d, i, m, ruh, data);
      RangeEmits(k, WriteAt(k, d, i, m, ruh, data).value, lpn + 1, end, ruh, data);
    }
  }

  /** A command emits exactly the events it has to report. */
  lemma CmdEmits(k: Params, d: Device, cmd: WriteCmd)
    requires DevShape(k, d) && k.c.n >= 1 && FdpWrite(k, d, cmd).Ok?
    ensures FdpWrite(k, d, cmd).value.0.ctx.emitted == d.ctx.emitted + CmdEvents(k, d, cmd)
  {
    hide WriteRange, RangeEvents;
    if Accepted(k, cmd) {
      var d1 := Account(NoteUse(d, cmd), Bytes(k, cmd));
      RangeEmits(k, d1, StartLpn(k, cmd), EndLpn(k, cmd), RuhOf(cmd), cmd.data);
    }
  }

  /** Every run emits the events of its commands, in order. */
  lemma {:induction false} RunEmits(k: Params, d: Device, cmds: seq<WriteCmd>)
    requires DevShape(k, d) && k.c.n >= 1 && Run(k, d, cmds).Ok?
    ensures Run(k, d, cmds).value.ctx.emitted == d.ctx.emitted + RunEvents(k, d, cmds)
    decreases |cmds|
  {
    hide FdpWrite, CmdEvents, DevShape;
    if cmds == [] {
    } else {
      CmdEmits(k, d, cmds[0]);
      RunEmits(k, FdpWrite(k, d, cmds[0]).value.0, cmds[1..]);
    }
  }
}

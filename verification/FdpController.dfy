/** The events log page over whole sessions: host commands that emit events, interleaved with
    the Set Features commands that switch event types on and off. */
module FdpController {
  import opened Common
  import opened FtlModel
  import opened FdpDevice
  import opened FdpTheorems
  import opened FdpEvents
  import opened EventLog
  import FdpNamespace

  datatype Step =
    | Host(cmd: WriteCmd)
    | SetEvents(dw11: nat, descriptors: Option<seq<Descriptor>>)

  /** The buffer of a Set Features command holds the descriptors it announces. */
  ghost predicate StepOk(step: Step) {
    step.SetEvents? && step.descriptors.Some? ==> (step.dw11 / 0x10000) % 0x100 <= |step.descriptors.value|
  }

  ghost function HostCmds(steps: seq<Step>): (r: seq<WriteCmd>)
    decreases |steps|
  {
    if steps == [] then []
    else if steps[0].Host? then [steps[0].cmd] + HostCmds(steps[1..])
    else HostCmds(steps[1..])
  }

  /** The events whose type is enabled. */
  ghost function Audible(es: seq<Emission>, mask: seq<bool>): (r: seq<Emission>)
    requires MaskOk(mask)
  {
    if es == [] then []
    else
      var e := es[|es| - 1];
      Audible(es[..|es| - 1], mask) + if Enabled(mask, e.evt) then [e] else []
  }

  ghost function MaskAfter(mask: seq<bool>, step: Step): (r: seq<bool>)
    requires MaskOk(mask) && StepOk(step)
    ensures MaskOk(r)
  {
    if step.SetEvents? && step.descriptors.Some?
    then SwitchAll(mask, step.descriptors.value[..(step.dw11 / 0x10000) % 0x100])
    else mask
  }

  /** The events that a session reports to the host: those of its commands whose type is
      enabled at the time. */
  ghost function Reported(k: Params, d: Device, mask: seq<bool>, steps: seq<Step>): (r: seq<Emission>)
    requires DevShape(k, d) && MaskOk(mask) && forall i :: 0 <= i < |steps| ==> StepOk(steps[i])
    decreases |steps|
  {
    if steps == [] then []
    else
      match steps[0]
      case Host(cmd) =>
        var r := FdpWrite(k, d, cmd);
        Audible(CmdEvents(k, d, cmd), mask) + if r.Ok? then Reported(k, r.value.0, mask, steps[1..]) else []
      case SetEvents(_, _) => Reported(k, d, MaskAfter(mask, steps[0]), steps[1..])
  }

  lemma RunHost(k: Params, d: Device, steps: seq<Step>)
    requires DevShape(k, d) && steps != [] && steps[0].Host? && Run(k, d, HostCmds(steps)).Ok?
    ensures
      var r := FdpWrite(k, d, steps[0].cmd);
      r.Ok? && Run(k, r.value.0, HostCmds(steps[1..])).Ok?
  {
    hide FdpWrite;
    assert HostCmds(steps)[0] == steps[0].cmd && HostCmds(steps)[1..] == HostCmds(steps[1..]);
  }

  /** An event of the log without its time stamp. */
  function Untimed(ev: Event): (r: Emission) { Emission(ev.evt, ev.flags, ev.pid, ev.nsid) }

  ghost predicate Records(log: seq<Event>, heard: seq<Emission>) {
    |log| == |heard| && forall i :: 0 <= i < |log| ==> Untimed(log[i]) == heard[i]
  }

  lemma AudibleAppend(es: seq<Emission>, e: Emission, mask: seq<bool>)
    requires MaskOk(mask)
    ensures Audible(es + [e], mask) == if Enabled(mask, e.evt) then Audible(es, mask) + [e] else Audible(es, mask)
  {
    assert (es + [e])[..|es|] == es;
  }

  lemma AudibleNone(mask: seq<bool>)
    requires MaskOk(mask)
    ensures Audible([], mask) == []
  {
  }

  /** The latest events, the most recent first. */
  ghost predicate Latest(page: seq<Event>, heard: seq<Emission>) {
    && |page| == (if |heard| < FDP_NR_EVENTS then |heard| else FDP_NR_EVENTS)
    && forall i :: 0 <= i < |page| ==> Untimed(page[i]) == heard[|heard| - 1 - i]
  }

  class Controller {
    const ns: FdpNamespace.Namespace
    const log: Log
    ghost var heard: seq<Emission>

    ghost predicate Apart() {
      this !in ns.repr && log !in ns.repr && log.ring !in ns.repr
    }

    ghost predicate Valid()
      reads this, ns, ns.repr, log, log.ring
    {
      && Apart() && ns.Valid() && DevInv(ns.k, ns.d)
      && log.Valid() && Records(Recorded(log.all), heard)
    }

    constructor (ns: FdpNamespace.Namespace)
      requires ns.Valid() && DevInv(ns.k, ns.d)
      ensures Valid() && fresh(log) && this.ns == ns && heard == [] && log.mask == [false, false, false]
    {
      hide FdpNamespace.Namespace.Valid, DevInv, Log.Valid;
      this.ns := ns;
      log := new Log();
      heard := [];
    }

    /** fdp_emit_event. */
    method Emit(e: Emission, clock: nat)
      requires log.Valid() && Records(Recorded(log.all), heard)
      modifies `heard, log, log.ring
      ensures log.Valid() && Records(Recorded(log.all), heard) && log.mask == old(log.mask)
      ensures heard == if Enabled(log.mask, e.evt) then old(heard) + [e] else old(heard)
    {
      hide Enabled, Holds, Recorded;
      ghost var on := Enabled(log.mask, e.evt);
      log.Emit(e.evt, e.flags, e.pid, e.nsid, clock);
      RecordedAppend(old(log.all), Emitted(Event(e.evt, e.flags, e.pid, clock, e.nsid), on));
      heard := if on then heard + [e] else heard;
    }

    /** One after the other; clock(i) stamps the i-th. */
    method EmitAll(es: seq<Emission>, clock: nat -> nat)
      requires log.Valid() && Records(Recorded(log.all), heard)
      modifies `heard, log, log.ring
      ensures log.Valid() && Records(Recorded(log.all), heard)
      ensures heard == old(heard) + Audible(es, log.mask) && log.mask == old(log.mask)
    {
      hide Enabled, Holds, Recorded, Records, Audible;
      AudibleNone(log.mask);
      for i := 0 to |es|
        invariant log.Valid() && Records(Recorded(log.all), heard) && log.mask == old(log.mask)
        invariant heard == old(heard) + Audible(es[..i], log.mask)
      {
        AudibleAppend(es[..i], es[i], log.mask);
        assert es[..i + 1] == es[..i] + [es[i]];
        Emit(es[i], clock(i));
      }
      assert es[..|es|] == es;
    }

    lemma Facts()
      requires Valid()
      ensures DevShape(ns.k, ns.d) && ns.k.c.n >= 1 && MaskOk(log.mask) && ns.ctx == ns.d.ctx
    {
      hide DevInv;
    }

    /** A write command, with the events it emits. */
    method Write(cmd: WriteCmd, clock: nat -> nat) returns (reply: Reply)
      requires Valid() && FdpWrite(ns.k, ns.d, cmd).Ok?
      modifies this, ns.repr, log, log.ring
      ensures Valid() && (ns.d, reply) == FdpWrite(ns.k, old(ns.d), cmd).value
      ensures log.mask == old(log.mask) && heard == old(heard) + Audible(CmdEvents(ns.k, old(ns.d), cmd), log.mask)
    {
      hide FdpNamespace.Namespace.Valid, DevInv, Log.Valid, FdpWrite, DevShape, Audible;
      Facts();
      ghost var d := ns.d;
      var before := |ns.ctx.emitted|;
      reply := ns.Write(cmd);
      ns.LaidFacts();
      CmdEmits(ns.k, d, cmd);
      EmitAll(ns.ctx.emitted[before..], clock);
    }

    method SetFeature(step: Step) returns (result: nat)
      requires Valid() && step.SetEvents? && StepOk(step)
      modifies log`mask
      ensures Valid() && log.mask == MaskAfter(old(log.mask), step)
    {
      hide FdpNamespace.Namespace.Valid, DevInv, Holds;
      result := log.SetFeature(step.dw11, step.descriptors);
    }

    method GetLog() returns (page: seq<Event>)
      requires Valid()
      ensures Latest(page, heard)
    {
      hide FdpNamespace.Namespace.Valid, DevInv;
      page := log.GetLog();
    }

    /** After any session the log page holds the latest events that the session reported. */
    method Session(steps: seq<Step>, clock: nat -> nat -> nat) returns (page: seq<Event>)
      requires Valid() && forall i :: 0 <= i < |steps| ==> StepOk(steps[i])
      requires Run(ns.k, ns.d, HostCmds(steps)).Ok?
      modifies this, ns.repr, log, log.ring
      ensures Valid() && heard == old(heard) + Reported(ns.k, old(ns.d), old(log.mask), steps)
      ensures Latest(page, heard)
    {
      hide Valid, FdpWrite, DevShape, CmdEvents, Audible, MaskAfter;
      Facts();
      ghost var goal := heard + Reported(ns.k, ns.d, log.mask, steps);
      for i := 0 to |steps|
        invariant Valid() && DevShape(ns.k, ns.d) && MaskOk(log.mask) && Run(ns.k, ns.d, HostCmds(steps[i..])).Ok?
        invariant heard + Reported(ns.k, ns.d, log.mask, steps[i..]) == goal
      {
        ghost var rest := steps[i..];
        assert rest[1..] == steps[i + 1..];
        match steps[i]
        case Host(cmd) =>
          RunHost(ns.k, ns.d, rest);
          var reply := Write(cmd, clock(i));
        case SetEvents(_, _) =>
          var result := SetFeature(steps[i]);
        Facts();
      }
      page := GetLog();
    }
  }
}

/** fdp_write over the partition objects, which share one endurance-group context. */
module FdpNamespace {
  import opened Common
  import opened Geometry
  import opened FtlModel
  import opened FtlInv
  import opened FtlGc
  import opened FtlLayout
  import opened FdpDevice
  import opened FdpTheorems
  import opened FdpConfig
  import FdpFtl

  class Namespace {
    const g: Geo
    const n: nat
    const np: nat
    const secsPerPg: nat
    const lbaSize: nat
    const ftls: seq<FdpFtl.Partition>
    var ctx: Context
    var attr: seq<RuhAttr>
    ghost const k: Params
    ghost const repr: set<object>    // this object and those of its partitions
    ghost var d: Device

    /** The partitions are separate objects on the same geometry. */
    ghost predicate Laid() {
      && LayoutOk(g, n) && np >= 1 && secsPerPg >= 1 && |ftls| == np
      && k.np == np && k.secsPerPg == secsPerPg && k.lbaSize == lbaSize && ParamsOk(k)
      && k.c.n == n && k.c.ttPgs == TotalPgs(g)
      && this in repr
      && (forall i :: 0 <= i < np ==> ftls[i].c == k.c && ftls[i].g == g && ftls[i].n == n)
      && (forall i :: 0 <= i < np ==> this !in ftls[i].Parts() && ftls[i].Parts() <= repr)
      && (forall i, j :: 0 <= i < j < np ==> ftls[i].Parts() !! ftls[j].Parts())
    }

    ghost predicate Valid()
      reads this, repr
    {
      && Laid() && DevShape(k, d) && ctx == d.ctx && attr == d.attr
      && forall i :: 0 <= i < np ==> ftls[i].Valid() && ftls[i].s == d.parts[i]
    }

    /** fdp_init_namespace over freshly initialised partitions, whose objects are objs. */
    constructor (g: Geo, n: nat, np: nat, secsPerPg: nat, lbaSize: nat, ftls: seq<FdpFtl.Partition>,
                 ghost objs: set<object>)
      requires LayoutOk(g, n) && np >= 1 && secsPerPg >= 1 && |ftls| == np
      requires forall i :: 0 <= i < np ==>
        ftls[i].Valid() && ftls[i].c == ConfigOf(g, n, n + 1, secsPerPg * lbaSize) && ftls[i].g == g && ftls[i].n == n
      requires forall i :: 0 <= i < np ==> Basic(ftls[i].c) && ftls[i].s == Init(ftls[i].c)
      requires forall i :: 0 <= i < np ==> ftls[i].Parts() <= objs
      requires forall i, j :: 0 <= i < j < np ==> ftls[i].Parts() !! ftls[j].Parts()
      ensures Valid() && k == FdpParams(g, n, np, secsPerPg, lbaSize) && d == Start(k) && DevInv(k, d)
      ensures this.ftls == ftls && repr == {this} + objs
    {
      this.g, this.n, this.np, this.secsPerPg, this.lbaSize, this.ftls := g, n, np, secsPerPg, lbaSize, ftls;
      StartFacts(g, n, np, secsPerPg, lbaSize);
      k := FdpParams(g, n, np, secsPerPg, lbaSize);
      ctx := Context(0, 0, 0, []);
      attr := seq(n, (i: nat) => Unused);
      d := Start(FdpParams(g, n, np, secsPerPg, lbaSize));
      repr := {this} + objs;
      new;
      assert Laid();
    }

    /** The page write of one partition does not touch the others. */
    method WriteIn(i: nat, m: nat, ruh: nat, data: int)
      requires Laid() && i < np && (forall j :: 0 <= j < np ==> ftls[j].Valid())
      requires m < TotalPgs(g) && ruh < n && Inv(k.c, ftls[i].s.(ctx := ctx))
      requires WritePage(k.c, ftls[i].s.(ctx := ctx), m, ruh, data).Ok?
      modifies ftls[i].Parts()
      ensures forall j :: 0 <= j < np ==> ftls[j].Valid()
      ensures forall j :: 0 <= j < np && j != i ==> ftls[j].s == old(ftls[j].s)
      ensures ftls[i].s == WritePage(k.c, old(ftls[i].s).(ctx := ctx), m, ruh, data).value
      ensures ftls[i].ctx == ftls[i].s.ctx
    {
      hide Inv, WritePage, Shape, ConfigOk, Basic, LayoutOk, TotalPgs, FdpFtl.Partition.Valid, ParamsOk;
      var f := ftls[i];
      f.LoadContext(ctx);
      f.WritePage(m, ruh, data);
      f.FieldFacts();
      forall j | 0 <= j < np && j != i
        ensures ftls[j].Valid() && ftls[j].s == old(ftls[j].s)
      {
        assert ftls[j].Parts() !! f.Parts();
      }
    }

    /** One page of the loop of fdp_write. */
    method WriteOne(i: nat, m: nat, ruh: nat, data: int)
      requires Valid() && DevInv(k, d) && i < np && m < TotalPgs(g) && ruh < n && WriteAt(k, d, i, m, ruh, data).Ok?
      modifies repr
      ensures Valid() && d == WriteAt(k, old(d), i, m, ruh, data).value
    {
      hide Inv, WritePage, Shape, ConfigOk, Basic, LayoutOk, TotalPgs, FdpFtl.Partition.Valid,
           FdpFtl.Partition.Parts;
      TargetInv(k, d, i);
      WriteIn(i, m, ruh, data);
      ctx := ftls[i].ctx;
      d := WriteAt(k, d, i, m, ruh, data).value;
    }

    /** The loop of fdp_write over the logical pages of the command. */
    method WriteLpns(start: nat, end: nat, ruh: nat, data: int)
      requires Valid() && DevInv(k, d) && end / np < TotalPgs(g) && ruh < n
      requires WriteRange(k, d, start, end, ruh, data).Ok?
      modifies repr
      ensures Valid() && DevInv(k, d) && d == WriteRange(k, old(d), start, end, ruh, data).value
    {
      hide Valid, Laid, DevInv, DevShape, WriteAt, WriteRange, TotalPgs, Owns, ParamsOk;
      LaidFacts();
      ghost var goal := WriteRange(k, d, start, end, ruh, data);
      var lpn := start;
      while lpn <= end
        invariant Valid() && DevShape(k, d) && DevInv(k, d) && WriteRange(k, d, lpn, end, ruh, data) == goal
        decreases end + 1 - lpn
      {
        OwnerInRange(np, lpn, end, TotalPgs(g));
        var i, m := lpn % np, lpn / np;
        RangeNext(k, d, lpn, end, i, m, ruh, data);
        WriteOne(i, m, ruh, data);
        LaidFacts();
        lpn := lpn + 1;
      }
      RangeDone(k, d, lpn, end, ruh, data);
    }

    lemma LaidFacts()
      requires Valid()
      ensures np >= 1 && k.np == np && k.c.n == n && k.c.ttPgs == TotalPgs(g) && ParamsOk(k) && DevShape(k, d)
      ensures ctx == d.ctx
    {
    }

    /** fdp_write. */
    method Write(cmd: WriteCmd) returns (reply: Reply)
      requires Valid() && DevInv(k, d) && FdpWrite(k, d, cmd).Ok?
      modifies repr
      ensures Valid() && DevInv(k, d) && (d, reply) == FdpWrite(k, old(d), cmd).value
    {
      hide Inv, WriteRange, Shape, ConfigOk, Basic, GeoOk, TotalPgs, FdpFtl.Partition.Valid,
           FdpFtl.Partition.Parts;
      var start, end := cmd.slba / secsPerPg, (cmd.slba + cmd.length) / secsPerPg;
      if end / np >= TotalPgs(g) {
        return NotAccepted;
      }
      var ruh := 0;
      if cmd.dtype == DIRECTIVE_PLACEMENT {
        if cmd.dspec >= n {
          ctx := ctx.(emitted := ctx.emitted + [Emission(EVT_INVALID_PID, F_PIV + F_NSIDV, cmd.dspec, cmd.nsid)]);
          d := InvalidPid(d, cmd);
          return InvalidField;
        }
        ruh := cmd.dspec;
        attr := attr[ruh := ByHost];
      } else if attr[0] == Unused {
        attr := attr[0 := ByController];
      }
      d := NoteUse(d, cmd);
      if !cmd.bufferOk {
        return NotAccepted;
      }
      var bytes := (cmd.length + 1) * lbaSize;
      ctx := ctx.(hbmw := ctx.hbmw + bytes, mbmw := ctx.mbmw + bytes);
      d := Account(d, bytes);
      WriteLpns(start, end, ruh, cmd.data);
      return Success;
    }
  }

  lemma StartFacts(g: Geo, n: nat, np: nat, secsPerPg: nat, lbaSize: nat)
    requires LayoutOk(g, n) && np >= 1 && secsPerPg >= 1
    ensures
      var k := FdpParams(g, n, np, secsPerPg, lbaSize);
      && k.np == np && k.secsPerPg == secsPerPg && k.lbaSize == lbaSize && ParamsOk(k)
      && k.c == ConfigOf(g, n, n + 1, secsPerPg * lbaSize) && k.c.n == n && k.c.ttPgs == TotalPgs(g)
      && Basic(k.c) && DevShape(k, Start(k)) && DevInv(k, Start(k))
      && Start(k).ctx == Context(0, 0, 0, []) && Start(k).attr == seq(n, (i: nat) => Unused)
      && forall i :: 0 <= i < np ==> Start(k).parts[i] == Init(k.c)
  {
    FdpParamsOk(g, n, np, secsPerPg, lbaSize);
    StartInv(FdpParams(g, n, np, secsPerPg, lbaSize));
    hide Init, LayoutOk, TotalPgs;
  }

  /** Logical page lpn is page m of partition i. */
  ghost predicate Owns(np: nat, lpn: nat, i: nat, m: nat)
    requires np >= 1
  {
    i == lpn % np && m == lpn / np
  }

  lemma OwnerInRange(np: nat, lpn: nat, end: nat, limit: nat)
    requires np >= 1 && lpn <= end && end / np < limit
    ensures Owns(np, lpn, lpn % np, lpn / np) && lpn % np < np && lpn / np < limit
  {
    DivMonotone(lpn, end, np);
  }

  lemma RangeNext(k: Params, d: Device, lpn: nat, end: nat, i: nat, m: nat, ruh: nat, data: int)
    requires ParamsOk(k) && DevInv(k, d) && end / k.np < k.c.ttPgs && ruh < k.c.n && lpn <= end
    requires k.np >= 1 && Owns(k.np, lpn, i, m) && i < k.np && m < k.c.ttPgs
    requires WriteRange(k, d, lpn, end, ruh, data).Ok?
    ensures
      var r := WriteAt(k, d, i, m, ruh, data);
      && r.Ok? && DevInv(k, r.value)
      && WriteRange(k, d, lpn, end, ruh, data) == WriteRange(k, r.value, lpn + 1, end, ruh, data)
  {
    hide WriteAt;
    RangeUnfold(k, d, lpn, end, i, m, ruh, data);
    WriteKeeps(k, d, i, m, ruh, data);
  }

  lemma RangeUnfold(k: Params, d: Device, lpn: nat, end: nat, i: nat, m: nat, ruh: nat, data: int)
    requires DevShape(k, d) && end / k.np < k.c.ttPgs && lpn <= end
    requires k.np >= 1 && Owns(k.np, lpn, i, m) && i < k.np && m < k.c.ttPgs
    requires WriteRange(k, d, lpn, end, ruh, data).Ok?
    ensures WriteAt(k, d, i, m, ruh, data).Ok?
    ensures WriteRange(k, d, lpn, end, ruh, data) ==
      WriteRange(k, WriteAt(k, d, i, m, ruh, data).value, lpn + 1, end, ruh, data)
  {
    hide DevShape, WriteAt;
  }

  lemma RangeDone(k: Params, d: Device, lpn: nat, end: nat, ruh: nat, data: int)
    requires DevShape(k, d) && end / k.np < k.c.ttPgs && lpn > end
    ensures WriteRange(k, d, lpn, end, ruh, data) == Ok(d)
  {
  }

  lemma WriteKeeps(k: Params, d: Device, i: nat, m: nat, ruh: nat, data: int)
    requires ParamsOk(k) && DevInv(k, d) && i < k.np && m < k.c.ttPgs && ruh < k.c.n
    requires WriteAt(k, d, i, m, ruh, data).Ok?
    ensures DevInv(k, WriteAt(k, d, i, m, ruh, data).value)
  {
    TargetInv(k, d, i);
    WritePageKeeps(k.c, Target(k, d, i), m, ruh, data);
    hide Inv, Shape, WritePage;
  }
}

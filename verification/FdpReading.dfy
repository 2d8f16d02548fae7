/** fdp_read on the mapping tables that a run of write commands leaves. */
module FdpReading {
  import opened Common
  import opened Geometry
  import opened FtlModel
  import opened FtlInv
  import opened FtlView
  import opened FtlSpace
  import opened FdpDevice
  import opened FdpTheorems
  import R = ReadPath

  /** The block of a page within the SSD (blk_in_ssd), and the page within the block. */
  ghost function AddrOf(g: Geo, a: Ppa): (r: R.PageAddr)
    requires GeoOk(g)
  {
    var t := SlotOf(g, a.off);
    R.PageAddr(Mix(Mix(t.ch, g.luns, t.lun), g.blks, a.line), t.pg)
  }

  ghost function TableOf(g: Geo, s: Ftl): (r: seq<Option<R.PageAddr>>)
    requires GeoOk(g)
    ensures |r| == |s.maptbl|
    ensures forall m :: 0 <= m < |r| ==>
      r[m] == if s.maptbl[m].Some? then Some(AddrOf(g, s.maptbl[m].value)) else None
  {
    seq(|s.maptbl|, m requires 0 <= m < |s.maptbl| =>
      if s.maptbl[m].Some? then Some(AddrOf(g, s.maptbl[m].value)) else None)
  }

  /** The mapping tables of a device. */
  ghost function MapsOf(k: Params, g: Geo, d: Device): (r: R.Maps)
    requires GeoOk(g) && DevShape(k, d)
    ensures r.n == k.np == |r.tables| && r.flash == g.flash && r.pgsz == k.c.pgsz
    ensures forall i :: 0 <= i < k.np ==> r.tables[i] == TableOf(g, d.parts[i])
  {
    R.Maps(k.np, seq(k.np, i requires 0 <= i < k.np => TableOf(g, d.parts[i])), g.flash, k.c.pgsz)
  }

  lemma MapsOfOk(k: Params, g: Geo, d: Device)
    requires GeoOk(g) && DevShape(k, d) && k.c.pgsz >= 1
    ensures R.MapsOk(MapsOf(k, g, d)) && forall x: nat :: R.InRange(MapsOf(k, g, d), x) <==> x / k.np < k.c.ttPgs
  {
  }

  lemma PageMapped(k: Params, g: Geo, d: Device, x: nat)
    requires GeoOk(g) && DevInv(k, d) && R.MapsOk(MapsOf(k, g, d)) && R.InRange(MapsOf(k, g, d), x)
    ensures R.Lookup(MapsOf(k, g, d), x).Some? <==> Reads(k, d, x).Some?
  {
    var i, m := x % k.np, x / k.np;
    var s := d.parts[i];
    MappedIsView(k.c, s, Idle);
    assert m in Mapped(s) <==> m in View(k.c, s);
  }

  /** Two pages have the same address only if they are the same page of the same line. */
  lemma AddrOfInjective(g: Geo, a: Ppa, b: Ppa)
    requires GeoOk(g) && a.line < g.blks && b.line < g.blks && a.off < PgsPerLine(g) && b.off < PgsPerLine(g)
    requires AddrOf(g, a) == AddrOf(g, b)
    ensures a == b
  {
    var t, u := SlotOf(g, a.off), SlotOf(g, b.off);
    MixSplit(Mix(t.ch, g.luns, t.lun), g.blks, a.line);
    MixSplit(Mix(u.ch, g.luns, u.lun), g.blks, b.line);
    SlotInLine(g, a.off);
    SlotInLine(g, b.off);
    MixSplit(t.ch, g.luns, t.lun);
    MixSplit(u.ch, g.luns, u.lun);
    OffsetSlotOf(g, a.off);
    OffsetSlotOf(g, b.off);
  }

  lemma SlotInLine(g: Geo, k: nat)
    requires GeoOk(g)
    ensures SlotOf(g, k).ch < g.nchs && SlotOf(g, k).lun < g.luns
  {
  }

  /** After any run, a read fetches every page that holds one of its sectors and was ever
      written exactly once, and nothing else. */
  method ReadAfter(m: R.Maps, secsPerPg: nat, slba: nat, length: nat, ghost k: Params, ghost g: Geo,
                   ghost cmds: seq<WriteCmd>)
    returns (ok: bool, issued: seq<R.Read>, ghost groups: seq<seq<nat>>)
    requires GeoOk(g) && ParamsOk(k) && k.c.pgsz >= 1 && secsPerPg == k.secsPerPg && Run(k, Start(k), cmds).Ok?
    requires m == MapsOf(k, g, Run(k, Start(k), cmds).value)
    ensures ok <==> (slba + length) / secsPerPg / k.np < k.c.ttPgs
    ensures !ok ==> issued == []
    ensures ok ==> R.MapsOk(m) && R.Covers(m, issued, groups) && R.Apart(m, issued)
    ensures ok ==>
      forall x: nat ::
        R.Occurs(R.Flat(groups), x) ==
          if R.Touches(slba, length, secsPerPg, x) && LastWriter(k, cmds, x).Some? then 1 else 0
  {
    RunSafe(k, cmds);
    hide Run, Start, DevInv, R.Occurs, R.Touches, R.Flat, R.Covers, R.Apart, MapsOf, LastWriter, R.Bytes;
    ghost var d := Run(k, Start(k), cmds).value;
    MapsOfOk(k, g, d);
    ok, issued, groups := R.FdpRead(m, secsPerPg, slba, length);
    if ok {
      forall x: nat
        ensures R.Occurs(R.Flat(groups), x) ==
          if R.Touches(slba, length, secsPerPg, x) && LastWriter(k, cmds, x).Some? then 1 else 0
      {
        TouchedWritten(k, g, cmds, slba, length, x);
      }
    }
  }

  lemma TouchedWritten(k: Params, g: Geo, cmds: seq<WriteCmd>, slba: nat, length: nat, x: nat)
    requires GeoOk(g) && ParamsOk(k) && k.c.pgsz >= 1 && Run(k, Start(k), cmds).Ok?
    requires R.MapsOk(MapsOf(k, g, Run(k, Start(k), cmds).value))
    requires (slba + length) / k.secsPerPg / k.np < k.c.ttPgs
    ensures
      var m := MapsOf(k, g, Run(k, Start(k), cmds).value);
      R.Touches(slba, length, k.secsPerPg, x) ==>
        R.InRange(m, x) && (R.Lookup(m, x).Some? <==> LastWriter(k, cmds, x).Some?)
  {
    hide Run, Start, MapsOf, LastWriter, R.Touches, DevInv, Reads;
    var d := Run(k, Start(k), cmds).value;
    R.TouchedPages(slba, length, k.secsPerPg, x);
    if R.Touches(slba, length, k.secsPerPg, x) {
      DivMonotone(x, (slba + length) / k.secsPerPg, k.np);
      MapsOfOk(k, g, d);
      RunSafe(k, cmds);
      PageMapped(k, g, d, x);
      ReadsLastWrite(k, cmds, x);
    }
  }
}

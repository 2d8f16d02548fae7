/** The theorems for the configurations that fdp_init_params and conv_init_params set up on
    a given flash geometry. */
module FdpConfig {
  import opened Geometry
  import opened FtlModel
  import opened FtlInv
  import opened FtlLayout
  import opened FtlSpace
  import opened FdpDevice
  import opened FdpTheorems
  import opened FdpAccounting

  /** The FDP device: GC starts at one free line per handle and one for itself. */
  ghost function FdpParams(g: Geo, n: nat, np: nat, secsPerPg: nat, lbaSize: nat): Params
    requires GeoOk(g)
  {
    Params(ConfigOf(g, n, n + 1, secsPerPg * lbaSize), np, secsPerPg, lbaSize)
  }

  lemma FdpParamsOk(g: Geo, n: nat, np: nat, secsPerPg: nat, lbaSize: nat)
    requires LayoutOk(g, n) && np >= 1 && secsPerPg >= 1
    ensures ParamsOk(FdpParams(g, n, np, secsPerPg, lbaSize)) && CountsOk(FdpParams(g, n, np, secsPerPg, lbaSize))
  {
    LayoutConfigOk(g, n, n + 1, secsPerPg * lbaSize);
  }

  /** k is an FDP device with N handles on geometry g. */
  ghost predicate IsFdp(k: Params, g: Geo, n: nat) {
    LayoutOk(g, n) && ParamsOk(k) && k == FdpParams(g, n, k.np, k.secsPerPg, k.lbaSize)
  }

  /** Free lines never run out on the FDP device while every partition sees fewer than
      (tt_lines - 2 (N + 1)) * pgs_per_line distinct logical pages, and throughout the run
      the free page slots, those of the open lines included, exceed the write credits by at
      least (N + 1)(P + 1). */
  lemma FdpFreeLines(k: Params, g: Geo, n: nat, cmds: seq<WriteCmd>)
    requires IsFdp(k, g, n)
    requires forall i: nat :: i < k.np ==> |Touched(k, cmds, i)| < (g.blks - 2 * (n + 1)) * PgsPerLine(g)
    ensures Run(k, Start(k), cmds).Ok?
    ensures forall i: nat :: i < k.np ==>
      var s := Run(k, Start(k), cmds).value.parts[i];
      FreeSlots(k.c, s) - s.credits >= (n + 1) * (PgsPerLine(g) + 1)
  {
    assert Limit(k.c) == (g.blks - 2 * (n + 1)) * PgsPerLine(g);
    FreeLinesSuffice(k, cmds);
    ReserveProduct(n, PgsPerLine(g));
    assert Reserve(k.c) == (n + 1) * (PgsPerLine(g) + 1);
    var d := Run(k, Start(k), cmds).value;
    forall i: nat | i < k.np
      ensures FreeSlots(k.c, d.parts[i]) - d.parts[i].credits >= (n + 1) * (PgsPerLine(g) + 1)
    {
      assert SpaceOk(k.c, d.parts[i]);
    }
  }

  lemma ReserveProduct(n: nat, p: nat)
    ensures n * p + n + p + 1 == (n + 1) * (p + 1)
  {
  }

  /** conv_write does not look at the directive fields. */
  function Undirected(cmds: seq<WriteCmd>): (r: seq<WriteCmd>)
    ensures |r| == |cmds| && forall j :: 0 <= j < |r| ==> r[j] == cmds[j].(dtype := 0, dspec := 0) && !Placed(r[j])
  {
    if cmds == [] then [] else [cmds[0].(dtype := 0, dspec := 0)] + Undirected(cmds[1..])
  }

  /** conv_ftl.c is the device with one host frontier, whose GC threshold is 2, on commands
      of any kind with their directives ignored. */
  lemma ConvFreeLines(k: Params, g: Geo, cmds: seq<WriteCmd>)
    requires IsFdp(k, g, 1)
    requires forall i: nat :: i < k.np ==> |Touched(k, Undirected(cmds), i)| < (g.blks - 4) * PgsPerLine(g)
    ensures k.c.threshold == 2 && Run(k, Start(k), Undirected(cmds)).Ok?
  {
    FdpFreeLines(k, g, 1, Undirected(cmds));
  }
}

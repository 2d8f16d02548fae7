/** The FTL configuration that a flash geometry gives rise to: which block each place of
    a line belongs to, and the order in which do_gc sweeps a victim line. */
module FtlLayout {
  import opened Common
  import opened Finite
  import opened Geometry
  import opened FtlModel
  import opened FtlInv

  /** The block of a line that LUN (ch, lun) contributes. */
  function BlockAt(g: Geo, ch: nat, lun: nat): (r: nat) { Mix(ch, g.luns, lun) }

  /** The block of a line that holds its place k. */
  function BlockOfPlace(g: Geo, k: nat): (r: nat)
    requires g.nchs >= 1 && g.luns >= 1 && g.oneshot >= 1
  {
    BlockAt(g, SlotOf(g, k).ch, SlotOf(g, k).lun)
  }

  /** What do_gc still has to do when its loops stand at flash page f of LUN (ch, lun),
      page i of that flash page: clean page by page, and erase the block after its last
      flash page. */
  function StepsFrom(g: Geo, f: nat, ch: nat, lun: nat, i: nat): (r: seq<SweepStep>)
    requires g.oneshot >= 1 && f <= g.flashes && ch <= g.nchs && lun <= g.luns && i <= g.flash
    decreases g.flashes - f, g.nchs - ch, g.luns - lun, g.flash - i
  {
    if f == g.flashes then []
    else if ch == g.nchs then StepsFrom(g, f + 1, 0, 0, 0)
    else if lun == g.luns then StepsFrom(g, f, ch + 1, 0, 0)
    else if i == g.flash then
      (if f + 1 == g.flashes then [Erase(BlockAt(g, ch, lun))] else []) + StepsFrom(g, f, ch, lun + 1, 0)
    else
      [Clean(Offset(g, Slot(ch, lun, Mix(f, g.flash, i))))] + StepsFrom(g, f, ch, lun, i + 1)
  }

  function ConfigOf(g: Geo, n: nat, threshold: nat, pgsz: nat): (c: Config)
    requires g.nchs >= 1 && g.luns >= 1 && g.oneshot >= 1
  {
    Config(n, g.blks, PgsPerLine(g), TotalPgs(g), threshold, BlksPerLine(g), PgsPerBlk(g),
           seq(PgsPerLine(g), (k: nat) => BlockOfPlace(g, k)),
           StepsFrom(g, 0, 0, 0, 0), pgsz)
  }

  ghost predicate LayoutOk(g: Geo, n: nat) {
    GeoOk(g) && n >= 1 && n + 1 <= g.blks && PgsPerLine(g) < TWO_32
  }

  // ---------------------------------------------------------------- blocks

  lemma BlockBound(g: Geo, ch: nat, lun: nat)
    requires ch < g.nchs && lun < g.luns
    ensures BlockAt(g, ch, lun) < BlksPerLine(g)
  {
    MixBound(ch, g.nchs, g.luns, lun);
  }

  lemma LinePositive(g: Geo)
    requires GeoOk(g)
    ensures PgsPerLine(g) >= 1
  {
    OffsetBound(g, Slot(0, 0, 0));
  }

  lemma LayoutBasic(g: Geo, n: nat, threshold: nat, pgsz: nat)
    requires LayoutOk(g, n)
    ensures Basic(ConfigOf(g, n, threshold, pgsz))
  {
    LinePositive(g);
    forall k: nat | k < PgsPerLine(g)
      ensures BlockOfPlace(g, k) < BlksPerLine(g)
    {
      OffsetSlotOf(g, k);
      BlockBound(g, SlotOf(g, k).ch, SlotOf(g, k).lun);
    }
  }

  /** Page pg of LUN (ch, lun) lies in that LUN's block... */
  lemma PlaceOfPage(g: Geo, ch: nat, lun: nat, pg: nat)
    requires GeoOk(g) && ch < g.nchs && lun < g.luns && pg < PgsPerBlk(g)
    ensures Offset(g, Slot(ch, lun, pg)) < PgsPerLine(g)
    ensures SlotOf(g, Offset(g, Slot(ch, lun, pg))) == Slot(ch, lun, pg)
    ensures BlockOfPlace(g, Offset(g, Slot(ch, lun, pg))) == BlockAt(g, ch, lun)
  {
    OffsetBound(g, Slot(ch, lun, pg));
    SlotOfOffset(g, Slot(ch, lun, pg));
  }

  /** ...and no other page does. */
  lemma PageOfPlace(g: Geo, ch: nat, lun: nat, k: nat)
    requires GeoOk(g) && ch < g.nchs && lun < g.luns && k < PgsPerLine(g)
    requires BlockOfPlace(g, k) == BlockAt(g, ch, lun)
    ensures SlotOf(g, k).ch == ch && SlotOf(g, k).lun == lun
    ensures SlotOf(g, k).pg < PgsPerBlk(g) && Offset(g, Slot(ch, lun, SlotOf(g, k).pg)) == k
  {
    hide Mix;
    var s := SlotOf(g, k);
    OffsetSlotOf(g, k);
    MixSplit(s.ch, g.luns, s.lun);
    MixSplit(ch, g.luns, lun);
  }

  lemma LunOfBlock(g: Geo, b: nat) returns (ch: nat, lun: nat)
    requires GeoOk(g) && b < BlksPerLine(g)
    ensures ch < g.nchs && lun < g.luns && BlockAt(g, ch, lun) == b
  {
    ch, lun := b / g.luns, b % g.luns;
    MixJoin(b, g.luns);
    DivBound(b, g.nchs, g.luns);
  }

  lemma LayoutBlocks(g: Geo, n: nat, threshold: nat, pgsz: nat)
    requires LayoutOk(g, n)
    ensures ConfigOf(g, n, threshold, pgsz).p == PgsPerLine(g)
    ensures |ConfigOf(g, n, threshold, pgsz).blockOf| == PgsPerLine(g)
    ensures forall k: nat :: k < PgsPerLine(g) ==>
      ConfigOf(g, n, threshold, pgsz).blockOf[k] == BlockOfPlace(g, k)
  {
    hide Mix, Offset, SlotOf, BlockOfPlace, PgsPerLine, PgsPerBlk, BlksPerLine, StepsFrom, TotalPgs;
  }

  /** Every block holds pgs_per_blk places of the line. */
  lemma BlockCard(g: Geo, n: nat, threshold: nat, pgsz: nat, b: nat)
    requires LayoutOk(g, n) && b < BlksPerLine(g)
    ensures |InBlock(ConfigOf(g, n, threshold, pgsz), Range(PgsPerLine(g)), b)| == PgsPerBlk(g)
  {
    var ch, lun := LunOfBlock(g, b);
    LayoutBlocks(g, n, threshold, pgsz);
    hide Mix, Offset, SlotOf, BlockAt, BlockOfPlace, PgsPerLine, PgsPerBlk, BlksPerLine, ConfigOf, LayoutOk,
         GeoOk;
    var c := ConfigOf(g, n, threshold, pgsz);
    var pages := Range(PgsPerBlk(g));
    var image := InBlock(c, Range(PgsPerLine(g)), b);
    var f := map pg | pg in pages :: Offset(g, Slot(ch, lun, pg));
    var inv := map k | k in image :: SlotOf(g, k).pg;
    forall pg | pg in pages
      ensures f[pg] in image && inv[f[pg]] == pg
    {
      PlaceOfPage(g, ch, lun, pg);
    }
    forall k | k in image
      ensures inv[k] in pages && f[inv[k]] == k
    {
      PageOfPlace(g, ch, lun, k);
    }
    BijectionCard(pages, image, f, inv);
  }

  // ---------------------------------------------------------------- the sweep

  /** The flash page that holds page pg of a block, and the place within it. */
  function FlashPage(g: Geo, pg: nat): (r: nat)
    requires g.flash >= 1
  {
    pg / g.flash
  }

  function FlashIndex(g: Geo, pg: nat): (r: nat)
    requires g.flash >= 1
  {
    pg % g.flash
  }

  /** The loops have passed page s of the victim line. */
  ghost predicate Passed(g: Geo, s: Slot, f: nat, ch: nat, lun: nat, i: nat)
    requires g.flash >= 1
  {
    var sf, si := FlashPage(g, s.pg), FlashIndex(g, s.pg);
    || sf < f
    || (sf == f && s.ch < ch)
    || (sf == f && s.ch == ch && s.lun < lun)
    || (sf == f && s.ch == ch && s.lun == lun && si < i)
  }

  ghost function CleanedAt(g: Geo, f: nat, ch: nat, lun: nat, i: nat): set<nat>
    requires GeoOk(g)
  {
    set k | k in Range(PgsPerLine(g)) && Passed(g, SlotOf(g, k), f, ch, lun, i)
  }

  ghost function ErasedAt(g: Geo, f: nat, ch: nat, lun: nat): set<nat> {
    if f + 1 < g.flashes then {}
    else if f + 1 == g.flashes then Range(BlockAt(g, ch, lun))
    else Range(BlksPerLine(g))
  }

  /** The loop indices are within bounds, and inner ones start over. */
  ghost predicate AtLoop(g: Geo, f: nat, ch: nat, lun: nat, i: nat) {
    && f <= g.flashes && ch <= g.nchs && lun <= g.luns && i <= g.flash
    && (f == g.flashes ==> ch == 0 && lun == 0 && i == 0)
    && (ch == g.nchs ==> lun == 0 && i == 0)
    && (lun == g.luns ==> i == 0)
  }

  lemma FlashOf(g: Geo, pg: nat)
    requires GeoOk(g) && pg < PgsPerBlk(g)
    ensures FlashPage(g, pg) < g.flashes && FlashIndex(g, pg) < g.flash
  {
    assert PgsPerBlk(g) == g.flashes * g.flash;
    DivBound(pg, g.flashes, g.flash);
  }

  /** Two loop positions between which nothing happens have passed the same pages. */
  lemma SameCleaned(g: Geo, f: nat, ch: nat, lun: nat, i: nat, f1: nat, ch1: nat, lun1: nat)
    requires GeoOk(g) && AtLoop(g, f, ch, lun, i) && f < g.flashes
    requires
      || (f1 == f + 1 && ch == g.nchs && ch1 == 0 && lun1 == 0)
      || (f1 == f && ch1 == ch + 1 && lun == g.luns && lun1 == 0)
      || (f1 == f && ch1 == ch && lun1 == lun + 1 && i == g.flash)
    ensures CleanedAt(g, f, ch, lun, i) == CleanedAt(g, f1, ch1, lun1, 0)
  {
    hide SlotOf, Offset, PgsPerLine, PgsPerBlk, FlashPage, FlashIndex;
    forall k | k in Range(PgsPerLine(g))
      ensures Passed(g, SlotOf(g, k), f, ch, lun, i) <==> Passed(g, SlotOf(g, k), f1, ch1, lun1, 0)
    {
      OffsetSlotOf(g, k);
      FlashOf(g, SlotOf(g, k).pg);
    }
  }

  lemma AllCleaned(g: Geo)
    requires GeoOk(g)
    ensures CleanedAt(g, 0, 0, 0, 0) == {}
    ensures CleanedAt(g, g.flashes, 0, 0, 0) == Range(PgsPerLine(g))
  {
    assert g.flash >= 1 && g.nchs >= 1 && g.luns >= 1 && g.oneshot >= 1;
    hide SlotOf, Offset, PgsPerLine, PgsPerBlk, GeoOk, FlashPage, FlashIndex;
    forall k | k in Range(PgsPerLine(g))
      ensures Passed(g, SlotOf(g, k), g.flashes, 0, 0, 0)
    {
      OffsetSlotOf(g, k);
      FlashOf(g, SlotOf(g, k).pg);
    }
  }

  /** The page that the loops clean next. */
  function GcPage(g: Geo, f: nat, ch: nat, lun: nat, i: nat): (r: Slot) { Slot(ch, lun, Mix(f, g.flash, i)) }

  lemma GcPageFits(g: Geo, f: nat, ch: nat, lun: nat, i: nat)
    requires GeoOk(g) && f < g.flashes && ch < g.nchs && lun < g.luns && i < g.flash
    ensures InLine(g, GcPage(g, f, ch, lun, i))
    ensures FlashPage(g, Mix(f, g.flash, i)) == f && FlashIndex(g, Mix(f, g.flash, i)) == i
  {
    MixBound(f, g.flashes, g.flash, i);
    MixSplit(f, g.flash, i);
    assert PgsPerBlk(g) == g.flashes * g.flash;
  }

  lemma SamePage(g: Geo, pg: nat, f: nat, i: nat)
    requires g.flash >= 1 && FlashPage(g, pg) == f && FlashIndex(g, pg) == i
    ensures pg == Mix(f, g.flash, i)
  {
    MixJoin(pg, g.flash);
  }

  lemma CleanedNext(g: Geo, f: nat, ch: nat, lun: nat, i: nat) returns (k: nat)
    requires GeoOk(g) && f < g.flashes && ch < g.nchs && lun < g.luns && i < g.flash
    ensures k == Offset(g, GcPage(g, f, ch, lun, i)) < PgsPerLine(g)
    ensures k !in CleanedAt(g, f, ch, lun, i)
    ensures CleanedAt(g, f, ch, lun, i) + {k} == CleanedAt(g, f, ch, lun, i + 1)
  {
    GcPageFits(g, f, ch, lun, i);
    hide SlotOf, Offset, PgsPerLine, PgsPerBlk, GeoOk, Mix, FlashPage, FlashIndex;
    var s := GcPage(g, f, ch, lun, i);
    k := Offset(g, s);
    OffsetBound(g, s);
    SlotOfOffset(g, s);
    forall j | j in Range(PgsPerLine(g))
      ensures Passed(g, SlotOf(g, j), f, ch, lun, i + 1) <==> j == k || Passed(g, SlotOf(g, j), f, ch, lun, i)
    {
      OffsetSlotOf(g, j);
      var t := SlotOf(g, j);
      if t.ch == ch && t.lun == lun && FlashPage(g, t.pg) == f && FlashIndex(g, t.pg) == i {
        SamePage(g, t.pg, f, i);
      }
    }
  }

  lemma BlockCleaned(g: Geo, ch: nat, lun: nat, k: nat)
    requires GeoOk(g) && ch < g.nchs && lun < g.luns && k < PgsPerLine(g)
    requires BlockOfPlace(g, k) == BlockAt(g, ch, lun)
    ensures k in CleanedAt(g, g.flashes - 1, ch, lun, g.flash)
  {
    PageOfPlace(g, ch, lun, k);
    FlashOf(g, SlotOf(g, k).pg);
  }

  lemma SameErased(g: Geo, f: nat, ch: nat, lun: nat, f1: nat, ch1: nat, lun1: nat)
    requires GeoOk(g) && f < g.flashes
    requires
      || (f1 == f + 1 && ch == g.nchs && lun == 0 && ch1 == 0 && lun1 == 0)
      || (f1 == f && ch1 == ch + 1 && lun == g.luns && lun1 == 0)
    ensures ErasedAt(g, f, ch, lun) == ErasedAt(g, f1, ch1, lun1)
  {
    assert BlockAt(g, 0, 0) == 0;
    assert BlockAt(g, g.nchs, 0) == BlksPerLine(g);
    assert BlockAt(g, ch, g.luns) == BlockAt(g, ch + 1, 0) by {
      assert (ch + 1) * g.luns == ch * g.luns + g.luns;
    }
  }

  lemma ErasedNext(g: Geo, f: nat, ch: nat, lun: nat)
    requires GeoOk(g) && f < g.flashes
    ensures f + 1 < g.flashes ==> ErasedAt(g, f, ch, lun) == ErasedAt(g, f, ch, lun + 1)
    ensures f + 1 == g.flashes ==>
      && BlockAt(g, ch, lun) !in ErasedAt(g, f, ch, lun)
      && ErasedAt(g, f, ch, lun) + {BlockAt(g, ch, lun)} == ErasedAt(g, f, ch, lun + 1)
  {
  }

  lemma LunCleaned(g: Geo, n: nat, threshold: nat, pgsz: nat, ch: nat, lun: nat)
    requires LayoutOk(g, n) && ch < g.nchs && lun < g.luns
    ensures BlockDone(ConfigOf(g, n, threshold, pgsz), BlockAt(g, ch, lun),
                      CleanedAt(g, g.flashes - 1, ch, lun, g.flash))
  {
    var c := ConfigOf(g, n, threshold, pgsz);
    LayoutBlocks(g, n, threshold, pgsz);
    hide ConfigOf, CleanedAt, BlockAt, BlockOfPlace, PgsPerLine, PgsPerBlk, BlksPerLine;
    forall k | 0 <= k < |c.blockOf| && c.blockOf[k] == BlockAt(g, ch, lun)
      ensures k in CleanedAt(g, g.flashes - 1, ch, lun, g.flash)
    {
      BlockCleaned(g, ch, lun, k);
    }
  }

  /** Every page of block b has been cleaned. */
  ghost predicate BlockDone(c: Config, b: nat, cleaned: set<nat>) {
    forall k :: 0 <= k < |c.blockOf| && c.blockOf[k] == b ==> k in cleaned
  }

  lemma SweepDone(c: Config, cleaned: set<nat>, erased: set<nat>)
    requires cleaned == Range(c.p) && erased == Range(c.nblks)
    ensures SweepFrom(c, [], cleaned, erased)
  {
  }

  lemma SweepClean(c: Config, k: nat, rest: seq<SweepStep>, cleaned: set<nat>, erased: set<nat>)
    requires k < c.p && k !in cleaned && SweepFrom(c, rest, cleaned + {k}, erased)
    ensures SweepFrom(c, [Clean(k)] + rest, cleaned, erased)
  {
    assert ([Clean(k)] + rest)[1..] == rest;
  }

  lemma SweepErase(c: Config, b: nat, rest: seq<SweepStep>, cleaned: set<nat>, erased: set<nat>)
    requires b < c.nblks && b !in erased && BlockDone(c, b, cleaned)
    requires SweepFrom(c, rest, cleaned, erased + {b})
    ensures SweepFrom(c, [Erase(b)] + rest, cleaned, erased)
  {
    assert ([Erase(b)] + rest)[1..] == rest;
  }

  lemma NextStep(g: Geo, f: nat, ch: nat, lun: nat, i: nat)
    requires g.oneshot >= 1 && f <= g.flashes && ch <= g.nchs && lun <= g.luns && i <= g.flash
    ensures StepsFrom(g, f, ch, lun, i) ==
      if f == g.flashes then []
      else if ch == g.nchs then StepsFrom(g, f + 1, 0, 0, 0)
      else if lun == g.luns then StepsFrom(g, f, ch + 1, 0, 0)
      else if i == g.flash then
        (if f + 1 == g.flashes then [Erase(BlockAt(g, ch, lun))] else []) + StepsFrom(g, f, ch, lun + 1, 0)
      else [Clean(Offset(g, GcPage(g, f, ch, lun, i)))] + StepsFrom(g, f, ch, lun, i + 1)
  {
  }

  /** From this position on, the loops complete a proper sweep. */
  ghost predicate Sweeps(g: Geo, c: Config, f: nat, ch: nat, lun: nat, i: nat)
    requires GeoOk(g) && AtLoop(g, f, ch, lun, i)
  {
    SweepFrom(c, StepsFrom(g, f, ch, lun, i), CleanedAt(g, f, ch, lun, i), ErasedAt(g, f, ch, lun))
  }

  lemma SweepsAtEnd(g: Geo, n: nat, threshold: nat, pgsz: nat)
    requires LayoutOk(g, n)
    ensures Sweeps(g, ConfigOf(g, n, threshold, pgsz), g.flashes, 0, 0, 0)
  {
    AllCleaned(g);
    LastErased(g);
    NextStep(g, g.flashes, 0, 0, 0);
    SweepDone(ConfigOf(g, n, threshold, pgsz), Range(PgsPerLine(g)), Range(BlksPerLine(g)));
  }

  lemma SweepsChannel(g: Geo, c: Config, f: nat, ch: nat)
    requires GeoOk(g) && f < g.flashes && ch < g.nchs && Sweeps(g, c, f, ch + 1, 0, 0)
    ensures Sweeps(g, c, f, ch, g.luns, 0)
  {
    SameCleaned(g, f, ch, g.luns, 0, f, ch + 1, 0);
    SameErased(g, f, ch, g.luns, f, ch + 1, 0);
    NextStep(g, f, ch, g.luns, 0);
  }

  lemma SweepsRow(g: Geo, c: Config, f: nat)
    requires GeoOk(g) && f < g.flashes && Sweeps(g, c, f + 1, 0, 0, 0)
    ensures Sweeps(g, c, f, g.nchs, 0, 0)
  {
    SameCleaned(g, f, g.nchs, 0, 0, f + 1, 0, 0);
    SameErased(g, f, g.nchs, 0, f + 1, 0, 0);
    NextStep(g, f, g.nchs, 0, 0);
  }

  lemma SweepsLun(g: Geo, n: nat, threshold: nat, pgsz: nat, f: nat, ch: nat, lun: nat)
    requires LayoutOk(g, n) && f < g.flashes && ch < g.nchs && lun < g.luns
    requires Sweeps(g, ConfigOf(g, n, threshold, pgsz), f, ch, lun + 1, 0)
    ensures Sweeps(g, ConfigOf(g, n, threshold, pgsz), f, ch, lun, g.flash)
  {
    hide SweepFrom, StepsFrom, CleanedAt, ErasedAt, BlockAt, Mix, PgsPerLine, BlockDone;
    SameCleaned(g, f, ch, lun, g.flash, f, ch, lun + 1);
    ErasedNext(g, f, ch, lun);
    NextStep(g, f, ch, lun, g.flash);
    var rest := StepsFrom(g, f, ch, lun + 1, 0);
    if f + 1 == g.flashes {
      BlockBound(g, ch, lun);
      LunCleaned(g, n, threshold, pgsz, ch, lun);
      SweepErase(ConfigOf(g, n, threshold, pgsz), BlockAt(g, ch, lun), rest,
                 CleanedAt(g, f, ch, lun, g.flash), ErasedAt(g, f, ch, lun));
    } else {
      assert [] + rest == rest;
    }
  }

  lemma SweepsPage(g: Geo, n: nat, threshold: nat, pgsz: nat, f: nat, ch: nat, lun: nat, i: nat)
    requires LayoutOk(g, n) && f < g.flashes && ch < g.nchs && lun < g.luns && i < g.flash
    requires Sweeps(g, ConfigOf(g, n, threshold, pgsz), f, ch, lun, i + 1)
    ensures Sweeps(g, ConfigOf(g, n, threshold, pgsz), f, ch, lun, i)
  {
    var k := CleanedNext(g, f, ch, lun, i);
    NextStep(g, f, ch, lun, i);
    SweepClean(ConfigOf(g, n, threshold, pgsz), k, StepsFrom(g, f, ch, lun, i + 1),
               CleanedAt(g, f, ch, lun, i), ErasedAt(g, f, ch, lun));
  }

  /** do_gc's loops, from any position, complete a proper sweep. */
  lemma {:induction false} LoopsSweep(g: Geo, n: nat, threshold: nat, pgsz: nat, f: nat, ch: nat, lun: nat, i: nat)
    requires LayoutOk(g, n) && AtLoop(g, f, ch, lun, i)
    ensures Sweeps(g, ConfigOf(g, n, threshold, pgsz), f, ch, lun, i)
    decreases g.flashes - f, g.nchs - ch, g.luns - lun, g.flash - i
  {
    hide Sweeps, ConfigOf;
    if f == g.flashes {
      SweepsAtEnd(g, n, threshold, pgsz);
    } else if ch == g.nchs {
      LoopsSweep(g, n, threshold, pgsz, f + 1, 0, 0, 0);
      SweepsRow(g, ConfigOf(g, n, threshold, pgsz), f);
    } else if lun == g.luns {
      LoopsSweep(g, n, threshold, pgsz, f, ch + 1, 0, 0);
      SweepsChannel(g, ConfigOf(g, n, threshold, pgsz), f, ch);
    } else if i == g.flash {
      LoopsSweep(g, n, threshold, pgsz, f, ch, lun + 1, 0);
      SweepsLun(g, n, threshold, pgsz, f, ch, lun);
    } else {
      LoopsSweep(g, n, threshold, pgsz, f, ch, lun, i + 1);
      SweepsPage(g, n, threshold, pgsz, f, ch, lun, i);
    }
  }

  lemma LastErased(g: Geo)
    requires GeoOk(g)
    ensures ErasedAt(g, 0, 0, 0) == {}
    ensures ErasedAt(g, g.flashes, 0, 0) == Range(BlksPerLine(g))
  {
  }

  /** Every flash geometry yields a configuration for which the theorems about the FTL hold. */
  lemma LayoutConfigOk(g: Geo, n: nat, threshold: nat, pgsz: nat)
    requires LayoutOk(g, n)
    ensures ConfigOk(ConfigOf(g, n, threshold, pgsz))
    ensures BlksPerLine(g) * PgsPerBlk(g) == PgsPerLine(g)
    ensures g.blks * PgsPerLine(g) == TotalPgs(g)
  {
    LayoutBasic(g, n, threshold, pgsz);
    forall b | 0 <= b < BlksPerLine(g)
      ensures |InBlock(ConfigOf(g, n, threshold, pgsz), Range(PgsPerLine(g)), b)| == PgsPerBlk(g)
    {
      BlockCard(g, n, threshold, pgsz, b);
    }
    LoopsSweep(g, n, threshold, pgsz, 0, 0, 0, 0);
    AllCleaned(g);
    LastErased(g);
    TotalProduct(PgsPerBlk(g), g.blks, g.luns, g.nchs);
  }

  lemma TotalProduct(p: nat, b: nat, l: nat, n: nat)
    ensures b * ((n * l) * p) == p * b * l * n
  {
    assert (n * l) * p == p * (l * n);
    assert b * (p * (l * n)) == (p * b) * (l * n) == ((p * b) * l) * n;
  }
}

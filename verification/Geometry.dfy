/** Flash geometry (ssd.c, ssd.h) and the order in which a line is programmed.

    A line is block `blk` of every LUN.  The write pointer fills a one-shot page, then
    moves to the next channel, then to the next LUN, then to the next one-shot row. */
module Geometry {
  import opened Common

  datatype Geo = Geo(
    nchs: nat, luns: nat,            // channels, LUNs per channel
    oneshot: nat, oneshots: nat,     // pages per one-shot page, one-shot pages per block
    flash: nat, flashes: nat,        // pages per flash page, flash pages per block
    blks: nat)                       // blocks per plane, which is the number of lines

  /** Position of a page within its line. */
  datatype Slot = Slot(ch: nat, lun: nat, pg: nat)

  function PgsPerBlk(g: Geo): (r: nat) { g.oneshot * g.oneshots }
  function BlksPerLine(g: Geo): (r: nat) { g.nchs * g.luns }
  function PgsPerLine(g: Geo): (r: nat) { BlksPerLine(g) * PgsPerBlk(g) }
  function TotalPgs(g: Geo): (r: nat) { PgsPerBlk(g) * g.blks * g.luns * g.nchs }

  ghost predicate GeoOk(g: Geo) {
    && g.nchs >= 1 && g.luns >= 1 && g.oneshot >= 1 && g.oneshots >= 1 && g.flash >= 1 && g.flashes >= 1 && g.blks >= 1
    && g.flash * g.flashes == PgsPerBlk(g)
  }

  ghost predicate InLine(g: Geo, s: Slot) {
    s.ch < g.nchs && s.lun < g.luns && s.pg < PgsPerBlk(g)
  }

  // ---------------------------------------------------------------- mixed radix

  /** Digit b below digit a, in radix n. */
  function Mix(a: nat, n: nat, b: nat): (r: nat) { a * n + b }

  lemma MixBound(a: nat, m: nat, n: nat, b: nat)
    requires a < m && b < n
    ensures Mix(a, n, b) < m * n
  {
    MulMonotone(a + 1, m, n);
    assert (a + 1) * n == a * n + n;
  }

  lemma MixSplit(a: nat, n: nat, b: nat)
    requires b < n
    ensures Mix(a, n, b) / n == a && Mix(a, n, b) % n == b
  {
    DivModUnique(Mix(a, n, b), n, a, b);
  }

  lemma MixJoin(x: nat, n: nat)
    requires n >= 1
    ensures Mix(x / n, n, x % n) == x && x % n < n
  {
  }

  lemma DivBound(x: nat, m: nat, n: nat)
    requires n >= 1 && x < m * n
    ensures x / n < m
  {
    MixJoin(x, n);
    if x / n >= m {
      MulMonotone(m, x / n, n);
    }
  }

  // ---------------------------------------------------------------- programming order

  /** The place of a page in the order in which its line is programmed. */
  function Offset(g: Geo, s: Slot): (r: nat)
    requires g.oneshot >= 1
  {
    Mix(Mix(Mix(s.pg / g.oneshot, g.luns, s.lun), g.nchs, s.ch), g.oneshot, s.pg % g.oneshot)
  }

  /** The page programmed at place k. */
  function SlotOf(g: Geo, k: nat): (r: Slot)
    requires g.nchs >= 1 && g.luns >= 1 && g.oneshot >= 1
  {
    var q: nat := k / g.oneshot;
    var q1: nat := q / g.nchs;
    var row: nat := q1 / g.luns;
    Slot(q % g.nchs, q1 % g.luns, Mix(row, g.oneshot, k % g.oneshot))
  }

  lemma LineProduct(g: Geo)
    ensures ((g.oneshots * g.luns) * g.nchs) * g.oneshot == PgsPerLine(g)
  {
    var a, b, c, d := g.oneshots, g.luns, g.nchs, g.oneshot;
    assert ((a * b) * c) * d == (a * (b * c)) * d == (b * c) * (a * d);
  }

  /** Offset numbers the pages of a line below pgs_per_line... */
  lemma OffsetBound(g: Geo, s: Slot)
    requires GeoOk(g) && InLine(g, s)
    ensures Offset(g, s) < PgsPerLine(g)
  {
    var a := s.pg / g.oneshot;
    assert PgsPerBlk(g) == g.oneshots * g.oneshot;
    DivBound(s.pg, g.oneshots, g.oneshot);
    MixBound(a, g.oneshots, g.luns, s.lun);
    MixBound(Mix(a, g.luns, s.lun), g.oneshots * g.luns, g.nchs, s.ch);
    MixBound(Mix(Mix(a, g.luns, s.lun), g.nchs, s.ch), (g.oneshots * g.luns) * g.nchs, g.oneshot, s.pg % g.oneshot);
    LineProduct(g);
  }

  /** ...without gaps or repetitions: SlotOf undoes it... */
  lemma SlotOfOffset(g: Geo, s: Slot)
    requires GeoOk(g) && InLine(g, s)
    ensures SlotOf(g, Offset(g, s)) == s
  {
    hide Mix;
    var a, b := s.pg / g.oneshot, s.pg % g.oneshot;
    var x := Mix(a, g.luns, s.lun);
    var y := Mix(x, g.nchs, s.ch);
    MixSplit(a, g.luns, s.lun);
    MixSplit(x, g.nchs, s.ch);
    MixSplit(y, g.oneshot, b);
    MixJoin(s.pg, g.oneshot);
  }

  /** ...in both directions. */
  lemma OffsetSlotOf(g: Geo, k: nat)
    requires GeoOk(g) && k < PgsPerLine(g)
    ensures InLine(g, SlotOf(g, k)) && Offset(g, SlotOf(g, k)) == k
  {
    var q := k / g.oneshot;
    var q1 := q / g.nchs;
    var a := q1 / g.luns;
    LineProduct(g);
    DivBound(k, (g.oneshots * g.luns) * g.nchs, g.oneshot);
    DivBound(q, g.oneshots * g.luns, g.nchs);
    DivBound(q1, g.oneshots, g.luns);
    MixBound(a, g.oneshots, g.oneshot, k % g.oneshot);
    OffsetDigits(g, k);
  }

  lemma OffsetDigits(g: Geo, k: nat)
    requires g.nchs >= 1 && g.luns >= 1 && g.oneshot >= 1
    ensures Offset(g, SlotOf(g, k)) == k
  {
    hide Mix;
    var q := k / g.oneshot;
    var q1 := q / g.nchs;
    MixSplit(q1 / g.luns, g.oneshot, k % g.oneshot);
    MixJoin(q1, g.luns);
    MixJoin(q, g.nchs);
    MixJoin(k, g.oneshot);
  }

  // ---------------------------------------------------------------- the write pointer

  /** advance_write_pointer's arithmetic: the next page, or None at the end of the line. */
  datatype Next = Inside(s: Slot) | LineDone

  function AdvanceSlot(g: Geo, s: Slot): (r: Next)
    requires g.oneshot >= 1
  {
    var pg := s.pg + 1;
    if pg % g.oneshot != 0 then Inside(Slot(s.ch, s.lun, pg))
    else if s.ch + 1 != g.nchs then Inside(Slot(s.ch + 1, s.lun, if pg >= g.oneshot then pg - g.oneshot else 0))
    else if s.lun + 1 != g.luns then Inside(Slot(0, s.lun + 1, if pg >= g.oneshot then pg - g.oneshot else 0))
    else if pg != PgsPerBlk(g) then Inside(Slot(0, 0, pg))
    else LineDone
  }

  lemma NextPage(pg: nat, n: nat)
    requires n >= 1
    ensures pg % n + 1 < n ==> (pg + 1) / n == pg / n && (pg + 1) % n == pg % n + 1
    ensures pg % n + 1 == n ==> pg + 1 >= n && (pg + 1) % n == 0 && (pg + 1) / n == pg / n + 1
                                && (pg + 1 - n) / n == pg / n && (pg + 1 - n) % n == 0
    ensures pg % n + 1 == n ==> pg + 1 == (pg / n + 1) * n
  {
    var a, b := pg / n, pg % n;
    MixJoin(pg, n);
    if b + 1 < n {
      MixSplit(a, n, b + 1);
    } else {
      assert pg + 1 == (a + 1) * n + 0 == Mix(a + 1, n, 0);
      MixSplit(a + 1, n, 0);
      assert pg + 1 - n == a * n + 0 == Mix(a, n, 0);
      MixSplit(a, n, 0);
    }
  }

  lemma MixSucc(a: nat, n: nat, b: nat)
    ensures Mix(a, n, b + 1) == Mix(a, n, b) + 1
    ensures b + 1 == n ==> Mix(a + 1, n, 0) == Mix(a, n, b) + 1
  {
  }

  lemma RowDone(a: nat, oneshots: nat, n: nat)
    requires a < oneshots && n >= 1
    ensures (a + 1) * n == oneshots * n <==> a + 1 == oneshots
  {
    if a + 1 < oneshots {
      MulMonotone(a + 2, oneshots, n);
      assert (a + 2) * n == (a + 1) * n + n;
    }
  }

  lemma LastPlace(g: Geo, s: Slot)
    requires GeoOk(g) && InLine(g, s)
    requires s.pg / g.oneshot + 1 == g.oneshots && s.lun + 1 == g.luns && s.ch + 1 == g.nchs
    requires s.pg % g.oneshot + 1 == g.oneshot
    ensures Offset(g, s) + 1 == PgsPerLine(g)
  {
    var a := s.pg / g.oneshot;
    MixSucc(a, g.luns, s.lun);
    MixSucc(Mix(a, g.luns, s.lun), g.nchs, s.ch);
    MixSucc(Mix(Mix(a, g.luns, s.lun), g.nchs, s.ch), g.oneshot, s.pg % g.oneshot);
    LineProduct(g);
    assert Mix(g.oneshots, g.luns, 0) == g.oneshots * g.luns;
    assert Mix(g.oneshots * g.luns, g.nchs, 0) == (g.oneshots * g.luns) * g.nchs;
    assert Mix((g.oneshots * g.luns) * g.nchs, g.oneshot, 0) == ((g.oneshots * g.luns) * g.nchs) * g.oneshot;
  }

  /** Offset from its digits. */
  ghost function Place(g: Geo, row: nat, lun: nat, ch: nat, b: nat): nat {
    Mix(Mix(Mix(row, g.luns, lun), g.nchs, ch), g.oneshot, b)
  }

  lemma PlaceSucc(g: Geo, row: nat, lun: nat, ch: nat, b: nat)
    ensures Place(g, row, lun, ch, b + 1) == Place(g, row, lun, ch, b) + 1
    ensures b + 1 == g.oneshot ==> Place(g, row, lun, ch + 1, 0) == Place(g, row, lun, ch, b) + 1
    ensures b + 1 == g.oneshot && ch + 1 == g.nchs ==> Place(g, row, lun + 1, 0, 0) == Place(g, row, lun, ch, b) + 1
    ensures b + 1 == g.oneshot && ch + 1 == g.nchs && lun + 1 == g.luns
            ==> Place(g, row + 1, 0, 0, 0) == Place(g, row, lun, ch, b) + 1
  {
    MixSucc(row, g.luns, lun);
    MixSucc(Mix(row, g.luns, lun), g.nchs, ch);
    MixSucc(Mix(Mix(row, g.luns, lun), g.nchs, ch), g.oneshot, b);
  }

  lemma AdvanceOffset(g: Geo, s: Slot)
    requires GeoOk(g) && InLine(g, s) && AdvanceSlot(g, s).Inside?
    ensures Offset(g, AdvanceSlot(g, s).s) == Offset(g, s) + 1
  {
    hide Place, PgsPerBlk;
    var n := g.oneshot;
    var a, b := s.pg / n, s.pg % n;
    NextPage(s.pg, n);
    PlaceSucc(g, a, s.lun, s.ch, b);
    var t := AdvanceSlot(g, s).s;
    OffsetIsPlace(g, s);
    OffsetIsPlace(g, t);
  }

  lemma OffsetIsPlace(g: Geo, s: Slot)
    requires g.oneshot >= 1
    ensures Offset(g, s) == Place(g, s.pg / g.oneshot, s.lun, s.ch, s.pg % g.oneshot)
  {
  }

  lemma AdvanceEnds(g: Geo, s: Slot)
    requires GeoOk(g) && InLine(g, s) && AdvanceSlot(g, s).LineDone?
    ensures Offset(g, s) + 1 == PgsPerLine(g)
  {
    hide PgsPerLine;
    var n := g.oneshot;
    NextPage(s.pg, n);
    assert PgsPerBlk(g) == g.oneshots * n;
    DivBound(s.pg, g.oneshots, n);
    RowDone(s.pg / n, g.oneshots, n);
    LastPlace(g, s);
  }

  /** The write pointer visits the places of a line one after the other and closes the
      line exactly after the last. */
  lemma AdvanceIsNext(g: Geo, s: Slot)
    requires GeoOk(g) && InLine(g, s)
    ensures
      match AdvanceSlot(g, s)
      case Inside(t) => InLine(g, t) && Offset(g, t) == Offset(g, s) + 1 && Offset(g, t) < PgsPerLine(g)
      case LineDone => Offset(g, s) + 1 == PgsPerLine(g)
  {
    hide Offset, AdvanceSlot, PgsPerLine;
    if AdvanceSlot(g, s).Inside? {
      AdvanceStays(g, s);
      AdvanceOffset(g, s);
      OffsetBound(g, AdvanceSlot(g, s).s);
    } else {
      AdvanceEnds(g, s);
    }
  }

  lemma AdvanceStays(g: Geo, s: Slot)
    requires GeoOk(g) && InLine(g, s) && AdvanceSlot(g, s).Inside?
    ensures InLine(g, AdvanceSlot(g, s).s)
  {
    var n := g.oneshot;
    NextPage(s.pg, n);
    if s.pg + 1 == PgsPerBlk(g) {
      assert PgsPerBlk(g) == g.oneshots * n;
      MixSplit(g.oneshots, n, 0);
    }
  }

  // ---------------------------------------------------------------- page indices

  /** ppa2pgidx of page s of block blk (one plane per LUN). */
  function PageIndex(g: Geo, blk: nat, s: Slot): (r: nat) {
    s.ch * (PgsPerBlk(g) * g.blks * g.luns) + s.lun * (PgsPerBlk(g) * g.blks) + blk * PgsPerBlk(g) + s.pg
  }

  /** The index as digits ch, lun, blk, pg. */
  lemma IndexDigits(g: Geo, blk: nat, s: Slot)
    ensures PageIndex(g, blk, s) == Mix(Mix(Mix(s.ch, g.luns, s.lun), g.blks, blk), PgsPerBlk(g), s.pg)
  {
    var p, k, l := PgsPerBlk(g), g.blks, g.luns;
    assert ((s.ch * l + s.lun) * k + blk) * p == (s.ch * l + s.lun) * k * p + blk * p;
    assert (s.ch * l + s.lun) * k * p == s.ch * l * k * p + s.lun * k * p;
    assert s.ch * l * k * p == s.ch * (p * k * l) by { Reorder(s.ch, l, k, p); }
    assert s.lun * k * p == s.lun * (p * k);
  }

  lemma Reorder(a: nat, l: nat, k: nat, p: nat)
    ensures a * l * k * p == a * (p * k * l)
  {
    assert a * l * k * p == (a * (l * k)) * p == a * ((l * k) * p);
    assert (l * k) * p == p * k * l by {
      assert (l * k) * p == p * (l * k) && l * k == k * l && p * (k * l) == p * k * l;
    }
  }

  /** ppa2pgidx stays below tt_pgs... */
  lemma IndexBound(g: Geo, blk: nat, s: Slot)
    requires InLine(g, s) && blk < g.blks
    ensures PageIndex(g, blk, s) < TotalPgs(g)
  {
    IndexDigits(g, blk, s);
    MixBound(s.ch, g.nchs, g.luns, s.lun);
    MixBound(Mix(s.ch, g.luns, s.lun), g.nchs * g.luns, g.blks, blk);
    MixBound(Mix(Mix(s.ch, g.luns, s.lun), g.blks, blk), (g.nchs * g.luns) * g.blks, PgsPerBlk(g), s.pg);
    Reorder(g.nchs, g.luns, g.blks, PgsPerBlk(g));
    assert ((g.nchs * g.luns) * g.blks) * PgsPerBlk(g) == g.nchs * g.luns * g.blks * PgsPerBlk(g);
    assert TotalPgs(g) == g.nchs * (PgsPerBlk(g) * g.blks * g.luns);
  }

  /** ...and tells any two pages apart. */
  lemma IndexInjective(g: Geo, b1: nat, s1: Slot, b2: nat, s2: Slot)
    requires InLine(g, s1) && InLine(g, s2) && b1 < g.blks && b2 < g.blks
    requires PageIndex(g, b1, s1) == PageIndex(g, b2, s2)
    ensures b1 == b2 && s1 == s2
  {
    hide Mix;
    IndexDigits(g, b1, s1);
    IndexDigits(g, b2, s2);
    var x1, x2 := Mix(s1.ch, g.luns, s1.lun), Mix(s2.ch, g.luns, s2.lun);
    MixSplit(Mix(x1, g.blks, b1), PgsPerBlk(g), s1.pg);
    MixSplit(Mix(x2, g.blks, b2), PgsPerBlk(g), s2.pg);
    MixSplit(x1, g.blks, b1);
    MixSplit(x2, g.blks, b2);
    MixSplit(s1.ch, g.luns, s1.lun);
    MixSplit(s2.ch, g.luns, s2.lun);
  }
}

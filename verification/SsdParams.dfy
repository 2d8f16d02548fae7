/** ssd_init_params: the flash geometry of one partition, from the capacity and the chip's
    constants (one plane per LUN). */
module SsdParams {
  import opened Common
  import opened Geometry

  datatype Chip = Chip(
    channels: nat, luns: nat,
    blksPerPln: nat,          // BLKS_PER_PLN, or 0 to derive it from blkSize
    blkSize: nat,             // BLK_SIZE
    oneshotSize: nat, flashSize: nat, pgsz: nat)

  /** What ssd_init_params asserts of the constants. */
  ghost predicate ChipOk(c: Chip, nparts: nat) {
    && nparts >= 1 && c.channels >= 1 && c.channels % nparts == 0 && c.luns >= 1 && c.pgsz >= 1
    && (c.blksPerPln >= 1 || c.blkSize >= 1)
    && c.oneshotSize >= 1 && c.flashSize >= 1
    && c.oneshotSize % c.pgsz == 0 && c.flashSize % c.pgsz == 0 && c.oneshotSize % c.flashSize == 0
  }

  lemma RoundUpCovers(a: nat, b: nat)
    requires b >= 1
    ensures DivRoundUp(a, b) * b >= a && (DivRoundUp(a, b) - 1) * b < a
    ensures a >= 1 ==> DivRoundUp(a, b) >= 1
  {
    MixJoin(a + b - 1, b);
    if DivRoundUp(a, b) == 0 {
      assert (a + b - 1) / b == 0;
    }
  }

  lemma Multiple(x: nat, n: nat)
    requires n >= 1 && x >= 1 && x % n == 0
    ensures x == (x / n) * n && x / n >= 1
  {
    MixJoin(x, n);
  }

  /** (f / p) * (o / f) == o / p when everything divides. */
  lemma PagesDivide(o: nat, f: nat, p: nat)
    requires p >= 1 && f >= 1 && o >= 1 && o % p == 0 && f % p == 0 && o % f == 0
    ensures (f / p) * (o / f) == o / p
  {
    Multiple(o, p);
    Multiple(f, p);
    Multiple(o, f);
    var a, b := f / p, o / f;
    assert o == b * (a * p) == (a * b) * p + 0 by {
      assert b * (a * p) == (b * a) * p == (a * b) * p;
    }
    MixSplit(a * b, p, 0);
  }

  /** Blocks of at least `size` bytes, `blks` of them on each LUN, hold the capacity. */
  lemma Holds(cap: nat, size: nat, blks: nat, luns: nat, chs: nat, pgs: nat, pgsz: nat)
    requires cap <= size * (blks * luns * chs) && size <= pgs * pgsz
    ensures cap <= (pgs * blks * luns * chs) * pgsz
  {
    var n := blks * luns * chs;
    MulMonotone(size, pgs * pgsz, n);
    assert (pgs * pgsz) * n == (pgs * n) * pgsz by {
      assert (pgs * pgsz) * n == pgs * (pgsz * n) == pgs * (n * pgsz) == (pgs * n) * pgsz;
    }
    assert pgs * n == pgs * blks * luns * chs by {
      assert pgs * (blks * luns * chs) == pgs * (blks * luns) * chs;
      assert pgs * (blks * luns) == pgs * blks * luns;
    }
  }

  /** The geometry is consistent (flash pages tile one-shot pages tile blocks), holds at least
      the partition's share of the capacity, and is no larger than that takes: with one
      one-shot page less in each block, or with one block less on each LUN, whichever is not
      given, it would not. */
  method InitParams(c: Chip, capacity: nat, nparts: nat) returns (g: Geo)
    requires ChipOk(c, nparts) && capacity / nparts >= 1
    ensures GeoOk(g) && g.luns == c.luns && g.nchs == c.channels / nparts
    ensures g.oneshot * c.pgsz == c.oneshotSize && g.flash * c.pgsz == c.flashSize
    ensures c.blksPerPln >= 1 ==> g.blks == c.blksPerPln
    ensures capacity / nparts <= TotalPgs(g) * c.pgsz
    ensures c.blksPerPln >= 1 ==>
      ((g.oneshots - 1) * c.oneshotSize) * (g.blks * g.luns * g.nchs) < capacity / nparts
    ensures c.blksPerPln == 0 ==>
      && (g.oneshots - 1) * c.oneshotSize < c.blkSize <= g.oneshots * c.oneshotSize
      && (g.blks - 1) * (c.blkSize * g.luns * g.nchs) < capacity / nparts
  {
    Multiple(c.channels, nparts);
    var nchs := c.channels / nparts;
    var cap := capacity / nparts;
    var blks, size := Blocks(c, cap, nchs);
    var oneshots := DivRoundUp(size, c.oneshotSize);
    RoundUpCovers(size, c.oneshotSize);
    Multiple(c.oneshotSize, c.pgsz);
    Multiple(c.flashSize, c.pgsz);
    Multiple(c.oneshotSize, c.flashSize);
    PagesDivide(c.oneshotSize, c.flashSize, c.pgsz);
    var oneshot, flash := c.oneshotSize / c.pgsz, c.flashSize / c.pgsz;
    g := Geo(nchs, c.luns, oneshot, oneshots, flash, (c.oneshotSize / c.flashSize) * oneshots, blks);
    Tiles(flash, c.oneshotSize / c.flashSize, oneshots, oneshot);
    BlockBytes(oneshots, oneshot, c.pgsz, c.oneshotSize);
    Holds(cap, size, blks, c.luns, nchs, oneshot * oneshots, c.pgsz);
    if c.blksPerPln >= 1 {
      LessHolds((oneshots - 1) * c.oneshotSize, size, blks * c.luns * nchs, cap);
    }
  }

  lemma LessHolds(less: int, size: nat, n: nat, cap: nat)
    requires less < size && (size - 1) * n < cap
    ensures less * n < cap
  {
    assert less * n <= (size - 1) * n;
  }

  lemma Tiles(flash: nat, k: nat, oneshots: nat, oneshot: nat)
    requires flash * k == oneshot && k >= 1 && oneshots >= 1
    ensures flash * (k * oneshots) == oneshot * oneshots && k * oneshots >= 1
  {
    assert flash * (k * oneshots) == (flash * k) * oneshots;
    MulMonotone(1, k, oneshots);
  }

  lemma BlockBytes(oneshots: nat, oneshot: nat, pgsz: nat, oneshotSize: nat)
    requires oneshot * pgsz == oneshotSize
    ensures oneshots * oneshotSize == (oneshot * oneshots) * pgsz
  {
    assert oneshots * (oneshot * pgsz) == (oneshots * oneshot) * pgsz == (oneshot * oneshots) * pgsz;
  }

  /** The number and the size of the blocks of a plane; one of them is given. */
  method Blocks(c: Chip, cap: nat, nchs: nat) returns (blks: nat, size: nat)
    requires c.luns >= 1 && nchs >= 1 && cap >= 1 && (c.blksPerPln >= 1 || c.blkSize >= 1)
    ensures blks >= 1 && size >= 1 && cap <= size * (blks * c.luns * nchs)
    ensures c.blksPerPln >= 1 ==> blks == c.blksPerPln && (size - 1) * (blks * c.luns * nchs) < cap
    ensures c.blksPerPln == 0 ==> size == c.blkSize && (blks - 1) * (size * c.luns * nchs) < cap
  {
    if c.blksPerPln > 0 {
      blks := c.blksPerPln;
      Positive(blks, c.luns, nchs);
      size := DivRoundUp(cap, blks * c.luns * nchs);
      RoundUpCovers(cap, blks * c.luns * nchs);
    } else {
      size := c.blkSize;
      Positive(size, c.luns, nchs);
      blks := DivRoundUp(cap, size * c.luns * nchs);
      RoundUpCovers(cap, size * c.luns * nchs);
      Commute(blks, size, c.luns, nchs);
    }
  }

  lemma Positive(a: nat, b: nat, c: nat)
    requires a >= 1 && b >= 1 && c >= 1
    ensures a * b * c >= 1
  {
    MulMonotone(1, a, b);
    MulMonotone(1, a * b, c);
  }

  lemma Commute(a: nat, b: nat, c: nat, d: nat)
    ensures a * (b * c * d) == b * (a * c * d)
  {
    assert b * c * d == b * (c * d) && a * c * d == a * (c * d);
    assert a * (b * (c * d)) == (a * b) * (c * d) == b * (a * (c * d));
  }
}

/** fdp_read: a logical range is striped over the partitions, and consecutive pages of one
    partition that lie on one flash page are read together.

    The mapping tables are inputs; FtlInv proves that every mapped entry is a valid
    address. */
module ReadPath {
  import opened Common
  import opened Finite
  import opened Geometry

  /** A physical page: its block (blk_in_ssd) and its page number in the block. */
  datatype PageAddr = PageAddr(blk: nat, pg: nat)

  /** One NAND_READ issued to a partition. */
  datatype Read = Read(part: nat, addr: PageAddr, bytes: nat)

  /** The mapping tables of the partitions. */
  datatype Maps = Maps(n: nat, tables: seq<seq<Option<PageAddr>>>, flash: nat, pgsz: nat)

  ghost predicate MapsOk(m: Maps) {
    && m.n >= 1 && |m.tables| == m.n && m.flash >= 1 && m.pgsz >= 1
    && forall p, q :: 0 <= p < m.n && 0 <= q < m.n ==> |m.tables[p]| == |m.tables[q]|
  }

  ghost predicate InRange(m: Maps, lpn: nat)
    requires MapsOk(m)
  {
    lpn / m.n < |m.tables[0]|
  }

  /** get_maptbl_ent in the partition of lpn. */
  function Lookup(m: Maps, lpn: nat): (r: Option<PageAddr>)
    requires MapsOk(m) && InRange(m, lpn)
  {
    m.tables[lpn % m.n][lpn / m.n]
  }

  /** is_same_flash_page. */
  predicate SameFlashPage(m: Maps, a: PageAddr, b: PageAddr)
    requires m.flash >= 1
  {
    a.blk == b.blk && a.pg / m.flash == b.pg / m.flash
  }

  /** Page a of a block lies on its f-th flash page. */
  ghost predicate OnFlash(m: Maps, a: PageAddr, blk: nat, f: nat) {
    a.blk == blk && f * m.flash <= a.pg < (f + 1) * m.flash
  }

  /** The flash page of a page. */
  ghost function FlashOf(m: Maps, a: PageAddr): nat
    requires m.flash >= 1
  {
    a.pg / m.flash
  }

  /** The test compares blocks and flash pages. */
  lemma SameFlashIff(m: Maps, a: PageAddr, b: PageAddr)
    requires m.flash >= 1
    ensures OnFlash(m, a, a.blk, FlashOf(m, a))
    ensures SameFlashPage(m, a, b) <==> OnFlash(m, b, a.blk, FlashOf(m, a))
    ensures SameFlashPage(m, a, b) <==> exists blk: nat, f: nat :: OnFlash(m, a, blk, f) && OnFlash(m, b, blk, f)
  {
    FlashIs(m, a);
    FlashIs(m, b);
    forall blk: nat, f: nat | OnFlash(m, a, blk, f) && OnFlash(m, b, blk, f)
      ensures a.blk == b.blk && a.pg / m.flash == f == b.pg / m.flash
    {
      FlashUnique(m, a, f);
      FlashUnique(m, b, f);
    }
    if SameFlashPage(m, a, b) {
      assert OnFlash(m, a, a.blk, FlashOf(m, a)) && OnFlash(m, b, a.blk, FlashOf(m, a));
    } else if OnFlash(m, b, a.blk, FlashOf(m, a)) {
      FlashUnique(m, b, FlashOf(m, a));
    }
  }

  lemma FlashIs(m: Maps, a: PageAddr)
    requires m.flash >= 1
    ensures OnFlash(m, a, a.blk, a.pg / m.flash)
  {
    MixJoin(a.pg, m.flash);
    assert (a.pg / m.flash + 1) * m.flash == (a.pg / m.flash) * m.flash + m.flash;
  }

  lemma FlashUnique(m: Maps, a: PageAddr, f: nat)
    requires m.flash >= 1 && OnFlash(m, a, a.blk, f)
    ensures a.pg / m.flash == f
  {
    assert (f + 1) * m.flash == f * m.flash + m.flash;
    MixSplit(f, m.flash, a.pg - f * m.flash);
  }

  /** The pages are not on one flash page of one block. */
  ghost predicate Elsewhere(m: Maps, a: PageAddr, b: PageAddr) {
    forall blk: nat, f: nat :: !(OnFlash(m, a, blk, f) && OnFlash(m, b, blk, f))
  }

  // ---------------------------------------------------------------- striping

  /** The logical pages that the inner loop visits from lpn on. */
  ghost function Visits(lpn: nat, end: nat, n: nat): seq<nat>
    requires n >= 1
    decreases end + n - lpn
  {
    if lpn > end then [] else [lpn] + Visits(lpn + n, end, n)
  }

  ghost function MappedOf(m: Maps, lpns: seq<nat>): seq<nat>
    requires MapsOk(m)
  {
    if lpns == [] then []
    else MappedOf(m, lpns[..|lpns| - 1]) +
         if InRange(m, lpns[|lpns| - 1]) && Lookup(m, lpns[|lpns| - 1]).Some? then [lpns[|lpns| - 1]] else []
  }

  ghost function Flat(groups: seq<seq<nat>>): seq<nat> {
    if groups == [] then [] else Flat(groups[..|groups| - 1]) + groups[|groups| - 1]
  }

  // ---------------------------------------------------------------- one partition

  /** What the reads issued so far cover: each group lies on one flash page of one
      partition, and its bytes are its pages. */
  ghost predicate Covers(m: Maps, issued: seq<Read>, groups: seq<seq<nat>>)
    requires MapsOk(m)
  {
    && |issued| == |groups|
    && forall j :: 0 <= j < |issued| ==> Covered(m, issued[j], groups[j])
  }

  ghost predicate Covered(m: Maps, r: Read, g: seq<nat>)
    requires MapsOk(m)
  {
    g != [] && r.bytes == m.pgsz * |g| && OnFlashPage(m, r.part, r.addr, g)
  }

  /** All pages of g are mapped to the flash page of a, in this partition. */
  ghost predicate OnFlashPage(m: Maps, part: nat, a: PageAddr, g: seq<nat>)
    requires MapsOk(m)
  {
    forall i :: 0 <= i < |g| ==>
      && g[i] % m.n == part && InRange(m, g[i]) && Lookup(m, g[i]).Some?
      && OnFlash(m, Lookup(m, g[i]).value, a.blk, FlashOf(m, a))
  }

  /** Reads of one partition that follow each other are of different flash pages. */
  ghost predicate Apart(m: Maps, issued: seq<Read>) {
    forall j :: 0 <= j < |issued| - 1 && issued[j].part == issued[j + 1].part ==> ApartAt(m, issued, j)
  }

  ghost predicate ApartAt(m: Maps, issued: seq<Read>, j: nat)
    requires j + 1 < |issued|
  {
    Elsewhere(m, issued[j].addr, issued[j + 1].addr)
  }

  lemma FlatAppend(groups: seq<seq<nat>>, g: seq<nat>)
    ensures Flat(groups + [g]) == Flat(groups) + g
  {
    assert (groups + [g])[..|groups|] == groups;
  }

  lemma MappedAppend(m: Maps, lpns: seq<nat>, lpn: nat)
    requires MapsOk(m) && InRange(m, lpn)
    ensures MappedOf(m, lpns + [lpn]) == MappedOf(m, lpns) + if Lookup(m, lpn).Some? then [lpn] else []
  {
    assert (lpns + [lpn])[..|lpns|] == lpns;
  }

  lemma StepStays(lpn: nat, n: nat)
    requires n >= 1
    ensures (lpn + n) % n == lpn % n
  {
    MixJoin(lpn, n);
    assert lpn + n == (lpn / n + 1) * n + lpn % n;
    MixSplit(lpn / n + 1, n, lpn % n);
  }

  lemma RangeBelow(m: Maps, lpn: nat, end: nat)
    requires MapsOk(m) && InRange(m, end) && lpn <= end
    ensures InRange(m, lpn)
  {
    MixJoin(end, m.n);
    assert (end / m.n + 1) * m.n == (end / m.n) * m.n + m.n;
    DivBound(lpn, end / m.n + 1, m.n);
  }

  /** The reads issued for one partition, and the pages g gathered since, cover `seen`. */
  ghost predicate Gathered(m: Maps, part: nat, issued: seq<Read>, groups: seq<seq<nat>>, prev: Option<PageAddr>,
                           xfer: nat, g: seq<nat>, seen: seq<nat>)
    requires MapsOk(m)
  {
    && Covers(m, issued, groups) && (forall j :: 0 <= j < |issued| ==> issued[j].part == part)
    && Flat(groups) + g == MappedOf(m, seen) && xfer == m.pgsz * |g|
    && (g != [] ==> prev.Some? && OnFlashPage(m, part, prev.value, g))
    && Apart(m, issued)
    && (issued != [] ==> g != [] && prev.Some? && Elsewhere(m, issued[|issued| - 1].addr, prev.value))
  }

  /** fdp_read's inner loop for the partition of start. */
  method ReadPartition(m: Maps, start: nat, end: nat) returns (issued: seq<Read>, ghost groups: seq<seq<nat>>)
    requires MapsOk(m) && start <= end && InRange(m, end)
    ensures Covers(m, issued, groups) && Apart(m, issued)
    ensures forall j :: 0 <= j < |issued| ==> issued[j].part == start % m.n
    ensures Flat(groups) == MappedOf(m, Visits(start, end, m.n))
  {
    var part := start % m.n;
    RangeBelow(m, start, end);
    var prev := Lookup(m, start);
    var xfer := 0;
    ghost var g: seq<nat> := [];
    ghost var seen: seq<nat> := [];
    issued, groups := [], [];
    var lpn := start;
    GatheredNone(m, part, prev);
    assert m.n >= 1;
    hide Flat, MappedOf, Gathered, Covers, Lookup, InRange, MapsOk, Visits, SeenTo;
    SeenNone(start, end, m.n);
    while lpn <= end
      invariant SeenTo(seen, start, lpn, end, m.n) && Gathered(m, part, issued, groups, prev, xfer, g, seen)
      invariant g == [] && prev.Some? ==> lpn == start && prev == Lookup(m, start)
      decreases end + m.n - lpn
    {
      RangeBelow(m, lpn, end);
      SeenNext(seen, start, lpn, end, m.n);
      var cur := Lookup(m, lpn);
      issued, groups, prev, xfer, g := Absorb(m, part, lpn, cur, issued, groups, prev, xfer, g, seen);
      seen := seen + [lpn];
      lpn := lpn + m.n;
    }
    SeenAll(seen, start, lpn, end, m.n);
    issued, groups := Finish(m, part, issued, groups, prev, xfer, g, seen);
  }

  /** The inner loop has seen its stripe up to lpn. */
  ghost predicate SeenTo(seen: seq<nat>, start: nat, lpn: nat, end: nat, n: nat)
    requires n >= 1
  {
    lpn % n == start % n && seen + Visits(lpn, end, n) == Visits(start, end, n)
  }

  lemma SeenNone(start: nat, end: nat, n: nat)
    requires n >= 1
    ensures SeenTo([], start, start, end, n)
  {
    assert [] + Visits(start, end, n) == Visits(start, end, n);
  }

  lemma SeenNext(seen: seq<nat>, start: nat, lpn: nat, end: nat, n: nat)
    requires n >= 1 && lpn <= end && SeenTo(seen, start, lpn, end, n)
    ensures lpn % n == start % n && SeenTo(seen + [lpn], start, lpn + n, end, n)
  {
    StepStays(lpn, n);
    assert seen + [lpn] + Visits(lpn + n, end, n) == seen + Visits(lpn, end, n);
  }

  lemma SeenAll(seen: seq<nat>, start: nat, lpn: nat, end: nat, n: nat)
    requires n >= 1 && lpn > end && SeenTo(seen, start, lpn, end, n)
    ensures seen == Visits(start, end, n)
  {
    assert seen + [] == seen;
  }

  lemma GatheredNone(m: Maps, part: nat, prev: Option<PageAddr>)
    requires MapsOk(m)
    ensures Gathered(m, part, [], [], prev, 0, [], [])
  {
    assert m.pgsz * 0 == 0;
  }

  /** One round of the inner loop. */
  method Absorb(m: Maps, part: nat, lpn: nat, cur: Option<PageAddr>, issued: seq<Read>, ghost groups: seq<seq<nat>>,
                prev: Option<PageAddr>, xfer: nat, ghost g: seq<nat>, ghost seen: seq<nat>)
    returns (issued1: seq<Read>, ghost groups1: seq<seq<nat>>, prev1: Option<PageAddr>, xfer1: nat, ghost g1: seq<nat>)
    requires MapsOk(m) && InRange(m, lpn) && cur == Lookup(m, lpn) && lpn % m.n == part
    requires Gathered(m, part, issued, groups, prev, xfer, g, seen)
    requires g == [] && prev.Some? ==> prev == cur
    ensures Gathered(m, part, issued1, groups1, prev1, xfer1, g1, seen + [lpn])
    ensures g1 == [] ==> prev1 == None
  {
    hide Flat, MappedOf, Lookup, InRange;
    MappedAppend(m, seen, lpn);
    issued1, groups1, prev1, xfer1, g1 := issued, groups, prev, xfer, g;
    if cur.None? {
      return;
    }
    if prev.Some? {
      SameFlashIff(m, prev.value, cur.value);
    }
    hide OnFlash;
    if prev.Some? && SameFlashPage(m, cur.value, prev.value) {
      xfer1, g1 := xfer + m.pgsz, g + [lpn];
      return;
    }
    if xfer > 0 {
      FlatAppend(groups, g);
      IssueNext(m, issued, Read(part, prev.value, xfer), cur.value);
      issued1, groups1 := issued + [Read(part, prev.value, xfer)], groups + [g];
    }
    SameFlashIff(m, cur.value, cur.value);
    prev1, xfer1, g1 := cur, m.pgsz, [lpn];
  }

  lemma IssueNext(m: Maps, issued: seq<Read>, r: Read, next: PageAddr)
    requires m.flash >= 1 && Apart(m, issued)
    requires issued != [] ==> Elsewhere(m, issued[|issued| - 1].addr, r.addr)
    ensures Apart(m, issued + [r])
    ensures !SameFlashPage(m, r.addr, next) ==> Elsewhere(m, (issued + [r])[|issued|].addr, next)
  {
    SameFlashIff(m, r.addr, next);
    var all := issued + [r];
    forall j | 0 <= j < |all| - 1 && all[j].part == all[j + 1].part
      ensures ApartAt(m, all, j)
    {
      if j + 1 < |issued| {
        assert ApartAt(m, issued, j);
      }
    }
  }

  /** The read that remains after the inner loop. */
  method Finish(m: Maps, part: nat, issued: seq<Read>, ghost groups: seq<seq<nat>>,
                prev: Option<PageAddr>, xfer: nat, ghost g: seq<nat>, ghost seen: seq<nat>)
    returns (issued1: seq<Read>, ghost groups1: seq<seq<nat>>)
    requires MapsOk(m) && Gathered(m, part, issued, groups, prev, xfer, g, seen)
    ensures Covers(m, issued1, groups1) && (forall j :: 0 <= j < |issued1| ==> issued1[j].part == part)
    ensures Apart(m, issued1)
    ensures Flat(groups1) == MappedOf(m, seen)
  {
    hide Flat, MappedOf;
    issued1, groups1 := issued, groups;
    if xfer > 0 {
      FlatAppend(groups, g);
      IssueNext(m, issued, Read(part, prev.value, xfer), prev.value);
      issued1, groups1 := issued + [Read(part, prev.value, xfer)], groups + [g];
    } else {
      assert g == [];
    }
  }

  // ---------------------------------------------------------------- the whole range

  /** The logical pages in the order in which the nested loops visit them: k partitions. */
  ghost function Order(start: nat, end: nat, n: nat, k: nat): seq<nat>
    requires n >= 1
  {
    if k == 0 then [] else Order(start, end, n, k - 1) + Visits(start + k - 1, end, n)
  }

  /** How often x occurs in l. */
  ghost function Occurs(l: seq<nat>, x: nat): nat { multiset(l)[x] }

  lemma OccursAppend(l: seq<nat>, r: seq<nat>, x: nat)
    ensures Occurs(l + r, x) == Occurs(l, x) + Occurs(r, x)
  {
  }

  function Rem(d: nat, n: nat): (r: nat)
    requires n >= 1
    ensures r < n
  {
    d % n
  }

  /** The inner loop passes each page of its stripe once. */
  lemma {:induction false} VisitsOnce(s: nat, end: nat, n: nat, x: nat)
    requires n >= 1
    ensures Occurs(Visits(s, end, n), x) == if s <= x <= end && Rem(x - s, n) == 0 then 1 else 0
    decreases end + n - s
  {
    hide Rem, Occurs;
    if s > end {
      OccursNone(x);
    } else {
      VisitsOnce(s + n, end, n, x);
      OccursAppend([s], Visits(s + n, end, n), x);
      OccursOne(s, x);
      if s <= x {
        NextInStripe(s, n, x);
      }
    }
  }

  lemma OccursNone(x: nat)
    ensures Occurs([], x) == 0
  {
  }

  lemma OccursOne(s: nat, x: nat)
    ensures Occurs([s], x) == if x == s then 1 else 0
  {
  }

  lemma NextInStripe(s: nat, n: nat, x: nat)
    requires n >= 1 && s <= x
    ensures Rem(x - s, n) == 0 <==> x == s || (s + n <= x && Rem(x - (s + n), n) == 0)
  {
    var d := x - s;
    MixJoin(d, n);
    if d < n {
      MixSplit(0, n, d);
    } else {
      StepStays(d - n, n);
    }
  }

  lemma StripeOf(start: nat, n: nat, x: nat, i: nat)
    requires n >= 1 && start <= x && i < n
    ensures start + i <= x && Rem(x - (start + i), n) == 0 <==> Rem(x - start, n) == i
  {
    if x < start + i {
      MixSplit(0, n, x - start);
    } else {
      var d := x - start - i;
      MixJoin(d, n);
      MixJoin(x - start, n);
      if d % n == 0 {
        assert x - start == (d / n) * n + i;
        MixSplit(d / n, n, i);
      } else if (x - start) % n == i {
        assert d == ((x - start) / n) * n + 0;
        MixSplit((x - start) / n, n, 0);
      }
    }
  }

  /** 1 if the first k stripes pass x. */
  ghost function Hit(start: nat, end: nat, n: nat, k: nat, x: nat): nat
    requires n >= 1
  {
    if start <= x <= end && Rem(x - start, n) < k then 1 else 0
  }

  lemma HitNext(start: nat, end: nat, n: nat, i: nat, x: nat)
    requires n >= 1 && i < n
    ensures Hit(start, end, n, i + 1, x) ==
      Hit(start, end, n, i, x) + if start + i <= x <= end && Rem(x - (start + i), n) == 0 then 1 else 0
  {
    if start <= x {
      StripeOf(start, n, x, i);
    }
  }

  /** The first k stripes pass exactly the pages whose distance from start is below k modulo n. */
  lemma {:induction false} OrderOnce(start: nat, end: nat, n: nat, k: nat, x: nat)
    requires n >= 1 && k <= n
    ensures Occurs(Order(start, end, n, k), x) == Hit(start, end, n, k, x)
  {
    hide *;
    if k == 0 {
      OrderNone(start, end, n, x);
    } else {
      OrderOnce(start, end, n, k - 1, x);
      OrderOccurs(start, end, n, k - 1, x);
      VisitsOnce(start + (k - 1), end, n, x);
      HitNext(start, end, n, k - 1, x);
    }
  }

  lemma OrderNone(start: nat, end: nat, n: nat, x: nat)
    requires n >= 1
    ensures Occurs(Order(start, end, n, 0), x) == 0 == Hit(start, end, n, 0, x)
  {
  }

  lemma OrderOccurs(start: nat, end: nat, n: nat, i: nat, x: nat)
    requires n >= 1
    ensures Occurs(Order(start, end, n, i + 1), x) ==
      Occurs(Order(start, end, n, i), x) + Occurs(Visits(start + i, end, n), x)
  {
    OrderNext(start, end, n, i);
    hide Visits, Order;
    OccursAppend(Order(start, end, n, i), Visits(start + i, end, n), x);
  }

  lemma {:induction false} MappedOccurs(m: Maps, l: seq<nat>, x: nat)
    requires MapsOk(m)
    ensures Occurs(MappedOf(m, l), x) == if InRange(m, x) && Lookup(m, x).Some? then Occurs(l, x) else 0
  {
    hide Lookup, InRange, Occurs;
    OccursNone(x);
    if l != [] {
      var n := |l| - 1;
      MappedOccurs(m, l[..n], x);
      assert l == l[..n] + [l[n]];
      OccursAppend(l[..n], [l[n]], x);
      OccursOne(l[n], x);
      var last := if InRange(m, l[n]) && Lookup(m, l[n]).Some? then [l[n]] else [];
      OccursAppend(MappedOf(m, l[..n]), last, x);
    }
  }

  lemma {:induction false} MappedConcat(m: Maps, a: seq<nat>, b: seq<nat>)
    requires MapsOk(m)
    ensures MappedOf(m, a + b) == MappedOf(m, a) + MappedOf(m, b)
  {
    if b == [] {
      assert a + b == a;
    } else {
      var n := |b| - 1;
      assert (a + b)[..|a + b| - 1] == a + b[..n];
      MappedConcat(m, a, b[..n]);
    }
  }

  lemma {:induction false} FlatConcat(a: seq<seq<nat>>, b: seq<seq<nat>>)
    ensures Flat(a + b) == Flat(a) + Flat(b)
  {
    if b == [] {
      assert a + b == a;
    } else {
      var n := |b| - 1;
      assert (a + b)[..|a + b| - 1] == a + b[..n];
      FlatConcat(a, b[..n]);
    }
  }

  ghost function Bytes(issued: seq<Read>): nat {
    if issued == [] then 0 else Bytes(issued[..|issued| - 1]) + issued[|issued| - 1].bytes
  }

  lemma {:induction false} BytesFlat(m: Maps, issued: seq<Read>, groups: seq<seq<nat>>)
    requires MapsOk(m) && Covers(m, issued, groups)
    ensures Bytes(issued) == m.pgsz * |Flat(groups)|
  {
    if issued != [] {
      var n := |issued| - 1;
      BytesFlat(m, issued[..n], groups[..n]);
      assert Covered(m, issued[n], groups[n]);
      assert m.pgsz * (|Flat(groups[..n])| + |groups[n]|) == m.pgsz * |Flat(groups[..n])| + m.pgsz * |groups[n]|;
    }
  }

  /** The mapped pages of a range. */
  ghost function MappedSet(m: Maps, start: nat, end: nat): set<nat>
    requires MapsOk(m)
  {
    set x | x in Range(end + 1) && start <= x && InRange(m, x) && Lookup(m, x).Some?
  }

  lemma OnceCard(l: seq<nat>, s: set<nat>)
    requires forall x: nat :: Occurs(l, x) == if x in s then 1 else 0
    ensures |l| == |s|
  {
    forall x: nat
      ensures multiset(l)[x] == multiset(s)[x]
    {
      assert Occurs(l, x) == multiset(l)[x];
    }
    assert multiset(l) == multiset(s);
    assert |multiset(l)| == |l|;
  }

  /** Page x holds one of the length + 1 sectors from slba on. */
  ghost predicate Touches(slba: nat, length: nat, secsPerPg: nat, x: nat) {
    x * secsPerPg <= slba + length && slba < (x + 1) * secsPerPg
  }

  /** The pages of a command are those from the page of its first to that of its last sector. */
  lemma TouchedPages(slba: nat, length: nat, secsPerPg: nat, x: nat)
    requires secsPerPg >= 1
    ensures Touches(slba, length, secsPerPg, x) <==> slba / secsPerPg <= x <= (slba + length) / secsPerPg
  {
    hide *;
    FloorBelow(slba + length, secsPerPg, x);
    FloorBelow(slba, secsPerPg, x + 1);
    TouchesIs(slba, length, secsPerPg, x);
  }

  lemma TouchesIs(slba: nat, length: nat, secsPerPg: nat, x: nat)
    ensures Touches(slba, length, secsPerPg, x) <==>
      x * secsPerPg <= slba + length && !((x + 1) * secsPerPg <= slba)
  {
  }

  lemma FloorBelow(a: nat, b: nat, x: nat)
    requires b >= 1
    ensures x * b <= a <==> x <= a / b
  {
    MixJoin(a, b);
    if x <= a / b {
      MulMonotone(x, a / b, b);
    } else {
      MulMonotone(a / b + 1, x, b);
      assert (a / b + 1) * b == (a / b) * b + b;
    }
  }

  /** fdp_read: every mapped page that holds a sector of the command is read once, from its
      own partition; each read is of one flash page of one block, reads that follow each
      other are of different ones; and the bytes read are those of the mapped pages. */
  method FdpRead(m: Maps, secsPerPg: nat, slba: nat, length: nat)
    returns (ok: bool, issued: seq<Read>, ghost groups: seq<seq<nat>>)
    requires MapsOk(m) && secsPerPg >= 1
    ensures ok == InRange(m, (slba + length) / secsPerPg)
    ensures !ok ==> issued == []
    ensures ok ==>
      && Covers(m, issued, groups) && Apart(m, issued)
      && (forall x: nat :: Occurs(Flat(groups), x) ==
            if Touches(slba, length, secsPerPg, x) && InRange(m, x) && Lookup(m, x).Some? then 1 else 0)
      && Bytes(issued) == m.pgsz * |MappedSet(m, slba / secsPerPg, (slba + length) / secsPerPg)|
  {
    var start, end := slba / secsPerPg, (slba + length) / secsPerPg;
    if end / m.n >= |m.tables[0]| {
      return false, [], [];
    }
    DivMonotone(slba, slba + length, secsPerPg);
    issued, groups := ReadStripes(m, start, end);
    hide Flat, MappedOf, Order, Covered, MapsOk, InRange, Occurs, MappedSet, Bytes, Touches, Apart;
    ReadsAll(m, start, end, issued, groups);
    forall x: nat
      ensures Occurs(Flat(groups), x) ==
        if Touches(slba, length, secsPerPg, x) && InRange(m, x) && Lookup(m, x).Some? then 1 else 0
    {
      InMappedSet(m, start, end, x);
      TouchedPages(slba, length, secsPerPg, x);
    }
    ok := true;
  }

  lemma InMappedSet(m: Maps, start: nat, end: nat, x: nat)
    requires MapsOk(m)
    ensures x in MappedSet(m, start, end) <==> start <= x <= end && InRange(m, x) && Lookup(m, x).Some?
  {
  }

  /** fdp_read's outer loop. */
  method ReadStripes(m: Maps, start: nat, end: nat) returns (issued: seq<Read>, ghost groups: seq<seq<nat>>)
    requires MapsOk(m) && start <= end && InRange(m, end)
    ensures Covers(m, issued, groups) && Flat(groups) == MappedOf(m, Order(start, end, m.n, m.n)) && Apart(m, issued)
  {
    issued, groups := [], [];
    var i := 0;
    var s := start;
    StripesNone(m, start, end);
    assert m.n >= 1;
    hide Flat, MappedOf, Order, Covers, MapsOk, InRange, Visits, Stripes, Apart;
    while i < m.n && s <= end
      invariant i <= m.n && s == start + i && Stripes(m, start, end, i, issued, groups)
    {
      var batch, more := ReadPartition(m, s, end);
      StripesNext(m, start, end, i, issued, groups, batch, more);
      issued, groups := issued + batch, groups + more;
      i := i + 1;
      s := s + 1;
    }
    StripesDone(m, start, end, i, issued, groups);
  }

  /** The first i stripes have been read. */
  ghost predicate Stripes(m: Maps, start: nat, end: nat, i: nat, issued: seq<Read>, groups: seq<seq<nat>>)
    requires MapsOk(m)
  {
    && Covers(m, issued, groups) && Flat(groups) == MappedOf(m, Order(start, end, m.n, i))
    && Apart(m, issued) && forall j :: 0 <= j < |issued| ==> PartBefore(m, start, i, issued[j].part)
  }

  /** One of the first i stripes is that of partition `part`. */
  ghost predicate PartBefore(m: Maps, start: nat, i: nat, part: nat)
    requires m.n >= 1
  {
    exists s: nat :: start <= s < start + i && s % m.n == part
  }

  lemma PartsDiffer(m: Maps, start: nat, i: nat, part: nat)
    requires m.n >= 1 && i < m.n && PartBefore(m, start, i, part)
    ensures part != (start + i) % m.n
  {
    var s: nat :| start <= s < start + i && s % m.n == part;
    ModDiffers(s, start + i, m.n);
  }

  lemma ApartConcat(m: Maps, a: seq<Read>, b: seq<Read>, start: nat, i: nat)
    requires m.n >= 1 && i < m.n && Apart(m, a) && Apart(m, b)
    requires forall j :: 0 <= j < |a| ==> PartBefore(m, start, i, a[j].part)
    requires forall j :: 0 <= j < |b| ==> b[j].part == (start + i) % m.n
    ensures Apart(m, a + b)
  {
    hide Elsewhere, PartBefore;
    var all := a + b;
    forall j | 0 <= j < |all| - 1 && all[j].part == all[j + 1].part
      ensures ApartAt(m, all, j)
    {
      if j + 1 < |a| {
        assert ApartAt(m, a, j);
      } else if j >= |a| {
        assert ApartAt(m, b, j - |a|);
      } else {
        PartsDiffer(m, start, i, a[j].part);
      }
    }
  }

  lemma PartLater(m: Maps, start: nat, i: nat, part: nat)
    requires m.n >= 1 && PartBefore(m, start, i, part)
    ensures PartBefore(m, start, i + 1, part)
  {
  }

  lemma PartsBefore(m: Maps, start: nat, i: nat, a: seq<Read>, b: seq<Read>)
    requires m.n >= 1
    requires forall j :: 0 <= j < |a| ==> PartBefore(m, start, i, a[j].part)
    requires forall j :: 0 <= j < |b| ==> b[j].part == (start + i) % m.n
    ensures forall j :: 0 <= j < |a + b| ==> PartBefore(m, start, i + 1, (a + b)[j].part)
  {
    forall j | 0 <= j < |a + b|
      ensures PartBefore(m, start, i + 1, (a + b)[j].part)
    {
      if j < |a| {
        PartLater(m, start, i, a[j].part);
      } else {
        assert (start + i) % m.n == b[j - |a|].part;
      }
    }
  }

  lemma StripesNone(m: Maps, start: nat, end: nat)
    requires MapsOk(m)
    ensures Stripes(m, start, end, 0, [], [])
  {
  }

  lemma StripesNext(m: Maps, start: nat, end: nat, i: nat, issued: seq<Read>, groups: seq<seq<nat>>,
                    batch: seq<Read>, more: seq<seq<nat>>)
    requires MapsOk(m) && Stripes(m, start, end, i, issued, groups) && i < m.n
    requires Covers(m, batch, more) && Flat(more) == MappedOf(m, Visits(start + i, end, m.n))
    requires Apart(m, batch) && forall j :: 0 <= j < |batch| ==> batch[j].part == (start + i) % m.n
    ensures Stripes(m, start, end, i + 1, issued + batch, groups + more)
  {
    hide Flat, MappedOf, Order, Visits;
    hide Apart, PartBefore;
    ApartConcat(m, issued, batch, start, i);
    PartsBefore(m, start, i, issued, batch);
    FlatConcat(groups, more);
    OrderNext(start, end, m.n, i);
    MappedConcat(m, Order(start, end, m.n, i), Visits(start + i, end, m.n));
  }

  lemma StripesDone(m: Maps, start: nat, end: nat, i: nat, issued: seq<Read>, groups: seq<seq<nat>>)
    requires MapsOk(m) && Stripes(m, start, end, i, issued, groups) && i <= m.n && (i == m.n || start + i > end)
    ensures Covers(m, issued, groups) && Flat(groups) == MappedOf(m, Order(start, end, m.n, m.n)) && Apart(m, issued)
  {
    hide Flat, MappedOf, Order, Visits;
    RestIsEmpty(start, end, m.n, i);
  }

  lemma OrderNext(start: nat, end: nat, n: nat, i: nat)
    requires n >= 1
    ensures Order(start, end, n, i + 1) == Order(start, end, n, i) + Visits(start + i, end, n)
  {
  }

  /** Stripes that begin beyond the end are empty. */
  lemma {:induction false} RestIsEmpty(start: nat, end: nat, n: nat, i: nat)
    requires n >= 1 && i <= n && (i == n || start + i > end)
    ensures Order(start, end, n, n) == Order(start, end, n, i)
    decreases n - i
  {
    if i < n {
      RestIsEmpty(start, end, n, i + 1);
      assert Visits(start + i, end, n) == [];
    }
  }

  lemma ReadsAll(m: Maps, start: nat, end: nat, issued: seq<Read>, groups: seq<seq<nat>>)
    requires MapsOk(m) && start <= end && InRange(m, end) && Covers(m, issued, groups)
    requires Flat(groups) == MappedOf(m, Order(start, end, m.n, m.n))
    ensures forall x: nat :: Occurs(Flat(groups), x) == if x in MappedSet(m, start, end) then 1 else 0
    ensures Bytes(issued) == m.pgsz * |MappedSet(m, start, end)|
  {
    hide Flat, MappedOf, Order, Lookup, Occurs, Covered;
    forall x: nat
      ensures Occurs(Flat(groups), x) == if x in MappedSet(m, start, end) then 1 else 0
    {
      MappedOccurs(m, Order(start, end, m.n, m.n), x);
      OrderOnce(start, end, m.n, m.n, x);
    }
    OnceCard(Flat(groups), MappedSet(m, start, end));
    BytesFlat(m, issued, groups);
  }
}

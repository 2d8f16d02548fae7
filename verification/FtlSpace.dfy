/** Free space: what every operation does to it, and why a free line is always found. */
module FtlSpace {
  import opened Common
  import opened Finite
  import opened FtlModel
  import opened FtlInv
  import opened FtlCounts
  import opened FtlAppend
  import opened FtlInvalidate
  import opened FtlGc
  import opened FtlView
  import P = Pqueue

  ghost function Room(c: Config, wp: seq<Ppa>): seq<int> {
    seq(|wp|, i requires 0 <= i < |wp| => c.p - wp[i].off)
  }

  /** Page slots still free in the free list and in the open lines. */
  ghost function FreeSlots(c: Config, s: Ftl): int {
    |s.free| * c.p + Sum(Room(c, s.wp))
  }

  // ---------------------------------------------------------------- effect of each operation

  lemma RoomUpdate(c: Config, wp: seq<Ppa>, i: nat, w: Ppa)
    requires i < |wp|
    ensures Sum(Room(c, wp[i := w])) == Sum(Room(c, wp)) + wp[i].off - w.off
  {
    assert Room(c, wp[i := w]) == Room(c, wp)[i := c.p - w.off];
    SumUpdate(Room(c, wp), i, c.p - w.off);
  }

  /** Every append uses up exactly one slot. */
  lemma AppendSlots(c: Config, s: Ftl, i: nat, lpn: nat, data: int)
    requires Shape(c, s) && i <= c.n && Append(c, s, i, lpn, data).Ok?
    ensures FreeSlots(c, Append(c, s, i, lpn, data).value) == FreeSlots(c, s) - 1
  {
    var s1 := Append(c, s, i, lpn, data).value;
    RoomUpdate(c, s.wp, i, s1.wp[i]);
    assert s1.wp == s.wp[i := s1.wp[i]];
    if s.wp[i].off + 1 == c.p {
      assert |s1.free| == |s.free| - 1;
      assert (|s.free| - 1) * c.p == |s.free| * c.p - c.p;
    }
  }

  /** The VALID victim pages that the sweep still has to copy. */
  ghost function ToCopy(g: Gc): set<nat>
    requires g.Sweeping?
  {
    ValidOffs(g.before.pages) - g.cleaned
  }

  lemma ToCopyShrinks(g: Gc, k: nat)
    requires g.Sweeping? && k < |g.before.pages| && k !in g.cleaned
    ensures |ToCopy(g)| == |ToCopy(Cleaned(g, k))| + if g.before.pages[k].status == PgValid then 1 else 0
  {
    if g.before.pages[k].status == PgValid {
      assert ToCopy(g) == ToCopy(Cleaned(g, k)) + {k};
    } else {
      assert ToCopy(g) == ToCopy(Cleaned(g, k));
    }
  }

  lemma CleanSlots(c: Config, s: Ftl, g: Gc, k: nat)
    requires Core(c, s, g, -1) && g.Sweeping? && k < c.p && k !in g.cleaned
    requires Step(c, s, g.v, Clean(k)).Ok?
    ensures
      FreeSlots(c, Step(c, s, g.v, Clean(k)).value) - |ToCopy(Cleaned(g, k))| == FreeSlots(c, s) - |ToCopy(g)|
  {
    Unswept(c, s, g, -1, k);
    ToCopyShrinks(g, k);
    var pg := s.lines[g.v].pages[k];
    if pg.status == PgValid {
      AppendSlots(c, s, c.n, pg.lpn.value, pg.data);
    }
  }

  lemma {:induction false} SweepSlots(c: Config, s: Ftl, g: Gc, steps: seq<SweepStep>)
    requires Core(c, s, g, -1) && g.Sweeping? && SweepFrom(c, steps, g.cleaned, g.erased)
    requires Sweep(c, s, g.v, steps).Ok?
    ensures FreeSlots(c, Sweep(c, s, g.v, steps).value) == FreeSlots(c, s) - |ToCopy(g)|
    decreases |steps|
  {
    if steps == [] {
      assert ToCopy(g) == {};
    } else {
      StepKeeps(c, s, g, steps);
      if steps[0].Clean? {
        CleanSlots(c, s, g, steps[0].off);
        SweepSlots(c, Step(c, s, g.v, steps[0]).value, Cleaned(g, steps[0].off), steps[1..]);
      } else {
        SweepSlots(c, Step(c, s, g.v, steps[0]).value, Erased(g, steps[0].blk), steps[1..]);
      }
    }
  }

  lemma StartSlots(c: Config, s: Ftl)
    requires Shape(c, s) && 1 < |s.pq.d|
    ensures FreeSlots(c, SweepStart(c, s)) == FreeSlots(c, s)
    ensures ToCopy(Begin(s, s.pq.d[1])) == ValidOffs(s.lines[s.pq.d[1]].pages)
  {
  }

  lemma FreedSlots(c: Config, s: Ftl, v: nat)
    requires Shape(c, s) && v < c.lines
    ensures FreeSlots(c, MarkLineFree(c, s, v)) == FreeSlots(c, s) + c.p
  {
    assert (|s.free| + 1) * c.p == |s.free| * c.p + c.p;
  }

  /** A collection gains exactly as many slots as its victim had invalid pages, which is
      also the number of credits it grants. */
  lemma DoGcSlots(c: Config, s: Ftl)
    requires Core(c, s, Idle, -1) && SweepOk(c) && 1 < |s.pq.d| && DoGc(c, s, true).Ok?
    ensures FreeSlots(c, DoGc(c, s, true).value) == FreeSlots(c, s) + DoGc(c, s, true).value.refill
    ensures DoGc(c, s, true).value.credits == s.credits
    ensures DoGc(c, s, true).value.refill <= c.p
  {
    hide LedgerOk, CountersOk, HeapOk, LinesOk, SweptOk, MapOk, BlocksOk, Sweep, FreeSlots;
    var v := s.pq.d[1];
    var s1 := SweepStart(c, s);
    SweepStartKeeps(c, s);
    GrantedCredits(c, s);
    SweepSlots(c, s1, Begin(s, v), c.sweep);
    StartSlots(c, s);
    VictimValid(c, s);
    FreedSlots(c, Sweep(c, s1, v, c.sweep).value, v);
  }

  lemma VictimValid(c: Config, s: Ftl)
    requires Core(c, s, Idle, -1) && 1 < |s.pq.d|
    ensures |ValidOffs(s.lines[s.pq.d[1]].pages)| == s.pq.pri[s.pq.d[1]] < c.p
  {
    var v := s.pq.d[1];
    assert P.In(s.pq, v);
    assert VictimLine(c, s.lines[v], s.pq.pri[v]);
  }

  // ---------------------------------------------------------------- lines are at hand

  /** An append runs out of lines only when every slot left is in the other frontiers. */
  lemma AppendFinds(c: Config, s: Ftl, g: Gc, i: nat, lpn: nat, data: int)
    requires Core(c, s, g, lpn) && i <= c.n && lpn < c.ttPgs
    requires FreeSlots(c, s) > c.n * c.p + 1
    ensures Append(c, s, i, lpn, data).Ok?
  {
    hide LedgerOk, CountersOk, HeapOk, LinesOk, SweptOk, MapOk, BlocksOk, Append;
    AppendKeeps(c, s, g, i, lpn, data);
    if s.wp[i].off + 1 == c.p && s.free == [] {
      var r := Room(c, s.wp);
      SumUpdate(r, i, 0);
      var r0 := r[i := 0];
      DropOne(r0, i, c.p);
    }
  }

  lemma DropOne(r: seq<int>, i: nat, hi: nat)
    requires i < |r| && r[i] == 0 && forall j :: 0 <= j < |r| ==> 0 <= r[j] <= hi
    ensures Sum(r) <= (|r| - 1) * hi
  {
    var r1 := r[i := hi];
    SumUpdate(r, i, hi);
    SumBounds(r1, 0, hi);
    LessOne(|r|, hi);
  }

  lemma LessOne(n: nat, z: nat)
    requires n >= 1
    ensures n * z == (n - 1) * z + z
  {
  }

  lemma GcWriteFinds(c: Config, s: Ftl, g: Gc, a: Ppa)
    requires InRange(c, a) && LinesShaped(c, s.lines) && PageAt(c, s.lines, a).lpn.Some?
    requires PageAt(c, s.lines, a).lpn.value < c.ttPgs && Core(c, s, g, PageAt(c, s.lines, a).lpn.value)
    requires FreeSlots(c, s) > c.n * c.p + 1
    ensures GcWritePage(c, s, a).Ok?
  {
    var pg := PageAt(c, s.lines, a);
    AppendFinds(c, s, g, c.n, pg.lpn.value, pg.data);
  }

  lemma CleanFinds(c: Config, s: Ftl, g: Gc, k: nat)
    requires Core(c, s, g, -1) && g.Sweeping? && k < c.p && k !in g.cleaned
    requires FreeSlots(c, s) - |ToCopy(g)| >= c.n * c.p + 1
    ensures Step(c, s, g.v, Clean(k)).Ok?
  {
    Unswept(c, s, g, -1, k);
    if s.lines[g.v].pages[k].status == PgValid {
      PassValid(c, s, g, k);
      SubsetCard({k}, ToCopy(g));
      GcWriteFinds(c, s, Cleaned(g, k), Ppa(g.v, k));
    }
  }

  lemma {:induction false} SweepFinds(c: Config, s: Ftl, g: Gc, steps: seq<SweepStep>)
    requires Core(c, s, g, -1) && g.Sweeping? && SweepFrom(c, steps, g.cleaned, g.erased)
    requires FreeSlots(c, s) - |ToCopy(g)| >= c.n * c.p + 1
    ensures Sweep(c, s, g.v, steps).Ok?
    decreases |steps|
  {
    if steps != [] {
      StepKeeps(c, s, g, steps);
      if steps[0].Clean? {
        CleanFinds(c, s, g, steps[0].off);
        CleanSlots(c, s, g, steps[0].off);
        SweepFinds(c, Step(c, s, g.v, steps[0]).value, Cleaned(g, steps[0].off), steps[1..]);
      } else {
        SweepFinds(c, Step(c, s, g.v, steps[0]).value, Erased(g, steps[0].blk), steps[1..]);
      }
    }
  }

  /** (N+1)(P+1). */
  ghost function Reserve(c: Config): nat {
    c.n * c.p + c.n + c.p + 1
  }

  /** With (N+1)(P+1) slots in hand, a collection never runs out of lines. */
  lemma DoGcFinds(c: Config, s: Ftl)
    requires Core(c, s, Idle, -1) && SweepOk(c)
    requires FreeSlots(c, s) >= Reserve(c)
    ensures DoGc(c, s, true).Ok?
  {
    if 1 < |s.pq.d| {
      var v := s.pq.d[1];
      SweepStartKeeps(c, s);
      VictimValid(c, s);
      StartSlots(c, s);
      SweepFinds(c, SweepStart(c, s), Begin(s, v), c.sweep);
    }
  }

  // ---------------------------------------------------------------- a victim is at hand

  /** The logical pages that are mapped. */
  ghost function Mapped(s: Ftl): set<nat> {
    set m: nat | m < |s.maptbl| && s.maptbl[m].Some?
  }

  ghost function MappedOn(s: Ftl, l: nat): set<nat> {
    set m: nat | m < |s.maptbl| && s.maptbl[m].Some? && s.maptbl[m].value.line == l
  }

  ghost function MappedIn(s: Ftl, ls: seq<nat>): set<nat> {
    set m: nat | m < |s.maptbl| && s.maptbl[m].Some? && s.maptbl[m].value.line in ls
  }

  /** As many logical pages live on a line as it has VALID pages. */
  lemma MappedOnCard(c: Config, s: Ftl, l: nat)
    requires Shape(c, s) && MapOk(c, s, Idle, -1) && l < c.lines
    ensures |MappedOn(s, l)| == |ValidOffs(s.lines[l].pages)|
  {
    var a, b := MappedOn(s, l), ValidOffs(s.lines[l].pages);
    var f := map m | m in a :: s.maptbl[m].value.off;
    forall m | m in a
      ensures f[m] in b && s.lines[l].pages[f[m]].lpn == Some(m)
    {
      assert Backs(c, s.lines, Idle, s.maptbl[m].value, m);
    }
    forall k | k in b
      ensures k in (set m | m in a :: f[m])
    {
      var pg := PageAt(c, s.lines, Ppa(l, k));
      assert MappedBack(c, s.maptbl, pg, Ppa(l, k), -1);
      assert pg.lpn.value in a && f[pg.lpn.value] == k;
    }
    ImageCard(a, f, b);
  }

  lemma FullMapped(c: Config, s: Ftl, j: nat)
    requires Shape(c, s) && MapOk(c, s, Idle, -1) && FullsOk(c, s) && j < |s.full|
    ensures |MappedOn(s, s.full[j])| == c.p
  {
    MappedOnCard(c, s, s.full[j]);
    assert FullLine(c, s.lines[s.full[j]], s.pq.pri[s.full[j]]);
  }

  lemma {:induction false} MappedInCard(s: Ftl, ls: seq<nat>, p: nat)
    requires Distinct(ls)
    requires forall i :: 0 <= i < |ls| ==> |MappedOn(s, ls[i])| == p
    ensures |MappedIn(s, ls)| == |ls| * p
    decreases |ls|
  {
    if ls == [] {
      assert MappedIn(s, ls) == {};
    } else {
      var n := |ls| - 1;
      MappedInCard(s, ls[..n], p);
      assert ls == ls[..n] + [ls[n]];
      MappedInGrows(s, ls[..n], ls[n]);
      LessOne(|ls|, p);
    }
  }

  lemma MappedInGrows(s: Ftl, ls: seq<nat>, l: nat)
    requires l !in ls
    ensures |MappedIn(s, ls + [l])| == |MappedIn(s, ls)| + |MappedOn(s, l)|
  {
    assert MappedIn(s, ls + [l]) == MappedIn(s, ls) + MappedOn(s, l);
    assert MappedIn(s, ls) !! MappedOn(s, l);
  }

  lemma FullDistinct(c: Config, s: Ftl)
    requires Shape(c, s) && LedgerOk(c, s, Idle)
    ensures Distinct(s.full)
  {
    forall i, j | 0 <= i < j < |s.full|
      ensures s.full[i] != s.full[j]
    {
      if s.full[i] == s.full[j] {
        TwiceCounted(s.full, i, j);
        LineOnce(c, s, Idle, s.full[i]);
      }
    }
  }

  /** Lines that are neither free at the GC threshold nor open. */
  ghost function Committed(c: Config): int {
    c.lines - (c.n + 1) - c.threshold
  }

  /** The pages that the committed lines hold. */
  ghost function Limit(c: Config): int {
    Committed(c) * c.p
  }

  lemma Monotone(a: int, b: int, p: nat)
    requires a <= b
    ensures a * p <= b * p
  {
  }

  /** When GC is due and fewer pages are mapped than the committed lines hold, the heap
      has a victim. */
  lemma VictimAtHand(c: Config, s: Ftl)
    requires Core(c, s, Idle, -1) && s.freeCnt <= c.threshold
    requires |Mapped(s)| < Limit(c)
    ensures 1 < |s.pq.d|
  {
    if |s.pq.d| == 1 {
      CountersSum(c, s, Idle);
      FullDistinct(c, s);
      forall j | 0 <= j < |s.full|
        ensures |MappedOn(s, s.full[j])| == c.p
      {
        FullMapped(c, s, j);
      }
      MappedInCard(s, s.full, c.p);
      SubsetCard(MappedIn(s, s.full), Mapped(s));
      Monotone(Committed(c), |s.full|, c.p);
    }
  }

  // ---------------------------------------------------------------- the space invariant

  /** The free slots cover the outstanding credits and leave (N+1)(P+1) in reserve. */
  ghost predicate SpaceOk(c: Config, s: Ftl) {
    FreeSlots(c, s) - s.credits >= Reserve(c)
  }

  lemma AppendSpace(c: Config, s: Ftl, i: nat, lpn: nat, data: int)
    requires Core(c, s, Idle, lpn) && i <= c.n && lpn < c.ttPgs && SpaceOk(c, s) && s.credits >= 1
    ensures Append(c, s, i, lpn, data).Ok?
    ensures
      var s1 := Append(c, s, i, lpn, data).value;
      FreeSlots(c, s1) - s1.credits >= Reserve(c) - 1 && s1.credits == s.credits
  {
    AppendFinds(c, s, Idle, i, lpn, data);
    AppendSlots(c, s, i, lpn, data);
  }

  /** Without a collection the free lines alone back a whole refill. */
  lemma IdleRefill(c: Config, s: Ftl)
    requires Core(c, s, Idle, -1) && c.threshold >= c.n + 1 && s.freeCnt > c.threshold && s.refill <= c.p
    ensures FreeSlots(c, s) - s.refill >= Reserve(c)
  {
    SumBounds(Room(c, s.wp), 1, c.p);
    Monotone(c.n + 2, |s.free|, c.p);
    assert (c.n + 2) * c.p == c.n * c.p + 2 * c.p;
  }

  lemma CollectSpace(c: Config, s: Ftl)
    requires Core(c, s, Idle, -1) && SweepOk(c) && s.freeCnt <= c.threshold && s.credits == 0
    requires FreeSlots(c, s) >= Reserve(c) && |Mapped(s)| < Limit(c)
    ensures DoGc(c, s, true).Ok?
    ensures
      var s1 := DoGc(c, s, true).value;
      FreeSlots(c, s1) - s1.refill >= Reserve(c) && s1.credits == 0 && s1.refill <= c.p
  {
    VictimAtHand(c, s);
    DoGcFinds(c, s);
    DoGcSlots(c, s);
  }

  /** A refill, with or without a collection, is backed by free slots. */
  lemma RefillSpace(c: Config, s: Ftl)
    requires Core(c, s, Idle, -1) && SweepOk(c) && c.threshold >= c.n + 1 && s.credits == 0 && s.refill <= c.p
    requires FreeSlots(c, s) >= Reserve(c) && |Mapped(s)| < Limit(c)
    ensures ForegroundGc(c, s).Ok?
    ensures
      var s1 := ForegroundGc(c, s).value;
      FreeSlots(c, s1) - s1.refill >= Reserve(c) && s1.credits == 0 && s1.refill <= c.p
  {
    hide LedgerOk, CountersOk, HeapOk, LinesOk, SweptOk, MapOk, BlocksOk, DoGc, FreeSlots, Reserve, Limit;
    if s.freeCnt <= c.threshold {
      CollectSpace(c, s);
    } else {
      IdleRefill(c, s);
    }
  }

  lemma SpendSpace(c: Config, s: Ftl)
    requires Core(c, s, Idle, -1) && CreditsOk(c, s) && SweepOk(c) && c.threshold >= c.n + 1
    requires FreeSlots(c, s) - s.credits >= Reserve(c) - 1
    requires |Mapped(s)| < Limit(c)
    ensures SpendCredit(c, s).Ok? && SpaceOk(c, SpendCredit(c, s).value)
  {
    hide LedgerOk, CountersOk, HeapOk, LinesOk, SweptOk, MapOk, BlocksOk, ForegroundGc, Limit;
    var s1 := s.(credits := s.credits - 1);
    CoreIgnores(c, s, s1, Idle, -1);
    SlotsIgnore(c, s, s1);
    if s1.credits <= 0 {
      RefillSpace(c, s1);
      SlotsIgnore(c, ForegroundGc(c, s1).value, SpendCredit(c, s).value);
    }
  }

  lemma SlotsIgnore(c: Config, s: Ftl, s1: Ftl)
    requires s1.free == s.free && s1.wp == s.wp && s1.maptbl == s.maptbl
    ensures FreeSlots(c, s1) == FreeSlots(c, s) && Mapped(s1) == Mapped(s)
  {
  }

  lemma MappedIsView(c: Config, s: Ftl, g: Gc)
    requires Shape(c, s) && MapOk(c, s, g, -1)
    ensures Mapped(s) == View(c, s).Keys
  {
    forall m: nat | m < |s.maptbl| && s.maptbl[m].Some?
      ensures InRange(c, s.maptbl[m].value)
    {
      assert Backs(c, s.lines, g, s.maptbl[m].value, m);
    }
  }

  lemma SupersededSpace(c: Config, s: Ftl, lpn: nat, ruh: nat, data: int)
    requires Core(c, s, Idle, lpn) && CreditsOk(c, s) && SpaceOk(c, s) && lpn < c.ttPgs && ruh < c.n
    ensures Append(c, s, ruh, lpn, data).Ok?
    ensures
      var s1 := Append(c, s, ruh, lpn, data).value;
      && Core(c, s1, Idle, -1) && CreditsOk(c, s1) && FreeSlots(c, s1) - s1.credits >= Reserve(c) - 1
      && Mapped(s1) == Mapped(s) + {lpn}
  {
    AppendSpace(c, s, ruh, lpn, data);
    AppendKeeps(c, s, Idle, ruh, lpn, data);
    AppendMapped(c, s, ruh, lpn, data);
  }

  lemma AppendMapped(c: Config, s: Ftl, i: nat, lpn: nat, data: int)
    requires Shape(c, s) && i <= c.n && Append(c, s, i, lpn, data).Ok?
    ensures Mapped(Append(c, s, i, lpn, data).value) == Mapped(s) + {lpn}
  {
    AppendPages(c, s, i, lpn, data);
  }

  lemma SupersedeSpace(c: Config, s: Ftl, lpn: nat)
    requires Shape(c, s) && lpn < c.ttPgs && Supersede(c, s, lpn).Ok?
    ensures
      var s1 := Supersede(c, s, lpn).value;
      FreeSlots(c, s1) == FreeSlots(c, s) && Mapped(s1) == Mapped(s) && SameCredits(s, s1)
  {
    SlotsIgnore(c, s, Supersede(c, s, lpn).value);
  }

  /** A page write that keeps the working set small finds all the lines it needs and
      keeps the space invariant. */
  lemma WritePageSpace(c: Config, s: Ftl, lpn: nat, ruh: nat, data: int)
    requires Inv(c, s) && SpaceOk(c, s) && SweepOk(c) && c.threshold >= c.n + 1 && lpn < c.ttPgs && ruh < c.n
    requires |Mapped(s) + {lpn}| < Limit(c)
    ensures WritePage(c, s, lpn, ruh, data).Ok? && SpaceOk(c, WritePage(c, s, lpn, ruh, data).value)
  {
    hide LedgerOk, CountersOk, HeapOk, LinesOk, SweptOk, MapOk, BlocksOk, Limit, FreeSlots, Reserve,
         Supersede, Append, SpendCredit;
    SupersedeKeeps(c, s, lpn);
    SupersedeSpace(c, s, lpn);
    var s1 := Supersede(c, s, lpn).value;
    SupersededSpace(c, s1, lpn, ruh, data);
    SpendSpace(c, Append(c, s1, ruh, lpn, data).value);
  }
}

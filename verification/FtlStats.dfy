/** What the media counters measure: every page programmed by GC and every page erased. */
module FtlStats {
  import opened Finite
  import opened FtlModel
  import opened FtlInv
  import opened FtlCounts
  import opened FtlAppend
  import opened FtlInvalidate
  import opened FtlGc
  import opened FtlView
  import opened FtlSpace
  import P = Pqueue

  // ---------------------------------------------------------------- byte counters

  ghost function BlockBytes(c: Config): nat {
    c.blkPgs * c.pgsz
  }

  /** Blocks the sweep has still to erase. */
  ghost function ToErase(c: Config, g: Gc): set<nat>
    requires g.Sweeping?
  {
    Range(c.nblks) - g.erased
  }

  /** The media-written counter once the sweep is over. */
  ghost function MbmwDue(c: Config, s: Ftl, g: Gc): nat
    requires g.Sweeping?
  {
    s.ctx.mbmw + Times(|ToCopy(g)|, c.pgsz)
  }

  /** The media-erased counter once the sweep is over. */
  ghost function MbeDue(c: Config, s: Ftl, g: Gc, z: nat): nat
    requires g.Sweeping?
  {
    s.ctx.mbe + Times(|ToErase(c, g)|, z)
  }

  lemma CleanContext(c: Config, s: Ftl, v: nat, k: nat)
    requires Shape(c, s) && v < c.lines && k < c.p && Step(c, s, v, Clean(k)).Ok?
    ensures Step(c, s, v, Clean(k)).value.ctx ==
            if s.lines[v].pages[k].status == PgValid then s.ctx.(mbmw := s.ctx.mbmw + c.pgsz) else s.ctx
  {
  }

  lemma CleanBytes(c: Config, s: Ftl, g: Gc, k: nat, z: nat)
    requires Core(c, s, g, -1) && g.Sweeping? && k < c.p && k !in g.cleaned
    requires Step(c, s, g.v, Clean(k)).Ok?
    ensures
      var s1 := Step(c, s, g.v, Clean(k)).value;
      && MbmwDue(c, s1, Cleaned(g, k)) == MbmwDue(c, s, g)
      && MbeDue(c, s1, Cleaned(g, k), z) == MbeDue(c, s, g, z)
      && s1.ctx.hbmw == s.ctx.hbmw
  {
    Unswept(c, s, g, -1, k);
    ToCopyShrinks(g, k);
    CleanContext(c, s, g.v, k);
  }

  lemma EraseBytes(c: Config, s: Ftl, g: Gc, b: nat, z: nat)
    requires Shape(c, s) && g.Sweeping? && g.v < c.lines && b < c.nblks && b !in g.erased && z == BlockBytes(c)
    ensures
      var s1 := EraseBlock(c, s, g.v, b);
      && MbmwDue(c, s1, Erased(g, b)) == MbmwDue(c, s, g)
      && MbeDue(c, s1, Erased(g, b), z) == MbeDue(c, s, g, z)
      && s1.ctx.hbmw == s.ctx.hbmw
  {
    assert ToErase(c, g) == ToErase(c, Erased(g, b)) + {b};
  }

  lemma {:induction false} SweepBytes(c: Config, s: Ftl, g: Gc, steps: seq<SweepStep>, z: nat)
    requires Core(c, s, g, -1) && g.Sweeping? && SweepFrom(c, steps, g.cleaned, g.erased)
    requires Sweep(c, s, g.v, steps).Ok? && z == BlockBytes(c)
    ensures
      var s1 := Sweep(c, s, g.v, steps).value;
      && s1.ctx.mbmw == MbmwDue(c, s, g) && s1.ctx.mbe == MbeDue(c, s, g, z)
      && s1.ctx.hbmw == s.ctx.hbmw
    decreases |steps|
  {
    hide LedgerOk, CountersOk, HeapOk, LinesOk, MapOk, BlocksOk, ErasedLine, VictimLine;
    if steps == [] {
      assert ToCopy(g) == {} && ToErase(c, g) == {};
    } else {
      StepKeeps(c, s, g, steps);
      if steps[0].Clean? {
        CleanBytes(c, s, g, steps[0].off, z);
        SweepBytes(c, Step(c, s, g.v, steps[0]).value, Cleaned(g, steps[0].off), steps[1..], z);
      } else {
        EraseBytes(c, s, g, steps[0].blk, z);
        SweepBytes(c, Step(c, s, g.v, steps[0]).value, Erased(g, steps[0].blk), steps[1..], z);
      }
    }
  }

  // ---------------------------------------------------------------- what is counted

  /** The step st calls gc_write_page. */
  ghost predicate CopiesPage(c: Config, s: Ftl, v: nat, st: SweepStep)
    requires Shape(c, s) && v < c.lines
  {
    st.Clean? && st.off < c.p && s.lines[v].pages[st.off].status == PgValid
  }

  /** How often a sweep calls gc_write_page. */
  ghost function SweepCopies(c: Config, s: Ftl, v: nat, steps: seq<SweepStep>): nat
    requires Shape(c, s) && v < c.lines
    decreases |steps|
  {
    if steps == [] then 0
    else
      (if CopiesPage(c, s, v, steps[0]) then 1 else 0)
      + if Step(c, s, v, steps[0]).Ok? then SweepCopies(c, Step(c, s, v, steps[0]).value, v, steps[1..]) else 0
  }

  /** A sweep calls gc_write_page once for every VALID page it has not passed. */
  lemma {:induction false} SweepCopiesAll(c: Config, s: Ftl, g: Gc, steps: seq<SweepStep>)
    requires Core(c, s, g, -1) && g.Sweeping? && SweepFrom(c, steps, g.cleaned, g.erased)
    requires Sweep(c, s, g.v, steps).Ok?
    ensures SweepCopies(c, s, g.v, steps) == |ToCopy(g)|
    decreases |steps|
  {
    hide LedgerOk, CountersOk, HeapOk, LinesOk, MapOk, BlocksOk, ErasedLine, VictimLine, Step, ToCopy;
    if steps == [] {
      NoneToCopy(c, g);
    } else {
      StepKeeps(c, s, g, steps);
      var s1 := Step(c, s, g.v, steps[0]).value;
      if steps[0].Clean? {
        Unswept(c, s, g, -1, steps[0].off);
        ToCopyShrinks(g, steps[0].off);
        SweepCopiesAll(c, s1, Cleaned(g, steps[0].off), steps[1..]);
      } else {
        ToCopyErased(g, steps[0].blk);
        SweepCopiesAll(c, s1, Erased(g, steps[0].blk), steps[1..]);
      }
    }
  }

  lemma NoneToCopy(c: Config, g: Gc)
    requires g.Sweeping? && g.cleaned == Range(c.p) && |g.before.pages| == c.p
    ensures |ToCopy(g)| == 0
  {
    assert ToCopy(g) == {};
  }

  lemma ToCopyErased(g: Gc, b: nat)
    requires g.Sweeping?
    ensures ToCopy(Erased(g, b)) == ToCopy(g)
  {
  }

  /** Spending the credit of s sets off a collection: it is the last one, free lines are
      low, and there is a victim. */
  ghost predicate Collects(c: Config, s: Ftl) {
    Dec32(s.credits) <= 0 && s.freeCnt <= c.threshold && 1 < |s.pq.d|
  }

  /** The gc_write_page calls of that collection. */
  ghost function SpendCopies(c: Config, s: Ftl): nat
    requires Shape(c, s)
  {
    if Collects(c, s) then
      var s1 := SweepStart(c, s.(credits := Dec32(s.credits)));
      SweepCopies(c, s1, s.pq.d[1], c.sweep)
    else 0
  }

  /** The state in which a page write spends its credit. */
  ghost function Spender(c: Config, s: Ftl, lpn: nat, ruh: nat, data: int): (r: Outcome<Ftl>)
    requires Shape(c, s) && lpn < c.ttPgs && ruh < c.n
    ensures r.Ok? ==> Shape(c, r.value)
  {
    var s1 :- Supersede(c, s, lpn);
    Append(c, s1, ruh, lpn, data)
  }

  /** Collections and gc_write_page calls of a page write. */
  ghost function WriteCollects(c: Config, s: Ftl, lpn: nat, ruh: nat, data: int): nat
    requires Shape(c, s) && lpn < c.ttPgs && ruh < c.n
  {
    var r := Spender(c, s, lpn, ruh, data);
    if r.Ok? && Collects(c, r.value) then 1 else 0
  }

  ghost function WriteCopies(c: Config, s: Ftl, lpn: nat, ruh: nat, data: int): nat
    requires Shape(c, s) && lpn < c.ttPgs && ruh < c.n
  {
    var r := Spender(c, s, lpn, ruh, data);
    if r.Ok? then SpendCopies(c, r.value) else 0
  }

  // ---------------------------------------------------------------- programmed pages

  ghost function WrittenOffs(pages: seq<Page>): set<nat> {
    set k: nat | k < |pages| && pages[k].status != PgFree
  }

  /** Pages that are not FREE on all lines other than v. */
  ghost function Written(lines: seq<Line>, v: int): int {
    if lines == [] then 0
    else
      var n := |lines| - 1;
      Written(lines[..n], v) + if n == v then 0 else |WrittenOffs(lines[n].pages)|
  }

  lemma {:induction false} WrittenSame(lines: seq<Line>, lines1: seq<Line>, v: int)
    requires |lines1| == |lines|
    requires forall l: nat :: l < |lines| && l != v ==>
               WrittenOffs(lines1[l].pages) == WrittenOffs(lines[l].pages)
    ensures Written(lines1, v) == Written(lines, v)
    decreases |lines|
  {
    if lines != [] {
      var n := |lines| - 1;
      WrittenSame(lines[..n], lines1[..n], v);
    }
  }

  lemma {:induction false} WrittenPlus(lines: seq<Line>, lines1: seq<Line>, v: int, l: nat)
    requires |lines1| == |lines| && l < |lines| && l != v
    requires |WrittenOffs(lines1[l].pages)| == |WrittenOffs(lines[l].pages)| + 1
    requires forall k: nat :: k < |lines| && k != v && k != l ==>
               WrittenOffs(lines1[k].pages) == WrittenOffs(lines[k].pages)
    ensures Written(lines1, v) == Written(lines, v) + 1
    decreases |lines|
  {
    var n := |lines| - 1;
    if l == n {
      WrittenSame(lines[..n], lines1[..n], v);
    } else {
      WrittenPlus(lines[..n], lines1[..n], v, l);
    }
  }

  /** Leaving line v out. */
  lemma {:induction false} WrittenWithout(lines: seq<Line>, v: nat)
    requires v < |lines|
    ensures Written(lines, -1) == Written(lines, v) + |WrittenOffs(lines[v].pages)|
    decreases |lines|
  {
    var n := |lines| - 1;
    if v == n {
      WrittenSkips(lines[..n], v);
    } else {
      WrittenWithout(lines[..n], v);
    }
  }

  lemma {:induction false} WrittenSkips(lines: seq<Line>, v: nat)
    requires |lines| <= v
    ensures Written(lines, v) == Written(lines, -1)
    decreases |lines|
  {
    if lines != [] {
      WrittenSkips(lines[..|lines| - 1], v);
    }
  }

  lemma AppendOffs(c: Config, s: Ftl, i: nat, lpn: nat, data: int, l: nat)
    requires Shape(c, s) && i <= c.n && Append(c, s, i, lpn, data).Ok? && l < c.lines
    ensures
      var s1 := Append(c, s, i, lpn, data).value;
      WrittenOffs(s1.lines[l].pages) ==
        WrittenOffs(s.lines[l].pages) + if l == s.wp[i].line then {s.wp[i].off} else {}
    ensures s.wp[i].off !in WrittenOffs(s.lines[s.wp[i].line].pages)
  {
    var s1 := Append(c, s, i, lpn, data).value;
    if l != s.wp[i].line {
      assert s1.lines[l].pages == s.lines[l].pages;
    }
  }

  lemma AppendWritten(c: Config, s: Ftl, i: nat, lpn: nat, data: int, v: int)
    requires Shape(c, s) && i <= c.n && Append(c, s, i, lpn, data).Ok? && s.wp[i].line != v
    ensures Written(Append(c, s, i, lpn, data).value.lines, v) == Written(s.lines, v) + 1
  {
    var s1 := Append(c, s, i, lpn, data).value;
    forall l: nat | l < c.lines
      ensures WrittenOffs(s1.lines[l].pages) ==
              WrittenOffs(s.lines[l].pages) + if l == s.wp[i].line then {s.wp[i].off} else {}
    {
      AppendOffs(c, s, i, lpn, data, l);
    }
    AppendOffs(c, s, i, lpn, data, s.wp[i].line);
    WrittenPlus(s.lines, s1.lines, v, s.wp[i].line);
  }

  lemma SupersedeWritten(c: Config, s: Ftl, lpn: nat)
    requires Shape(c, s) && lpn < c.ttPgs && Supersede(c, s, lpn).Ok?
    ensures Written(Supersede(c, s, lpn).value.lines, -1) == Written(s.lines, -1)
  {
    WrittenSame(s.lines, Supersede(c, s, lpn).value.lines, -1);
  }

  lemma CleanWritten(c: Config, s: Ftl, g: Gc, k: nat)
    requires Core(c, s, g, -1) && g.Sweeping? && k < c.p && k !in g.cleaned
    requires Step(c, s, g.v, Clean(k)).Ok?
    ensures Written(Step(c, s, g.v, Clean(k)).value.lines, g.v) + |ToCopy(Cleaned(g, k))|
            == Written(s.lines, g.v) + |ToCopy(g)|
  {
    Unswept(c, s, g, -1, k);
    HeldApart(c, s, g);
    ToCopyShrinks(g, k);
    var pg := s.lines[g.v].pages[k];
    if pg.status == PgValid {
      AppendWritten(c, s, c.n, pg.lpn.value, pg.data, g.v);
    }
  }

  lemma {:induction false} SweepWritten(c: Config, s: Ftl, g: Gc, steps: seq<SweepStep>)
    requires Core(c, s, g, -1) && g.Sweeping? && SweepFrom(c, steps, g.cleaned, g.erased)
    requires Sweep(c, s, g.v, steps).Ok?
    ensures Written(Sweep(c, s, g.v, steps).value.lines, g.v) == Written(s.lines, g.v) + |ToCopy(g)|
    decreases |steps|
  {
    hide LedgerOk, CountersOk, HeapOk, LinesOk, MapOk, BlocksOk, Written, VictimLine;
    if steps == [] {
      assert ToCopy(g) == {};
    } else {
      StepKeeps(c, s, g, steps);
      var s1 := Step(c, s, g.v, steps[0]).value;
      if steps[0].Clean? {
        CleanWritten(c, s, g, steps[0].off);
        SweepWritten(c, s1, Cleaned(g, steps[0].off), steps[1..]);
      } else {
        WrittenSame(s.lines, s1.lines, g.v);
        SweepWritten(c, s1, Erased(g, steps[0].blk), steps[1..]);
      }
    }
  }

  // ---------------------------------------------------------------- do_gc and the page write

  /** Between s and s1: `programs` host pages, `copies` GC pages and `erasures` erased. */
  ghost predicate Charged(c: Config, s: Ftl, s1: Ftl, programs: nat, copies: nat, erasures: nat) {
    && s1.ctx.hbmw == s.ctx.hbmw
    && s1.ctx.mbmw == s.ctx.mbmw + Times(copies, c.pgsz)
    && s1.ctx.mbe == s.ctx.mbe + Times(erasures, c.pgsz)
    && Written(s1.lines, -1) == Written(s.lines, -1) + programs + copies - erasures
  }

  lemma VictimWritten(c: Config, s: Ftl)
    requires Core(c, s, Idle, -1) && 1 < |s.pq.d|
    ensures |WrittenOffs(s.lines[s.pq.d[1]].pages)| == c.p
  {
    var v := s.pq.d[1];
    assert P.In(s.pq, v);
    assert VictimLine(c, s.lines[v], s.pq.pri[v]);
    assert WrittenOffs(s.lines[v].pages) == Range(c.p);
  }

  lemma SweptEmpty(c: Config, s: Ftl, g: Gc)
    requires Core(c, s, g, -1) && g.Sweeping? && g == Swept(c, g)
    ensures WrittenOffs(s.lines[g.v].pages) == {}
  {
    forall k | 0 <= k < c.p
      ensures s.lines[g.v].pages[k].status == PgFree
    {
      assert c.blockOf[k] in Range(c.nblks);
    }
  }

  lemma EraseProduct(c: Config)
    requires c.nblks * c.blkPgs == c.p
    ensures Times(c.nblks, BlockBytes(c)) == Times(c.p, c.pgsz)
  {
    TimesIsProduct(c.nblks, BlockBytes(c));
    TimesIsProduct(c.p, c.pgsz);
  }

  lemma DoGcBytes(c: Config, s: Ftl)
    requires Core(c, s, Idle, -1) && SweepOk(c) && c.nblks * c.blkPgs == c.p
    requires 1 < |s.pq.d| && DoGc(c, s, true).Ok?
    ensures
      var s1 := DoGc(c, s, true).value;
      && s1.ctx.hbmw == s.ctx.hbmw
      && s1.ctx.mbmw == s.ctx.mbmw + Times(s.pq.pri[s.pq.d[1]], c.pgsz)
      && s1.ctx.mbe == s.ctx.mbe + Times(c.p, c.pgsz)
  {
    hide LedgerOk, CountersOk, HeapOk, LinesOk, SweptOk, MapOk, BlocksOk, Sweep;
    var v := s.pq.d[1];
    var s1, g := SweepStart(c, s), Begin(s, v);
    SweepStartKeeps(c, s);
    SweepBytes(c, s1, g, c.sweep, BlockBytes(c));
    StartSlots(c, s);
    VictimValid(c, s);
    assert ToErase(c, g) == Range(c.nblks);
    EraseProduct(c);
  }

  /** Once the victim has been erased, all programmed pages are on the other lines. */
  lemma FreedWritten(c: Config, s: Ftl, g: Gc)
    requires Core(c, s, g, -1) && g.Sweeping? && g == Swept(c, g)
    ensures Written(MarkLineFree(c, s, g.v).lines, -1) == Written(s.lines, g.v)
  {
    SweptEmpty(c, s, g);
    WrittenWithout(s.lines, g.v);
    WrittenSame(s.lines, MarkLineFree(c, s, g.v).lines, -1);
  }

  lemma StartWritten(c: Config, s: Ftl)
    requires Core(c, s, Idle, -1) && 1 < |s.pq.d|
    ensures Written(SweepStart(c, s).lines, s.pq.d[1]) == Written(s.lines, -1) - c.p
    ensures |ToCopy(Begin(s, s.pq.d[1]))| == s.pq.pri[s.pq.d[1]]
  {
    StartSlots(c, s);
    VictimValid(c, s);
    VictimWritten(c, s);
    WrittenWithout(s.lines, s.pq.d[1]);
  }

  lemma DoGcWritten(c: Config, s: Ftl)
    requires Core(c, s, Idle, -1) && SweepOk(c) && 1 < |s.pq.d| && DoGc(c, s, true).Ok?
    ensures Written(DoGc(c, s, true).value.lines, -1) == Written(s.lines, -1) + s.pq.pri[s.pq.d[1]] - c.p
  {
    var v := s.pq.d[1];
    var s1, g := SweepStart(c, s), Begin(s, v);
    StartWritten(c, s);
    SweepStartKeeps(c, s);
    SweepKeeps(c, s1, g, c.sweep);
    SweepWritten(c, s1, g, c.sweep);
    FreedWritten(c, Sweep(c, s1, v, c.sweep).value, Swept(c, g));
  }

  /** A completed collection copies each VALID victim page once and erases the line. */
  lemma DoGcCharged(c: Config, s: Ftl)
    requires Core(c, s, Idle, -1) && SweepOk(c) && c.nblks * c.blkPgs == c.p
    requires 1 < |s.pq.d| && DoGc(c, s, true).Ok?
    ensures
      var v := s.pq.d[1];
      var copies := SweepCopies(c, SweepStart(c, s), v, c.sweep);
      && copies == |ValidOffs(s.lines[v].pages)| < c.p
      && Charged(c, s, DoGc(c, s, true).value, 0, copies, c.p)
  {
    DoGcBytes(c, s);
    DoGcWritten(c, s);
    VictimValid(c, s);
    DoGcCopies(c, s);
  }

  lemma DoGcCopies(c: Config, s: Ftl)
    requires Core(c, s, Idle, -1) && SweepOk(c) && 1 < |s.pq.d| && DoGc(c, s, true).Ok?
    ensures SweepCopies(c, SweepStart(c, s), s.pq.d[1], c.sweep) == |ValidOffs(s.lines[s.pq.d[1]].pages)|
  {
    hide LedgerOk, CountersOk, HeapOk, LinesOk, SweptOk, MapOk, BlocksOk, Sweep, SweepCopies;
    SweepStartKeeps(c, s);
    SweepCopiesAll(c, SweepStart(c, s), Begin(s, s.pq.d[1]), c.sweep);
    StartSlots(c, s);
  }

  lemma ChargedIgnores(c: Config, s: Ftl, s0: Ftl, s1: Ftl, s2: Ftl, x: nat, y: nat, z: nat)
    requires Charged(c, s, s1, x, y, z)
    requires s0.ctx == s.ctx && s0.lines == s.lines && s2.ctx == s1.ctx && s2.lines == s1.lines
    ensures Charged(c, s0, s2, x, y, z)
  {
  }

  /** Spending a credit costs nothing, or exactly one collection. */
  lemma SpendCharged(c: Config, s: Ftl)
    requires Core(c, s, Idle, -1) && SweepOk(c) && c.nblks * c.blkPgs == c.p && SpendCredit(c, s).Ok?
    ensures Charged(c, s, SpendCredit(c, s).value, 0, SpendCopies(c, s), if Collects(c, s) then c.p else 0)
    ensures if Collects(c, s) then SpendCopies(c, s) < c.p else SpendCopies(c, s) == 0
  {
    hide LedgerOk, CountersOk, HeapOk, LinesOk, SweptOk, MapOk, BlocksOk, SweepCopies;
    var s1 := s.(credits := Dec32(s.credits));
    CoreIgnores(c, s, s1, Idle, -1);
    if Collects(c, s) {
      DoGcCharged(c, s1);
      ChargedIgnores(c, s1, s, DoGc(c, s1, true).value, SpendCredit(c, s).value, 0, SpendCopies(c, s), c.p);
    }
  }

  /** A host page write programs one page, and beyond that is charged for the collection it
      sets off, if any: one page per gc_write_page call, fewer than a line holds, and the
      erasure of one line. */
  lemma WritePageCharged(c: Config, s: Ftl, lpn: nat, ruh: nat, data: int)
    requires Inv(c, s) && SweepOk(c) && c.nblks * c.blkPgs == c.p && lpn < c.ttPgs && ruh < c.n
    requires WritePage(c, s, lpn, ruh, data).Ok?
    ensures
      var copies, gcs := WriteCopies(c, s, lpn, ruh, data), WriteCollects(c, s, lpn, ruh, data);
      && Charged(c, s, WritePage(c, s, lpn, ruh, data).value, 1, copies, Times(gcs, c.p))
      && gcs <= 1 && copies + gcs <= Times(gcs, c.p)
  {
    hide LedgerOk, CountersOk, HeapOk, LinesOk, SweptOk, MapOk, BlocksOk, Shape, Charged, Collects,
         SpendCopies, SpendCredit, Supersede, Append;
    SupersedeKeeps(c, s, lpn);
    var s1 := Supersede(c, s, lpn).value;
    AppendKeeps(c, s1, Idle, ruh, lpn, data);
    var s2 := Append(c, s1, ruh, lpn, data).value;
    SpendCharged(c, s2);
    BeforeSpending(c, s, s1, s2, SpendCredit(c, s2).value, lpn, ruh, data, SpendCopies(c, s2),
                   if Collects(c, s2) then c.p else 0);
    TimesOne(c.p);
  }

  /** Superseding and appending add one programmed page to what spending is charged. */
  lemma BeforeSpending(c: Config, s: Ftl, s1: Ftl, s2: Ftl, r: Ftl, lpn: nat, ruh: nat, data: int, copies: nat,
                       erased: nat)
    requires Shape(c, s) && lpn < c.ttPgs && ruh < c.n && Supersede(c, s, lpn) == Ok(s1)
    requires Append(c, s1, ruh, lpn, data) == Ok(s2)
    requires Charged(c, s2, r, 0, copies, erased)
    ensures Charged(c, s, r, 1, copies, erased)
  {
    hide Supersede, Append;
    SupersedeWritten(c, s, lpn);
    AppendWritten(c, s1, ruh, lpn, data, -1);
  }

  lemma TimesOne(z: nat)
    ensures Times(0, z) == 0 && Times(1, z) == z
  {
  }
}

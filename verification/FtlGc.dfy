/** A garbage collection keeps the global invariant, and so does a whole page write. */
module FtlGc {
  import opened Common
  import opened Finite
  import opened FtlModel
  import opened FtlInv
  import opened FtlCounts
  import opened FtlAppend
  import opened FtlInvalidate
  import P = Pqueue

  /** The invariant does not speak of counters, credits or events. */
  lemma CoreIgnores(c: Config, s: Ftl, s1: Ftl, g: Gc, x: int)
    requires Core(c, s, g, x)
    requires s1 == s.(credits := s1.credits, refill := s1.refill, ctx := s1.ctx)
    ensures Core(c, s1, g, x)
  {
    LedgerSame(s, s1, g);
    forall i | 0 <= i <= c.n
      ensures OpenOk(c, s1, i)
    {
      assert OpenOk(c, s, i);
    }
  }

  // ---------------------------------------------------------------- taking the victim

  /** pqueue_pop followed by clearing the victim's position. */
  lemma HeapTake(q: P.Heap)
    requires HeapOk(q) && 1 < |q.d|
    ensures
      var q1 := P.Pop(q);
      var r := q1.(pos := q1.pos[q.d[1] := 0]);
      && HeapOk(r) && P.Members(q) == P.Members(r) + multiset{q.d[1]}
      && (forall k: nat :: P.In(r, k) <==> P.In(q, k) && k != q.d[1])
  {
    P.PopCorrect(q);
    var q1 := P.Pop(q);
    var r := q1.(pos := q1.pos[q.d[1] := 0]);
    assert P.In(q, q.d[1]);
    assert forall i :: 1 <= i < |q1.d| ==> P.In(q1, q1.d[i]);
    assert forall k: nat :: k != q.d[1] ==> (P.In(r, k) <==> P.In(q1, k));
  }

  ghost function Begin(s: Ftl, v: nat): Gc
    requires v < |s.lines|
  {
    Sweeping(v, s.lines[v], {}, {})
  }

  lemma TakeKeeps(c: Config, s: Ftl)
    requires Core(c, s, Idle, -1) && 1 < |s.pq.d|
    ensures Core(c, TakeVictim(c, s), Begin(s, s.pq.d[1]), -1)
  {
    var v := s.pq.d[1];
    var s1 := TakeVictim(c, s);
    var g := Begin(s, v);
    HeapTake(s.pq);
    assert P.In(s.pq, v);
    assert VictimLine(c, s.lines[v], s.pq.pri[v]);
    VictimApart(c, s, Idle, v);
    assert Elsewhere(c, s, s1, v);
    VictimsFrame(c, s, s1, v);
    OpensUntouched(c, s, s1, v);
    ErasedNone(c, s.lines[v]);
    TakeLedger(c, s, v, s1);
    TakeMaps(c, s, v);
  }

  lemma TakeLedger(c: Config, s: Ftl, v: nat, s1: Ftl)
    requires P.Shaped(s.pq) && P.Shaped(s1.pq) && LedgerOk(c, s, Idle) && v < |s.lines|
    requires s1.free == s.free && s1.full == s.full && s1.wp == s.wp
    requires P.Members(s.pq) == P.Members(s1.pq) + multiset{v}
    ensures LedgerOk(c, s1, Begin(s, v))
  {
    var rest := multiset(s.free) + multiset(s.full) + multiset(OpenLines(s.wp));
    assert Ledger(s, Idle) == rest + P.Members(s.pq);
    assert Ledger(s1, Begin(s, v)) == rest + (P.Members(s1.pq) + multiset{v});
  }

  lemma TakeMaps(c: Config, s: Ftl, v: nat)
    requires Shape(c, s) && MapOk(c, s, Idle, -1) && v < c.lines
    ensures MapOk(c, s, Begin(s, v), -1)
  {
    forall m: nat | m < |s.maptbl| && s.maptbl[m].Some?
      ensures Backs(c, s.lines, Begin(s, v), s.maptbl[m].value, m)
    {
      assert Backs(c, s.lines, Idle, s.maptbl[m].value, m);
    }
  }

  // ---------------------------------------------------------------- sweeping

  ghost function Cleaned(g: Gc, k: nat): Gc
    requires g.Sweeping?
  {
    g.(cleaned := g.cleaned + {k})
  }

  /** A page the sweep has not reached is as it was when the sweep began. */
  lemma Unswept(c: Config, s: Ftl, g: Gc, x: int, k: nat)
    requires Core(c, s, g, x) && g.Sweeping? && k < c.p && k !in g.cleaned
    ensures s.lines[g.v].pages[k] == g.before.pages[k] && g.before.pages[k].status != PgFree
  {
  }

  lemma PassInvalid(c: Config, s: Ftl, g: Gc, k: nat)
    requires Core(c, s, g, -1) && g.Sweeping? && k < c.p && k !in g.cleaned
    requires s.lines[g.v].pages[k].status == PgInvalid
    ensures Core(c, s, Cleaned(g, k), -1)
  {
    var g1 := Cleaned(g, k);
    forall m: nat | m < |s.maptbl| && s.maptbl[m].Some?
      ensures Backs(c, s.lines, g1, s.maptbl[m].value, m)
    {
      assert Backs(c, s.lines, g, s.maptbl[m].value, m);
    }
    PassLedger(c, s, g, k);
  }

  lemma PassLedger(c: Config, s: Ftl, g: Gc, k: nat)
    requires P.Shaped(s.pq) && LedgerOk(c, s, g) && g.Sweeping?
    ensures LedgerOk(c, s, Cleaned(g, k))
  {
  }

  /** Passing a VALID page puts its logical page in transit. */
  lemma PassValid(c: Config, s: Ftl, g: Gc, k: nat)
    requires Core(c, s, g, -1) && g.Sweeping? && k < c.p && k !in g.cleaned
    requires s.lines[g.v].pages[k].status == PgValid
    ensures
      var o := s.lines[g.v].pages[k].lpn;
      o.Some? && o.value < c.ttPgs && Core(c, s, Cleaned(g, k), o.value)
  {
    var g1, a := Cleaned(g, k), Ppa(g.v, k);
    assert MappedBack(c, s.maptbl, PageAt(c, s.lines, a), a, -1);
    var x := PageAt(c, s.lines, a).lpn.value;
    forall m: nat | m < |s.maptbl| && m != x && s.maptbl[m].Some?
      ensures Backs(c, s.lines, g1, s.maptbl[m].value, m)
    {
      assert Backs(c, s.lines, g, s.maptbl[m].value, m);
    }
    forall b: Ppa | InRange(c, b) && PageAt(c, s.lines, b).status == PgValid && !Gone(g1, b)
      ensures MappedBack(c, s.maptbl, PageAt(c, s.lines, b), b, x)
    {
      assert MappedBack(c, s.maptbl, PageAt(c, s.lines, b), b, -1);
    }
    PassLedger(c, s, g, k);
  }

  lemma GcWriteKeeps(c: Config, s: Ftl, g: Gc, a: Ppa)
    requires InRange(c, a) && LinesShaped(c, s.lines) && PageAt(c, s.lines, a).lpn.Some?
    requires PageAt(c, s.lines, a).lpn.value < c.ttPgs && Core(c, s, g, PageAt(c, s.lines, a).lpn.value)
    ensures
      var r := GcWritePage(c, s, a);
      !r.BugOn? && (r.Ok? ==> Core(c, r.value, g, -1))
  {
    hide LedgerOk, CountersOk, HeapOk, LinesOk, SweptOk, MapOk, BlocksOk;
    var pg := PageAt(c, s.lines, a);
    AppendKeeps(c, s, g, c.n, pg.lpn.value, pg.data);
    var r := Append(c, s, c.n, pg.lpn.value, pg.data);
    if r.Ok? {
      CoreIgnores(c, r.value, GcWritePage(c, s, a).value, g, -1);
    }
  }

  lemma CleanKeeps(c: Config, s: Ftl, g: Gc, k: nat)
    requires Core(c, s, g, -1) && g.Sweeping? && k < c.p && k !in g.cleaned
    ensures
      var r := Step(c, s, g.v, Clean(k));
      !r.BugOn? && (r.Ok? ==> Core(c, r.value, Cleaned(g, k), -1))
  {
    hide LedgerOk, CountersOk, HeapOk, LinesOk, MapOk, BlocksOk, GcWritePage;
    Unswept(c, s, g, -1, k);
    if s.lines[g.v].pages[k].status == PgValid {
      PassValid(c, s, g, k);
      GcWriteKeeps(c, s, Cleaned(g, k), Ppa(g.v, k));
    } else {
      PassInvalid(c, s, g, k);
    }
  }

  ghost function Erased(g: Gc, b: nat): Gc
    requires g.Sweeping?
  {
    g.(erased := g.erased + {b})
  }

  lemma EraseMaps(c: Config, s: Ftl, g: Gc, b: nat)
    requires Shape(c, s) && MapOk(c, s, g, -1) && g.Sweeping? && g.v < c.lines
    requires forall k :: 0 <= k < c.p && c.blockOf[k] == b ==> k in g.cleaned
    ensures MapOk(c, EraseBlock(c, s, g.v, b), Erased(g, b), -1)
  {
    var s1, g1 := EraseBlock(c, s, g.v, b), Erased(g, b);
    assert forall a: Ppa :: InRange(c, a) && !Gone(g, a) ==> PageAt(c, s1.lines, a) == PageAt(c, s.lines, a);
    forall m: nat | m < |s1.maptbl| && s1.maptbl[m].Some?
      ensures Backs(c, s1.lines, g1, s1.maptbl[m].value, m)
    {
      assert Backs(c, s.lines, g, s.maptbl[m].value, m);
    }
    forall a: Ppa | InRange(c, a) && PageAt(c, s1.lines, a).status == PgValid && !Gone(g1, a)
      ensures MappedBack(c, s1.maptbl, PageAt(c, s1.lines, a), a, -1)
    {
      assert MappedBack(c, s.maptbl, PageAt(c, s.lines, a), a, -1);
    }
  }

  lemma EraseKeeps(c: Config, s: Ftl, g: Gc, b: nat)
    requires Core(c, s, g, -1) && g.Sweeping?
    requires forall k :: 0 <= k < c.p && c.blockOf[k] == b ==> k in g.cleaned
    ensures Core(c, EraseBlock(c, s, g.v, b), Erased(g, b), -1)
  {
    var s1, g1 := EraseBlock(c, s, g.v, b), Erased(g, b);
    EraseMaps(c, s, g, b);
    HeldApart(c, s, g);
    assert Elsewhere(c, s, s1, g.v);
    FreesFrame(c, s, s1, g.v);
    FullsFrame(c, s, s1, g.v);
    VictimsFrame(c, s, s1, g.v);
    OpensUntouched(c, s, s1, g.v);
    ErasedTwice(c, g.before, g.erased, b);
    LedgerSame(s, s1, g);
    assert Held(g1) == Held(g);
  }

  lemma StepKeeps(c: Config, s: Ftl, g: Gc, steps: seq<SweepStep>)
    requires Core(c, s, g, -1) && g.Sweeping? && steps != []
    requires SweepFrom(c, steps, g.cleaned, g.erased)
    ensures
      var r := Step(c, s, g.v, steps[0]);
      var g1 := if steps[0].Clean? then Cleaned(g, steps[0].off) else Erased(g, steps[0].blk);
      !r.BugOn? && SweepFrom(c, steps[1..], g1.cleaned, g1.erased) && (r.Ok? ==> Core(c, r.value, g1, -1))
  {
    match steps[0]
    case Clean(k) => CleanKeeps(c, s, g, k);
    case Erase(b) => EraseKeeps(c, s, g, b);
  }

  ghost function Swept(c: Config, g: Gc): Gc
    requires g.Sweeping?
  {
    g.(cleaned := Range(c.p), erased := Range(c.nblks))
  }

  lemma {:induction false} SweepKeeps(c: Config, s: Ftl, g: Gc, steps: seq<SweepStep>)
    requires Core(c, s, g, -1) && g.Sweeping?
    requires SweepFrom(c, steps, g.cleaned, g.erased)
    ensures
      var r := Sweep(c, s, g.v, steps);
      !r.BugOn? && (r.Ok? ==> Core(c, r.value, Swept(c, g), -1))
    decreases |steps|
  {
    if steps == [] {
      assert g == Swept(c, g);
    } else {
      StepKeeps(c, s, g, steps);
      var r := Step(c, s, g.v, steps[0]);
      if r.Ok? {
        var g1 := if steps[0].Clean? then Cleaned(g, steps[0].off) else Erased(g, steps[0].blk);
        SweepKeeps(c, r.value, g1, steps[1..]);
        assert Swept(c, g1) == Swept(c, g);
      }
    }
  }

  // ---------------------------------------------------------------- freeing the victim

  lemma FreeMaps(c: Config, s: Ftl, g: Gc)
    requires Shape(c, s) && MapOk(c, s, g, -1) && SweptOk(c, s, g) && g.Sweeping? && g == Swept(c, g)
    ensures MapOk(c, MarkLineFree(c, s, g.v), Idle, -1)
  {
    var s1 := MarkLineFree(c, s, g.v);
    assert forall a: Ppa :: InRange(c, a) ==> PageAt(c, s1.lines, a) == PageAt(c, s.lines, a);
    assert forall a: Ppa :: InRange(c, a) && a.line == g.v ==> Gone(g, a);
    forall m: nat | m < |s1.maptbl| && s1.maptbl[m].Some?
      ensures Backs(c, s1.lines, Idle, s1.maptbl[m].value, m)
    {
      assert Backs(c, s.lines, g, s.maptbl[m].value, m);
    }
    forall a: Ppa | InRange(c, a) && PageAt(c, s1.lines, a).status == PgValid
      ensures MappedBack(c, s1.maptbl, PageAt(c, s1.lines, a), a, -1)
    {
      assert c.blockOf[a.off] in Range(c.nblks);
      assert a.line != g.v;
      assert MappedBack(c, s.maptbl, PageAt(c, s.lines, a), a, -1);
    }
  }

  lemma FreeLedger(c: Config, s: Ftl, g: Gc)
    requires Shape(c, s) && LedgerOk(c, s, g) && g.Sweeping? && g.v < c.lines
    ensures LedgerOk(c, MarkLineFree(c, s, g.v), Idle)
  {
    var s1 := MarkLineFree(c, s, g.v);
    var rest := multiset(s.full) + P.Members(s.pq) + multiset(OpenLines(s.wp));
    assert P.Members(s1.pq) == P.Members(s.pq);
    assert Ledger(s, g) == multiset(s.free) + rest + multiset{g.v};
    assert Ledger(s1, Idle) == multiset(s.free + [g.v]) + rest;
  }

  lemma FreeKeeps(c: Config, s: Ftl, g: Gc)
    requires Core(c, s, g, -1) && g.Sweeping? && g == Swept(c, g)
    ensures Core(c, MarkLineFree(c, s, g.v), Idle, -1)
  {
    var s1 := MarkLineFree(c, s, g.v);
    FreeMaps(c, s, g);
    FreeLedger(c, s, g);
    HeldApart(c, s, g);
    PriorityElsewhere(s.pq, g.v, 0);
    assert Elsewhere(c, s, s1, g.v);
    FullsFrame(c, s, s1, g.v);
    assert forall k: nat :: P.In(s1.pq, k) ==> P.In(s.pq, k);
    VictimsFrame(c, s, s1, g.v);
    OpensUntouched(c, s, s1, g.v);
    ErasedIsEmpty(c, g.before);
    FreedJoins(c, s, s1, g);
  }

  lemma FreedJoins(c: Config, s: Ftl, s1: Ftl, g: Gc)
    requires Shape(c, s) && Shape(c, s1) && g.Sweeping? && g.v < c.lines
    requires FreesOk(c, s) && Elsewhere(c, s, s1, g.v) && g.v !in s.free
    requires s1.free == s.free + [g.v] && FreeLine(c, s1.lines[g.v], s1.pq.pri[g.v])
    ensures FreesOk(c, s1)
  {
    forall j | 0 <= j < |s1.free|
      ensures FreeLine(c, s1.lines[s1.free[j]], s1.pq.pri[s1.free[j]])
    {
      if j < |s.free| {
        assert FreeLine(c, s.lines[s.free[j]], s.pq.pri[s.free[j]]);
      }
    }
  }

  // ---------------------------------------------------------------- do_gc and the page write

  /** The state from which the sweep of the heap's top line starts. */
  ghost function SweepStart(c: Config, s: Ftl): Ftl
    requires Shape(c, s) && 1 < |s.pq.d|
  {
    StartGc(c, TakeVictim(c, s), s.pq.d[1])
  }

  lemma SweepStartKeeps(c: Config, s: Ftl)
    requires Core(c, s, Idle, -1) && 1 < |s.pq.d|
    ensures Core(c, SweepStart(c, s), Begin(s, s.pq.d[1]), -1)
  {
    TakeKeeps(c, s);
    CoreIgnores(c, TakeVictim(c, s), SweepStart(c, s), Begin(s, s.pq.d[1]), -1);
  }

  lemma VictimPages(c: Config, s: Ftl)
    requires Core(c, s, Idle, -1) && 1 < |s.pq.d|
    ensures s.lines[s.pq.d[1]].ipc == c.p - s.pq.pri[s.pq.d[1]]
    ensures 1 <= s.lines[s.pq.d[1]].ipc <= c.p < TWO_32
  {
    var v := s.pq.d[1];
    assert P.In(s.pq, v);
    assert VictimLine(c, s.lines[v], s.pq.pri[v]);
    CountBounds(c, s.lines[v], s.pq.pri[v]);
  }

  /** Every victim has an invalid page, so a collection always grants a credit. */
  lemma GrantedCredits(c: Config, s: Ftl)
    requires Core(c, s, Idle, -1) && 1 < |s.pq.d|
    ensures SweepStart(c, s).refill == s.lines[s.pq.d[1]].ipc == c.p - s.pq.pri[s.pq.d[1]]
    ensures 1 <= SweepStart(c, s).refill <= c.p
    ensures SweepStart(c, s).credits == s.credits
  {
    VictimPages(c, s);
    assert TakeVictim(c, s).lines == s.lines;
  }

  lemma DoGcKeeps(c: Config, s: Ftl, force: bool)
    requires Core(c, s, Idle, -1) && SweepOk(c) && 1 <= s.refill <= c.p
    ensures
      var r := DoGc(c, s, force);
      && !r.BugOn?
      && (r.Ok? ==> Core(c, r.value, Idle, -1) && r.value.credits == s.credits && 1 <= r.value.refill <= c.p)
  {
    hide LedgerOk, CountersOk, HeapOk, LinesOk, SweptOk, MapOk, BlocksOk, Sweep;
    if !NoVictim(c, s, force) {
      var v := s.pq.d[1];
      SweepStartKeeps(c, s);
      GrantedCredits(c, s);
      SweepKeeps(c, SweepStart(c, s), Begin(s, v), c.sweep);
      var r := Sweep(c, SweepStart(c, s), v, c.sweep);
      if r.Ok? {
        FreeKeeps(c, r.value, Swept(c, Begin(s, v)));
      }
    }
  }

  /** foreground_gc keeps the invariant and leaves at least one credit to refill. */
  lemma ForegroundKeeps(c: Config, s: Ftl)
    requires Core(c, s, Idle, -1) && SweepOk(c) && 1 <= s.refill <= c.p
    ensures
      var r := ForegroundGc(c, s);
      && !r.BugOn?
      && (r.Ok? ==> Core(c, r.value, Idle, -1) && r.value.credits == s.credits && 1 <= r.value.refill <= c.p)
  {
    DoGcKeeps(c, s, true);
  }

  lemma SpendKeeps(c: Config, s: Ftl)
    requires Core(c, s, Idle, -1) && CreditsOk(c, s) && SweepOk(c)
    ensures
      var r := SpendCredit(c, s);
      !r.BugOn? && (r.Ok? ==> Core(c, r.value, Idle, -1) && CreditsOk(c, r.value))
  {
    hide LedgerOk, CountersOk, HeapOk, LinesOk, SweptOk, MapOk, BlocksOk, ForegroundGc;
    var s1 := s.(credits := Dec32(s.credits));
    CoreIgnores(c, s, s1, Idle, -1);
    if s1.credits <= 0 {
      ForegroundKeeps(c, s1);
      var r := ForegroundGc(c, s1);
      if r.Ok? {
        CoreIgnores(c, r.value, r.value.(credits := Add32(r.value.credits, r.value.refill)), Idle, -1);
      }
    }
  }

  /** No host page write ever trips an assertion, and every one that finds its lines
      re-establishes the whole invariant. */
  lemma WritePageKeeps(c: Config, s: Ftl, lpn: nat, ruh: nat, data: int)
    requires Inv(c, s) && SweepOk(c) && lpn < c.ttPgs && ruh < c.n
    ensures
      var r := WritePage(c, s, lpn, ruh, data);
      !r.BugOn? && (r.Ok? ==> Inv(c, r.value))
  {
    hide Shape, BlocksOk, LedgerOk, CountersOk, HeapOk, LinesOk, SweptOk, MapOk, SweepOk, Supersede, Append,
         SpendCredit;
    SupersedeKeeps(c, s, lpn);
    var s1 := Supersede(c, s, lpn).value;
    AppendKeeps(c, s1, Idle, ruh, lpn, data);
    var r := Append(c, s1, ruh, lpn, data);
    if r.Ok? {
      SpendKeeps(c, r.value);
    }
  }
}

/** What the host can read back, and which handle placed each page.

    Garbage collection is invisible; a page write changes exactly the logical page it
    names; and data placed through different reclaim unit handles does not share a
    tagged line. */
module FtlView {
  import opened Common
  import opened Finite
  import opened FtlModel
  import opened FtlInv
  import opened FtlAppend
  import opened FtlInvalidate
  import opened FtlGc
  import P = Pqueue

  /** The contents the host reads for every mapped logical page. */
  ghost function View(c: Config, s: Ftl): map<nat, int>
    requires Shape(c, s)
  {
    map m: nat | m < |s.maptbl| && s.maptbl[m].Some? && InRange(c, s.maptbl[m].value)
      :: PageAt(c, s.lines, s.maptbl[m].value).data
  }

  /** Every VALID page of a line tagged with handle r holds a logical page owned by r. */
  ghost predicate Isolated(c: Config, s: Ftl, owner: map<nat, nat>)
    requires Shape(c, s)
  {
    forall a: Ppa :: InRange(c, a) && PageAt(c, s.lines, a).status == PgValid && s.lines[a.line].ruh >= 0
      ==> Owned(PageAt(c, s.lines, a), s.lines[a.line].ruh, owner)
  }

  ghost predicate Owned(pg: Page, ruh: int, owner: map<nat, nat>) {
    pg.lpn.Some? ==> pg.lpn.value in owner && owner[pg.lpn.value] == ruh
  }

  // ---------------------------------------------------------------- superseding

  lemma SupersedeView(c: Config, s: Ftl, lpn: nat)
    requires Shape(c, s) && lpn < c.ttPgs && Supersede(c, s, lpn).Ok?
    ensures View(c, Supersede(c, s, lpn).value) == View(c, s)
  {
    var s1 := Supersede(c, s, lpn).value;
    assert forall a: Ppa :: InRange(c, a) ==> PageAt(c, s1.lines, a).data == PageAt(c, s.lines, a).data;
    assert s1.maptbl == s.maptbl;
  }

  lemma SupersedeIsolated(c: Config, s: Ftl, lpn: nat, ruh: nat, owner: map<nat, nat>)
    requires Shape(c, s) && lpn < c.ttPgs && Supersede(c, s, lpn).Ok? && Isolated(c, s, owner)
    requires MapOk(c, Supersede(c, s, lpn).value, Idle, lpn)
    ensures Isolated(c, Supersede(c, s, lpn).value, owner[lpn := ruh])
  {
    var s1 := Supersede(c, s, lpn).value;
    forall a: Ppa | InRange(c, a) && PageAt(c, s1.lines, a).status == PgValid && s1.lines[a.line].ruh >= 0
      ensures Owned(PageAt(c, s1.lines, a), s1.lines[a.line].ruh, owner[lpn := ruh])
    {
      assert PageAt(c, s1.lines, a) == PageAt(c, s.lines, a) && s1.lines[a.line].ruh == s.lines[a.line].ruh;
      assert Owned(PageAt(c, s.lines, a), s.lines[a.line].ruh, owner);
      assert MappedBack(c, s1.maptbl, PageAt(c, s1.lines, a), a, lpn);
    }
  }

  // ---------------------------------------------------------------- appending

  /** The pages and tags after a successful append. */
  lemma AppendPages(c: Config, s: Ftl, i: nat, lpn: nat, data: int)
    requires Shape(c, s) && i <= c.n && Append(c, s, i, lpn, data).Ok?
    ensures
      var s1 := Append(c, s, i, lpn, data).value;
      && lpn < c.ttPgs && s1.maptbl == s.maptbl[lpn := Some(s.wp[i])]
      && (forall a: Ppa :: InRange(c, a) ==>
            PageAt(c, s1.lines, a) ==
              if a == s.wp[i] then Page(PgValid, Some(lpn), data) else PageAt(c, s.lines, a))
      && (forall l: nat :: l < c.lines ==>
            s1.lines[l].ruh == if s.wp[i].off + 1 == c.p && l == s.free[0] then Tag(c, i) else s.lines[l].ruh)
      && (s.wp[i].off + 1 == c.p ==> s.free != [])
  {
  }

  lemma ViewUpdated(c: Config, s: Ftl, s1: Ftl, a: Ppa, lpn: nat, data: int)
    requires Shape(c, s) && Shape(c, s1) && InRange(c, a) && lpn < c.ttPgs
    requires s1.maptbl == s.maptbl[lpn := Some(a)] && PageAt(c, s1.lines, a).data == data
    requires forall m: nat :: m < |s.maptbl| && m != lpn && s.maptbl[m].Some? && InRange(c, s.maptbl[m].value) ==>
               PageAt(c, s1.lines, s.maptbl[m].value).data == PageAt(c, s.lines, s.maptbl[m].value).data
    ensures View(c, s1) == View(c, s)[lpn := data]
  {
    assert View(c, s1).Keys == View(c, s)[lpn := data].Keys;
  }

  lemma AppendView(c: Config, s: Ftl, g: Gc, i: nat, lpn: nat, data: int)
    requires Core(c, s, g, lpn) && i <= c.n && Append(c, s, i, lpn, data).Ok?
    ensures View(c, Append(c, s, i, lpn, data).value) == View(c, s)[lpn := data]
  {
    hide LedgerOk, CountersOk, HeapOk, SweptOk, BlocksOk, View, Append;
    var s1 := Append(c, s, i, lpn, data).value;
    AppendPages(c, s, i, lpn, data);
    assert OpenOk(c, s, i);
    forall m: nat | m < |s.maptbl| && m != lpn && s.maptbl[m].Some?
      ensures s.maptbl[m].value != s.wp[i]
    {
      assert Backs(c, s.lines, g, s.maptbl[m].value, m);
    }
    ViewUpdated(c, s, s1, s.wp[i], lpn, data);
  }

  lemma AppendIsolated(c: Config, s: Ftl, g: Gc, i: nat, lpn: nat, data: int, owner: map<nat, nat>)
    requires Core(c, s, g, lpn) && i <= c.n && Append(c, s, i, lpn, data).Ok?
    requires Isolated(c, s, owner) && (i < c.n ==> lpn in owner && owner[lpn] == i)
    ensures Isolated(c, Append(c, s, i, lpn, data).value, owner)
  {
    var s1 := Append(c, s, i, lpn, data).value;
    AppendPages(c, s, i, lpn, data);
    assert OpenOk(c, s, i);
    if s.wp[i].off + 1 == c.p {
      assert FreeLine(c, s.lines[s.free[0]], s.pq.pri[s.free[0]]);
      FreeApart(c, s, g);
    }
    forall a: Ppa | InRange(c, a) && PageAt(c, s1.lines, a).status == PgValid && s1.lines[a.line].ruh >= 0
      ensures Owned(PageAt(c, s1.lines, a), s1.lines[a.line].ruh, owner)
    {
      if a != s.wp[i] {
        assert PageAt(c, s1.lines, a) == PageAt(c, s.lines, a);
        assert Owned(PageAt(c, s.lines, a), s.lines[a.line].ruh, owner);
      }
    }
  }

  // ---------------------------------------------------------------- sweeping

  lemma CleanView(c: Config, s: Ftl, g: Gc, k: nat, owner: map<nat, nat>)
    requires Core(c, s, g, -1) && g.Sweeping? && k < c.p && k !in g.cleaned
    requires Step(c, s, g.v, Clean(k)).Ok? && Isolated(c, s, owner)
    ensures View(c, Step(c, s, g.v, Clean(k)).value) == View(c, s)
    ensures Isolated(c, Step(c, s, g.v, Clean(k)).value, owner)
  {
    hide LedgerOk, CountersOk, HeapOk, LinesOk, BlocksOk, Append, VictimLine, Isolated;
    var a := Ppa(g.v, k);
    var pg := PageAt(c, s.lines, a);
    if pg.status == PgValid {
      PassValid(c, s, g, k);
      AppendView(c, s, Cleaned(g, k), c.n, pg.lpn.value, pg.data);
      AppendIsolated(c, s, Cleaned(g, k), c.n, pg.lpn.value, pg.data, owner);
      assert MappedBack(c, s.maptbl, pg, a, -1);
      assert View(c, s)[pg.lpn.value] == pg.data;
      var s1 := Append(c, s, c.n, pg.lpn.value, pg.data).value;
      ViewIgnores(c, s1, Step(c, s, g.v, Clean(k)).value);
    }
  }

  lemma EraseView(c: Config, s: Ftl, g: Gc, b: nat, owner: map<nat, nat>)
    requires Core(c, s, g, -1) && g.Sweeping? && Isolated(c, s, owner)
    requires forall k :: 0 <= k < c.p && c.blockOf[k] == b ==> k in g.cleaned
    ensures View(c, EraseBlock(c, s, g.v, b)) == View(c, s)
    ensures Isolated(c, EraseBlock(c, s, g.v, b), owner)
  {
    var s1 := EraseBlock(c, s, g.v, b);
    forall m: nat | m < |s.maptbl| && s.maptbl[m].Some?
      ensures PageAt(c, s1.lines, s.maptbl[m].value) == PageAt(c, s.lines, s.maptbl[m].value)
    {
      assert Backs(c, s.lines, g, s.maptbl[m].value, m);
    }
    EraseIsolated(c, s, g.v, b, owner);
  }

  lemma EraseIsolated(c: Config, s: Ftl, v: nat, b: nat, owner: map<nat, nat>)
    requires Shape(c, s) && v < c.lines && Isolated(c, s, owner)
    ensures Isolated(c, EraseBlock(c, s, v, b), owner)
  {
    var s1 := EraseBlock(c, s, v, b);
    forall a: Ppa | InRange(c, a) && PageAt(c, s1.lines, a).status == PgValid && s1.lines[a.line].ruh >= 0
      ensures Owned(PageAt(c, s1.lines, a), s1.lines[a.line].ruh, owner)
    {
      assert Owned(PageAt(c, s.lines, a), s.lines[a.line].ruh, owner);
    }
  }

  lemma {:induction false} SweepView(c: Config, s: Ftl, g: Gc, steps: seq<SweepStep>, owner: map<nat, nat>)
    requires Core(c, s, g, -1) && g.Sweeping? && SweepFrom(c, steps, g.cleaned, g.erased)
    requires Sweep(c, s, g.v, steps).Ok? && Isolated(c, s, owner)
    ensures View(c, Sweep(c, s, g.v, steps).value) == View(c, s)
    ensures Isolated(c, Sweep(c, s, g.v, steps).value, owner)
    decreases |steps|
  {
    hide LedgerOk, CountersOk, HeapOk, LinesOk, MapOk, BlocksOk, View, Isolated, ErasedLine, VictimLine;
    if steps != [] {
      StepKeeps(c, s, g, steps);
      if steps[0].Clean? {
        CleanView(c, s, g, steps[0].off, owner);
        SweepView(c, Step(c, s, g.v, steps[0]).value, Cleaned(g, steps[0].off), steps[1..], owner);
      } else {
        EraseView(c, s, g, steps[0].blk, owner);
        SweepView(c, Step(c, s, g.v, steps[0]).value, Erased(g, steps[0].blk), steps[1..], owner);
      }
    }
  }

  // ---------------------------------------------------------------- do_gc and the page write

  lemma ViewIgnores(c: Config, s: Ftl, s1: Ftl)
    requires Shape(c, s) && Shape(c, s1) && s1.maptbl == s.maptbl && s1.lines == s.lines
    ensures View(c, s1) == View(c, s)
    ensures forall owner: map<nat, nat> :: Isolated(c, s, owner) ==> Isolated(c, s1, owner)
  {
    forall owner: map<nat, nat> | Isolated(c, s, owner)
      ensures Isolated(c, s1, owner)
    {
      forall a: Ppa | InRange(c, a) && PageAt(c, s1.lines, a).status == PgValid && s1.lines[a.line].ruh >= 0
        ensures Owned(PageAt(c, s1.lines, a), s1.lines[a.line].ruh, owner)
      {
        assert Owned(PageAt(c, s.lines, a), s.lines[a.line].ruh, owner);
      }
    }
  }

  lemma FreeView(c: Config, s: Ftl, v: nat, owner: map<nat, nat>)
    requires Shape(c, s) && v < c.lines && Isolated(c, s, owner)
    ensures View(c, MarkLineFree(c, s, v)) == View(c, s)
    ensures Isolated(c, MarkLineFree(c, s, v), owner)
  {
    var s1 := MarkLineFree(c, s, v);
    assert forall a: Ppa :: InRange(c, a) ==> PageAt(c, s1.lines, a) == PageAt(c, s.lines, a);
    forall a: Ppa | InRange(c, a) && PageAt(c, s1.lines, a).status == PgValid && s1.lines[a.line].ruh >= 0
      ensures Owned(PageAt(c, s1.lines, a), s1.lines[a.line].ruh, owner)
    {
      assert Owned(PageAt(c, s.lines, a), s.lines[a.line].ruh, owner);
    }
  }

  /** Garbage collection is invisible to the host and respects placement. */
  lemma DoGcInvisible(c: Config, s: Ftl, force: bool, owner: map<nat, nat>)
    requires Core(c, s, Idle, -1) && SweepOk(c) && DoGc(c, s, force).Ok? && Isolated(c, s, owner)
    ensures View(c, DoGc(c, s, force).value) == View(c, s)
    ensures Isolated(c, DoGc(c, s, force).value, owner)
  {
    hide LedgerOk, CountersOk, HeapOk, LinesOk, SweptOk, MapOk, BlocksOk, Sweep, View;
    if !NoVictim(c, s, force) {
      var v := s.pq.d[1];
      var s1 := SweepStart(c, s);
      SweepStartKeeps(c, s);
      ViewIgnores(c, s, s1);
      SweepView(c, s1, Begin(s, v), c.sweep, owner);
      FreeView(c, Sweep(c, s1, v, c.sweep).value, v, owner);
    }
  }

  lemma SpendInvisible(c: Config, s: Ftl, owner: map<nat, nat>)
    requires Core(c, s, Idle, -1) && SweepOk(c) && SpendCredit(c, s).Ok? && Isolated(c, s, owner)
    ensures View(c, SpendCredit(c, s).value) == View(c, s)
    ensures Isolated(c, SpendCredit(c, s).value, owner)
  {
    var s1 := s.(credits := Dec32(s.credits));
    CoreIgnores(c, s, s1, Idle, -1);
    ViewIgnores(c, s, s1);
    if s1.credits <= 0 {
      if s1.freeCnt <= c.threshold {
        DoGcInvisible(c, s1, true, owner);
      }
      ViewIgnores(c, ForegroundGc(c, s1).value, SpendCredit(c, s).value);
    }
  }

  /** A page write changes exactly the logical page it names, whatever GC it sets off,
      and hands that page to its reclaim unit handle. */
  lemma WritePageView(c: Config, s: Ftl, lpn: nat, ruh: nat, data: int, owner: map<nat, nat>)
    requires Inv(c, s) && SweepOk(c) && lpn < c.ttPgs && ruh < c.n
    requires WritePage(c, s, lpn, ruh, data).Ok? && Isolated(c, s, owner)
    ensures View(c, WritePage(c, s, lpn, ruh, data).value) == View(c, s)[lpn := data]
    ensures Isolated(c, WritePage(c, s, lpn, ruh, data).value, owner[lpn := ruh])
  {
    SupersedeKeeps(c, s, lpn);
    SupersedeView(c, s, lpn);
    SupersedeIsolated(c, s, lpn, ruh, owner);
    var s1 := Supersede(c, s, lpn).value;
    AppendKeeps(c, s1, Idle, ruh, lpn, data);
    AppendView(c, s1, Idle, ruh, lpn, data);
    AppendIsolated(c, s1, Idle, ruh, lpn, data, owner[lpn := ruh]);
    SpendInvisible(c, Append(c, s1, ruh, lpn, data).value, owner[lpn := ruh]);
  }

  /** The owner that the tags of a state suggest for each mapped page. */
  ghost function TagOwners(c: Config, s: Ftl): map<nat, nat>
    requires Shape(c, s)
  {
    map m: nat | m < |s.maptbl| && s.maptbl[m].Some? && InRange(c, s.maptbl[m].value)
                 && s.lines[s.maptbl[m].value.line].ruh >= 0
      :: s.lines[s.maptbl[m].value.line].ruh
  }

  lemma TagOwnersIsolate(c: Config, s: Ftl)
    requires Shape(c, s) && MapOk(c, s, Idle, -1)
    ensures Isolated(c, s, TagOwners(c, s))
  {
    forall a: Ppa | InRange(c, a) && PageAt(c, s.lines, a).status == PgValid && s.lines[a.line].ruh >= 0
      ensures Owned(PageAt(c, s.lines, a), s.lines[a.line].ruh, TagOwners(c, s))
    {
      assert MappedBack(c, s.maptbl, PageAt(c, s.lines, a), a, -1);
    }
  }
}

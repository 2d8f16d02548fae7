/** Superseding the old copy of a logical page keeps the global invariant. */
module FtlInvalidate {
  import opened Common
  import opened Finite
  import opened FtlModel
  import opened FtlInv
  import opened FtlCounts
  import opened FtlAppend
  import P = Pqueue

  lemma HeapChange(q: P.Heap, l: nat, v: int)
    requires HeapOk(q) && P.In(q, l)
    ensures HeapOk(P.ChangePriority(q, l, v))
    ensures P.Members(P.ChangePriority(q, l, v)) == P.Members(q)
    ensures forall k: nat :: P.In(P.ChangePriority(q, l, v), k) <==> P.In(q, k)
  {
    P.ChangePriorityCorrect(q, l, v);
  }

  /** Where a line with a VALID page can be. */
  lemma ValidLinePlace(c: Config, s: Ftl, x: int, a: Ppa)
    requires Core(c, s, Idle, x) && InRange(c, a) && PageAt(c, s.lines, a).status == PgValid
    ensures Counted(c, s.lines[a.line], s.pq.pri[a.line])
    ensures
      || (a.line in s.full && s.pq.pri[a.line] == c.p)
      || (P.In(s.pq, a.line) && s.pq.pri[a.line] < c.p)
      || (exists i: nat :: i <= c.n && s.wp[i].line == a.line && OpenOk(c, s, i) && s.pq.pri[a.line] < c.p)
  {
    var l := a.line;
    EveryPlace(c, s, Idle, l);
    forall j | 0 <= j < |s.free|
      ensures s.free[j] != l
    {
      assert FreeLine(c, s.lines[s.free[j]], s.pq.pri[s.free[j]]);
    }
    if l in s.full {
      var j :| 0 <= j < |s.full| && s.full[j] == l;
      assert FullLine(c, s.lines[s.full[j]], s.pq.pri[s.full[j]]);
    } else if P.In(s.pq, l) {
      assert VictimLine(c, s.lines[l], s.pq.pri[l]);
    } else {
      var i: nat :| i <= c.n && s.wp[i].line == l;
      assert OpenOk(c, s, i);
      FreeRoom(c, s.lines[l], s.pq.pri[l], s.wp[i].off);
    }
  }

  lemma InvalidateSucceeds(c: Config, s: Ftl, x: int, a: Ppa)
    requires Core(c, s, Idle, x) && InRange(c, a) && PageAt(c, s.lines, a).status == PgValid
    ensures MarkInvalid(c, s, a).Ok?
  {
    ValidLinePlace(c, s, x, a);
    ValidRoom(c, s.lines[a.line], s.pq.pri[a.line], a.off);
    if s.pq.pos[a.line] != 0 {
      assert P.In(s.pq, a.line);
    }
  }

  lemma InvalidateMaps(c: Config, s: Ftl, a: Ppa, lpn: nat)
    requires Core(c, s, Idle, -1) && lpn < c.ttPgs && s.maptbl[lpn] == Some(a)
    requires InRange(c, a) && MarkInvalid(c, s, a).Ok?
    ensures MapOk(c, MarkInvalid(c, s, a).value, Idle, lpn)
  {
    var s1 := MarkInvalid(c, s, a).value;
    assert forall b: Ppa :: InRange(c, b) && b != a ==> PageAt(c, s1.lines, b) == PageAt(c, s.lines, b);
    assert PageAt(c, s1.lines, a).status == PgInvalid;
    assert Backs(c, s.lines, Idle, a, lpn);
    forall m: nat | m < |s1.maptbl| && m != lpn && s1.maptbl[m].Some?
      ensures Backs(c, s1.lines, Idle, s1.maptbl[m].value, m)
    {
      assert Backs(c, s.lines, Idle, s.maptbl[m].value, m);
    }
    forall b: Ppa | InRange(c, b) && PageAt(c, s1.lines, b).status == PgValid
      ensures MappedBack(c, s1.maptbl, PageAt(c, s1.lines, b), b, lpn)
    {
      assert MappedBack(c, s.maptbl, PageAt(c, s.lines, b), b, -1);
    }
  }

  /** The invalidated line itself: one VALID page fewer, everything still programmed. */
  lemma InvalidatedLine(c: Config, s: Ftl, a: Ppa)
    requires Shape(c, s) && InRange(c, a) && PageAt(c, s.lines, a).status == PgValid
    requires Counted(c, s.lines[a.line], s.pq.pri[a.line]) && MarkInvalid(c, s, a).Ok?
    ensures
      var line, line1 := s.lines[a.line], MarkInvalid(c, s, a).value.lines[a.line];
      && Counted(c, line1, s.pq.pri[a.line] - 1) && line1.ruh == line.ruh
      && (forall off: nat :: WrittenTo(line, off) ==> WrittenTo(line1, off))
  {
    var line := s.lines[a.line];
    InvalidateCounted(c, line, s.pq.pri[a.line], a.off,
                      Page(PgInvalid, None, line.pages[a.off].data));
  }

  lemma InvalidateOpen(c: Config, s: Ftl, a: Ppa, i: nat)
    requires Core(c, s, Idle, -1) && InRange(c, a) && PageAt(c, s.lines, a).status == PgValid
    requires MarkInvalid(c, s, a).Ok? && i <= c.n && s.wp[i].line == a.line && s.pq.pri[a.line] < c.p
    ensures
      var s1 := MarkInvalid(c, s, a).value;
      LedgerOk(c, s1, Idle) && CountersOk(s1) && HeapOk(s1.pq) && LinesOk(c, s1)
  {
    var l := a.line;
    var s1 := MarkInvalid(c, s, a).value;
    OpenApart(c, s, Idle, i);
    assert OpenOk(c, s, i);
    InvalidatedLine(c, s, a);
    PriorityElsewhere(s.pq, l, s.pq.pri[l] - 1);
    assert Elsewhere(c, s, s1, l);
    FreesFrame(c, s, s1, l);
    FullsFrame(c, s, s1, l);
    assert forall k: nat :: P.In(s1.pq, k) ==> P.In(s.pq, k);
    VictimsFrame(c, s, s1, l);
    OpensFrame(c, s, s1, l, i);
    assert OpenOk(c, s1, i);
    LedgerSame(s, s1, Idle);
  }

  lemma InvalidateVictim(c: Config, s: Ftl, a: Ppa)
    requires Core(c, s, Idle, -1) && InRange(c, a) && PageAt(c, s.lines, a).status == PgValid
    requires MarkInvalid(c, s, a).Ok? && P.In(s.pq, a.line)
    ensures
      var s1 := MarkInvalid(c, s, a).value;
      LedgerOk(c, s1, Idle) && CountersOk(s1) && HeapOk(s1.pq) && LinesOk(c, s1)
  {
    var l := a.line;
    var s1 := MarkInvalid(c, s, a).value;
    VictimApart(c, s, Idle, l);
    assert VictimLine(c, s.lines[l], s.pq.pri[l]);
    InvalidatedLine(c, s, a);
    HeapChange(s.pq, l, s.pq.pri[l] - 1);
    assert Elsewhere(c, s, s1, l);
    FreesFrame(c, s, s1, l);
    FullsFrame(c, s, s1, l);
    OpensUntouched(c, s, s1, l);
    forall k: nat | P.In(s1.pq, k)
      ensures VictimLine(c, s1.lines[k], s1.pq.pri[k])
    {
      if k != l {
        assert VictimLine(c, s.lines[k], s.pq.pri[k]);
      }
    }
    LedgerHeap(c, s, s1, Idle);
  }

  lemma OpensUntouched(c: Config, s: Ftl, s1: Ftl, l: nat)
    requires Shape(c, s) && Shape(c, s1) && Elsewhere(c, s, s1, l) && OpensOk(c, s) && s1.wp == s.wp
    requires forall i :: 0 <= i <= c.n ==> s.wp[i].line != l
    ensures OpensOk(c, s1)
  {
    forall i | 0 <= i <= c.n
      ensures OpenOk(c, s1, i)
    {
      assert OpenOk(c, s, i);
    }
  }

  lemma LedgerHeap(c: Config, s: Ftl, s1: Ftl, g: Gc)
    requires P.Shaped(s.pq) && P.Shaped(s1.pq) && LedgerOk(c, s, g)
    requires s1.free == s.free && s1.wp == s.wp
    requires multiset(s1.full) + P.Members(s1.pq) == multiset(s.full) + P.Members(s.pq)
    ensures LedgerOk(c, s1, g)
  {
    var rest := multiset(s.free) + multiset(OpenLines(s.wp)) + Held(g);
    assert Ledger(s1, g) == rest + (multiset(s1.full) + P.Members(s1.pq));
    assert Ledger(s, g) == rest + (multiset(s.full) + P.Members(s.pq));
  }

  lemma InvalidateFull(c: Config, s: Ftl, a: Ppa)
    requires Core(c, s, Idle, -1) && InRange(c, a) && PageAt(c, s.lines, a).status == PgValid
    requires MarkInvalid(c, s, a).Ok? && a.line in s.full && s.pq.pri[a.line] == c.p
    ensures
      var s1 := MarkInvalid(c, s, a).value;
      LedgerOk(c, s1, Idle) && CountersOk(s1) && HeapOk(s1.pq) && LinesOk(c, s1)
  {
    hide MarkInvalid, FreesOk, FullsOk, OpensOk, VictimsOk, HeapOk, LedgerOk, MapOk, SweptOk, BlocksOk,
         Elsewhere, Remove, P.Members;
    var l := a.line;
    var s1 := MarkInvalid(c, s, a).value;
    FullApart(c, s, Idle, l);
    InvalidateFullHeap(c, s, a);
    InvalidatedFull(c, s, a);
    FreesFrame(c, s, s1, l);
    RemoveDrops(s.full, l);
    FullsFrame(c, s, s1, l);
    OpensUntouched(c, s, s1, l);
    MoveToHeap(s.full, l, P.Members(s.pq));
    LedgerHeap(c, s, s1, Idle);
  }

  lemma InvalidatedFull(c: Config, s: Ftl, a: Ppa)
    requires Shape(c, s) && InRange(c, a) && MarkInvalid(c, s, a).Ok? && s.pq.pri[a.line] == c.p
    ensures
      var s1 := MarkInvalid(c, s, a).value;
      && Elsewhere(c, s, s1, a.line) && s1.free == s.free && s1.wp == s.wp && s1.freeCnt == s.freeCnt
      && s1.full == Remove(s.full, a.line) && s1.fullCnt == s.fullCnt - 1
      && s1.victimCnt == s.victimCnt + 1 && |s1.pq.d| == |s.pq.d| + 1
  {
    hide P.Insert, P.ChangePriority, Remove;
  }

  lemma RemoveDrops(s: seq<nat>, x: nat)
    requires multiset(s)[x] == 1
    ensures forall j :: 0 <= j < |Remove(s, x)| ==> Remove(s, x)[j] != x
    ensures |Remove(s, x)| == |s| - 1
    ensures multiset(Remove(s, x)) + multiset{x} == multiset(s)
  {
    var r := Remove(s, x);
    assert multiset(r)[x] == 0;
    assert |multiset(r)| == |multiset(s)| - 1;
    forall j | 0 <= j < |r|
      ensures r[j] != x
    {
      assert r[j] in multiset(r);
    }
  }

  lemma MoveToHeap(full: seq<nat>, l: nat, members: multiset<nat>)
    requires multiset(full)[l] == 1
    ensures multiset(Remove(full, l)) + (members + multiset{l}) == multiset(full) + members
  {
    RemoveDrops(full, l);
  }

  lemma InvalidateFullHeap(c: Config, s: Ftl, a: Ppa)
    requires Core(c, s, Idle, -1) && InRange(c, a) && PageAt(c, s.lines, a).status == PgValid
    requires MarkInvalid(c, s, a).Ok? && a.line in s.full && s.pq.pri[a.line] == c.p
    requires !P.In(s.pq, a.line)
    ensures
      var s1 := MarkInvalid(c, s, a).value;
      && HeapOk(s1.pq) && VictimsOk(c, s1)
      && P.Members(s1.pq) == P.Members(s.pq) + multiset{a.line}
  {
    var l := a.line;
    var s1 := MarkInvalid(c, s, a).value;
    var j :| 0 <= j < |s.full| && s.full[j] == l;
    assert FullLine(c, s.lines[s.full[j]], s.pq.pri[s.full[j]]);
    InvalidatedLine(c, s, a);
    var q := s.pq.(pri := s.pq.pri[l := c.p - 1]);
    PriorityElsewhere(s.pq, l, c.p - 1);
    HeapInsert(q, l);
    forall k: nat | P.In(s1.pq, k)
      ensures VictimLine(c, s1.lines[k], s1.pq.pri[k])
    {
      if k != l {
        assert P.In(s.pq, k);
        assert VictimLine(c, s.lines[k], s.pq.pri[k]);
      }
    }
  }

  /** Invalidating the old copy of lpn never trips an assertion and leaves lpn alone
      in transit. */
  lemma SupersedeKeeps(c: Config, s: Ftl, lpn: nat)
    requires Core(c, s, Idle, -1) && lpn < c.ttPgs
    ensures Supersede(c, s, lpn).Ok? && Core(c, Supersede(c, s, lpn).value, Idle, lpn)
  {
    match s.maptbl[lpn]
    case None =>
    case Some(a) =>
      assert Backs(c, s.lines, Idle, a, lpn);
      InvalidateSucceeds(c, s, -1, a);
      InvalidateMaps(c, s, a, lpn);
      ValidLinePlace(c, s, -1, a);
      if a.line in s.full && s.pq.pri[a.line] == c.p {
        InvalidateFull(c, s, a);
      } else if P.In(s.pq, a.line) {
        InvalidateVictim(c, s, a);
      } else {
        var i: nat :| i <= c.n && s.wp[i].line == a.line && OpenOk(c, s, i) && s.pq.pri[a.line] < c.p;
        InvalidateOpen(c, s, a, i);
      }
  }
}

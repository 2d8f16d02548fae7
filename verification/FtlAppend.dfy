/** Programming the next page of a frontier keeps the global invariant. */
module FtlAppend {
  import opened Common
  import opened Finite
  import opened FtlModel
  import opened FtlInv
  import opened FtlCounts
  import P = Pqueue

  lemma RetagCounted(c: Config, line: Line, vpc: int, ruh: int)
    requires Counted(c, line, vpc)
    ensures Counted(c, line.(ruh := ruh), vpc)
  {
    var line1 := line.(ruh := ruh);
    forall b | 0 <= b < |line1.blocks|
      ensures BlockCounted(c, line1, b)
    {
      assert BlockCounted(c, line, b);
    }
  }

  /** The priority of an element outside the heap is free to change. */
  lemma PriorityElsewhere(q: P.Heap, l: nat, v: int)
    requires HeapOk(q) && l < |q.pri| && !P.In(q, l)
    ensures HeapOk(q.(pri := q.pri[l := v]))
  {
    var r := q.(pri := q.pri[l := v]);
    assert forall i :: 1 <= i < |q.d| ==> q.pos[q.d[i]] == i && q.d[i] != l;
  }

  /** Frontier i's last page has just been programmed and the pointer not yet moved. */
  ghost predicate Programmed(c: Config, s: Ftl, g: Gc, i: nat) {
    && Shape(c, s) && BlocksOk(c) && i <= c.n
    && LedgerOk(c, s, g) && CountersOk(s) && HeapOk(s.pq)
    && FreesOk(c, s) && FullsOk(c, s) && VictimsOk(c, s) && SweptOk(c, s, g) && MapOk(c, s, g, -1)
    && (forall j :: 0 <= j <= c.n && j != i ==> OpenOk(c, s, j))
    && OpenedLine(c, s.lines[s.wp[i].line], s.pq.pri[s.wp[i].line], s.wp[i].off + 1, Tag(c, i))
  }

  lemma ProgramMaps(c: Config, s: Ftl, g: Gc, i: nat, lpn: nat, data: int)
    requires Core(c, s, g, lpn) && i <= c.n && lpn < c.ttPgs
    requires Program(c, s, s.wp[i], lpn, data).Ok?
    ensures MapOk(c, Program(c, s, s.wp[i], lpn, data).value, g, -1)
  {
    var a := s.wp[i];
    var s1 := Program(c, s, a, lpn, data).value;
    OpenApart(c, s, g, i);
    forall m: nat | m < |s1.maptbl| && s1.maptbl[m].Some?
      ensures Backs(c, s1.lines, g, s1.maptbl[m].value, m)
    {
      if m != lpn {
        assert Backs(c, s.lines, g, s.maptbl[m].value, m);
      }
    }
    forall b: Ppa | InRange(c, b) && PageAt(c, s1.lines, b).status == PgValid && !Gone(g, b)
      ensures MappedBack(c, s1.maptbl, PageAt(c, s1.lines, b), b, -1)
    {
      if b != a {
        assert PageAt(c, s1.lines, b) == PageAt(c, s.lines, b);
        assert MappedBack(c, s.maptbl, PageAt(c, s.lines, b), b, lpn);
      }
    }
  }

  lemma ProgramSucceeds(c: Config, s: Ftl, g: Gc, i: nat, lpn: nat, data: int)
    requires Core(c, s, g, lpn) && i <= c.n && lpn < c.ttPgs
    ensures Program(c, s, s.wp[i], lpn, data).Ok?
  {
    var a := s.wp[i];
    assert OpenOk(c, s, i);
    FreeRoom(c, s.lines[a.line], s.pq.pri[a.line], a.off);
  }

  lemma ProgramOthers(c: Config, s: Ftl, g: Gc, i: nat, lpn: nat, data: int)
    requires Core(c, s, g, lpn) && i <= c.n && lpn < c.ttPgs
    requires Program(c, s, s.wp[i], lpn, data).Ok?
    ensures
      var s1 := Program(c, s, s.wp[i], lpn, data).value;
      && FreesOk(c, s1) && FullsOk(c, s1) && VictimsOk(c, s1) && SweptOk(c, s1, g)
      && (forall j :: 0 <= j <= c.n && j != i ==> OpenOk(c, s1, j))
  {
    var l := s.wp[i].line;
    var s1 := Program(c, s, s.wp[i], lpn, data).value;
    OpenApart(c, s, g, i);
    assert Elsewhere(c, s, s1, l);
    FreesFrame(c, s, s1, l);
    FullsFrame(c, s, s1, l);
    assert forall k: nat :: P.In(s1.pq, k) ==> P.In(s.pq, k);
    VictimsFrame(c, s, s1, l);
    OpensFrame(c, s, s1, l, i);
  }

  lemma ProgramOwn(c: Config, s: Ftl, g: Gc, i: nat, lpn: nat, data: int)
    requires Core(c, s, g, lpn) && i <= c.n && lpn < c.ttPgs
    requires Program(c, s, s.wp[i], lpn, data).Ok?
    ensures
      var s1 := Program(c, s, s.wp[i], lpn, data).value;
      OpenedLine(c, s1.lines[s.wp[i].line], s1.pq.pri[s.wp[i].line], s.wp[i].off + 1, Tag(c, i))
  {
    var a := s.wp[i];
    assert OpenOk(c, s, i);
    ProgramCounted(c, s.lines[a.line], s.pq.pri[a.line], a.off, Page(PgValid, Some(lpn), data));
  }

  lemma ProgramKeeps(c: Config, s: Ftl, g: Gc, i: nat, lpn: nat, data: int)
    requires Core(c, s, g, lpn) && i <= c.n && lpn < c.ttPgs
    requires Program(c, s, s.wp[i], lpn, data).Ok?
    ensures Programmed(c, Program(c, s, s.wp[i], lpn, data).value, g, i)
  {
    var a := s.wp[i];
    var s1 := Program(c, s, a, lpn, data).value;
    ProgramOthers(c, s, g, i, lpn, data);
    ProgramOwn(c, s, g, i, lpn, data);
    ProgramMaps(c, s, g, i, lpn, data);
    assert HeapOk(s1.pq) by {
      OpenApart(c, s, g, i);
      PriorityElsewhere(s.pq, a.line, s.pq.pri[a.line] + 1);
    }
    LedgerSame(s, s1, g);
  }

  lemma AdvanceInside(c: Config, s: Ftl, g: Gc, i: nat)
    requires Programmed(c, s, g, i) && s.wp[i].off + 1 < c.p
    ensures Advance(c, s, i).Ok? && Core(c, Advance(c, s, i).value, g, -1)
  {
    var s1 := Advance(c, s, i).value;
    assert OpenLines(s1.wp) == OpenLines(s.wp);
    assert OpenOk(c, s1, i);
    forall j | 0 <= j <= c.n
      ensures OpenOk(c, s1, j)
    {
      if j != i {
        assert OpenOk(c, s, j);
      }
    }
  }

  /** Frontier i's line is fully programmed and has been filed, so that the ledger
      counts it twice until the frontier takes another line. */
  ghost predicate Filed(c: Config, s: Ftl, g: Gc, i: nat) {
    && Shape(c, s) && BlocksOk(c) && i <= c.n
    && CountersOk(s) && HeapOk(s.pq)
    && Ledger(s, g) == multiset(Range(c.lines)) + multiset{s.wp[i].line}
    && (s.wp[i].line in s.full || P.In(s.pq, s.wp[i].line))
    && FreesOk(c, s) && FullsOk(c, s) && VictimsOk(c, s) && SweptOk(c, s, g) && MapOk(c, s, g, -1)
    && (forall j :: 0 <= j <= c.n && j != i ==> OpenOk(c, s, j))
  }

  lemma CloseFull(c: Config, s: Ftl, g: Gc, i: nat)
    requires Programmed(c, s, g, i) && s.wp[i].off + 1 == c.p && s.pq.pri[s.wp[i].line] == c.p
    ensures CloseLine(c, s, s.wp[i].line).Ok? && Filed(c, CloseLine(c, s, s.wp[i].line).value, g, i)
  {
    var l := s.wp[i].line;
    CountBounds(c, s.lines[l], s.pq.pri[l]);
    var s1 := CloseLine(c, s, l).value;
    FullsPlus(c, s, s1, l);
    FiledOthers(c, s, s1, i);
    FileLedger(c, s, s1, g, l);
  }

  lemma FullsPlus(c: Config, s: Ftl, s1: Ftl, l: nat)
    requires Shape(c, s) && Shape(c, s1) && FullsOk(c, s) && l < c.lines && FullLine(c, s.lines[l], s.pq.pri[l])
    requires s1.lines == s.lines && s1.pq.pri == s.pq.pri && s1.full == s.full + [l]
    ensures FullsOk(c, s1)
  {
    forall j | 0 <= j < |s1.full|
      ensures FullLine(c, s1.lines[s1.full[j]], s1.pq.pri[s1.full[j]])
    {
      if j < |s.full| {
        assert FullLine(c, s.lines[s.full[j]], s.pq.pri[s.full[j]]);
      }
    }
  }

  lemma VictimsPlus(c: Config, s: Ftl, s1: Ftl, l: nat)
    requires Shape(c, s) && Shape(c, s1) && VictimsOk(c, s) && l < c.lines && VictimLine(c, s.lines[l], s.pq.pri[l])
    requires s1.lines == s.lines && s1.pq.pri == s.pq.pri
    requires forall k: nat :: P.In(s1.pq, k) <==> P.In(s.pq, k) || k == l
    ensures VictimsOk(c, s1)
  {
    forall k: nat | P.In(s1.pq, k)
      ensures VictimLine(c, s1.lines[k], s1.pq.pri[k])
    {
      if k != l {
        assert VictimLine(c, s.lines[k], s.pq.pri[k]);
      }
    }
  }

  lemma FileLedger(c: Config, s: Ftl, s1: Ftl, g: Gc, l: nat)
    requires P.Shaped(s.pq) && P.Shaped(s1.pq) && LedgerOk(c, s, g)
    requires s1.free == s.free && s1.wp == s.wp
    requires multiset(s1.full) + P.Members(s1.pq) == multiset(s.full) + P.Members(s.pq) + multiset{l}
    ensures Ledger(s1, g) == multiset(Range(c.lines)) + multiset{l}
  {
    var rest := multiset(s.free) + multiset(OpenLines(s.wp)) + Held(g);
    assert Ledger(s1, g) == rest + (multiset(s1.full) + P.Members(s1.pq));
    assert Ledger(s, g) == rest + (multiset(s.full) + P.Members(s.pq));
  }

  lemma HeapInsert(q: P.Heap, l: nat)
    requires HeapOk(q) && l < |q.pos| && !P.In(q, l)
    ensures HeapOk(P.Insert(q, l))
    ensures P.Members(P.Insert(q, l)) == P.Members(q) + multiset{l}
    ensures forall k: nat :: P.In(P.Insert(q, l), k) <==> P.In(q, k) || k == l
  {
    P.InsertCorrect(q, l);
  }

  lemma CloseVictim(c: Config, s: Ftl, g: Gc, i: nat)
    requires Programmed(c, s, g, i) && s.wp[i].off + 1 == c.p && s.pq.pri[s.wp[i].line] != c.p
    ensures CloseLine(c, s, s.wp[i].line).Ok? && Filed(c, CloseLine(c, s, s.wp[i].line).value, g, i)
  {
    var l := s.wp[i].line;
    CountBounds(c, s.lines[l], s.pq.pri[l]);
    OpenApart(c, s, g, i);
    HeapInsert(s.pq, l);
    var s1 := CloseLine(c, s, l).value;
    VictimsPlus(c, s, s1, l);
    FiledOthers(c, s, s1, i);
    FileLedger(c, s, s1, g, l);
  }

  /** Filing a line leaves the free list, the other frontiers and the maps alone. */
  lemma FiledOthers(c: Config, s: Ftl, s1: Ftl, i: nat)
    requires Shape(c, s) && Shape(c, s1) && i <= c.n && FreesOk(c, s)
    requires s1.lines == s.lines && s1.pq.pri == s.pq.pri && s1.wp == s.wp && s1.free == s.free
    requires forall j :: 0 <= j <= c.n && j != i ==> OpenOk(c, s, j)
    ensures FreesOk(c, s1)
    ensures forall j :: 0 <= j <= c.n && j != i ==> OpenOk(c, s1, j)
  {
    forall j | 0 <= j <= c.n && j != i
      ensures OpenOk(c, s1, j)
    {
      assert OpenOk(c, s, j);
    }
  }

  lemma OpenKeepsLines(c: Config, s: Ftl, g: Gc, i: nat)
    requires Filed(c, s, g, i) && s.free != []
    ensures LinesOk(c, OpenLine(c, s, i).value) && SweptOk(c, OpenLine(c, s, i).value, g)
  {
    var f := s.free[0];
    var s1 := OpenLine(c, s, i).value;
    FiledApart(c, s, g, i);
    assert Elsewhere(c, s, s1, f);
    FreesFrame(c, s, s1, f);
    FullsFrame(c, s, s1, f);
    VictimsFrame(c, s, s1, f);
    OpensFrame(c, s, s1, f, i);
    assert OpenOk(c, s1, i) by {
      assert FreeLine(c, s.lines[s.free[0]], s.pq.pri[s.free[0]]);
      RetagCounted(c, s.lines[f], s.pq.pri[f], Tag(c, i));
    }
  }

  lemma OpenLedger(c: Config, s: Ftl, g: Gc, i: nat)
    requires Shape(c, s) && i <= c.n && s.free != []
    requires Ledger(s, g) == multiset(Range(c.lines)) + multiset{s.wp[i].line}
    ensures LedgerOk(c, OpenLine(c, s, i).value, g)
  {
    var rest := multiset(s.full) + P.Members(s.pq) + Held(g);
    assert Ledger(s, g) == multiset(s.free) + rest + multiset(OpenLines(s.wp));
    LedgerRotates(s.free, rest, s.wp, i, multiset(Range(c.lines)));
  }

  lemma OpenKeeps(c: Config, s: Ftl, g: Gc, i: nat)
    requires Filed(c, s, g, i) && s.free != []
    ensures OpenLine(c, s, i).Ok? && Core(c, OpenLine(c, s, i).value, g, -1)
  {
    var f := s.free[0];
    var s1 := OpenLine(c, s, i).value;
    OpenKeepsLines(c, s, g, i);
    RetagMaps(c, s, g, f, Tag(c, i));
    assert LedgerOk(c, s1, g) by {
      OpenLedger(c, s, g, i);
    }
  }

  lemma RetagMaps(c: Config, s: Ftl, g: Gc, f: nat, ruh: int)
    requires Shape(c, s) && f < c.lines && MapOk(c, s, g, -1)
    ensures
      var lines1 := s.lines[f := s.lines[f].(ruh := ruh)];
      ForwardOk(c, s.maptbl, lines1, g, -1) && BackwardOk(c, s.maptbl, lines1, g, -1)
  {
    var lines1 := s.lines[f := s.lines[f].(ruh := ruh)];
    assert forall a: Ppa :: InRange(c, a) ==> PageAt(c, lines1, a) == PageAt(c, s.lines, a);
    forall m: nat | m < |s.maptbl| && s.maptbl[m].Some?
      ensures Backs(c, lines1, g, s.maptbl[m].value, m)
    {
      assert Backs(c, s.lines, g, s.maptbl[m].value, m);
    }
  }

  /** While a filed line awaits replacement, the head of the free list is nowhere else. */
  lemma FiledApart(c: Config, s: Ftl, g: Gc, i: nat)
    requires Shape(c, s) && HeapOk(s.pq) && i <= c.n && s.free != []
    requires Ledger(s, g) == multiset(Range(c.lines)) + multiset{s.wp[i].line}
    requires s.wp[i].line in s.full || P.In(s.pq, s.wp[i].line)
    ensures
      var f := s.free[0];
      && f !in s.free[1..] && f !in s.full && !P.In(s.pq, f) && (g.Sweeping? ==> f != g.v)
      && (forall j :: 0 <= j <= c.n ==> s.wp[j].line != f)
  {
    var f, l := s.free[0], s.wp[i].line;
    assert s.free == [f] + s.free[1..];
    LedgerCount(s, g, f);
    assert Ledger(s, g)[f] == if f == l then 2 else 1 by {
      assert multiset(Range(c.lines))[f] == 1;
    }
    HeapMember(s.pq, f);
    OpenMember(s.wp, i);
    forall j | 0 <= j <= c.n
      ensures s.wp[j].line != f
    {
      OpenMember(s.wp, j);
    }
  }

  /** A frontier append never trips an assertion; when a line is at hand it keeps the
      invariant and completes the logical page that was in transit. */
  lemma AppendKeeps(c: Config, s: Ftl, g: Gc, i: nat, lpn: nat, data: int)
    requires Core(c, s, g, lpn) && i <= c.n && lpn < c.ttPgs
    ensures
      var r := Append(c, s, i, lpn, data);
      && !r.BugOn?
      && (r.Ok? ==> Core(c, r.value, g, -1))
      && (r.NoFreeLine? <==> s.wp[i].off + 1 == c.p && s.free == [])
  {
    ProgramSucceeds(c, s, g, i, lpn, data);
    ProgramKeeps(c, s, g, i, lpn, data);
    AdvanceKeeps(c, Program(c, s, s.wp[i], lpn, data).value, g, i);
  }

  lemma AdvanceKeeps(c: Config, s: Ftl, g: Gc, i: nat)
    requires Programmed(c, s, g, i)
    ensures
      var r := Advance(c, s, i);
      && !r.BugOn?
      && (r.Ok? ==> Core(c, r.value, g, -1))
      && (r.NoFreeLine? <==> s.wp[i].off + 1 == c.p && s.free == [])
  {
    var l := s.wp[i].line;
    if s.wp[i].off + 1 < c.p {
      AdvanceInside(c, s, g, i);
    } else {
      if s.pq.pri[l] == c.p {
        CloseFull(c, s, g, i);
      } else {
        CloseVictim(c, s, g, i);
      }
      if s.free != [] {
        OpenKeeps(c, CloseLine(c, s, l).value, g, i);
      }
    }
  }
}

/** The invariant of FtlInv meets what the methods of FdpFtl ask for. */
module FtlReady {
  import opened Finite
  import opened FtlModel
  import opened FtlInv
  import opened FtlAppend
  import opened FtlInvalidate
  import opened FtlGc
  import opened FtlSweep
  import P = Pqueue

  /** The victim heap never outgrows the tt_lines + 1 slots that pqueue_init gives it. */
  lemma HeapFits(c: Config, s: Ftl, g: Gc, x: int)
    requires Core(c, s, g, x)
    ensures Fits(c, s)
  {
    hide LedgerOk, LinesOk, SweptOk, MapOk, BlocksOk, CountersOk;
    var m := s.pq.d[1..];
    forall i, j | 0 <= i < j < |m|
      ensures m[i] != m[j]
    {
      assert s.pq.pos[s.pq.d[i + 1]] == i + 1 && s.pq.pos[s.pq.d[j + 1]] == j + 1;
    }
    DistinctCard(m);
    forall l | l in Elements(m)
      ensures l in Range(c.lines)
    {
      var i :| 0 <= i < |m| && m[i] == l;
      assert s.pq.d[i + 1] == l;
    }
    SubsetCard(Elements(m), Range(c.lines));
  }

  /** A forced collection takes a line with the fewest valid pages of all closed lines that
      have invalid ones. */
  lemma ForcedGcTakesBest(c: Config, s: Ftl, l: nat)
    requires Core(c, s, Idle, -1) && 1 < |s.pq.d| && P.In(s.pq, l)
    ensures !NoVictim(c, s, true) && s.pq.d[1] < c.lines && l < c.lines
    ensures |ValidOffs(s.lines[s.pq.d[1]].pages)| <= |ValidOffs(s.lines[l].pages)|
  {
    hide LedgerOk, MapOk, BlocksOk, CountersOk, SweptOk;
    var v := s.pq.d[1];
    P.TopIsLeast(s.pq);
    assert P.In(s.pq, v);
    assert VictimLine(c, s.lines[v], s.pq.pri[v]) && VictimLine(c, s.lines[l], s.pq.pri[l]);
  }

  /** One that is not forced takes a line exactly if some candidate has at most an eighth of its
      pages valid. */
  lemma UnforcedGcWaits(c: Config, s: Ftl)
    requires Core(c, s, Idle, -1)
    ensures !NoVictim(c, s, false) <==>
      exists l: nat :: l < c.lines && P.In(s.pq, l) && 8 * |ValidOffs(s.lines[l].pages)| <= c.p
  {
    hide LedgerOk, MapOk, BlocksOk, CountersOk, SweptOk;
    if 1 < |s.pq.d| {
      var v := s.pq.d[1];
      assert P.In(s.pq, v);
      assert VictimLine(c, s.lines[v], s.pq.pri[v]);
      Eighth(s.pq.pri[v], c.p);
      forall l: nat | l < c.lines && P.In(s.pq, l)
        ensures |ValidOffs(s.lines[v].pages)| <= |ValidOffs(s.lines[l].pages)|
      {
        ForcedGcTakesBest(c, s, l);
      }
    }
  }

  lemma Eighth(x: int, p: nat)
    ensures x > p / 8 <==> 8 * x > p
  {
  }

  /** The line that do_gc takes is closed, entirely programmed and out of reach of the
      GC frontier, and the sweep over it succeeds. */
  lemma CollectReady(c: Config, s: Ftl, force: bool)
    requires Core(c, s, Idle, -1) && SweepOk(c) && 1 <= s.refill <= c.p
    requires !NoVictim(c, s, force) && DoGc(c, s, force).Ok?
    ensures
      var v := s.pq.d[1];
      var s1 := StartGc(c, TakeVictim(c, s), v);
      && CanSweep(c, s1, v, c.sweep) && VictimAlone(c, s1, v) && Unerased(c, s1, v, 0)
  {
    var v := s.pq.d[1];
    DoGcKeeps(c, s, force);
    HeapFits(c, DoGc(c, s, force).value, Idle, -1);
    hide MapOk, BlocksOk, CountersOk, SweptOk, Sweep, P.Pop, Counted;
    assert P.In(s.pq, v);
    VictimApart(c, s, Idle, v);
    assert VictimLine(c, s.lines[v], s.pq.pri[v]);
  }
}

/** Filling the lines of a partition through one handle, page write by page write. */
module FtlFill {
  import opened Common
  import opened Finite
  import opened FtlModel
  import opened FtlInv
  import opened FtlCounts
  import opened FtlAppend
  import opened FtlInvalidate
  import opened FtlGc
  import opened FtlView
  import opened FtlSpace
  import opened FtlInit
  import P = Pqueue

  /** Every page of frontier ruh's line so far and of q closed lines holds fresh data,
      nothing has been invalidated, and the credits run in step with the line. */
  ghost predicate Filling(c: Config, s: Ftl, ruh: nat, q: nat, o: nat, mapped: set<nat>) {
    && Core(c, s, Idle, -1) && CreditsOk(c, s)
    && ruh < c.n && o < c.p && s.wp[ruh].off == o
    && |s.free| + q == c.lines - c.n - 1
    && s.credits == c.p - o && s.refill == c.p
    && |s.pq.d| == 1 && (forall l: nat :: l < c.lines ==> s.lines[l].ipc == 0)
    && Mapped(s) == mapped
  }

  lemma AppendFills(c: Config, s: Ftl, ruh: nat, q: nat, o: nat, mapped: set<nat>, lpn: nat)
    requires Filling(c, s, ruh, q, o, mapped) && lpn !in mapped && lpn < c.ttPgs
    requires Append(c, s, ruh, lpn, 0).Ok?
    ensures
      var s1 := Append(c, s, ruh, lpn, 0).value;
      && |s1.pq.d| == 1 && (forall l: nat :: l < c.lines ==> s1.lines[l].ipc == 0)
      && (if o + 1 < c.p then s1.wp[ruh].off == o + 1 && s1.free == s.free
          else s1.wp[ruh].off == 0 && |s1.free| == |s.free| - 1)
  {
    if o + 1 == c.p {
      FreshLineFills(c, s, ruh, lpn);
    }
    AppendShapes(c, s, ruh, lpn);
  }

  /** A line programmed to the end with nothing invalidated is full. */
  lemma FreshLineFills(c: Config, s: Ftl, ruh: nat, lpn: nat)
    requires Core(c, s, Idle, -1) && lpn < c.ttPgs && s.maptbl[lpn].None? && ruh < c.n
    requires s.wp[ruh].off + 1 == c.p && s.lines[s.wp[ruh].line].ipc == 0
    requires Program(c, s, s.wp[ruh], lpn, 0).Ok?
    ensures Program(c, s, s.wp[ruh], lpn, 0).value.pq.pri[s.wp[ruh].line] == c.p
  {
    var s1 := Program(c, s, s.wp[ruh], lpn, 0).value;
    FreshMaps(c, s, lpn);
    ProgramOwn(c, s, Idle, ruh, lpn, 0);
    CountBounds(c, s1.lines[s.wp[ruh].line], s1.pq.pri[s.wp[ruh].line]);
  }

  lemma AppendShapes(c: Config, s: Ftl, i: nat, lpn: nat)
    requires Shape(c, s) && i <= c.n && Append(c, s, i, lpn, 0).Ok?
    requires s.wp[i].off + 1 == c.p ==> Program(c, s, s.wp[i], lpn, 0).value.pq.pri[s.wp[i].line] == c.p
    ensures
      var s1 := Append(c, s, i, lpn, 0).value;
      && s1.pq.d == s.pq.d && (forall l: nat :: l < c.lines ==> s1.lines[l].ipc == s.lines[l].ipc)
      && (if s.wp[i].off + 1 < c.p then s1.wp[i].off == s.wp[i].off + 1 && s1.free == s.free
          else s1.wp[i].off == 0 && |s1.free| == |s.free| - 1)
  {
  }

  /** Writing a page that was never mapped supersedes nothing. */
  lemma FreshMaps(c: Config, s: Ftl, lpn: nat)
    requires Core(c, s, Idle, -1) && lpn < c.ttPgs && s.maptbl[lpn].None?
    ensures Core(c, s, Idle, lpn) && Supersede(c, s, lpn) == Ok(s)
  {
    SupersedeKeeps(c, s, lpn);
  }

  lemma FillSpend(c: Config, s: Ftl)
    requires Shape(c, s) && |s.pq.d| == 1 && 1 <= s.credits <= c.p && s.refill == c.p
    ensures SpendCredit(c, s) == Ok(s.(credits := if s.credits == 1 then c.p else s.credits - 1))
  {
  }

  lemma FillWrite(c: Config, s: Ftl, ruh: nat, lpn: nat)
    requires Core(c, s, Idle, -1) && lpn < c.ttPgs && s.maptbl[lpn].None? && ruh < c.n && s.free != []
    ensures Append(c, s, ruh, lpn, 0).Ok? && Core(c, Append(c, s, ruh, lpn, 0).value, Idle, -1)
    ensures WritePage(c, s, lpn, ruh, 0) == SpendCredit(c, Append(c, s, ruh, lpn, 0).value)
  {
    FreshMaps(c, s, lpn);
    AppendKeeps(c, s, Idle, ruh, lpn, 0);
  }

  ghost function NextLine(c: Config, q: nat, o: nat): nat { if o + 1 < c.p then q else q + 1 }
  ghost function NextOff(c: Config, o: nat): nat { if o + 1 < c.p then o + 1 else 0 }

  lemma FillStep(c: Config, s: Ftl, ruh: nat, q: nat, o: nat, mapped: set<nat>, lpn: nat)
    requires Filling(c, s, ruh, q, o, mapped) && lpn !in mapped && lpn < c.ttPgs && q < c.lines - c.n - 1
    ensures WritePage(c, s, lpn, ruh, 0).Ok?
    ensures
      var s1 := WritePage(c, s, lpn, ruh, 0).value;
      Filling(c, s1, ruh, NextLine(c, q, o), NextOff(c, o), mapped + {lpn})
  {
    hide LedgerOk, CountersOk, HeapOk, LinesOk, SweptOk, MapOk, BlocksOk, Append, SpendCredit, WritePage;
    assert s.maptbl[lpn].None?;
    FillWrite(c, s, ruh, lpn);
    AppendFills(c, s, ruh, q, o, mapped, lpn);
    AppendMapped(c, s, ruh, lpn, 0);
    var s1 := Append(c, s, ruh, lpn, 0).value;
    FillSpend(c, s1);
    CoreIgnores(c, s1, s1.(credits := if s1.credits == 1 then c.p else s1.credits - 1), Idle, -1);
  }

  lemma SpendPlain(c: Config, s: Ftl)
    requires Shape(c, s) && s.credits >= 2
    ensures SpendCredit(c, s) == Ok(s.(credits := s.credits - 1))
  {
  }

  lemma WriteIsSpend(c: Config, s: Ftl, ruh: nat, lpn: nat)
    requires Shape(c, s) && lpn < c.ttPgs && ruh < c.n && Supersede(c, s, lpn).Ok?
    requires Append(c, Supersede(c, s, lpn).value, ruh, lpn, 0).Ok?
    ensures WritePage(c, s, lpn, ruh, 0) == SpendCredit(c, Append(c, Supersede(c, s, lpn).value, ruh, lpn, 0).value)
  {
  }

  lemma AppendInside(c: Config, s: Ftl, i: nat, lpn: nat)
    requires Shape(c, s) && i <= c.n && Append(c, s, i, lpn, 0).Ok? && s.wp[i].off + 1 < c.p
    ensures
      var s1 := Append(c, s, i, lpn, 0).value;
      s1.free == s.free && s1.wp[i].off == s.wp[i].off + 1
  {
  }

  /** With room left in the open line and credits to spare, a write stays on the line. */
  lemma InsideWrite(c: Config, s: Ftl, ruh: nat, lpn: nat)
    requires Core(c, s, Idle, -1) && ruh < c.n && lpn < c.ttPgs && s.wp[ruh].off + 1 < c.p
    requires 2 <= s.credits <= c.p
    ensures WritePage(c, s, lpn, ruh, 0).Ok?
    ensures
      var s1 := WritePage(c, s, lpn, ruh, 0).value;
      && Core(c, s1, Idle, -1) && s1.free == s.free && s1.wp[ruh].off == s.wp[ruh].off + 1
      && s1.credits == s.credits - 1 && s1.refill == s.refill
  {
    SupersedeKeeps(c, s, lpn);
    var s1 := Supersede(c, s, lpn).value;
    AppendKeeps(c, s1, Idle, ruh, lpn, 0);
    AppendInside(c, s1, ruh, lpn);
    var s2 := Append(c, s1, ruh, lpn, 0).value;
    SpendPlain(c, s2);
    CoreIgnores(c, s2, s2.(credits := s2.credits - 1), Idle, -1);
    WriteIsSpend(c, s, ruh, lpn);
  }

  lemma CornerWrite(c: Config, s: Ftl, ruh: nat, lpn: nat)
    requires Core(c, s, Idle, -1) && ruh < c.n && lpn < c.ttPgs && s.wp[ruh].off + 1 == c.p && s.free == []
    ensures WritePage(c, s, lpn, ruh, 0).NoFreeLine?
  {
    SupersedeKeeps(c, s, lpn);
    AppendKeeps(c, Supersede(c, s, lpn).value, Idle, ruh, lpn, 0);
  }

  /** Page writes left before the last free line has been taken and filled. */
  ghost function FillLeft(c: Config, q: nat, o: nat): int {
    (c.lines - c.n - q) * c.p - o
  }

  lemma FillLeftSteps(c: Config, q: nat, o: nat)
    requires o < c.p
    ensures FillLeft(c, NextLine(c, q, o), NextOff(c, o)) == FillLeft(c, q, o) - 1
    ensures q < c.lines - c.n - 1 && NextLine(c, q, o) == c.lines - c.n - 1 ==> NextOff(c, o) == 0
  {
    assert (c.lines - c.n - (q + 1)) * c.p == (c.lines - c.n - q) * c.p - c.p;
  }

  lemma FillLeftLast(c: Config)
    requires Basic(c)
    ensures FillLeft(c, c.lines - c.n - 1, 0) == c.p
  {
  }

  lemma FillRoom(c: Config, q: nat, o: nat)
    requires q < c.lines - c.n - 1 && o < c.p
    ensures FillLeft(c, q, o) > c.p
  {
    Monotone(2, c.lines - c.n - q, c.p);
  }

  /** The counters and events that other partitions add do not matter. */
  lemma FillingIgnores(c: Config, s: Ftl, s1: Ftl, ruh: nat, q: nat, o: nat, mapped: set<nat>)
    requires Filling(c, s, ruh, q, o, mapped) && s1 == s.(ctx := s1.ctx)
    ensures Filling(c, s1, ruh, q, o, mapped)
  {
    hide LedgerOk, CountersOk, HeapOk, LinesOk, SweptOk, MapOk, BlocksOk;
    CoreIgnores(c, s, s1, Idle, -1);
  }

  lemma InitFilling(c: Config, ruh: nat)
    requires ConfigOk(c) && ruh < c.n
    ensures Filling(c, Init(c), ruh, 0, 0, {})
  {
    InitInv(c);
  }
}

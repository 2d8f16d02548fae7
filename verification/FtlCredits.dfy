/** The write credits of a partition: how many host pages may be written before the next
    foreground collection is due. */
module FtlCredits {
  import opened Common
  import opened FtlModel
  import opened FtlInv
  import opened FtlAppend
  import opened FtlInvalidate
  import opened FtlGc
  import opened FtlStats
  import P = Pqueue

  /** The INVALID pages of the line that a collection would take. */
  ghost function VictimInvalid(s: Ftl): nat
    requires 1 < |s.pq.d| && s.pq.d[1] < |s.lines|
  {
    |InvalidOffs(s.lines[s.pq.d[1]].pages)|
  }

  lemma VictimCounted(c: Config, s: Ftl)
    requires Core(c, s, Idle, -1) && 1 < |s.pq.d|
    ensures s.pq.d[1] < |s.lines| && s.lines[s.pq.d[1]].ipc == VictimInvalid(s)
    ensures 1 <= VictimInvalid(s) <= c.p < TWO_32
  {
    var v := s.pq.d[1];
    VictimPages(c, s);
    assert P.In(s.pq, v);
    assert VictimLine(c, s.lines[v], s.pq.pri[v]);
  }

  /** do_gc sets the next refill to the INVALID pages of its victim and spends no credit. */
  lemma DoGcRefill(c: Config, s: Ftl)
    requires Core(c, s, Idle, -1) && 1 < |s.pq.d| && DoGc(c, s, true).Ok?
    ensures s.pq.d[1] < |s.lines|
    ensures DoGc(c, s, true).value.refill == VictimInvalid(s) && DoGc(c, s, true).value.credits == s.credits
  {
    hide Sweep, LedgerOk, CountersOk, HeapOk, LinesOk, SweptOk, MapOk, BlocksOk;
    VictimCounted(c, s);
    GrantedCredits(c, s);
  }

  /** The credits and the refill that spending one credit leaves. */
  ghost predicate Spends(c: Config, s: Ftl, s1: Ftl) {
    if Collects(c, s) then
      s.pq.d[1] < |s.lines| && s1.credits == s1.refill == VictimInvalid(s)
    else
      s1.refill == s.refill && s1.credits == if s.credits > 1 then s.credits - 1 else s.refill
  }

  /** A collection returns as many credits as its victim had INVALID pages.  Without one a
      credit is used up, and after the last the previous refill is granted again. */
  lemma SpendGrants(c: Config, s: Ftl)
    requires Core(c, s, Idle, -1) && CreditsOk(c, s) && SpendCredit(c, s).Ok?
    ensures Spends(c, s, SpendCredit(c, s).value)
  {
    hide DoGc, LedgerOk, CountersOk, HeapOk, LinesOk, SweptOk, MapOk, BlocksOk;
    var s1 := s.(credits := s.credits - 1);
    CoreIgnores(c, s, s1, Idle, -1);
    if s1.credits == 0 && s.freeCnt <= c.threshold {
      if 1 < |s.pq.d| {
        DoGcRefill(c, s1);
        VictimCounted(c, s1);
      } else {
        EmptyHeap(c, s1);
      }
    }
  }

  lemma EmptyHeap(c: Config, s: Ftl)
    requires Shape(c, s) && |s.pq.d| == 1
    ensures DoGc(c, s, true) == Ok(s)
  {
  }

  /** Collecting happens exactly on the last credit, with few lines free and a victim there. */
  lemma WriteGrants(c: Config, s: Ftl, lpn: nat, ruh: nat, data: int)
    requires Inv(c, s) && SweepOk(c) && lpn < c.ttPgs && ruh < c.n && WritePage(c, s, lpn, ruh, data).Ok?
    ensures
      var at := Spender(c, s, lpn, ruh, data);
      && at.Ok? && at.value.credits == s.credits && at.value.refill == s.refill
      && Spends(c, at.value, WritePage(c, s, lpn, ruh, data).value)
      && (Collects(c, at.value) ==> s.credits == 1)
  {
    hide LedgerOk, CountersOk, HeapOk, LinesOk, SweptOk, MapOk, BlocksOk, Shape, Supersede, Append, SpendCredit,
         Spends;
    SupersedeKeeps(c, s, lpn);
    var s1 := Supersede(c, s, lpn).value;
    AppendKeeps(c, s1, Idle, ruh, lpn, data);
    SpendGrants(c, Append(c, s1, ruh, lpn, data).value);
  }
}

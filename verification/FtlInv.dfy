/** The global invariant of one FTL partition. */
module FtlInv {
  import opened Common
  import opened Finite
  import opened FtlModel
  import P = Pqueue

  /** Progress of a sweep: the victim, its line before the sweep, the offsets cleaned
      and the blocks erased so far. */
  datatype Gc = Idle | Sweeping(v: nat, before: Line, cleaned: set<nat>, erased: set<nat>)

  // ---------------------------------------------------------------- line ledger

  ghost function OpenLines(wp: seq<Ppa>): seq<nat> {
    seq(|wp|, i requires 0 <= i < |wp| => wp[i].line)
  }

  ghost function Held(g: Gc): multiset<nat> {
    if g.Sweeping? then multiset{g.v} else multiset{}
  }

  ghost function Ledger(s: Ftl, g: Gc): multiset<nat>
    requires P.Shaped(s.pq)
  {
    multiset(s.free) + multiset(s.full) + P.Members(s.pq) + multiset(OpenLines(s.wp)) + Held(g)
  }

  /** Every line is in exactly one of the free list, the full list, the victim heap, an
      open frontier, or the hands of the collector. */
  ghost predicate LedgerOk(c: Config, s: Ftl, g: Gc)
    requires P.Shaped(s.pq)
  {
    Ledger(s, g) == multiset(Range(c.lines))
  }

  ghost predicate CountersOk(s: Ftl)
  {
    s.freeCnt == |s.free| && s.fullCnt == |s.full| && s.victimCnt == |s.pq.d| - 1
  }

  ghost predicate HeapOk(q: P.Heap) {
    && P.Valid(q)
    && forall l: nat :: l < |q.pos| && q.pos[l] != 0 ==> P.In(q, l)
  }

  // ---------------------------------------------------------------- page counts

  ghost function ValidOffs(pages: seq<Page>): set<nat> {
    set k: nat | k < |pages| && pages[k].status == PgValid
  }

  ghost function InvalidOffs(pages: seq<Page>): set<nat> {
    set k: nat | k < |pages| && pages[k].status == PgInvalid
  }

  ghost function InBlock(c: Config, ks: set<nat>, b: nat): set<nat> {
    set k | k in ks && k < |c.blockOf| && c.blockOf[k] == b
  }

  ghost predicate BlockCounted(c: Config, line: Line, b: nat)
    requires b < |line.blocks|
  {
    && line.blocks[b].vpc == |InBlock(c, ValidOffs(line.pages), b)|
    && line.blocks[b].ipc == |InBlock(c, InvalidOffs(line.pages), b)|
  }

  /** Line and block counters are the true numbers of VALID and INVALID pages. */
  ghost predicate Counted(c: Config, line: Line, vpc: int) {
    && vpc == |ValidOffs(line.pages)|
    && line.ipc == |InvalidOffs(line.pages)|
    && forall b :: 0 <= b < |line.blocks| ==> BlockCounted(c, line, b)
  }

  /** Exactly the first `off` pages have been programmed. */
  ghost predicate WrittenTo(line: Line, off: nat) {
    forall k :: 0 <= k < |line.pages| ==> (line.pages[k].status != PgFree <==> k < off)
  }

  ghost predicate FreeLine(c: Config, line: Line, vpc: int) {
    Counted(c, line, vpc) && WrittenTo(line, 0) && line.ruh == -1
  }

  ghost predicate FullLine(c: Config, line: Line, vpc: int) {
    Counted(c, line, vpc) && WrittenTo(line, c.p) && vpc == c.p
  }

  ghost predicate VictimLine(c: Config, line: Line, vpc: int) {
    Counted(c, line, vpc) && WrittenTo(line, c.p) && vpc < c.p
  }

  ghost predicate OpenedLine(c: Config, line: Line, vpc: int, off: nat, tag: int) {
    Counted(c, line, vpc) && WrittenTo(line, off) && line.ruh == tag
  }

  ghost predicate FreesOk(c: Config, s: Ftl)
    requires Shape(c, s)
  {
    forall j :: 0 <= j < |s.free| ==> FreeLine(c, s.lines[s.free[j]], s.pq.pri[s.free[j]])
  }

  ghost predicate FullsOk(c: Config, s: Ftl)
    requires Shape(c, s)
  {
    forall j :: 0 <= j < |s.full| ==> FullLine(c, s.lines[s.full[j]], s.pq.pri[s.full[j]])
  }

  ghost predicate VictimsOk(c: Config, s: Ftl)
    requires Shape(c, s)
  {
    forall l: nat :: P.In(s.pq, l) ==> VictimLine(c, s.lines[l], s.pq.pri[l])
  }

  /** Frontier j is as it should be. */
  ghost predicate OpenOk(c: Config, s: Ftl, j: nat)
    requires Shape(c, s) && j <= c.n
  {
    OpenedLine(c, s.lines[s.wp[j].line], s.pq.pri[s.wp[j].line], s.wp[j].off, Tag(c, j))
  }

  ghost predicate OpensOk(c: Config, s: Ftl)
    requires Shape(c, s)
  {
    forall i :: 0 <= i <= c.n ==> OpenOk(c, s, i)
  }

  /** The collector's line is the line it started from with the erased blocks wiped. */
  ghost predicate SweptOk(c: Config, s: Ftl, g: Gc)
    requires Shape(c, s)
  {
    g.Sweeping? ==>
      && g.v < c.lines && |g.before.pages| == c.p && |g.before.blocks| == c.nblks
      && VictimLine(c, g.before, s.pq.pri[g.v])
      && s.lines[g.v] == ErasedLine(c, g.before, g.erased)
      && (forall k :: 0 <= k < c.p && c.blockOf[k] in g.erased ==> k in g.cleaned)
  }

  // ---------------------------------------------------------------- address maps

  ghost predicate Gone(g: Gc, a: Ppa) {
    g.Sweeping? && a.line == g.v && a.off in g.cleaned
  }

  /** a holds the current copy of logical page m. */
  ghost predicate Backs(c: Config, lines: seq<Line>, g: Gc, a: Ppa, m: nat)
    requires LinesShaped(c, lines)
  {
    && InRange(c, a) && !Gone(g, a)
    && PageAt(c, lines, a).status == PgValid && PageAt(c, lines, a).lpn == Some(m)
  }

  ghost predicate ForwardOk(c: Config, maptbl: seq<Option<Ppa>>, lines: seq<Line>, g: Gc, x: int)
    requires LinesShaped(c, lines)
  {
    forall m: nat :: m < |maptbl| && m != x && maptbl[m].Some? ==> Backs(c, lines, g, maptbl[m].value, m)
  }

  ghost predicate MappedBack(c: Config, maptbl: seq<Option<Ppa>>, pg: Page, a: Ppa, x: int) {
    pg.lpn.Some? && pg.lpn.value < |maptbl| && pg.lpn.value != x && maptbl[pg.lpn.value] == Some(a)
  }

  ghost predicate BackwardOk(c: Config, maptbl: seq<Option<Ppa>>, lines: seq<Line>, g: Gc, x: int)
    requires LinesShaped(c, lines)
  {
    forall a: Ppa :: InRange(c, a) && PageAt(c, lines, a).status == PgValid && !Gone(g, a)
      ==> MappedBack(c, maptbl, PageAt(c, lines, a), a, x)
  }

  /** maptbl and the reverse map are mutually inverse between the mapped logical pages
      other than x and the VALID pages that the sweep has not yet passed. */
  ghost predicate MapOk(c: Config, s: Ftl, g: Gc, x: int)
    requires Shape(c, s)
  {
    ForwardOk(c, s.maptbl, s.lines, g, x) && BackwardOk(c, s.maptbl, s.lines, g, x)
  }

  // ---------------------------------------------------------------- configuration

  /** The sweep cleans every page once, before its block is erased, and erases every
      block once. */
  ghost predicate SweepFrom(c: Config, steps: seq<SweepStep>, cleaned: set<nat>, erased: set<nat>)
    decreases |steps|
  {
    if steps == [] then cleaned == Range(c.p) && erased == Range(c.nblks)
    else match steps[0]
      case Clean(k) =>
        k < c.p && k !in cleaned && SweepFrom(c, steps[1..], cleaned + {k}, erased)
      case Erase(b) =>
        && b < c.nblks && b !in erased
        && (forall k :: 0 <= k < |c.blockOf| && c.blockOf[k] == b ==> k in cleaned)
        && SweepFrom(c, steps[1..], cleaned, erased + {b})
  }

  ghost predicate SweepOk(c: Config) {
    SweepFrom(c, c.sweep, {}, {})
  }

  ghost predicate BlocksOk(c: Config) {
    forall b :: 0 <= b < c.nblks ==> |InBlock(c, Range(c.p), b)| == c.blkPgs
  }

  ghost predicate ConfigOk(c: Config) {
    Basic(c) && BlocksOk(c) && SweepOk(c)
  }

  // ---------------------------------------------------------------- the invariant

  ghost predicate LinesOk(c: Config, s: Ftl)
    requires Shape(c, s)
  {
    FreesOk(c, s) && FullsOk(c, s) && VictimsOk(c, s) && OpensOk(c, s)
  }

  /** Core(c, s, g, x): everything but the credits, with logical page x in transit. */
  ghost predicate Core(c: Config, s: Ftl, g: Gc, x: int) {
    && Shape(c, s) && BlocksOk(c)
    && LedgerOk(c, s, g) && CountersOk(s) && HeapOk(s.pq)
    && LinesOk(c, s) && SweptOk(c, s, g) && MapOk(c, s, g, x)
  }

  /** 1 <= write_credits <= pgs_per_line, and likewise the next refill. */
  ghost predicate CreditsOk(c: Config, s: Ftl) {
    1 <= s.credits <= c.p && 1 <= s.refill <= c.p
  }

  /** What holds between any two page writes. */
  ghost predicate Inv(c: Config, s: Ftl) {
    Core(c, s, Idle, -1) && CreditsOk(c, s)
  }

  // ---------------------------------------------------------------- using the ledger

  lemma LedgerCount(s: Ftl, g: Gc, l: nat)
    requires P.Shaped(s.pq)
    ensures Ledger(s, g)[l] == multiset(s.free)[l] + multiset(s.full)[l] + P.Members(s.pq)[l]
                               + multiset(OpenLines(s.wp))[l] + Held(g)[l]
  {
  }

  lemma LedgerSame(s: Ftl, s1: Ftl, g: Gc)
    requires P.Shaped(s.pq) && P.Shaped(s1.pq)
    requires s1.free == s.free && s1.full == s.full && s1.wp == s.wp && s1.pq.d == s.pq.d
    ensures Ledger(s1, g) == Ledger(s, g)
  {
  }

  /** Line l is counted once over all its possible places. */
  lemma LineOnce(c: Config, s: Ftl, g: Gc, l: nat)
    requires P.Shaped(s.pq) && LedgerOk(c, s, g) && l < c.lines
    ensures
      multiset(s.free)[l] + multiset(s.full)[l] + P.Members(s.pq)[l]
      + multiset(OpenLines(s.wp))[l] + Held(g)[l] == 1
  {
    assert Ledger(s, g)[l] == multiset(Range(c.lines))[l];
  }

  lemma HeapMember(q: P.Heap, l: nat)
    requires HeapOk(q)
    ensures P.In(q, l) <==> P.Members(q)[l] > 0
  {
    if P.In(q, l) {
      assert q.d[1..][q.pos[l] - 1] == l;
    }
    if l in P.Members(q) {
      var j :| 0 <= j < |q.d[1..]| && q.d[1..][j] == l;
      assert q.d[j + 1] == l;
    }
  }

  lemma OpenMember(wp: seq<Ppa>, i: nat)
    requires i < |wp|
    ensures multiset(OpenLines(wp))[wp[i].line] > 0
  {
    assert OpenLines(wp)[i] == wp[i].line;
  }

  /** Where an open line is not. */
  lemma OpenApart(c: Config, s: Ftl, g: Gc, i: nat)
    requires Shape(c, s) && LedgerOk(c, s, g) && HeapOk(s.pq) && i <= c.n
    ensures
      var l := s.wp[i].line;
      && l !in s.free && l !in s.full && !P.In(s.pq, l) && (g.Sweeping? ==> l != g.v)
      && (forall j :: 0 <= j <= c.n && j != i ==> s.wp[j].line != l)
  {
    var l := s.wp[i].line;
    LineOnce(c, s, g, l);
    OpenMember(s.wp, i);
    HeapMember(s.pq, l);
    forall j | 0 <= j <= c.n && j != i
      ensures s.wp[j].line != l
    {
      if s.wp[j].line == l {
        TwiceCounted(OpenLines(s.wp), i, j);
      }
    }
  }

  lemma TwiceCounted(s: seq<nat>, i: nat, j: nat)
    requires i < |s| && j < |s| && i != j && s[i] == s[j]
    ensures multiset(s)[s[i]] >= 2
  {
    var x := s[i];
    var a, b := if i < j then i else j, if i < j then j else i;
    assert s == s[..b] + s[b..];
    assert s[..b][a] == x && s[b..][0] == x;
    assert multiset(s) == multiset(s[..b]) + multiset(s[b..]);
  }

  /** Where the head of the free list is not. */
  lemma FreeApart(c: Config, s: Ftl, g: Gc)
    requires Shape(c, s) && LedgerOk(c, s, g) && HeapOk(s.pq) && s.free != []
    ensures
      var l := s.free[0];
      && l !in s.free[1..] && l !in s.full && !P.In(s.pq, l) && (g.Sweeping? ==> l != g.v)
      && (forall i :: 0 <= i <= c.n ==> s.wp[i].line != l)
      && multiset(s.free) == multiset{l} + multiset(s.free[1..])
  {
    var l := s.free[0];
    assert s.free == [l] + s.free[1..];
    LineOnce(c, s, g, l);
    HeapMember(s.pq, l);
    forall i | 0 <= i <= c.n
      ensures s.wp[i].line != l
    {
      OpenMember(s.wp, i);
    }
  }

  /** Where a line on the full list is not. */
  lemma FullApart(c: Config, s: Ftl, g: Gc, l: nat)
    requires Shape(c, s) && LedgerOk(c, s, g) && HeapOk(s.pq) && l in s.full
    ensures
      && l !in s.free && !P.In(s.pq, l) && (g.Sweeping? ==> l != g.v)
      && (forall i :: 0 <= i <= c.n ==> s.wp[i].line != l)
      && multiset(s.full)[l] == 1
  {
    LineOnce(c, s, g, l);
    HeapMember(s.pq, l);
    forall i | 0 <= i <= c.n
      ensures s.wp[i].line != l
    {
      OpenMember(s.wp, i);
    }
  }

  /** Where a line in the victim heap is not. */
  lemma VictimApart(c: Config, s: Ftl, g: Gc, l: nat)
    requires Shape(c, s) && LedgerOk(c, s, g) && HeapOk(s.pq) && P.In(s.pq, l)
    ensures
      && l !in s.free && l !in s.full && (g.Sweeping? ==> l != g.v)
      && (forall i :: 0 <= i <= c.n ==> s.wp[i].line != l)
  {
    LineOnce(c, s, g, l);
    HeapMember(s.pq, l);
    forall i | 0 <= i <= c.n
      ensures s.wp[i].line != l
    {
      OpenMember(s.wp, i);
    }
  }

  /** Where the collector's line is not. */
  lemma HeldApart(c: Config, s: Ftl, g: Gc)
    requires Shape(c, s) && LedgerOk(c, s, g) && HeapOk(s.pq) && g.Sweeping? && g.v < c.lines
    ensures
      && g.v !in s.free && g.v !in s.full && !P.In(s.pq, g.v)
      && (forall i :: 0 <= i <= c.n ==> s.wp[i].line != g.v)
  {
    LineOnce(c, s, g, g.v);
    HeapMember(s.pq, g.v);
    forall i | 0 <= i <= c.n
      ensures s.wp[i].line != g.v
    {
      OpenMember(s.wp, i);
    }
  }

  /** Every line has a place. */
  lemma EveryPlace(c: Config, s: Ftl, g: Gc, l: nat)
    requires Shape(c, s) && LedgerOk(c, s, g) && HeapOk(s.pq) && l < c.lines
    ensures
      || l in s.free || l in s.full || P.In(s.pq, l) || (g.Sweeping? && l == g.v)
      || exists i :: 0 <= i <= c.n && s.wp[i].line == l
  {
    LineOnce(c, s, g, l);
    HeapMember(s.pq, l);
    if multiset(OpenLines(s.wp))[l] > 0 {
      assert l in OpenLines(s.wp);
      var i :| 0 <= i < |s.wp| && OpenLines(s.wp)[i] == l;
      assert s.wp[i].line == l;
    }
  }

  /** The three list counters, the frontiers and the collector's line add up. */
  lemma CountersSum(c: Config, s: Ftl, g: Gc)
    requires Shape(c, s) && LedgerOk(c, s, g) && CountersOk(s)
    ensures s.freeCnt + s.fullCnt + s.victimCnt + (c.n + 1) + |Held(g)| == c.lines
  {
    assert |Ledger(s, g)| == |s.free| + |s.full| + |s.pq.d[1..]| + |OpenLines(s.wp)| + |Held(g)|;
    assert |multiset(Range(c.lines))| == c.lines;
  }

  // ---------------------------------------------------------------- moving lines in the ledger

  lemma OpenSwap(wp: seq<Ppa>, i: nat, w: Ppa)
    requires i < |wp|
    ensures multiset(OpenLines(wp[i := w])) + multiset{wp[i].line} == multiset(OpenLines(wp)) + multiset{w.line}
  {
    assert OpenLines(wp[i := w]) == OpenLines(wp)[i := w.line];
  }

  lemma Cancel(a: multiset<nat>, b: multiset<nat>, x: nat)
    requires a + multiset{x} == b + multiset{x}
    ensures a == b
  {
    assert (a + multiset{x}) - multiset{x} == a;
    assert (b + multiset{x}) - multiset{x} == b;
  }

  /** The frontier trades its line for the head of the free list. */
  lemma LedgerRotates(free: seq<nat>, rest: multiset<nat>, wp: seq<Ppa>, i: nat, all: multiset<nat>)
    requires free != [] && i < |wp|
    requires multiset(free) + rest + multiset(OpenLines(wp)) == all + multiset{wp[i].line}
    ensures multiset(free[1..]) + rest + multiset(OpenLines(wp[i := Ppa(free[0], 0)])) == all
  {
    var l, f := wp[i].line, free[0];
    var open1 := multiset(OpenLines(wp[i := Ppa(f, 0)]));
    OpenSwap(wp, i, Ppa(f, 0));
    assert free == [f] + free[1..];
    var x := multiset(free[1..]) + rest;
    assert x + multiset{f} == multiset(free) + rest;
    assert (x + open1) + multiset{l} == x + (multiset(OpenLines(wp)) + multiset{f}) == all + multiset{l};
    Cancel(x + open1, all, l);
  }

  // ---------------------------------------------------------------- frames

  /** s and s1 agree on every line but l. */
  ghost predicate Elsewhere(c: Config, s: Ftl, s1: Ftl, l: nat)
    requires Shape(c, s) && Shape(c, s1)
  {
    forall k: nat :: k < c.lines && k != l ==> s1.lines[k] == s.lines[k] && s1.pq.pri[k] == s.pq.pri[k]
  }

  lemma FreesFrame(c: Config, s: Ftl, s1: Ftl, l: nat)
    requires Shape(c, s) && Shape(c, s1) && Elsewhere(c, s, s1, l) && FreesOk(c, s)
    requires forall j :: 0 <= j < |s1.free| ==> s1.free[j] in s.free && s1.free[j] != l
    ensures FreesOk(c, s1)
  {
    forall j | 0 <= j < |s1.free|
      ensures FreeLine(c, s1.lines[s1.free[j]], s1.pq.pri[s1.free[j]])
    {
      var i :| 0 <= i < |s.free| && s.free[i] == s1.free[j];
      assert FreeLine(c, s.lines[s.free[i]], s.pq.pri[s.free[i]]);
    }
  }

  lemma FullsFrame(c: Config, s: Ftl, s1: Ftl, l: nat)
    requires Shape(c, s) && Shape(c, s1) && Elsewhere(c, s, s1, l) && FullsOk(c, s)
    requires forall j :: 0 <= j < |s1.full| ==> s1.full[j] in s.full && s1.full[j] != l
    ensures FullsOk(c, s1)
  {
    forall j | 0 <= j < |s1.full|
      ensures FullLine(c, s1.lines[s1.full[j]], s1.pq.pri[s1.full[j]])
    {
      var i :| 0 <= i < |s.full| && s.full[i] == s1.full[j];
      assert FullLine(c, s.lines[s.full[i]], s.pq.pri[s.full[i]]);
    }
  }

  lemma VictimsFrame(c: Config, s: Ftl, s1: Ftl, l: nat)
    requires Shape(c, s) && Shape(c, s1) && Elsewhere(c, s, s1, l) && VictimsOk(c, s)
    requires forall k: nat :: P.In(s1.pq, k) ==> P.In(s.pq, k) && k != l
    ensures VictimsOk(c, s1)
  {
    forall k: nat | P.In(s1.pq, k)
      ensures VictimLine(c, s1.lines[k], s1.pq.pri[k])
    {
      assert VictimLine(c, s.lines[k], s.pq.pri[k]);
    }
  }

  lemma OpensFrame(c: Config, s: Ftl, s1: Ftl, l: nat, i: nat)
    requires Shape(c, s) && Shape(c, s1) && Elsewhere(c, s, s1, l) && i <= c.n
    requires forall j :: 0 <= j <= c.n && j != i ==> OpenOk(c, s, j)
    requires forall j :: 0 <= j <= c.n && j != i ==> s1.wp[j] == s.wp[j] && s.wp[j].line != l
    ensures forall j :: 0 <= j <= c.n && j != i ==> OpenOk(c, s1, j)
  {
    forall j | 0 <= j <= c.n && j != i
      ensures OpenOk(c, s1, j)
    {
      assert OpenOk(c, s, j);
    }
  }
}

/** The page-mapped flash translation layer of one partition (fdp_ftl.c; conv_ftl.c
    is the instance with one host frontier and threshold 2).

    A line's pages are numbered in the order in which the write pointer programs
    them, so a physical page address is a pair (line, offset) and a write pointer is
    the address of the next page.  Geometry.dfy relates offsets to (ch, lun, pg).
    The reverse-map entry of a page is kept with the page.  `pq.pri[l]` is the valid
    page count of line l and `pq.pos[l]` its heap position, exactly the two fields
    that the heap callbacks reach. */
module FtlModel {
  import opened Common
  import opened Finite
  import P = Pqueue

  datatype Status = PgFree | PgInvalid | PgValid

  /** `data` stands for the contents of the flash page. */
  datatype Page = Page(status: Status, lpn: Option<nat>, data: int)

  datatype Block = Block(vpc: int, ipc: int)

  datatype Line = Line(ipc: int, ruh: int, pages: seq<Page>, blocks: seq<Block>)

  datatype Ppa = Ppa(line: nat, off: nat)

  /** One action of the GC sweep over a victim line. */
  datatype SweepStep = Clean(off: nat) | Erase(blk: nat)

  datatype Config = Config(
    n: nat,               // reclaim unit handles
    lines: nat,           // tt_lines
    p: nat,               // pgs_per_line
    ttPgs: nat,           // mapping table entries
    threshold: nat,       // gc_thres_lines_high
    nblks: nat,           // blocks per line
    blkPgs: nat,          // pgs_per_blk
    blockOf: seq<nat>,    // block that holds each offset
    sweep: seq<SweepStep>, // order in which GC cleans pages and erases blocks
    pgsz: nat)

  datatype Emission = Emission(evt: nat, flags: nat, pid: nat, nsid: nat)

  /** The endurance-group counters and every event handed to fdp_emit_event. */
  datatype Context = Context(hbmw: nat, mbmw: nat, mbe: nat, emitted: seq<Emission>)

  datatype Ftl = Ftl(
    maptbl: seq<Option<Ppa>>,
    lines: seq<Line>,
    free: seq<nat>,
    full: seq<nat>,
    pq: P.Heap,
    freeCnt: int,
    fullCnt: int,
    victimCnt: int,
    wp: seq<Ppa>,         // N host frontiers, then the GC frontier
    credits: nat,
    refill: nat,
    ctx: Context)

  /** BugOn: a NVMEV_ASSERT fired.  NoFreeLine: get_next_free_line returned NULL and
      the caller dereferenced it. */
  datatype Outcome<+T> = Ok(value: T) | BugOn | NoFreeLine {
    predicate IsFailure() { !Ok? }
    function PropagateFailure<U>(): (r: Outcome<U>)
      requires IsFailure()
    {
      if BugOn? then BugOn else NoFreeLine
    }
    function Extract(): (r: T)
      requires Ok?
    {
      value
    }
  }

  const EVT_IMPLICIT_MODIFIED_RU: nat := 0x81
  const EVT_INVALID_PID: nat := 3
  const F_PIV: nat := 1
  const F_NSIDV: nat := 2

  /** uint32_t decrement, and addition of two uint32_t values. */
  function Dec32(x: nat): (r: nat) { if x == 0 then TWO_32 - 1 else x - 1 }
  function Add32(x: nat, y: nat): (r: nat) { if x + y < TWO_32 then x + y else x + y - TWO_32 }

  // ---------------------------------------------------------------- shapes

  ghost predicate Basic(c: Config) {
    && 1 <= c.n && c.n + 1 <= c.lines
    && 1 <= c.p < TWO_32
    && |c.blockOf| == c.p
    && forall k :: 0 <= k < c.p ==> c.blockOf[k] < c.nblks
  }

  ghost predicate LinesShaped(c: Config, lines: seq<Line>) {
    && |lines| == c.lines
    && forall l :: 0 <= l < c.lines ==> |lines[l].pages| == c.p && |lines[l].blocks| == c.nblks
  }

  ghost predicate InRange(c: Config, a: Ppa) {
    a.line < c.lines && a.off < c.p
  }

  ghost predicate Shape(c: Config, s: Ftl) {
    && Basic(c)
    && |s.maptbl| == c.ttPgs
    && LinesShaped(c, s.lines)
    && P.Shaped(s.pq) && |s.pq.pri| == c.lines
    && |s.wp| == c.n + 1
    && (forall i :: 0 <= i <= c.n ==> InRange(c, s.wp[i]))
    && (forall i :: 0 <= i < |s.free| ==> s.free[i] < c.lines)
    && (forall i :: 0 <= i < |s.full| ==> s.full[i] < c.lines)
  }

  /** Neither the flow control nor the counters have moved. */
  ghost predicate SameFlow(s: Ftl, r: Ftl) {
    SameCredits(s, r) && r.ctx == s.ctx
  }

  ghost predicate SameCredits(s: Ftl, r: Ftl) {
    r.credits == s.credits && r.refill == s.refill
  }

  // ---------------------------------------------------------------- page state changes

  function PageAt(c: Config, lines: seq<Line>, a: Ppa): (r: Page)
    requires LinesShaped(c, lines) && InRange(c, a)
  {
    lines[a.line].pages[a.off]
  }

  /** The line with page k replaced and the counts of its block replaced. */
  function SetPage(line: Line, k: nat, pg: Page, b: nat, blk: Block): (r: Line)
    requires k < |line.pages| && b < |line.blocks|
  {
    line.(pages := line.pages[k := pg], blocks := line.blocks[b := blk])
  }

  /** list_del of x. */
  function Remove(s: seq<nat>, x: nat): (r: seq<nat>)
    ensures forall i :: 0 <= i < |r| ==> r[i] in s
    ensures multiset(r) == multiset(s) - multiset{x}
  {
    if s == [] then []
    else if s[0] == x then
      assert s == [s[0]] + s[1..];
      s[1..]
    else
      assert s == [s[0]] + s[1..];
      [s[0]] + Remove(s[1..], x)
  }

  /** mark_page_invalid followed by clearing the reverse-map entry. */
  function MarkInvalid(c: Config, s: Ftl, a: Ppa): (r: Outcome<Ftl>)
    requires Shape(c, s) && InRange(c, a)
    ensures r.Ok? ==> Shape(c, r.value) && SameFlow(s, r.value)
    ensures r.Ok? ==> r.value.wp == s.wp && r.value.free == s.free && r.value.maptbl == s.maptbl
  {
    var l, line := a.line, s.lines[a.line];
    var pg, b := line.pages[a.off], c.blockOf[a.off];
    var blk, vpc := line.blocks[b], s.pq.pri[l];
    if pg.status != PgValid then BugOn
    else if !(0 <= blk.ipc < c.blkPgs && 0 < blk.vpc <= c.blkPgs) then BugOn
    else if !(0 <= line.ipc < c.p) || (vpc == c.p && line.ipc != 0) || !(0 < vpc <= c.p) then BugOn
    else if s.pq.pos[l] >= |s.pq.d| then BugOn
    else
      var line1 := SetPage(line, a.off, Page(PgInvalid, None, pg.data), b, Block(blk.vpc - 1, blk.ipc + 1))
                   .(ipc := line.ipc + 1);
      var pq1 := if s.pq.pos[l] != 0 then P.ChangePriority(s.pq, l, vpc - 1)
                 else s.pq.(pri := s.pq.pri[l := vpc - 1]);
      var s1 := s.(lines := s.lines[l := line1], pq := pq1);
      if vpc == c.p then
        Ok(s1.(full := Remove(s.full, l), fullCnt := s.fullCnt - 1,
               pq := P.Insert(pq1, l), victimCnt := s.victimCnt + 1))
      else Ok(s1)
  }

  /** set_maptbl_ent, set_rmap_ent and mark_page_valid for the page at a. */
  function Program(c: Config, s: Ftl, a: Ppa, lpn: nat, data: int): (r: Outcome<Ftl>)
    requires Shape(c, s) && InRange(c, a)
    ensures r.Ok? ==> Shape(c, r.value) && SameFlow(s, r.value)
  {
    var l, line := a.line, s.lines[a.line];
    var b := c.blockOf[a.off];
    var blk, vpc := line.blocks[b], s.pq.pri[l];
    if lpn >= c.ttPgs then BugOn
    else if line.pages[a.off].status != PgFree then BugOn
    else if !(0 <= blk.vpc < c.blkPgs) || !(0 <= vpc < c.p) then BugOn
    else
      var line1 := SetPage(line, a.off, Page(PgValid, Some(lpn), data), b, Block(blk.vpc + 1, blk.ipc));
      Ok(s.(maptbl := s.maptbl[lpn := Some(a)],
            lines := s.lines[l := line1],
            pq := s.pq.(pri := s.pq.pri[l := vpc + 1])))
  }

  function Tag(c: Config, i: nat): (r: int) { if i < c.n then i else -1 }

  /** The part of advance_write_pointer that retires a fully programmed line. */
  function CloseLine(c: Config, s: Ftl, l: nat): (r: Outcome<Ftl>)
    requires Shape(c, s) && l < c.lines
    ensures r.Ok? ==> Shape(c, r.value) && SameFlow(s, r.value) && r.value.free == s.free
  {
    if s.pq.pri[l] == c.p then
      if s.lines[l].ipc != 0 then BugOn
      else Ok(s.(full := s.full + [l], fullCnt := s.fullCnt + 1))
    else if !(0 <= s.pq.pri[l] < c.p && s.lines[l].ipc > 0) then BugOn
    else Ok(s.(pq := P.Insert(s.pq, l), victimCnt := s.victimCnt + 1))
  }

  /** get_next_free_line for frontier i. */
  function OpenLine(c: Config, s: Ftl, i: nat): (r: Outcome<Ftl>)
    requires Shape(c, s) && i <= c.n
    ensures r.Ok? ==> Shape(c, r.value) && SameFlow(s, r.value)
  {
    if s.free == [] then NoFreeLine
    else
      var l := s.free[0];
      Ok(s.(free := s.free[1..], freeCnt := s.freeCnt - 1,
            wp := s.wp[i := Ppa(l, 0)],
            lines := s.lines[l := s.lines[l].(ruh := Tag(c, i))]))
  }

  /** advance_write_pointer. */
  function Advance(c: Config, s: Ftl, i: nat): (r: Outcome<Ftl>)
    requires Shape(c, s) && i <= c.n
    ensures r.Ok? ==> Shape(c, r.value) && SameFlow(s, r.value)
  {
    var w := s.wp[i];
    if w.off + 1 < c.p then Ok(s.(wp := s.wp[i := Ppa(w.line, w.off + 1)]))
    else
      var s1 :- CloseLine(c, s, w.line);
      OpenLine(c, s1, i)
  }

  /** Program the next page of frontier i and advance it. */
  function Append(c: Config, s: Ftl, i: nat, lpn: nat, data: int): (r: Outcome<Ftl>)
    requires Shape(c, s) && i <= c.n
    ensures r.Ok? ==> Shape(c, r.value) && SameFlow(s, r.value)
  {
    var s1 :- Program(c, s, s.wp[i], lpn, data);
    Advance(c, s1, i)
  }

  // ---------------------------------------------------------------- garbage collection

  /** gc_write_page. */
  function GcWritePage(c: Config, s: Ftl, a: Ppa): (r: Outcome<Ftl>)
    requires Shape(c, s) && InRange(c, a)
    ensures r.Ok? ==> Shape(c, r.value) && SameCredits(s, r.value)
  {
    var pg := PageAt(c, s.lines, a);
    if pg.lpn.None? || pg.lpn.value >= c.ttPgs then BugOn
    else
      var s1 :- Append(c, s, c.n, pg.lpn.value, pg.data);
      Ok(s1.(ctx := s1.ctx.(mbmw := s1.ctx.mbmw + c.pgsz)))
  }

  const ERASED: int := -1

  /** Erasing destroys the contents; the reverse-map entry is left stale. */
  function FreedPage(pg: Page): (r: Page) { Page(PgFree, pg.lpn, ERASED) }

  /** The line with the pages of the blocks in bs erased. */
  function ErasedLine(c: Config, line: Line, bs: set<nat>): (r: Line)
    requires |line.pages| == |c.blockOf|
    ensures |r.pages| == |line.pages| && |r.blocks| == |line.blocks|
  {
    line.(pages := seq(|line.pages|, k requires 0 <= k < |line.pages| =>
                         if c.blockOf[k] in bs then FreedPage(line.pages[k]) else line.pages[k]),
          blocks := seq(|line.blocks|, b requires 0 <= b < |line.blocks| =>
                          if b in bs then Block(0, 0) else line.blocks[b]))
  }

  /** mark_block_free. */
  function EraseBlock(c: Config, s: Ftl, v: nat, b: nat): (r: Ftl)
    requires Shape(c, s) && v < c.lines
    ensures Shape(c, r)
  {
    s.(lines := s.lines[v := ErasedLine(c, s.lines[v], {b})],
       ctx := s.ctx.(mbe := s.ctx.mbe + c.blkPgs * c.pgsz))
  }

  /** One page of clean_one_flashpg, or the erase that follows the last flash page. */
  function Step(c: Config, s: Ftl, v: nat, st: SweepStep): (r: Outcome<Ftl>)
    requires Shape(c, s) && v < c.lines
    ensures r.Ok? ==> Shape(c, r.value) && SameCredits(s, r.value)
  {
    match st
    case Clean(k) =>
      if k >= c.p || s.lines[v].pages[k].status == PgFree then BugOn
      else if s.lines[v].pages[k].status == PgValid then GcWritePage(c, s, Ppa(v, k))
      else Ok(s)
    case Erase(b) => Ok(EraseBlock(c, s, v, b))
  }

  function Sweep(c: Config, s: Ftl, v: nat, steps: seq<SweepStep>): (r: Outcome<Ftl>)
    requires Shape(c, s) && v < c.lines
    ensures r.Ok? ==> Shape(c, r.value) && SameCredits(s, r.value)
    decreases |steps|
  {
    if steps == [] then Ok(s)
    else
      var s1 :- Step(c, s, v, steps[0]);
      Sweep(c, s1, v, steps[1..])
  }

  /** select_victim_line, when it finds one. */
  function TakeVictim(c: Config, s: Ftl): (r: Ftl)
    requires Shape(c, s) && 1 < |s.pq.d|
    ensures Shape(c, r)
  {
    var v := s.pq.d[1];
    var pq1 := P.Pop(s.pq);
    s.(pq := pq1.(pos := pq1.pos[v := 0]), victimCnt := s.victimCnt - 1)
  }

  predicate NoVictim(c: Config, s: Ftl, force: bool)
    requires Shape(c, s)
  {
    |s.pq.d| == 1 || (!force && s.pq.pri[s.pq.d[1]] > c.p / 8)
  }

  /** The event and the credit grant with which a collection of line v starts. */
  function StartGc(c: Config, s: Ftl, v: nat): (r: Ftl)
    requires Shape(c, s) && v < c.lines
    ensures Shape(c, r)
  {
    var ruh := s.lines[v].ruh;
    var ctx1 := if ruh >= 0
                then s.ctx.(emitted := s.ctx.emitted + [Emission(EVT_IMPLICIT_MODIFIED_RU, F_PIV, ruh, 0)])
                else s.ctx;
    s.(ctx := ctx1, refill := s.lines[v].ipc % TWO_32)
  }

  /** mark_line_free. */
  function MarkLineFree(c: Config, s: Ftl, v: nat): (r: Ftl)
    requires Shape(c, s) && v < c.lines
    ensures Shape(c, r)
  {
    s.(lines := s.lines[v := s.lines[v].(ipc := 0, ruh := -1)],
       pq := s.pq.(pri := s.pq.pri[v := 0]),
       free := s.free + [v], freeCnt := s.freeCnt + 1)
  }

  /** do_gc; an unsuccessful search for a victim leaves the state alone. */
  function DoGc(c: Config, s: Ftl, force: bool): (r: Outcome<Ftl>)
    requires Shape(c, s)
    ensures r.Ok? ==> Shape(c, r.value)
  {
    if NoVictim(c, s, force) then Ok(s)
    else
      var v := s.pq.d[1];
      var s1 :- Sweep(c, StartGc(c, TakeVictim(c, s), v), v, c.sweep);
      Ok(MarkLineFree(c, s1, v))
  }

  /** foreground_gc. */
  function ForegroundGc(c: Config, s: Ftl): (r: Outcome<Ftl>)
    requires Shape(c, s)
    ensures r.Ok? ==> Shape(c, r.value)
  {
    if s.freeCnt <= c.threshold then DoGc(c, s, true) else Ok(s)
  }

  // ---------------------------------------------------------------- host page write

  /** consume_write_credit and check_and_refill_write_credit. */
  function SpendCredit(c: Config, s: Ftl): (r: Outcome<Ftl>)
    requires Shape(c, s)
    ensures r.Ok? ==> Shape(c, r.value)
  {
    var s1 := s.(credits := Dec32(s.credits));
    if s1.credits <= 0 then
      var s2 :- ForegroundGc(c, s1);
      Ok(s2.(credits := Add32(s2.credits, s2.refill)))
    else Ok(s1)
  }

  /** The old copy of lpn, if any, becomes invalid. */
  function Supersede(c: Config, s: Ftl, lpn: nat): (r: Outcome<Ftl>)
    requires Shape(c, s) && lpn < c.ttPgs
    ensures r.Ok? ==> Shape(c, r.value) && SameFlow(s, r.value)
    ensures r.Ok? ==> r.value.wp == s.wp && r.value.free == s.free && r.value.maptbl == s.maptbl
  {
    match s.maptbl[lpn]
    case None => Ok(s)
    case Some(a) => if a.line < c.lines && a.off < c.p then MarkInvalid(c, s, a) else BugOn
  }

  /** The body of fdp_write's page loop for one logical page. */
  function WritePage(c: Config, s: Ftl, lpn: nat, ruh: nat, data: int): (r: Outcome<Ftl>)
    requires Shape(c, s) && lpn < c.ttPgs
    ensures r.Ok? ==> Shape(c, r.value)
  {
    if ruh >= c.n then BugOn
    else
      var s1 :- Supersede(c, s, lpn);
      var s2 :- Append(c, s1, ruh, lpn, data);
      SpendCredit(c, s2)
  }

  // ---------------------------------------------------------------- initial state

  function FreshLine(c: Config, ruh: int): (r: Line)
    ensures |r.pages| == c.p && |r.blocks| == c.nblks && r.ruh == ruh && r.ipc == 0
    ensures forall k :: 0 <= k < c.p ==> r.pages[k].status == PgFree
    ensures forall b :: 0 <= b < c.nblks ==> r.blocks[b] == Block(0, 0)
  {
    Line(0, ruh, seq(c.p, (k: nat) => Page(PgFree, None, ERASED)), seq(c.nblks, (b: nat) => Block(0, 0)))
  }

  /** fdp_init_ftl: frontier i opens line i, the other lines are free. */
  function Init(c: Config): (r: Ftl)
    requires Basic(c)
    ensures Shape(c, r)
  {
    Ftl(seq(c.ttPgs, (m: nat) => None),
        seq(c.lines, (l: nat) => FreshLine(c, Tag(c, l))),
        seq(c.lines - c.n - 1, (j: nat) => c.n + 1 + j),
        [],
        P.Heap([0], seq(c.lines, (l: nat) => 0), seq(c.lines, (l: nat) => 0)),
        c.lines - c.n - 1, 0, 0,
        seq(c.n + 1, (i: nat) => Ppa(i, 0)),
        c.p, c.p,
        Context(0, 0, 0, []))
  }
}

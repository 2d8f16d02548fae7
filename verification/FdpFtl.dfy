/** fdp_ftl.c's per-partition FTL with its arrays and loops.

    `s` is the state of FtlModel that the fields represent.  Every method is proved to
    take it from one state to the next as the function of FtlModel prescribes.  What the
    source checks with NVMEV_ASSERT is a precondition here: the function of FtlModel must
    succeed.  FtlReady discharges these preconditions in every state that satisfies the invariant. */
module FdpFtl {
  import opened Common
  import opened Finite
  import opened Geometry
  import opened FtlModel
  import opened FtlLayout
  import opened FtlMemory
  import opened FtlSweep
  import opened FtlInv
  import opened FtlInvalidate
  import opened FtlAppend
  import opened FtlGc
  import opened FtlReady
  import P = Pqueue
  import PriorityQueue

  class Partition {
    const g: Geo
    const n: nat
    const threshold: nat
    const pgsz: nat
    ghost const c: Config

    const maptbl: array<Option<Addr>>
    const rmap: array<Option<nat>>
    const pages: array<NandPage>
    const blocks: array<Block>
    const info: array<LineInfo>
    const wps: array<Addr>
    const victims: PriorityQueue.Queue
    var free: seq<nat>
    var full: seq<nat>
    var freeCnt: int
    var fullCnt: int
    var victimCnt: int
    var credits: nat
    var refill: nat
    var ctx: Context

    ghost var s: Ftl

    ghost function Parts(): (r: set<object>)
      ensures this in r
    {
      {this, maptbl, rmap, pages, blocks, info, wps, victims, victims.d, victims.pri, victims.pos}
    }

    /** The sizes of the arrays. */
    ghost predicate Sized() {
      && LayoutOk(g, n) && c == ConfigOf(g, n, threshold, pgsz)
      && maptbl.Length == TotalPgs(g) && rmap.Length == TotalPgs(g) && pages.Length == TotalPgs(g)
      && blocks.Length == BlkTotal(g) && info.Length == g.blks && wps.Length == n + 1
      && victims.d.Length == g.blks + 1
    }

    ghost predicate LinesHeld()
      requires GeoOk(g)
      reads this, pages, rmap, blocks, info
    {
      && PagesAgree(g, pages[..], rmap[..], s.lines)
      && BlocksAgree(g, blocks[..], s.lines)
      && InfoAgrees(info[..], s.lines)
    }

    ghost predicate ListsHeld()
      reads this
    {
      && free == s.free && full == s.full
      && freeCnt == s.freeCnt && fullCnt == s.fullCnt && victimCnt == s.victimCnt
      && credits == s.credits && refill == s.refill && ctx == s.ctx
    }

    ghost predicate VictimsHeld()
      reads this, victims, victims.d, victims.pri, victims.pos
    {
      victims.Valid() && victims.View() == s.pq
    }

    ghost predicate Valid()
      reads Parts()
    {
      && Sized() && Shape(c, s)
      && LinesHeld() && ListsHeld() && VictimsHeld()
      && MapAgrees(g, maptbl[..], s.maptbl) && WpsAgree(g, wps[..], s.wp)
    }

    constructor (g: Geo, n: nat, threshold: nat, pgsz: nat)
      requires LayoutOk(g, n)
      ensures this.g == g && this.n == n && this.threshold == threshold && this.pgsz == pgsz
      ensures Valid() && s == Init(c)
      ensures fresh(maptbl) && fresh(rmap) && fresh(pages) && fresh(blocks) && fresh(info) && fresh(wps)
      ensures fresh(victims) && fresh(victims.d) && fresh(victims.pri) && fresh(victims.pos)
    {
      assert g.nchs >= 1 && g.luns >= 1 && g.oneshot >= 1;
      hide LayoutOk, GeoOk, ConfigOf, TotalPgs, BlkTotal, PgsPerLine, Valid, Init;
      this.g, this.n, this.threshold, this.pgsz := g, n, threshold, pgsz;
      c := ConfigOf(g, n, threshold, pgsz);
      maptbl := new Option<Addr>[TotalPgs(g)];
      rmap := new Option<nat>[TotalPgs(g)];
      pages := new NandPage[TotalPgs(g)];
      blocks := new Block[BlkTotal(g)];
      info := new LineInfo[g.blks];
      wps := new Addr[n + 1];
      victims := new PriorityQueue.Queue(g.blks);
      new;
      Start();
    }

    /** Nothing is written and every line is on the free list. */
    ghost predicate Blank()
      reads Parts()
    {
      && Sized()
      && (forall m :: 0 <= m < maptbl.Length ==> maptbl[m] == None)
      && (forall i :: 0 <= i < pages.Length ==> pages[i] == NandPage(PgFree, ERASED) && rmap[i] == None)
      && (forall i :: 0 <= i < blocks.Length ==> blocks[i] == Block(0, 0))
      && (forall l :: 0 <= l < g.blks ==> info[l] == LineInfo(0, -1))
      && victims.Valid()
      && victims.View() == P.Heap([0], seq(g.blks, (l: nat) => 0), seq(g.blks, (l: nat) => 0))
      && free == seq(g.blks, (l: nat) => l) && full == []
      && freeCnt == g.blks && fullCnt == 0 && victimCnt == 0
      && credits == PgsPerLine(g) && refill == PgsPerLine(g) && ctx == Context(0, 0, 0, [])
    }

    /** fdp_init_ftl: every line starts on the free list, then each of the N + 1 frontiers
        takes the first one. */
    method Start()
      requires Sized() && victims.Valid()
      requires victims.View() == P.Heap([0], seq(g.blks, (l: nat) => 0), seq(g.blks, (l: nat) => 0))
      modifies this, maptbl, rmap, pages, blocks, info, wps
      ensures Valid() && s == Init(c)
    {
      hide Valid, Init, LayoutOk, GeoOk, PgsPerLine, TotalPgs, BlksPerLine, BlkTotal;
      InitMemory();
      credits, refill := PgsPerLine(g), PgsPerLine(g);
      ctx := Context(0, 0, 0, []);
      OpenFrontiers();
    }

    method OpenFrontiers()
      requires Blank()
      modifies `free, `freeCnt, `s, info, wps
      ensures Valid() && s == Init(c)
    {
      LayoutBasic(g, n, threshold, pgsz);
      PrepareWritePointers();
      s := Init(c);
      InitAgrees(g, n, threshold, pgsz, pages[..], rmap[..], blocks[..]);
      InitListsAgree(g, n, threshold, pgsz, info[..], wps[..], maptbl[..], free, victims.View());
      hide MapAgrees, WpsAgree, PagesAgree, BlocksAgree, InfoAgrees, LayoutOk, GeoOk, PgsPerLine, TotalPgs,
           BlksPerLine, Basic, Shape;
    }

    method InitMemory()
      requires info.Length == g.blks
      modifies maptbl, rmap, pages, blocks, `free, `full, `freeCnt, `fullCnt, `victimCnt, info
      ensures forall m :: 0 <= m < maptbl.Length ==> maptbl[m] == None
      ensures forall i :: 0 <= i < rmap.Length ==> rmap[i] == None
      ensures forall i :: 0 <= i < pages.Length ==> pages[i] == NandPage(PgFree, ERASED)
      ensures forall i :: 0 <= i < blocks.Length ==> blocks[i] == Block(0, 0)
      ensures free == seq(g.blks, (l: nat) => l) && full == []
      ensures freeCnt == g.blks && fullCnt == 0 && victimCnt == 0
      ensures forall l :: 0 <= l < g.blks ==> info[l] == LineInfo(0, -1)
    {
      InitTables();
      InitFlash();
      InitLines();
    }

    /** init_maptbl and init_rmap. */
    method InitTables()
      modifies maptbl, rmap
      ensures forall m :: 0 <= m < maptbl.Length ==> maptbl[m] == None
      ensures forall i :: 0 <= i < rmap.Length ==> rmap[i] == None
    {
      for m := 0 to maptbl.Length
        invariant forall k :: 0 <= k < m ==> maptbl[k] == None
      {
        maptbl[m] := None;
      }
      for i := 0 to rmap.Length
        invariant forall m :: 0 <= m < maptbl.Length ==> maptbl[m] == None
        invariant forall k :: 0 <= k < i ==> rmap[k] == None
      {
        rmap[i] := None;
      }
    }

    /** ssd_init's pages and blocks. */
    method InitFlash()
      modifies pages, blocks
      ensures forall i :: 0 <= i < pages.Length ==> pages[i] == NandPage(PgFree, ERASED)
      ensures forall i :: 0 <= i < blocks.Length ==> blocks[i] == Block(0, 0)
    {
      for i := 0 to pages.Length
        invariant forall k :: 0 <= k < i ==> pages[k] == NandPage(PgFree, ERASED)
      {
        pages[i] := NandPage(PgFree, ERASED);
      }
      for i := 0 to blocks.Length
        invariant forall k :: 0 <= k < pages.Length ==> pages[k] == NandPage(PgFree, ERASED)
        invariant forall k :: 0 <= k < i ==> blocks[k] == Block(0, 0)
      {
        blocks[i] := Block(0, 0);
      }
    }

    /** init_lines. */
    method InitLines()
      requires info.Length == g.blks
      modifies `free, `full, `freeCnt, `fullCnt, `victimCnt, info
      ensures free == seq(g.blks, (l: nat) => l) && full == []
      ensures freeCnt == g.blks && fullCnt == 0 && victimCnt == 0
      ensures forall l :: 0 <= l < g.blks ==> info[l] == LineInfo(0, -1)
    {
      free, full := [], [];
      freeCnt := 0;
      for l := 0 to g.blks
        invariant free == seq(l, (k: nat) => k) && full == [] && freeCnt == l
        invariant forall k :: 0 <= k < l ==> info[k] == LineInfo(0, -1)
      {
        info[l] := LineInfo(0, -1);
        free := free + [l];
        freeCnt := freeCnt + 1;
      }
      victimCnt, fullCnt := 0, 0;
    }

    /** prepare_write_pointer for every frontier. */
    method PrepareWritePointers()
      requires info.Length == g.blks == freeCnt && wps.Length == n + 1 <= g.blks
      requires free == seq(g.blks, (l: nat) => l)
      requires forall l :: 0 <= l < g.blks ==> info[l] == LineInfo(0, -1)
      modifies `free, `freeCnt, info, wps
      ensures free == seq(g.blks - n - 1, (j: nat) => n + 1 + j) && freeCnt == g.blks - n - 1
      ensures forall i :: 0 <= i <= n ==> wps[i] == Addr(i, Slot(0, 0, 0))
      ensures forall l :: 0 <= l < g.blks ==> info[l] == LineInfo(0, if l < n then l else -1)
    {
      for i := 0 to n + 1
        invariant free == seq(g.blks - i, (j: nat) => i + j) && freeCnt == g.blks - i
        invariant forall k :: 0 <= k < i ==> wps[k] == Addr(k, Slot(0, 0, 0))
        invariant forall l :: 0 <= l < g.blks ==> info[l] == LineInfo(0, if l < i && l < n then l else -1)
      {
        var l := free[0];
        free := free[1..];
        freeCnt := freeCnt - 1;
        info[l] := info[l].(ruh := if i < n then i else -1);
        wps[i] := Addr(l, Slot(0, 0, 0));
      }
    }

    /** Write the flash page at a, its reverse-map entry and the counts of its block. */
    method PutPage(a: Addr, pg: Page, blk: Block)
      requires Valid() && AddrOk(g, a)
      modifies pages, rmap, blocks, `s
      ensures Valid()
      ensures s == WithPage(old(s), PpaOf(g, a), pg, BlockAt(g, a.slot.ch, a.slot.lun), blk)
    {
      IndexBound(g, a.blk, a.slot);
      OffsetBound(g, a.slot);
      BlockBound(g, a.slot.ch, a.slot.lun);
      var i := Index(g, a);
      var b := BlockAt(g, a.slot.ch, a.slot.lun);
      BlkIndexBound(g, a.blk, b);
      hide PagesAgree, BlocksAgree, MapAgrees, WpsAgree, GeoOk, Index, BlkIndex, BlockAt, Offset;
      ghost var lines := s.lines;
      ghost var pages0, rmap0, blocks0 := pages[..], rmap[..], blocks[..];
      pages[i] := NandPage(pg.status, pg.data);
      rmap[i] := pg.lpn;
      blocks[BlkIndex(g, a.blk, b)] := blk;
      s := WithPage(s, PpaOf(g, a), pg, b, blk);
      PagesAgreeUpdate(g, pages0, rmap0, lines, pages[..], rmap[..], s.lines, a, pg);
      BlocksAgreeUpdate(g, blocks0, lines, blocks[..], s.lines, a.blk, b, blk);
    }

    /** Write the flash page at a and change the counts of its block by dv and di. */
    method Restamp(a: Addr, pg: Page, dv: int, di: int)
      requires Valid() && AddrOk(g, a) && BlockAt(g, a.slot.ch, a.slot.lun) < |s.lines[a.blk].blocks|
      modifies pages, rmap, blocks, `s
      ensures Valid()
      ensures
        var b := BlockAt(g, a.slot.ch, a.slot.lun);
        var blk := old(s).lines[a.blk].blocks[b];
        s == WithPage(old(s), PpaOf(g, a), pg, b, Block(blk.vpc + dv, blk.ipc + di))
    {
      Facts();
      hide Valid, WithPage, LayoutOk, ConfigOf, GeoOk, Offset, BlockAt, Shape, PgsPerLine, PgsPerBlk,
           BlksPerLine, TotalPgs;
      var blk := GetBlock(a.blk, a.slot.ch, a.slot.lun);
      PutPage(a, pg, Block(blk.vpc + dv, blk.ipc + di));
    }

    method RaiseIpc(l: nat)
      requires Valid() && l < g.blks
      modifies info, `s
      ensures Valid() && s == WithInfo(old(s), l, LineInfo(old(s).lines[l].ipc + 1, old(s).lines[l].ruh))
    {
      Facts();
      hide Valid, WithInfo, LayoutOk, ConfigOf, GeoOk, Shape, PgsPerLine, PgsPerBlk, BlksPerLine, TotalPgs;
      var line, vpc, pos := GetLine(l);
      SetInfo(l, line.(ipc := line.ipc + 1));
    }

    method SetInfo(l: nat, i: LineInfo)
      requires Valid() && l < g.blks
      modifies info, `s
      ensures Valid() && s == WithInfo(old(s), l, i)
    {
      ghost var lines := s.lines;
      info[l] := i;
      s := WithInfo(s, l, i);
      hide Index, Offset, GeoOk, BlkIndex, PageAgrees;
      SamePages(g, pages[..], rmap[..], lines, s.lines);
    }

    method SetMap(lpn: nat, a: Addr)
      requires Valid() && lpn < maptbl.Length && AddrOk(g, a)
      modifies maptbl, `s
      ensures Valid() && s == old(s).(maptbl := old(s).maptbl[lpn := Some(PpaOf(g, a))])
    {
      maptbl[lpn] := Some(a);
      s := s.(maptbl := s.maptbl[lpn := Some(PpaOf(g, a))]);
      hide PpaOf, AddrOk, PagesAgree, BlocksAgree, InfoAgrees, GeoOk;
    }

    method SetWp(i: nat, a: Addr)
      requires Valid() && i <= n && AddrOk(g, a)
      modifies wps, `s
      ensures Valid() && s == old(s).(wp := old(s).wp[i := PpaOf(g, a)])
    {
      OffsetBound(g, a.slot);
      wps[i] := a;
      s := s.(wp := s.wp[i := PpaOf(g, a)]);
      hide Offset, PagesAgree, BlocksAgree, InfoAgrees, GeoOk;
    }

    /** line->vpc = v for a line that is not in the heap. */
    method SetVpc(l: nat, v: int)
      requires Valid() && l < g.blks
      modifies victims.pri, `s
      ensures Valid() && s == old(s).(pq := old(s).pq.(pri := old(s).pq.pri[l := v]))
    {
      victims.pri[l] := v;
      s := s.(pq := s.pq.(pri := s.pq.pri[l := v]));
      hide PagesAgree, BlocksAgree, InfoAgrees, GeoOk, MapAgrees, WpsAgree;
    }

    method RaiseVpc(l: nat)
      requires Valid() && l < g.blks
      modifies victims.pri, `s
      ensures Valid() && s == old(s).(pq := old(s).pq.(pri := old(s).pq.pri[l := old(s).pq.pri[l] + 1]))
    {
      hide PagesAgree, BlocksAgree, InfoAgrees, GeoOk, MapAgrees, WpsAgree;
      SetVpc(l, victims.pri[l] + 1);
    }

    method Reprioritize(l: nat, v: int)
      requires Valid() && l < g.blks && 1 <= s.pq.pos[l] < |s.pq.d|
      modifies victims.d, victims.pri, victims.pos, `s
      ensures Valid() && s == old(s).(pq := P.ChangePriority(old(s).pq, l, v))
    {
      victims.ChangePriority(l, v);
      s := s.(pq := P.ChangePriority(s.pq, l, v));
    }

    method AddVictim(l: nat)
      requires Valid() && l < g.blks && |s.pq.d| <= g.blks
      modifies victims, victims.d, victims.pos, `victimCnt, `s
      ensures Valid() && s == old(s).(pq := P.Insert(old(s).pq, l), victimCnt := old(s).victimCnt + 1)
    {
      victims.Insert(l);
      victimCnt := victimCnt + 1;
      s := s.(pq := P.Insert(s.pq, l), victimCnt := s.victimCnt + 1);
    }

    lemma Facts()
      requires Valid()
      ensures LayoutOk(g, n) && GeoOk(g) && c == ConfigOf(g, n, threshold, pgsz)
      ensures c.n == n && c.lines == g.blks && c.p == PgsPerLine(g) && c.ttPgs == TotalPgs(g)
      ensures c.threshold == threshold
      ensures c.nblks == BlksPerLine(g) && c.blkPgs == PgsPerBlk(g) && c.pgsz == pgsz
      ensures Shape(c, s) && |s.lines| == g.blks
    {
    }

    lemma FieldFacts()
      requires Valid()
      ensures maptbl.Length == c.ttPgs && ctx == s.ctx
    {
    }

    /** Offset and block of a page in the terms of FtlModel. */
    lemma AddrFacts(a: Addr)
      requires Valid() && AddrOk(g, a)
      ensures InRange(c, PpaOf(g, a)) && c.blockOf[Offset(g, a.slot)] == BlockAt(g, a.slot.ch, a.slot.lun) < c.nblks
    {
      PlaceOfPage(g, a.slot.ch, a.slot.lun, a.slot.pg);
      LayoutBlocks(g, n, threshold, pgsz);
      BlockBound(g, a.slot.ch, a.slot.lun);
      Facts();
      hide Valid, ConfigOf, Offset, BlockAt, Shape;
    }

    /** get_pg and get_rmap_ent. */
    method GetPage(a: Addr) returns (pg: Page)
      requires Valid() && AddrOk(g, a)
      ensures Offset(g, a.slot) < c.p && pg == s.lines[a.blk].pages[Offset(g, a.slot)]
    {
      IndexBound(g, a.blk, a.slot);
      OffsetBound(g, a.slot);
      var i := Index(g, a);
      pg := Page(pages[i].status, rmap[i], pages[i].data);
      hide Index, Offset, GeoOk, BlocksAgree, InfoAgrees, MapAgrees, WpsAgree;
      assert PageAgrees(g, pages[..], rmap[..], s.lines, a);
    }

    /** get_blk. */
    method GetBlock(blk: nat, ch: nat, lun: nat) returns (r: Block)
      requires Valid() && blk < g.blks && ch < g.nchs && lun < g.luns
      ensures BlockAt(g, ch, lun) < c.nblks && r == s.lines[blk].blocks[BlockAt(g, ch, lun)]
    {
      var b := BlockAt(g, ch, lun);
      BlockBound(g, ch, lun);
      BlkIndexBound(g, blk, b);
      r := blocks[BlkIndex(g, blk, b)];
      hide PagesAgree, GeoOk, BlockAt, BlkIndex, InfoAgrees, MapAgrees, WpsAgree;
    }

    method GetLine(l: nat) returns (i: LineInfo, vpc: int, pos: nat)
      requires Valid() && l < g.blks
      ensures i == LineInfo(s.lines[l].ipc, s.lines[l].ruh) && vpc == s.pq.pri[l] && pos == s.pq.pos[l]
    {
      i, vpc, pos := info[l], victims.pri[l], victims.pos[l];
    }

    // -------------------------------------------------------------- page state changes

    /** mark_page_invalid up to the valid pages of the line, and the clearing of the
        reverse-map entry... */
    method Mark(a: Addr)
      requires Valid() && AddrOk(g, a) && InRange(c, PpaOf(g, a))
      modifies pages, rmap, blocks, info, `s
      ensures Valid() && s == Marked(c, old(s), PpaOf(g, a))
    {
      Facts();
      AddrFacts(a);
      hide Valid, WithInfo, LayoutOk, ConfigOf, GeoOk, Offset, BlockAt, PgsPerLine, PgsPerBlk, BlksPerLine,
           TotalPgs;
      var pg := GetPage(a);
      Restamp(a, Page(PgInvalid, None, pg.data), -1, 1);
      RaiseIpc(a.blk);
    }

    /** ...and up to the change of lists. */
    method Demote(a: Addr)
      requires Valid() && AddrOk(g, a) && InRange(c, PpaOf(g, a)) && s.pq.pos[a.blk] < |s.pq.d|
      modifies pages, rmap, blocks, info, victims.d, victims.pri, victims.pos, `s
      ensures Valid() && s == Demoted(c, old(s), PpaOf(g, a))
    {
      Facts();
      hide Valid, Marked, Lowered, LayoutOk, ConfigOf, GeoOk, Offset, Shape;
      Mark(a);
      LowerVpc(a.blk);
    }

    method LowerVpc(l: nat)
      requires Valid() && l < g.blks && s.pq.pos[l] < |s.pq.d|
      modifies victims.d, victims.pri, victims.pos, `s
      ensures Valid() && s == old(s).(pq := Lowered(old(s).pq, l))
    {
      Facts();
      hide Valid, LayoutOk, ConfigOf, GeoOk, P.ChangePriority;
      var line, vpc, pos := GetLine(l);
      if pos != 0 {
        Reprioritize(l, vpc - 1);
      } else {
        SetVpc(l, vpc - 1);
      }
    }

    method MarkPageInvalid(a: Addr)
      requires Valid() && AddrOk(g, a) && InRange(c, PpaOf(g, a))
      requires MarkInvalid(c, s, PpaOf(g, a)).Ok? && Fits(c, MarkInvalid(c, s, PpaOf(g, a)).value)
      modifies Parts()
      ensures Valid() && s == MarkInvalid(c, old(s), PpaOf(g, a)).value
    {
      Facts();
      AddrFacts(a);
      hide Valid, MarkInvalid, Demoted, NowVictim, LayoutOk, ConfigOf, GeoOk, Offset, PgsPerLine, PgsPerBlk;
      var line, vpc, pos := GetLine(a.blk);
      InvalidateInSteps(c, s, PpaOf(g, a));
      Demote(a);
      if vpc == PgsPerLine(g) {
        FullToVictim(a.blk);
      }
    }

    /** A full line with its first invalid page becomes a victim. */
    method FullToVictim(l: nat)
      requires Valid() && l < g.blks && |s.pq.d| <= g.blks
      modifies victims, victims.d, victims.pos, `full, `fullCnt, `victimCnt, `s
      ensures Valid() && P.Shaped(old(s).pq) && l < |old(s).pq.pos| && s == NowVictim(c, old(s), l)
    {
      Facts();
      hide Valid;
      LeaveFull(l);
      AddVictim(l);
    }

    /** list_del_init of a full line. */
    method LeaveFull(l: nat)
      requires Valid()
      modifies `full, `fullCnt, `s
      ensures Valid() && s == old(s).(full := Remove(old(s).full, l), fullCnt := old(s).fullCnt - 1)
    {
      full := Remove(full, l);
      fullCnt := fullCnt - 1;
      s := s.(full := full, fullCnt := fullCnt);
    }

    /** set_maptbl_ent, set_rmap_ent and mark_page_valid. */
    method ProgramPage(a: Addr, lpn: nat, data: int)
      requires Valid() && AddrOk(g, a) && InRange(c, PpaOf(g, a)) && Program(c, s, PpaOf(g, a), lpn, data).Ok?
      modifies maptbl, pages, rmap, blocks, victims.pri, `s
      ensures Valid() && s == Program(c, old(s), PpaOf(g, a), lpn, data).value
    {
      Facts();
      AddrFacts(a);
      FieldFacts();
      ProgramInSteps(c, s, PpaOf(g, a), lpn, data);
      hide Valid, Program, WithPage, LayoutOk, ConfigOf, GeoOk, Offset, BlockAt, PgsPerLine, PgsPerBlk,
           BlksPerLine, TotalPgs;
      SetMap(lpn, a);
      Restamp(a, Page(PgValid, Some(lpn), data), 1, 0);
      RaiseVpc(a.blk);
    }

    /** The arithmetic of advance_write_pointer; done at the end of the line. */
    method NextSlot(w: Slot) returns (done: bool, t: Slot)
      requires g.oneshot >= 1 && g.nchs >= 1 && g.luns >= 1 && w.ch < g.nchs && w.lun < g.luns
      ensures if done then AdvanceSlot(g, w).LineDone? else AdvanceSlot(g, w) == Inside(t)
    {
      var ch, lun, pg := w.ch, w.lun, w.pg;
      done := false;
      pg := pg + 1;
      if pg % g.oneshot != 0 {
        return false, Slot(ch, lun, pg);
      }
      FullOneshot(pg, g.oneshot);
      pg := pg - g.oneshot;
      ch := ch + 1;
      if ch != g.nchs {
        return false, Slot(ch, lun, pg);
      }
      ch := 0;
      lun := lun + 1;
      if lun != g.luns {
        return false, Slot(ch, lun, pg);
      }
      lun := 0;
      pg := pg + g.oneshot;
      if pg != PgsPerBlk(g) {
        return false, Slot(ch, lun, pg);
      }
      return true, Slot(ch, lun, 0);
    }

    method RetireLine(l: nat)
      requires Valid() && l < g.blks && CloseLine(c, s, l).Ok? && Fits(c, CloseLine(c, s, l).value)
      modifies Parts()
      ensures Valid() && s == CloseLine(c, old(s), l).value
    {
      Facts();
      hide Valid, LayoutOk, ConfigOf, GeoOk, PgsPerBlk, BlksPerLine, TotalPgs, P.Insert;
      var line, vpc, pos := GetLine(l);
      if vpc == PgsPerLine(g) {
        JoinFull(l);
      } else {
        AddVictim(l);
      }
    }

    /** list_add_tail to the full lines. */
    method JoinFull(l: nat)
      requires Valid() && l < g.blks
      modifies `full, `fullCnt, `s
      ensures Valid() && s == old(s).(full := old(s).full + [l], fullCnt := old(s).fullCnt + 1)
    {
      full := full + [l];
      fullCnt := fullCnt + 1;
      s := s.(full := full, fullCnt := fullCnt);
      hide GeoOk, PagesAgree, BlocksAgree, InfoAgrees, MapAgrees, WpsAgree;
    }

    /** list_del_init of the first free line. */
    method TakeFree() returns (l: nat)
      requires Valid() && s.free != []
      modifies `free, `freeCnt, `s
      ensures l == old(s).free[0] < g.blks
      ensures Valid() && s == old(s).(free := old(s).free[1..], freeCnt := old(s).freeCnt - 1)
    {
      l := free[0];
      free := free[1..];
      freeCnt := freeCnt - 1;
      s := s.(free := free, freeCnt := freeCnt);
      hide GeoOk, PagesAgree, BlocksAgree, InfoAgrees, MapAgrees, WpsAgree;
    }

    /** get_next_free_line for frontier i. */
    method OpenNextLine(i: nat)
      requires Valid() && i <= n && OpenLine(c, s, i).Ok?
      modifies `free, `freeCnt, info, wps, `s
      ensures Valid() && s == OpenLine(c, old(s), i).value
    {
      Facts();
      FirstSlot(g);
      hide Valid, LayoutOk, ConfigOf, GeoOk, PgsPerLine, PgsPerBlk, BlksPerLine, TotalPgs, Offset;
      var l := TakeFree();
      var line, vpc, pos := GetLine(l);
      SetInfo(l, line.(ruh := if i < n then i else -1));
      SetWp(i, Addr(l, Slot(0, 0, 0)));
    }

    method GetWp(i: nat) returns (w: Addr)
      requires Valid() && i <= n
      ensures AddrOk(g, w) && s.wp[i] == PpaOf(g, w)
    {
      w := wps[i];
    }

    method AdvanceWritePointer(i: nat)
      requires Valid() && i <= n && Advance(c, s, i).Ok? && Fits(c, Advance(c, s, i).value)
      modifies Parts()
      ensures Valid() && s == Advance(c, old(s), i).value
    {
      Facts();
      var w := GetWp(i);
      AdvanceIsNext(g, w.slot);
      var done, t := NextSlot(w.slot);
      hide Valid, LayoutOk, ConfigOf, GeoOk, PgsPerLine, PgsPerBlk, BlksPerLine, TotalPgs, Offset,
           AdvanceSlot, OpenLine, CloseLine;
      if !done {
        SetWp(i, Addr(w.blk, t));
      } else {
        OpenKeepsHeap(c, s, w.blk, i);
        RetireLine(w.blk);
        OpenNextLine(i);
      }
    }

    /** get_new_page, the mapping of lpn to it, and the advance of the write pointer. */
    method AppendPage(i: nat, lpn: nat, data: int)
      requires Valid() && i <= n && Append(c, s, i, lpn, data).Ok? && Fits(c, Append(c, s, i, lpn, data).value)
      modifies Parts()
      ensures Valid() && s == Append(c, old(s), i, lpn, data).value
    {
      Facts();
      hide Valid, LayoutOk, ConfigOf, GeoOk, PgsPerLine, PgsPerBlk, BlksPerLine, TotalPgs, Offset, Program,
           Advance;
      var w := GetWp(i);
      AddrFacts(w);
      ProgramPage(w, lpn, data);
      AdvanceWritePointer(i);
    }

    method GcWrite(a: Addr)
      requires Valid() && AddrOk(g, a) && InRange(c, PpaOf(g, a))
      requires GcWritePage(c, s, PpaOf(g, a)).Ok? && Fits(c, GcWritePage(c, s, PpaOf(g, a)).value)
      modifies Parts()
      ensures Valid() && s == GcWritePage(c, old(s), PpaOf(g, a)).value
    {
      Facts();
      AddrFacts(a);
      hide Valid, LayoutOk, ConfigOf, GeoOk, PgsPerLine, PgsPerBlk, BlksPerLine, TotalPgs, Offset, Append;
      var pg := GetPage(a);
      AppendPage(n, pg.lpn.value, pg.data);
      AddMediaBytes(pgsz);
    }

    /** Take over the counters and events that the other partitions have added to. */
    method LoadContext(shared: Context)
      requires Valid()
      modifies `ctx, `s
      ensures Valid() && s == old(s).(ctx := shared)
    {
      hide GeoOk, PagesAgree, BlocksAgree, InfoAgrees, MapAgrees, WpsAgree;
      ctx := shared;
      s := s.(ctx := shared);
    }

    method AddMediaBytes(bytes: nat)
      requires Valid()
      modifies `ctx, `s
      ensures Valid() && s == old(s).(ctx := old(s).ctx.(mbmw := old(s).ctx.mbmw + bytes))
    {
      ctx := ctx.(mbmw := ctx.mbmw + bytes);
      s := s.(ctx := ctx);
      hide GeoOk, PagesAgree, BlocksAgree, InfoAgrees, MapAgrees, WpsAgree;
    }

    // -------------------------------------------------------------- garbage collection

    /** Page i of flash page f of LUN (ch, lun) of line v. */
    function GcAddr(v: nat, f: nat, ch: nat, lun: nat, i: nat): (a: Addr) { Addr(v, GcPage(g, f, ch, lun, i)) }

    lemma GcAddrFacts(v: nat, f: nat, ch: nat, lun: nat, i: nat)
      requires Valid() && v < g.blks && f < g.flashes && ch < g.nchs && lun < g.luns && i < g.flash
      ensures AddrOk(g, GcAddr(v, f, ch, lun, i)) && InRange(c, PpaOf(g, GcAddr(v, f, ch, lun, i)))
      ensures c.blockOf[Offset(g, GcPage(g, f, ch, lun, i))] == BlockAt(g, ch, lun)
    {
      Facts();
      GcPageFits(g, f, ch, lun, i);
      AddrFacts(GcAddr(v, f, ch, lun, i));
    }

    /** The loop of clean_one_flashpg that counts the valid pages and checks that none is free. */
    method CountValid(v: nat, f: nat, ch: nat, lun: nat) returns (cnt: nat)
      requires Valid() && v < g.blks && f < g.flashes && ch < g.nchs && lun < g.luns
      requires Unerased(c, s, v, BlockAt(g, ch, lun)) && CanSweep(c, s, v, StepsFrom(g, f, ch, lun, 0))
      ensures cnt == 0 ==>
        && CanSweep(c, s, v, StepsFrom(g, f, ch, lun, g.flash))
        && Sweep(c, s, v, StepsFrom(g, f, ch, lun, 0)) == Sweep(c, s, v, StepsFrom(g, f, ch, lun, g.flash))
    {
      Facts();
      hide Valid, LayoutOk, ConfigOf, GeoOk, PgsPerLine, PgsPerBlk, BlksPerLine, TotalPgs, Offset, StepsFrom,
           Sweep, CanSweep, GcPage, BlockAt, GcWritePage;
      cnt := 0;
      for i := 0 to g.flash
        invariant cnt == 0 ==>
          && CanSweep(c, s, v, StepsFrom(g, f, ch, lun, i))
          && Sweep(c, s, v, StepsFrom(g, f, ch, lun, 0)) == Sweep(c, s, v, StepsFrom(g, f, ch, lun, i))
      {
        GcAddrFacts(v, f, ch, lun, i);
        var pg := GetPage(GcAddr(v, f, ch, lun, i));
        assert pg.status != PgFree;
        if cnt == 0 {
          CleanNext(g, c, s, v, f, ch, lun, i);
        }
        if pg.status == PgValid {
          cnt := cnt + 1;
        }
      }
    }

    /** clean_one_flashpg. */
    method CleanOneFlashPage(v: nat, f: nat, ch: nat, lun: nat)
      requires Valid() && v < g.blks && f < g.flashes && ch < g.nchs && lun < g.luns
      requires VictimAlone(c, s, v) && Unerased(c, s, v, BlockAt(g, ch, lun))
      requires CanSweep(c, s, v, StepsFrom(g, f, ch, lun, 0))
      modifies Parts()
      ensures Valid() && VictimAlone(c, s, v) && s.lines[v] == old(s).lines[v]
      ensures CanSweep(c, s, v, StepsFrom(g, f, ch, lun, g.flash))
      ensures Sweep(c, s, v, StepsFrom(g, f, ch, lun, g.flash)) == Sweep(c, old(s), v, StepsFrom(g, f, ch, lun, 0))
    {
      Facts();
      hide Valid, LayoutOk, ConfigOf, GeoOk, PgsPerLine, PgsPerBlk, BlksPerLine, TotalPgs, Offset, StepsFrom,
           Sweep, CanSweep, GcPage, BlockAt, GcWritePage, VictimAlone, Unerased;
      var cnt := CountValid(v, f, ch, lun);
      if cnt > 0 {
        CleanPages(v, f, ch, lun, s.lines[v], Sweep(c, s, v, StepsFrom(g, f, ch, lun, 0)));
      }
    }

    /** The sweep from page i of a flash page on leads from s to `goal`, with the victim line
        still as it was. */
    ghost predicate AtPage(v: nat, f: nat, ch: nat, lun: nat, i: nat, line: Line, goal: Outcome<Ftl>)
      requires GeoOk(g) && f < g.flashes && ch < g.nchs && lun < g.luns && i <= g.flash
      reads this
    {
      && v < |s.lines| == g.blks && VictimAlone(c, s, v) && s.lines[v] == line
      && CanSweep(c, s, v, StepsFrom(g, f, ch, lun, i)) && Sweep(c, s, v, StepsFrom(g, f, ch, lun, i)) == goal
    }

    /** The second loop of clean_one_flashpg. */
    method CleanPages(v: nat, f: nat, ch: nat, lun: nat, ghost line: Line, ghost goal: Outcome<Ftl>)
      requires Valid() && v < g.blks && f < g.flashes && ch < g.nchs && lun < g.luns
      requires AtPage(v, f, ch, lun, 0, line, goal)
      modifies Parts()
      ensures Valid() && AtPage(v, f, ch, lun, g.flash, line, goal)
    {
      for i := 0 to g.flash
        invariant Valid() && AtPage(v, f, ch, lun, i, line, goal)
      {
        CleanPage(v, f, ch, lun, i);
      }
    }

    /** One round of the second loop of clean_one_flashpg. */
    method CleanPage(v: nat, f: nat, ch: nat, lun: nat, i: nat)
      requires Valid() && v < g.blks && f < g.flashes && ch < g.nchs && lun < g.luns && i < g.flash
      requires VictimAlone(c, s, v) && CanSweep(c, s, v, StepsFrom(g, f, ch, lun, i))
      modifies Parts()
      ensures Valid() && VictimAlone(c, s, v) && |s.lines| == g.blks && s.lines[v] == old(s).lines[v]
      ensures CanSweep(c, s, v, StepsFrom(g, f, ch, lun, i + 1))
      ensures Sweep(c, s, v, StepsFrom(g, f, ch, lun, i + 1)) == Sweep(c, old(s), v, StepsFrom(g, f, ch, lun, i))
    {
      Facts();
      hide Valid, LayoutOk, ConfigOf, GeoOk, PgsPerLine, PgsPerBlk, BlksPerLine, TotalPgs, Offset, StepsFrom,
           Sweep, CanSweep, GcPage, BlockAt, GcWritePage, VictimAlone;
      GcAddrFacts(v, f, ch, lun, i);
      CleanNext(g, c, s, v, f, ch, lun, i);
      var a := GcAddr(v, f, ch, lun, i);
      var pg := GetPage(a);
      if pg.status == PgValid {
        GcWriteSpares(c, s, PpaOf(g, a), v);
        GcWrite(a);
        Facts();
      }
    }

    /** The loop of mark_block_free. */
    method FreePages(v: nat, ch: nat, lun: nat)
      requires Sized() && v < g.blks && ch < g.nchs && lun < g.luns
      modifies pages
      ensures pages[..] == ErasedPages(g, old(pages[..]), v, ch, lun, PgsPerBlk(g))
    {
      ghost var pages0 := pages[..];
      hide LayoutOk, GeoOk, ConfigOf, PgsPerBlk, Index, TotalPgs, BlkTotal;
      for pg := 0 to PgsPerBlk(g)
        invariant pages[..] == ErasedPages(g, pages0, v, ch, lun, pg)
      {
        var a := Addr(v, Slot(ch, lun, pg));
        IndexInRange(g, a);
        pages[Index(g, a)] := NandPage(PgFree, ERASED);
      }
    }

    /** mark_block_free. */
    method MarkBlockFree(v: nat, ch: nat, lun: nat)
      requires Valid() && v < g.blks && ch < g.nchs && lun < g.luns
      modifies pages, blocks, `ctx, `s
      ensures Valid() && s == EraseBlock(c, old(s), v, BlockAt(g, ch, lun))
    {
      Facts();
      hide Valid, ErasedLine, BlockAt;
      EraseFlash(v, ch, lun);
      AddErasedBytes(PgsPerBlk(g) * pgsz);
    }

    /** Its pages and counts... */
    method EraseFlash(v: nat, ch: nat, lun: nat)
      requires Valid() && v < g.blks && ch < g.nchs && lun < g.luns
      modifies pages, blocks, `s
      ensures Valid() && v < |old(s).lines| && |old(s).lines[v].pages| == |c.blockOf|
      ensures s == old(s).(lines := old(s).lines[v := ErasedLine(c, old(s).lines[v], {BlockAt(g, ch, lun)})])
    {
      Facts();
      LayoutBlocks(g, n, threshold, pgsz);
      var b := BlockAt(g, ch, lun);
      BlockBound(g, ch, lun);
      BlkIndexBound(g, v, b);
      ghost var pages0, blocks0 := pages[..], blocks[..];
      FreePages(v, ch, lun);
      blocks[BlkIndex(g, v, b)] := Block(0, 0);
      ErasedAgree(g, c, pages0, rmap[..], blocks0, blocks[..], s.lines, v, ch, lun);
      ErasedSameInfo(c, s, info[..], v, b);
      s := s.(lines := s.lines[v := ErasedLine(c, s.lines[v], {b})]);
    }

    /** ...and the erase counter. */
    method AddErasedBytes(bytes: nat)
      requires Valid()
      modifies `ctx, `s
      ensures Valid() && s == old(s).(ctx := old(s).ctx.(mbe := old(s).ctx.mbe + bytes))
    {
      ctx := ctx.(mbe := ctx.mbe + bytes);
      s := s.(ctx := ctx);
    }

    /** The body of do_gc's loops: clean one flash page of one LUN, and erase the block
        after its last flash page. */
    method CleanLun(v: nat, f: nat, ch: nat, lun: nat, ghost goal: Outcome<Ftl>)
      requires Valid() && v < g.blks && f < g.flashes && ch < g.nchs && lun < g.luns
      requires AtSweep(g, c, s, v, f, ch, lun, goal)
      modifies Parts()
      ensures Valid() && AtSweep(g, c, s, v, f, ch, lun + 1, goal)
    {
      Facts();
      SweepUnerased(g, c, s, v, f, ch, lun, goal);
      hide Valid, LayoutOk, ConfigOf, GeoOk, PgsPerLine, PgsPerBlk, BlksPerLine, TotalPgs, StepsFrom, Sweep,
           CanSweep, BlockAt, VictimAlone, EraseBlock;
      CleanOneFlashPage(v, f, ch, lun);
      Facts();
      if f + 1 == g.flashes {
        NextErase(g, c, s, v, ch, lun, goal);
        MarkBlockFree(v, ch, lun);
      } else {
        NextLun(g, c, s, v, f, ch, lun, goal);
      }
    }

    /** do_gc's loop over the LUNs of a channel... */
    method SweepChannel(v: nat, f: nat, ch: nat, ghost goal: Outcome<Ftl>)
      requires Valid() && v < g.blks && f < g.flashes && ch < g.nchs && AtSweep(g, c, s, v, f, ch, 0, goal)
      modifies Parts()
      ensures Valid() && AtSweep(g, c, s, v, f, ch + 1, 0, goal)
    {
      Facts();
      for lun := 0 to g.luns
        invariant Valid() && AtSweep(g, c, s, v, f, ch, lun, goal)
      {
        CleanLun(v, f, ch, lun, goal);
      }
      NextChannel(g, c, s, v, f, ch, goal);
    }

    /** ...over the channels of a row... */
    method SweepRow(v: nat, f: nat, ghost goal: Outcome<Ftl>)
      requires Valid() && v < g.blks && f < g.flashes && AtSweep(g, c, s, v, f, 0, 0, goal)
      modifies Parts()
      ensures Valid() && AtSweep(g, c, s, v, f + 1, 0, 0, goal)
    {
      Facts();
      for ch := 0 to g.nchs
        invariant Valid() && AtSweep(g, c, s, v, f, ch, 0, goal)
      {
        SweepChannel(v, f, ch, goal);
      }
      NextRow(g, c, s, v, f, goal);
    }

    /** ...and over the rows of the victim line. */
    method SweepLine(v: nat, ghost goal: Outcome<Ftl>)
      requires Valid() && v < g.blks && AtSweep(g, c, s, v, 0, 0, 0, goal)
      modifies Parts()
      ensures Valid() && Ok(s) == goal
    {
      Facts();
      for f := 0 to g.flashes
        invariant Valid() && AtSweep(g, c, s, v, f, 0, 0, goal)
      {
        SweepRow(v, f, goal);
      }
      SweepEnds(g, c, s, v, goal);
    }

    /** select_victim_line. */
    method SelectVictim(force: bool) returns (found: bool, v: nat)
      requires Valid()
      modifies victims, victims.d, victims.pos, `victimCnt, `s
      ensures Valid() && found == !NoVictim(c, old(s), force)
      ensures if found then v == old(s).pq.d[1] < g.blks && s == TakeVictim(c, old(s)) else s == old(s)
    {
      hide LayoutOk, GeoOk, PagesAgree, BlocksAgree, InfoAgrees, MapAgrees, WpsAgree, P.Pop;
      if victims.size == 1 {
        return false, 0;
      }
      v := victims.d[1];
      if !force && victims.pri[v] > PgsPerLine(g) / 8 {
        return false, 0;
      }
      PopVictim(v);
      return true, v;
    }

    method PopVictim(v: nat)
      requires Valid() && 1 < |s.pq.d| && v == s.pq.d[1] < g.blks
      modifies victims, victims.d, victims.pos, `victimCnt, `s
      ensures Valid() && s == TakeVictim(c, old(s))
    {
      var head := victims.Pop();
      ghost var q := victims.View();
      victims.pos[v] := 0;
      victimCnt := victimCnt - 1;
      s := TakeVictim(c, s);
      assert victims.View() == q.(pos := q.pos[v := 0]);
    }

    /** The event and the credit grant with which do_gc starts. */
    method AnnounceGc(v: nat)
      requires Valid() && v < g.blks
      modifies `ctx, `refill, `s
      ensures Valid() && s == StartGc(c, old(s), v)
    {
      if info[v].ruh >= 0 {
        ctx := ctx.(emitted := ctx.emitted + [Emission(EVT_IMPLICIT_MODIFIED_RU, F_PIV, info[v].ruh, 0)]);
      }
      refill := info[v].ipc % TWO_32;
      s := StartGc(c, s, v);
      hide GeoOk, PagesAgree, BlocksAgree, MapAgrees, WpsAgree;
    }

    /** mark_line_free. */
    method FreeLine(v: nat)
      requires Valid() && v < g.blks
      modifies info, victims.pri, `free, `freeCnt, `s
      ensures Valid() && s == MarkLineFree(c, old(s), v)
    {
      Facts();
      hide Valid, LayoutOk, ConfigOf, GeoOk;
      SetInfo(v, LineInfo(0, -1));
      SetVpc(v, 0);
      JoinFree(v);
    }

    method JoinFree(l: nat)
      requires Valid() && l < g.blks
      modifies `free, `freeCnt, `s
      ensures Valid() && s == old(s).(free := old(s).free + [l], freeCnt := old(s).freeCnt + 1)
    {
      free := free + [l];
      freeCnt := freeCnt + 1;
      s := s.(free := free, freeCnt := freeCnt);
      hide GeoOk, PagesAgree, BlocksAgree, InfoAgrees, MapAgrees, WpsAgree;
    }

    /** do_gc. */
    method CollectGarbage(force: bool)
      requires Valid() && Core(c, s, Idle, -1) && 1 <= s.refill <= c.p && DoGc(c, s, force).Ok?
      modifies Parts()
      ensures Valid() && s == DoGc(c, old(s), force).value
    {
      Facts();
      LayoutConfigOk(g, n, threshold, pgsz);
      if !NoVictim(c, s, force) {
        CollectReady(c, s, force);
      }
      assert c.sweep == StepsFrom(g, 0, 0, 0, 0);
      hide Valid, Core, LayoutOk, ConfigOf, GeoOk, PgsPerLine, PgsPerBlk, BlksPerLine, TotalPgs, StepsFrom,
           Sweep, CanSweep, VictimAlone, Unerased, BlockAt, NoVictim, TakeVictim, StartGc, MarkLineFree;
      var found, v := SelectVictim(force);
      if !found {
        return;
      }
      AnnounceGc(v);
      ghost var goal := Sweep(c, s, v, c.sweep);
      SweepBegins(g, c, s, v);
      SweepLine(v, goal);
      FreeLine(v);
    }

    /** check_and_refill_write_credit after consume_write_credit. */
    method ConsumeCredit()
      requires Valid() && Core(c, s, Idle, -1) && 1 <= s.refill <= c.p && SpendCredit(c, s).Ok?
      modifies Parts()
      ensures Valid() && s == SpendCredit(c, old(s)).value
    {
      Facts();
      hide Valid, Core, LayoutOk, ConfigOf, GeoOk, DoGc;
      SetCredits(Dec32(credits));
      CoreIgnores(c, old(s), s, Idle, -1);
      if credits <= 0 {
        if freeCnt <= threshold {
          CollectGarbage(true);
        }
        SetCredits(Add32(credits, refill));
      }
    }

    method SetCredits(k: nat)
      requires Valid()
      modifies `credits, `s
      ensures Valid() && s == old(s).(credits := k)
    {
      credits := k;
      s := s.(credits := k);
      hide GeoOk, PagesAgree, BlocksAgree, InfoAgrees, MapAgrees, WpsAgree;
    }

    method SupersedeOld(lpn: nat)
      requires Valid() && lpn < c.ttPgs && Supersede(c, s, lpn).Ok? && Fits(c, Supersede(c, s, lpn).value)
      modifies Parts()
      ensures Valid() && s == Supersede(c, old(s), lpn).value
    {
      Facts();
      hide LayoutOk, ConfigOf, GeoOk, PagesAgree, BlocksAgree, InfoAgrees, WpsAgree, MarkInvalid, Offset;
      match maptbl[lpn]
      case None =>
      case Some(a) =>
        AddrFacts(a);
        MarkPageInvalid(a);
    }

    /** fdp_write's work on one logical page. */
    method WritePage(lpn: nat, ruh: nat, data: int)
      requires Valid() && Inv(c, s) && lpn < TotalPgs(g) && ruh < n
      requires FtlModel.WritePage(c, s, lpn, ruh, data).Ok?
      modifies Parts()
      ensures Valid() && Inv(c, s) && s == FtlModel.WritePage(c, old(s), lpn, ruh, data).value
    {
      Facts();
      LayoutConfigOk(g, n, threshold, pgsz);
      hide Valid, Core, LayoutOk, ConfigOf, GeoOk, TotalPgs, Supersede, Append, SpendCredit;
      WritePageKeeps(c, s, lpn, ruh, data);
      SupersedeKeeps(c, s, lpn);
      HeapFits(c, Supersede(c, s, lpn).value, Idle, lpn);
      SupersedeOld(lpn);
      AppendKeeps(c, s, Idle, ruh, lpn, data);
      HeapFits(c, Append(c, s, ruh, lpn, data).value, Idle, -1);
      AppendPage(ruh, lpn, data);
      ConsumeCredit();
    }
  }

  lemma SweepBegins(g: Geo, c: Config, s: Ftl, v: nat)
    requires g.oneshot >= 1 && c.sweep == StepsFrom(g, 0, 0, 0, 0)
    requires CanSweep(c, s, v, c.sweep) && VictimAlone(c, s, v) && Unerased(c, s, v, 0)
    ensures AtSweep(g, c, s, v, 0, 0, 0, Sweep(c, s, v, c.sweep))
  {
    assert BlockAt(g, 0, 0) == 0;
  }

  lemma SweepUnerased(g: Geo, c: Config, s: Ftl, v: nat, f: nat, ch: nat, lun: nat, goal: Outcome<Ftl>)
    requires g.oneshot >= 1 && f < g.flashes && ch < g.nchs && lun < g.luns && AtSweep(g, c, s, v, f, ch, lun, goal)
    ensures Unerased(c, s, v, BlockAt(g, ch, lun)) && Unerased(c, s, v, EraseBound(g, f, ch, lun))
    ensures VictimAlone(c, s, v)
    ensures CanSweep(c, s, v, StepsFrom(g, f, ch, lun, 0)) && Sweep(c, s, v, StepsFrom(g, f, ch, lun, 0)) == goal
  {
  }

  lemma SweepEnds(g: Geo, c: Config, s: Ftl, v: nat, goal: Outcome<Ftl>)
    requires g.oneshot >= 1 && AtSweep(g, c, s, v, g.flashes, 0, 0, goal)
    ensures goal == Ok(s)
  {
    NextStep(g, g.flashes, 0, 0, 0);
  }

  lemma IndexInRange(g: Geo, a: Addr)
    requires AddrOk(g, a)
    ensures Index(g, a) < TotalPgs(g)
  {
    IndexBound(g, a.blk, a.slot);
  }

  lemma ErasedSameInfo(c: Config, s: Ftl, info: seq<LineInfo>, v: nat, b: nat)
    requires Shape(c, s) && v < c.lines && InfoAgrees(info, s.lines)
    ensures InfoAgrees(info, EraseBlock(c, s, v, b).lines)
  {
  }

  lemma OpenKeepsHeap(c: Config, s: Ftl, l: nat, i: nat)
    requires Shape(c, s) && l < c.lines && i <= c.n && CloseLine(c, s, l).Ok?
    requires OpenLine(c, CloseLine(c, s, l).value, i).Ok?
    ensures OpenLine(c, CloseLine(c, s, l).value, i).value.pq == CloseLine(c, s, l).value.pq
  {
  }

  lemma FullOneshot(pg: nat, oneshot: nat)
    requires oneshot >= 1 && pg >= 1 && pg % oneshot == 0
    ensures pg >= oneshot
  {
    if pg < oneshot {
      MixSplit(0, oneshot, pg);
    }
  }

  lemma FirstSlot(g: Geo)
    requires GeoOk(g)
    ensures InLine(g, Slot(0, 0, 0)) && Offset(g, Slot(0, 0, 0)) == 0
  {
    assert PgsPerBlk(g) >= 1;
  }

  lemma InitAgrees(g: Geo, n: nat, threshold: nat, pgsz: nat,
                   pages: seq<NandPage>, rmap: seq<Option<nat>>, blocks: seq<Block>)
    requires LayoutOk(g, n)
    requires |pages| == |rmap| == TotalPgs(g) && |blocks| == BlkTotal(g)
    requires forall i :: 0 <= i < |pages| ==> pages[i] == NandPage(PgFree, ERASED) && rmap[i] == None
    requires forall i :: 0 <= i < |blocks| ==> blocks[i] == Block(0, 0)
    ensures Basic(ConfigOf(g, n, threshold, pgsz))
    ensures PagesAgree(g, pages, rmap, Init(ConfigOf(g, n, threshold, pgsz)).lines)
    ensures BlocksAgree(g, blocks, Init(ConfigOf(g, n, threshold, pgsz)).lines)
  {
    LayoutBasic(g, n, threshold, pgsz);
    var c := ConfigOf(g, n, threshold, pgsz);
    var lines := Init(c).lines;
    assert c.p == PgsPerLine(g) && c.nblks == BlksPerLine(g);
    hide ConfigOf, Offset, PageIndex, GeoOk, BlkIndex, PgsPerLine, PgsPerBlk, BlksPerLine;
    forall a: Addr | AddrOk(g, a)
      ensures PageAgrees(g, pages, rmap, lines, a)
    {
      IndexBound(g, a.blk, a.slot);
      OffsetBound(g, a.slot);
    }
    forall l: nat, b: nat | l < g.blks && b < BlksPerLine(g)
      ensures BlkIndex(g, l, b) < |blocks| && b < |lines[l].blocks| && lines[l].blocks[b] == blocks[BlkIndex(g, l, b)]
    {
      BlkIndexBound(g, l, b);
    }
  }

  lemma InitListsAgree(g: Geo, n: nat, threshold: nat, pgsz: nat, info: seq<LineInfo>, wps: seq<Addr>,
                       table: seq<Option<Addr>>, free: seq<nat>, q: P.Heap)
    requires LayoutOk(g, n) && |info| == g.blks && |wps| == n + 1 && |table| == TotalPgs(g)
    requires forall l :: 0 <= l < g.blks ==> info[l] == LineInfo(0, if l < n then l else -1)
    requires forall i :: 0 <= i <= n ==> wps[i] == Addr(i, Slot(0, 0, 0))
    requires forall m :: 0 <= m < |table| ==> table[m] == None
    requires free == seq(g.blks - n - 1, (j: nat) => n + 1 + j)
    requires q == P.Heap([0], seq(g.blks, (l: nat) => 0), seq(g.blks, (l: nat) => 0))
    ensures Basic(ConfigOf(g, n, threshold, pgsz))
    ensures
      var s := Init(ConfigOf(g, n, threshold, pgsz));
      && InfoAgrees(info, s.lines) && WpsAgree(g, wps, s.wp) && MapAgrees(g, table, s.maptbl)
      && free == s.free && q == s.pq
  {
    LayoutBasic(g, n, threshold, pgsz);
    LinePositive(g);
    assert Offset(g, Slot(0, 0, 0)) == 0;
  }
}

/** How the FTL's arrays represent the state of FtlModel.

    A physical page is (blk, ch, lun, pg).  The flash pages and the reverse map are laid
    out by ppa2pgidx, the blocks by channel, LUN and block number. */
module FtlMemory {
  import opened Common
  import opened Finite
  import opened Geometry
  import opened FtlModel
  import opened FtlLayout
  import P = Pqueue

  /** struct ppa; also the position of a write pointer. */
  datatype Addr = Addr(blk: nat, slot: Slot)

  datatype NandPage = NandPage(status: Status, data: int)

  /** The fields of struct fdp_line that the heap does not reach. */
  datatype LineInfo = LineInfo(ipc: int, ruh: int)

  ghost predicate AddrOk(g: Geo, a: Addr) { a.blk < g.blks && InLine(g, a.slot) }

  function PpaOf(g: Geo, a: Addr): (r: Ppa)
    requires g.oneshot >= 1
  {
    Ppa(a.blk, Offset(g, a.slot))
  }

  function Index(g: Geo, a: Addr): (r: nat) { PageIndex(g, a.blk, a.slot) }

  /** The index of the block of LUN (ch, lun) that belongs to line blk. */
  function BlkIndex(g: Geo, blk: nat, b: nat): (r: nat) { Mix(b, g.blks, blk) }

  function BlkTotal(g: Geo): (r: nat) { BlksPerLine(g) * g.blks }

  // ---------------------------------------------------------------- representation

  ghost predicate PageAgrees(g: Geo, pages: seq<NandPage>, rmap: seq<Option<nat>>, lines: seq<Line>, a: Addr)
    requires GeoOk(g)
  {
    && Index(g, a) < |pages| && Index(g, a) < |rmap|
    && a.blk < |lines| && Offset(g, a.slot) < |lines[a.blk].pages|
    && lines[a.blk].pages[Offset(g, a.slot)]
       == Page(pages[Index(g, a)].status, rmap[Index(g, a)], pages[Index(g, a)].data)
  }

  ghost predicate PagesAgree(g: Geo, pages: seq<NandPage>, rmap: seq<Option<nat>>, lines: seq<Line>)
    requires GeoOk(g)
  {
    forall a: Addr :: AddrOk(g, a) ==> PageAgrees(g, pages, rmap, lines, a)
  }

  ghost predicate BlocksAgree(g: Geo, blocks: seq<Block>, lines: seq<Line>) {
    && |lines| == g.blks
    && forall l: nat, b: nat :: l < g.blks && b < BlksPerLine(g) ==>
      BlkIndex(g, l, b) < |blocks| && b < |lines[l].blocks| && lines[l].blocks[b] == blocks[BlkIndex(g, l, b)]
  }

  ghost predicate InfoAgrees(info: seq<LineInfo>, lines: seq<Line>) {
    && |info| == |lines|
    && forall l :: 0 <= l < |lines| ==> LineInfo(lines[l].ipc, lines[l].ruh) == info[l]
  }

  ghost predicate MapAgrees(g: Geo, table: seq<Option<Addr>>, maptbl: seq<Option<Ppa>>)
    requires g.oneshot >= 1
  {
    && |table| == |maptbl|
    && forall m :: 0 <= m < |table| ==>
      match table[m]
      case None => maptbl[m] == None
      case Some(a) => AddrOk(g, a) && maptbl[m] == Some(PpaOf(g, a))
  }

  ghost predicate WpsAgree(g: Geo, wps: seq<Addr>, wp: seq<Ppa>)
    requires g.oneshot >= 1
  {
    && |wps| == |wp|
    && forall i :: 0 <= i < |wps| ==> AddrOk(g, wps[i]) && wp[i] == PpaOf(g, wps[i])
  }

  /** The state with page a and the counts of block b of its line replaced. */
  ghost function WithPage(s: Ftl, a: Ppa, pg: Page, b: nat, blk: Block): (r: Ftl)
    requires a.line < |s.lines|
    ensures r == s.(lines := r.lines) && |r.lines| == |s.lines|
  {
    var line := s.lines[a.line];
    if a.off < |line.pages| && b < |line.blocks|
    then s.(lines := s.lines[a.line := SetPage(line, a.off, pg, b, blk)])
    else s
  }

  ghost function WithInfo(s: Ftl, l: nat, i: LineInfo): (r: Ftl)
    requires l < |s.lines|
    ensures r == s.(lines := r.lines) && |r.lines| == |s.lines|
  {
    s.(lines := s.lines[l := s.lines[l].(ipc := i.ipc, ruh := i.ruh)])
  }

  /** mark_page_invalid up to the valid pages of the line... */
  ghost function Marked(c: Config, s: Ftl, a: Ppa): (r: Ftl)
    requires Shape(c, s) && InRange(c, a)
    ensures r == s.(lines := r.lines) && |r.lines| == |s.lines|
  {
    var l, b := a.line, c.blockOf[a.off];
    var line := s.lines[l];
    var blk := line.blocks[b];
    var s1 := WithPage(s, a, Page(PgInvalid, None, line.pages[a.off].data), b, Block(blk.vpc - 1, blk.ipc + 1));
    WithInfo(s1, l, LineInfo(line.ipc + 1, line.ruh))
  }

  /** ...and before the line changes lists. */
  ghost function Demoted(c: Config, s: Ftl, a: Ppa): (r: Ftl)
    requires Shape(c, s) && InRange(c, a) && s.pq.pos[a.line] < |s.pq.d|
    ensures |r.pq.d| == |s.pq.d|
  {
    Marked(c, s, a).(pq := Lowered(s.pq, a.line))
  }

  /** line->vpc--, through the heap if the line is in it. */
  ghost function Lowered(q: P.Heap, l: nat): (r: P.Heap)
    requires P.Shaped(q) && l < |q.pos| && q.pos[l] < |q.d|
    ensures |r.d| == |q.d|
  {
    if q.pos[l] != 0 then P.ChangePriority(q, l, q.pri[l] - 1) else q.(pri := q.pri[l := q.pri[l] - 1])
  }

  ghost function NowVictim(c: Config, s: Ftl, l: nat): (r: Ftl)
    requires P.Shaped(s.pq) && l < |s.pq.pos|
    ensures |r.pq.d| == |s.pq.d| + 1
  {
    s.(full := Remove(s.full, l), fullCnt := s.fullCnt - 1, pq := P.Insert(s.pq, l), victimCnt := s.victimCnt + 1)
  }

  lemma InvalidateInSteps(c: Config, s: Ftl, a: Ppa)
    requires Shape(c, s) && InRange(c, a) && MarkInvalid(c, s, a).Ok?
    ensures s.pq.pos[a.line] < |s.pq.d| && P.Shaped(Demoted(c, s, a).pq) && |Demoted(c, s, a).pq.pos| == |s.pq.pos|
    ensures MarkInvalid(c, s, a).value ==
      if s.pq.pri[a.line] == c.p then NowVictim(c, Demoted(c, s, a), a.line) else Demoted(c, s, a)
  {
    hide P.ChangePriority, P.Insert, Remove;
  }

  lemma ProgramInSteps(c: Config, s: Ftl, a: Ppa, lpn: nat, data: int)
    requires Shape(c, s) && InRange(c, a) && Program(c, s, a, lpn, data).Ok?
    ensures
      var b := c.blockOf[a.off];
      var blk := s.lines[a.line].blocks[b];
      && lpn < c.ttPgs
      && Program(c, s, a, lpn, data).value ==
         WithPage(s.(maptbl := s.maptbl[lpn := Some(a)]), a, Page(PgValid, Some(lpn), data), b,
                  Block(blk.vpc + 1, blk.ipc))
         .(pq := s.pq.(pri := s.pq.pri[a.line := s.pq.pri[a.line] + 1]))
  {
  }

  // ---------------------------------------------------------------- addressing

  lemma OffsetInjective(g: Geo, s: Slot, t: Slot)
    requires GeoOk(g) && InLine(g, s) && InLine(g, t) && Offset(g, s) == Offset(g, t)
    ensures s == t
  {
    SlotOfOffset(g, s);
    SlotOfOffset(g, t);
  }

  lemma BlkIndexBound(g: Geo, l: nat, b: nat)
    requires l < g.blks && b < BlksPerLine(g)
    ensures BlkIndex(g, l, b) < BlkTotal(g)
  {
    MixBound(b, BlksPerLine(g), g.blks, l);
  }

  lemma BlkIndexInjective(g: Geo, l: nat, b: nat, l1: nat, b1: nat)
    requires l < g.blks && l1 < g.blks && BlkIndex(g, l, b) == BlkIndex(g, l1, b1)
    ensures l == l1 && b == b1
  {
    MixSplit(b, g.blks, l);
    MixSplit(b1, g.blks, l1);
  }

  // ---------------------------------------------------------------- updates

  /** Writing one flash page and its reverse-map entry changes one page of one line. */
  lemma PagesAgreeUpdate(g: Geo, pages: seq<NandPage>, rmap: seq<Option<nat>>, lines: seq<Line>,
                         pages1: seq<NandPage>, rmap1: seq<Option<nat>>, lines1: seq<Line>,
                         a: Addr, pg: Page)
    requires GeoOk(g) && PagesAgree(g, pages, rmap, lines) && AddrOk(g, a)
    requires Index(g, a) < |pages| && Index(g, a) < |rmap|
    requires a.blk < |lines| && Offset(g, a.slot) < |lines[a.blk].pages|
    requires pages1 == pages[Index(g, a) := NandPage(pg.status, pg.data)]
    requires rmap1 == rmap[Index(g, a) := pg.lpn]
    requires |lines1| == |lines|
    requires forall l :: 0 <= l < |lines| ==>
      lines1[l].pages == (if l == a.blk then lines[l].pages[Offset(g, a.slot) := pg] else lines[l].pages)
    ensures PagesAgree(g, pages1, rmap1, lines1)
  {
    hide Index, Offset, GeoOk, InLine;
    forall e: Addr | AddrOk(g, e)
      ensures PageAgrees(g, pages1, rmap1, lines1, e)
    {
      assert PageAgrees(g, pages, rmap, lines, e);
      if e != a {
        Apart(g, a, e);
      }
    }
  }

  lemma Apart(g: Geo, a: Addr, e: Addr)
    requires GeoOk(g) && AddrOk(g, a) && AddrOk(g, e) && a != e
    ensures Index(g, a) != Index(g, e)
    ensures a.blk == e.blk ==> Offset(g, a.slot) != Offset(g, e.slot)
  {
    if Index(g, a) == Index(g, e) {
      IndexInjective(g, a.blk, a.slot, e.blk, e.slot);
    }
    if a.blk == e.blk && Offset(g, a.slot) == Offset(g, e.slot) {
      OffsetInjective(g, a.slot, e.slot);
    }
  }

  lemma BlocksAgreeUpdate(g: Geo, blocks: seq<Block>, lines: seq<Line>, blocks1: seq<Block>, lines1: seq<Line>,
                          l: nat, b: nat, blk: Block)
    requires BlocksAgree(g, blocks, lines) && l < g.blks && b < BlksPerLine(g)
    requires BlkIndex(g, l, b) < |blocks| && b < |lines[l].blocks|
    requires blocks1 == blocks[BlkIndex(g, l, b) := blk]
    requires |lines1| == |lines|
    requires forall k :: 0 <= k < |lines| ==>
      lines1[k].blocks == (if k == l then lines[k].blocks[b := blk] else lines[k].blocks)
    ensures BlocksAgree(g, blocks1, lines1)
  {
    hide BlkIndex, BlksPerLine;
    forall k: nat, e: nat | k < g.blks && e < BlksPerLine(g)
      ensures BlkIndex(g, k, e) < |blocks1| && e < |lines1[k].blocks|
      ensures lines1[k].blocks[e] == blocks1[BlkIndex(g, k, e)]
    {
      if BlkIndex(g, k, e) == BlkIndex(g, l, b) {
        BlkIndexInjective(g, k, e, l, b);
      }
    }
  }

  lemma SamePages(g: Geo, pages: seq<NandPage>, rmap: seq<Option<nat>>, lines: seq<Line>, lines1: seq<Line>)
    requires GeoOk(g) && PagesAgree(g, pages, rmap, lines) && |lines1| == |lines|
    requires forall l :: 0 <= l < |lines| ==> lines1[l].pages == lines[l].pages
    ensures PagesAgree(g, pages, rmap, lines1)
  {
    hide Index, Offset, GeoOk, InLine;
    forall e: Addr | AddrOk(g, e)
      ensures PageAgrees(g, pages, rmap, lines1, e)
    {
      assert PageAgrees(g, pages, rmap, lines, e);
    }
  }

  // ---------------------------------------------------------------- erasing a block

  /** The flash after mark_block_free has passed the first k pages. */
  ghost function ErasedPages(g: Geo, pages: seq<NandPage>, v: nat, ch: nat, lun: nat, k: nat): (r: seq<NandPage>)
    ensures |r| == |pages|
  {
    if k == 0 then pages
    else
      var rest := ErasedPages(g, pages, v, ch, lun, k - 1);
      var i := Index(g, Addr(v, Slot(ch, lun, k - 1)));
      if i < |pages| then rest[i := NandPage(PgFree, ERASED)] else rest
  }

  lemma {:induction false} ErasedPageAt(g: Geo, pages: seq<NandPage>, v: nat, ch: nat, lun: nat, k: nat, a: Addr)
    requires GeoOk(g) && AddrOk(g, a) && v < g.blks && ch < g.nchs && lun < g.luns && k <= PgsPerBlk(g)
    requires Index(g, a) < |pages|
    ensures ErasedPages(g, pages, v, ch, lun, k)[Index(g, a)] ==
      if a.blk == v && a.slot.ch == ch && a.slot.lun == lun && a.slot.pg < k then NandPage(PgFree, ERASED)
      else pages[Index(g, a)]
  {
    hide Index, GeoOk;
    if k > 0 {
      ErasedPageAt(g, pages, v, ch, lun, k - 1, a);
      var e := Addr(v, Slot(ch, lun, k - 1));
      if a != e {
        Apart(g, a, e);
      }
    }
  }

  lemma ErasedAgree(g: Geo, c: Config, pages: seq<NandPage>, rmap: seq<Option<nat>>, blocks: seq<Block>,
                    blocks1: seq<Block>,
                    lines: seq<Line>, v: nat, ch: nat, lun: nat)
    requires GeoOk(g) && v < g.blks && ch < g.nchs && lun < g.luns
    requires LinesShaped(c, lines) && c.lines == g.blks && c.p == PgsPerLine(g) == |c.blockOf|
    requires c.nblks == BlksPerLine(g)
    requires forall k: nat :: k < PgsPerLine(g) ==> c.blockOf[k] == BlockOfPlace(g, k)
    requires PagesAgree(g, pages, rmap, lines) && BlocksAgree(g, blocks, lines)
    requires BlockAt(g, ch, lun) < c.nblks && BlkIndex(g, v, BlockAt(g, ch, lun)) < |blocks|
    requires blocks1 == blocks[BlkIndex(g, v, BlockAt(g, ch, lun)) := Block(0, 0)]
    ensures
      var lines1 := lines[v := ErasedLine(c, lines[v], {BlockAt(g, ch, lun)})];
      && PagesAgree(g, ErasedPages(g, pages, v, ch, lun, PgsPerBlk(g)), rmap, lines1)
      && BlocksAgree(g, blocks1, lines1)
  {
    var b := BlockAt(g, ch, lun);
    var lines1 := lines[v := ErasedLine(c, lines[v], {b})];
    assert lines1[v].blocks == lines[v].blocks[b := Block(0, 0)];
    BlocksAgreeUpdate(g, blocks, lines, blocks1, lines1, v, b, Block(0, 0));
    hide ErasedPages, Index, Offset, GeoOk, BlockOfPlace, BlockAt, BlksPerLine, PgsPerLine, BlkIndex,
         BlocksAgree;
    forall a: Addr | AddrOk(g, a)
      ensures PageAgrees(g, ErasedPages(g, pages, v, ch, lun, PgsPerBlk(g)), rmap, lines1, a)
    {
      assert PageAgrees(g, pages, rmap, lines, a);
      ErasedPageAt(g, pages, v, ch, lun, PgsPerBlk(g), a);
      PlaceOfPage(g, a.slot.ch, a.slot.lun, a.slot.pg);
      if c.blockOf[Offset(g, a.slot)] == b {
        PageOfPlace(g, ch, lun, Offset(g, a.slot));
      }
    }
  }
}

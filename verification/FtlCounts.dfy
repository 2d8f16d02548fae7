/** How the page counts of a single line change when one page changes state. */
module FtlCounts {
  import opened Finite
  import opened FtlModel
  import opened FtlInv

  lemma PageSets(pages: seq<Page>, k: nat, pg: Page)
    requires k < |pages|
    ensures ValidOffs(pages[k := pg]) ==
            if pg.status == PgValid then ValidOffs(pages) + {k} else ValidOffs(pages) - {k}
    ensures InvalidOffs(pages[k := pg]) ==
            if pg.status == PgInvalid then InvalidOffs(pages) + {k} else InvalidOffs(pages) - {k}
  {
  }

  lemma InBlockPlus(c: Config, ks: set<nat>, k: nat, b: nat)
    requires k < |c.blockOf|
    ensures InBlock(c, ks + {k}, b) ==
            if c.blockOf[k] == b then InBlock(c, ks, b) + {k} else InBlock(c, ks, b)
  {
  }

  lemma InBlockMinus(c: Config, ks: set<nat>, k: nat, b: nat)
    requires k < |c.blockOf|
    ensures InBlock(c, ks - {k}, b) ==
            if c.blockOf[k] == b then InBlock(c, ks, b) - {k} else InBlock(c, ks, b)
  {
  }

  lemma ProgramBlock(c: Config, line: Line, line1: Line, k: nat, b: nat)
    requires k < |line.pages| == |c.blockOf| && b < |line.blocks| == |line1.blocks| && BlockCounted(c, line, b)
    requires ValidOffs(line1.pages) == ValidOffs(line.pages) + {k} && k !in ValidOffs(line.pages)
    requires InvalidOffs(line1.pages) == InvalidOffs(line.pages)
    requires line1.blocks[b] ==
             if b == c.blockOf[k] then Block(line.blocks[b].vpc + 1, line.blocks[b].ipc) else line.blocks[b]
    ensures BlockCounted(c, line1, b)
  {
    InBlockPlus(c, ValidOffs(line.pages), k, b);
  }

  lemma ProgramCounted(c: Config, line: Line, vpc: int, k: nat, pg: Page)
    requires Counted(c, line, vpc) && k < |line.pages| == |c.blockOf| && c.blockOf[k] < |line.blocks|
    requires line.pages[k].status == PgFree && pg.status == PgValid
    ensures
      var b := c.blockOf[k];
      var blk := line.blocks[b];
      Counted(c, SetPage(line, k, pg, b, Block(blk.vpc + 1, blk.ipc)), vpc + 1)
  {
    hide InBlock;
    var b := c.blockOf[k];
    var line1 := SetPage(line, k, pg, b, Block(line.blocks[b].vpc + 1, line.blocks[b].ipc));
    PageSets(line.pages, k, pg);
    assert InvalidOffs(line1.pages) == InvalidOffs(line.pages);
    forall b' | 0 <= b' < |line1.blocks|
      ensures BlockCounted(c, line1, b')
    {
      assert BlockCounted(c, line, b');
      ProgramBlock(c, line, line1, k, b');
    }
  }

  lemma InvalidateBlock(c: Config, line: Line, line1: Line, k: nat, b: nat)
    requires k < |line.pages| == |c.blockOf| && b < |line.blocks| == |line1.blocks| && BlockCounted(c, line, b)
    requires ValidOffs(line1.pages) == ValidOffs(line.pages) - {k} && k in ValidOffs(line.pages)
    requires InvalidOffs(line1.pages) == InvalidOffs(line.pages) + {k} && k !in InvalidOffs(line.pages)
    requires line1.blocks[b] ==
             if b == c.blockOf[k] then Block(line.blocks[b].vpc - 1, line.blocks[b].ipc + 1) else line.blocks[b]
    ensures BlockCounted(c, line1, b)
  {
    InBlockMinus(c, ValidOffs(line.pages), k, b);
    InBlockPlus(c, InvalidOffs(line.pages), k, b);
  }

  lemma InvalidateCounted(c: Config, line: Line, vpc: int, k: nat, pg: Page)
    requires Counted(c, line, vpc) && k < |line.pages| == |c.blockOf| && c.blockOf[k] < |line.blocks|
    requires line.pages[k].status == PgValid && pg.status == PgInvalid
    ensures
      var b := c.blockOf[k];
      var blk := line.blocks[b];
      Counted(c, SetPage(line, k, pg, b, Block(blk.vpc - 1, blk.ipc + 1)).(ipc := line.ipc + 1), vpc - 1)
  {
    hide InBlock;
    var b := c.blockOf[k];
    var line1 := SetPage(line, k, pg, b, Block(line.blocks[b].vpc - 1, line.blocks[b].ipc + 1))
                 .(ipc := line.ipc + 1);
    PageSets(line.pages, k, pg);
    assert k in ValidOffs(line.pages) && k !in InvalidOffs(line.pages);
    forall b' | 0 <= b' < |line1.blocks|
      ensures BlockCounted(c, line1, b')
    {
      assert BlockCounted(c, line, b');
      InvalidateBlock(c, line, line1, k, b');
    }
  }

  /** No line has more VALID and INVALID pages than it has pages. */
  lemma CountBounds(c: Config, line: Line, vpc: int)
    requires Counted(c, line, vpc) && |line.pages| == c.p
    ensures 0 <= vpc && 0 <= line.ipc && vpc + line.ipc <= c.p
    ensures WrittenTo(line, c.p) ==> vpc + line.ipc == c.p
  {
    var v, i := ValidOffs(line.pages), InvalidOffs(line.pages);
    assert |v + i| == |v| + |i|;
    SubsetCard(v + i, Range(c.p));
    if WrittenTo(line, c.p) {
      assert v + i == Range(c.p);
    }
  }

  /** A FREE page leaves room in the counters of its line and of its block. */
  lemma FreeRoom(c: Config, line: Line, vpc: int, k: nat)
    requires Counted(c, line, vpc) && |line.pages| == c.p == |c.blockOf| && k < c.p
    requires c.blockOf[k] < |line.blocks| == c.nblks && BlocksOk(c)
    requires line.pages[k].status == PgFree
    ensures 0 <= vpc < c.p && 0 <= line.blocks[c.blockOf[k]].vpc < c.blkPgs
  {
    var v, b := ValidOffs(line.pages), c.blockOf[k];
    SubsetCard(v, Range(c.p) - {k});
    assert BlockCounted(c, line, b);
    SubsetCard(InBlock(c, v, b), InBlock(c, Range(c.p), b) - {k});
    assert k in InBlock(c, Range(c.p), b);
  }

  /** A VALID page is counted in its line and in its block. */
  lemma ValidRoom(c: Config, line: Line, vpc: int, k: nat)
    requires Counted(c, line, vpc) && |line.pages| == c.p == |c.blockOf| && k < c.p
    requires c.blockOf[k] < |line.blocks| == c.nblks && BlocksOk(c)
    requires line.pages[k].status == PgValid
    ensures 0 < vpc <= c.p && 0 <= line.ipc < c.p && (vpc == c.p ==> line.ipc == 0)
    ensures
      var blk := line.blocks[c.blockOf[k]];
      0 <= blk.ipc < c.blkPgs && 0 < blk.vpc <= c.blkPgs
  {
    var v, i, b := ValidOffs(line.pages), InvalidOffs(line.pages), c.blockOf[k];
    assert k in v && k !in i;
    CountBounds(c, line, vpc);
    assert v != {};
    assert BlockCounted(c, line, b);
    assert k in InBlock(c, v, b) && k in InBlock(c, Range(c.p), b);
    SubsetCard(InBlock(c, v, b), InBlock(c, Range(c.p), b));
    SubsetCard(InBlock(c, i, b), InBlock(c, Range(c.p), b) - {k});
  }

  lemma EmptyCounted(c: Config, line: Line)
    requires forall k :: 0 <= k < |line.pages| ==> line.pages[k].status == PgFree
    requires line.ipc == 0 && forall b :: 0 <= b < |line.blocks| ==> line.blocks[b] == Block(0, 0)
    ensures Counted(c, line, 0) && WrittenTo(line, 0)
  {
    assert ValidOffs(line.pages) == {} && InvalidOffs(line.pages) == {};
    forall b | 0 <= b < |line.blocks|
      ensures BlockCounted(c, line, b)
    {
      assert InBlock(c, {}, b) == {};
    }
  }

  /** Erasing every block of a line empties it. */
  lemma ErasedIsEmpty(c: Config, line: Line)
    requires |line.pages| == c.p == |c.blockOf| && |line.blocks| == c.nblks && Basic(c)
    ensures
      var r := ErasedLine(c, line, Range(c.nblks)).(ipc := 0, ruh := -1);
      FreeLine(c, r, 0)
  {
    var r := ErasedLine(c, line, Range(c.nblks)).(ipc := 0, ruh := -1);
    forall k | 0 <= k < |r.pages|
      ensures r.pages[k].status == PgFree
    {
      assert c.blockOf[k] in Range(c.nblks);
    }
    EmptyCounted(c, r);
  }

  lemma ErasedTwice(c: Config, line: Line, bs: set<nat>, b: nat)
    requires |line.pages| == |c.blockOf|
    ensures ErasedLine(c, ErasedLine(c, line, bs), {b}) == ErasedLine(c, line, bs + {b})
  {
    var x, y := ErasedLine(c, ErasedLine(c, line, bs), {b}), ErasedLine(c, line, bs + {b});
    assert x.pages == y.pages;
    assert x.blocks == y.blocks;
  }

  lemma ErasedNone(c: Config, line: Line)
    requires |line.pages| == |c.blockOf|
    ensures ErasedLine(c, line, {}) == line
  {
    var x := ErasedLine(c, line, {});
    assert x.pages == line.pages;
    assert x.blocks == line.blocks;
  }
}

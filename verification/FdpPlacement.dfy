/** Where the pages of a handle lie: on lines of that handle until a collection moves them. */
module FdpPlacement {
  import opened Common
  import opened FtlModel
  import opened FtlInv
  import opened FtlAppend
  import opened FtlInvalidate
  import opened FtlGc
  import opened FtlView
  import opened FtlStats
  import opened FtlInit
  import opened FdpDevice
  import opened FdpTheorems
  import opened FdpAccounting
  import P = Pqueue

  // ---------------------------------------------------------------- open lines

  /** After every run the open line of each handle carries its number, and that of the
      collector none. */
  lemma FrontierTags(k: Params, cmds: seq<WriteCmd>, i: nat, r: nat)
    requires ParamsOk(k) && i < k.np && r <= k.c.n && Run(k, Start(k), cmds).Ok?
    ensures
      var s := Run(k, Start(k), cmds).value.parts[i];
      s.lines[s.wp[r].line].ruh == if r < k.c.n then r else -1
  {
    RunSafe(k, cmds);
    hide Run, Start, LedgerOk, CountersOk, HeapOk, MapOk;
    var s := Run(k, Start(k), cmds).value.parts[i];
    assert OpenOk(k.c, s, r);
  }

  // ---------------------------------------------------------------- one page write

  /** Every mapped page lies on a line of the handle that owns it. */
  ghost predicate Placed(c: Config, s: Ftl, owner: map<nat, nat>)
    requires Shape(c, s)
  {
    forall m: nat :: m < |s.maptbl| && s.maptbl[m].Some? ==> PlacedAt(c, s, owner, m)
  }

  ghost predicate PlacedAt(c: Config, s: Ftl, owner: map<nat, nat>, m: nat)
    requires Shape(c, s) && m < |s.maptbl| && s.maptbl[m].Some?
  {
    var a := s.maptbl[m].value;
    InRange(c, a) && m in owner && s.lines[a.line].ruh == owner[m]
  }

  lemma SupersedePlaced(c: Config, s: Ftl, lpn: nat, owner: map<nat, nat>)
    requires Shape(c, s) && lpn < c.ttPgs && Supersede(c, s, lpn).Ok? && Placed(c, s, owner)
    ensures Placed(c, Supersede(c, s, lpn).value, owner)
  {
    hide P.ChangePriority, P.Insert, Remove;
    var s1 := Supersede(c, s, lpn).value;
    forall m: nat | m < |s1.maptbl| && s1.maptbl[m].Some?
      ensures PlacedAt(c, s1, owner, m)
    {
      assert PlacedAt(c, s, owner, m);
    }
  }

  /** A mapped page other than the one in transit is not on a free line. */
  lemma MappedNotFree(c: Config, s: Ftl, x: int, m: nat)
    requires Core(c, s, Idle, x) && m < |s.maptbl| && m != x && s.maptbl[m].Some? && s.free != []
    ensures s.maptbl[m].value.line != s.free[0]
  {
    assert Backs(c, s.lines, Idle, s.maptbl[m].value, m);
    assert FreeLine(c, s.lines[s.free[0]], s.pq.pri[s.free[0]]);
  }

  lemma AppendPlaced(c: Config, s: Ftl, ruh: nat, lpn: nat, data: int, owner: map<nat, nat>)
    requires Core(c, s, Idle, lpn) && ruh < c.n && lpn < c.ttPgs && Append(c, s, ruh, lpn, data).Ok?
    requires Placed(c, s, owner)
    ensures Placed(c, Append(c, s, ruh, lpn, data).value, owner[lpn := ruh])
  {
    hide Append, LedgerOk, CountersOk, HeapOk, MapOk;
    var s1 := Append(c, s, ruh, lpn, data).value;
    AppendPages(c, s, ruh, lpn, data);
    AppendTag(c, s, ruh);
    forall m: nat | m < |s1.maptbl| && s1.maptbl[m].Some?
      ensures PlacedAt(c, s1, owner[lpn := ruh], m)
    {
      if m != lpn {
        assert PlacedAt(c, s, owner, m);
        if s.free != [] {
          MappedNotFree(c, s, lpn, m);
        }
      }
    }
  }

  /** The frontier's line is tagged with its handle and is not a free one. */
  lemma AppendTag(c: Config, s: Ftl, ruh: nat)
    requires Shape(c, s) && LinesOk(c, s) && LedgerOk(c, s, Idle) && HeapOk(s.pq) && ruh < c.n
    ensures s.lines[s.wp[ruh].line].ruh == ruh && s.wp[ruh].line !in s.free
  {
    assert OpenOk(c, s, ruh);
    OpenApart(c, s, Idle, ruh);
  }

  lemma SpendQuiet(c: Config, s: Ftl)
    requires Shape(c, s) && !Collects(c, s)
    ensures SpendCredit(c, s).Ok?
    ensures SpendCredit(c, s).value.lines == s.lines && SpendCredit(c, s).value.maptbl == s.maptbl
  {
  }

  /** A page write that sets off no collection puts its page on a line of its handle and moves
      no other. */
  lemma WritePlaced(c: Config, s: Ftl, lpn: nat, ruh: nat, data: int, owner: map<nat, nat>)
    requires Inv(c, s) && SweepOk(c) && lpn < c.ttPgs && ruh < c.n && WritePage(c, s, lpn, ruh, data).Ok?
    requires WriteCollects(c, s, lpn, ruh, data) == 0 && Placed(c, s, owner)
    ensures Placed(c, WritePage(c, s, lpn, ruh, data).value, owner[lpn := ruh])
  {
    hide LedgerOk, CountersOk, HeapOk, LinesOk, SweptOk, MapOk, BlocksOk, Supersede, Append, SpendCredit, Collects;
    SupersedeKeeps(c, s, lpn);
    SupersedePlaced(c, s, lpn, owner);
    var s1 := Supersede(c, s, lpn).value;
    AppendKeeps(c, s1, Idle, ruh, lpn, data);
    AppendPlaced(c, s1, ruh, lpn, data, owner);
    var s2 := Append(c, s1, ruh, lpn, data).value;
    SpendQuiet(c, s2);
    PlacedSame(c, s2, SpendCredit(c, s2).value, owner[lpn := ruh]);
  }

  lemma PlacedSame(c: Config, s: Ftl, s1: Ftl, owner: map<nat, nat>)
    requires Shape(c, s) && Shape(c, s1) && Placed(c, s, owner) && s1.lines == s.lines && s1.maptbl == s.maptbl
    ensures Placed(c, s1, owner)
  {
    forall m: nat | m < |s1.maptbl| && s1.maptbl[m].Some?
      ensures PlacedAt(c, s1, owner, m)
    {
      assert PlacedAt(c, s, owner, m);
    }
  }

  // ---------------------------------------------------------------- whole runs

  ghost predicate DevPlaced(k: Params, d: Device, owners: seq<map<nat, nat>>)
    requires DevShape(k, d)
  {
    |owners| == k.np && forall i :: 0 <= i < k.np ==> Placed(k.c, d.parts[i], owners[i])
  }

  lemma DoPlaced(k: Params, d: Device, op: Op, owners: seq<map<nat, nat>>)
    requires DevInv(k, d) && ConfigOk(k.c) && OpOk(k, op) && Do(k, d, op).Ok? && OpGcs(k, d, op) == 0
    requires DevPlaced(k, d, owners)
    ensures DevPlaced(k, Do(k, d, op).value, Own(k, owners, op))
  {
    hide WritePage, WriteCollects, Placed, Core;
    if op.Write? {
      var s := Target(k, d, op.part);
      TargetInv(k, d, op.part);
      PlacedSame(k.c, d.parts[op.part], s, owners[op.part]);
      SweepHolds(k);
      WritePlaced(k.c, s, op.local, op.ruh, op.data, owners[op.part]);
    }
  }

  lemma SweepHolds(k: Params)
    requires ConfigOk(k.c)
    ensures SweepOk(k.c)
  {
  }

  lemma {:induction false} DoAllPlaced(k: Params, d: Device, ops: seq<Op>, owners: seq<map<nat, nat>>)
    requires DevInv(k, d) && ConfigOk(k.c) && OpsOk(k, ops) && DoAll(k, d, ops).Ok? && OpsGcs(k, d, ops) == 0
    requires DevPlaced(k, d, owners)
    ensures DevPlaced(k, DoAll(k, d, ops).value, OwnAll(k, owners, ops))
    decreases |ops|
  {
    hide Inv, ConfigOk, Do, OpGcs, Placed, Own;
    if ops != [] {
      DoKeeps(k, d, ops[0]);
      DoPlaced(k, d, ops[0], owners);
      DoAllPlaced(k, Do(k, d, ops[0]).value, ops[1..], Own(k, owners, ops[0]));
    }
  }

  lemma StartPlaced(k: Params)
    requires ParamsOk(k)
    ensures DevPlaced(k, Start(k), NoOwners(k))
  {
  }

  /** In a run without a collection every mapped page lies on a line of the handle of its
      latest accepted write. */
  lemma PlacedExactly(k: Params, cmds: seq<WriteCmd>, i: nat, m: nat)
    requires ParamsOk(k) && Run(k, Start(k), cmds).Ok? && Collections(k, cmds) == 0 && i < k.np && m < k.c.ttPgs
    requires Run(k, Start(k), cmds).value.parts[i].maptbl[m].Some?
    ensures
      var s := Run(k, Start(k), cmds).value.parts[i];
      var a, w := s.maptbl[m].value, LastWriter(k, cmds, Global(k, i, m));
      && InRange(k.c, a) && w.Some?
      && s.lines[a.line].ruh == if w.value.dtype == DIRECTIVE_PLACEMENT then w.value.dspec else 0
  {
    hide Run, DoAll, OpsGcs, RunOps, OwnAll, Inv, ConfigOk, LastWriter, Start;
    var d := Start(k);
    StartInv(k);
    StartPlaced(k);
    RunIsOps(k, d, cmds);
    var ops := RunOps(k, d, cmds);
    DoAllPlaced(k, d, ops, NoOwners(k));
    assert PlacedAt(k.c, Run(k, d, cmds).value.parts[i], OwnAll(k, NoOwners(k), ops)[i], m);
    OwnAllLast(k, NoOwners(k), ops, i, m);
    Unstripe(k, i, m);
    RunLast(k, d, cmds, Global(k, i, m));
  }
}

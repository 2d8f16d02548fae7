/** The pace of garbage collection over every run: a collection is due in a partition exactly
    when as many host pages have been written to it as the last collection there reclaimed. */
module FdpCredits {
  import opened Common
  import opened FtlModel
  import opened FtlInv
  import opened FtlStats
  import opened FtlCredits
  import opened FtlInit
  import opened FdpDevice
  import opened FdpTheorems

  ghost predicate WritesTo(op: Op, i: nat) { op.Write? && op.part == i }

  ghost function WriteCount(ops: seq<Op>, i: nat): nat {
    if ops == [] then 0 else WriteCount(ops[..|ops| - 1], i) + if WritesTo(ops[|ops| - 1], i) then 1 else 0
  }

  /** The device after the given operations from the start. */
  ghost function After(k: Params, ops: seq<Op>): (r: Outcome<Device>)
    requires ParamsOk(k) && OpsOk(k, ops)
    ensures r.Ok? ==> DevShape(k, r.value)
  {
    DoAll(k, Start(k), ops)
  }

  /** Operation j writes the page of partition i that uses up its last credit. */
  ghost predicate Due(k: Params, ops: seq<Op>, i: nat, j: nat)
    requires ParamsOk(k) && OpsOk(k, ops) && i < k.np && j < |ops|
  {
    var r := After(k, ops[..j]);
    WritesTo(ops[j], i) && r.Ok? && r.value.parts[i].credits == 1
  }

  /** The partition at the point where the write op checks its credit. */
  ghost function Checks(k: Params, d: Device, op: Op): (r: Outcome<Ftl>)
    requires DevShape(k, d) && OpOk(k, op) && op.Write?
    ensures r.Ok? ==> Shape(k.c, r.value)
  {
    Spender(k.c, Target(k, d, op.part), op.local, op.ruh, op.data)
  }

  /** In state d, operation op collects a line of partition i. */
  ghost predicate Reclaims(k: Params, d: Device, op: Op, i: nat)
    requires DevShape(k, d) && OpOk(k, op)
  {
    WritesTo(op, i) && Checks(k, d, op).Ok? && Collects(k.c, Checks(k, d, op).value)
  }

  /** What the last collection in partition i reclaimed: the INVALID pages of its victim.
      Before the first it is a whole line. */
  ghost function LastReclaimed(k: Params, ops: seq<Op>, i: nat): nat
    requires ParamsOk(k) && OpsOk(k, ops) && i < k.np
    decreases |ops|
  {
    if ops == [] then k.c.p
    else
      var n := |ops| - 1;
      var r := After(k, ops[..n]);
      if r.Ok? && Reclaims(k, r.value, ops[n], i) && VictimAt(Checks(k, r.value, ops[n]).value)
      then VictimInvalid(Checks(k, r.value, ops[n]).value)
      else LastReclaimed(k, ops[..n], i)
  }

  ghost predicate VictimAt(s: Ftl) { 1 < |s.pq.d| && s.pq.d[1] < |s.lines| }

  /** Host pages written to partition i since its credits last ran out. */
  ghost function SinceDue(k: Params, ops: seq<Op>, i: nat): nat
    requires ParamsOk(k) && OpsOk(k, ops) && i < k.np
    decreases |ops|
  {
    if ops == [] then 0
    else
      var n := |ops| - 1;
      if Due(k, ops, i, n) then 0
      else SinceDue(k, ops[..n], i) + if WritesTo(ops[n], i) then 1 else 0
  }

  // ---------------------------------------------------------------- one operation

  lemma DoCredits(k: Params, d: Device, op: Op, i: nat)
    requires DevInv(k, d) && ConfigOk(k.c) && OpOk(k, op) && i < k.np && Do(k, d, op).Ok?
    ensures
      var s, s1 := d.parts[i], Do(k, d, op).value.parts[i];
      && (!WritesTo(op, i) ==> s1.credits == s.credits && s1.refill == s.refill)
      && (WritesTo(op, i) ==>
        && Checks(k, d, op).Ok? && Spends(k.c, Checks(k, d, op).value, s1)
        && Checks(k, d, op).value.credits == s.credits && Checks(k, d, op).value.refill == s.refill
        && (Reclaims(k, d, op, i) ==> s.credits == 1))
  {
    hide Core, ConfigOk, WritePage, Spender, Collects, Spends;
    if op.Write? {
      TargetInv(k, d, op.part);
      SweepConfig(k);
      WriteGrants(k.c, Target(k, d, op.part), op.local, op.ruh, op.data);
    }
  }

  lemma SweepConfig(k: Params)
    requires ConfigOk(k.c)
    ensures SweepOk(k.c)
  {
  }

  // ---------------------------------------------------------------- whole runs

  lemma Prefix(k: Params, ops: seq<Op>, m: nat)
    requires ParamsOk(k) && OpsOk(k, ops) && m <= |ops| && After(k, ops).Ok?
    ensures OpsOk(k, ops[..m]) && After(k, ops[..m]).Ok?
  {
    hide DoAll;
    assert ops == ops[..m] + ops[m..];
    DoAllConcat(k, Start(k), ops[..m], ops[m..]);
  }

  lemma LastStep(k: Params, ops: seq<Op>)
    requires ParamsOk(k) && OpsOk(k, ops) && ops != [] && After(k, ops).Ok?
    ensures
      var n := |ops| - 1;
      && OpsOk(k, ops[..n]) && After(k, ops[..n]).Ok? && DevInv(k, After(k, ops[..n]).value)
      && After(k, ops) == Do(k, After(k, ops[..n]).value, ops[n])
  {
    hide DevInv, Do;
    var n := |ops| - 1;
    assert ops == ops[..n] + [ops[n]];
    DoAllConcat(k, Start(k), ops[..n], [ops[n]]);
    StartInv(k);
    DoAllKeeps(k, Start(k), ops[..n]);
    DoAllOne(k, After(k, ops[..n]).value, ops[n]);
  }

  lemma DoAllOne(k: Params, d: Device, op: Op)
    requires DevShape(k, d) && OpOk(k, op)
    ensures OpsOk(k, [op]) && DoAll(k, d, [op]) == Do(k, d, op)
  {
    DoAllCons(k, d, op, []);
    assert [op] + [] == [op];
  }

  /** The credits of a partition are what its last collection reclaimed, less the host pages
      written since the credits ran out. */
  lemma {:induction false} CreditPace(k: Params, ops: seq<Op>, i: nat)
    requires ParamsOk(k) && OpsOk(k, ops) && i < k.np && After(k, ops).Ok?
    ensures
      var s := After(k, ops).value.parts[i];
      s.refill == LastReclaimed(k, ops, i) && s.credits == LastReclaimed(k, ops, i) - SinceDue(k, ops, i) >= 1
    decreases |ops|
  {
    if ops == [] {
      StartCredits(k, i);
    } else {
      hide DoAll, Do, DevInv, Collects, Checks;
      var n := |ops| - 1;
      LastStep(k, ops);
      CreditPace(k, ops[..n], i);
      DoCredits(k, After(k, ops[..n]).value, ops[n], i);
      CreditsPositive(k, ops, i);
    }
  }

  lemma StartCredits(k: Params, i: nat)
    requires ParamsOk(k) && i < k.np
    ensures After(k, []).Ok? && After(k, []).value.parts[i].credits == k.c.p
    ensures After(k, []).value.parts[i].refill == k.c.p >= 1
  {
  }

  lemma CreditsPositive(k: Params, ops: seq<Op>, i: nat)
    requires ParamsOk(k) && OpsOk(k, ops) && i < k.np && After(k, ops).Ok?
    ensures After(k, ops).value.parts[i].credits >= 1
  {
    StartInv(k);
    DoAllKeeps(k, Start(k), ops);
  }

  /** No write of partition i between positions a and b is due. */
  ghost predicate NoneDue(k: Params, ops: seq<Op>, i: nat, a: nat, b: nat)
    requires ParamsOk(k) && OpsOk(k, ops) && i < k.np && b <= |ops|
  {
    forall j: nat :: a <= j < b ==> !Due(k, ops, i, j)
  }

  /** The credits of partition i run out at a and next at b. */
  ghost predicate NextDue(k: Params, ops: seq<Op>, i: nat, a: nat, b: nat)
    requires ParamsOk(k) && OpsOk(k, ops) && i < k.np && a < b < |ops|
  {
    Due(k, ops, i, a) && Due(k, ops, i, b) && NoneDue(k, ops, i, a + 1, b)
  }

  lemma DuePrefix(k: Params, ops: seq<Op>, i: nat, j: nat, m: nat)
    requires ParamsOk(k) && OpsOk(k, ops) && i < k.np && j < m <= |ops|
    ensures Due(k, ops[..m], i, j) == Due(k, ops, i, j)
  {
    assert ops[..m][..j] == ops[..j];
  }

  /** A write that is not due collects nothing, and is one more since the last that was. */
  lemma NotDueStep(k: Params, ops: seq<Op>, i: nat, m: nat)
    requires ParamsOk(k) && OpsOk(k, ops) && i < k.np && m < |ops| && After(k, ops).Ok? && !Due(k, ops, i, m)
    ensures LastReclaimed(k, ops[..m + 1], i) == LastReclaimed(k, ops[..m], i)
    ensures SinceDue(k, ops[..m + 1], i) == SinceDue(k, ops[..m], i) + if WritesTo(ops[m], i) then 1 else 0
  {
    hide DoAll, Do, DevInv, Collects, Checks;
    Prefix(k, ops, m + 1);
    LastStep(k, ops[..m + 1]);
    assert ops[..m + 1][..m] == ops[..m];
    DuePrefix(k, ops, i, m, m + 1);
    DoCredits(k, After(k, ops[..m]).value, ops[m], i);
  }

  lemma WriteCountNext(ops: seq<Op>, i: nat, a: nat, m: nat)
    requires a <= m < |ops|
    ensures WriteCount(ops[a..m + 1], i) == WriteCount(ops[a..m], i) + if WritesTo(ops[m], i) then 1 else 0
  {
    assert ops[a..m + 1][..m - a] == ops[a..m];
  }

  lemma {:induction false} UntilDue(k: Params, ops: seq<Op>, i: nat, a: nat, m: nat)
    requires ParamsOk(k) && OpsOk(k, ops) && i < k.np && a <= m <= |ops| && After(k, ops).Ok?
    requires NoneDue(k, ops, i, a, m) && SinceDue(k, ops[..a], i) == 0
    ensures LastReclaimed(k, ops[..m], i) == LastReclaimed(k, ops[..a], i)
    ensures SinceDue(k, ops[..m], i) == WriteCount(ops[a..m], i)
    decreases m - a
  {
    hide After, LastReclaimed, SinceDue;
    if m > a {
      UntilDue(k, ops, i, a, m - 1);
      NotDueStep(k, ops, i, m - 1);
      WriteCountNext(ops, i, a, m - 1);
    }
  }

  /** Between a point at which the credits of a partition run out and the next, exactly as
      many host pages are written to it as its last collection reclaimed. */
  lemma BetweenDue(k: Params, ops: seq<Op>, i: nat, a: nat, b: nat)
    requires ParamsOk(k) && OpsOk(k, ops) && i < k.np && a < b < |ops| && After(k, ops).Ok?
    requires NextDue(k, ops, i, a, b)
    ensures WriteCount(ops[a + 1..b + 1], i) == LastReclaimed(k, ops[..a + 1], i)
  {
    hide LastReclaimed, DoAll, After;
    DuePrefix(k, ops, i, a, a + 1);
    SinceReset(k, ops[..a + 1], i);
    UntilDue(k, ops, i, a + 1, b);
    DueCount(k, ops, i, b);
    WriteCountNext(ops, i, a + 1, b);
  }

  /** The first time they run out after a whole line of host pages. */
  lemma FirstDue(k: Params, ops: seq<Op>, i: nat, b: nat)
    requires ParamsOk(k) && OpsOk(k, ops) && i < k.np && b < |ops| && After(k, ops).Ok?
    requires Due(k, ops, i, b) && NoneDue(k, ops, i, 0, b)
    ensures WriteCount(ops[..b + 1], i) == k.c.p
  {
    hide DoAll, After;
    assert ops[..0] == [] && ops[0..b + 1] == ops[..b + 1];
    UntilDue(k, ops, i, 0, b);
    DueCount(k, ops, i, b);
    WriteCountNext(ops, i, 0, b);
  }

  lemma SinceReset(k: Params, ops: seq<Op>, i: nat)
    requires ParamsOk(k) && OpsOk(k, ops) && i < k.np && ops != [] && Due(k, ops, i, |ops| - 1)
    ensures SinceDue(k, ops, i) == 0
  {
  }

  lemma DueCount(k: Params, ops: seq<Op>, i: nat, b: nat)
    requires ParamsOk(k) && OpsOk(k, ops) && i < k.np && b < |ops| && Due(k, ops, i, b)
    ensures SinceDue(k, ops[..b], i) + 1 == LastReclaimed(k, ops[..b], i) && WritesTo(ops[b], i)
  {
    hide After;
    CreditPace(k, ops[..b], i);
  }

  /** A write collects exactly when its partition's credits run out, few lines are free and
      some line has an INVALID page and is closed. */
  lemma ReclaimsWhenDue(k: Params, ops: seq<Op>, i: nat, j: nat)
    requires ParamsOk(k) && OpsOk(k, ops) && i < k.np && j < |ops| && After(k, ops).Ok?
    ensures OpsOk(k, ops[..j]) && After(k, ops[..j]).Ok?
    ensures WritesTo(ops[j], i) ==> Checks(k, After(k, ops[..j]).value, ops[j]).Ok?
    ensures
      var d := After(k, ops[..j]).value;
      Reclaims(k, d, ops[j], i) <==>
        && Due(k, ops, i, j)
        && Checks(k, d, ops[j]).value.freeCnt <= k.c.threshold && 1 < |Checks(k, d, ops[j]).value.pq.d|
  {
    hide DoAll, Do, DevInv, Checks;
    Prefix(k, ops, j + 1);
    LastStep(k, ops[..j + 1]);
    assert ops[..j + 1][..j] == ops[..j];
    DoCredits(k, After(k, ops[..j]).value, ops[j], i);
  }

  /** The same for the page writes of a run of commands. */
  lemma RunPace(k: Params, cmds: seq<WriteCmd>, i: nat)
    requires ParamsOk(k) && i < k.np && Run(k, Start(k), cmds).Ok?
    ensures
      var ops := RunOps(k, Start(k), cmds);
      var s := Run(k, Start(k), cmds).value.parts[i];
      && OpsOk(k, ops) && After(k, ops) == Run(k, Start(k), cmds)
      && s.credits == LastReclaimed(k, ops, i) - SinceDue(k, ops, i)
      && (forall a: nat, b: nat :: a < b < |ops| && NextDue(k, ops, i, a, b) ==>
            WriteCount(ops[a + 1..b + 1], i) == LastReclaimed(k, ops[..a + 1], i))
      && (forall b: nat :: b < |ops| && Due(k, ops, i, b) && NoneDue(k, ops, i, 0, b) ==>
            WriteCount(ops[..b + 1], i) == k.c.p)
  {
    hide Due, NextDue, NoneDue, LastReclaimed, SinceDue, WriteCount, Run, RunOps, DoAll;
    RunIsOps(k, Start(k), cmds);
    var ops := RunOps(k, Start(k), cmds);
    CreditPace(k, ops, i);
    forall a: nat, b: nat | a < b < |ops| && NextDue(k, ops, i, a, b)
      ensures WriteCount(ops[a + 1..b + 1], i) == LastReclaimed(k, ops[..a + 1], i)
    {
      BetweenDue(k, ops, i, a, b);
    }
    forall b: nat | b < |ops| && Due(k, ops, i, b) && NoneDue(k, ops, i, 0, b)
      ensures WriteCount(ops[..b + 1], i) == k.c.p
    {
      FirstDue(k, ops, i, b);
    }
  }
}

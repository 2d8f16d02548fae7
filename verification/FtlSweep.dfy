/** Facts about a sweep of FtlModel that the loops of do_gc rely on. */
module FtlSweep {
  import opened Finite
  import opened Geometry
  import opened FtlModel
  import opened FtlLayout
  import P = Pqueue

  /** The victim heap has not outgrown its array. */
  ghost predicate Fits(c: Config, s: Ftl) { |s.pq.d| <= c.lines + 1 }

  /** The rest of a sweep succeeds. */
  ghost predicate CanSweep(c: Config, s: Ftl, v: nat, steps: seq<SweepStep>) {
    && Shape(c, s) && v < c.lines
    && Sweep(c, s, v, steps).Ok? && Fits(c, Sweep(c, s, v, steps).value)
  }

  /** The garbage collector will not append to line v. */
  ghost predicate VictimAlone(c: Config, s: Ftl, v: nat) {
    |s.wp| == c.n + 1 && s.wp[c.n].line != v && v !in s.free
  }

  /** No page of line v in a block from b on is free. */
  ghost predicate Unerased(c: Config, s: Ftl, v: nat, b: nat) {
    && v < |s.lines| && |s.lines[v].pages| == |c.blockOf|
    && forall k :: 0 <= k < |c.blockOf| && c.blockOf[k] >= b ==> s.lines[v].pages[k].status != PgFree
  }

  lemma AppendSpares(c: Config, s: Ftl, lpn: nat, data: int, v: nat)
    requires Shape(c, s) && v < c.lines && VictimAlone(c, s, v) && Append(c, s, c.n, lpn, data).Ok?
    ensures
      var r := Append(c, s, c.n, lpn, data).value;
      VictimAlone(c, r, v) && r.lines[v] == s.lines[v] && |r.pq.d| >= |s.pq.d|
  {
    hide P.Insert, Remove;
  }

  lemma GcWriteSpares(c: Config, s: Ftl, a: Ppa, v: nat)
    requires Shape(c, s) && InRange(c, a) && v < c.lines && VictimAlone(c, s, v) && GcWritePage(c, s, a).Ok?
    ensures
      var r := GcWritePage(c, s, a).value;
      VictimAlone(c, r, v) && r.lines[v] == s.lines[v]
  {
    hide Append;
    var pg := PageAt(c, s.lines, a);
    AppendSpares(c, s, pg.lpn.value, pg.data, v);
  }

  lemma AppendGrows(c: Config, s: Ftl, i: nat, lpn: nat, data: int)
    requires Shape(c, s) && i <= c.n && Append(c, s, i, lpn, data).Ok?
    ensures |Append(c, s, i, lpn, data).value.pq.d| >= |s.pq.d|
  {
    hide P.Insert;
  }

  lemma StepGrows(c: Config, s: Ftl, v: nat, st: SweepStep)
    requires Shape(c, s) && v < c.lines && Step(c, s, v, st).Ok?
    ensures |Step(c, s, v, st).value.pq.d| >= |s.pq.d|
  {
    hide Append;
    if st.Clean? && st.off < c.p && s.lines[v].pages[st.off].status == PgValid {
      var pg := PageAt(c, s.lines, Ppa(v, st.off));
      AppendGrows(c, s, c.n, pg.lpn.value, pg.data);
    }
  }

  /** A sweep only ever adds victims. */
  lemma {:induction false} SweepGrows(c: Config, s: Ftl, v: nat, steps: seq<SweepStep>)
    requires Shape(c, s) && v < c.lines && Sweep(c, s, v, steps).Ok?
    ensures |Sweep(c, s, v, steps).value.pq.d| >= |s.pq.d|
    decreases |steps|
  {
    hide Step;
    if steps != [] {
      StepGrows(c, s, v, steps[0]);
      SweepGrows(c, Step(c, s, v, steps[0]).value, v, steps[1..]);
    }
  }

  /** One step off a sweep. */
  lemma FirstStep(c: Config, s: Ftl, v: nat, st: SweepStep, rest: seq<SweepStep>)
    requires CanSweep(c, s, v, [st] + rest)
    ensures Step(c, s, v, st).Ok? && Fits(c, Step(c, s, v, st).value)
    ensures CanSweep(c, Step(c, s, v, st).value, v, rest)
    ensures Sweep(c, s, v, [st] + rest) == Sweep(c, Step(c, s, v, st).value, v, rest)
  {
    assert ([st] + rest)[0] == st && ([st] + rest)[1..] == rest;
    hide Step;
    SweepGrows(c, Step(c, s, v, st).value, v, rest);
  }

  /** The next page of clean_one_flashpg. */
  lemma CleanNext(g: Geo, c: Config, s: Ftl, v: nat, f: nat, ch: nat, lun: nat, i: nat)
    requires g.oneshot >= 1 && f < g.flashes && ch < g.nchs && lun < g.luns && i < g.flash
    requires CanSweep(c, s, v, StepsFrom(g, f, ch, lun, i))
    requires Offset(g, GcPage(g, f, ch, lun, i)) < c.p
    ensures
      var k := Offset(g, GcPage(g, f, ch, lun, i));
      var rest := StepsFrom(g, f, ch, lun, i + 1);
      if s.lines[v].pages[k].status == PgValid
      then var r := GcWritePage(c, s, Ppa(v, k));
           && r.Ok? && Fits(c, r.value) && CanSweep(c, r.value, v, rest)
           && Sweep(c, s, v, StepsFrom(g, f, ch, lun, i)) == Sweep(c, r.value, v, rest)
      else CanSweep(c, s, v, rest) && Sweep(c, s, v, StepsFrom(g, f, ch, lun, i)) == Sweep(c, s, v, rest)
  {
    var k := Offset(g, GcPage(g, f, ch, lun, i));
    NextStep(g, f, ch, lun, i);
    hide StepsFrom, CanSweep, Sweep, GcWritePage, Offset;
    FirstStep(c, s, v, Clean(k), StepsFrom(g, f, ch, lun, i + 1));
  }

  // ---------------------------------------------------------------- the loops of do_gc

  /** The blocks below this one have been erased when the loops reach LUN (ch, lun). */
  function EraseBound(g: Geo, f: nat, ch: nat, lun: nat): (r: nat) {
    if f + 1 < g.flashes then 0 else BlockAt(g, ch, lun)
  }

  /** The loops stand before LUN (ch, lun) in row f, and the rest of the sweep leads to goal. */
  ghost predicate AtSweep(g: Geo, c: Config, s: Ftl, v: nat, f: nat, ch: nat, lun: nat, goal: Outcome<Ftl>)
    requires g.oneshot >= 1 && f <= g.flashes && ch <= g.nchs && lun <= g.luns
  {
    && VictimAlone(c, s, v) && (f < g.flashes ==> Unerased(c, s, v, EraseBound(g, f, ch, lun)))
    && CanSweep(c, s, v, StepsFrom(g, f, ch, lun, 0))
    && Sweep(c, s, v, StepsFrom(g, f, ch, lun, 0)) == goal
  }

  lemma NextChannel(g: Geo, c: Config, s: Ftl, v: nat, f: nat, ch: nat, goal: Outcome<Ftl>)
    requires g.oneshot >= 1 && f < g.flashes && ch < g.nchs && AtSweep(g, c, s, v, f, ch, g.luns, goal)
    ensures AtSweep(g, c, s, v, f, ch + 1, 0, goal)
  {
    NextStep(g, f, ch, g.luns, 0);
    assert BlockAt(g, ch, g.luns) == BlockAt(g, ch + 1, 0) by {
      assert (ch + 1) * g.luns == ch * g.luns + g.luns;
    }
  }

  lemma NextRow(g: Geo, c: Config, s: Ftl, v: nat, f: nat, goal: Outcome<Ftl>)
    requires g.oneshot >= 1 && f < g.flashes && AtSweep(g, c, s, v, f, g.nchs, 0, goal)
    ensures AtSweep(g, c, s, v, f + 1, 0, 0, goal)
  {
    NextStep(g, f, g.nchs, 0, 0);
    hide StepsFrom, Sweep, CanSweep, VictimAlone;
    assert BlockAt(g, 0, 0) == 0;
  }

  lemma NextLun(g: Geo, c: Config, s: Ftl, v: nat, f: nat, ch: nat, lun: nat, goal: Outcome<Ftl>)
    requires g.oneshot >= 1 && f + 1 < g.flashes && ch < g.nchs && lun < g.luns
    requires VictimAlone(c, s, v) && Unerased(c, s, v, EraseBound(g, f, ch, lun))
    requires CanSweep(c, s, v, StepsFrom(g, f, ch, lun, g.flash))
    requires Sweep(c, s, v, StepsFrom(g, f, ch, lun, g.flash)) == goal
    ensures AtSweep(g, c, s, v, f, ch, lun + 1, goal)
  {
    NextStep(g, f, ch, lun, g.flash);
    assert [] + StepsFrom(g, f, ch, lun + 1, 0) == StepsFrom(g, f, ch, lun + 1, 0);
    hide StepsFrom, Sweep, CanSweep, VictimAlone;
  }

  lemma NextErase(g: Geo, c: Config, s: Ftl, v: nat, ch: nat, lun: nat, goal: Outcome<Ftl>)
    requires g.oneshot >= 1 && g.flashes >= 1 && ch < g.nchs && lun < g.luns
    requires VictimAlone(c, s, v) && Unerased(c, s, v, BlockAt(g, ch, lun))
    requires CanSweep(c, s, v, StepsFrom(g, g.flashes - 1, ch, lun, g.flash))
    requires Sweep(c, s, v, StepsFrom(g, g.flashes - 1, ch, lun, g.flash)) == goal
    ensures AtSweep(g, c, EraseBlock(c, s, v, BlockAt(g, ch, lun)), v, g.flashes - 1, ch, lun + 1, goal)
  {
    var b := BlockAt(g, ch, lun);
    NextStep(g, g.flashes - 1, ch, lun, g.flash);
    hide StepsFrom, Sweep, CanSweep;
    FirstStep(c, s, v, Erase(b), StepsFrom(g, g.flashes - 1, ch, lun + 1, 0));
    assert BlockAt(g, ch, lun + 1) == b + 1;
  }
}

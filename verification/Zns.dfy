/** The zoned namespace (zns_read_write.c, zns_mgmt_send.c, zns_ftl.h) without the zone
    random write area: zones, their write pointers and the open and active resources.

    The write buffer's answer is an input.  Zone capacity is zone size, as in
    __init_descriptor. */
module Zns {
  import opened Common
  import opened Geometry

  datatype ZoneState = Empty | OpenedImpl | OpenedExpl | Closed | ReadOnly | Full | Offline

  datatype Zone = Zone(state: ZoneState, wp: nat)

  datatype Status = Success | Boundary | ErrFull | ErrReadOnly | ErrOffline | InvalidWrite
                  | NoActiveZone | NoOpenZone | InvalidTransition

  datatype Action = CloseZone | FinishZone | OpenZone | ResetZone | OfflineZone

  predicate Opened(z: Zone) { z.state == OpenedImpl || z.state == OpenedExpl }
  predicate Active(z: Zone) { Opened(z) || z.state == Closed }

  // ---------------------------------------------------------------- counting zones

  ghost function NumOpened(zs: seq<Zone>): nat {
    if zs == [] then 0 else NumOpened(zs[..|zs| - 1]) + if Opened(zs[|zs| - 1]) then 1 else 0
  }

  ghost function NumActive(zs: seq<Zone>): nat {
    if zs == [] then 0 else NumActive(zs[..|zs| - 1]) + if Active(zs[|zs| - 1]) then 1 else 0
  }

  function One(b: bool): (r: nat) { if b then 1 else 0 }

  lemma {:induction false} CountUpdate(zs: seq<Zone>, i: nat, z: Zone)
    requires i < |zs|
    ensures NumOpened(zs[i := z]) + One(Opened(zs[i])) == NumOpened(zs) + One(Opened(z))
    ensures NumActive(zs[i := z]) + One(Active(zs[i])) == NumActive(zs) + One(Active(z))
  {
    var n := |zs| - 1;
    if i < n {
      CountUpdate(zs[..n], i, z);
      assert zs[i := z][..n] == zs[..n][i := z];
    } else {
      assert zs[i := z][..n] == zs[..n];
    }
  }

  lemma {:induction false} CountPositive(zs: seq<Zone>, i: nat)
    requires i < |zs|
    ensures One(Opened(zs[i])) <= NumOpened(zs) && One(Active(zs[i])) <= NumActive(zs)
  {
    var n := |zs| - 1;
    if i < n {
      CountPositive(zs[..n], i);
    }
  }

  lemma {:induction false} CountNone(zs: seq<Zone>)
    ensures (forall i :: 0 <= i < |zs| ==> !Opened(zs[i])) ==> NumOpened(zs) == 0
    ensures (forall i :: 0 <= i < |zs| ==> !Active(zs[i])) ==> NumActive(zs) == 0
  {
    if zs != [] {
      CountNone(zs[..|zs| - 1]);
    }
  }

  // ---------------------------------------------------------------- one zone

  /** The LBAs from lo up to hi. */
  ghost function Span(lo: nat, hi: nat): (r: set<nat>)
    ensures forall x: nat :: x in r <==> lo <= x < hi
    decreases hi
  {
    if lo >= hi then {} else Span(lo, hi - 1) + {hi - 1}
  }

  /** Zone zid, whose LBAs are [zid * size, (zid + 1) * size), has taken exactly the LBAs
      below its write pointer since it was last reset. */
  ghost predicate ZoneOk(z: Zone, start: nat, size: nat, taken: set<nat>) {
    && start <= z.wp <= start + size && taken == Span(start, z.wp)
    && (z.state == Empty ==> z.wp == start)
    && (Active(z) ==> z.wp < start + size)
    && z.state != ReadOnly && z.state != Offline
  }

  /** What a zone has taken is a whole number of write units. */
  ghost predicate UnitOk(z: Zone, start: nat, lbaBytes: nat, unitBytes: nat) {
    z.wp >= start && exists k: nat :: (z.wp - start) * lbaBytes == k * unitBytes
  }

  ghost predicate UnitsOk(zs: seq<Zone>, size: nat, lbaBytes: nat, unitBytes: nat) {
    forall i :: 0 <= i < |zs| ==> UnitOk(zs[i], i * size, lbaBytes, unitBytes)
  }

  lemma UnitsNext(zs: seq<Zone>, zid: nat, z: Zone, size: nat, lbaBytes: nat, unitBytes: nat)
    requires zid < |zs| && UnitsOk(zs, size, lbaBytes, unitBytes) && UnitOk(z, zid * size, lbaBytes, unitBytes)
    ensures UnitsOk(zs[zid := z], size, lbaBytes, unitBytes)
  {
  }

  lemma UnitsStay(zs: seq<Zone>, zid: nat, z: Zone, size: nat, lbaBytes: nat, unitBytes: nat)
    requires zid < |zs| && UnitsOk(zs, size, lbaBytes, unitBytes) && (z.wp == zs[zid].wp || z.wp == zid * size)
    ensures UnitsOk(zs[zid := z], size, lbaBytes, unitBytes)
  {
    assert UnitOk(zs[zid], zid * size, lbaBytes, unitBytes);
    if z.wp == zid * size {
      assert (z.wp - zid * size) * lbaBytes == 0 * unitBytes;
    }
  }

  lemma UnitsGrow(zs: seq<Zone>, zid: nat, z: Zone, nr: nat, size: nat, lbaBytes: nat, unitBytes: nat)
    requires zid < |zs| && UnitsOk(zs, size, lbaBytes, unitBytes) && z.wp == zs[zid].wp + nr
    requires unitBytes >= 1 && (nr * lbaBytes) % unitBytes == 0
    ensures UnitsOk(zs[zid := z], size, lbaBytes, unitBytes)
  {
    assert UnitOk(zs[zid], zid * size, lbaBytes, unitBytes);
    var a := zs[zid].wp - zid * size;
    var k: nat :| a * lbaBytes == k * unitBytes;
    UnitGrows(zs[zid], z, zid * size, nr, k, lbaBytes, unitBytes);
    hide UnitsOk, UnitOk;
    UnitsNext(zs, zid, z, size, lbaBytes, unitBytes);
  }

  lemma UnitGrows(z: Zone, z1: Zone, start: nat, nr: nat, k: nat, lbaBytes: nat, unitBytes: nat)
    requires start <= z.wp && (z.wp - start) * lbaBytes == k * unitBytes && z1.wp == z.wp + nr
    requires unitBytes >= 1 && (nr * lbaBytes) % unitBytes == 0
    ensures UnitOk(z1, start, lbaBytes, unitBytes)
  {
    UnitsAdd(z.wp - start, nr, lbaBytes, k, unitBytes);
    assert (z1.wp - start) * lbaBytes == (k + (nr * lbaBytes) / unitBytes) * unitBytes;
  }

  lemma UnitsAdd(a: nat, nr: nat, l: nat, k: nat, u: nat)
    requires u >= 1 && a * l == k * u && (nr * l) % u == 0
    ensures (a + nr) * l == (k + (nr * l) / u) * u
  {
    MixJoin(nr * l, u);
    assert (a + nr) * l == a * l + nr * l;
    assert (k + (nr * l) / u) * u == k * u + ((nr * l) / u) * u;
  }

  lemma UnitsStart(zs: seq<Zone>, size: nat, lbaBytes: nat, unitBytes: nat)
    requires forall i :: 0 <= i < |zs| ==> zs[i].wp == i * size
    ensures UnitsOk(zs, size, lbaBytes, unitBytes)
  {
    forall i | 0 <= i < |zs|
      ensures UnitOk(zs[i], i * size, lbaBytes, unitBytes)
    {
      assert (zs[i].wp - i * size) * lbaBytes == 0 * unitBytes;
    }
  }

  lemma ZoneOf(zid: nat, size: nat, lba: nat)
    requires size >= 1
    ensures lba / size == zid <==> zid * size <= lba < zid * size + size
  {
    if zid * size <= lba < zid * size + size {
      MixSplit(zid, size, lba - zid * size);
    } else {
      MixJoin(lba, size);
    }
  }

  function Moved(z: Zone, status: Status, state: ZoneState): (r: Zone) {
    if status == Success then z.(state := state) else z
  }

  /** The zone after a management command with the given status. */
  function Sent(action: Action, z: Zone, start: nat, status: Status): (r: Zone) {
    if status != Success then z
    else match action
      case CloseZone => z.(state := Closed)
      case FinishZone => z.(state := Full)
      case OpenZone => z.(state := OpenedExpl)
      case ResetZone => Zone(Empty, start)
      case OfflineZone => z.(state := Offline)
  }

  // ---------------------------------------------------------------- commands for all zones

  /** Zone z, which starts at `start`, after an action on all zones. */
  predicate SentZone(action: Action, z: Zone, z1: Zone, start: nat) {
    match action
    case ResetZone => z1 == Zone(Empty, start)
    case FinishZone => z1 == z.(state := Full)
    case CloseZone => z1 == if Opened(z) then z.(state := Closed) else z
    case OpenZone => z1 == z || z1 == z.(state := OpenedExpl)
    case OfflineZone => z1 == z
  }

  ghost predicate SentTo(action: Action, before: seq<Zone>, after: seq<Zone>, n: nat, size: nat) {
    && n <= |before| == |after|
    && forall i :: 0 <= i < n ==> SentZone(action, before[i], after[i], i * size)
  }

  /** Zone i asked for an open resource and did, or did not, get one. */
  predicate Got(before: seq<Zone>, after: seq<Zone>, i: nat)
    requires i < |before| == |after|
  {
    !Opened(before[i]) && Opened(after[i])
  }

  predicate Refused(before: seq<Zone>, after: seq<Zone>, i: nat, state: ZoneState)
    requires i < |before| == |after|
  {
    before[i].state == state && !Opened(after[i])
  }

  /** The open and active resources went to the first n zones first come, first served, until
      none was left that would have done: an empty zone needs one of each, a closed one
      only an open resource. */
  ghost predicate OpenedInTurn(before: seq<Zone>, after: seq<Zone>, n: nat, noOpen: bool, noActive: bool) {
    && n <= |before| == |after|
    && (forall i :: 0 <= i < n && Opened(before[i]) ==> after[i].state == OpenedExpl)
    && (forall i :: 0 <= i < n && Got(before, after, i) ==> before[i].state == Empty || before[i].state == Closed)
    && (forall i :: 0 <= i < n && Refused(before, after, i, Closed) ==> noOpen)
    && (forall i :: 0 <= i < n && Refused(before, after, i, Empty) ==> noOpen || noActive)
    && (forall i, j :: 0 <= i < j < n && Refused(before, after, i, Closed) ==> !Got(before, after, j))
    && (forall i, j :: 0 <= i < j < n && Refused(before, after, i, Empty) && Got(before, after, j) ==>
          before[j].state == Closed)
  }

  lemma NoneSent(action: Action, zs: seq<Zone>, size: nat)
    ensures SentTo(action, zs, zs, 0, size)
    ensures forall noOpen, noActive :: OpenedInTurn(zs, zs, 0, noOpen, noActive)
  {
  }

  lemma SentNext(action: Action, before: seq<Zone>, after: seq<Zone>, n: nat, size: nat, status: Status)
    requires SentTo(action, before, after, n, size) && n < |before| && after[n] == before[n]
    requires action == FinishZone || action == ResetZone ==> status == Success
    requires action == CloseZone ==> (status == Success) == Active(before[n])
    requires action == OfflineZone ==> status != Success
    ensures SentTo(action, before, after[n := Sent(action, before[n], n * size, status)], n + 1, size)
  {
  }

  lemma OpenNext(before: seq<Zone>, after: seq<Zone>, n: nat, noOpen: bool, noActive: bool,
                 noOpen1: bool, noActive1: bool, status: Status)
    requires OpenedInTurn(before, after, n, noOpen, noActive) && n < |before| && after[n] == before[n]
    requires (noOpen ==> noOpen1) && (noActive ==> noActive1)
    requires (status == Success) ==
      match before[n].state
      case Empty => !noOpen && !noActive
      case Closed => !noOpen
      case OpenedImpl | OpenedExpl => true
      case _ => false
    ensures OpenedInTurn(before, after[n := Sent(OpenZone, before[n], 0, status)], n + 1, noOpen1, noActive1)
  {
    var after1 := after[n := Sent(OpenZone, before[n], 0, status)];
    forall i | 0 <= i < n
      ensures Got(before, after1, i) == Got(before, after, i)
      ensures Refused(before, after1, i, Closed) == Refused(before, after, i, Closed)
      ensures Refused(before, after1, i, Empty) == Refused(before, after, i, Empty)
    {
    }
  }

  lemma SentCounts(action: Action, before: seq<Zone>, after: seq<Zone>, size: nat)
    requires SentTo(action, before, after, |after|, size)
    ensures action == ResetZone || action == FinishZone ==> NumOpened(after) == 0 && NumActive(after) == 0
    ensures action == CloseZone ==> NumOpened(after) == 0
  {
    CountNone(after);
  }

  /** A write of nr LBAs at `at` to zone zid: it lies within the zone, takes LBAs that were
      not taken since the last reset, and moves the write pointer of this zone only. */
  ghost predicate Wrote(before: seq<Zone>, taken: seq<set<nat>>, after: seq<Zone>, taken1: seq<set<nat>>,
                        zid: nat, size: nat, at: nat, nr: nat) {
    && zid < |before| == |after| == |taken|
    && zid * size <= at && at + nr <= zid * size + size
    && taken[zid] !! Span(at, at + nr)
    && taken1 == taken[zid := taken[zid] + Span(at, at + nr)]
    && after == before[zid := Zone(
      if at + nr == zid * size + size then Full
      else if Opened(before[zid]) then before[zid].state else OpenedImpl, at + nr)]
  }

  class ZnsFtl {
    const zones: array<Zone>
    const size: nat          // LBAs per zone
    const lbaBytes: nat
    const unitBytes: nat     // write_unit_size
    const maxOpen: nat
    const maxActive: nat
    var openCnt: nat
    var activeCnt: nat
    ghost var taken: seq<set<nat>>

    ghost predicate Valid()
      reads this, zones
    {
      && size >= 1 && unitBytes >= 1 && |taken| == zones.Length
      && openCnt == NumOpened(zones[..]) <= maxOpen
      && activeCnt == NumActive(zones[..]) <= maxActive
      && UnitsOk(zones[..], size, lbaBytes, unitBytes)
      && forall i :: 0 <= i < zones.Length ==> ZoneOk(zones[i], i * size, size, taken[i])
    }

    /** zns_init_ftl. */
    constructor (n: nat, size: nat, lbaBytes: nat, unitBytes: nat, maxOpen: nat, maxActive: nat)
      requires size >= 1 && unitBytes >= 1
      ensures Valid() && fresh(zones) && zones.Length == n && openCnt == 0 && activeCnt == 0
      ensures this.size == size && this.lbaBytes == lbaBytes && this.unitBytes == unitBytes
      ensures this.maxOpen == maxOpen && this.maxActive == maxActive
      ensures forall i :: 0 <= i < n ==> zones[i] == Zone(Empty, i * size) && taken[i] == {}
    {
      this.size, this.lbaBytes, this.unitBytes := size, lbaBytes, unitBytes;
      this.maxOpen, this.maxActive := maxOpen, maxActive;
      openCnt, activeCnt := 0, 0;
      var zs := new Zone[n];
      var zslba := 0;
      for i := 0 to n
        invariant zslba == i * size
        invariant forall k :: 0 <= k < i ==> zs[k] == Zone(Empty, k * size)
      {
        zs[i] := Zone(Empty, zslba);
        zslba := zslba + size;
        assert (i + 1) * size == i * size + size;
      }
      zones := zs;
      taken := seq(n, (i: nat) => {});
      new;
      CountNone(zones[..]);
      UnitsStart(zones[..], size, lbaBytes, unitBytes);
    }

    /** Everything but the counters and zone zid is as it should be. */
    lemma Recount(old_: seq<Zone>, zid: nat, z: Zone)
      requires zid < |old_| && zones[..] == old_[zid := z]
      ensures NumOpened(zones[..]) + One(Opened(old_[zid])) == NumOpened(old_) + One(Opened(z))
      ensures NumActive(zones[..]) + One(Active(old_[zid])) == NumActive(old_) + One(Active(z))
      ensures One(Opened(old_[zid])) <= NumOpened(old_) && One(Active(old_[zid])) <= NumActive(old_)
    {
      CountUpdate(old_, zid, z);
      CountPositive(old_, zid);
    }

    /** __zmgmt_send_close_zone. */
    method Close(zid: nat) returns (status: Status)
      requires Valid() && zid < zones.Length
      modifies this, zones
      ensures Valid() && taken == old(taken)
      ensures status == if Active(old(zones[zid])) then Success else InvalidTransition
      ensures zones[..] == old(zones[..])[zid := Moved(old(zones[zid]), status, Closed)]
      ensures openCnt <= old(openCnt) && activeCnt == old(activeCnt)
    {
      hide UnitsOk, NumOpened, NumActive, ZoneOk;
      ghost var zs := zones[..];
      CountPositive(zs, zid);
      ZoneStays(zones[zid], zid * size, size, taken[zid]);
      match zones[zid].state
      case OpenedImpl | OpenedExpl =>
        zones[zid] := zones[zid].(state := Closed);
        openCnt := openCnt - 1;
        Recount(zs, zid, zones[zid]);
        UnitsStay(zs, zid, zones[zid], size, lbaBytes, unitBytes);
        return Success;
      case Closed =>
        return Success;
      case _ =>
        return InvalidTransition;
    }

    /** __zmgmt_send_finish_zone. */
    method Finish(zid: nat) returns (status: Status)
      requires Valid() && zid < zones.Length
      modifies this, zones
      ensures Valid() && taken == old(taken) && status == Success
      ensures zones[..] == old(zones[..])[zid := old(zones[zid]).(state := Full)]
      ensures openCnt <= old(openCnt) && activeCnt <= old(activeCnt)
    {
      hide UnitsOk, NumOpened, NumActive, ZoneOk;
      ghost var zs := zones[..];
      CountPositive(zs, zid);
      ZoneStays(zones[zid], zid * size, size, taken[zid]);
      match zones[zid].state
      case OpenedImpl | OpenedExpl =>
        openCnt := openCnt - 1;
        activeCnt := activeCnt - 1;
        zones[zid] := zones[zid].(state := Full);
        Recount(zs, zid, zones[zid]);
        UnitsStay(zs, zid, zones[zid], size, lbaBytes, unitBytes);
        return Success;
      case Closed =>
        activeCnt := activeCnt - 1;
        zones[zid] := zones[zid].(state := Full);
        Recount(zs, zid, zones[zid]);
        UnitsStay(zs, zid, zones[zid], size, lbaBytes, unitBytes);
        return Success;
      case Empty =>
        zones[zid] := zones[zid].(state := Full);
        Recount(zs, zid, zones[zid]);
        UnitsStay(zs, zid, zones[zid], size, lbaBytes, unitBytes);
        return Success;
      case Full =>
        return Success;
      case _ =>
        return InvalidTransition;
    }

    /** What opening a zone takes: a free open resource unless it is open already, and a free
        active resource if it is empty. */
    predicate CanOpen(z: Zone)
      reads this
    {
      match z.state
      case Empty => activeCnt < maxActive && openCnt < maxOpen
      case Closed => openCnt < maxOpen
      case OpenedImpl | OpenedExpl => true
      case _ => false
    }

    /** __zmgmt_send_open_zone without a random write area. */
    method Open(zid: nat) returns (status: Status)
      requires Valid() && zid < zones.Length
      modifies this, zones
      ensures Valid() && taken == old(taken)
      ensures (status == Success) == old(CanOpen(zones[zid]))
      ensures status == NoActiveZone <==> old(zones[zid].state) == Empty && old(activeCnt) == maxActive
      ensures status == NoOpenZone <==>
        && old(openCnt) == maxOpen
        && (old(zones[zid].state) == Closed || (old(zones[zid].state) == Empty && old(activeCnt) < maxActive))
      ensures zones[..] == old(zones[..])[zid := Moved(old(zones[zid]), status, OpenedExpl)]
      ensures openCnt >= old(openCnt) && activeCnt >= old(activeCnt)
      ensures status != Success ==> openCnt == old(openCnt) && activeCnt == old(activeCnt)
    {
      ghost var zs := zones[..];
      hide UnitsOk, NumOpened, NumActive;
      match zones[zid].state {
        case Empty =>
          if activeCnt == maxActive {
            return NoActiveZone;
          }
          if openCnt == maxOpen {
            return NoOpenZone;
          }
          activeCnt := activeCnt + 1;
          openCnt := openCnt + 1;
        case Closed =>
          if openCnt == maxOpen {
            return NoOpenZone;
          }
          openCnt := openCnt + 1;
        case OpenedImpl =>
        case OpenedExpl =>
          return Success;
        case _ =>
          return InvalidTransition;
      }
      zones[zid] := zones[zid].(state := OpenedExpl);
      Recount(zs, zid, zones[zid]);
      UnitsStay(zs, zid, zones[zid], size, lbaBytes, unitBytes);
      return Success;
    }

    /** __zmgmt_send_reset_zone. */
    method Reset(zid: nat) returns (status: Status)
      requires Valid() && zid < zones.Length
      modifies this, zones
      ensures Valid() && status == Success
      ensures zones[..] == old(zones[..])[zid := Zone(Empty, zid * size)] && taken == old(taken)[zid := {}]
      ensures openCnt <= old(openCnt) && activeCnt <= old(activeCnt)
    {
      hide UnitsOk, NumOpened, NumActive, ZoneOk;
      ghost var zs := zones[..];
      CountPositive(zs, zid);
      ZoneStays(zones[zid], zid * size, size, taken[zid]);
      match zones[zid].state {
        case OpenedImpl | OpenedExpl =>
          openCnt := openCnt - 1;
          activeCnt := activeCnt - 1;
        case Closed =>
          activeCnt := activeCnt - 1;
        case Full | Empty =>
        case _ =>
          return InvalidTransition;
      }
      zones[zid] := Zone(Empty, zid * size);
      taken := taken[zid := {}];
      Recount(zs, zid, zones[zid]);
      UnitsStay(zs, zid, zones[zid], size, lbaBytes, unitBytes);
      return Success;
    }

    /** __zmgmt_send_offline_zone: no zone is ever read-only, so the transition is refused. */
    method TakeOffline(zid: nat) returns (status: Status)
      requires Valid() && zid < zones.Length
      ensures status == InvalidTransition
    {
      return InvalidTransition;
    }

    /** zns_zmgmt_send on one zone. */
    method Send(zid: nat, action: Action) returns (status: Status)
      requires Valid() && zid < zones.Length
      modifies this, zones
      ensures Valid() && taken == if action == ResetZone then old(taken)[zid := {}] else old(taken)
      ensures zones[..] == old(zones[..])[zid := Sent(action, old(zones[zid]), zid * size, status)]
      ensures action == FinishZone || action == ResetZone ==> status == Success
      ensures action == CloseZone ==> (status == Success) == Active(old(zones[zid]))
      ensures action == OpenZone ==> (status == Success) == old(CanOpen(zones[zid]))
      ensures action == OpenZone ==> openCnt >= old(openCnt) && activeCnt >= old(activeCnt)
      ensures action == OfflineZone ==> status == InvalidTransition
    {
      hide Valid;
      match action
      case CloseZone => status := Close(zid);
      case FinishZone => status := Finish(zid);
      case OpenZone => status := Open(zid);
      case ResetZone => status := Reset(zid);
      case OfflineZone => status := TakeOffline(zid);
    }

    /** zns_zmgmt_send with select_all: every zone in turn, whatever the status.  Afterwards no
        zone is left for which the action could still have done something. */
    method SendAll(action: Action)
      requires Valid()
      modifies this, zones
      ensures Valid() && SentTo(action, old(zones[..]), zones[..], zones.Length, size)
      ensures action == ResetZone ==> forall i :: 0 <= i < zones.Length ==> taken[i] == {}
      ensures action == ResetZone || action == FinishZone ==> openCnt == 0 && activeCnt == 0
      ensures action == CloseZone ==> openCnt == 0
      ensures action == OpenZone ==>
        OpenedInTurn(old(zones[..]), zones[..], zones.Length, openCnt == maxOpen, activeCnt == maxActive)
    {
      hide UnitsOk, NumOpened, NumActive, ZoneOk, SentTo, OpenedInTurn;
      ghost var before := zones[..];
      NoneSent(action, before, size);
      for zid := 0 to zones.Length
        invariant Valid() && SentTo(action, before, zones[..], zid, size)
        invariant forall i :: zid <= i < zones.Length ==> zones[i] == before[i]
        invariant action == ResetZone ==> forall i :: 0 <= i < zid ==> taken[i] == {}
        invariant action == OpenZone ==>
          OpenedInTurn(before, zones[..], zid, openCnt == maxOpen, activeCnt == maxActive)
      {
        ghost var zs, noOpen, noActive := zones[..], openCnt == maxOpen, activeCnt == maxActive;
        var status := Send(zid, action);
        SentNext(action, before, zs, zid, size, status);
        if action == OpenZone {
          OpenNext(before, zs, zid, noOpen, noActive, openCnt == maxOpen, activeCnt == maxActive, status);
        }
      }
      SentCounts(action, before, zones[..], size);
    }

    /** The status of a write of nr LBAs at slba to zone zid. */
    function WriteStatus(zid: nat, slba: nat, nr: nat): (r: Status)
      requires zid < zones.Length && size >= 1 && unitBytes >= 1
      reads this, zones
    {
      if (nr * lbaBytes) % unitBytes != 0 then InvalidWrite
      else if slba / size != (slba + nr - 1) / size then Boundary
      else if slba != zones[zid].wp then InvalidWrite
      else match zones[zid].state
        case Empty =>
          if activeCnt == maxActive then NoActiveZone else if openCnt == maxOpen then NoOpenZone else Success
        case Closed => if openCnt == maxOpen then NoOpenZone else Success
        case OpenedImpl | OpenedExpl => Success
        case Full => ErrFull
        case ReadOnly => ErrReadOnly
        case Offline => ErrOffline
    }

    /** When a write gets which status: it must be a whole number of write units, lie in one zone
        and start at the write pointer; and an empty or closed zone must be allowed to open. */
    lemma StatusIs(zid: nat, slba: nat, nr: nat)
      requires Valid() && zid < zones.Length && nr >= 1
      ensures
        var status, z := WriteStatus(zid, slba, nr), zones[zid];
        var whole := exists k: nat :: nr * lbaBytes == k * unitBytes;
        var inside := exists i: nat :: i * size <= slba && slba + nr <= (i + 1) * size;
        var canOpen, canActivate := NumOpened(zones[..]) < maxOpen, NumActive(zones[..]) < maxActive;
        var starts := whole && inside && slba == z.wp;
        var opens := Opened(z) || (z.state == Closed && canOpen) || (z.state == Empty && canOpen && canActivate);
        && (status == Success <==> starts && opens)
        && (status == NoActiveZone <==> starts && z.state == Empty && !canActivate)
        && (status == NoOpenZone <==>
              starts && !canOpen && (z.state == Closed || (z.state == Empty && canActivate)))
        && (status == ErrFull <==> starts && z.state == Full)
        && (status == Boundary <==> whole && !inside)
        && (status == InvalidWrite <==> !whole || (inside && slba != z.wp))
    {
      hide NumOpened, NumActive, UnitsOk;
      WholeUnits(nr * lbaBytes, unitBytes);
      InOneZone(slba, nr, size);
      assert ZoneOk(zones[zid], zid * size, size, taken[zid]);
    }

    /** __zns_write for write and zone append.  `buffered` is false when the write buffer has no
        room, which makes the dispatcher try again later.  `at` is where the data goes, which
        is what an append returns. */
    method Write(lba: nat, nr: nat, append: bool, buffered: bool) returns (done: bool, status: Status, at: nat)
      requires Valid() && nr >= 1 && lba / size < zones.Length
      modifies this, zones
      ensures Valid() && done == buffered
      ensures at == if append then old(zones[lba / size].wp) else lba
      ensures done ==> status == old(WriteStatus(lba / size, if append then zones[lba / size].wp else lba, nr))
      ensures !done || status != Success ==>
        zones[..] == old(zones[..]) && taken == old(taken) && openCnt == old(openCnt) && activeCnt == old(activeCnt)
      ensures done && status == Success ==>
        && at == old(zones[lba / size].wp)
        && Wrote(old(zones[..]), old(taken), zones[..], taken, lba / size, size, at, nr)
    {
      hide UnitsOk, NumOpened, NumActive, ZoneOk, Span, Opened;
      var zid := lba / size;
      at := if append then zones[zid].wp else lba;
      done, status := false, Success;
      if !buffered {
        return;
      }
      done := true;
      if (nr * lbaBytes) % unitBytes != 0 {
        status := InvalidWrite;
        return;
      }
      if at / size != (at + nr - 1) / size {
        status := Boundary;
        return;
      }
      if at != zones[zid].wp {
        status := InvalidWrite;
        return;
      }
      status := OpenForWrite(zid);
      if status == Success {
        WriteFits(zones[zid], zid, size, taken[zid], nr);
        IncreaseWritePointer(zid, nr);
      }
    }

    /** The state switch of __zns_write. */
    method OpenForWrite(zid: nat) returns (status: Status)
      requires Valid() && zid < zones.Length
      modifies this, zones
      ensures Valid() && taken == old(taken)
      ensures status == match old(zones[zid].state)
        case Empty =>
          if old(activeCnt) == maxActive then NoActiveZone else if old(openCnt) == maxOpen then NoOpenZone else Success
        case Closed => if old(openCnt) == maxOpen then NoOpenZone else Success
        case OpenedImpl | OpenedExpl => Success
        case Full => ErrFull
        case ReadOnly => ErrReadOnly
        case Offline => ErrOffline
      ensures status != Success ==>
        zones[..] == old(zones[..]) && openCnt == old(openCnt) && activeCnt == old(activeCnt)
      ensures status == Success ==> Opened(zones[zid])
      ensures status == Success ==> zones[..] == old(zones[..])[zid :=
        old(zones[zid]).(state := if Opened(old(zones[zid])) then old(zones[zid].state) else OpenedImpl)]
    {
      ghost var zs := zones[..];
      hide UnitsOk, NumOpened, NumActive;
      match zones[zid].state {
        case Empty =>
          if activeCnt == maxActive {
            return NoActiveZone;
          }
          if openCnt == maxOpen {
            return NoOpenZone;
          }
          activeCnt := activeCnt + 1;
          openCnt := openCnt + 1;
        case Closed =>
          if openCnt == maxOpen {
            return NoOpenZone;
          }
          openCnt := openCnt + 1;
        case OpenedImpl | OpenedExpl =>
          return Success;
        case Full =>
          return ErrFull;
        case ReadOnly =>
          return ErrReadOnly;
        case Offline =>
          return ErrOffline;
      }
      zones[zid] := zones[zid].(state := OpenedImpl);
      Recount(zs, zid, zones[zid]);
      UnitsStay(zs, zid, zones[zid], size, lbaBytes, unitBytes);
      return Success;
    }

    /** __increase_write_ptr.  The write fits, so its complaint about an overrun is never made. */
    method IncreaseWritePointer(zid: nat, nr: nat)
      requires Valid() && zid < zones.Length && Opened(zones[zid]) && zones[zid].wp + nr <= zid * size + size
      requires (nr * lbaBytes) % unitBytes == 0
      modifies this, zones
      ensures Valid() && taken == old(taken)[zid := old(taken[zid]) + Span(old(zones[zid].wp), old(zones[zid].wp) + nr)]
      ensures zones[..] == old(zones[..])[zid := Zone(
        if old(zones[zid].wp) + nr == zid * size + size then Full else old(zones[zid].state), old(zones[zid].wp) + nr)]
    {
      hide UnitsOk, NumOpened, NumActive, ZoneOk, Span;
      ghost var zs := zones[..];
      var wp := zones[zid].wp + nr;
      CountPositive(zs, zid);
      ZoneGrows(zones[zid], zid * size, size, taken[zid], nr);
      taken := taken[zid := taken[zid] + Span(zones[zid].wp, wp)];
      zones[zid] := zones[zid].(wp := wp);
      if wp == zid * size + size {
        openCnt := openCnt - 1;
        activeCnt := activeCnt - 1;
        zones[zid] := zones[zid].(state := Full);
      }
      Recount(zs, zid, zones[zid]);
      UnitsGrow(zs, zid, zones[zid], nr, size, lbaBytes, unitBytes);
    }
  }

  lemma WholeUnits(bytes: nat, unit: nat)
    requires unit >= 1
    ensures bytes % unit == 0 <==> exists k: nat :: bytes == k * unit
  {
    MixJoin(bytes, unit);
    if bytes % unit == 0 {
      assert bytes == (bytes / unit) * unit;
    }
    forall k: nat | bytes == k * unit
      ensures bytes % unit == 0
    {
      DivModUnique(bytes, unit, k, 0);
    }
  }

  lemma InOneZone(slba: nat, nr: nat, size: nat)
    requires size >= 1 && nr >= 1
    ensures slba / size == (slba + nr - 1) / size <==>
      exists i: nat :: i * size <= slba && slba + nr <= (i + 1) * size
  {
    var z := slba / size;
    ZoneOf(z, size, slba);
    ZoneOf(z, size, slba + nr - 1);
    assert (z + 1) * size == z * size + size;
    forall i: nat | i * size <= slba && slba + nr <= (i + 1) * size
      ensures slba / size == i == (slba + nr - 1) / size
    {
      assert (i + 1) * size == i * size + size;
      ZoneOf(i, size, slba);
      ZoneOf(i, size, slba + nr - 1);
    }
  }

  lemma ZoneGrows(z: Zone, start: nat, size: nat, taken: set<nat>, nr: nat)
    requires ZoneOk(z, start, size, taken) && Opened(z) && z.wp + nr <= start + size
    ensures ZoneOk(Zone(if z.wp + nr == start + size then Full else z.state, z.wp + nr), start, size,
                   taken + Span(z.wp, z.wp + nr))
  {
    assert taken + Span(z.wp, z.wp + nr) == Span(start, z.wp + nr);
  }

  /** Closing and finishing leave the write pointer alone. */
  lemma ZoneStays(z: Zone, start: nat, size: nat, taken: set<nat>)
    requires ZoneOk(z, start, size, taken)
    ensures ZoneOk(z.(state := Full), start, size, taken)
    ensures Active(z) ==> ZoneOk(z.(state := Closed), start, size, taken)
    ensures ZoneOk(Zone(Empty, start), start, size, {})
    ensures z.state != ReadOnly && z.state != Offline
  {
    assert Span(start, start) == {};
  }

  /** A write that starts at the write pointer and ends in the same zone fits. */
  lemma WriteFits(z: Zone, zid: nat, size: nat, taken: set<nat>, nr: nat)
    requires size >= 1 && nr >= 1 && ZoneOk(z, zid * size, size, taken) && Active(z)
    requires z.wp / size == (z.wp + nr - 1) / size
    ensures zid * size <= z.wp && z.wp + nr <= zid * size + size && taken !! Span(z.wp, z.wp + nr)
  {
    ZoneOf(zid, size, z.wp);
    ZoneOf(zid, size, z.wp + nr - 1);
  }

  // ---------------------------------------------------------------- striping over dies

  /** The die that __lpn_to_ppa gives to page `off` of a zone. */
  function DieOf(zone: nat, off: nat, dies: nat, oneshot: nat, ttLuns: nat): (r: nat)
    requires dies >= 1 && oneshot >= 1 && ttLuns >= 1
  {
    (zone * dies) % ttLuns + (off / oneshot) % dies
  }

  /** The pages of a one-shot page share a die, and dies_per_zone one-shot pages that follow each
      other are on different dies. */
  lemma DiesTakeTurns(zone: nat, off: nat, off1: nat, dies: nat, oneshot: nat, ttLuns: nat)
    requires dies >= 1 && oneshot >= 1 && ttLuns >= 1 && off / oneshot <= off1 / oneshot < off / oneshot + dies
    ensures DieOf(zone, off, dies, oneshot, ttLuns) == DieOf(zone, off1, dies, oneshot, ttLuns)
      <==> off / oneshot == off1 / oneshot
  {
    if off / oneshot < off1 / oneshot {
      ModDiffers(off / oneshot, off1 / oneshot, dies);
    }
  }

  /** On a device whose zones span all their dies, every page of every zone gets an existing
      die exactly when dies_per_zone divides the number of dies or the zones do not reach
      the group of dies that is cut short. */
  lemma DiesExistIff(dies: nat, oneshot: nat, ttLuns: nat, nrZones: nat, pages: nat)
    requires 1 <= dies <= ttLuns && oneshot >= 1 && pages > (dies - 1) * oneshot
    ensures
      (forall zone: nat, off: nat :: zone < nrZones && off < pages ==>
         DieOf(zone, off, dies, oneshot, ttLuns) < ttLuns)
      <==> ttLuns % dies == 0 || nrZones <= ttLuns / dies
  {
    hide DieOf;
    if ttLuns % dies == 0 || nrZones <= ttLuns / dies {
      forall zone: nat, off: nat | zone < nrZones && off < pages
        ensures DieOf(zone, off, dies, oneshot, ttLuns) < ttLuns
      {
        DieExists(zone, off, dies, oneshot, ttLuns);
      }
    } else {
      LastGroup(dies, oneshot, ttLuns);
    }
  }

  lemma Regroup(a: nat, q: nat, b: nat, d: nat, t: nat)
    requires t == q * d
    ensures (a * q + b) * d == a * t + b * d
  {
    assert (a * q + b) * d == (a * q) * d + b * d;
    assert (a * q) * d == a * (q * d);
  }

  lemma GroupEnds(b: nat, q: nat, d: nat, t: nat)
    requires t == q * d && b < q && d >= 1
    ensures b * d + d <= t && b * d < t
  {
    MulMonotone(b + 1, q, d);
    assert (b + 1) * d == b * d + d;
  }

  /** The first die of a zone is a multiple of dies_per_zone, if that divides the dies. */
  lemma FirstDie(zone: nat, dies: nat, ttLuns: nat)
    requires 1 <= dies <= ttLuns && ttLuns % dies == 0
    ensures (zone * dies) % ttLuns + dies <= ttLuns
  {
    hide *;
    var q, a, b := WholeGroups(zone, dies, ttLuns);
    Regroup(a, q, b, dies, ttLuns);
    GroupEnds(b, q, dies, ttLuns);
    DivModUnique(zone * dies, ttLuns, a, b * dies);
  }

  lemma WholeGroups(zone: nat, dies: nat, ttLuns: nat) returns (q: nat, a: nat, b: nat)
    requires 1 <= dies <= ttLuns && ttLuns % dies == 0
    ensures ttLuns == q * dies && zone == a * q + b && b < q
  {
    q := ttLuns / dies;
    MixJoin(ttLuns, dies);
    a, b := zone / q, zone % q;
    MixJoin(zone, q);
  }

  /** Zones before the last whole group do not wrap around. */
  lemma EarlyDie(zone: nat, dies: nat, ttLuns: nat)
    requires 1 <= dies <= ttLuns && zone < ttLuns / dies
    ensures (zone * dies) % ttLuns + dies <= ttLuns
  {
    hide *;
    MixJoin(ttLuns, dies);
    MulMonotone(zone + 1, ttLuns / dies, dies);
    assert (zone + 1) * dies == zone * dies + dies;
    DivModUnique(zone * dies, ttLuns, 0, zone * dies);
  }

  lemma DieExists(zone: nat, off: nat, dies: nat, oneshot: nat, ttLuns: nat)
    requires 1 <= dies <= ttLuns && oneshot >= 1 && (ttLuns % dies == 0 || zone < ttLuns / dies)
    ensures DieOf(zone, off, dies, oneshot, ttLuns) < ttLuns
  {
    if ttLuns % dies == 0 {
      FirstDie(zone, dies, ttLuns);
    } else {
      EarlyDie(zone, dies, ttLuns);
    }
  }

  /** Otherwise the group after the last whole one runs over the end. */
  lemma LastGroup(dies: nat, oneshot: nat, ttLuns: nat)
    requires 1 <= dies <= ttLuns && oneshot >= 1 && ttLuns % dies != 0
    ensures DieOf(ttLuns / dies, (dies - 1) * oneshot, dies, oneshot, ttLuns) >= ttLuns
  {
    var q, r := ttLuns / dies, ttLuns % dies;
    MixJoin(ttLuns, dies);
    DivModUnique(q * dies, ttLuns, 0, q * dies);
    DivModUnique((dies - 1) * oneshot, oneshot, dies - 1, 0);
    DivModUnique(dies - 1, dies, 0, dies - 1);
  }
}

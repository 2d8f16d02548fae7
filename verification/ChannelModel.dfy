/** The channel bandwidth model (channel_model.c): a ring of credits for the next
    NR_CREDIT_ENTRIES time slots, proved against a ledger of all slots.

    The wall clock and the requests are inputs.  Quantities that the source keeps in 32
    bits are reduced modulo 2^32; 64-bit times are unbounded here. */
module ChannelModel {
  import opened Common

  const NR_CREDIT_ENTRIES: nat := 98304
  const UNIT_TIME_INTERVAL: nat := 4000
  const UNIT_XFER_SIZE: nat := 128

  function U32(x: int): (r: nat) { x % TWO_32 }

  function SlotAt(t: nat): (r: nat) { t / UNIT_TIME_INTERVAL }

  // ---------------------------------------------------------------- the ledger

  /** Credits granted in each time slot. */
  type Ledger = map<nat, nat>

  function Granted(l: Ledger, t: nat): (r: nat) { if t in l then l[t] else 0 }

  function Min(a: nat, b: nat): (r: nat)
    ensures r <= a && r <= b && (r == a || r == b)
  {
    if a <= b then a else b
  }

  /** The entries of the ring are bytes, so they start at the low eight bits of max_credits. */
  function Cap(maxCredits: nat): (r: nat)
    ensures r <= maxCredits && r < 256
    ensures maxCredits < 256 ==> r == maxCredits
  {
    maxCredits % 256
  }

  /** The outcome of charging a request: the new ledger, the slots it had to wait, and
      the credits for which there was no room. */
  datatype Charged = Charged(ledger: Ledger, delay: nat, left: nat)

  /** What slot t can still grant of `amount`. */
  function Take(l: Ledger, max: nat, t: nat, amount: nat): (r: nat)
    ensures r <= amount
  {
    Min(amount, if Granted(l, t) <= max then max - Granted(l, t) else 0)
  }

  function Grant(l: Ledger, t: nat, amount: nat): (r: Ledger)
    ensures Granted(r, t) == Granted(l, t) + amount
    ensures forall u: nat :: u != t ==> Granted(r, u) == Granted(l, u)
  {
    l[t := Granted(l, t) + amount]
  }

  /** Charge `amount` credits from slot t on, each slot up to max, up to slot last. */
  function Charge(l: Ledger, max: nat, t: nat, last: nat, amount: nat): (r: Charged)
    requires t <= last
    decreases last - t
  {
    var used := Take(l, max, t, amount);
    var l1 := Grant(l, t, used);
    if amount == used || t == last then Charged(l1, 0, amount - used)
    else
      var r := Charge(l1, max, t + 1, last, amount - used);
      r.(delay := r.delay + 1)
  }

  /** Credits granted in the n slots from t on. */
  ghost function Total(l: Ledger, t: nat, n: nat): nat
    decreases n
  {
    if n == 0 then 0 else Granted(l, t) + Total(l, t + 1, n - 1)
  }

  lemma {:induction false} TotalSame(l: Ledger, l1: Ledger, t: nat, n: nat)
    requires forall u: nat :: t <= u < t + n ==> Granted(l1, u) == Granted(l, u)
    ensures Total(l1, t, n) == Total(l, t, n)
    decreases n
  {
    if n > 0 {
      TotalSame(l, l1, t + 1, n - 1);
    }
  }

  /** A request fills slots in order: all slots it passes end up full, the rest of the
      ledger is untouched, no slot exceeds max, and it stops early only when the last slot
      is full too.  It waits no longer than it must: the last slot grants something. */
  lemma {:induction false} ChargeFills(l: Ledger, max: nat, t: nat, last: nat, amount: nat)
    requires t <= last && forall u: nat :: Granted(l, u) <= max
    ensures
      var r := Charge(l, max, t, last, amount);
      && t + r.delay <= last && r.left <= amount
      && (forall u: nat :: u < t || u > t + r.delay ==> Granted(r.ledger, u) == Granted(l, u))
      && (forall u: nat :: Granted(l, u) <= Granted(r.ledger, u) <= max)
      && (forall u: nat :: t <= u < t + r.delay ==> Granted(r.ledger, u) == max)
      && (r.left > 0 ==> t + r.delay == last && Granted(r.ledger, last) == max)
      && (r.delay > 0 && r.left == 0 ==> Granted(r.ledger, t + r.delay) > Granted(l, t + r.delay))
    decreases last - t
  {
    var used := Take(l, max, t, amount);
    var l1 := Grant(l, t, used);
    if amount != used && t != last {
      hide Grant;
      ChargeFills(l1, max, t + 1, last, amount - used);
      var r := Charge(l, max, t, last, amount);
      assert Granted(r.ledger, t) == Granted(l1, t) == max;
    }
  }

  lemma TotalStep(l: Ledger, t: nat, n: nat)
    requires n >= 1
    ensures Total(l, t, n) == Granted(l, t) + Total(l, t + 1, n - 1)
  {
  }

  ghost predicate Within(l: Ledger, max: nat) {
    forall u: nat :: Granted(l, u) <= max
  }

  /** The first slot of a charge, and that the later ones leave it alone. */
  lemma ChargeFirst(l: Ledger, max: nat, t: nat, last: nat, amount: nat)
    requires t < last && Within(l, max)
    ensures
      var used := Take(l, max, t, amount);
      var l1 := Grant(l, t, used);
      && Within(l1, max) && Total(l1, t + 1, last - t) == Total(l, t + 1, last - t)
      && Granted(l1, t) == Granted(l, t) + used
      && Granted(Charge(l1, max, t + 1, last, amount - used).ledger, t) == Granted(l1, t)
  {
    var used := Take(l, max, t, amount);
    var l1 := Grant(l, t, used);
    hide Grant;
    TotalSame(l, l1, t + 1, last - t);
    ChargeFills(l1, max, t + 1, last, amount - used);
  }

  /** What is not left over is granted, no more and no less. */
  lemma {:induction false} ChargeConserves(l: Ledger, max: nat, t: nat, last: nat, amount: nat)
    requires t <= last && Within(l, max)
    ensures
      var r := Charge(l, max, t, last, amount);
      r.left <= amount && Total(r.ledger, t, last - t + 1) == Total(l, t, last - t + 1) + (amount - r.left)
    decreases last - t
  {
    hide Grant, Total, Within;
    var used := Take(l, max, t, amount);
    var l1 := Grant(l, t, used);
    var r := Charge(l, max, t, last, amount);
    TotalStep(l, t, last - t + 1);
    TotalStep(r.ledger, t, last - t + 1);
    if t == last {
      TotalNone(l, t + 1);
      TotalNone(r.ledger, t + 1);
    } else {
      ChargeFirst(l, max, t, last, amount);
      if amount != used {
        ChargeConserves(l1, max, t + 1, last, amount - used);
      }
    }
  }

  lemma TotalNone(l: Ledger, t: nat)
    ensures Total(l, t, 0) == 0
  {
  }

  // ---------------------------------------------------------------- the ring

  /** Ring index arithmetic: x % NR_CREDIT_ENTRIES for x below twice that. */
  function Wrap(x: nat): (r: nat)
    requires x < 2 * NR_CREDIT_ENTRIES
    ensures r < NR_CREDIT_ENTRIES
  {
    if x >= NR_CREDIT_ENTRIES then x - NR_CREDIT_ENTRIES else x
  }

  /** How far entry j is ahead of head. */
  function Ahead(head: nat, j: nat): (r: nat)
    requires head < NR_CREDIT_ENTRIES && j < NR_CREDIT_ENTRIES
    ensures r < NR_CREDIT_ENTRIES && Wrap(head + r) == j
  {
    if j >= head then j - head else j + NR_CREDIT_ENTRIES - head
  }

  /** Entry head + i holds what slot now + i has left. */
  ghost predicate Agrees(ring: seq<nat>, head: nat, now: nat, max: nat, l: Ledger) {
    && |ring| == NR_CREDIT_ENTRIES && head < NR_CREDIT_ENTRIES
    && forall j :: 0 <= j < NR_CREDIT_ENTRIES ==> ring[j] + Granted(l, now + Ahead(head, j)) == max
  }

  /** No slot has granted more than max, and none beyond the window anything. */
  ghost predicate LedgerOk(l: Ledger, now: nat, len: nat, max: nat) {
    && (forall t: nat :: Granted(l, t) <= max)
    && (forall t: nat :: t >= now + len ==> Granted(l, t) == 0)
  }

  /** The first offs entries from head on are refilled. */
  ghost predicate Refilled(ring: seq<nat>, ring1: seq<nat>, head: nat, offs: nat, max: nat) {
    && |ring| == NR_CREDIT_ENTRIES && |ring1| == NR_CREDIT_ENTRIES && head < NR_CREDIT_ENTRIES
    && forall j :: 0 <= j < NR_CREDIT_ENTRIES ==> ring1[j] == if Ahead(head, j) < offs then max else ring[j]
  }

  /** How many entries a move from slot now to slot now1 recycles. */
  function MoveBy(now: nat, now1: nat, len: nat): (r: nat)
    ensures r <= len
  {
    Min(U32(now1 - now), len)
  }

  /** What the ring has down for slot t after the move. */
  ghost function Kept(l: Ledger, now: nat, now1: nat, len: nat, t: nat): nat {
    if t < now1 then Granted(l, t) else Granted(l, now + MoveBy(now, now1, len) + (t - now1))
  }

  ghost function Moved(l: Ledger, now: nat, now1: nat, len: nat): Ledger {
    map t: nat | t < now1 + NR_CREDIT_ENTRIES :: Kept(l, now, now1, len, t)
  }

  lemma MovedAt(l: Ledger, now: nat, now1: nat, len: nat, max: nat, t: nat)
    requires LedgerOk(l, now, len, max) && len <= NR_CREDIT_ENTRIES
    ensures Granted(Moved(l, now, now1, len), t) == Kept(l, now, now1, len, t)
  {
  }

  lemma MovedOk(l: Ledger, now: nat, now1: nat, len: nat, max: nat)
    requires LedgerOk(l, now, len, max) && len <= NR_CREDIT_ENTRIES
    ensures LedgerOk(Moved(l, now, now1, len), now1, len - MoveBy(now, now1, len), max)
  {
    hide Moved;
    forall t: nat
      ensures Granted(Moved(l, now, now1, len), t) == Kept(l, now, now1, len, t)
    {
      MovedAt(l, now, now1, len, max, t);
    }
  }

  /** Wherever the clock goes, the ring agrees with the moved ledger. */
  lemma MoveAgrees(ring: seq<nat>, ring1: seq<nat>, head: nat, now: nat, now1: nat, len: nat, max: nat, l: Ledger)
    requires Agrees(ring, head, now, max, l) && LedgerOk(l, now, len, max) && len <= NR_CREDIT_ENTRIES
    requires Refilled(ring, ring1, head, MoveBy(now, now1, len), max)
    ensures Agrees(ring1, Wrap(head + MoveBy(now, now1, len)), now1, max, Moved(l, now, now1, len))
  {
    hide Moved, MoveBy;
    var head1 := Wrap(head + MoveBy(now, now1, len));
    forall j | 0 <= j < NR_CREDIT_ENTRIES
      ensures ring1[j] + Granted(Moved(l, now, now1, len), now1 + Ahead(head1, j)) == max
    {
      MovedAt(l, now, now1, len, max, now1 + Ahead(head1, j));
      MoveEntry(ring, ring1, head, now, now1, len, max, l, j);
    }
  }

  lemma MoveEntry(ring: seq<nat>, ring1: seq<nat>, head: nat, now: nat, now1: nat, len: nat, max: nat,
                  l: Ledger, j: nat)
    requires Agrees(ring, head, now, max, l) && LedgerOk(l, now, len, max) && len <= NR_CREDIT_ENTRIES
    requires Refilled(ring, ring1, head, MoveBy(now, now1, len), max) && j < NR_CREDIT_ENTRIES
    ensures ring1[j] + Kept(l, now, now1, len, now1 + Ahead(Wrap(head + MoveBy(now, now1, len)), j)) == max
  {
    hide MoveBy;
    var offs := MoveBy(now, now1, len);
    var i, i1 := Ahead(head, j), Ahead(Wrap(head + offs), j);
    assert ring[j] + Granted(l, now + i) == max;
    if i < offs {
      assert i1 == i + NR_CREDIT_ENTRIES - offs;
    } else {
      assert i1 == i - offs;
    }
  }

  /** The move leaves the ring with exactly the grants that were made. */
  ghost predicate Faithful(l: Ledger, now: nat, now1: nat, len: nat) {
    forall t: nat :: Kept(l, now, now1, len, t) == Granted(l, t)
  }

  /** A grant that a gap of 2^32 slots or more does not pass, because it is cut to 32 bits. */
  ghost predicate Stale(l: Ledger, now: nat, now1: nat, len: nat) {
    now1 - now >= TWO_32 && exists t: nat :: now + U32(now1 - now) <= t < now + len && Granted(l, t) != 0
  }

  /** A clock that moves forward leaves the ring faithful exactly when the 32-bit gap does not
      wrap around while grants are outstanding beyond it. */
  lemma FaithfulForward(l: Ledger, now: nat, now1: nat, len: nat, max: nat)
    requires LedgerOk(l, now, len, max) && len <= NR_CREDIT_ENTRIES && now <= now1
    ensures Faithful(l, now, now1, len) <==> !Stale(l, now, now1, len)
  {
    var offs := MoveBy(now, now1, len);
    if now1 - now < TWO_32 {
      assert U32(now1 - now) == now1 - now;
    } else if Stale(l, now, now1, len) {
      var t: nat :| now + U32(now1 - now) <= t < now + len && Granted(l, t) != 0;
      var u := now1 + (t - now - offs);
      assert Kept(l, now, now1, len, u) == Granted(l, t) && Granted(l, u) == 0;
    } else {
      forall t: nat | t >= now1
        ensures Kept(l, now, now1, len, t) == Granted(l, t)
      {
        assert Granted(l, now + offs + (t - now1)) == 0;
      }
    }
  }

  /** A clock that steps back empties the ring, so it is faithful exactly when nothing was
      granted from the earlier slot on. */
  lemma FaithfulBack(l: Ledger, now: nat, now1: nat, len: nat, max: nat)
    requires LedgerOk(l, now, len, max) && len <= NR_CREDIT_ENTRIES
    requires 0 < now - now1 <= TWO_32 - NR_CREDIT_ENTRIES
    ensures Faithful(l, now, now1, len) <==> forall t: nat :: t >= now1 ==> Granted(l, t) == 0
  {
    assert U32(now1 - now) == TWO_32 - (now - now1);
    assert MoveBy(now, now1, len) == len;
    forall t: nat | t >= now1
      ensures Kept(l, now, now1, len, t) == 0
    {
    }
  }

  /** A request is charged from its own slot on exactly when the distance fits in 32 bits. */
  lemma RequestSlot(now: nat, requestTime: nat)
    requires now <= requestTime
    ensures SlotAt(now) + RequestOffset(now, requestTime) == SlotAt(requestTime)
      <==> SlotAt(requestTime) - SlotAt(now) < TWO_32
  {
    assert SlotAt(now) <= SlotAt(requestTime);
  }

  /** Taking credits from one entry is granting them in its slot. */
  lemma SpendAgrees(ring: seq<nat>, head: nat, now: nat, max: nat, l: Ledger, slot: nat, used: nat)
    requires Agrees(ring, head, now, max, l) && now <= slot < now + NR_CREDIT_ENTRIES
    requires used <= ring[Wrap(head + (slot - now))]
    ensures
      var pos := Wrap(head + (slot - now));
      Agrees(ring[pos := ring[pos] - used], head, now, max, Grant(l, slot, used))
  {
    hide Grant;
    var pos := Wrap(head + (slot - now));
    assert Ahead(head, pos) == slot - now;
  }

  /** The outcome of a charge that has served slot and found `left` credits still due. */
  ghost function After(l: Ledger, max: nat, slot: nat, last: nat, delay: nat, left: nat): Charged
    requires slot <= last
  {
    if left == 0 || slot == last then Charged(l, delay, left)
    else
      var r := Charge(l, max, slot + 1, last, left);
      r.(delay := r.delay + delay + 1)
  }

  lemma AfterFirst(l: Ledger, max: nat, t: nat, last: nat, amount: nat)
    requires t <= last
    ensures Charge(l, max, t, last, amount) ==
      var used := Take(l, max, t, amount);
      After(Grant(l, t, used), max, t, last, 0, amount - used)
  {
  }

  lemma AfterNext(l: Ledger, max: nat, slot: nat, last: nat, delay: nat, left: nat)
    requires slot < last && left != 0
    ensures After(l, max, slot, last, delay, left) ==
      var used := Take(l, max, slot + 1, left);
      After(Grant(l, slot + 1, used), max, slot + 1, last, delay + 1, left - used)
  {
  }

  lemma AfterLast(l: Ledger, max: nat, slot: nat, last: nat, delay: nat, left: nat)
    requires slot <= last && (left == 0 || slot == last)
    ensures After(l, max, slot, last, delay, left) == Charged(l, delay, left)
  {
  }

  lemma NextEntry(head: nat, i: nat)
    requires head < NR_CREDIT_ENTRIES && i < NR_CREDIT_ENTRIES
    ensures Wrap(Wrap(head + i) + 1) == head <==> i + 1 == NR_CREDIT_ENTRIES
    ensures i + 1 < NR_CREDIT_ENTRIES ==> Wrap(Wrap(head + i) + 1) == Wrap(head + i + 1)
  {
  }

  /** Charging from offset offs of the window that starts at slot now. */
  function Spent(l: Ledger, max: nat, now: nat, offs: nat, amount: nat): (r: Charged)
    requires offs < NR_CREDIT_ENTRIES
  {
    Charge(l, max, now + offs, now + NR_CREDIT_ENTRIES - 1, amount)
  }

  lemma SpentLedgerOk(l: Ledger, max: nat, now: nat, len: nat, offs: nat, amount: nat)
    requires LedgerOk(l, now, len, max) && offs < NR_CREDIT_ENTRIES
    ensures
      var r := Spent(l, max, now, offs, amount);
      LedgerOk(r.ledger, now, if len <= offs + r.delay then offs + r.delay + 1 else len, max)
  {
    ChargeFills(l, max, now + offs, now + NR_CREDIT_ENTRIES - 1, amount);
  }

  lemma HeadInRange(ring: seq<nat>, head: nat, now: nat, max: nat, l: Ledger)
    requires Agrees(ring, head, now, max, l)
    ensures head < NR_CREDIT_ENTRIES == |ring|
  {
  }

  /** units_to_xfer, and the credits a request asks for. */
  function Units(length: nat): (r: nat) { U32(DivRoundUp(length, UNIT_XFER_SIZE)) }
  function Asked(length: nat, commandCredits: nat): (r: nat) { U32(Units(length) + commandCredits) }

  /** request_time_offs. */
  function RequestOffset(now: nat, requestTime: nat): (r: nat) { U32(SlotAt(requestTime) - SlotAt(now)) }

  /** The request is charged; otherwise it is returned unchanged. */
  predicate Accepted(now: nat, requestTime: nat) {
    requestTime >= now && RequestOffset(now, requestTime) < NR_CREDIT_ENTRIES
  }

  /** What chmodel_request answers to an accepted request: the new ledger, the slots it passed
      and the time, which counts the slots waited beyond the nominal number. */
  datatype Reply = Reply(ledger: Ledger, delay: nat, time: nat)

  function Answer(l: Ledger, maxCredits: nat, now: nat, requestTime: nat, xferLat: nat, units: nat,
                  asked: nat): (r: Reply)
    requires Accepted(now, requestTime) && maxCredits >= 1
  {
    var c := Spent(l, Cap(maxCredits), SlotAt(now), RequestOffset(now, requestTime), asked);
    var nominal := asked / maxCredits;
    var excess := if c.delay > nominal then c.delay - nominal else 0;
    Reply(c.ledger, c.delay, requestTime + U32(xferLat * units) + excess * UNIT_TIME_INTERVAL)
  }

  /** The units are the least number that holds the data, in 32 bits. */
  lemma UnitsHold(length: nat)
    ensures exists u: nat :: Units(length) == U32(u) && (u - 1) * UNIT_XFER_SIZE < length <= u * UNIT_XFER_SIZE
    ensures length <= (TWO_32 - 1) * UNIT_XFER_SIZE ==>
      (Units(length) - 1) * UNIT_XFER_SIZE < length <= Units(length) * UNIT_XFER_SIZE
  {
    var u := DivRoundUp(length, UNIT_XFER_SIZE);
    assert Units(length) == U32(u) && (u - 1) * UNIT_XFER_SIZE < length <= u * UNIT_XFER_SIZE;
  }

  /** One credit per unit and the credits of the command, unless that wraps. */
  lemma AskedIs(length: nat, commandCredits: nat)
    requires length <= (TWO_32 - 1) * UNIT_XFER_SIZE && Units(length) + commandCredits < TWO_32
    ensures (Asked(length, commandCredits) - commandCredits - 1) * UNIT_XFER_SIZE < length
    ensures length <= (Asked(length, commandCredits) - commandCredits) * UNIT_XFER_SIZE
  {
    UnitsHold(length);
  }

  /** A request is charged exactly when it is not in the past and within the window, as long as
      the distance fits in 32 bits. */
  lemma AcceptedIff(now: nat, requestTime: nat)
    requires SlotAt(requestTime) - SlotAt(now) < TWO_32
    ensures Accepted(now, requestTime) <==>
      now <= requestTime < (now / UNIT_TIME_INTERVAL + NR_CREDIT_ENTRIES) * UNIT_TIME_INTERVAL
  {
  }

  /** The answer is the transfer time of the units after the request, exactly if the request
      waited no more slots than its credits fill at full rate; otherwise it comes a whole
      number of slots later, one for each slot waited beyond those. */
  lemma AnswerTime(l: Ledger, maxCredits: nat, now: nat, requestTime: nat, xferLat: nat, units: nat, asked: nat)
    requires Accepted(now, requestTime) && maxCredits >= 1
    ensures
      var a := Answer(l, maxCredits, now, requestTime, xferLat, units, asked);
      var ready := requestTime + U32(xferLat * units);
      && a.time >= ready && (a.time == ready <==> a.delay * maxCredits <= asked)
      && (a.time > ready ==>
            exists slots: nat :: a.time == ready + slots * UNIT_TIME_INTERVAL
              && (a.delay - slots) * maxCredits <= asked < (a.delay - slots + 1) * maxCredits)
  {
    hide Spent, U32;
    var a := Answer(l, maxCredits, now, requestTime, xferLat, units, asked);
    var nominal := asked / maxCredits;
    FloorOf(asked, maxCredits, a.delay);
    if a.delay > nominal {
      var slots: nat := a.delay - nominal;
      FloorIs(asked, maxCredits);
      assert a.delay - slots == nominal;
    }
  }

  lemma FloorIs(a: nat, m: nat)
    requires m >= 1
    ensures (a / m) * m <= a < (a / m + 1) * m
  {
    assert a == (a / m) * m + a % m;
    assert (a / m + 1) * m == (a / m) * m + m;
  }

  lemma FloorOf(a: nat, m: nat, x: nat)
    requires m >= 1
    ensures x <= a / m <==> x * m <= a
  {
    FloorIs(a, m);
    if x <= a / m {
      MulMonotone(x, a / m, m);
    } else {
      MulMonotone(a / m + 1, x, m);
    }
  }

  /** On a channel with nothing granted from the request's slot on, the slots passed are those
      that the request itself fills... */
  lemma {:induction false} IdleCharge(l: Ledger, max: nat, t: nat, last: nat, amount: nat)
    requires t <= last && forall u: nat :: u >= t ==> Granted(l, u) == 0
    ensures Charge(l, max, t, last, amount).delay * max <= amount
    decreases last - t
  {
    hide Grant;
    var used := Take(l, max, t, amount);
    if amount != used && t != last {
      IdleCharge(Grant(l, t, used), max, t + 1, last, amount - used);
      var r := Charge(Grant(l, t, used), max, t + 1, last, amount - used);
      assert (r.delay + 1) * max == r.delay * max + max;
    }
  }

  /** ...so it is answered with exactly its transfer time. */
  lemma IdleExact(l: Ledger, maxCredits: nat, now: nat, requestTime: nat, xferLat: nat, units: nat, asked: nat)
    requires Accepted(now, requestTime) && 1 <= maxCredits < 256
    requires forall u: nat :: u >= SlotAt(now) + RequestOffset(now, requestTime) ==> Granted(l, u) == 0
    ensures Answer(l, maxCredits, now, requestTime, xferLat, units, asked).time == requestTime + U32(xferLat * units)
  {
    hide Charge, U32;
    var t := SlotAt(now) + RequestOffset(now, requestTime);
    IdleCharge(l, maxCredits, t, SlotAt(now) + NR_CREDIT_ENTRIES - 1, asked);
    AnswerTime(l, maxCredits, now, requestTime, xferLat, units, asked);
  }

  // ---------------------------------------------------------------- a channel as a value

  /** What chmodel_init fixes, and what requests change. */
  datatype Rates = Rates(maxCredits: nat, xferLat: nat, commandCredits: nat)
  datatype Usage = Usage(ledger: Ledger, curTime: nat, validLen: nat)

  /** A channel after a request, and the answer. */
  datatype Service = Service(usage: Usage, time: nat)

  /** chmodel_request. */
  ghost function Served(r: Rates, u: Usage, now: nat, requestTime: nat, length: nat): Service
    requires Accepted(now, requestTime) ==> r.maxCredits >= 1
  {
    var moved := MoveBy(SlotAt(u.curTime), SlotAt(now), u.validLen);
    var kept, len := Moved(u.ledger, SlotAt(u.curTime), SlotAt(now), u.validLen), u.validLen - moved;
    if Accepted(now, requestTime) then
      var a := Answer(kept, r.maxCredits, now, requestTime, r.xferLat, Units(length), Asked(length, r.commandCredits));
      var used := RequestOffset(now, requestTime) + a.delay;
      Service(Usage(a.ledger, now, if len > used then len else used + 1), a.time)
    else Service(Usage(kept, now, len), requestTime)
  }

  /** The channel is not ahead of its requests. */
  lemma ServedLater(r: Rates, u: Usage, now: nat, requestTime: nat, length: nat)
    requires Accepted(now, requestTime) ==> r.maxCredits >= 1
    ensures Served(r, u, now, requestTime, length).time >= requestTime
    ensures !Accepted(now, requestTime) ==> Served(r, u, now, requestTime, length).time == requestTime
    ensures Accepted(now, requestTime) ==>
      Served(r, u, now, requestTime, length).time >= requestTime + U32(r.xferLat * Units(length))
  {
    hide Moved, U32;
    if Accepted(now, requestTime) {
      var kept := Moved(u.ledger, SlotAt(u.curTime), SlotAt(now), u.validLen);
      AnswerTime(kept, r.maxCredits, now, requestTime, r.xferLat, Units(length), Asked(length, r.commandCredits));
    }
  }

  /** The credits that a channel has granted from its current slot to the end of its ring. */
  ghost function InUse(u: Usage): nat {
    Total(u.ledger, SlotAt(u.curTime), NR_CREDIT_ENTRIES)
  }

  ghost predicate UsageOk(r: Rates, u: Usage) {
    u.validLen <= NR_CREDIT_ENTRIES && LedgerOk(u.ledger, SlotAt(u.curTime), u.validLen, Cap(r.maxCredits))
  }

  /** The channel when its clock has moved on. */
  ghost function Waited(u: Usage, now: nat): Usage {
    var moved := MoveBy(SlotAt(u.curTime), SlotAt(now), u.validLen);
    Usage(Moved(u.ledger, SlotAt(u.curTime), SlotAt(now), u.validLen), now, u.validLen - moved)
  }

  lemma {:induction false} TotalSplit(l: Ledger, t: nat, m: nat, n: nat)
    requires m <= n
    ensures Total(l, t, n) == Total(l, t, m) + Total(l, t + m, n - m)
    decreases m
  {
    if m > 0 {
      TotalSplit(l, t + 1, m - 1, n - 1);
    }
  }

  /** A charged request takes its credits from the channel, all of them unless the ring is used
      up to its end; one that is not charged takes none. */
  lemma ServedCharges(r: Rates, u: Usage, now: nat, requestTime: nat, length: nat)
    requires UsageOk(r, u) && (Accepted(now, requestTime) ==> r.maxCredits >= 1)
    ensures
      var u1 := Served(r, u, now, requestTime, length).usage;
      var asked := Asked(length, r.commandCredits);
      && u1.curTime == now
      && (!Accepted(now, requestTime) ==> u1 == Waited(u, now))
      && (Accepted(now, requestTime) ==>
            && InUse(Waited(u, now)) <= InUse(u1) <= InUse(Waited(u, now)) + asked
            && (InUse(u1) < InUse(Waited(u, now)) + asked ==>
                  Granted(u1.ledger, SlotAt(now) + NR_CREDIT_ENTRIES - 1) == Cap(r.maxCredits)))
  {
    hide Moved, Charge, Total, U32, LedgerOk;
    if Accepted(now, requestTime) {
      var w := Waited(u, now);
      MovedWithin(r, u, now);
      var s, offs, asked := SlotAt(now), RequestOffset(now, requestTime), Asked(length, r.commandCredits);
      var last := s + NR_CREDIT_ENTRIES - 1;
      ChargedInUse(w.ledger, Cap(r.maxCredits), s, offs, asked);
    }
  }

  lemma MovedWithin(r: Rates, u: Usage, now: nat)
    requires UsageOk(r, u)
    ensures Within(Waited(u, now).ledger, Cap(r.maxCredits))
  {
    hide Moved;
    MovedOk(u.ledger, SlotAt(u.curTime), SlotAt(now), u.validLen, Cap(r.maxCredits));
  }

  lemma ChargedInUse(l: Ledger, max: nat, s: nat, offs: nat, asked: nat)
    requires Within(l, max) && offs < NR_CREDIT_ENTRIES
    ensures
      var c := Spent(l, max, s, offs, asked);
      var before, after := Total(l, s, NR_CREDIT_ENTRIES), Total(c.ledger, s, NR_CREDIT_ENTRIES);
      && c.left <= asked && after == before + asked - c.left
      && (c.left > 0 ==> Granted(c.ledger, s + NR_CREDIT_ENTRIES - 1) == max)
  {
    hide Charge, Total;
    var last := s + NR_CREDIT_ENTRIES - 1;
    var c := Spent(l, max, s, offs, asked);
    ChargeFills(l, max, s + offs, last, asked);
    ChargeConserves(l, max, s + offs, last, asked);
    TotalSplit(l, s, offs, NR_CREDIT_ENTRIES);
    TotalSplit(c.ledger, s, offs, NR_CREDIT_ENTRIES);
    TotalSame(l, c.ledger, s, offs);
  }

  class Channel {
    const ring: array<nat>
    const maxCredits: nat
    const xferLat: nat
    const commandCredits: nat
    var head: nat
    var validLen: nat
    var curTime: nat
    ghost var ledger: Ledger

    ghost predicate Valid()
      reads this, ring
    {
      && validLen <= NR_CREDIT_ENTRIES
      && Agrees(ring[..], head, SlotAt(curTime), Cap(maxCredits), ledger)
      && LedgerOk(ledger, SlotAt(curTime), validLen, Cap(maxCredits))
    }

    ghost function Fixed(): Rates { Rates(maxCredits, xferLat, commandCredits) }

    ghost function State(): Usage
      reads this
    {
      Usage(ledger, curTime, validLen)
    }

    lemma StateOk()
      requires Valid()
      ensures UsageOk(Fixed(), State())
    {
    }

    /** chmodel_init, for any bandwidth. */
    constructor (maxCredits: nat, xferLat: nat)
      ensures Valid() && fresh(ring) && ledger == map[] && this.maxCredits == maxCredits && this.xferLat == xferLat
      ensures commandCredits == 0 && validLen == 0 && curTime == 0
    {
      this.maxCredits, this.xferLat, this.commandCredits := maxCredits, xferLat, 0;
      ring := new nat[NR_CREDIT_ENTRIES](_ => Cap(maxCredits));
      head, validLen, curTime := 0, 0, 0;
      ledger := map[];
    }

    /** memset of len entries from `from` on. */
    method Refill(from: nat, len: nat)
      requires from + len <= ring.Length
      modifies ring
      ensures forall j :: 0 <= j < ring.Length ==>
        ring[j] == if from <= j < from + len then Cap(maxCredits) else old(ring[j])
    {
      for i := 0 to len
        invariant forall j :: 0 <= j < ring.Length ==>
          ring[j] == if from <= j < from + i then Cap(maxCredits) else old(ring[j])
      {
        ring[from + i] := Cap(maxCredits);
      }
    }

    /** Refill the offs entries from head on. */
    method Recycle(offs: nat)
      requires ring.Length == NR_CREDIT_ENTRIES && head < NR_CREDIT_ENTRIES && offs <= NR_CREDIT_ENTRIES
      modifies ring
      ensures Refilled(old(ring[..]), ring[..], head, offs, Cap(maxCredits))
    {
      if head + offs >= NR_CREDIT_ENTRIES {
        Refill(head, NR_CREDIT_ENTRIES - head);
        Refill(0, offs - (NR_CREDIT_ENTRIES - head));
      } else {
        Refill(head, offs);
      }
    }

    /** Move the head to the current time. */
    method MoveTo(now: nat)
      requires Valid()
      modifies ring, `head, `curTime, `validLen, `ledger
      ensures Valid() && curTime == now
      ensures ledger == Moved(old(ledger), old(SlotAt(curTime)), SlotAt(now), old(validLen))
      ensures validLen == old(validLen) - MoveBy(old(SlotAt(curTime)), SlotAt(now), old(validLen))
    {
      hide LedgerOk, Refilled, Agrees, Moved;
      ghost var was, ring0, cap := SlotAt(curTime), ring[..], Cap(maxCredits);
      var offs := U32(SlotAt(now) - SlotAt(curTime));
      offs := if offs < validLen then offs else validLen;
      assert offs == MoveBy(was, SlotAt(now), validLen);
      HeadInRange(ring0, head, was, cap, ledger);
      MovedOk(ledger, was, SlotAt(now), validLen, cap);
      Recycle(offs);
      MoveAgrees(ring0, ring[..], head, was, SlotAt(now), validLen, cap, ledger);
      head := Wrap(head + offs);
      curTime := now;
      ledger := Moved(ledger, was, SlotAt(now), validLen);
      validLen := validLen - offs;
    }

    /** Take up to `amount` credits from entry pos, which stands for `slot`. */
    method TakeFrom(pos: nat, ghost slot: nat, amount: nat) returns (left: nat)
      requires Agrees(ring[..], head, SlotAt(curTime), Cap(maxCredits), ledger)
      requires SlotAt(curTime) <= slot < SlotAt(curTime) + NR_CREDIT_ENTRIES
      requires pos == Wrap(head + (slot - SlotAt(curTime)))
      modifies ring, `ledger
      ensures Agrees(ring[..], head, SlotAt(curTime), Cap(maxCredits), ledger)
      ensures ledger == Grant(old(ledger), slot, Take(old(ledger), Cap(maxCredits), slot, amount))
      ensures left == amount - Take(old(ledger), Cap(maxCredits), slot, amount)
    {
      assert Ahead(head, pos) == slot - SlotAt(curTime);
      var consumed := if amount <= ring[pos] then amount else ring[pos];
      SpendAgrees(ring[..], head, SlotAt(curTime), Cap(maxCredits), ledger, slot, consumed);
      ring[pos] := ring[pos] - consumed;
      ledger := Grant(ledger, slot, consumed);
      left := amount - consumed;
    }

    /** The loop has served the slots up to delay beyond offs and stands at entry pos; the rest
        of the charge leads to goal. */
    ghost predicate Walking(offs: nat, pos: nat, delay: nat, left: nat, goal: Charged)
      reads this, ring
    {
      && Agrees(ring[..], head, SlotAt(curTime), Cap(maxCredits), ledger)
      && offs + delay < NR_CREDIT_ENTRIES && pos == Wrap(head + offs + delay)
      && goal == After(ledger, Cap(maxCredits), SlotAt(curTime) + offs + delay,
                       SlotAt(curTime) + NR_CREDIT_ENTRIES - 1, delay, left)
    }

    /** One round of the loop of chmodel_request. */
    method TakeNext(ghost offs: nat, at: nat, ghost delay: nat, due: nat,
                    ghost goal: Charged) returns (pos: nat, left: nat)
      requires Walking(offs, at, delay, due, goal) && due != 0 && at < NR_CREDIT_ENTRIES && Wrap(at + 1) != head
      modifies ring, `ledger
      ensures pos == Wrap(at + 1) && Walking(offs, pos, delay + 1, left, goal)
    {
      hide Agrees, Grant, Take, Charge, SlotAt, After, Wrap, Cap;
      ghost var slot := WalkNext(offs, at, delay, due, goal);
      pos := Wrap(at + 1);
      left := TakeFrom(pos, slot, due);
    }

    /** The loop of chmodel_request: charge `amount` credits from entry offs on. */
    method SpendFrom(offs: nat, amount: nat) returns (pos: nat, delay: nat)
      requires Agrees(ring[..], head, SlotAt(curTime), Cap(maxCredits), ledger) && offs < NR_CREDIT_ENTRIES
      modifies ring, `ledger
      ensures Agrees(ring[..], head, SlotAt(curTime), Cap(maxCredits), ledger)
      ensures
        var r := Spent(old(ledger), Cap(maxCredits), SlotAt(curTime), offs, amount);
        && ledger == r.ledger && delay == r.delay && offs + delay < NR_CREDIT_ENTRIES
        && pos == Wrap(head + offs + delay)
    {
      ghost var goal := Spent(ledger, Cap(maxCredits), SlotAt(curTime), offs, amount);
      var left;
      pos, left := TakeFirst(offs, amount, goal);
      delay := 0;
      hide Walking, Agrees, Charge, SlotAt, Cap;
      while left != 0 && Wrap(pos + 1) != head
        invariant Walking(offs, pos, delay, left, goal) && offs + delay < NR_CREDIT_ENTRIES && pos < NR_CREDIT_ENTRIES
        decreases NR_CREDIT_ENTRIES - delay
      {
        pos, left := TakeNext(offs, pos, delay, left, goal);
        delay := delay + 1;
        WalkBounds(offs, pos, delay, left, goal);
      }
      WalkDone(offs, pos, delay, left, goal);
    }

    method TakeFirst(offs: nat, amount: nat, ghost goal: Charged) returns (pos: nat, left: nat)
      requires Agrees(ring[..], head, SlotAt(curTime), Cap(maxCredits), ledger) && offs < NR_CREDIT_ENTRIES
      requires goal == Spent(ledger, Cap(maxCredits), SlotAt(curTime), offs, amount)
      modifies ring, `ledger
      ensures pos < NR_CREDIT_ENTRIES && Walking(offs, pos, 0, left, goal)
    {
      HeadInRange(ring[..], head, SlotAt(curTime), Cap(maxCredits), ledger);
      AfterFirst(ledger, Cap(maxCredits), SlotAt(curTime) + offs, SlotAt(curTime) + NR_CREDIT_ENTRIES - 1, amount);
      hide Agrees, Grant, Take, Charge, SlotAt, After, Wrap, Cap;
      pos := Wrap(head + offs);
      left := TakeFrom(pos, SlotAt(curTime) + offs, amount);
    }

    lemma WalkBounds(offs: nat, pos: nat, delay: nat, left: nat, goal: Charged)
      requires Walking(offs, pos, delay, left, goal)
      ensures offs + delay < NR_CREDIT_ENTRIES && pos < NR_CREDIT_ENTRIES && head < NR_CREDIT_ENTRIES
    {
    }

    lemma WalkNext(offs: nat, pos: nat, delay: nat, due: nat, goal: Charged) returns (slot: nat)
      requires Walking(offs, pos, delay, due, goal) && due != 0 && pos < NR_CREDIT_ENTRIES && Wrap(pos + 1) != head
      ensures head < NR_CREDIT_ENTRIES && offs + (delay + 1) < NR_CREDIT_ENTRIES
      ensures slot == SlotAt(curTime) + offs + (delay + 1) && slot - SlotAt(curTime) == offs + (delay + 1)
      ensures Wrap(pos + 1) == Wrap(head + (slot - SlotAt(curTime))) == Wrap(head + offs + (delay + 1))
      ensures
        var used := Take(ledger, Cap(maxCredits), slot, due);
        goal == After(Grant(ledger, slot, used), Cap(maxCredits), slot,
                      SlotAt(curTime) + NR_CREDIT_ENTRIES - 1, delay + 1, due - used)
    {
      hide Grant, Take, Charge;
      slot := SlotAt(curTime) + offs + delay + 1;
      NextEntry(head, offs + delay);
      AfterNext(ledger, Cap(maxCredits), slot - 1, SlotAt(curTime) + NR_CREDIT_ENTRIES - 1, delay, due);
    }

    lemma WalkDone(offs: nat, pos: nat, delay: nat, left: nat, goal: Charged)
      requires Walking(offs, pos, delay, left, goal) && pos < NR_CREDIT_ENTRIES && (left == 0 || Wrap(pos + 1) == head)
      ensures Agrees(ring[..], head, SlotAt(curTime), Cap(maxCredits), ledger)
      ensures ledger == goal.ledger && delay == goal.delay && offs + delay < NR_CREDIT_ENTRIES
      ensures head < NR_CREDIT_ENTRIES && pos == Wrap(head + offs + delay)
    {
      NextEntry(head, offs + delay);
      AfterLast(ledger, Cap(maxCredits), SlotAt(curTime) + offs + delay,
                SlotAt(curTime) + NR_CREDIT_ENTRIES - 1, delay, left);
    }

    /** ...and remember how far the ring is in use. */
    method Spend(offs: nat, amount: nat) returns (delay: nat)
      requires Valid() && offs < NR_CREDIT_ENTRIES
      modifies ring, `validLen, `ledger
      ensures Valid()
      ensures
        var r := Spent(old(ledger), Cap(maxCredits), SlotAt(curTime), offs, amount);
        && ledger == r.ledger && delay == r.delay
        && validLen == if old(validLen) > offs + r.delay then old(validLen) else offs + r.delay + 1
    {
      hide Charge, Agrees;
      SpentLedgerOk(ledger, Cap(maxCredits), SlotAt(curTime), validLen, offs, amount);
      assert head < NR_CREDIT_ENTRIES by { HeadInRange(ring[..], head, SlotAt(curTime), Cap(maxCredits), ledger); }
      var pos;
      pos, delay := SpendFrom(offs, amount);
      var len := if pos >= head then pos - head + 1 else NR_CREDIT_ENTRIES - (head - pos - 1);
      if len > validLen {
        validLen := len;
      }
    }

    /** chmodel_request.  A request that gets as far as the division needs max_credits to be
        positive. */
    method Request(now: nat, requestTime: nat, length: nat) returns (done: nat)
      requires Valid() && (Accepted(now, requestTime) ==> maxCredits >= 1)
      modifies this, ring
      ensures Valid() && done >= requestTime
      ensures Service(State(), done) == Served(Fixed(), old(State()), now, requestTime, length)
    {
      hide Moved, Charge, Agrees, LedgerOk;
      MoveTo(now);
      if requestTime < now {
        return requestTime;
      }
      var offs := RequestOffset(now, requestTime);
      if offs >= NR_CREDIT_ENTRIES {
        return requestTime;
      }
      var asked := Asked(length, commandCredits);
      var defaultDelay := asked / maxCredits;
      var delay := Spend(offs, asked);
      delay := if delay > defaultDelay then delay - defaultDelay else 0;
      done := requestTime + U32(xferLat * Units(length)) + delay * UNIT_TIME_INTERVAL;
    }
  }

  // ---------------------------------------------------------------- an idle channel

  /** On a new channel a request that is charged is answered with exactly its transfer time. */
  method TransferTime(maxCredits: nat, xferLat: nat, now: nat, requestTime: nat, length: nat) returns (done: nat)
    requires 1 <= maxCredits < 256 && Accepted(now, requestTime)
    ensures done == requestTime + U32(xferLat * Units(length))
  {
    hide Answer, Agrees, LedgerOk, Moved, Asked, Units, Accepted, U32;
    var ch := new Channel(maxCredits, xferLat);
    MovedNothing(0, SlotAt(now));
    IdleExact(Moved(map[], 0, SlotAt(now), 0), maxCredits, now, requestTime, xferLat, Units(length), Asked(length, 0));
    done := ch.Request(now, requestTime, length);
  }

  const LONG_IDLE: nat := UNIT_TIME_INTERVAL * TWO_32

  lemma ChargeAtOnce(l: Ledger, max: nat, t: nat, last: nat, amount: nat)
    requires t <= last && Granted(l, t) + amount <= max
    ensures Charge(l, max, t, last, amount) == Charged(Grant(l, t, amount), 0, 0)
  {
  }

  /** Slot t is full and the next one has room. */
  lemma ChargeNext(l: Ledger, max: nat, t: nat, last: nat, amount: nat)
    requires t < last && amount >= 1 && Granted(l, t) == max && Granted(l, t + 1) + amount <= max
    ensures Charge(l, max, t, last, amount).delay == 1
  {
    var l1 := Grant(l, t, 0);
    ChargeAtOnce(l1, max, t + 1, last, amount);
  }

  /** The 256 bytes that the channel serves in slot 1. */
  ghost predicate SlotOneFull(l: Ledger) {
    forall t: nat :: Granted(l, t) == if t == 1 then 2 else 0
  }

  lemma FirstGrant(l: Ledger)
    requires forall t: nat :: Granted(l, t) == 0
    ensures Accepted(0, UNIT_TIME_INTERVAL) && RequestOffset(0, UNIT_TIME_INTERVAL) == 1
    ensures Units(256) == 2 && Asked(256, 0) == 2
    ensures
      var a := Answer(l, 2, 0, UNIT_TIME_INTERVAL, 0, 2, 2);
      SlotOneFull(a.ledger) && a.delay == 0
  {
    ChargeAtOnce(l, 2, 1, NR_CREDIT_ENTRIES - 1, 2);
  }

  lemma MovedNothing(now: nat, now1: nat)
    ensures forall t: nat :: Granted(Moved(map[], now, now1, 0), t) == 0
  {
  }

  /** The ring has not moved at all. */
  lemma IdleMove(l: Ledger)
    requires SlotOneFull(l)
    ensures MoveBy(0, TWO_32, 2) == 0
    ensures Granted(Moved(l, 0, TWO_32, 2), TWO_32 + 1) == 2 && Granted(Moved(l, 0, TWO_32, 2), TWO_32 + 2) == 0
  {
    MovedAt(l, 0, TWO_32, 2, 2, TWO_32 + 1);
    MovedAt(l, 0, TWO_32, 2, 2, TWO_32 + 2);
  }

  /** A ring that agrees with this ledger does not agree with the grants that were made. */
  lemma StaleDisagrees(ring: seq<nat>, head: nat, l: Ledger, made: Ledger)
    requires Agrees(ring, head, TWO_32, 2, l) && Granted(l, TWO_32 + 1) == 2 && SlotOneFull(made)
    ensures !Agrees(ring, head, TWO_32, 2, made)
  {
    var j := Wrap(head + 1);
    assert Ahead(head, j) == 1;
    assert ring[j] + Granted(l, TWO_32 + Ahead(head, j)) == 2;
    assert Granted(made, TWO_32 + Ahead(head, j)) == 0;
  }

  /** A new channel with two credits per slot serves 256 bytes in slot 1... */
  method ServeFirst() returns (ch: Channel)
    ensures fresh(ch) && fresh(ch.ring) && ch.Valid() && ch.maxCredits == 2 && ch.xferLat == 0 && ch.commandCredits == 0
    ensures ch.curTime == 0 && ch.validLen == 2 && SlotOneFull(ch.ledger)
  {
    hide Answer, Agrees, LedgerOk, Moved, SlotOneFull, Asked, Units, Accepted, RequestOffset;
    ch := new Channel(2, 0);
    MovedNothing(0, 0);
    FirstGrant(Moved(map[], 0, 0, 0));
    var first := ch.Request(0, UNIT_TIME_INTERVAL, 256);
  }

  /** ...and then idles for 2^32 slots: its ring no longer agrees with the grants that were
      made. */
  method StaleRing() returns (ch: Channel, ghost made: Ledger)
    ensures fresh(ch) && fresh(ch.ring) && ch.Valid() && ch.maxCredits == 2 && ch.xferLat == 0 && ch.commandCredits == 0
    ensures ch.curTime == LONG_IDLE && SlotOneFull(made)
    ensures !Agrees(ch.ring[..], ch.head, SlotAt(ch.curTime), 2, made)
    ensures Granted(ch.ledger, TWO_32 + 1) == 2 && Granted(ch.ledger, TWO_32 + 2) == 0
  {
    hide Agrees, LedgerOk, Moved, SlotOneFull;
    ch := ServeFirst();
    made := ch.ledger;
    IdleMove(made);
    ch.MoveTo(LONG_IDLE);
    StaleDisagrees(ch.ring[..], ch.head, ch.ledger, made);
  }

  lemma MovedStays(l: Ledger, now: nat, len: nat, max: nat, t: nat)
    requires LedgerOk(l, now, len, max) && len <= NR_CREDIT_ENTRIES
    ensures Granted(Moved(l, now, now, len), t) == Granted(l, t)
  {
    MovedAt(l, now, now, len, max, t);
  }

  /** The answer to 128 bytes for the slot after an idle period. */
  lemma IdleAnswer(l: Ledger)
    requires Granted(l, TWO_32 + 2) == 0
    ensures
      var late := LONG_IDLE + UNIT_TIME_INTERVAL;
      && Accepted(LONG_IDLE, late)
      && (Granted(l, TWO_32 + 1) == 2 ==> Answer(l, 2, LONG_IDLE, late, 0, 1, 1).time == late + UNIT_TIME_INTERVAL)
      && (Granted(l, TWO_32 + 1) == 0 ==> Answer(l, 2, LONG_IDLE, late, 0, 1, 1).time == late)
  {
    hide Charge;
    var t, last := TWO_32 + 1, TWO_32 + NR_CREDIT_ENTRIES - 1;
    if Granted(l, t) == 2 {
      ChargeNext(l, 2, t, last, 1);
    } else if Granted(l, t) == 0 {
      ChargeAtOnce(l, 2, t, last, 1);
    }
  }

  /** It shows: a request for 128 bytes waits a slot that it does not wait on a channel that
      was never used. */
  method IdleTooLong() returns (idle: nat, unused: nat)
    ensures unused == LONG_IDLE + UNIT_TIME_INTERVAL && idle == unused + UNIT_TIME_INTERVAL
  {
    hide Answer, Agrees, Moved;
    var ch, made := StaleRing();
    MovedStays(ch.ledger, TWO_32, ch.validLen, 2, TWO_32 + 1);
    MovedStays(ch.ledger, TWO_32, ch.validLen, 2, TWO_32 + 2);
    IdleAnswer(Moved(ch.ledger, TWO_32, TWO_32, ch.validLen));
    idle := ch.Request(LONG_IDLE, LONG_IDLE + UNIT_TIME_INTERVAL, 128);
    var other := new Channel(2, 0);
    MovedNothing(0, TWO_32);
    IdleAnswer(Moved(map[], 0, TWO_32, 0));
    unused := other.Request(LONG_IDLE, LONG_IDLE + UNIT_TIME_INTERVAL, 128);
  }
}

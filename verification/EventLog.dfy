/** The FDP event ring and its enable mask (fdp_ftl.c), proved against the history of all
    emissions.  Time stamps are inputs. */
module EventLog {
  import opened Common

  const FDP_NR_EVENTS: nat := 63

  /** The events that the device supports: RU not fully written, invalid placement
      identifier, implicitly modified RU. */
  const TYPES: seq<nat> := [0x0, 0x3, 0x81]

  datatype Event = Event(evt: nat, flags: nat, pid: nat, timestamp: nat, nsid: nat)

  /** One descriptor of a Set Features command. */
  datatype Descriptor = Descriptor(evt: nat, evta: nat)

  /** An emission, and whether its type was enabled at the time. */
  datatype Emitted = Emitted(ev: Event, on: bool)

  // ---------------------------------------------------------------- the enable mask

  predicate MaskOk(mask: seq<bool>) { |mask| == |TYPES| }

  predicate Enabled(mask: seq<bool>, evt: nat)
    requires MaskOk(mask)
  {
    (evt == 0x0 && mask[0]) || (evt == 0x3 && mask[1]) || (evt == 0x81 && mask[2])
  }

  function Bit(x: nat): (r: bool) { x % 2 == 1 }

  /** The mask after one descriptor: its type, if supported, is switched to its low bit. */
  function Switched(mask: seq<bool>, d: Descriptor): (r: seq<bool>)
    requires MaskOk(mask)
    ensures MaskOk(r)
  {
    seq(|TYPES|, (j: nat) => if j < |TYPES| && TYPES[j] == d.evt then Bit(d.evta) else j < |mask| && mask[j])
  }

  lemma SwitchedAt(mask: seq<bool>, d: Descriptor, j: nat)
    requires MaskOk(mask) && j < |TYPES|
    ensures Switched(mask, d)[j] == if TYPES[j] == d.evt then Bit(d.evta) else mask[j]
  {
  }

  function SwitchAll(mask: seq<bool>, ds: seq<Descriptor>): (r: seq<bool>)
    requires MaskOk(mask)
    ensures MaskOk(r)
  {
    if ds == [] then mask else Switched(SwitchAll(mask, ds[..|ds| - 1]), ds[|ds| - 1])
  }

  function Supported(ds: seq<Descriptor>): (r: nat) {
    if ds == [] then 0 else Supported(ds[..|ds| - 1]) + if ds[|ds| - 1].evt in TYPES then 1 else 0
  }

  /** ds[i] is the last descriptor of type evt. */
  ghost predicate LastNaming(ds: seq<Descriptor>, i: nat, evt: nat) {
    i < |ds| && ds[i].evt == evt && forall k :: i < k < |ds| ==> ds[k].evt != evt
  }

  /** A type is enabled as the last descriptor that names it says, or as before. */
  lemma {:induction false} LastSwitchWins(mask: seq<bool>, ds: seq<Descriptor>, j: nat)
    requires MaskOk(mask) && j < |TYPES|
    ensures (forall i :: 0 <= i < |ds| ==> ds[i].evt != TYPES[j]) ==> SwitchAll(mask, ds)[j] == mask[j]
    ensures forall i :: 0 <= i < |ds| && LastNaming(ds, i, TYPES[j]) ==> SwitchAll(mask, ds)[j] == Bit(ds[i].evta)
  {
    if ds != [] {
      hide Switched;
      var n := |ds| - 1;
      LastSwitchWins(mask, ds[..n], j);
      SwitchedAt(SwitchAll(mask, ds[..n]), ds[n], j);
      forall i | 0 <= i < n && LastNaming(ds, i, TYPES[j])
        ensures LastNaming(ds[..n], i, TYPES[j]) && ds[n].evt != TYPES[j]
      {
      }
    }
  }

  // ---------------------------------------------------------------- the ring

  /** The events recorded so far: those emitted while their type was enabled. */
  ghost function Recorded(all: seq<Emitted>): seq<Event> {
    if all == [] then []
    else Recorded(all[..|all| - 1]) + if all[|all| - 1].on then [all[|all| - 1].ev] else []
  }

  lemma RecordedAppend(all: seq<Emitted>, e: Emitted)
    ensures Recorded(all + [e]) == if e.on then Recorded(all) + [e.ev] else Recorded(all)
  {
    assert (all + [e])[..|all|] == all;
  }

  function Slot(head: nat, i: nat): (r: nat)
    requires head < FDP_NR_EVENTS && i < FDP_NR_EVENTS
    ensures r < FDP_NR_EVENTS
  {
    (head + FDP_NR_EVENTS - 1 - i) % FDP_NR_EVENTS
  }

  /** The i-th latest event is in slot head - 1 - i. */
  ghost predicate Holds(ring: seq<Event>, head: nat, n: nat, history: seq<Event>) {
    && |ring| == FDP_NR_EVENTS && head < FDP_NR_EVENTS
    && n == (if |history| < FDP_NR_EVENTS then |history| else FDP_NR_EVENTS)
    && forall i :: 0 <= i < n ==> ring[Slot(head, i)] == history[|history| - 1 - i]
  }

  lemma SlotIs(head: nat, i: nat)
    requires head < FDP_NR_EVENTS && i < FDP_NR_EVENTS
    ensures Slot(head, i) == if i < head then head - 1 - i else head + FDP_NR_EVENTS - 1 - i
  {
  }

  /** Moving the head makes every event one older; the newest is in the slot left. */
  lemma SlotShift(head: nat, i: nat)
    requires head < FDP_NR_EVENTS && i < FDP_NR_EVENTS
    ensures
      var slot := Slot((head + 1) % FDP_NR_EVENTS, i);
      if i == 0 then slot == head else slot == Slot(head, i - 1) && slot != head
  {
    hide Slot;
    var head1 := if head + 1 < FDP_NR_EVENTS then head + 1 else 0;
    assert head1 == (head + 1) % FDP_NR_EVENTS;
    SlotIs(head1, i);
    if i > 0 {
      SlotIs(head, i - 1);
    }
  }

  lemma RecordHolds(ring: seq<Event>, head: nat, n: nat, history: seq<Event>, ev: Event)
    requires Holds(ring, head, n, history)
    ensures Holds(ring[head := ev], (head + 1) % FDP_NR_EVENTS, if n < FDP_NR_EVENTS then n + 1 else n, history + [ev])
  {
    hide Slot;
    var head1, n1, h1 := (head + 1) % FDP_NR_EVENTS, if n < FDP_NR_EVENTS then n + 1 else n, history + [ev];
    forall i | 0 <= i < n1
      ensures ring[head := ev][Slot(head1, i)] == h1[|h1| - 1 - i]
    {
      SlotShift(head, i);
    }
  }

  class Log {
    const ring: array<Event>
    var head: nat
    var count: nat
    var mask: seq<bool>
    ghost var all: seq<Emitted>

    ghost predicate Valid()
      reads this, ring
    {
      MaskOk(mask) && Holds(ring[..], head, count, Recorded(all))
    }

    /** fdp_init_ctx. */
    constructor ()
      ensures Valid() && fresh(ring) && all == [] && mask == [false, false, false]
    {
      ring := new Event[FDP_NR_EVENTS](_ => Event(0, 0, 0, 0, 0));
      head, count := 0, 0;
      mask := [false, false, false];
      all := [];
    }

    /** The search of fdp_emit_event for the event's type. */
    method IsEnabled(evt: nat) returns (on: bool)
      requires MaskOk(mask)
      ensures on == Enabled(mask, evt)
    {
      var i := 0;
      while i < |TYPES|
        invariant 0 <= i <= |TYPES| && forall k :: 0 <= k < i ==> TYPES[k] != evt
      {
        if TYPES[i] == evt {
          return mask[i];
        }
        i := i + 1;
      }
      assert TYPES[0] != evt && TYPES[1] != evt && TYPES[2] != evt;
      return false;
    }

    /** The ring part of fdp_emit_event. */
    method Record(ev: Event)
      requires Valid()
      modifies ring, `head, `count, `all
      ensures Valid() && all == old(all) + [Emitted(ev, true)]
    {
      hide Holds, Enabled;
      HoldsFacts();
      RecordHolds(ring[..], head, count, Recorded(all), ev);
      RecordedAppend(all, Emitted(ev, true));
      all := all + [Emitted(ev, true)];
      ring[head] := ev;
      head := (head + 1) % FDP_NR_EVENTS;
      if count < FDP_NR_EVENTS {
        count := count + 1;
      }
    }

    lemma HoldsFacts()
      requires Valid()
      ensures ring.Length == FDP_NR_EVENTS && head < FDP_NR_EVENTS && count <= FDP_NR_EVENTS
    {
    }

    /** fdp_emit_event. */
    method Emit(evt: nat, flags: nat, pid: nat, nsid: nat, clock: nat)
      requires Valid()
      modifies ring, `head, `count, `all
      ensures Valid() && all == old(all) + [Emitted(Event(evt, flags, pid, clock, nsid), Enabled(mask, evt))]
    {
      hide Holds, Enabled;
      var ev := Event(evt, flags, pid, clock, nsid);
      var on := IsEnabled(evt);
      if on {
        Record(ev);
      } else {
        RecordedAppend(all, Emitted(ev, false));
        all := all + [Emitted(ev, false)];
      }
    }

    /** The events log page: the latest recorded events, the most recent first. */
    method GetLog() returns (log: seq<Event>)
      requires Valid()
      ensures
        var history := Recorded(all);
        && |log| == (if |history| < FDP_NR_EVENTS then |history| else FDP_NR_EVENTS)
        && forall i :: 0 <= i < |log| ==> log[i] == history[|history| - 1 - i]
    {
      log := [];
      for i := 0 to count
        invariant |log| == i && forall k :: 0 <= k < i ==> log[k] == Recorded(all)[|Recorded(all)| - 1 - k]
      {
        log := log + [ring[Slot(head, i)]];
      }
    }

    /** fdp_set_feature_events.  The number of descriptors is taken from eight bits only. */
    method SetFeature(dw11: nat, descriptors: Option<seq<Descriptor>>) returns (result: nat)
      requires Valid()
      requires descriptors.Some? ==> (dw11 / 0x10000) % 0x100 <= |descriptors.value|
      modifies `mask
      ensures Valid()
      ensures
        match descriptors
        case None => result == 0 && mask == old(mask)
        case Some(ds) =>
          var used := ds[..(dw11 / 0x10000) % 0x100];
          mask == SwitchAll(old(mask), used) && result == Supported(used)
    {
      var noet := (dw11 / 0x10000) % 0x100;
      result := 0;
      if descriptors.None? {
        return;
      }
      var ds := descriptors.value;
      assert ds[..0] == [];
      for i := 0 to noet
        invariant MaskOk(mask) && mask == SwitchAll(old(mask), ds[..i]) && result == Supported(ds[..i])
      {
        assert ds[..i + 1][..i] == ds[..i];
        mask, result := SwitchOne(mask, result, ds[i]);
      }
    }

    /** The inner loop of fdp_set_feature_events. */
    static method SwitchOne(mask: seq<bool>, result: nat, d: Descriptor) returns (mask1: seq<bool>, result1: nat)
      requires MaskOk(mask)
      ensures mask1 == Switched(mask, d) && result1 == result + if d.evt in TYPES then 1 else 0
    {
      mask1, result1 := mask, result;
      for j := 0 to |TYPES|
        invariant MaskOk(mask1)
        invariant forall k :: 0 <= k < |TYPES| ==>
          mask1[k] == if k < j && TYPES[k] == d.evt then Bit(d.evta) else mask[k]
        invariant result1 == result + if d.evt in TYPES[..j] then 1 else 0
      {
        if TYPES[j] == d.evt {
          mask1 := mask1[j := Bit(d.evta)];
          result1 := result1 + 1;
        }
      }
      assert TYPES[..|TYPES|] == TYPES;
    }

    /** fdp_get_feature_events; without a buffer only the number of types is returned. */
    method GetFeature(buffer: bool) returns (result: nat, descriptors: Option<seq<Descriptor>>)
      requires Valid()
      ensures result == |TYPES| && (descriptors.Some? <==> buffer)
      ensures buffer ==> |descriptors.value| == result && Describes(descriptors.value)
    {
      result := |TYPES|;
      if !buffer {
        return result, None;
      }
      var ds: seq<Descriptor> := [];
      for j := 0 to |TYPES|
        invariant |ds| == j
        invariant forall k :: 0 <= k < j ==> ds[k] == Descriptor(TYPES[k], if mask[k] then 1 else 0)
      {
        ds := ds + [Descriptor(TYPES[j], if mask[j] then 1 else 0)];
      }
      descriptors := Some(ds);
    }

    /** Each supported type once, with its enable bit. */
    ghost predicate Describes(ds: seq<Descriptor>)
      requires MaskOk(mask)
      reads this
    {
      |ds| == |TYPES| && forall j :: 0 <= j < |TYPES| ==>
        ds[j].evt == TYPES[j] && (Bit(ds[j].evta) <==> Enabled(mask, TYPES[j]))
    }
  }
}

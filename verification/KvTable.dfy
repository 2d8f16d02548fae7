/** The key-value mapping table (kv_ftl.c): coalesced hashing in a fixed array.

    Keys have one fixed length and entries are never deleted.  The location that the value
    allocator hands out is an input. */
module KvTable {
  import opened Common
  import opened Finite

  type Key = seq<bv8>

  const NONE: int := -1

  /** struct mapping_entry; an entry whose mem is -1 is not in use. */
  datatype Entry = Entry(key: Key, mem: int, length: nat, next: int)

  datatype Value = Value(mem: int, length: nat)

  predicate Used(e: Entry) { e.mem != NONE }

  /** hash_function and get_hash_slot. */
  function Hash(h: bv32, key: Key): (r: bv32)
    decreases |key|
  {
    if key == [] then h else Hash((h * 16777619) ^ (key[0] as bv32), key[1..])
  }

  function Home(key: Key, slots: nat): (r: nat)
    requires slots >= 1
    ensures r < slots
  {
    (Hash(2166136261, key) as nat) % slots
  }

  // ---------------------------------------------------------------- chains

  /** Links lead from used entries to entries used later: stamp is the time of first use. */
  ghost predicate LinksOk(t: seq<Entry>, stamp: seq<nat>, top: nat) {
    && |stamp| == |t| >= 1
    && (forall i :: 0 <= i < |t| ==> stamp[i] <= top)
    && (forall i :: 0 <= i < |t| && !Used(t[i]) ==> t[i].next == NONE)
    && (forall i :: 0 <= i < |t| && t[i].next != NONE ==> LinkOk(t, stamp, i))
  }

  ghost predicate LinkOk(t: seq<Entry>, stamp: seq<nat>, i: nat)
    requires |stamp| == |t| && i < |t|
  {
    0 <= t[i].next < |t| && Used(t[t[i].next]) && stamp[i] < stamp[t[i].next]
  }

  /** x lies on the chain from s. */
  ghost predicate Reach(t: seq<Entry>, stamp: seq<nat>, top: nat, s: nat, x: nat)
    requires LinksOk(t, stamp, top) && s < |t|
    decreases top - stamp[s]
  {
    Used(t[s]) && (s == x || (t[s].next != NONE && LinkOk(t, stamp, s) && Reach(t, stamp, top, t[s].next, x)))
  }

  /** The last entry of the chain from s. */
  ghost function Tail(t: seq<Entry>, stamp: seq<nat>, top: nat, s: nat): (r: nat)
    requires LinksOk(t, stamp, top) && s < |t|
    ensures r < |t| && t[r].next == NONE && (Used(t[s]) ==> Used(t[r]))
    decreases top - stamp[s]
  {
    if t[s].next == NONE then s else assert LinkOk(t, stamp, s); Tail(t, stamp, top, t[s].next)
  }

  lemma {:induction false} TailReached(t: seq<Entry>, stamp: seq<nat>, top: nat, s: nat)
    requires LinksOk(t, stamp, top) && s < |t| && Used(t[s])
    ensures Reach(t, stamp, top, s, Tail(t, stamp, top, s))
    decreases top - stamp[s]
  {
    if t[s].next != NONE {
      assert LinkOk(t, stamp, s);
      TailReached(t, stamp, top, t[s].next);
    }
  }

  /** The table with entry e in the free slot n, linked behind slot p unless p is -1. */
  ghost function Linked(t: seq<Entry>, p: int, n: nat, e: Entry): (r: seq<Entry>)
    requires n < |t| && p < |t|
  {
    var t1 := t[n := e];
    if p >= 0 then t1[p := t1[p].(next := n)] else t1
  }

  lemma LinkedOk(t: seq<Entry>, stamp: seq<nat>, top: nat, p: int, n: nat, e: Entry)
    requires LinksOk(t, stamp, top) && n < |t| && !Used(t[n]) && Used(e) && e.next == NONE
    requires p == NONE || (0 <= p < |t| && Used(t[p]) && t[p].next == NONE)
    ensures LinksOk(Linked(t, p, n, e), stamp[n := top + 1], top + 1)
  {
    var t1, st := Linked(t, p, n, e), stamp[n := top + 1];
    forall i | 0 <= i < |t1| && t1[i].next != NONE
      ensures LinkOk(t1, st, i)
    {
      if i != p && i != n {
        assert LinkOk(t, stamp, i);
      }
    }
  }

  /** Linking a new entry cuts no chain... */
  lemma {:induction false} ReachKept(t: seq<Entry>, stamp: seq<nat>, top: nat, p: int, n: nat, e: Entry, s: nat, x: nat)
    requires LinksOk(t, stamp, top) && n < |t| && !Used(t[n]) && Used(e) && e.next == NONE
    requires p == NONE || (0 <= p < |t| && Used(t[p]) && t[p].next == NONE)
    requires s < |t| && Reach(t, stamp, top, s, x)
    ensures LinksOk(Linked(t, p, n, e), stamp[n := top + 1], top + 1)
    ensures Reach(Linked(t, p, n, e), stamp[n := top + 1], top + 1, s, x)
    decreases top - stamp[s]
  {
    LinkedOk(t, stamp, top, p, n, e);
    if s != x {
      ReachKept(t, stamp, top, p, n, e, t[s].next, x);
      assert s != p && s != n;
      assert LinkOk(Linked(t, p, n, e), stamp[n := top + 1], s);
    }
  }

  /** ...and puts it on every chain that led to its predecessor. */
  lemma {:induction false} ReachExtended(t: seq<Entry>, stamp: seq<nat>, top: nat, p: nat, n: nat, e: Entry, s: nat)
    requires LinksOk(t, stamp, top) && n < |t| && !Used(t[n]) && Used(e) && e.next == NONE
    requires p < |t| && Used(t[p]) && t[p].next == NONE && s < |t| && Reach(t, stamp, top, s, p)
    ensures LinksOk(Linked(t, p, n, e), stamp[n := top + 1], top + 1)
    ensures Reach(Linked(t, p, n, e), stamp[n := top + 1], top + 1, s, n)
    decreases top - stamp[s]
  {
    LinkedOk(t, stamp, top, p, n, e);
    var t1, st := Linked(t, p, n, e), stamp[n := top + 1];
    if s == p {
      assert LinkOk(t1, st, p);
      assert Reach(t1, st, top + 1, n, n);
    } else {
      ReachExtended(t, stamp, top, p, n, e, t[s].next);
      assert LinkOk(t1, st, s);
    }
  }

  // ---------------------------------------------------------------- the table

  /** Every key is stored once, on the chain from its home slot. */
  ghost predicate KeysOk(t: seq<Entry>, stamp: seq<nat>, top: nat, slotOf: map<Key, nat>)
    requires LinksOk(t, stamp, top)
  {
    && (forall i :: 0 <= i < |t| && Used(t[i]) ==> t[i].key in slotOf && slotOf[t[i].key] == i)
    && (forall k :: k in slotOf ==> KeyOk(t, stamp, top, k, slotOf[k]))
  }

  ghost predicate KeyOk(t: seq<Entry>, stamp: seq<nat>, top: nat, k: Key, x: nat)
    requires LinksOk(t, stamp, top)
  {
    x < |t| && Used(t[x]) && t[x].key == k && Reach(t, stamp, top, Home(k, |t|), x)
  }

  ghost function ContentsOf(t: seq<Entry>, slotOf: map<Key, nat>): map<Key, Value> {
    map k | k in slotOf && slotOf[k] < |t| :: Value(t[slotOf[k]].mem, t[slotOf[k]].length)
  }

  /** The slot that find_next_slot looks at after k steps from s. */
  function Probe(s: nat, k: nat, slots: nat): (r: nat)
    requires s < slots
    ensures r < slots
  {
    if k == 0 then s
    else
      var p := Probe(s, k - 1, slots) + 1;
      if p >= slots then 0 else p
  }

  lemma {:induction false} ProbeIs(s: nat, k: nat, slots: nat)
    requires s < slots && k < slots
    ensures Probe(s, k, slots) == if s + k < slots then s + k else s + k - slots
  {
    if k > 0 {
      ProbeIs(s, k - 1, slots);
    }
  }

  /** The probing ends exactly when some entry is free; on a full table it goes on for ever. */
  lemma ProbeEndsIff(t: seq<Entry>, s: nat)
    requires s < |t|
    ensures (exists k: nat :: !Used(t[Probe(s, k, |t|)])) <==> exists i :: 0 <= i < |t| && !Used(t[i])
  {
    if i: nat :| i < |t| && !Used(t[i]) {
      var k := if s <= i then i - s else i + |t| - s;
      ProbeIs(s, k, |t|);
      assert !Used(t[Probe(s, k, |t|)]);
    }
  }

  /** The table has a free entry exactly when it holds fewer keys than it has entries. */
  lemma RoomIff(t: seq<Entry>, stamp: seq<nat>, top: nat, slotOf: map<Key, nat>)
    requires LinksOk(t, stamp, top) && KeysOk(t, stamp, top, slotOf)
    ensures (exists i :: 0 <= i < |t| && !Used(t[i])) <==> |slotOf.Keys| < |t|
  {
    hide Reach, LinksOk;
    var image := set k | k in slotOf.Keys :: slotOf[k];
    ImageCard(slotOf.Keys, slotOf, image);
    forall x | x in image
      ensures x in Range(|t|)
    {
      var k :| k in slotOf.Keys && slotOf[k] == x;
      assert KeyOk(t, stamp, top, k, slotOf[k]);
    }
    SubsetCard(image, Range(|t|));
    if i :| 0 <= i < |t| && !Used(t[i]) {
      forall k | k in slotOf.Keys
        ensures slotOf[k] != i
      {
        assert KeyOk(t, stamp, top, k, slotOf[k]);
      }
      assert i in Range(|t|) && i !in image;
    } else {
      forall x | x in Range(|t|)
        ensures x in image
      {
        assert Used(t[x]) && slotOf[t[x].key] == x;
      }
      assert image == Range(|t|);
    }
  }

  /** Slot n is where a new entry belongs: behind the tail of its home chain, or at its free
      home slot. */
  ghost predicate Fits(t: seq<Entry>, stamp: seq<nat>, top: nat, p: int, n: nat, e: Entry)
    requires LinksOk(t, stamp, top)
  {
    && n < |t| && !Used(t[n]) && Used(e) && e.next == NONE
    && var h := Home(e.key, |t|);
       if Used(t[h]) then p == Tail(t, stamp, top, h) else p == NONE && n == h
  }

  lemma FitsFree(t: seq<Entry>, stamp: seq<nat>, top: nat, p: int, n: nat, e: Entry)
    requires LinksOk(t, stamp, top) && Fits(t, stamp, top, p, n, e)
    ensures p == NONE || (0 <= p < |t| && Used(t[p]) && t[p].next == NONE)
    ensures n < |t| == |stamp| && !Used(t[n]) && Used(e) && e.next == NONE && p != n
  {
    hide Home;
  }

  lemma NewKeyOk(t: seq<Entry>, stamp: seq<nat>, top: nat, p: int, n: nat, e: Entry)
    requires LinksOk(t, stamp, top) && Fits(t, stamp, top, p, n, e) && p < |t|
    ensures LinksOk(Linked(t, p, n, e), stamp[n := top + 1], top + 1)
    ensures KeyOk(Linked(t, p, n, e), stamp[n := top + 1], top + 1, e.key, n)
  {
    hide Home;
    var h := Home(e.key, |t|);
    FitsFree(t, stamp, top, p, n, e);
    LinkedOk(t, stamp, top, p, n, e);
    if Used(t[h]) {
      TailReached(t, stamp, top, h);
      ReachExtended(t, stamp, top, p, n, e, h);
    }
  }

  lemma OldKeyOk(t: seq<Entry>, stamp: seq<nat>, top: nat, p: int, n: nat, e: Entry, k: Key, x: nat)
    requires LinksOk(t, stamp, top) && Fits(t, stamp, top, p, n, e) && p < |t| && KeyOk(t, stamp, top, k, x)
    ensures LinksOk(Linked(t, p, n, e), stamp[n := top + 1], top + 1)
    ensures KeyOk(Linked(t, p, n, e), stamp[n := top + 1], top + 1, k, x)
  {
    FitsFree(t, stamp, top, p, n, e);
    hide Home, Fits;
    ReachKept(t, stamp, top, p, n, e, Home(k, |t|), x);
  }

  lemma InsertContents(t: seq<Entry>, slotOf: map<Key, nat>, p: int, n: nat, e: Entry)
    requires n < |t| && p < |t| && p != n && (forall k :: k in slotOf ==> slotOf[k] < |t| && slotOf[k] != n)
    ensures ContentsOf(Linked(t, p, n, e), slotOf[e.key := n]) == ContentsOf(t, slotOf)[e.key := Value(e.mem, e.length)]
  {
  }

  /** Storing a new key. */
  lemma InsertKeeps(t: seq<Entry>, stamp: seq<nat>, top: nat, slotOf: map<Key, nat>, p: int, n: nat, e: Entry)
    requires LinksOk(t, stamp, top) && KeysOk(t, stamp, top, slotOf) && Fits(t, stamp, top, p, n, e) && e.key !in slotOf
    ensures n < |t| && p < |t|
    ensures
      var t1, st, own := Linked(t, p, n, e), stamp[n := top + 1], slotOf[e.key := n];
      && LinksOk(t1, st, top + 1) && KeysOk(t1, st, top + 1, own)
      && ContentsOf(t1, own) == ContentsOf(t, slotOf)[e.key := Value(e.mem, e.length)]
  {
    hide Home, Fits, Reach, LinksOk, ContentsOf;
    FitsFree(t, stamp, top, p, n, e);
    NewKeyOk(t, stamp, top, p, n, e);
    var t1, st, own := Linked(t, p, n, e), stamp[n := top + 1], slotOf[e.key := n];
    forall k | k in slotOf
      ensures KeyOk(t1, st, top + 1, k, slotOf[k]) && slotOf[k] < |t| && slotOf[k] != n
    {
      assert KeyOk(t, stamp, top, k, slotOf[k]);
      OldKeyOk(t, stamp, top, p, n, e, k, slotOf[k]);
    }
    InsertContents(t, slotOf, p, n, e);
  }

  class Table {
    const table: array<Entry>
    ghost var stamp: seq<nat>
    ghost var top: nat
    ghost var slotOf: map<Key, nat>

    ghost predicate Valid()
      reads this, table
    {
      LinksOk(table[..], stamp, top) && KeysOk(table[..], stamp, top, slotOf)
    }

    /** The finite map that the table represents. */
    ghost function Contents(): map<Key, Value>
      reads this, table
    {
      ContentsOf(table[..], slotOf)
    }

    ghost predicate HasRoom()
      reads table
    {
      exists i :: 0 <= i < table.Length && !Used(table[i])
    }

    /** kv_init_namespace's table. */
    constructor (slots: nat)
      requires slots >= 1
      ensures Valid() && fresh(table) && table.Length == slots && Contents() == map[]
    {
      table := new Entry[slots](_ => Entry([], NONE, 0, NONE));
      stamp, top, slotOf := seq(slots, (i: nat) => 0), 0, map[];
    }

    /** The chain walk of get_mapping_entry and update_mapping_entry. */
    method Find(key: Key) returns (slot: int)
      requires Valid()
      ensures slot == if key in slotOf then slotOf[key] else NONE
      ensures slot != NONE ==> 0 <= slot < table.Length && Used(table[slot]) && table[slot].key == key
    {
      ghost var t := table[..];
      slot := Home(key, table.Length);
      assert key in slotOf ==> KeyOk(t, stamp, top, key, slotOf[key]);
      hide Home;
      while Used(table[slot])
        invariant 0 <= slot < table.Length
        invariant key in slotOf ==> Reach(t, stamp, top, slot, slotOf[key])
        decreases top - stamp[slot]
      {
        if table[slot].key == key {
          return;
        }
        if table[slot].next == NONE {
          break;
        }
        assert LinkOk(t, stamp, slot);
        slot := table[slot].next;
      }
      slot := NONE;
    }

    /** get_mapping_entry. */
    method Get(key: Key) returns (r: Option<Value>)
      requires Valid()
      ensures r == if key in Contents() then Some(Contents()[key]) else None
    {
      var slot := Find(key);
      assert key in slotOf ==> KeyOk(table[..], stamp, top, key, slotOf[key]);
      if slot == NONE {
        return None;
      }
      return Some(Value(table[slot].mem, table[slot].length));
    }

    /** find_next_slot: the tail of the chain from a used slot, and a free slot after it.  The
        probing ends because the table has room. */
    method FindNextSlot(s: nat) returns (slot: nat, prev: nat)
      requires Valid() && s < table.Length && Used(table[s]) && HasRoom()
      ensures prev == Tail(table[..], stamp, top, s)
      ensures slot < table.Length && !Used(table[slot])
    {
      ghost var t := table[..];
      prev := s;
      while table[prev].next != NONE
        invariant prev < table.Length && Used(table[prev]) && Tail(t, stamp, top, prev) == Tail(t, stamp, top, s)
        decreases top - stamp[prev]
      {
        assert LinkOk(t, stamp, prev);
        prev := table[prev].next;
      }
      slot := prev;
      ghost var goal: nat :| goal < table.Length && !Used(table[goal]);
      while Used(table[slot])
        invariant slot < table.Length
        decreases if slot <= goal then goal - slot else goal + table.Length - slot
      {
        slot := slot + 1;
        if slot >= table.Length {
          slot := 0;
        }
      }
    }

    /** Where new_mapping_entry puts a key: its home slot, or a free slot linked behind the
        tail of the chain there. */
    method Place(key: Key, ghost mem: nat, ghost length: nat) returns (slot: nat, prev: int)
      requires Valid() && HasRoom()
      ensures slot < table.Length && table[slot].next == NONE && prev < table.Length
      ensures Fits(table[..], stamp, top, prev, slot, Entry(key, mem, length, NONE))
    {
      UnusedUnlinked(table[..], stamp, top);
      hide Reach, LinksOk, KeysOk, Home;
      slot := Home(key, table.Length);
      prev := NONE;
      if Used(table[slot]) {
        slot, prev := FindNextSlot(slot);
      }
    }

    /** new_mapping_entry. */
    method NewEntry(key: Key, mem: nat, length: nat)
      requires Valid() && key !in Contents() && HasRoom()
      modifies this, table
      ensures Valid() && Contents() == old(Contents())[key := Value(mem, length)]
    {
      hide Reach, LinksOk, KeysOk, ContentsOf, Fits, Linked;
      ghost var t := table[..];
      KeysSame(t, stamp, top, slotOf);
      var slot, prev := Place(key, mem, length);
      ghost var e := Entry(key, mem, length, NONE);
      FitsFree(t, stamp, top, prev, slot, e);
      InsertKeeps(t, stamp, top, slotOf, prev, slot, e);
      WriteEntry(slot, prev, key, mem, length);
      stamp, top, slotOf := stamp[slot := top + 1], top + 1, slotOf[key := slot];
    }

    method WriteEntry(slot: nat, prev: int, key: Key, mem: nat, length: nat)
      requires slot < table.Length && -1 <= prev < table.Length && table[slot].next == NONE
      modifies table
      ensures table[..] == Linked(old(table[..]), prev, slot, Entry(key, mem, length, NONE))
    {
      table[slot] := Entry(key, mem, length, table[slot].next);
      if prev != NONE {
        table[prev] := table[prev].(next := slot);
      }
    }

    /** update_mapping_entry. */
    method UpdateEntry(key: Key, length: nat) returns (found: bool)
      requires Valid()
      modifies table
      ensures Valid() && found == (key in old(Contents()))
      ensures Contents() ==
        if found then old(Contents())[key := Value(old(Contents())[key].mem, length)] else old(Contents())
    {
      ghost var t := table[..];
      var slot := Find(key);
      assert key in slotOf ==> KeyOk(t, stamp, top, key, slotOf[key]);
      found := slot != NONE;
      if found {
        table[slot] := table[slot].(length := length);
        assert table[..] == t[slot := t[slot].(length := length)];
        ResizeKeeps(t, stamp, top, slotOf, slot, length);
      }
    }

    /** The store branch of kv_perform_nvme_io_cmd: a new key gets the location that the
        allocator offers, a known one keeps its location and changes its length, unless
        either length is too large. */
    method Store(key: Key, mem: nat, length: nat)
      requires Valid() && (key in Contents() || HasRoom())
      modifies this, table
      ensures Valid() && Contents() == Stored(old(Contents()), key, mem, length)
    {
      hide LinksOk, KeysOk, ContentsOf;
      var entry := Get(key);
      match entry
      case None =>
        NewEntry(key, mem, length);
      case Some(v) =>
        if length != v.length && length <= SMALL_LENGTH && v.length <= SMALL_LENGTH {
          var found := UpdateEntry(key, length);
        }
    }
  }

  const SMALL_LENGTH: nat := 1024

  /** The map after a store command. */
  function Stored(m: map<Key, Value>, key: Key, mem: nat, length: nat): (r: map<Key, Value>) {
    if key !in m then m[key := Value(mem, length)]
    else if length <= SMALL_LENGTH && m[key].length <= SMALL_LENGTH then m[key := Value(m[key].mem, length)]
    else m
  }

  datatype StoreCmd = StoreCmd(key: Key, mem: nat, length: nat)

  /** The map after a sequence of store commands. */
  function StoredAll(m: map<Key, Value>, cmds: seq<StoreCmd>): (r: map<Key, Value>) {
    if cmds == [] then m
    else
      var c := cmds[|cmds| - 1];
      Stored(StoredAll(m, cmds[..|cmds| - 1]), c.key, c.mem, c.length)
  }

  ghost predicate Names(cmds: seq<StoreCmd>, key: Key) {
    exists j :: 0 <= j < |cmds| && cmds[j].key == key
  }

  /** Command f is the first for the key... */
  ghost predicate FirstFor(cmds: seq<StoreCmd>, key: Key, f: nat) {
    f < |cmds| && cmds[f].key == key && forall j :: 0 <= j < f ==> cmds[j].key != key
  }

  /** ...and command j the last whose value is small. */
  ghost predicate LastSmall(cmds: seq<StoreCmd>, key: Key, j: nat) {
    && j < |cmds| && cmds[j].key == key && cmds[j].length <= 1024
    && forall i :: j < i < |cmds| ==> cmds[i].key != key || cmds[i].length > 1024
  }

  /** From an empty table on, a key is stored exactly if some command named it. */
  lemma {:induction false} StoredKeys(cmds: seq<StoreCmd>, key: Key)
    ensures key in StoredAll(map[], cmds) <==> Names(cmds, key)
  {
    if cmds != [] {
      var n := |cmds| - 1;
      StoredKeys(cmds[..n], key);
      if Names(cmds[..n], key) {
        var i :| 0 <= i < n && cmds[..n][i].key == key;
        assert cmds[i].key == key;
      }
    }
  }

  /** It keeps the location that it got first, and a value that was large at first its length. */
  lemma {:induction false} StoredFirst(cmds: seq<StoreCmd>, key: Key, f: nat)
    requires FirstFor(cmds, key, f)
    ensures
      var m := StoredAll(map[], cmds);
      && key in m && m[key].mem == cmds[f].mem
      && if cmds[f].length > 1024 then m[key].length == cmds[f].length else m[key].length <= 1024
  {
    hide StoredAll;
    var n := |cmds| - 1;
    StoredNext(cmds);
    if f == n {
      StoredKeys(cmds[..n], key);
      assert !Names(cmds[..n], key);
    } else {
      StoredFirst(cmds[..n], key, f);
    }
  }

  /** Any other has the length of the last small one. */
  lemma {:induction false} StoredLast(cmds: seq<StoreCmd>, key: Key, f: nat, j: nat)
    requires FirstFor(cmds, key, f) && LastSmall(cmds, key, j) && cmds[f].length <= 1024
    ensures key in StoredAll(map[], cmds) && StoredAll(map[], cmds)[key].length == cmds[j].length
  {
    hide StoredAll;
    var n := |cmds| - 1;
    StoredNext(cmds);
    if j < n {
      assert f <= j;
      StoredLast(cmds[..n], key, f, j);
    } else if f < n {
      StoredFirst(cmds[..n], key, f);
    } else {
      StoredKeys(cmds[..n], key);
      assert !Names(cmds[..n], key);
    }
  }

  lemma StoredNext(cmds: seq<StoreCmd>)
    requires cmds != []
    ensures
      var c := cmds[|cmds| - 1];
      StoredAll(map[], cmds) == Stored(StoredAll(map[], cmds[..|cmds| - 1]), c.key, c.mem, c.length)
  {
  }

  lemma KeysSame(t: seq<Entry>, stamp: seq<nat>, top: nat, slotOf: map<Key, nat>)
    requires LinksOk(t, stamp, top) && KeysOk(t, stamp, top, slotOf)
    ensures ContentsOf(t, slotOf).Keys == slotOf.Keys
  {
    forall k | k in slotOf
      ensures slotOf[k] < |t|
    {
      assert KeyOk(t, stamp, top, k, slotOf[k]);
    }
  }

  lemma UnusedUnlinked(t: seq<Entry>, stamp: seq<nat>, top: nat)
    requires LinksOk(t, stamp, top)
    ensures |t| >= 1 && forall i :: 0 <= i < |t| && !Used(t[i]) ==> t[i].next == NONE
  {
  }

  /** Changing a length disturbs no chain. */
  lemma ResizeLinks(t: seq<Entry>, stamp: seq<nat>, top: nat, x: nat, length: nat)
    requires LinksOk(t, stamp, top) && x < |t| && Used(t[x])
    ensures LinksOk(t[x := t[x].(length := length)], stamp, top)
  {
    var t1 := t[x := t[x].(length := length)];
    forall i | 0 <= i < |t| && t1[i].next != NONE
      ensures LinkOk(t1, stamp, i)
    {
      assert LinkOk(t, stamp, i);
    }
  }

  lemma ResizeKeeps(t: seq<Entry>, stamp: seq<nat>, top: nat, slotOf: map<Key, nat>, x: nat, length: nat)
    requires LinksOk(t, stamp, top) && KeysOk(t, stamp, top, slotOf) && x < |t| && Used(t[x])
    ensures
      var t1 := t[x := t[x].(length := length)];
      && LinksOk(t1, stamp, top) && KeysOk(t1, stamp, top, slotOf)
      && ContentsOf(t1, slotOf) == ContentsOf(t, slotOf)[t[x].key := Value(t[x].mem, length)]
  {
    hide Home, LinksOk, Reach;
    var t1 := t[x := t[x].(length := length)];
    ResizeLinks(t, stamp, top, x, length);
    forall k | k in slotOf
      ensures KeyOk(t1, stamp, top, k, slotOf[k])
    {
      assert KeyOk(t, stamp, top, k, slotOf[k]);
      ResizeReach(t, stamp, top, x, length, Home(k, |t|), slotOf[k]);
    }
  }

  lemma {:induction false} ResizeReach(t: seq<Entry>, stamp: seq<nat>, top: nat, x: nat, length: nat, s: nat, y: nat)
    requires LinksOk(t, stamp, top) && x < |t| && s < |t| && Reach(t, stamp, top, s, y)
    requires LinksOk(t[x := t[x].(length := length)], stamp, top)
    ensures Reach(t[x := t[x].(length := length)], stamp, top, s, y)
    decreases top - stamp[s]
  {
    if s != y {
      ResizeReach(t, stamp, top, x, length, t[s].next, y);
      assert LinkOk(t[x := t[x].(length := length)], stamp, s);
    }
  }
}

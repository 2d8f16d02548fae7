/** The timing of flash operations (ssd.c): every LUN serves one operation at a time, and
    a flush waits for all of them.

    Clock readings are inputs.  Transfers go through the channel models of ChannelModel: one
    for each flash channel, and one for the PCIe link. */
module NandTiming {
  import opened ChannelModel

  function Max(a: nat, b: nat): (r: nat)
    ensures r >= a && r >= b && (r == a || r == b)
  {
    if a >= b then a else b
  }

  datatype NandCmd = NandRead(dma: bool) | NandWrite | NandErase | NandNop | Unsupported

  /** One operation as a LUN sees it: busy from start to end. */
  datatype Op = Op(cmd: NandCmd, lun: LunId, start: nat, end: nat)

  datatype LunId = LunId(ch: nat, lun: nat)

  datatype Latencies = Latencies(
    read4k: seq<nat>, read: seq<nat>,   // by cell
    program: nat, erase: nat,
    maxXfer: nat)                       // max_ch_xfer_size

  // ---------------------------------------------------------------- schedules

  /** Operations on one LUN do not overlap, in the order in which they were issued. */
  ghost predicate Serial(log: seq<Op>) {
    forall i, j :: 0 <= i < j < |log| && log[i].lun == log[j].lun ==> log[i].end <= log[j].start
  }

  // ---------------------------------------------------------------- transfers

  /** A transfer of part of a page, and the clock when it was requested of the channel and of the
      PCIe link. */
  datatype Piece = Piece(size: nat, now: nat, now1: nat)

  ghost function Size(pieces: seq<Piece>): nat {
    if pieces == [] then 0 else Size(pieces[..|pieces| - 1]) + pieces[|pieces| - 1].size
  }

  /** Pieces of at most max, whole ones but for the last, that make up size. */
  ghost predicate Pieces(pieces: seq<Piece>, size: nat, max: nat) {
    && Size(pieces) == size && (forall i :: 0 <= i < |pieces| ==> 1 <= pieces[i].size <= max)
    && forall i :: 0 <= i < |pieces| - 1 ==> pieces[i].size == max
  }

  /** A channel and the PCIe link, the end of the last transfer over the channel, and that over
      the link. */
  datatype Pipe = Pipe(chan: Usage, link: Usage, xferred: nat, done: nat)

  /** A channel that can serve requests. */
  ghost predicate Usable(r: Rates) { r.maxCredits >= 1 }

  /** One piece from time p.xferred on: over the channel, and from there over the link. */
  ghost function Carried(c: Rates, l: Rates, p: Pipe, piece: Piece, dma: bool): Pipe
    requires Usable(c) && Usable(l)
  {
    var over := Served(c, p.chan, piece.now, p.xferred, piece.size);
    if dma then
      var up := Served(l, p.link, piece.now1, over.time, piece.size);
      Pipe(over.usage, up.usage, over.time, up.time)
    else Pipe(over.usage, p.link, over.time, over.time)
  }

  /** All pieces, one after the other. */
  ghost function CarriedAll(c: Rates, l: Rates, p: Pipe, pieces: seq<Piece>, dma: bool): Pipe
    requires Usable(c) && Usable(l)
  {
    if pieces == [] then p
    else Carried(c, l, CarriedAll(c, l, p, pieces[..|pieces| - 1], dma), pieces[|pieces| - 1], dma)
  }

  lemma CarriedLater(c: Rates, l: Rates, p: Pipe, piece: Piece, dma: bool)
    requires Usable(c) && Usable(l)
    ensures
      var p1 := Carried(c, l, p, piece, dma);
      p.xferred <= p1.xferred <= p1.done && (!dma ==> p1.link == p.link && p1.done == p1.xferred)
  {
    hide Served;
    ServedLater(c, p.chan, piece.now, p.xferred, piece.size);
    ServedLater(l, p.link, piece.now1, Served(c, p.chan, piece.now, p.xferred, piece.size).time, piece.size);
  }

  /** Data arrives no earlier than it is read; without DMA the link is not used. */
  lemma {:induction false} CarriedAllLater(c: Rates, l: Rates, p: Pipe, pieces: seq<Piece>, dma: bool)
    requires Usable(c) && Usable(l) && p.xferred <= p.done
    ensures
      var r := CarriedAll(c, l, p, pieces, dma);
      && p.xferred <= r.xferred <= r.done
      && (!dma ==> r.link == p.link) && (!dma && pieces != [] ==> r.done == r.xferred)
  {
    if pieces != [] {
      hide Carried;
      var n := |pieces| - 1;
      CarriedAllLater(c, l, p, pieces[..n], dma);
      CarriedLater(c, l, CarriedAll(c, l, p, pieces[..n], dma), pieces[n], dma);
    }
  }

  /** The channel charges the piece, and with DMA so does the link. */
  ghost predicate Charges(c: Rates, l: Rates, p: Pipe, piece: Piece, dma: bool)
    requires Usable(c) && Usable(l)
  {
    && Accepted(piece.now, p.xferred)
    && (dma ==> Accepted(piece.now1, Carried(c, l, p, piece, dma).xferred))
  }

  /** A piece that is charged takes the credits of its data from the channel, and with DMA from
      the link, unless they are used up to the end of their rings; and it takes at least the
      transfer times. */
  lemma CarriedCharges(c: Rates, l: Rates, p: Pipe, piece: Piece, dma: bool)
    requires Usable(c) && Usable(l) && UsageOk(c, p.chan) && UsageOk(l, p.link) && Charges(c, l, p, piece, dma)
    ensures
      var p1 := Carried(c, l, p, piece, dma);
      var asked, asked1 := Asked(piece.size, c.commandCredits), Asked(piece.size, l.commandCredits);
      && p1.xferred >= p.xferred + U32(c.xferLat * Units(piece.size))
      && (InUse(p1.chan) == InUse(Waited(p.chan, piece.now)) + asked || RingFull(c, p1.chan))
      && (dma ==> p1.done >= p1.xferred + U32(l.xferLat * Units(piece.size)))
      && (dma ==> InUse(p1.link) == InUse(Waited(p.link, piece.now1)) + asked1 || RingFull(l, p1.link))
  {
    hide Served, InUse, Waited, U32;
    ServedLater(c, p.chan, piece.now, p.xferred, piece.size);
    ServedCharges(c, p.chan, piece.now, p.xferred, piece.size);
    if dma {
      var over := Served(c, p.chan, piece.now, p.xferred, piece.size).time;
      ServedLater(l, p.link, piece.now1, over, piece.size);
      ServedCharges(l, p.link, piece.now1, over, piece.size);
    }
  }

  ghost predicate RingFull(r: Rates, u: Usage) {
    Granted(u.ledger, SlotAt(u.curTime) + NR_CREDIT_ENTRIES - 1) == Cap(r.maxCredits)
  }

  ghost predicate AllCharge(c: Rates, l: Rates, p: Pipe, pieces: seq<Piece>, dma: bool)
    requires Usable(c) && Usable(l)
  {
    pieces != [] ==>
      var n := |pieces| - 1;
      && AllCharge(c, l, p, pieces[..n], dma)
      && Charges(c, l, CarriedAll(c, l, p, pieces[..n], dma), pieces[n], dma)
  }

  /** The time that pieces take on an idle channel. */
  ghost function LeastTime(r: Rates, pieces: seq<Piece>): nat {
    if pieces == [] then 0
    else LeastTime(r, pieces[..|pieces| - 1]) + U32(r.xferLat * Units(pieces[|pieces| - 1].size))
  }

  /** Pieces that are charged take at least their transfer times over the channel, one after the
      other, and the last one then over the link. */
  lemma {:induction false} CarriedTakes(c: Rates, l: Rates, p: Pipe, pieces: seq<Piece>, dma: bool)
    requires Usable(c) && Usable(l) && AllCharge(c, l, p, pieces, dma)
    ensures
      var r := CarriedAll(c, l, p, pieces, dma);
      && r.xferred >= p.xferred + LeastTime(c, pieces)
      && (dma && pieces != [] ==> r.done >= r.xferred + U32(l.xferLat * Units(pieces[|pieces| - 1].size)))
  {
    hide U32;
    if pieces != [] {
      hide Served;
      var n := |pieces| - 1;
      CarriedTakes(c, l, p, pieces[..n], dma);
      var q := CarriedAll(c, l, p, pieces[..n], dma);
      ServedLater(c, q.chan, pieces[n].now, q.xferred, pieces[n].size);
      if dma {
        var over := Served(c, q.chan, pieces[n].now, q.xferred, pieces[n].size).time;
        ServedLater(l, q.link, pieces[n].now1, over, pieces[n].size);
      }
    }
  }

  lemma CarriedNext(c: Rates, l: Rates, p: Pipe, pieces: seq<Piece>, piece: Piece, dma: bool)
    requires Usable(c) && Usable(l)
    ensures CarriedAll(c, l, p, pieces + [piece], dma) == Carried(c, l, CarriedAll(c, l, p, pieces, dma), piece, dma)
  {
    hide Carried;
    var all, n := pieces + [piece], |pieces|;
    assert all[..n] == pieces && all[n] == piece && |all| - 1 == n;
  }

  lemma CarriedNone(c: Rates, l: Rates, p: Pipe, max: nat, dma: bool)
    requires Usable(c) && Usable(l)
    ensures CarriedAll(c, l, p, [], dma) == p && Cut([], 0, max, true)
  {
  }

  /** The pieces cut off so far, all whole if more is to come. */
  ghost predicate Cut(pieces: seq<Piece>, size: nat, max: nat, more: bool) {
    Pieces(pieces, size, max) && (more ==> forall i :: 0 <= i < |pieces| ==> pieces[i].size == max)
  }

  lemma PiecesNext(pieces: seq<Piece>, size: nat, max: nat, left: nat, piece: Piece)
    requires left >= 1 && piece.size == (if left <= max then left else max) >= 1 && Cut(pieces, size, max, true)
    ensures Cut(pieces + [piece], size + piece.size, max, left > piece.size)
  {
    assert (pieces + [piece])[..|pieces|] == pieces;
  }

  /** The clock was read once for each request. */
  ghost predicate Timed(pieces: seq<Piece>, clock: nat -> nat) {
    forall i :: 0 <= i < |pieces| ==> pieces[i].now == clock(2 * i) && pieces[i].now1 == clock(2 * i + 1)
  }

  class Ssd {
    const nchs: nat
    const luns: nat
    const lat: Latencies
    const chans: seq<Channel>
    const pcie: Channel
    const avail: array2<nat>    // next_lun_avail_time
    ghost const models: set<object>    // the objects of the channel models
    ghost var log: seq<Op>

    ghost predicate Sized() {
      && luns >= 1 && avail.Length0 == nchs && avail.Length1 == luns && lat.maxXfer >= 1 && |chans| == nchs
      && this !in models && avail !in models
    }

    /** Every model has its own ring and some bandwidth. */
    ghost predicate Wired() {
      && pcie.maxCredits >= 1 && pcie in models && pcie.ring in models
      && (forall i :: 0 <= i < |chans| ==> chans[i] in models && chans[i].ring in models)
      && (forall i :: 0 <= i < |chans| ==> chans[i].maxCredits >= 1 && chans[i] != pcie && chans[i].ring != pcie.ring)
      && (forall i, j :: 0 <= i < j < |chans| ==> chans[i] != chans[j] && chans[i].ring != chans[j].ring)
    }

    ghost predicate Modelled()
      reads models
    {
      Wired() && pcie.Valid() && forall i :: 0 <= i < |chans| ==> chans[i].Valid()
    }

    /** Every operation so far was over when its LUN became available, and they were serial. */
    ghost predicate Logged()
      reads this, avail
    {
      && avail.Length0 == nchs && avail.Length1 == luns && Serial(log)
      && forall i :: 0 <= i < |log| ==>
        && log[i].lun.ch < nchs && log[i].lun.lun < luns
        && log[i].start <= log[i].end <= avail[log[i].lun.ch, log[i].lun.lun]
    }

    ghost predicate Valid()
      reads this, avail, models
    {
      Sized() && Modelled() && Logged()
    }

    /** ssd_init, on channel models that are already set up. */
    constructor (nchs: nat, luns: nat, lat: Latencies, chans: seq<Channel>, pcie: Channel)
      requires luns >= 1 && lat.maxXfer >= 1 && |chans| == nchs && pcie.Valid() && pcie.maxCredits >= 1
      requires forall i :: 0 <= i < nchs ==>
        chans[i].Valid() && chans[i].maxCredits >= 1 && chans[i] != pcie && chans[i].ring != pcie.ring
      requires forall i, j :: 0 <= i < j < nchs ==> chans[i] != chans[j] && chans[i].ring != chans[j].ring
      ensures Valid() && fresh(avail) && log == [] && this.nchs == nchs && this.luns == luns && this.lat == lat
      ensures this.chans == chans && this.pcie == pcie
      ensures forall ch, l :: 0 <= ch < nchs && 0 <= l < luns ==> avail[ch, l] == 0
    {
      this.nchs, this.luns, this.lat, this.chans, this.pcie := nchs, luns, lat, chans, pcie;
      avail := new nat[nchs, luns]((i, j) => 0);
      log := [];
      models := {pcie, pcie.ring} + (set i | 0 <= i < |chans| :: chans[i])
                + (set i | 0 <= i < |chans| :: chans[i].ring);
    }

    /** Record an operation that keeps LUN (ch, l) busy until `end`. */
    method Occupy(ch: nat, l: nat, ghost cmd: NandCmd, ghost start: nat, end: nat)
      requires Logged() && ch < nchs && l < luns && avail[ch, l] <= start <= end
      modifies avail, `log
      ensures Logged() && log == old(log) + [Op(cmd, LunId(ch, l), start, end)]
      ensures avail[ch, l] == end
      ensures forall i, j :: 0 <= i < nchs && 0 <= j < luns && (i, j) != (ch, l) ==> avail[i, j] == old(avail[i, j])
    {
      avail[ch, l] := end;
      log := log + [Op(cmd, LunId(ch, l), start, end)];
    }

    /** chmodel_request on channel ch... */
    method UseChannel(ch: nat, clock: nat, time: nat, size: nat) returns (done: nat)
      requires Modelled() && ch < |chans|
      modifies chans[ch], chans[ch].ring
      ensures Modelled()
      ensures Service(chans[ch].State(), done) == Served(chans[ch].Fixed(), old(chans[ch].State()), clock, time, size)
      ensures pcie.State() == old(pcie.State())
    {
      done := chans[ch].Request(clock, time, size);
    }

    /** ...and on the PCIe link. */
    method UsePcie(clock: nat, time: nat, size: nat) returns (done: nat)
      requires Modelled()
      modifies pcie, pcie.ring
      ensures Modelled() && Service(pcie.State(), done) == Served(pcie.Fixed(), old(pcie.State()), clock, time, size)
      ensures forall i :: 0 <= i < |chans| ==> chans[i].State() == old(chans[i].State())
    {
      done := pcie.Request(clock, time, size);
    }

    lemma AllUsable(ch: nat)
      requires Modelled() && ch < |chans|
      ensures Usable(chans[ch].Fixed()) && Usable(pcie.Fixed())
    {
    }

    /** NAND_READ from `start` on: sense the page, then move the data piece by piece over the
        channel and, with DMA, over the PCIe link.  The LUN is busy until the channel is
        done, at `end`. */
    ghost predicate IsRead(ch: nat, chan: Usage, link: Usage, start: nat, cell: nat, size: nat, dma: bool,
                           clock: nat -> nat, pieces: seq<Piece>, end: nat, done: nat)
      requires ch < |chans| && cell < |lat.read4k| && cell < |lat.read|
      reads chans[ch], pcie
    {
      var sensed := start + if size == 4096 then lat.read4k[cell] else lat.read[cell];
      && Carrying(ch, Pipe(chan, link, sensed, sensed), pieces, size, 0, end, done, dma, clock)
      && done >= end >= sensed && (!dma ==> done == end && pcie.State() == link)
    }

    /** NAND_WRITE from `start` on: move the data over the channel, then program the page. */
    ghost predicate IsWrite(ch: nat, chan: Usage, start: nat, size: nat, now: nat, end: nat)
      requires ch < |chans|
      reads chans[ch]
    {
      && Usable(chans[ch].Fixed())
      && chans[ch].State() == Served(chans[ch].Fixed(), chan, now, start, size).usage
      && end == Served(chans[ch].Fixed(), chan, now, start, size).time + lat.program
    }

    method ReadPage(ch: nat, start: nat, cell: nat, size: nat, dma: bool, clock: nat -> nat)
      returns (end: nat, done: nat, ghost pieces: seq<Piece>)
      requires Modelled() && lat.maxXfer >= 1 && ch < |chans| && cell < |lat.read4k| && cell < |lat.read| && size > 0
      modifies chans[ch], chans[ch].ring, pcie, pcie.ring
      ensures Modelled() && end >= start
      ensures IsRead(ch, old(chans[ch].State()), old(pcie.State()), start, cell, size, dma, clock, pieces, end, done)
    {
      hide Modelled, Carrying;
      var sensed := start + if size == 4096 then lat.read4k[cell] else lat.read[cell];
      end, done, pieces := Transfer(ch, sensed, size, dma, clock);
    }

    method WritePage(ch: nat, start: nat, size: nat, now: nat) returns (end: nat)
      requires Modelled() && ch < |chans|
      modifies chans[ch], chans[ch].ring
      ensures Modelled() && end >= start && pcie.State() == old(pcie.State())
      ensures IsWrite(ch, old(chans[ch].State()), start, size, now, end)
    {
      AllUsable(ch);
      hide Modelled, Served;
      ServedLater(chans[ch].Fixed(), chans[ch].State(), now, start, size);
      var xferred := UseChannel(ch, now, start, size);
      end := xferred + lat.program;
    }

    /** What each command does between `start` and `end`, until when it keeps the LUN busy, given
        the channel and the link before it. */
    ghost predicate Operated(cmd: NandCmd, ch: nat, chan: Usage, link: Usage, start: nat, cell: nat, size: nat,
                             clock: nat -> nat, pieces: seq<Piece>, end: nat, done: nat)
      requires ch < |chans| && cell < |lat.read4k| && cell < |lat.read|
      reads chans[ch], pcie
    {
      match cmd
      case NandRead(dma) => IsRead(ch, chan, link, start, cell, size, dma, clock, pieces, end, done)
      case NandWrite => IsWrite(ch, chan, start, size, clock(0), end) && done == end && pcie.State() == link
      case NandErase => done == end == start + lat.erase && chans[ch].State() == chan && pcie.State() == link
      case NandNop => done == end == start && chans[ch].State() == chan && pcie.State() == link
      case Unsupported => false
    }

    /** The cases of ssd_advance_nand. */
    method Operate(cmd: NandCmd, ch: nat, start: nat, cell: nat, size: nat, clock: nat -> nat)
      returns (end: nat, done: nat, ghost pieces: seq<Piece>)
      requires Modelled() && lat.maxXfer >= 1 && ch < |chans| && cell < |lat.read4k| && cell < |lat.read|
      requires !cmd.Unsupported? && (cmd.NandRead? ==> size > 0)
      modifies chans[ch], chans[ch].ring, pcie, pcie.ring
      ensures Modelled() && end >= start
      ensures
        Operated(cmd, ch, old(chans[ch].State()), old(pcie.State()), start, cell, size, clock, pieces, end, done)
    {
      hide Modelled, IsRead, IsWrite;
      pieces := [];
      match cmd
      case NandRead(dma) =>
        end, done, pieces := ReadPage(ch, start, cell, size, dma, clock);
      case NandWrite =>
        end := WritePage(ch, start, size, clock(0));
        done := end;
      case NandErase =>
        end := start + lat.erase;
        done := end;
      case NandNop =>
        end := start;
        done := end;
    }

    /** ssd_advance_nand for a page of LUN (ch, l), which an unmapped address does not have.
        `stime` is the command's start time (or the I/O clock when the command has none);
        clock(i) is the i-th reading of the wall clock.

        An operation starts when both its LUN and the command are ready. */
    method AdvanceNand(mapped: bool, cmd: NandCmd, ch: nat, l: nat, cell: nat, stime: nat, size: nat, clock: nat -> nat)
      returns (done: nat, ghost pieces: seq<Piece>)
      requires Valid() && ch < nchs && l < luns && cell < |lat.read4k| && cell < |lat.read|
      requires cmd.NandRead? ==> size > 0
      modifies avail, `log, chans[ch], chans[ch].ring, pcie, pcie.ring
      ensures Valid()
      ensures forall i, j :: 0 <= i < nchs && 0 <= j < luns && (i, j) != (ch, l) ==> avail[i, j] == old(avail[i, j])
      ensures forall i :: 0 <= i < nchs && i != ch ==> chans[i].State() == old(chans[i].State())
      ensures !mapped || cmd.Unsupported? ==>
        && log == old(log) && avail[ch, l] == old(avail[ch, l]) && done == (if mapped then 0 else stime)
        && chans[ch].State() == old(chans[ch].State()) && pcie.State() == old(pcie.State())
      ensures mapped && !cmd.Unsupported? ==>
        var start := Max(old(avail[ch, l]), stime);
        && log == old(log) + [Op(cmd, LunId(ch, l), start, avail[ch, l])] && avail[ch, l] >= start
        && Operated(cmd, ch, old(chans[ch].State()), old(pcie.State()), start, cell, size, clock, pieces, avail[ch, l],
                    done)
    {
      OthersApart(ch);
      hide Modelled, Operated;
      if !mapped {
        return stime, [];
      }
      if cmd.Unsupported? {
        return 0, [];
      }
      var start := Max(avail[ch, l], stime);
      var end;
      end, done, pieces := Operate(cmd, ch, start, cell, size, clock);
      Occupy(ch, l, cmd, start, end);
    }

    lemma OthersApart(ch: nat)
      requires Modelled() && ch < |chans|
      ensures forall i :: 0 <= i < |chans| && i != ch ==> chans[i] != chans[ch] && chans[i] != pcie
    {
    }

    /** One round of the transfer loop of a read. */
    method CarryPiece(ch: nat, time: nat, piece: Piece, dma: bool, ghost p: Pipe) returns (xferred: nat, done: nat)
      requires Modelled() && ch < |chans| && Usable(chans[ch].Fixed()) && Usable(pcie.Fixed())
      requires p.chan == chans[ch].State() && p.link == pcie.State() && p.xferred == time
      modifies chans[ch], chans[ch].ring, pcie, pcie.ring
      ensures Modelled()
      ensures Pipe(chans[ch].State(), pcie.State(), xferred, done) ==
        Carried(chans[ch].Fixed(), pcie.Fixed(), p, piece, dma)
    {
      hide Modelled, Served;
      xferred := UseChannel(ch, piece.now, time, piece.size);
      if dma {
        done := UsePcie(piece.now1, xferred, piece.size);
      } else {
        done := xferred;
      }
    }

    /** The pieces so far have been carried, and `remaining` bytes are to come. */
    ghost predicate Carrying(ch: nat, before: Pipe, pieces: seq<Piece>, size: nat, remaining: nat,
                             xferred: nat, done: nat, dma: bool, clock: nat -> nat)
      requires ch < |chans|
      reads chans[ch], pcie
    {
      && Usable(chans[ch].Fixed()) && Usable(pcie.Fixed())
      && remaining <= size && (remaining < size ==> pieces != [])
      && Cut(pieces, size - remaining, lat.maxXfer, remaining > 0) && Timed(pieces, clock)
      && Pipe(chans[ch].State(), pcie.State(), xferred, done) ==
         CarriedAll(chans[ch].Fixed(), pcie.Fixed(), before, pieces, dma)
    }

    method CarryNext(ch: nat, ghost before: Pipe, ghost pieces: seq<Piece>, i: nat, ghost size: nat, remaining: nat,
                     time: nat, ghost last: nat, dma: bool, clock: nat -> nat)
      returns (piece: Piece, xferred: nat, done: nat)
      requires Modelled() && ch < |chans| && 0 < remaining <= size && lat.maxXfer >= 1 && |pieces| == i
      requires Carrying(ch, before, pieces, size, remaining, time, last, dma, clock)
      modifies chans[ch], chans[ch].ring, pcie, pcie.ring
      ensures Modelled() && 1 <= piece.size <= remaining
      ensures Carrying(ch, before, pieces + [piece], size, remaining - piece.size, xferred, done, dma, clock)
    {
      hide Modelled, Carried, CarriedAll, Cut;
      piece := Piece(if remaining <= lat.maxXfer then remaining else lat.maxXfer, clock(2 * i), clock(2 * i + 1));
      ghost var c, p := chans[ch].Fixed(), pcie.Fixed();
      CarriedNext(c, p, before, pieces, piece, dma);
      PiecesNext(pieces, size - remaining, lat.maxXfer, remaining, piece);
      xferred, done := CarryPiece(ch, time, piece, dma, CarriedAll(c, p, before, pieces, dma));
    }

    /** The transfer loop of a read. */
    method Transfer(ch: nat, from: nat, size: nat, dma: bool, clock: nat -> nat)
      returns (xferred: nat, done: nat, ghost pieces: seq<Piece>)
      requires Modelled() && lat.maxXfer >= 1 && ch < |chans| && size > 0
      modifies chans[ch], chans[ch].ring, pcie, pcie.ring
      ensures Modelled() && pieces != []
      ensures
        var before := Pipe(old(chans[ch].State()), old(pcie.State()), from, from);
        Carrying(ch, before, pieces, size, 0, xferred, done, dma, clock)
      ensures from <= xferred <= done && (!dma ==> done == xferred && pcie.State() == old(pcie.State()))
    {
      ghost var before := Pipe(chans[ch].State(), pcie.State(), from, from);
      hide Modelled, Carrying;
      NothingCarried(ch, before, size, dma, clock);
      var remaining := size;
      var i := 0;
      xferred, done := from, from;
      pieces := [];
      while remaining > 0
        invariant Modelled() && 0 <= remaining <= size && |pieces| == i
        invariant Carrying(ch, before, pieces, size, remaining, xferred, done, dma, clock)
      {
        var piece;
        piece, xferred, done := CarryNext(ch, before, pieces, i, size, remaining, xferred, done, dma, clock);
        pieces := pieces + [piece];
        remaining := remaining - piece.size;
        i := i + 1;
      }
      AllCarried(ch, before, pieces, size, xferred, done, dma, clock);
    }

    lemma NothingCarried(ch: nat, before: Pipe, size: nat, dma: bool, clock: nat -> nat)
      requires Modelled() && ch < |chans| && before.chan == chans[ch].State() && before.link == pcie.State()
      ensures Carrying(ch, before, [], size, size, before.xferred, before.done, dma, clock)
    {
      CarriedNone(chans[ch].Fixed(), pcie.Fixed(), before, lat.maxXfer, dma);
    }

    lemma AllCarried(ch: nat, before: Pipe, pieces: seq<Piece>, size: nat, xferred: nat, done: nat, dma: bool,
                     clock: nat -> nat)
      requires ch < |chans| && Carrying(ch, before, pieces, size, 0, xferred, done, dma, clock)
      requires size > 0 && before.xferred <= before.done
      ensures pieces != [] && before.xferred <= xferred <= done
      ensures !dma ==> done == xferred && pcie.State() == before.link
    {
      hide CarriedAll;
      CarriedAllLater(chans[ch].Fixed(), pcie.Fixed(), before, pieces, dma);
    }

    /** Some LUN becomes available at time t. */
    ghost predicate FreesAt(t: nat)
      reads avail
    {
      exists i, j :: 0 <= i < avail.Length0 && 0 <= j < avail.Length1 && t == avail[i, j]
    }

    /** ssd_next_idle_time. */
    method NextIdleTime(clock: nat) returns (latest: nat)
      requires Logged()
      ensures latest >= clock
      ensures forall i, j :: 0 <= i < nchs && 0 <= j < luns ==> avail[i, j] <= latest
      ensures latest == clock || FreesAt(latest)
    {
      latest := clock;
      for i := 0 to nchs
        invariant latest >= clock
        invariant forall a, b :: 0 <= a < i && 0 <= b < luns ==> avail[a, b] <= latest
        invariant latest == clock || FreesAt(latest)
      {
        for j := 0 to luns
          invariant latest >= clock
          invariant forall a, b :: 0 <= a < i && 0 <= b < luns ==> avail[a, b] <= latest
          invariant forall b :: 0 <= b < j ==> avail[i, b] <= latest
          invariant latest == clock || FreesAt(latest)
        {
          latest := Max(latest, avail[i, j]);
        }
      }
    }

    /** Every operation issued so far is over by time t. */
    ghost predicate OverBy(t: nat)
      reads this
    {
      forall i :: 0 <= i < |log| ==> log[i].end <= t
    }

    lemma AllOver(latest: nat)
      requires Logged() && forall i, j :: 0 <= i < nchs && 0 <= j < luns ==> avail[i, j] <= latest
      ensures OverBy(latest)
    {
    }
  }

  /** fdp_flush: the target is not before the end of any operation of any partition, and it
      is no later than needed. */
  method Flush(ssds: seq<Ssd>, start: nat, clocks: seq<nat>) returns (latest: nat)
    requires |clocks| == |ssds| && forall p :: 0 <= p < |ssds| ==> ssds[p].Valid()
    ensures latest >= start
    ensures forall p :: 0 <= p < |ssds| ==> latest >= clocks[p]
    ensures forall p :: 0 <= p < |ssds| ==> ssds[p].OverBy(latest)
    ensures
      || latest == start || latest in clocks
      || exists p :: 0 <= p < |ssds| && ssds[p].FreesAt(latest)
  {
    hide Ssd.Modelled, Ssd.Sized;
    latest := start;
    for p := 0 to |ssds|
      invariant latest >= start
      invariant forall q :: 0 <= q < p ==> latest >= clocks[q]
      invariant forall q :: 0 <= q < p ==> ssds[q].OverBy(latest)
      invariant
        || latest == start || latest in clocks
        || exists q :: 0 <= q < |ssds| && ssds[q].FreesAt(latest)
    {
      var idle := ssds[p].NextIdleTime(clocks[p]);
      ssds[p].AllOver(idle);
      latest := Max(latest, idle);
    }
  }
}

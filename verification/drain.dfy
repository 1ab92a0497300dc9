/** w5500_mac.c: draining the receive ring into the network stack. */
module Drain {
  import opened Words
  import opened Ring
  import opened W5500
  import opened Regs
  import opened Mac

  class EthMac {
    var hasMediator: bool
    /** Cleared by w5500_mac_stop, which runs in another task. */
    var started: bool
    /** How often that task is still going to do so. */
    var stops: nat
    /** rx_task_handle, 0 standing for NULL. */
    var rxTask: nat
    /** Whether the mediator has a stack_input callback. */
    const hasStack: bool
    /** The frames handed to stack_input, oldest first. */
    var offered: seq<seq<byte>>

    constructor (hasStack: bool, stops: nat)
      ensures this.hasStack == hasStack && this.stops == stops
      ensures !hasMediator && !started && rxTask == 0 && offered == []
    {
      this.hasStack, this.stops, hasMediator, started, rxTask, offered := hasStack, stops, false, false, 0, [];
    }

    /** Only a stop by another task has changed `started` since it was `was`, with `before` stops to
        come. */
    predicate Stopped(was: bool, before: nat)
      reads this`started, this`stops
    {
      stops <= before && (started ==> was) && (stops == before ==> started == was)
    }

    /** Reads `started`. */
    method Running() returns (running: bool)
      modifies this`started, this`stops
      ensures running == started && Stopped(old(started), old(stops))
    {
      if stops > 0 {
        if * {
          started, stops := false, stops - 1;
        }
      }
      running := started;
    }

    method Input(frame: seq<byte>)
      modifies this`offered
      ensures offered == old(offered) + (if hasStack then [frame] else [])
    {
      if hasStack {
        offered := offered + [frame];
      }
    }
  }

  /** The first `k` records have been released and nothing else. */
  predicate Aligned(s: State, k: nat) {
    InSync(s) && k <= s.rx.stored && s.rx.taken == |Flat(s.rx.traffic, k)|
  }

  /** Bytes in the ring and bytes that are still going to reach it. */
  function Backlog(s: State): nat {
    BacklogCoversRing(s);
    |Flat(s.rx.traffic, |s.rx.traffic|)| - s.rx.taken
  }

  lemma BacklogCoversRing(s: State)
    ensures s.rx.end <= |Flat(s.rx.traffic, |s.rx.traffic|)|
  {
    OpenRx(s.rx);
    FlatPrefix(s.rx.traffic, s.rx.stored, |s.rx.traffic|);
  }

  /** What is in the ring is whole records from the `k`-th on. */
  lemma FrontRecord(s: State, k: nat)
    requires AllRecords(s.rx.traffic) && Aligned(s, k)
    ensures Live(s.rx) == [] <==> k == s.rx.stored
    ensures k < s.rx.stored ==> s.rx.traffic[k] <= Live(s.rx)
  {
    OpenRx(s.rx);
    var rs, n := s.rx.traffic, s.rx.stored;
    if k < n {
      FlatPrefix(rs, k + 1, n);
      assert Flat(rs, n)[|Flat(rs, k)|..][..|rs[k]|] == Flat(rs, k + 1)[|Flat(rs, k)|..] == rs[k];
    }
  }

  /** The parser finds the next record's frame, an empty ring, or a record that it does not
      accept. */
  lemma ParseFront(s: State, k: nat)
    requires AllRecords(s.rx.traffic) && Aligned(s, k)
    ensures Parse(Live(s.rx), RX_BUF_SIZE) ==
            if k == s.rx.stored then Parsed(NotFound, 0)
            else if WellFormed(s.rx.traffic[k]) then Parsed(Ok, |s.rx.traffic[k]| - HEADER)
            else Parsed(InvalidResponse, 0)
    ensures k < s.rx.stored ==>
              var r := s.rx.traffic[k];
              |r| <= Rsr(s.rx) && Live(s.rx)[HEADER..|r|] == r[HEADER..]
  {
    FrontRecord(s, k);
    if k < s.rx.stored {
      var r, live := s.rx.traffic[k], Live(s.rx);
      assert live == r + live[|r|..];
      assert live[0] == r[0] && live[1] == r[1];
    }
  }

  lemma ConsumedAligned(s: State, k: nat)
    requires Aligned(s, k) && k < s.rx.stored
    requires WellFormed(s.rx.traffic[k]) && |s.rx.traffic[k]| <= Rsr(s.rx)
    ensures var t := Consumed(s, |s.rx.traffic[k]|);
            Aligned(t, k + 1) && Backlog(t) + HEADER + MIN_FRAME <= Backlog(s)
  {
    AheadReleased(s, |s.rx.traffic[k]|);
    CommitKeeps(Released(s, |s.rx.traffic[k]|).rx);
  }

  lemma AlignedLater(a: State, b: State, k: nat)
    requires Extends(a, b) && Aligned(a, k)
    ensures Aligned(b, k) && Backlog(b) == Backlog(a)
  {
  }

  /** What the stack is given for records `i` to `j`. */
  function Handed(hasStack: bool, rs: seq<seq<byte>>, i: nat, j: nat): seq<seq<byte>>
    requires AllRecords(rs) && i <= j <= |rs|
  {
    if hasStack then Frames(rs[i..j]) else []
  }

  lemma HandedNothing(hasStack: bool, rs: seq<seq<byte>>, i: nat)
    requires AllRecords(rs) && i <= |rs|
    ensures Handed(hasStack, rs, i, i) == []
  {
    assert rs[i..i] == [];
  }

  lemma HandedSnoc(hasStack: bool, rs: seq<seq<byte>>, i: nat, j: nat)
    requires AllRecords(rs) && i <= j < |rs|
    ensures Handed(hasStack, rs, i, j + 1) ==
            Handed(hasStack, rs, i, j) + (if hasStack then [rs[j][HEADER..]] else [])
  {
    assert rs[i..j + 1] == rs[i..j] + [rs[j]];
  }

  /** Everything but the receive ring moves on as in any other stretch of time. */
  predicate OnlyReceives(a: State, b: State) {
    && b.rx.traffic == a.rx.traffic && a.rx.stored <= b.rx.stored
    && TxDrains(a.tx, b.tx) && a.snIr.Kept(b.snIr) && SameSetup(a, b) && b.events <= a.events
    && (a.rx.stored < b.rx.stored ==> b.snIr.recv) && (b.events == a.events ==> b.snIr == a.snIr)
  }

  lemma OnlyReceivesTrans(a: State, b: State, c: State)
    requires OnlyReceives(a, b) && OnlyReceives(b, c)
    ensures OnlyReceives(a, c)
  {
  }

  /** Between `a` and `b` records `i` to `j` were released, each freeing a header and a frame. */
  predicate TakesOut(a: State, b: State, i: nat, j: nat) {
    OnlyReceives(a, b) && Aligned(b, j) && Backlog(b) + (HEADER + MIN_FRAME) * (j - i) <= Backlog(a)
  }

  lemma TakesOutTrans(a: State, b: State, c: State, i: nat, j: nat, k: nat)
    requires TakesOut(a, b, i, j) && TakesOut(b, c, j, k)
    ensures TakesOut(a, c, i, k)
  {
  }

  /** The record at the front is one that the driver does not accept. */
  predicate Jammed(s: State, k: nat, err: Err) {
    err.InvalidResponse? && Aligned(s, k) && k < s.rx.stored && !WellFormed(s.rx.traffic[k])
  }

  /** The stable read at the head of the drain loop. */
  method Peek(c: Chip, ghost k: nat) returns (err: Err, rsr: u16, ghost at: State)
    requires AllRecords(c.s.rx.traffic) && Aligned(c.s, k)
    modifies c`s, c`faults
    ensures err.Ok? || BusError(err)
    ensures c.faults <= old(c.faults)
    ensures !err.Ok? ==> c.faults < old(c.faults) || Crowded(old(c.s), c.s)
    ensures OnlyReceives(old(c.s), at) && OnlyReceives(at, c.s)
    ensures Aligned(c.s, k) && Backlog(c.s) == Backlog(old(c.s))
    ensures err.Ok? && rsr == 0 ==> Rsr(at.rx) == 0 && k == at.rx.stored
    ensures err.Ok? && rsr != 0 ==> k < c.s.rx.stored
  {
    err, rsr, at := ReadStable(c, RxRsr);
    AlignedLater(old(c.s), at, k);
    AlignedLater(at, c.s, k);
    FrontRecord(at, k);
  }

  /** What excuses a call that fails, having begun at `a` with `faults` failures to come at time
      `now`: the socket is not open, a transaction or allocation has failed, a RECV was not carried
      out in time, or the chip has moved eight times. */
  predicate Excuse(c: Chip, a: State, faults: nat, now: nat)
    reads c
  {
    a.sr != SOCK_MACRAW || c.Excused(faults, now) || Crowded(a, c.s)
  }

  /** A frame has been lost: a transaction has failed, or RECV is still pending. */
  predicate LostTo(c: Chip, faults: nat)
    reads c
  {
    c.faults < faults || (c.s.cr == CR_RECV && !c.prompt)
  }

  /** A frame goes to the stack by way of a fresh buffer. */
  method TakeOne(c: Chip, mac: EthMac, ghost k: nat) returns (err: Err, lost: bool)
    requires AllRecords(c.s.rx.traffic) && Aligned(c.s, k) && k < c.s.rx.stored
    requires 0 < c.maxGap <= TICKS - COMMAND_TICKS
    modifies c, mac`offered
    ensures err.Ok? || BusError(err) || (err.InvalidResponse? && !lost)
    ensures err.Ok? ==> WellFormed(old(c.s).rx.traffic[k])
    ensures err.InvalidResponse? ==> !WellFormed(old(c.s).rx.traffic[k])
    ensures !lost ==> OnlyReceives(old(c.s), c.s)
    ensures err.Ok? ==>
              && !lost && Aligned(c.s, k + 1)
              && Backlog(c.s) + HEADER + MIN_FRAME <= Backlog(old(c.s))
    ensures SameSetup(old(c.s), c.s)
    ensures mac.offered == old(mac.offered) +
                           (if err.Ok? && mac.hasStack then [old(c.s).rx.traffic[k][HEADER..]] else [])
    ensures !err.Ok? && !lost ==> Aligned(c.s, k)
    ensures !err.Ok? ==> err.InvalidResponse? || Excuse(c, old(c.s), old(c.faults), old(c.now))
    ensures lost ==> LostTo(c, old(c.faults))
    ensures c.faults <= old(c.faults) && old(c.now) <= c.now
  {
    ghost var start := c.s;
    lost := false;
    var buffer := new byte[RX_BUF_SIZE];
    var length;
    ghost var at;
    err, length, at, lost := Receive(c, buffer, RX_BUF_SIZE);
    AlignedLater(start, at, k);
    ParseFront(at, k);
    if err == Ok && length > 0 {
      ConsumedAligned(at, k);
      AlignedLater(Consumed(at, HEADER + length), c.s, k + 1);
      mac.Input(buffer[..length]);
    } else if !lost {
      AlignedLater(start, c.s, k);
    }
  }

  /** The rest of a round of the drain loop: one frame goes to the stack, or the round fails. */
  method DrainOne(c: Chip, mac: EthMac, ghost k: nat) returns (err: Err, lost: bool)
    requires AllRecords(c.s.rx.traffic) && Aligned(c.s, k) && k < c.s.rx.stored
    requires 0 < c.maxGap <= TICKS - COMMAND_TICKS
    modifies c, mac`offered
    ensures err.Ok? || BusError(err) || (err.InvalidResponse? && !lost)
    ensures err.Ok? ==> WellFormed(old(c.s).rx.traffic[k])
    ensures err.InvalidResponse? ==> !WellFormed(old(c.s).rx.traffic[k])
    ensures !lost ==> OnlyReceives(old(c.s), c.s)
    ensures err.Ok? ==>
              && !lost && Aligned(c.s, k + 1)
              && Backlog(c.s) + HEADER + MIN_FRAME <= Backlog(old(c.s))
    ensures SameSetup(old(c.s), c.s)
    ensures mac.offered == old(mac.offered) +
                           (if err.Ok? && mac.hasStack then [old(c.s).rx.traffic[k][HEADER..]] else [])
    ensures !err.Ok? && !lost ==> Aligned(c.s, k)
    ensures !err.Ok? ==> err.InvalidResponse? || Excuse(c, old(c.s), old(c.faults), old(c.now))
    ensures lost ==> LostTo(c, old(c.faults))
    ensures c.faults <= old(c.faults) && old(c.now) <= c.now
  {
    var allocation := c.Attempt();
    if allocation != Ok {
      return NoMem, false;
    }
    err, lost := TakeOne(c, mac, k);
  }

  /** One round of the drain loop: the ring is found empty, a frame goes to the stack, or the
      round fails. */
  method Round(c: Chip, mac: EthMac, ghost k: nat) returns (err: Err, more: bool, ghost at: State, lost: bool)
    requires AllRecords(c.s.rx.traffic) && Aligned(c.s, k)
    requires 0 < c.maxGap <= TICKS - COMMAND_TICKS
    modifies c, mac`offered
    ensures err.Ok? || (BusError(err) && !more) || (Jammed(c.s, k, err) && !more && !lost)
    ensures err.Ok? ==> !lost
    ensures !err.Ok? ==> err.InvalidResponse? || Excuse(c, old(c.s), old(c.faults), old(c.now))
    ensures lost ==> LostTo(c, old(c.faults))
    ensures c.faults <= old(c.faults) && old(c.now) <= c.now
    ensures !lost ==> TakesOut(old(c.s), c.s, k, if more then k + 1 else k)
    ensures more ==> k < |old(c.s).rx.traffic| && WellFormed(old(c.s).rx.traffic[k])
    ensures SameSetup(old(c.s), c.s)
    ensures mac.offered == old(mac.offered) +
                           (if more && mac.hasStack then [old(c.s).rx.traffic[k][HEADER..]] else [])
    ensures err.Ok? && !more ==>
              && Rsr(at.rx) == 0 && k == at.rx.stored
              && OnlyReceives(old(c.s), at) && OnlyReceives(at, c.s)
  {
    var rsr;
    more, lost := false, false;
    err, rsr, at := Peek(c, k);
    OnlyReceivesTrans(old(c.s), at, c.s);
    if err == Ok && rsr != 0 {
      ghost var before := c.s;
      err, lost := DrainOne(c, mac, k);
      more := err == Ok;
      if !lost {
        OnlyReceivesTrans(old(c.s), before, c.s);
      }
    }
  }

  /** The stack, which had been given `before`, has been given the frames of records `first` to
      `last` since, all of them accepted. */
  ghost predicate Fed(rs: seq<seq<byte>>, hasStack: bool, before: seq<seq<byte>>, now: seq<seq<byte>>,
                      first: nat, last: nat)
  {
    && AllRecords(rs) && first <= last <= |rs|
    && now == before + Handed(hasStack, rs, first, last)
    && forall i | first <= i < last :: WellFormed(rs[i])
  }

  lemma FedNothing(rs: seq<seq<byte>>, hasStack: bool, before: seq<seq<byte>>, first: nat)
    requires AllRecords(rs) && first <= |rs|
    ensures Fed(rs, hasStack, before, before, first, first)
  {
    HandedNothing(hasStack, rs, first);
  }

  lemma FedMore(rs: seq<seq<byte>>, hasStack: bool, before: seq<seq<byte>>, now: seq<seq<byte>>,
                first: nat, k: nat)
    requires Fed(rs, hasStack, before, now, first, k) && k < |rs| && WellFormed(rs[k])
    ensures Fed(rs, hasStack, before, now + (if hasStack then [rs[k][HEADER..]] else []), first, k + 1)
  {
    HandedSnoc(hasStack, rs, first, k);
  }

  /** A round of a drain that began at `start` with `before` offered. */
  method NextRound(c: Chip, mac: EthMac, ghost start: State, ghost before: seq<seq<byte>>,
                   ghost first: nat, ghost k: nat)
    returns (err: Err, more: bool, ghost at: State, lost: bool)
    requires TakesOut(start, c.s, first, k)
    requires Fed(start.rx.traffic, mac.hasStack, before, mac.offered, first, k)
    requires 0 < c.maxGap <= TICKS - COMMAND_TICKS
    modifies c, mac`offered
    ensures err.Ok? || (BusError(err) && !more) || (Jammed(c.s, k, err) && !more && !lost)
    ensures err.Ok? ==> !lost
    ensures !err.Ok? ==> err.InvalidResponse? || Excuse(c, start, old(c.faults), old(c.now))
    ensures lost ==> LostTo(c, old(c.faults))
    ensures c.faults <= old(c.faults) && old(c.now) <= c.now
    ensures !lost ==> TakesOut(start, c.s, first, if more then k + 1 else k)
    ensures more ==> Backlog(c.s) < Backlog(old(c.s))
    ensures SameSetup(start, c.s)
    ensures Fed(start.rx.traffic, mac.hasStack, before, mac.offered, first, if more then k + 1 else k)
    ensures err.Ok? && !more ==>
              && Rsr(at.rx) == 0 && start.rx.stored <= k == at.rx.stored
              && OnlyReceives(start, at) && OnlyReceives(at, c.s)
  {
    ghost var head, was := c.s, mac.offered;
    err, more, at, lost := Round(c, mac, k);
    if !lost {
      TakesOutTrans(start, head, c.s, first, k, if more then k + 1 else k);
    }
    if more {
      FedMore(start.rx.traffic, mac.hasStack, before, was, first, k);
    } else if err == Ok {
      OnlyReceivesTrans(start, head, at);
    }
  }

  /** w5500_mac_drain_rx. Exactly the next records of the traffic are handed to the stack, once
      each and in order, `first` being how many had been taken before and `last` how many have
      been now. An OK return with the MAC still started means that at the instant `at` of the
      call the ring was empty: every record stored by then, and so every one stored before the
      call, has been handed over. A failing call loses no frame unless it failed between the write
      of Sn_RX_RD and the end of RECV, for a failed transaction or a RECV that stays pending; and it
      fails only for an excuse, or, with ESP_ERR_INVALID_RESPONSE and for good, at a record that is
      too short or too long. */
  method DrainRx(c: Chip, mac: EthMac, ghost first: nat)
    returns (err: Err, ghost last: nat, ghost at: State, lost: bool)
    requires AllRecords(c.s.rx.traffic) && Aligned(c.s, first)
    requires 0 < c.maxGap <= TICKS - COMMAND_TICKS
    modifies c, mac`started, mac`stops, mac`offered
    ensures err.Ok? || BusError(err) || (Jammed(c.s, last, err) && !lost)
    ensures mac.Stopped(old(mac.started), old(mac.stops))
    ensures Fed(old(c.s).rx.traffic, mac.hasStack, old(mac.offered), mac.offered, first, last)
    ensures SameSetup(old(c.s), c.s)
    ensures !lost ==> TakesOut(old(c.s), c.s, first, last)
    ensures err.Ok? ==> !lost
    ensures !err.Ok? ==> err.InvalidResponse? || Excuse(c, old(c.s), old(c.faults), old(c.now))
    ensures lost ==> LostTo(c, old(c.faults))
    ensures c.faults <= old(c.faults) && old(c.now) <= c.now
    ensures err.Ok? && mac.started ==> old(c.s).rx.stored <= last
    ensures err.Ok? && mac.started ==>
              && Rsr(at.rx) == 0 && last == at.rx.stored
              && OnlyReceives(old(c.s), at) && OnlyReceives(at, c.s)
  {
    err, last, at, lost := Ok, first, c.s, false;
    ghost var start, before := c.s, mac.offered;
    FedNothing(start.rx.traffic, mac.hasStack, before, first);
    while true
      invariant TakesOut(start, c.s, first, last)
      invariant mac.Stopped(old(mac.started), old(mac.stops))
      invariant c.faults <= old(c.faults) && old(c.now) <= c.now
      invariant Fed(start.rx.traffic, mac.hasStack, before, mac.offered, first, last)
      decreases Backlog(c.s)
    {
      var running := mac.Running();
      if !running {
        return Ok, last, at, false;
      }
      var more;
      err, more, at, lost := NextRound(c, mac, start, before, first, last);
      if !more {
        return;
      }
      last := last + 1;
    }
  }
}

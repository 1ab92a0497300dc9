/** w5500_mac_rx_task: the loop around interrupt service, clearing RECV and draining. */
module RxTask {
  import opened Words
  import opened Flags
  import opened Ring
  import opened W5500
  import opened Driver
  import opened Drain
  import opened Lifecycle
  import opened Regs

  /** Everything the RX task does not touch moves on; records only come in. */
  predicate Passes(a: State, b: State) {
    && b.rx.traffic == a.rx.traffic && a.rx.stored <= b.rx.stored
    && TxDrains(a.tx, b.tx) && SameSetup(a, b) && b.events <= a.events
  }

  lemma PassesTrans(a: State, b: State, c: State)
    requires Passes(a, b) && Passes(b, c)
    ensures Passes(a, c)
  {
  }

  lemma AlignedDrifts(a: State, b: State, k: nat)
    requires Drifts(a, b) && Aligned(a, k)
    ensures Aligned(b, k) && Passes(a, b)
  {
  }

  /** `b` is `a` after a stretch of time in which the host may have cleared interrupt flags, RECV
      among them, and wrote nothing else. */
  predicate Sweeps(a: State, b: State) {
    && b == a.(rx := b.rx, tx := b.tx, snIr := b.snIr, ir := b.ir, events := b.events)
    && RxGrows(a.rx, b.rx) && TxDrains(a.tx, b.tx) && b.events <= a.events
  }

  lemma AlignedSweeps(a: State, b: State, k: nat)
    requires Sweeps(a, b) && Aligned(a, k)
    ensures Aligned(b, k) && Passes(a, b)
  {
  }

  /** w5500_mac_clear_recv_event_if_set. On success RECV was clear at the instant `clear`. */
  method ClearRecvEventIfSet(c: Chip) returns (err: Err, ghost clear: State)
    requires c.s.cr == 0
    modifies c`s, c`faults
    ensures err.Ok? || BusError(err)
    ensures c.faults <= old(c.faults) && (err.Ok? <==> c.faults == old(c.faults))
    ensures Sweeps(old(c.s), c.s)
    ensures c.s.events == old(c.s).events ==>
              c.s == if err.Ok? then old(c.s).(snIr := old(c.s).snIr.Clear(SN_RECV)) else old(c.s)
    ensures err.Ok? ==> Sweeps(old(c.s), clear) && !clear.snIr.recv && Extends(clear, c.s)
  {
    err := c.Transact(c.s);
    clear := c.s;
    if err != Ok {
      return;
    }
    var s0 := c.s.snIr;
    if s0.recv {
      err := c.Transact(clear);
      if err == Ok {
        c.s := c.s.(snIr := c.s.snIr.Clear(SN_RECV));
        clear := c.s;
      }
    }
  }

  /** Every record the chip has stored has been taken, or RECV is set. */
  predicate Served(s: State, last: nat) { last == s.rx.stored || s.snIr.recv }

  /** What a pass that has gone through, begun at `a`, has achieved by `b`: every record that was
      there has been taken, and every other one, or RECV tells of it; if nothing happened meanwhile
      RECV has been cleared. */
  predicate Through(a: State, b: State, last: nat) {
    a.rx.stored <= last && Served(b, last) && (b.events == a.events ==> !b.snIr.recv)
  }

  /** Why a pass begun at `a` has not gone through: it has an excuse, or the record at the front is
      not accepted. */
  predicate Broken(c: Chip, a: State, faults: nat, now: nat, last: nat)
    reads c
  {
    Excuse(c, a, faults, now) || Jammed(c.s, last, InvalidResponse)
  }

  /** The first half of a pass: interrupt service and clear. An ESP_ERR_TIMEOUT out of the service
      is no reason to stop. */
  method ServeAndClear(c: Chip, ctx: Context, ghost first: nat) returns (ready: bool, ghost clear: State)
    requires Aligned(c.s, first)
    modifies c`s, c`faults, ctx`given, ctx`levels
    ensures Aligned(c.s, first) && Passes(old(c.s), c.s)
    ensures ready ==> !clear.snIr.recv && Extends(clear, c.s) && clear.events <= old(c.s).events
    ensures c.faults <= old(c.faults) && (!ready ==> c.faults < old(c.faults))
  {
    ready := false;
    clear := c.s;
    var err;
    ghost var seen, passes;
    err, seen, passes := ServiceInterrupts(c, ctx);
    AlignedDrifts(old(c.s), c.s, first);
    if err != Ok && err != Timeout {
      return;
    }
    ghost var served := c.s;
    err, clear := ClearRecvEventIfSet(c);
    AlignedSweeps(served, c.s, first);
    PassesTrans(old(c.s), served, c.s);
    ready := err == Ok;
  }

  /** One pass of the inner loop. A pass that gets to the level check, the MAC still started, has
      served everything: a record that is left has come in after RECV was cleared, and RECV, set
      again, tells of it. A pass breaks off only for a cause. */
  method Pass(c: Chip, ctx: Context, mac: EthMac, ghost first: nat)
    returns (clean: bool, ghost last: nat, lost: bool)
    requires AllRecords(c.s.rx.traffic) && Aligned(c.s, first)
    requires 0 < c.maxGap <= TICKS - COMMAND_TICKS
    modifies c, ctx`given, ctx`levels, mac`started, mac`stops, mac`offered
    ensures Fed(old(c.s).rx.traffic, mac.hasStack, old(mac.offered), mac.offered, first, last)
    ensures SameSetup(old(c.s), c.s)
    ensures !lost ==> Aligned(c.s, last) && Passes(old(c.s), c.s)
    ensures clean ==> !lost
    ensures clean && mac.started ==> Through(old(c.s), c.s, last)
    ensures !clean ==> Broken(c, old(c.s), old(c.faults), old(c.now), last)
    ensures lost ==> LostTo(c, old(c.faults))
    ensures c.faults <= old(c.faults) && old(c.now) <= c.now
    ensures mac.Stopped(old(mac.started), old(mac.stops))
  {
    clean, last, lost := false, first, false;
    FedNothing(c.s.rx.traffic, mac.hasStack, mac.offered, first);
    var ready;
    ghost var clear, at;
    ready, clear := ServeAndClear(c, ctx, first);
    if ready {
      ghost var cleared := c.s;
      var err;
      err, last, at, lost := DrainRx(c, mac, first);
      clean := err == Ok || err == NotFound;
    }
  }

  lemma HandedOn(hasStack: bool, rs: seq<seq<byte>>, i: nat, j: nat, k: nat)
    requires AllRecords(rs) && i <= j <= k <= |rs|
    ensures Handed(hasStack, rs, i, k) == Handed(hasStack, rs, i, j) + Handed(hasStack, rs, j, k)
  {
    FramesSplit(rs, i, j, k);
  }

  /** What a stretch of the RX task's life comes to: records `first` to `last` went to the stack,
      the set-up of the socket is as it was, and, unless a RECV went wrong, the ring is left at a
      record boundary. */
  ghost predicate Lives(a: State, b: State, before: seq<seq<byte>>, after: seq<seq<byte>>, hasStack: bool,
                        first: nat, last: nat, lost: bool)
  {
    && Fed(a.rx.traffic, hasStack, before, after, first, last)
    && SameSetup(a, b) && (!lost ==> Aligned(b, last) && Passes(a, b))
  }

  lemma FedOn(rs: seq<seq<byte>>, hasStack: bool, x: seq<seq<byte>>, y: seq<seq<byte>>, z: seq<seq<byte>>,
              i: nat, j: nat, k: nat)
    requires Fed(rs, hasStack, x, y, i, j) && Fed(rs, hasStack, y, z, j, k)
    ensures Fed(rs, hasStack, x, z, i, k)
  {
    HandedOn(hasStack, rs, i, j, k);
  }

  lemma LivesTrans(a: State, b: State, c: State, x: seq<seq<byte>>, y: seq<seq<byte>>, z: seq<seq<byte>>,
                   hasStack: bool, i: nat, j: nat, k: nat, lost: bool)
    requires Lives(a, b, x, y, hasStack, i, j, false) && Lives(b, c, y, z, hasStack, j, k, lost)
    ensures Lives(a, c, x, z, hasStack, i, k, lost)
  {
    FedOn(a.rx.traffic, hasStack, x, y, z, i, j, k);
  }

  lemma LivesIdle(a: State, b: State, x: seq<seq<byte>>, hasStack: bool, k: nat)
    requires AllRecords(a.rx.traffic) && Aligned(b, k) && Passes(a, b)
    ensures Lives(a, b, x, x, hasStack, k, k, false)
  {
    FedNothing(a.rx.traffic, hasStack, x, k);
  }

  /** The last look at the pin found it high. */
  predicate SawHigh(ctx: Context)
    reads ctx`levels
  {
    ctx.levels != [] && ctx.levels[|ctx.levels| - 1] != 0
  }

  /** The inner loop, between waking up and waiting again. The pin is sampled low at most `lows`
      times; the caller learns how often that is left. With the MAC still started there has been a
      pass; the last one has gone through, or there is a cause why it has not. After a pass that has
      gone through the loop is left only with the pin seen high. */
  method Wake(c: Chip, ctx: Context, mac: EthMac, lows: nat, ghost first: nat)
    returns (left: nat, ghost clean: bool, ghost last: nat, lost: bool)
    requires AllRecords(c.s.rx.traffic) && Aligned(c.s, first)
    requires 0 < c.maxGap <= TICKS - COMMAND_TICKS
    modifies c, ctx`given, ctx`levels, mac`started, mac`stops, mac`offered
    ensures Lives(old(c.s), c.s, old(mac.offered), mac.offered, mac.hasStack, first, last, lost)
    ensures clean ==> !lost
    ensures clean && mac.started ==> Through(old(c.s), c.s, last)
    ensures !clean && mac.started ==> Broken(c, old(c.s), old(c.faults), old(c.now), last)
    ensures lost ==> LostTo(c, old(c.faults))
    ensures clean && mac.started && left > 0 && ctx.HasPin() ==> SawHigh(ctx)
    ensures c.faults <= old(c.faults) && old(c.now) <= c.now
    ensures mac.Stopped(old(mac.started), old(mac.stops))
    ensures left <= lows
  {
    ghost var s0, x, f0, t0 := c.s, mac.offered, c.faults, c.now;
    left, clean, last, lost := lows, false, first, false;
    LivesIdle(s0, s0, x, mac.hasStack, first);
    var level := 0;
    while level == 0
      invariant Lives(s0, c.s, x, mac.offered, mac.hasStack, first, last, lost)
      invariant clean || level == 0 ==> !lost
      invariant clean && mac.started ==> Through(s0, c.s, last)
      invariant level != 0 && !clean && mac.started ==> Broken(c, s0, f0, t0, last)
      invariant lost ==> LostTo(c, f0)
      invariant clean && level != 0 && left > 0 && ctx.HasPin() ==> SawHigh(ctx)
      invariant c.faults <= f0 && t0 <= c.now
      invariant mac.Stopped(old(mac.started), old(mac.stops))
      invariant left <= lows
      decreases level == 0, left
    {
      var running := mac.Running();
      if !running {
        return;
      }
      ghost var s1, y, k := c.s, mac.offered, last;
      var through;
      through, last, lost := Pass(c, ctx, mac, k);
      clean := through;
      LivesTrans(s0, s1, c.s, x, y, mac.offered, mac.hasStack, first, k, last, lost);
      level := 1;
      if through && left > 0 {
        left := left - 1;
        level := ctx.InterruptLevel();
      }
    }
  }

  /** The records stored by `a` have been taken, and of what has come in since RECV tells. */
  predicate Covered(a: State, b: State, last: nat) { a.rx.stored <= last && Served(b, last) }

  lemma SleepKeeps(a: State, b: State, k: nat)
    requires Extends(a, b) && Aligned(a, k)
    ensures Aligned(b, k) && Passes(a, b) && (Served(a, k) ==> Served(b, k))
    ensures Jammed(a, k, InvalidResponse) ==> Jammed(b, k, InvalidResponse)
  {
  }

  /** The time the RX task spends blocked, in a life that began at `start` with `before` offered. */
  method Sleep(c: Chip, ghost start: State, ghost before: seq<seq<byte>>, ghost now: seq<seq<byte>>,
               ghost hasStack: bool, ghost first: nat, ghost last: nat)
    requires Lives(start, c.s, before, now, hasStack, first, last, false)
    modifies c`s
    ensures Lives(start, c.s, before, now, hasStack, first, last, false)
    ensures Served(old(c.s), last) ==> Served(c.s, last)
    ensures Jammed(old(c.s), last, InvalidResponse) ==> Jammed(c.s, last, InvalidResponse)
    ensures c.s.events <= old(c.s).events
  {
    ghost var asleep := c.s;
    c.Env();
    SleepKeeps(asleep, c.s, last);
    LivesIdle(asleep, c.s, now, hasStack, last);
    LivesTrans(start, asleep, c.s, before, now, now, hasStack, first, last, last, false);
  }

  /** The inner loop in the course of such a life. */
  method WakeUp(c: Chip, ctx: Context, mac: EthMac, lows: nat, ghost start: State, ghost before: seq<seq<byte>>,
                ghost first: nat, ghost k: nat)
    returns (left: nat, ghost clean: bool, ghost last: nat, lost: bool)
    requires Lives(start, c.s, before, mac.offered, mac.hasStack, first, k, false)
    requires 0 < c.maxGap <= TICKS - COMMAND_TICKS
    modifies c, ctx`given, ctx`levels, mac`started, mac`stops, mac`offered
    ensures Lives(start, c.s, before, mac.offered, mac.hasStack, first, last, lost)
    ensures clean && mac.started ==> Covered(start, c.s, last)
    ensures !clean && mac.started ==> Broken(c, start, old(c.faults), old(c.now), last)
    ensures lost ==> LostTo(c, old(c.faults))
    ensures c.faults <= old(c.faults) && old(c.now) <= c.now
    ensures mac.Stopped(old(mac.started), old(mac.stops))
  {
    ghost var s, x := c.s, mac.offered;
    left, clean, last, lost := Wake(c, ctx, mac, lows, k);
    LivesTrans(start, s, c.s, before, x, mac.offered, mac.hasStack, first, k, last, lost);
  }

  /** How the RX task ended up: it could not register, it waits for a notification that does not
      come, it was stopped, or a RECV went wrong, which this model does not follow further. */
  datatype End = Unregistered | Blocked | Stopped | Lost

  /** The outer loop, between registration and unregistration. */
  method Live(c: Chip, ctx: Context, mac: EthMac, wakes: nat, lows: nat, ghost first: nat)
    returns (end: End, ghost clean: bool, ghost last: nat)
    requires AllRecords(c.s.rx.traffic) && Aligned(c.s, first)
    requires 0 < c.maxGap <= TICKS - COMMAND_TICKS
    modifies c, ctx`given, ctx`levels, mac`started, mac`stops, mac`offered
    ensures !end.Unregistered?
    ensures Lives(old(c.s), c.s, old(mac.offered), mac.offered, mac.hasStack, first, last, end.Lost?)
    ensures end.Stopped? ==> !mac.started
    ensures end.Blocked? && clean && mac.started ==> Covered(old(c.s), c.s, last)
    ensures end.Blocked? && !clean && mac.started && wakes > 0 ==>
              Broken(c, old(c.s), old(c.faults), old(c.now), last)
    ensures end.Lost? ==> LostTo(c, old(c.faults))
    ensures mac.Stopped(old(mac.started), old(mac.stops))
  {
    ghost var s0, x, f0, t0 := c.s, mac.offered, c.faults, c.now;
    clean, last := false, first;
    LivesIdle(s0, s0, x, mac.hasStack, first);
    var more, left := wakes, lows;
    var running := mac.Running();
    while running
      invariant Lives(s0, c.s, x, mac.offered, mac.hasStack, first, last, false)
      invariant clean && mac.started ==> Covered(s0, c.s, last)
      invariant !clean && mac.started ==> more == wakes || Broken(c, s0, f0, t0, last)
      invariant c.faults <= f0 && t0 <= c.now && 0 <= more <= wakes
      invariant mac.Stopped(old(mac.started), old(mac.stops))
      invariant running || !mac.started
      decreases running, more
    {
      Sleep(c, s0, x, mac.offered, mac.hasStack, first, last);
      if more == 0 {
        return Blocked, clean, last;
      }
      more := more - 1;
      running := mac.Running();
      if running {
        var lost;
        left, clean, last, lost := WakeUp(c, ctx, mac, left, s0, x, first, last);
        if lost {
          return Lost, false, last;
        }
        running := mac.Running();
      }
    }
    end := Stopped;
  }

  /** w5500_mac_rx_task, woken up at most `wakes` times. Whatever happened, what the stack was given
      is the records from `first` on, each once and in order. A task that blocks again after having
      been woken, the MAC still started, has taken every record that was there when it began, and
      every other one, or RECV is set to bring it back; or there is a cause why its last pass has
      not gone through. */
  method Task(c: Chip, ctx: Context, mac: EthMac, self: nat, wakes: nat, lows: nat, ghost first: nat)
    returns (end: End, ghost clean: bool, ghost last: nat)
    requires AllRecords(c.s.rx.traffic) && Aligned(c.s, first)
    requires 0 < c.maxGap <= TICKS - COMMAND_TICKS
    modifies c, ctx, mac`started, mac`stops, mac`offered, mac`rxTask
    ensures Lives(old(c.s), c.s, old(mac.offered), mac.offered, mac.hasStack, first, last, end.Lost?)
    ensures end.Unregistered? ==> mac.rxTask == 0 && !mac.started && c.s == old(c.s)
    ensures end.Unregistered? ==> !ctx.HasPin() || self == 0 || ctx.faults < old(ctx.faults)
    ensures end.Stopped? ==> mac.rxTask == 0 && !mac.started
    ensures end.Stopped? && ctx.faults == old(ctx.faults) ==>
              ctx.task == 0 && !ctx.enabled && !ctx.handlerInstalled
    ensures end.Blocked? || end.Lost? ==> ctx.task == self && ctx.enabled && ctx.handlerInstalled
    ensures end.Blocked? && clean && mac.started ==> Covered(old(c.s), c.s, last)
    ensures end.Blocked? && !clean && mac.started && wakes > 0 ==>
              Broken(c, old(c.s), old(c.faults), old(c.now), last)
    ensures end.Lost? ==> LostTo(c, old(c.faults))
    ensures end.Blocked? || end.Lost? ==> mac.rxTask == old(mac.rxTask)
    ensures !end.Unregistered? ==> mac.Stopped(old(mac.started), old(mac.stops))
  {
    clean, last := false, first;
    LivesIdle(c.s, c.s, mac.offered, mac.hasStack, first);
    var err;
    ghost var dangling;
    err, dangling := RegisterInterruptTask(ctx, self);
    if err != Ok {
      mac.rxTask, mac.started := 0, false;
      return Unregistered, false, first;
    }
    end, clean, last := Live(c, ctx, mac, wakes, lows, first);
    if end == Stopped {
      err := UnregisterInterruptTask(ctx);
      mac.rxTask := 0;
    }
  }
}

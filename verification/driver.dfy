/** w5500_driver.c: interrupt service, transmission and the bring-up of socket 0. */
module Driver {
  import opened Words
  import opened Flags
  import opened Ring
  import opened W5500

  /** The part of w5500_context_t that interrupts use. */
  class Context {
    var initialized: bool
    var pinInt: int
    var serviceInstalled: bool
    var handlerInstalled: bool
    /** Whether the pin interrupt is enabled. */
    var enabled: bool
    /** Whether the pin is set to interrupt on falling edges. */
    var negEdge: bool
    /** interrupt_task_handle, 0 standing for NULL, and the notifications given to tasks. */
    var task: nat
    var given: nat
    /** The pin levels sampled so far. */
    var levels: seq<int>
    /** How many more calls into the GPIO driver are going to fail. */
    var faults: nat

    constructor (pinInt: int, faults: nat)
      ensures initialized && this.pinInt == pinInt && !Registered() && given == 0 && levels == []
      ensures !serviceInstalled && !handlerInstalled && !enabled && !negEdge && this.faults == faults
    {
      initialized, this.pinInt, task, given, levels, this.faults := true, pinInt, 0, 0, [], faults;
      serviceInstalled, handlerInstalled, enabled, negEdge := false, false, false, false;
    }

    predicate Registered()
      reads this`task
    {
      task != 0
    }

    predicate HasPin()
      reads this`initialized, this`pinInt
    {
      initialized && pinInt >= 0
    }

    /** A call into the GPIO driver. */
    method Gpio() returns (err: Err)
      modifies this`faults
      ensures faults <= old(faults) && (err.Ok? <==> faults == old(faults))
    {
      err := Ok;
      if faults > 0 {
        err := *;
        if err != Ok {
          faults := faults - 1;
        }
      }
    }

    /** w5500_driver_get_interrupt_level: the pin is whatever it is. */
    method InterruptLevel() returns (level: int)
      modifies this`levels
      ensures if HasPin() then 0 <= level <= 1 && levels == old(levels) + [level]
              else level == -1 && levels == old(levels)
    {
      if !initialized || pinInt < 0 {
        return -1;
      }
      level :| 0 <= level <= 1;
      levels := levels + [level];
    }

    /** w5500_driver_notify_interrupt_task_if_pending: with a pin and a registered task, the level
        is sampled once, and low means a notification. */
    method NotifyIfPending()
      modifies this`given, this`levels
      ensures HasPin() && Registered() ==> |levels| == |old(levels)| + 1
      ensures given == old(given) +
                       (if HasPin() && Registered() && levels[|old(levels)|] == 0 then 1 else 0)
    {
      if !initialized || pinInt < 0 || !Registered() {
        return;
      }
      var level := InterruptLevel();
      if level == 0 {
        given := given + 1;
      }
    }
  }

  /** `b` is `a` after a stretch of time in which the host may have cleared interrupt flags other
      than RECV, and wrote nothing else. */
  predicate Drifts(a: State, b: State) {
    && b == a.(rx := b.rx, tx := b.tx, ir := b.ir, snIr := b.snIr, events := b.events)
    && RxGrows(a.rx, b.rx) && TxDrains(a.tx, b.tx)
    && (a.snIr.recv || a.rx.stored < b.rx.stored ==> b.snIr.recv)
    && b.events <= a.events
  }

  lemma DriftsTrans(a: State, b: State, c: State)
    requires Drifts(a, b) && Drifts(b, c)
    ensures Drifts(a, c)
  {
  }

  lemma ExtendsDrifts(a: State, b: State)
    requires Extends(a, b)
    ensures Drifts(a, b)
  {
  }

  /** A transaction in the course of a drift that began at `from`. */
  method Access(c: Chip, ghost from: State) returns (err: Err)
    requires Drifts(from, c.s) && from.cr == 0
    modifies c`s, c`faults
    ensures Drifts(from, c.s) && c.s.events <= old(c.s).events && old(c.s).snIr.Kept(c.s.snIr)
    ensures c.s.events == old(c.s).events ==> c.s == old(c.s)
    ensures err.Ok? || BusError(err)
    ensures c.faults <= old(c.faults) && (err.Ok? <==> c.faults == old(c.faults))
  {
    err := c.Transact(c.s);
    ExtendsDrifts(old(c.s), c.s);
    DriftsTrans(from, old(c.s), c.s);
  }

  /** w5500_clear_sn_ir for flags other than RECV. */
  method ClearSnIr(c: Chip, x: Sn, ghost from: State) returns (err: Err)
    requires Drifts(from, c.s) && from.cr == 0 && !x.recv
    modifies c`s, c`faults
    ensures Drifts(from, c.s) && c.s.events <= old(c.s).events && old(c.s).snIr.Clear(x).Kept(c.s.snIr)
    ensures err.Ok? || BusError(err)
    ensures c.faults <= old(c.faults) && (err.Ok? <==> c.faults == old(c.faults))
    ensures c.s.events == old(c.s).events ==>
              c.s == if err.Ok? then old(c.s).(snIr := old(c.s).snIr.Clear(x)) else old(c.s)
  {
    err := Access(c, from);
    if err == Ok {
      c.s := c.s.(snIr := c.s.snIr.Clear(x));
    }
  }

  /** w5500_clear_ir */
  method ClearIr(c: Chip, y: Common, ghost from: State) returns (err: Err)
    requires Drifts(from, c.s) && from.cr == 0
    modifies c`s, c`faults
    ensures Drifts(from, c.s) && c.s.events <= old(c.s).events
    ensures err.Ok? || BusError(err)
    ensures c.faults <= old(c.faults) && (err.Ok? <==> c.faults == old(c.faults))
    ensures c.s.events == old(c.s).events ==>
              c.s == if err.Ok? then old(c.s).(ir := old(c.s).ir.Clear(y)) else old(c.s)
  {
    err := Access(c, from);
    if err == Ok {
      c.s := c.s.(ir := c.s.ir.Clear(y));
    }
  }

  /** The two transmit-completion flags taken out of `x`. */
  function Completed(x: Sn): Sn { x.(sendOk := false, timeout := false) }

  /** Clears those of the two completion flags that are in `snIr`. */
  method Acknowledge(c: Chip, snIr: Sn, ghost from: State) returns (err: Err)
    requires Drifts(from, c.s) && from.cr == 0
    modifies c`s, c`faults
    ensures Drifts(from, c.s) && c.s.events <= old(c.s).events
    ensures Completed(old(c.s).snIr).Kept(c.s.snIr)
    ensures c.faults <= old(c.faults)
    ensures if c.faults < old(c.faults) then BusError(err) else if snIr.timeout then err.Timeout? else err.Ok?
    ensures c.faults == old(c.faults) && c.s.events == old(c.s).events && snIr == old(c.s).snIr ==>
              c.s == old(c.s).(snIr := Completed(old(c.s).snIr))
  {
    if snIr.sendOk {
      err := ClearSnIr(c, SN_SEND_OK, from);
      if err != Ok {
        return;
      }
    }
    if snIr.timeout {
      err := ClearSnIr(c, SN_TIMEOUT, from);
      if err != Ok {
        return;
      }
      return Timeout;
    }
    return Ok;
  }

  /** w5500_socket0_update_tx_completion. It clears no other flag than the two of completion, and
      does not overlook a TIMEOUT that was there; on a chip that does not change meanwhile it
      clears exactly those two. */
  method UpdateTxCompletion(c: Chip, ctx: Context, ghost from: State) returns (err: Err)
    requires Drifts(from, c.s) && from.cr == 0
    modifies c`s, c`faults, ctx`given, ctx`levels
    ensures Drifts(from, c.s) && c.s.events <= old(c.s).events
    ensures old(ctx.given) <= ctx.given <= old(ctx.given) + 1
    ensures ctx.given > old(ctx.given) ==> ctx.Registered()
    ensures c.s.events == old(c.s).events && c.faults == old(c.faults) ==>
              if old(c.s).snIr.recv && ctx.HasPin() && ctx.Registered()
              then |ctx.levels| == |old(ctx.levels)| + 1 &&
                   ctx.given == old(ctx.given) + (if ctx.levels[|old(ctx.levels)|] == 0 then 1 else 0)
              else ctx.given == old(ctx.given)
    ensures c.faults <= old(c.faults)
    ensures if c.faults < old(c.faults) then BusError(err) else err.Ok? || err.Timeout?
    ensures Completed(old(c.s).snIr).Kept(c.s.snIr)
    ensures c.faults == old(c.faults) && old(c.s).snIr.timeout ==> err.Timeout?
    ensures c.faults == old(c.faults) && c.s.events == old(c.s).events ==>
              && c.s == old(c.s).(snIr := Completed(old(c.s).snIr))
              && (err.Timeout? <==> old(c.s).snIr.timeout)
  {
    err := Access(c, from);
    if err != Ok {
      return;
    }
    var snIr := c.s.snIr;
    if snIr.recv {
      ctx.NotifyIfPending();
    }
    err := Acknowledge(c, snIr, from);
  }

  // ---------- interrupt service ----------

  /** What w5500_handle_socket0_ir leaves of the flags it was called for. */
  function AfterHandling(x: Sn): Sn {
    x.(con := false, discon := false, sendOk := false, timeout := false)
  }

  /** That is all of the defined flags but RECV. */
  lemma HandlingClears(x: Sn)
    ensures AfterHandling(x) == x.Clear(SN_ALL.(recv := false)) && AfterHandling(x).recv == x.recv
  {
  }

  /** What it may clear at most: the flags of completion, and of the others those in `v`. */
  function Spared(x: Sn, v: Sn): Sn {
    Completed(x).(con := x.con && !v.con, discon := x.discon && !v.discon)
  }

  lemma SparedKept(x: Sn, m: Sn, y: Sn, v: Sn)
    requires Completed(x).Kept(m) && m.Clear(SN_NONE.(con := v.con, discon := v.discon)).Kept(y)
    ensures Spared(x, v).Kept(y)
  {
  }

  /** w5500_handle_socket0_ir, `snIr` being the value just read. */
  method HandleSocket0Ir(c: Chip, ctx: Context, snIr: Sn, ghost from: State) returns (err: Err)
    requires Drifts(from, c.s) && from.cr == 0
    modifies c`s, c`faults, ctx`given, ctx`levels
    ensures Drifts(from, c.s) && c.s.events <= old(c.s).events
    ensures err.Ok? || (BusError(err) && c.faults < old(c.faults))
    ensures c.faults <= old(c.faults)
    ensures Spared(old(c.s).snIr, snIr).Kept(c.s.snIr)
    ensures c.faults == old(c.faults) && c.s.events == old(c.s).events && snIr == old(c.s).snIr ==>
              c.s == old(c.s).(snIr := AfterHandling(snIr))
  {
    err := Ok;
    if !snIr.Any() {
      return;
    }
    if snIr.sendOk || snIr.timeout {
      err := UpdateTxCompletion(c, ctx, from);
      if err != Ok && err != Timeout {
        return;
      }
      err := Ok;
    }
    ghost var mid := c.s.snIr;
    var clear := SN_NONE.(con := snIr.con, discon := snIr.discon);
    if clear.Any() {
      err := ClearSnIr(c, clear, from);
    }
    SparedKept(old(c.s).snIr, mid, c.s.snIr, snIr);
  }

  /** Interrupt flags as one pass of the service loop finds and leaves them. `others` tells
      whether another socket's bit is set in SIR. */
  datatype Lines = Lines(ir: Common, snIr: Sn, snImr: Sn, others: bool)

  /** One pass over flags that do not change meanwhile, and whether it returns. */
  function QuietPass(l: Lines): (Lines, bool) {
    var cleared := l.(ir := if l.ir.Any() then l.ir.Clear(l.ir.Defined()) else l.ir);
    if l.snIr.And(l.snImr).Any() then
      (cleared.(snIr := AfterHandling(l.snIr)), l.snIr.recv)
    else
      (cleared, !l.ir.Any() && !l.others)
  }

  function LinesOf(s: State): Lines { Lines(s.ir, s.snIr, s.snImr, false) }

  /** Why the service loop returned OK: it read RECV set at `at`, or it read Sn_IR zero at `at`,
      or it read IR zero at `at` and then SIR zero at `sirAt`. */
  datatype Seen = SawRecv(at: State) | SawNoFlags(at: State) | SawIdle(at: State, sirAt: State)

  predicate SeenTruly(seen: Seen, a: State, b: State) {
    match seen
    case SawRecv(at) => at.snIr.recv && Drifts(a, at) && Drifts(at, b)
    case SawNoFlags(at) => !at.snIr.Any() && Drifts(a, at) && Drifts(at, b)
    case SawIdle(at, sirAt) => !at.ir.Any() && !Sir(sirAt) && Drifts(a, at) && Drifts(at, sirAt) && Drifts(sirAt, b)
  }

  function FlagCount(s: State): nat { s.ir.Count() + s.snIr.Count() }

  lemma PassDrops(s: State)
    requires !QuietPass(LinesOf(s)).1
    ensures var l := QuietPass(LinesOf(s)).0; l.ir.Count() + l.snIr.Count() < FlagCount(s)
  {
    var l := QuietPass(LinesOf(s)).0;
    SnCountDrops(s.snIr, l.snIr);
    CommonCountDrops(s.ir, l.ir);
  }

  /** The socket part of a pass: SIR showed socket 0. */
  method ServiceSocket0(c: Chip, ctx: Context, ghost from: State) returns (err: Err, done: bool, ghost seen: Seen)
    requires Drifts(from, c.s) && from.cr == 0
    modifies c`s, c`faults, ctx`given, ctx`levels
    ensures Drifts(from, c.s) && c.s.events <= old(c.s).events
    ensures err.Ok? || (BusError(err) && c.faults < old(c.faults) && !done)
    ensures c.faults <= old(c.faults)
    ensures done ==> SeenTruly(seen, from, c.s)
    ensures c.faults == old(c.faults) && c.s.events == old(c.s).events && old(c.s).snIr.Any() ==>
              c.s == old(c.s).(snIr := AfterHandling(old(c.s).snIr)) && (done <==> old(c.s).snIr.recv)
  {
    done := false;
    seen := SawNoFlags(c.s);
    err := Access(c, from);
    if err != Ok {
      return;
    }
    ghost var at := c.s;
    var s0 := c.s.snIr;
    if !s0.Any() {
      return Ok, true, SawNoFlags(at);
    }
    err := HandleSocket0Ir(c, ctx, s0, at);
    DriftsTrans(from, at, c.s);
    if err == Ok && s0.recv {
      done, seen := true, SawRecv(at);
    }
  }

  /** One pass of the service loop. */
  method ServicePass(c: Chip, ctx: Context, ghost from: State) returns (err: Err, done: bool, ghost seen: Seen)
    requires Drifts(from, c.s) && from.cr == 0
    modifies c`s, c`faults, ctx`given, ctx`levels
    ensures Drifts(from, c.s) && c.s.events <= old(c.s).events
    ensures err.Ok? || (BusError(err) && c.faults < old(c.faults) && !done)
    ensures c.faults <= old(c.faults)
    ensures done ==> SeenTruly(seen, from, c.s)
    ensures c.faults == old(c.faults) && c.s.events == old(c.s).events ==>
              && c.s == old(c.s).(ir := QuietPass(LinesOf(old(c.s))).0.ir, snIr := QuietPass(LinesOf(old(c.s))).0.snIr)
              && done == QuietPass(LinesOf(old(c.s))).1
  {
    done := false;
    seen := SawNoFlags(c.s);
    var level := ctx.InterruptLevel();
    err := Access(c, from);
    if err != Ok {
      return;
    }
    ghost var irAt := c.s;
    var ir := c.s.ir;
    err := Access(c, irAt);
    ghost var sirAt := c.s;
    DriftsTrans(from, irAt, sirAt);
    if err != Ok {
      return;
    }
    var sir := Sir(c.s);
    if ir.Any() {
      err := ClearIr(c, ir.Defined(), from);
      if err != Ok {
        return;
      }
    }
    if sir {
      err, done, seen := ServiceSocket0(c, ctx, from);
    } else if !ir.Any() {
      done, seen := true, SawIdle(irAt, sirAt);
    }
  }

  /** Passes over flags that do not change meanwhile, until one returns. */
  function Passes(l: Lines, n: nat): (Lines, bool) {
    if n == 0 then (l, false)
    else
      var (m, done) := Passes(l, n - 1);
      if done then (m, true) else QuietPass(m)
  }

  /** One more quiet pass, which uses up a flag unless it returns. */
  lemma PassCounted(from: State, a: State, b: State, n: nat, done: bool)
    requires b == a.(ir := QuietPass(LinesOf(a)).0.ir, snIr := QuietPass(LinesOf(a)).0.snIr)
    requires done == QuietPass(LinesOf(a)).1
    ensures Passes(LinesOf(from), n) == (LinesOf(a), false) ==> Passes(LinesOf(from), n + 1) == (LinesOf(b), done)
    ensures !done ==> FlagCount(b) < FlagCount(a)
  {
    if !done {
      PassDrops(a);
    }
  }

  /** One pass of a service that began at `from` with `faults` failures to come, `n` passes having
      gone before. */
  method NextPass(c: Chip, ctx: Context, ghost from: State, ghost faults: nat, ghost n: nat)
    returns (err: Err, done: bool, ghost seen: Seen)
    requires Drifts(from, c.s) && from.cr == 0 && c.faults <= faults
    requires c.s.events == from.events && c.faults == faults ==> Passes(LinesOf(from), n) == (LinesOf(c.s), false)
    modifies c`s, c`faults, ctx`given, ctx`levels
    ensures Drifts(from, c.s) && c.s.events <= old(c.s).events
    ensures err.Ok? || (BusError(err) && c.faults < old(c.faults) && !done)
    ensures c.faults <= old(c.faults)
    ensures done ==> SeenTruly(seen, from, c.s)
    ensures c.s.events == from.events && c.faults == faults ==> Passes(LinesOf(from), n + 1) == (LinesOf(c.s), done)
    ensures err.Ok? && !done && c.s.events == old(c.s).events && c.faults == old(c.faults) ==>
              FlagCount(c.s) < FlagCount(old(c.s))
  {
    ghost var before, left := c.s, c.faults;
    err, done, seen := ServicePass(c, ctx, from);
    if c.s.events == before.events && c.faults == left {
      PassCounted(from, before, c.s, n, done);
    }
  }

  /** w5500_driver_service_interrupts. The loop ends however events and failures interfere, since
      every pass that does not return saw an event, met a failure or cleared a flag; and OK has one
      of the three meanings of Seen, while an error is that of a failed transaction. RECV is never
      cleared. On a chip that does not change meanwhile the flags are left as that many quiet passes
      leave them. */
  method ServiceInterrupts(c: Chip, ctx: Context) returns (err: Err, ghost seen: Seen, ghost passes: nat)
    requires c.s.cr == 0
    modifies c`s, c`faults, ctx`given, ctx`levels
    ensures Drifts(old(c.s), c.s)
    ensures err.Ok? ==> SeenTruly(seen, old(c.s), c.s)
    ensures err.Ok? || (BusError(err) && c.faults < old(c.faults))
    ensures c.faults <= old(c.faults)
    ensures c.faults == old(c.faults) && c.s.events == old(c.s).events ==>
              Passes(LinesOf(old(c.s)), passes) == (LinesOf(c.s), true)
  {
    var done;
    ghost var from, faults := c.s, c.faults;
    passes := 0;
    while true
      invariant Drifts(from, c.s) && c.faults <= faults
      invariant c.s.events == from.events && c.faults == faults ==>
                  Passes(LinesOf(from), passes) == (LinesOf(c.s), false)
      decreases c.s.events + c.faults, FlagCount(c.s)
    {
      err, done, seen := NextPass(c, ctx, from, faults, passes);
      passes := passes + 1;
      if err != Ok || done {
        return;
      }
    }
  }

  /** Flags that keep the loop from ever returning on a chip where nothing else happens: RECV is
      not there to end it, and some flag is one that it never clears. */
  predicate Stuck(l: Lines) {
    && !(l.snIr.recv && l.snIr.And(l.snImr).Any())
    && ((l.snIr.reserved && l.snImr.reserved) || l.ir.reserved || l.others)
  }

  lemma StuckStays(l: Lines)
    requires Stuck(l)
    ensures Stuck(QuietPass(l).0) && !QuietPass(l).1
  {
  }

  lemma {:induction false} StuckForever(l: Lines, n: nat)
    requires Stuck(l)
    ensures Stuck(Passes(l, n).0) && !Passes(l, n).1
  {
    if n > 0 {
      StuckForever(l, n - 1);
      StuckStays(Passes(l, n - 1).0);
    }
  }

  /** Left alone, the service loop returns, after at most three passes, exactly if the flags are
      not stuck. Reserved bits and other sockets are what could make it spin. */
  lemma ServiceHalts(l: Lines)
    ensures (exists n: nat :: Passes(l, n).1) <==> !Stuck(l)
    ensures !Stuck(l) ==> Passes(l, 3).1
  {
    if Stuck(l) {
      forall n: nat
        ensures !Passes(l, n).1
      {
        StuckForever(l, n);
      }
    } else {
      ThreePasses(l);
    }
  }

  lemma ThreePasses(l: Lines)
    requires !Stuck(l)
    ensures Passes(l, 3).1
  {
    var l1 := QuietPass(l);
    assert Passes(l, 0) == (l, false);
    assert Passes(l, 1) == l1;
    if !l1.1 {
      assert !Stuck(l1.0);
      assert Passes(l, 2) == QuietPass(l1.0);
    }
  }
}

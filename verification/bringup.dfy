/** w5500_driver.c: opening socket 0 in MACRAW mode and unmasking its interrupt. */
module BringUp {
  import opened Words
  import opened Flags
  import opened Ring
  import opened W5500
  import opened Regs
  import opened Driver

  const MODE: byte := MR_MACRAW + MR_MFEN + MR_MMB
  const SIMR_S0: byte := 0x01
  /** All packet memory belongs to socket 0. */
  function SizeKb(sock: nat): byte { if sock == 0 then 16 else 0 }

  predicate Sized(kb: seq<byte>, n: nat) {
    n <= |kb| && forall i | 0 <= i < n :: kb[i] == SizeKb(i)
  }

  /** The socket is open in MACRAW mode with the whole packet memory. */
  predicate Opened(s: State) {
    s.sr == SOCK_MACRAW && s.mr == MODE && Sized(s.rxKb, 8) && Sized(s.txKb, 8)
  }

  /** RECV, and nothing else, reaches the interrupt pin. */
  predicate Unmasked(s: State) {
    s.snImr == SN_RECV && s.simr == SIMR_S0 && s.imr == 0 && s.intLevel == 0xFFFF
  }

  /** The configuration registers other than the ones OpenMacraw writes. */
  predicate SameMasks(a: State, b: State) {
    b.snImr == a.snImr && b.simr == a.simr && b.imr == a.imr && b.intLevel == a.intLevel
  }

  lemma EvolvesKeepsSetup(a: State, b: State)
    requires Evolves(a, b)
    ensures SameMasks(a, b) && b.mr == a.mr && b.rxKb == a.rxKb && b.txKb == a.txKb
    ensures a.cr != CR_OPEN && a.cr != CR_CLOSE ==> b.sr == a.sr
  {
  }

  lemma EvolvesSameSetup(a: State, b: State)
    requires Evolves(a, b) && a.cr != CR_OPEN && a.cr != CR_CLOSE
    ensures SameSetup(a, b)
  {
  }

  /** Once set up, socket and interrupt stay so, whatever the chip does by itself and whatever is
      sent and received. */
  lemma SetupStays(a: State, b: State)
    requires Opened(a) && Unmasked(a)
    requires SameSetup(a, b) || (Evolves(a, b) && a.cr != CR_OPEN && a.cr != CR_CLOSE)
    ensures Opened(b) && Unmasked(b)
  {
    if !SameSetup(a, b) {
      EvolvesSameSetup(a, b);
    }
  }

  /** A command written to Sn_CR and waited for. */
  method Command(c: Chip, cr: byte) returns (err: Err, ghost issued: State)
    requires cr == CR_OPEN || cr == CR_CLOSE
    requires 0 < c.maxGap <= TICKS - COMMAND_TICKS
    modifies c
    ensures err.Ok? || BusError(err)
    ensures err.Ok? ==> issued.cr == cr && Evolves(issued, c.s) && c.s.cr == 0
    ensures err.Ok? ==> Extends(Accepted(issued), c.s)
    ensures err.Ok? && old(c.s).cr != CR_OPEN ==> issued.rx.sessions == old(c.s).rx.sessions
    ensures err.Ok? ==> issued.mr == old(c.s).mr && issued.rxKb == old(c.s).rxKb && issued.txKb == old(c.s).txKb
    ensures SameMasks(old(c.s), c.s) && old(c.now) <= c.now
    ensures c.s.events <= old(c.s).events
    ensures c.faults <= old(c.faults) && (err.Ok? ==> c.faults == old(c.faults))
    ensures !err.Ok? ==> c.Excused(old(c.faults), old(c.now))
  {
    err := c.Poll();
    EvolvesKeepsSetup(old(c.s), c.s);
    issued := c.s;
    if err != Ok {
      return;
    }
    c.s := c.s.(cr := cr);
    issued := c.s;
    err := WaitForCommand(c, COMMAND_TICKS);
    EvolvesKeepsSetup(issued, c.s);
  }

  /** Only the chip itself touches the flags of socket 0, and the socket is not opened. */
  predicate FlagsStay(a: State, b: State) {
    b.events <= a.events && (b.events == a.events ==> b.snIr == a.snIr) && b.rx.sessions == a.rx.sessions
  }

  /** One pair of buffer sizes. */
  method SizeBuffer(c: Chip, sock: nat, sizeKb: byte) returns (err: Err)
    requires c.s.cr == 0 && sock < 8
    modifies c`s, c`faults
    ensures SameMasks(old(c.s), c.s) && c.s.cr == 0
    ensures err.Ok? || BusError(err)
    ensures c.faults <= old(c.faults) && (err.Ok? <==> c.faults == old(c.faults))
    ensures err.Ok? ==> c.s.rxKb == old(c.s).rxKb[sock := sizeKb] && c.s.txKb == old(c.s).txKb[sock := sizeKb]
    ensures FlagsStay(old(c.s), c.s)
  {
    err := c.Transact(c.s);
    if err == Ok {
      c.s := c.s.(rxKb := c.s.rxKb[sock := sizeKb]);
      err := c.Transact(c.s);
      if err == Ok {
        c.s := c.s.(txKb := c.s.txKb[sock := sizeKb]);
      }
    }
  }

  /** The eight pairs of buffer sizes. */
  method SizeBuffers(c: Chip) returns (err: Err)
    requires c.s.cr == 0
    modifies c`s, c`faults
    ensures SameMasks(old(c.s), c.s) && c.s.cr == 0
    ensures err.Ok? || BusError(err)
    ensures c.faults <= old(c.faults) && (err.Ok? <==> c.faults == old(c.faults))
    ensures err.Ok? ==> Sized(c.s.rxKb, 8) && Sized(c.s.txKb, 8)
    ensures FlagsStay(old(c.s), c.s)
  {
    var sock := 0;
    err := Ok;
    while sock < 8 && err == Ok
      invariant 0 <= sock <= 8
      invariant SameMasks(old(c.s), c.s) && c.s.cr == 0
      invariant err.Ok? ==> Sized(c.s.rxKb, sock) && Sized(c.s.txKb, sock)
      invariant err.Ok? || BusError(err)
      invariant c.faults <= old(c.faults) && (err.Ok? <==> c.faults == old(c.faults))
      invariant FlagsStay(old(c.s), c.s)
      decreases 8 - sock
    {
      err := SizeBuffer(c, sock, if sock == 0 then 16 else 0);
      sock := sock + 1;
    }
  }

  /** Flags, sizes and mode, between CLOSE and OPEN: they are set on a closed socket only. */
  method Configure(c: Chip) returns (err: Err)
    requires c.s.cr == 0 && c.s.sr == SOCK_CLOSED
    modifies c`s, c`faults
    ensures SameMasks(old(c.s), c.s) && c.s.cr == 0 && c.s.events <= old(c.s).events
    ensures err.Ok? || BusError(err)
    ensures c.faults <= old(c.faults) && (err.Ok? <==> c.faults == old(c.faults))
    ensures err.Ok? ==> Sized(c.s.rxKb, 8) && Sized(c.s.txKb, 8) && c.s.mr == MODE
    ensures err.Ok? && c.s.events == old(c.s).events ==> !c.s.snIr.Any()
    ensures c.s.rx.sessions == old(c.s).rx.sessions
  {
    err := c.Transact(c.s);
    if err == Ok {
      c.s := c.s.(snIr := c.s.snIr.Clear(SN_ALL));
      err := SizeBuffers(c);
      if err == Ok {
        err := c.Transact(c.s);
        if err == Ok {
          c.s := c.s.(mr := MODE);
        }
      }
    }
  }

  /** CLOSE, and the setting up behind it. */
  method CloseAndConfigure(c: Chip) returns (err: Err)
    requires 0 < c.maxGap <= TICKS - COMMAND_TICKS
    modifies c
    ensures err.Ok? || BusError(err)
    ensures SameMasks(old(c.s), c.s) && old(c.now) <= c.now && c.s.events <= old(c.s).events
    ensures err.Ok? ==> Sized(c.s.rxKb, 8) && Sized(c.s.txKb, 8) && c.s.mr == MODE && c.s.cr == 0
    ensures err.Ok? && old(c.s).cr != CR_OPEN ==> c.s.rx.sessions == old(c.s).rx.sessions
    ensures c.faults <= old(c.faults) && (err.Ok? ==> c.faults == old(c.faults))
    ensures !err.Ok? ==> c.Excused(old(c.faults), old(c.now))
  {
    ghost var issued;
    err, issued := Command(c, CR_CLOSE);
    if err == Ok {
      err := Configure(c);
    }
  }

  /** w5500_socket0_open_macraw. On success the rings have been empty at the instant `reopened`,
      with both receive pointers at zero, the next session's traffic to come and nothing accepted
      for transmission, and only chip events have happened since. It fails only for a failed
      transaction, or a command that has been waited for in full; Sn_SR then always shows the socket
      open. */
  method OpenMacraw(c: Chip) returns (err: Err, ghost reopened: State)
    requires 0 < c.maxGap <= TICKS - COMMAND_TICKS
    modifies c
    ensures err.Ok? || BusError(err)
    ensures SameMasks(old(c.s), c.s)
    ensures err.Ok? ==> Opened(c.s) && c.s.cr == 0
    ensures c.faults <= old(c.faults) && (err.Ok? ==> c.faults == old(c.faults))
    ensures !err.Ok? ==> c.Excused(old(c.faults), old(c.now))
    ensures err.Ok? ==>
              && Extends(reopened, c.s)
              && reopened.rx.stored == reopened.rx.taken == reopened.rx.end == reopened.rx.rdReg == 0
              && (old(c.s).cr != CR_OPEN ==> reopened.rx.traffic == NextSession(old(c.s).rx))
              && reopened.tx.outbox == [] && reopened.tx.put == reopened.tx.latched == 0
  {
    reopened := c.s;
    err := CloseAndConfigure(c);
    if err == Ok {
      ghost var issued;
      err, issued := Command(c, CR_OPEN);
      if err == Ok {
        reopened := Accepted(issued);
        err := c.Transact(reopened);
        if err == Ok && c.s.sr != SOCK_MACRAW {
          err := InvalidResponse;
        }
      }
    }
  }

  /** Between `a` and `b` the host wrote interrupt flags and masks only. */
  predicate Enables(a: State, b: State) {
    && b == a.(rx := b.rx, tx := b.tx, ir := b.ir, snIr := b.snIr, imr := b.imr, snImr := b.snImr,
               simr := b.simr, intLevel := b.intLevel, events := b.events)
    && RxGrows(a.rx, b.rx) && TxDrains(a.tx, b.tx)
  }

  /** A transaction in the course of this, at whose end the host may write flags or masks. */
  method Reach(c: Chip, ghost from: State) returns (err: Err)
    requires Enables(from, c.s) && from.cr == 0
    modifies c`s, c`faults
    ensures Enables(from, c.s) && Extends(old(c.s), c.s)
    ensures err.Ok? || BusError(err)
    ensures c.faults <= old(c.faults) && (err.Ok? <==> c.faults == old(c.faults))
  {
    err := c.Transact(c.s);
  }

  /** w5500_interrupts_enable_socket0. All flags of socket 0, RECV among them, are cleared on the
      way; `wiped` is the state just after that. */
  method EnableInterrupts(c: Chip, ctx: Context) returns (err: Err, ghost wiped: State)
    requires c.s.cr == 0
    modifies c`s, c`faults, ctx`given, ctx`levels
    ensures err.Ok? || BusError(err)
    ensures c.faults <= old(c.faults) && (err.Ok? <==> c.faults == old(c.faults))
    ensures Enables(old(c.s), c.s)
    ensures err.Ok? ==>
              && Unmasked(c.s)
              && Enables(old(c.s), wiped) && !wiped.snIr.Any() && Enables(wiped, c.s)
              && (c.s.rx.stored > wiped.rx.stored ==> c.s.snIr.recv)
    ensures err.Ok? && c.s.events == old(c.s).events ==> c.s.rx == old(c.s).rx && !c.s.snIr.Any() && !c.s.ir.Any()
    ensures old(ctx.given) <= ctx.given && (ctx.given > old(ctx.given) ==> ctx.Registered())
    ensures err.Ok? && ctx.HasPin() && ctx.Registered() ==>
              && |ctx.levels| == |old(ctx.levels)| + 1
              && ctx.given == old(ctx.given) + (if ctx.levels[|old(ctx.levels)|] == 0 then 1 else 0)
  {
    wiped := c.s;
    err := MaskAndWipe(c);
    if err == Ok {
      wiped := c.s;
      err := Unmask(c);
      if err == Ok {
        ctx.NotifyIfPending();
      }
    }
  }

  method MaskAndWipe(c: Chip) returns (err: Err)
    requires c.s.cr == 0
    modifies c`s, c`faults
    ensures err.Ok? || BusError(err)
    ensures c.faults <= old(c.faults) && (err.Ok? <==> c.faults == old(c.faults))
    ensures Enables(old(c.s), c.s) && c.s.events <= old(c.s).events
    ensures err.Ok? ==> !c.s.snIr.Any() && c.s.imr == 0
    ensures err.Ok? && c.s.events == old(c.s).events ==> c.s.rx == old(c.s).rx && !c.s.ir.Any()
  {
    ghost var from := c.s;
    err := Reach(c, from);
    if err == Ok {
      c.s := c.s.(imr := 0);
      err := Reach(c, from);
      if err == Ok {
        c.s := c.s.(ir := c.s.ir.Clear(IR_ALL));
        err := Reach(c, from);
        if err == Ok {
          c.s := c.s.(snIr := c.s.snIr.Clear(SN_ALL));
        }
      }
    }
  }

  method Unmask(c: Chip) returns (err: Err)
    requires c.s.cr == 0
    modifies c`s, c`faults
    ensures err.Ok? || BusError(err)
    ensures c.faults <= old(c.faults) && (err.Ok? <==> c.faults == old(c.faults))
    ensures Enables(old(c.s), c.s) && c.s.imr == old(c.s).imr && c.s.events <= old(c.s).events
    ensures c.s.events == old(c.s).events ==>
              c.s.rx == old(c.s).rx && c.s.snIr == old(c.s).snIr && c.s.ir == old(c.s).ir
    ensures c.s.rx.stored > old(c.s).rx.stored ==> c.s.snIr.recv
    ensures err.Ok? ==> c.s.snImr == SN_RECV && c.s.simr == SIMR_S0 && c.s.intLevel == 0xFFFF
  {
    ghost var from := c.s;
    err := Reach(c, from);
    if err == Ok {
      c.s := c.s.(snImr := SN_RECV);
      err := Reach(c, from);
      if err == Ok {
        c.s := c.s.(intLevel := 0xFFFF);
        err := Reach(c, from);
        if err == Ok {
          c.s := c.s.(simr := SIMR_S0);
        }
      }
    }
  }
}

/** w5500_regs.c: reads of registers that change while they are read, and the command wait. */
module Regs {
  import opened Words
  import opened Ring
  import opened W5500

  /** The 16-bit registers the chip counts in. */
  datatype Counter = RxRsr | TxFsr

  function Value(s: State, w: Counter): u16 {
    if w.RxRsr? then Rsr(s.rx) else Fsr(s.tx)
  }

  /** Whether the register cannot go down while command `cr` is pending: RECV takes bytes out of
      the receive ring, and OPEN empties it. Either ring being emptied leaves Sn_TX_FSR at its
      largest. */
  predicate Growing(w: Counter, cr: byte) { w.RxRsr? ==> cr != CR_RECV && cr != CR_OPEN }

  lemma ValueGrows(a: State, b: State, w: Counter)
    requires Evolves(a, b) && Growing(w, a.cr)
    ensures Value(a, w) <= Value(b, w) && Growing(w, b.cr)
  {
    if Extends(a, b) {
      RxGrowsLive(a.rx, b.rx);
      TxDrainsFsr(a.tx, b.tx);
    } else {
      var t := Accepted(a);
      assert Value(a, w) <= Value(t, w);
      RxGrowsLive(t.rx, b.rx);
      TxDrainsFsr(t.tx, b.tx);
    }
  }

  /** Two torn reads of a register that does not decrease, high byte before low byte each time:
      if they agree, they show the value the register had when the first low byte was read. */
  lemma TornReadExact(h1: u16, l1: u16, h2: u16, l2: u16)
    requires h1 <= l1 <= h2
    requires Join(Hi(h1), Lo(l1)) == Join(Hi(h2), Lo(l2))
    ensures Join(Hi(h1), Lo(l1)) == l1
  {
    assert Hi(h1) == Hi(h2);
  }

  /** One torn read is not enough: a count going up can be read as zero. */
  lemma SingleReadTears()
    ensures exists h: u16, l: u16 :: 0 < h < l && Join(Hi(h), Lo(l)) == 0
  {
    assert Join(Hi(0xFF), Lo(0x100)) == 0;
  }

  /** The instants of two reads that agree. */
  predicate Agree(w: Counter, from: State, h1: State, l1: State, h2: State, l2: State) {
    && Evolves(from, h1) && Evolves(h1, l1) && Evolves(l1, h2) && Evolves(h2, l2)
    && Join(Hi(Value(h1, w)), Lo(Value(l1, w))) == Join(Hi(Value(h2, w)), Lo(Value(l2, w)))
  }

  /** Whatever the chip does from `from` on, reads that agree show the value at the first low
      byte. */
  ghost predicate ReadsTrue(w: Counter, from: State) {
    forall h1: State, l1: State, h2: State, l2: State :: Agree(w, from, h1, l1, h2, l2) ==>
      Join(Hi(Value(h1, w)), Lo(Value(l1, w))) == Value(l1, w)
  }

  /** Two reads are enough exactly while no command is pending that makes the register go down. */
  lemma ReadsTrueExactly(w: Counter, cr: byte)
    ensures (forall from: State | from.cr == cr :: ReadsTrue(w, from)) <==> Growing(w, cr)
  {
    if Growing(w, cr) {
      forall from: State, h1: State, l1: State, h2: State, l2: State
        | from.cr == cr && Agree(w, from, h1, l1, h2, l2)
        ensures Join(Hi(Value(h1, w)), Lo(Value(l1, w))) == Value(l1, w)
      {
        PairExact(w, from, h1, l1, h2, l2);
      }
    } else if cr == CR_RECV {
      var from := RecvMisleads();
    } else {
      var from := OpenMisleads();
    }
  }

  /** A record whose frame is `n` zeros. */
  function Zeros(n: nat): seq<byte>
    requires n + HEADER < 0x1_0000
  {
    Record(seq(n, _ => 0))
  }

  /** An open socket before the records of `rs`, those of `later` to come after another OPEN. */
  lemma FreshSocket(rs: seq<seq<byte>>, later: seq<seq<byte>>) returns (s: State)
    ensures s.sr == SOCK_MACRAW && s.cr == 0 && s.events == 10
    ensures s.rx == Rx(PowerOn().rx.mem, 0, rs, 0, 0, 0, [later])
  {
    var p := PowerOn();
    PowerOnValid();
    ReopenedValid(p.rx.(sessions := [rs, later]));
    s := p.(sr := SOCK_MACRAW, events := 10, rx := Reopened(p.rx.(sessions := [rs, later])));
  }

  lemma NextArrives(s: State) returns (t: State)
    requires s.events > 0 && s.sr == SOCK_MACRAW && Fits(s.rx)
    ensures Evolves(s, t) && t.events == s.events - 1
    ensures t.cr == s.cr && t.sr == s.sr && Rsr(t.rx) == Rsr(s.rx) + |s.rx.traffic[s.rx.stored]|
    ensures t.rx == s.rx.(mem := t.rx.mem, stored := s.rx.stored + 1, end := t.rx.end)
  {
    t := Happen(s, Arrive);
    HappenEvolves(s, Arrive);
  }

  lemma IsAccepted(s: State) returns (t: State)
    requires s.events > 0 && s.cr != 0
    ensures Evolves(s, t) && t == Accepted(s).(events := s.events - 1)
  {
    t := Happen(s, Accept);
    HappenEvolves(s, Accept);
  }

  lemma Misleads(from: State, l1: State, h2: State, l2: State)
    requires Evolves(from, l1) && Evolves(l1, h2) && Evolves(h2, l2)
    requires Join(Hi(Rsr(from.rx)), Lo(Rsr(l1.rx))) == Join(Hi(Rsr(h2.rx)), Lo(Rsr(l2.rx))) != Rsr(l1.rx)
    ensures !ReadsTrue(RxRsr, from)
  {
    assert Agree(RxRsr, from, from, l1, h2, l2);
  }

  /** Sizes of records that come in one after the other. */
  predicate SizesAre(rs: seq<seq<byte>>, sizes: seq<nat>) {
    |rs| == |sizes| && forall i | 0 <= i < |rs| :: |rs[i]| == sizes[i]
  }

  lemma RecvChain(rs: seq<seq<byte>>) returns (from: State, l1: State, h2: State, l2: State)
    requires SizesAre(rs, [300, 196, 110, 300])
    ensures from.cr == CR_RECV && Evolves(from, l1) && Evolves(l1, h2) && Evolves(h2, l2)
    ensures Rsr(from.rx) == 0x1F0 && Rsr(l1.rx) == 0x25E && Rsr(h2.rx) == 0x132 && Rsr(l2.rx) == 0x25E
  {
    var s0 := FreshSocket(rs, []);
    var s1 := NextArrives(s0);
    var s2 := NextArrives(s1);
    from := s2.(rx := s2.rx.(rdReg := 300), cr := CR_RECV);
    l1 := NextArrives(from);
    h2 := IsAccepted(l1);
    l2 := NextArrives(h2);
  }

  /** 496 bytes in the ring, of which a pending RECV is going to release 300. The count is read as
      0x01.., goes up to 0x025E and is read as ..5E; the RECV is carried out and leaves 0x0132,
      read as 0x01..; then it goes up to 0x025E again. Both reads say 0x015E. */
  lemma RecvMisleads() returns (from: State)
    ensures from.cr == CR_RECV && !ReadsTrue(RxRsr, from)
  {
    assert Join(Hi(0x1F0), Lo(0x25E)) == Join(Hi(0x132), Lo(0x25E)) == 0x15E;
    var rs := [Zeros(298), Zeros(194), Zeros(108), Zeros(298)];
    var l1, h2, l2;
    from, l1, h2, l2 := RecvChain(rs);
    Misleads(from, l1, h2, l2);
  }

  lemma OpenChain(rs: seq<seq<byte>>, later: seq<seq<byte>>)
    returns (from: State, l1: State, h2: State, l2: State)
    requires SizesAre(rs, [255, 195]) && SizesAre(later, [192, 258])
    ensures from.cr == CR_OPEN && Evolves(from, l1) && Evolves(l1, h2) && Evolves(h2, l2)
    ensures Rsr(from.rx) == 0xFF && Rsr(l1.rx) == 0x1C2 && Rsr(h2.rx) == 0xC0 && Rsr(l2.rx) == 0x1C2
  {
    var s0 := FreshSocket(rs, later);
    var s1 := NextArrives(s0);
    from := s1.(cr := CR_OPEN, mr := MR_MACRAW);
    l1 := NextArrives(from);
    var t := IsAccepted(l1);
    h2 := NextArrives(t);
    l2 := NextArrives(h2);
    EvolvesTrans(l1, t, h2);
  }

  /** The same with OPEN: 0x00FF and 0x01C2, then 0x00C0 and 0x01C2 of the new session. */
  lemma OpenMisleads() returns (from: State)
    ensures from.cr == CR_OPEN && !ReadsTrue(RxRsr, from)
  {
    assert Join(Hi(0xFF), Lo(0x1C2)) == Join(Hi(0xC0), Lo(0x1C2)) == 0xC2;
    var rs, later := [Zeros(253), Zeros(193)], [Zeros(190), Zeros(256)];
    var l1, h2, l2;
    from, l1, h2, l2 := OpenChain(rs, later);
    Misleads(from, l1, h2, l2);
  }

  /** w5500_reg_read16 on a counting register: the chip moves on between the two bytes.
      `hi` and `lo` are the instants at which they were taken. */
  method ReadCounter(c: Chip, w: Counter, ghost from: State)
    returns (err: Err, v: u16, ghost hi: State, ghost lo: State)
    requires Evolves(from, c.s)
    modifies c`s, c`faults
    ensures Evolves(from, hi) && Evolves(hi, lo) && lo == c.s && Evolves(old(c.s), hi)
    ensures err.Ok? || BusError(err)
    ensures c.faults <= old(c.faults) && (err.Ok? <==> c.faults == old(c.faults))
    ensures err.Ok? ==> v == Join(Hi(Value(hi, w)), Lo(Value(lo, w)))
  {
    ghost var before := c.s;
    err := c.Poll();
    EvolvesTrans(from, before, c.s);
    hi, lo, v := c.s, c.s, 0;
    if err != Ok {
      return;
    }
    var h := Hi(if w.RxRsr? then Rsr(c.s.rx) else Fsr(c.s.tx));
    c.Env();
    lo := c.s;
    v := Join(h, Lo(if w.RxRsr? then Rsr(c.s.rx) else Fsr(c.s.tx)));
  }

  /** What is still going to happen, a pending command being carried out among it. */
  function Stir(s: State): nat { s.events + if s.cr == 0 then 0 else 1 }

  /** So much has happened that eight pairs of reads can have disagreed. */
  predicate Crowded(a: State, b: State) { b.events + 8 <= a.events }

  lemma StirEvolves(a: State, b: State)
    requires Evolves(a, b)
    ensures Stir(b) <= Stir(a) && (Stir(b) == Stir(a) ==> b == a)
  {
  }

  /** w5500_read_sn_rx_rsr_stable and w5500_read_sn_tx_fsr_stable: at most eight pairs of reads.
      A value that is returned was the register's at the instant `at` within the call, provided
      that no command is pending that can make the register go down. Without a failed transaction
      the loop gives up only if the chip has moved at least eight times. */
  method ReadStable(c: Chip, w: Counter) returns (err: Err, value: u16, ghost at: State)
    modifies c`s, c`faults
    ensures Evolves(old(c.s), at) && Evolves(at, c.s)
    ensures err.Ok? ==> (Growing(w, old(c.s).cr) ==> value == Value(at, w))
    ensures err.Ok? || BusError(err)
    ensures c.faults <= old(c.faults) && (err.Ok? ==> c.faults == old(c.faults))
    ensures !err.Ok? && c.faults == old(c.faults) ==> err.Timeout? && Stir(c.s) + 8 <= Stir(old(c.s))
  {
    value, at := 0, c.s;
    var i := 0;
    while i < 8
      invariant 0 <= i <= 8 && at == old(c.s) && c.faults == old(c.faults)
      invariant Evolves(at, c.s) && Stir(c.s) + i <= Stir(old(c.s))
    {
      ghost var h1, l1, h2, l2;
      ghost var s := c.s;
      var v1, v2;
      err, v1, h1, l1 := ReadCounter(c, w, at);
      EvolvesTrans(at, h1, l1);
      if err != Ok {
        return;
      }
      err, v2, h2, l2 := ReadCounter(c, w, l1);
      EvolvesTrans(l1, h2, l2);
      EvolvesTrans(at, l1, l2);
      if err != Ok {
        return;
      }
      if v1 == v2 {
        if Growing(w, at.cr) {
          PairExact(w, at, h1, l1, h2, l2);
        }
        value, at := v1, l1;
        return;
      }
      StirEvolves(s, h1);
      PairDiffers(w, h1, l1, h2, l2);
      i := i + 1;
    }
    err := Timeout;
  }

  lemma PairExact(w: Counter, from: State, h1: State, l1: State, h2: State, l2: State)
    requires Evolves(from, h1) && Evolves(h1, l1) && Evolves(l1, h2) && Growing(w, from.cr)
    requires Join(Hi(Value(h1, w)), Lo(Value(l1, w))) == Join(Hi(Value(h2, w)), Lo(Value(l2, w)))
    ensures Join(Hi(Value(h1, w)), Lo(Value(l1, w))) == Value(l1, w)
  {
    ValueGrows(from, h1, w);
    ValueGrows(h1, l1, w);
    ValueGrows(l1, h2, w);
    TornReadExact(Value(h1, w), Value(l1, w), Value(h2, w), Value(l2, w));
  }

  /** Reads disagree only if the chip moved between them. */
  lemma PairDiffers(w: Counter, h1: State, l1: State, h2: State, l2: State)
    requires Evolves(h1, l1) && Evolves(l1, h2) && Evolves(h2, l2)
    requires Join(Hi(Value(h1, w)), Lo(Value(l1, w))) != Join(Hi(Value(h2, w)), Lo(Value(l2, w)))
    ensures Stir(l2) < Stir(h1)
  {
    StirEvolves(h1, l1);
    StirEvolves(l1, h2);
    StirEvolves(h2, l2);
  }

  // ---------- waiting for Sn_CR ----------

  /** The subtraction the driver does on TickType_t. */
  function Elapsed(now: Tick, start: Tick): Tick { (now - start) % TICKS }

  /** w5500_wait_for_sn_cr_clear. The loop ends because the clock keeps moving and never jumps
      so far between two readings that the wrapped difference skips the timeout window. It gives up
      on a command that is still pending after that time, and on no other. */
  method WaitForCommand(c: Chip, timeout: nat) returns (err: Err)
    requires 0 < c.maxGap <= TICKS - timeout
    modifies c
    ensures Evolves(old(c.s), c.s) && old(c.now) <= c.now
    ensures err.Ok? ==> c.s.cr == 0
    ensures err.Ok? || BusError(err)
    ensures c.faults <= old(c.faults) && (err.Ok? ==> c.faults == old(c.faults))
    ensures !err.Ok? && c.faults == old(c.faults) ==>
              err.Timeout? && c.s.cr != 0 && !c.prompt && old(c.now) + timeout <= c.now
  {
    var start := c.Ticks();
    ghost var t0 := c.now;
    while true
      invariant Evolves(old(c.s), c.s) && c.faults == old(c.faults)
      invariant t0 <= c.now && (c.now == t0 || c.now - t0 < timeout)
      invariant start == t0 % TICKS
      decreases timeout - (c.now - t0), c.stalls
    {
      ghost var before := c.s;
      err := c.Poll();
      EvolvesTrans(old(c.s), before, c.s);
      if err != Ok || c.s.cr == 0 {
        return;
      }
      var t := c.Ticks();
      ElapsedIsReal(t0, c.now);
      if Elapsed(t, start) >= timeout {
        err := Timeout;
        return;
      }
    }
  }

  /** Below one wrap of the counter the wrapped difference is the real one. */
  lemma ElapsedIsReal(t0: nat, now: nat)
    requires t0 <= now
    ensures Elapsed(now % TICKS, t0 % TICKS) <= now - t0
    ensures now - t0 < TICKS ==> Elapsed(now % TICKS, t0 % TICKS) == now - t0
  {
    assert Elapsed(now % TICKS, t0 % TICKS) == (now - t0) % TICKS;
  }

  /** A clock whose jumps are one tick longer than the wait allows. */
  function Evading(timeout: nat, i: nat): nat
    requires timeout > 0
  {
    i / 2 * TICKS + (if i % 2 == 0 then 0 else timeout - 1)
  }

  /** The bound on the gaps is exact: one tick more and a clock that never stands still can
      keep the loop from ever seeing its timeout. */
  lemma PollsForever(timeout: nat, i: nat)
    requires 1 < timeout <= TICKS / 2
    ensures Evading(timeout, i) < Evading(timeout, i + 1) <= Evading(timeout, i) + (TICKS - timeout) + 1
    ensures Elapsed(Evading(timeout, i) % TICKS, Evading(timeout, 0) % TICKS) < timeout
  {
    if i % 2 == 0 {
      assert (i + 1) / 2 == i / 2;
    } else {
      assert (i + 1) / 2 == i / 2 + 1;
    }
    assert Evading(timeout, i) % TICKS == if i % 2 == 0 then 0 else timeout - 1;
  }
}

/** The W5500 as the driver sees it: socket 0's registers, and the events by which the chip
    changes on its own. The behaviour is the one the WIZnet W5500 datasheet gives in its
    register chapter (section 4). */
module W5500 {
  import opened Words
  import opened Flags
  import opened Ring

  const CR_OPEN: byte := 0x01
  const CR_CLOSE: byte := 0x10
  const CR_SEND: byte := 0x20
  const CR_RECV: byte := 0x40

  const SOCK_CLOSED: byte := 0x00
  const SOCK_MACRAW: byte := 0x42
  const MR_MACRAW: byte := 0x04
  const MR_MMB: byte := 0x20
  const MR_MFEN: byte := 0x80
  /** Sn_MR holds the protocol in its low four bits. */
  function Protocol(mr: byte): byte { mr % 0x10 }

  /** `events` bounds what is still going to happen on the chip without the host asking; what
      happens, and when, is open. */
  datatype Registers = Registers(
    rx: Rx, tx: Tx,
    cr: byte, sr: byte, mr: byte,
    ir: Common, snIr: Sn, snImr: Sn, imr: byte, simr: byte, intLevel: u16,
    rxKb: seq<byte>, txKb: seq<byte>,
    events: nat)

  ghost predicate StateValid(s: Registers) {
    && RxValid(s.rx) && TxValid(s.tx)
    && (s.cr == CR_RECV ==> Ahead(s.rx) <= Rsr(s.rx))
    && !s.snIr.reserved && !s.ir.reserved
    && |s.rxKb| == 8 && |s.txKb| == 8
  }

  /** After a hardware reset. */
  function PowerOn(): Registers {
    var empty := seq(RING, _ => 0);
    Registers(Rx(empty, 0, [], 0, 0, 0, []), Tx(empty, [], 0, 0, 0, 0, []), 0, SOCK_CLOSED, 0,
              IR_NONE, SN_NONE, SN_NONE, 0, 0, 0, [2, 2, 2, 2, 2, 2, 2, 2], [2, 2, 2, 2, 2, 2, 2, 2], 0)
  }

  type State = s: Registers | StateValid(s) ghost witness (PowerOnValid(); PowerOn())

  lemma PowerOnValid()
    ensures StateValid(PowerOn())
  {
    ReopenedValid(PowerOn().rx);
    ReopenedTxValid(PowerOn().tx);
  }

  /** The S0 bit of SIR; socket 0 is the only socket in use. */
  predicate Sir(s: State) { s.snIr.And(s.snImr).Any() }

  // ---------- commands ----------

  function RxAfter(cr: byte, x: Rx): Rx
    requires RxValid(x)
  {
    if cr == CR_RECV then Commit(x) else if cr == CR_OPEN then Reopened(x) else x
  }

  function TxAfter(cr: byte, x: Tx): Tx
    requires TxValid(x)
  {
    if cr == CR_SEND then AcceptSend(x) else if cr == CR_OPEN then ReopenedTx(x) else x
  }

  function SrAfter(cr: byte, mr: byte, sr: byte): byte {
    if cr == CR_OPEN then (if Protocol(mr) == MR_MACRAW then SOCK_MACRAW else SOCK_CLOSED)
    else if cr == CR_CLOSE then SOCK_CLOSED
    else sr
  }

  lemma AcceptedValid(s: State)
    ensures RxValid(RxAfter(s.cr, s.rx)) && TxValid(TxAfter(s.cr, s.tx))
  {
    if s.cr == CR_RECV {
      CommitKeeps(s.rx);
    } else if s.cr == CR_SEND {
      AcceptSendKeeps(s.tx);
    } else if s.cr == CR_OPEN {
      ReopenedValid(s.rx);
      ReopenedTxValid(s.tx);
    }
  }

  /** The chip carries out the command in Sn_CR, which reads 0 again. */
  function Accepted(s: State): State {
    AcceptedValid(s);
    s.(cr := 0, rx := RxAfter(s.cr, s.rx), tx := TxAfter(s.cr, s.tx), sr := SrAfter(s.cr, s.mr, s.sr))
  }

  // ---------- how the chip can have moved between two instants ----------

  /** Without accepting a command. */
  predicate Extends(a: State, b: State) {
    && b == a.(rx := b.rx, tx := b.tx, ir := b.ir, snIr := b.snIr, events := b.events)
    && RxGrows(a.rx, b.rx) && TxDrains(a.tx, b.tx)
    && a.ir.Kept(b.ir) && a.snIr.Kept(b.snIr)
    && b.events <= a.events
    && (b.events == a.events ==> b == a)
    && (a.rx.stored < b.rx.stored ==> b.snIr.recv)
  }

  /** The host having written nothing in between. */
  predicate Evolves(a: State, b: State) {
    Extends(a, b) || (a.cr != 0 && Extends(Accepted(a), b))
  }

  /** Mode, buffer sizes and interrupt masks are as they were, and the socket is in the state it
      was in. */
  predicate SameSetup(a: State, b: State) {
    b == a.(rx := b.rx, tx := b.tx, cr := b.cr, ir := b.ir, snIr := b.snIr, events := b.events)
  }

  lemma AcceptAcross(a: State, b: State)
    requires Extends(a, b)
    ensures Extends(Accepted(a), Accepted(b))
  {
    if a.cr == CR_RECV {
      CommitMonotone(a.rx, b.rx);
    }
  }

  lemma ExtendsTrans(a: State, b: State, c: State)
    requires Extends(a, b) && Extends(b, c)
    ensures Extends(a, c)
  {
  }

  lemma EvolvesTrans(a: State, b: State, c: State)
    requires Evolves(a, b) && Evolves(b, c)
    ensures Evolves(a, c)
  {
    if Extends(a, b) {
      if Extends(b, c) {
        ExtendsTrans(a, b, c);
      } else {
        AcceptAcross(a, b);
        ExtendsTrans(Accepted(a), Accepted(b), c);
      }
    } else {
      ExtendsTrans(Accepted(a), b, c);
    }
  }

  // ---------- events ----------

  datatype Event =
    | Arrive                                 // the next record is complete
    | Depart(timedOut: bool)                 // the oldest accepted segment leaves
    | Raise(sn: Sn, common: Common)          // other interrupt flags
    | Accept                                 // the pending command is taken over
    | Noise                                  // nothing socket 0 sees

  /** `e` happens to the chip. A record comes in only while the socket is open and it fits. */
  function Happen(s: State, e: Event): State
    requires s.events > 0
  {
    var t: State := s.(events := s.events - 1);
    match e
    case Arrive =>
      if s.sr == SOCK_MACRAW && Fits(s.rx)
      then PublishKeeps(s.rx); t.(rx := Publish(s.rx), snIr := s.snIr.Set(SN_RECV))
      else t
    case Depart(timedOut) =>
      if s.tx.left < |s.tx.outbox|
      then
        TransmitKeeps(s.tx);
        t.(tx := Transmit(s.tx), snIr := s.snIr.Set(if timedOut then SN_TIMEOUT else SN_SEND_OK))
      else t
    case Raise(sn, common) =>
      t.(snIr := s.snIr.Set(sn.(reserved := false)), ir := s.ir.Set(common.(reserved := false)))
    case Accept => if s.cr == 0 then t else Accepted(t)
    case Noise => t
  }

  lemma ArriveExtends(s: State)
    requires s.events > 0
    ensures Extends(s, Happen(s, Arrive))
  {
  }

  lemma DepartExtends(s: State, timedOut: bool)
    requires s.events > 0
    ensures Extends(s, Happen(s, Depart(timedOut)))
  {
    if s.tx.left < |s.tx.outbox| {
      TransmitDrains(s.tx);
    }
  }

  lemma RaiseExtends(s: State, sn: Sn, common: Common)
    requires s.events > 0
    ensures Extends(s, Happen(s, Raise(sn, common)))
  {
  }

  lemma HappenExtends(s: State, e: Event)
    requires s.events > 0
    requires e.Accept? ==> s.cr == 0
    ensures Extends(s, Happen(s, e))
  {
    match e
    case Arrive => ArriveExtends(s);
    case Depart(timedOut) => DepartExtends(s, timedOut);
    case Raise(sn, common) => RaiseExtends(s, sn, common);
    case _ =>
  }

  lemma HappenEvolves(s: State, e: Event)
    requires s.events > 0
    ensures Evolves(s, Happen(s, e)) && Happen(s, e).events < s.events
  {
    if !e.Accept? || s.cr == 0 {
      HappenExtends(s, e);
    }
  }

  // ---------- the chip and its clock ----------

  /** FreeRTOS's TickType_t. */
  const TICKS := 0x1_0000_0000
  type Tick = x: int | 0 <= x < TICKS

  /** pdMS_TO_TICKS(100) at the kernel's default of 100 ticks a second. */
  const COMMAND_TICKS := 10

  class Chip {
    var s: State
    /** Real time in ticks, unbounded. */
    var now: nat
    /** How many more clock readings can find that no tick has passed. */
    var stalls: nat
    /** How many more transactions and allocations are going to fail; which ones is open. */
    var faults: nat
    /** Longest time in ticks between two clock readings of a polling loop. */
    const maxGap: nat
    /** Whether a command is always carried out before the next transaction takes effect. */
    const prompt: bool

    constructor (s: State, now: nat, stalls: nat, faults: nat, maxGap: nat, prompt: bool)
      ensures this.s == s && this.now == now && this.stalls == stalls && this.faults == faults
      ensures this.maxGap == maxGap && this.prompt == prompt
    {
      this.s, this.now, this.stalls, this.faults, this.maxGap, this.prompt := s, now, stalls, faults, maxGap, prompt;
    }

    /** What excuses a call that began with `faults` failures to come at time `now`: one of them has
        happened, or a command was waited for in full on a chip that need not be prompt. */
    predicate Excused(faults: nat, now: nat)
      reads this`faults, this`now
    {
      this.faults < faults || (!prompt && now + COMMAND_TICKS <= this.now)
    }

    /** Some event happens. */
    method Event()
      requires s.events > 0
      modifies this`s
      ensures Evolves(old(s), s) && s.events < old(s).events
    {
      var e: Event := *;
      HappenEvolves(s, e);
      s := Happen(s, e);
    }

    /** Time passes; any number of events happen. */
    method Env()
      modifies this`s
      ensures Evolves(old(s), s) && (prompt ==> s.cr == 0)
    {
      while s.events > 0
        invariant Evolves(old(s), s)
        decreases s.events
      {
        if * {
          break;
        }
        ghost var before := s;
        Event();
        EvolvesTrans(old(s), before, s);
      }
      if prompt && s.cr != 0 {
        ghost var before := s;
        s := Accepted(s);
        EvolvesTrans(old(s), before, s);
      }
    }

    /** Whether a transaction, or an allocation, fails. */
    method Attempt() returns (err: Err)
      modifies this`faults
      ensures err.Ok? || BusError(err)
      ensures faults <= old(faults) && (err.Ok? <==> faults == old(faults))
    {
      err := Ok;
      if faults > 0 {
        var e: Err := *;
        if BusError(e) {
          err, faults := e, faults - 1;
        }
      }
    }

    /** One SPI transaction up to the instant at which it takes effect, or its failure, while no
        command is pending. `from` is any earlier state with no host write since. */
    method Transact(ghost from: State) returns (err: Err)
      requires Extends(from, s) && from.cr == 0
      modifies this`s, this`faults
      ensures Extends(from, s) && s.events <= old(s).events
      ensures err.Ok? || BusError(err)
      ensures faults <= old(faults) && (err.Ok? <==> faults == old(faults))
    {
      err := Poll();
      ExtendsTrans(from, old(s), s);
    }

    /** The same while a command may be pending. */
    method Poll() returns (err: Err)
      modifies this`s, this`faults
      ensures Evolves(old(s), s) && (prompt ==> s.cr == 0)
      ensures err.Ok? || BusError(err)
      ensures faults <= old(faults) && (err.Ok? <==> faults == old(faults))
    {
      Env();
      err := Attempt();
    }

    /** xTaskGetTickCount */
    method Ticks() returns (t: Tick)
      requires 0 < maxGap
      modifies this`now, this`stalls
      ensures old(now) <= now <= old(now) + maxGap
      ensures stalls <= old(stalls) && (now == old(now) ==> stalls < old(stalls))
      ensures t == now % TICKS
    {
      var d: nat :| d <= maxGap && (d == 0 ==> stalls > 0);
      if d == 0 {
        stalls := stalls - 1;
      }
      now := now + d;
      t := now % TICKS;
    }
  }
}

/** w5500_phy.c: the PHY's operation mode and the link state. */
module Phy {
  import opened Words
  import opened W5500
  import opened Regs
  import opened Driver
  import opened BringUp

  datatype Link = Down | Up
  datatype Speed = Speed10 | Speed100
  datatype Duplex = Half | Full

  // ---------- PHYCFGR ----------

  const PHY_RST: byte := 0x80
  const PHY_OPMD: byte := 0x40

  /** What the PHY reports in the three low bits of PHYCFGR. */
  datatype Report = Report(link: Link, speed: Speed, duplex: Duplex)

  const PHY_LNK: byte := 0x01
  const PHY_SPD: byte := 0x02
  const PHY_DPX: byte := 0x04

  /** PHYCFGR as it is read: the writable bits, and the report. */
  function Phycfgr(reg: byte, r: Report): byte {
    reg / 8 * 8
    + (if r.link.Up? then PHY_LNK else 0)
    + (if r.speed.Speed100? then PHY_SPD else 0)
    + (if r.duplex.Full? then PHY_DPX else 0)
  }

  predicate Bit(v: byte, mask: nat)
    requires mask > 0
  {
    v / mask % 2 == 1
  }

  /** The modes the driver uses. */
  datatype Mode = PowerDown | AutoNegotiate | Forced(speed: Speed, duplex: Duplex)

  /** Fields of w5500_eth_phy_t, with `reg` the writable bits of PHYCFGR as the chip holds them. */
  datatype State = State(link: Link, speed: Speed, duplex: Duplex, autoneg: bool, power: bool, reg: byte)

  function ModeOf(p: State): Mode {
    if !p.power then PowerDown else if p.autoneg then AutoNegotiate else Forced(p.speed, p.duplex)
  }

  /** The OPMDC field the driver chooses. */
  function Opmdc(p: State): byte {
    if !p.power then 6
    else if p.autoneg then 7
    else if p.speed.Speed10? && p.duplex.Half? then 0
    else if p.speed.Speed10? && p.duplex.Full? then 1
    else if p.speed.Speed100? && p.duplex.Half? then 2
    else 3
  }

  /** The chip's reading of a PHYCFGR value with OPMD set and out of reset. */
  function Decode(reg: byte): (m: set<Mode>) {
    if reg < PHY_RST || reg / PHY_OPMD % 2 == 0 then {}
    else
      var opmdc := reg / 8 % 8;
      if opmdc == 0 then {Forced(Speed10, Half)}
      else if opmdc == 1 then {Forced(Speed10, Full)}
      else if opmdc == 2 then {Forced(Speed100, Half)}
      else if opmdc == 3 then {Forced(Speed100, Full)}
      else if opmdc == 6 then {PowerDown}
      else if opmdc == 7 then {AutoNegotiate}
      else {}
  }

  /** The chip is out of reset and in the mode the driver has stored. */
  predicate Agrees(p: State) { Decode(p.reg) == {ModeOf(p)} }

  /** What w5500_phy_apply_mode leaves when all three writes succeed. */
  function Applied(p: State): State {
    p.(reg := PHY_OPMD + Opmdc(p) * 8 + PHY_RST)
  }

  lemma AppliedAgrees(p: State)
    ensures Agrees(Applied(p))
  {
  }

  // ---------- calls ----------

  datatype Autoneg = GetStatus | Enable | Disable | Restart

  datatype Call =
    | Init
    | Control(cmd: Autoneg)
    | Power(on: bool)
    | SetSpeed(speed: Speed)
    | SetDuplex(duplex: Duplex)
    | Sample(link: Link, speed: Speed, duplex: Duplex)   // get_link reads this from PHYCFGR

  /** The state after a successful call. Speed and duplex reach the chip only in a forced mode. */
  function Done(p: State, call: Call): State {
    match call
    case Init => Applied(p.(power := true, link := Down, speed := Speed10, duplex := Half, autoneg := true))
    case Control(GetStatus) => p
    case Control(Enable) => Applied(p.(autoneg := true))
    case Control(Disable) => Applied(p.(autoneg := false))
    case Control(Restart) => Applied(p)
    case Power(on) => Applied(p.(power := on))
    case SetSpeed(speed) =>
      var q := p.(speed := speed);
      if !q.autoneg && q.power then Applied(q) else q
    case SetDuplex(duplex) =>
      var q := p.(duplex := duplex);
      if !q.autoneg && q.power then Applied(q) else q
    case Sample(link, speed, duplex) => p.(link := link, speed := speed, duplex := duplex)
  }

  /** A call keeps agreement, with one exception: a link sample taken in a forced mode that reads
      another speed or duplex than the stored one overwrites what the chip was told. */
  predicate Keeps(p: State, call: Call) {
    call.Sample? ==> p.autoneg || !p.power || (call.speed == p.speed && call.duplex == p.duplex)
  }

  lemma KeepsIsExact(p: State, call: Call)
    requires Agrees(p)
    ensures Agrees(Done(p, call)) <==> Keeps(p, call)
  {
    if !call.Sample? {
      if call.SetSpeed? || call.SetDuplex? {
        var q := if call.SetSpeed? then p.(speed := call.speed) else p.(duplex := call.duplex);
        AppliedAgrees(q);
      }
    } else {
      assert ModeOf(p) in Decode(p.reg);
    }
  }

  function AllDone(p: State, calls: seq<Call>): State
    decreases |calls|
  {
    if calls == [] then p else AllDone(Done(p, calls[0]), calls[1..])
  }

  predicate AllKeep(p: State, calls: seq<Call>)
    decreases |calls|
  {
    calls == [] || (Keeps(p, calls[0]) && AllKeep(Done(p, calls[0]), calls[1..]))
  }

  /** After init and any such sequence of successful calls, chip and driver agree on the mode. */
  lemma {:induction false} AgreementRun(p: State, calls: seq<Call>)
    requires Agrees(p) && AllKeep(p, calls)
    ensures Agrees(AllDone(p, calls))
    decreases |calls|
  {
    if calls != [] {
      KeepsIsExact(p, calls[0]);
      AgreementRun(Done(p, calls[0]), calls[1..]);
    }
  }

  lemma {:induction false} AllDoneSnoc(p: State, calls: seq<Call>, call: Call)
    ensures AllDone(p, calls + [call]) == Done(AllDone(p, calls), call)
    decreases |calls|
  {
    if calls == [] {
      assert AllDone(Done(p, call), []) == Done(p, call);
    } else {
      assert (calls + [call])[1..] == calls[1..] + [call];
      AllDoneSnoc(Done(p, calls[0]), calls[1..], call);
    }
  }

  /** The exception is reachable: a forced 100 Mbit/s full duplex PHY whose cable is pulled is
      afterwards power-cycled into 10 Mbit/s half duplex. */
  lemma ForcedModeIsForgotten(p: State)
    ensures var calls := [Init] + [Control(Disable)] + [SetSpeed(Speed100)] + [SetDuplex(Full)];
            var pulled := calls + [Sample(Down, Speed10, Half)];
            && Agrees(AllDone(p, calls)) && AllDone(p, pulled).reg == AllDone(p, calls).reg
            && Decode(AllDone(p, pulled).reg) == {Forced(Speed100, Full)}
            && Decode(AllDone(p, pulled + [Power(true)]).reg) == {Forced(Speed10, Half)}
  {
    var c1 := [Init];
    var c2 := c1 + [Control(Disable)];
    var c3 := c2 + [SetSpeed(Speed100)];
    var c4 := c3 + [SetDuplex(Full)];
    var c5 := c4 + [Sample(Down, Speed10, Half)];
    assert [] + c1 == c1;
    AllDoneSnoc(p, [], Init);
    AllDoneSnoc(p, c1, Control(Disable));
    AllDoneSnoc(p, c2, SetSpeed(Speed100));
    AllDoneSnoc(p, c3, SetDuplex(Full));
    AllDoneSnoc(p, c4, Sample(Down, Speed10, Half));
    AllDoneSnoc(p, c5, Power(true));
  }

  /** The bits are where the driver looks for them, whatever the writable bits are. */
  lemma ReportRead(reg: byte, r: Report)
    ensures var v := Phycfgr(reg, r);
            && (Bit(v, PHY_LNK) <==> r.link.Up?)
            && (Bit(v, PHY_SPD) <==> r.speed.Speed100?)
            && (Bit(v, PHY_DPX) <==> r.duplex.Full?)
  {
  }

  /** What the calls of the first bring-up and of the auto-negotiation control ask of the PHY. */
  lemma ModesAskedFor(p: State)
    ensures ModeOf(Done(p, Init)) == AutoNegotiate && Done(p, Init).link.Down?
    ensures Done(p, Init).speed.Speed10? && Done(p, Init).duplex.Half?
    ensures p.power ==> ModeOf(Done(p, Control(Enable))) == AutoNegotiate
    ensures p.power ==> ModeOf(Done(p, Control(Disable))) == Forced(p.speed, p.duplex)
    ensures ModeOf(Done(p, Power(false))) == PowerDown
  {
  }

  // ---------- the driver object ----------

  /** The values w5500_phy_apply_mode writes: prepare, assert the PHY's reset, release it. */
  function Pulse(p: State): seq<byte> {
    var base: byte := PHY_OPMD + Opmdc(p) * 8;
    [base + PHY_RST, base, base + PHY_RST]
  }

  datatype Change = SpeedIs(speed: Speed) | DuplexIs(duplex: Duplex)

  /** What a sample with the link up announces besides the link. */
  function Changes(p: State, speed: Speed, duplex: Duplex): seq<Change> {
    (if p.speed != speed then [SpeedIs(speed)] else []) + (if p.duplex != duplex then [DuplexIs(duplex)] else [])
  }

  /** Link changes the mediator has been told of strictly alternate, beginning with Up. */
  predicate Alternates(notes: seq<Link>) {
    forall i | 0 <= i < |notes| :: notes[i] == if i % 2 == 0 then Up else Down
  }

  class EthPhy {
    var p: State
    const hasMediator: bool
    /** ETH_STATE_LINK notifications, in order, and the ones of speed and duplex. */
    var notes: seq<Link>
    var changes: seq<Change>
    /** Everything written to PHYCFGR. */
    var writes: seq<byte>
    /** How many more accesses to PHYCFGR are going to fail. */
    var faults: nat
    /** How many more notifications the mediator is going to answer with an error. */
    var refusals: nat
    /** What the PHY reports. */
    var report: Report
    /** Whether socket 0 has been opened and its interrupt unmasked since the last Down. */
    ghost var ready: bool

    /** The stored link is the one last announced, announcements alternate, and while the link is
        up the socket is open as OpenMacraw leaves it and RECV is unmasked. */
    ghost predicate LinkSafe(c: Chip)
      reads this, c
    {
      && Alternates(notes)
      && (p.link.Up? <==> |notes| % 2 == 1)
      && (p.link.Up? ==> ready && Opened(c.s) && Unmasked(c.s))
    }

    /** Traffic between two samples does not disturb it. */
    twostate lemma TrafficKeepsLinkSafe(c: Chip)
      requires old(LinkSafe(c)) && unchanged(this) && SameSetup(old(c.s), c.s)
      ensures LinkSafe(c)
    {
      if p.link.Up? {
        SetupStays(old(c.s), c.s);
      }
    }

    constructor (hasMediator: bool, reg: byte, faults: nat, refusals: nat, report: Report)
      ensures this.hasMediator == hasMediator && notes == [] && changes == [] && writes == [] && !ready
      ensures p == State(Down, Speed10, Half, true, true, reg)
      ensures this.faults == faults && this.refusals == refusals && this.report == report
    {
      this.refusals, this.report := refusals, report;
      this.hasMediator, notes, changes, writes, ready, this.faults := hasMediator, [], [], [], false, faults;
      p := State(Down, Speed10, Half, true, true, reg);
    }

    /** An access to PHYCFGR fails or not. */
    method Access() returns (err: Err)
      modifies this`faults
      ensures err.Ok? || BusError(err)
      ensures faults <= old(faults) && (err.Ok? <==> faults == old(faults))
    {
      err := Ok;
      if faults > 0 {
        var e: Err := *;
        if BusError(e) {
          err, faults := e, faults - 1;
        }
      }
    }

    /** w5500_write_phycfgr */
    method WritePhycfgr(v: byte) returns (err: Err)
      modifies this`p, this`writes, this`faults
      ensures err.Ok? || BusError(err)
      ensures faults <= old(faults) && (err.Ok? <==> faults == old(faults))
      ensures p == if err.Ok? then old(p).(reg := v) else old(p)
      ensures writes == old(writes) + if err.Ok? then [v] else []
    {
      err := Access();
      if err == Ok {
        p := p.(reg := v);
        writes := writes + [v];
      }
    }

    /** w5500_phy_apply_mode. It succeeds if no write fails, and then it has pulsed the reset with
        the mode in place. */
    method ApplyMode() returns (err: Err)
      modifies this`p, this`writes, this`faults
      ensures err.Ok? || BusError(err)
      ensures faults <= old(faults) && (err.Ok? <==> faults == old(faults))
      ensures p == old(p).(reg := p.reg)
      ensures err.Ok? ==> p == Applied(old(p)) && writes == old(writes) + Pulse(old(p))
    {
      var base: byte := PHY_OPMD + Opmdc(p) * 8;
      err := WritePhycfgr(base + PHY_RST);
      if err != Ok {
        return;
      }
      err := WritePhycfgr(base);
      if err != Ok {
        return;
      }
      err := WritePhycfgr(base + PHY_RST);
    }

    /** w5500_phy_init */
    method Initialize() returns (err: Err)
      modifies this`p, this`writes, this`faults
      ensures err.Ok? || BusError(err)
      ensures faults <= old(faults) && (err.Ok? <==> faults == old(faults))
      ensures err.Ok? ==> p == Done(old(p), Init)
      ensures p.(reg := 0) == Done(old(p), Init).(reg := 0)
    {
      p := p.(power := true, link := Down, speed := Speed10, duplex := Half, autoneg := true);
      err := ApplyMode();
    }

    /** w5500_phy_autonego_ctrl; `status` is what the caller's flag is set to, if it is set. */
    method AutonegoCtrl(cmd: Autoneg) returns (err: Err, status: bool)
      modifies this`p, this`writes, this`faults
      ensures err.Ok? || BusError(err)
      ensures faults <= old(faults) && (err.Ok? <==> faults == old(faults))
      ensures err.Ok? ==> p == Done(old(p), Control(cmd)) && status == p.autoneg
      ensures p.(reg := 0) == Done(old(p), Control(cmd)).(reg := 0)
    {
      match cmd {
        case GetStatus => return Ok, p.autoneg;
        case Enable => p := p.(autoneg := true);
        case Disable => p := p.(autoneg := false);
        case Restart =>
      }
      err := ApplyMode();
      status := p.autoneg;
    }

    /** w5500_phy_pwrctl */
    method Pwrctl(on: bool) returns (err: Err)
      modifies this`p, this`writes, this`faults
      ensures err.Ok? || BusError(err)
      ensures faults <= old(faults) && (err.Ok? <==> faults == old(faults))
      ensures err.Ok? ==> p == Done(old(p), Power(on))
      ensures p.(reg := 0) == Done(old(p), Power(on)).(reg := 0)
    {
      p := p.(power := on);
      err := ApplyMode();
    }

    /** w5500_phy_set_speed */
    method ChooseSpeed(speed: Speed) returns (err: Err)
      modifies this`p, this`writes, this`faults
      ensures err.Ok? || BusError(err)
      ensures faults <= old(faults) && (err.Ok? <==> faults == old(faults))
      ensures err.Ok? ==> p == Done(old(p), SetSpeed(speed))
      ensures p.(reg := 0) == Done(old(p), SetSpeed(speed)).(reg := 0)
    {
      p := p.(speed := speed);
      if !p.autoneg && p.power {
        err := ApplyMode();
        return;
      }
      return Ok;
    }

    /** w5500_phy_set_duplex */
    method ChooseDuplex(duplex: Duplex) returns (err: Err)
      modifies this`p, this`writes, this`faults
      ensures err.Ok? || BusError(err)
      ensures faults <= old(faults) && (err.Ok? <==> faults == old(faults))
      ensures err.Ok? ==> p == Done(old(p), SetDuplex(duplex))
      ensures p.(reg := 0) == Done(old(p), SetDuplex(duplex)).(reg := 0)
    {
      p := p.(duplex := duplex);
      if !p.autoneg && p.power {
        err := ApplyMode();
        return;
      }
      return Ok;
    }

    /** on_state_changed: the mediator's answer is its own business. */
    method Notify() returns (err: Err)
      modifies this`refusals
      ensures refusals <= old(refusals) && (err.Ok? <==> refusals == old(refusals))
    {
      err := Ok;
      if refusals > 0 {
        err := *;
        if err != Ok {
          refusals := refusals - 1;
        }
      }
    }

    /** w5500_phy_read_status: what the PHY reports, taken out of PHYCFGR bit by bit. */
    method ReadStatus() returns (err: Err, link: Link, speed: Speed, duplex: Duplex)
      modifies this`faults
      ensures err.Ok? || BusError(err)
      ensures faults <= old(faults) && (err.Ok? <==> faults == old(faults))
      ensures err.Ok? ==> Report(link, speed, duplex) == report
    {
      link, speed, duplex := Down, Speed10, Half;
      err := Access();
      if err == Ok {
        var phycfgr := Phycfgr(p.reg, report);
        ReportRead(p.reg, report);
        link := if Bit(phycfgr, PHY_LNK) then Up else Down;
        speed := if Bit(phycfgr, PHY_SPD) then Speed100 else Speed10;
        duplex := if Bit(phycfgr, PHY_DPX) then Full else Half;
      }
    }

    /** get_link with the PHY reporting what it does. */
    function Reported(): Call
      reads this`report
    {
      Sample(report.link, report.speed, report.duplex)
    }

    /** Socket and interrupts. */
    method SetUpSocket(c: Chip, ctx: Context) returns (err: Err)
      requires 0 < c.maxGap <= TICKS - COMMAND_TICKS
      modifies c, ctx`given, ctx`levels
      ensures err.Ok? ==> Opened(c.s) && Unmasked(c.s)
      ensures !err.Ok? ==> c.Excused(old(c.faults), old(c.now))
      ensures ctx.given >= old(ctx.given)
    {
      ghost var since, wiped;
      err, since := OpenMacraw(c);
      if err == Ok {
        err, wiped := EnableInterrupts(c, ctx);
      }
    }

    /** The DOWN -> UP transition. Only when socket and interrupts are set up does the link count
        as up, and by then the interrupt task, if there is one, has been notified. */
    method BringLinkUp(c: Chip, ctx: Context) returns (err: Err)
      requires LinkSafe(c) && p.link.Down?
      requires 0 < c.maxGap <= TICKS - COMMAND_TICKS
      modifies c, ctx`given, ctx`levels, this`p, this`notes, this`ready, this`refusals
      ensures LinkSafe(c)
      ensures p == old(p).(link := p.link)
      ensures notes == old(notes) + (if p.link.Up? then [Up] else [])
      ensures p.link.Up? && ctx.Registered() ==> ctx.given > old(ctx.given)
      ensures err.Ok? ==> p.link.Up?
      ensures p.link.Down? ==> c.Excused(old(c.faults), old(c.now))
      ensures refusals <= old(refusals) && (!err.Ok? && p.link.Up? ==> refusals < old(refusals))
      ensures ctx.given >= old(ctx.given)
    {
      err := SetUpSocket(c, ctx);
      if err == Ok {
        if ctx.Registered() {
          ctx.given := ctx.given + 1;
        }
        ready := true;
        p := p.(link := Up);
        notes := notes + [Up];
        err := Notify();
      }
    }

    /** w5500_phy_get_link. Without a mediator, or without a report from the PHY, nothing happens. A
        call that ends OK has stored the report, whole, and announced exactly its changes; one that
        fails has an excuse: the mediator has answered with an error, or the socket could not be set
        up, and then the link stays down, so that the next sample tries again in full. */
    method GetLink(c: Chip, ctx: Context) returns (err: Err)
      requires LinkSafe(c)
      requires 0 < c.maxGap <= TICKS - COMMAND_TICKS
      modifies c, ctx`given, ctx`levels, this`p, this`notes, this`changes, this`ready, this`faults, this`refusals
      ensures LinkSafe(c)
      ensures !hasMediator ==> err.InvalidState?
      ensures !hasMediator || faults < old(faults) ==>
                !err.Ok? && p == old(p) && notes == old(notes) && changes == old(changes) && c.s == old(c.s)
      ensures hasMediator && faults == old(faults) && !err.Ok? ==>
                refusals < old(refusals) || (report.link.Up? && p.link.Down? && c.Excused(old(c.faults), old(c.now)))
      ensures faults <= old(faults) && refusals <= old(refusals)
      ensures err.Ok? ==> p == Done(old(p), Reported())
      ensures err.Ok? ==>
                changes == old(changes) + if report.link.Up? then Changes(old(p), report.speed, report.duplex) else []
      ensures report.link.Down? || old(p).link.Up? ==> c.s == old(c.s)
      ensures p.link == old(p).link || p.link == report.link
      ensures notes == old(notes) + (if p.link == old(p).link then [] else [p.link])
      ensures old(p).link.Down? && p.link.Up? && ctx.Registered() ==> ctx.given > old(ctx.given)
      ensures p.autoneg == old(p).autoneg && p.power == old(p).power && p.reg == old(p).reg
    {
      if !hasMediator {
        return InvalidState;
      }
      var link, speed, duplex;
      err, link, speed, duplex := ReadStatus();
      if err != Ok {
        return;
      }
      if link == Up {
        err := NoteSpeed(c, speed, duplex);
        if err == Ok && p.link != Up {
          err := BringLinkUp(c, ctx);
        }
      } else {
        if p.link != Down {
          err := TakeLinkDown(c);
          if err != Ok {
            return;
          }
        }
        p := p.(speed := speed, duplex := duplex);
      }
    }

    /** Speed and duplex of a sample with the link up; each is announced if it changes. */
    method NoteSpeed(c: Chip, speed: Speed, duplex: Duplex) returns (err: Err)
      requires LinkSafe(c)
      modifies this`p, this`changes, this`refusals
      ensures LinkSafe(c)
      ensures refusals <= old(refusals) && (err.Ok? <==> refusals == old(refusals))
      ensures p == old(p).(speed := p.speed, duplex := p.duplex)
      ensures err.Ok? ==> p.speed == speed && p.duplex == duplex
      ensures err.Ok? ==> changes == old(changes) + Changes(old(p), speed, duplex)
    {
      err := Ok;
      if p.speed != speed {
        p := p.(speed := speed);
        changes := changes + [SpeedIs(speed)];
        err := Notify();
        if err != Ok {
          return;
        }
      }
      if p.duplex != duplex {
        p := p.(duplex := duplex);
        changes := changes + [DuplexIs(duplex)];
        err := Notify();
      }
    }

    method TakeLinkDown(c: Chip) returns (err: Err)
      requires LinkSafe(c) && p.link.Up?
      modifies this`p, this`notes, this`ready, this`refusals
      ensures LinkSafe(c)
      ensures refusals <= old(refusals) && (err.Ok? <==> refusals == old(refusals))
      ensures p == old(p).(link := Down) && notes == old(notes) + [Down] && !ready
    {
      p := p.(link := Down);
      ready := false;
      notes := notes + [Down];
      err := Notify();
    }
  }
}

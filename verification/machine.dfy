/** The RX task, a sending task, the link poll and the chip as one machine that takes one SPI
    transaction, pin sample or notification at a time, in any order. The tasks' programs are the
    ones of w5500_mac.c, w5500_driver.c and w5500_phy.c, with `started` staying set. */
module Machine {
  import opened Words
  import opened Flags
  import opened Ring
  import opened W5500
  import Mac
  import BringUp

  // ---------- program positions ----------

  /** Inside a stable read: which byte of which pair is next, and what has been read. */
  datatype Stable =
    | Hi1(round: nat) | Lo1(round: nat, h: byte)
    | Hi2(round: nat, v: u16) | Lo2(round: nat, v: u16, h: byte)
    | Got(v: u16) | GaveUp

  /** Inside w5500_socket0_update_tx_completion; `u` is the Sn_IR value it read. */
  datatype Upd = Look | Pend(u: Sn) | AckOk(u: Sn) | AckTimeout(u: Sn) | Through

  datatype RxPc =
    // registration
    | SetHandle | EnableGpio | CheckPin
    // ulTaskNotifyTake; `failed` if the last pass broke off with an error
    | Wait(failed: bool)
    // w5500_driver_service_interrupts; `v` is the Sn_IR value being handled
    | SvcIr | SvcSir(ir: Common) | SvcClearIr(ir: Common, sir: bool) | SvcSn
    | SvcUpd(v: Sn, upd: Upd) | SvcClearSn(v: Sn)
    // w5500_mac_clear_recv_event_if_set
    | ClrRead | ClrWrite
    // w5500_mac_drain_rx, and w5500_mac_receive_one_frame inside it
    | Reading(inner: bool, stable: Stable)
    | RcvSr | RcvRd(remain: u16) | RcvHeader(remain: u16, rd: u16) | RcvBody(rd: u16, n: nat)
    | RcvSetRd(rd: u16, frame: seq<byte>) | RcvCommand(frame: seq<byte>) | RcvWait(frame: seq<byte>)
    // the level check
    | Level

  datatype TxPc =
    | Idle
    | TxUpd(frame: seq<byte>, upd: Upd) | TxSr(frame: seq<byte>)
    | TxReading(frame: seq<byte>, stable: Stable)
    | TxRdWr(frame: seq<byte>) | TxFill(frame: seq<byte>, wr: u16) | TxSetWr(frame: seq<byte>, wr: u16)
    | TxCommand(frame: seq<byte>) | TxWait(frame: seq<byte>)
    | Sent(err: Err)

  datatype LinkPc =
    | Down
    | Close | CloseWait | Flush | Setup | Open | OpenWait | CheckSr
    | Mask | WipeCommon | WipeSn | UnmaskSn | SetLevel | UnmaskAll | PendUp | Give
    | Up

  /** `handle` is interrupt_task_handle being set, `gpio` the pin interrupt being enabled with
      its handler, `notif` the RX task's notification count. `armed` records whether the last
      link-up found a registered task, `offered` the frames given to stack_input, and `sent` the
      frames of the sends that returned ESP_OK. */
  datatype Sys = Sys(
    c: State, pinHigh: bool, handle: bool, gpio: bool, notif: nat,
    rx: RxPc, tx: TxPc, link: LinkPc, armed: bool,
    offered: seq<seq<byte>>, sent: seq<seq<byte>>)

  // ---------- the parts shared by tasks ----------

  /** One byte of a stable read of a register that now holds `value`. */
  function StableStep(p: Stable, value: u16): Stable {
    match p
    case Hi1(i) => Lo1(i, Hi(value))
    case Lo1(i, h) => Hi2(i, Join(h, Lo(value)))
    case Hi2(i, v) => Lo2(i, v, Hi(value))
    case Lo2(i, v, h) => if Join(h, Lo(value)) == v then Got(v) else if i + 1 < 8 then Hi1(i + 1) else GaveUp
    case _ => p
  }

  function Notified(s: Sys): Sys {
    s.(notif := s.notif + if s.handle then 1 else 0)
  }

  /** w5500_driver_notify_interrupt_task_if_pending */
  function NotifiedIfPending(s: Sys): Sys {
    if s.pinHigh then s else Notified(s)
  }

  function ClearSn(s: Sys, m: Sn): Sys {
    s.(c := s.c.(snIr := s.c.snIr.Clear(m)))
  }

  function UpdNext(p: Upd, c: State): Upd {
    match p
    case Look => if c.snIr.recv then Pend(c.snIr) else AckOk(c.snIr)
    case Pend(u) => AckOk(u)
    case AckOk(u) => AckTimeout(u)
    case _ => Through
  }

  /** What a sending task leaves alone: it never clears RECV, and touches nothing of the receive
      side. */
  predicate OnlySends(s: Sys, t: Sys) {
    && t == s.(c := t.c, notif := t.notif, tx := t.tx, sent := t.sent) && t.notif >= s.notif
    && t.c == s.c.(tx := t.c.tx, cr := t.c.cr, snIr := t.c.snIr)
    && t.c.snIr.recv == s.c.snIr.recv
  }

  function UpdEffect(p: Upd, s: Sys): (t: Sys)
    ensures OnlySends(s, t) && t.tx == s.tx && t.sent == s.sent && t.c.tx == s.c.tx && t.c.cr == s.c.cr
  {
    match p
    case Pend(u) => NotifiedIfPending(s)
    case AckOk(u) => if u.sendOk then ClearSn(s, SN_SEND_OK) else s
    case AckTimeout(u) => if u.timeout then ClearSn(s, SN_TIMEOUT) else s
    case _ => s
  }

  /** The write of Sn_CR, and of Sn_RX_RD. What RECV does with Sn_RX_RD ahead of the chip's write
      pointer is not specified; here such a command is dropped. */
  function WriteCommand(c: State, cr: byte): State {
    if cr == CR_RECV && Ahead(c.rx) > Rsr(c.rx) then c.(cr := 0) else c.(cr := cr)
  }

  function WriteRd(c: State, rd: u16): State {
    var x := c.rx.(rdReg := rd);
    c.(rx := x, cr := if c.cr == CR_RECV && Ahead(x) > Rsr(x) then 0 else c.cr)
  }

  // ---------- the RX task ----------

  function AfterRead(inner: bool, p: Stable): RxPc {
    match p
    case Got(v) =>
      if v == 0 then Level
      else if !inner then RcvSr
      else if v < HEADER then Wait(true)
      else RcvRd(v)
    case GaveUp => Wait(true)
    case _ => Reading(inner, p)
  }

  function AfterHeader(c: State, remain: u16, rd: u16): RxPc {
    var h := ReadRing(c.rx.mem, rd, HEADER);
    var p := Mac.ParseHeader(Join(h[0], h[1]), remain, RX_BUF_SIZE);
    if p.err.Ok? then RcvBody(rd, p.length) else Wait(true)
  }

  predicate Serving(p: RxPc) { p.SvcIr? || p.SvcSir? || p.SvcClearIr? || Handling(p) }
  predicate Handling(p: RxPc) { p.SvcSn? || p.SvcUpd? || p.SvcClearSn? }

  /** What the interrupt service leaves alone: it never clears RECV. */
  predicate OnlyServes(s: Sys, t: Sys) {
    && t == s.(c := s.c.(ir := t.c.ir, snIr := t.c.snIr), notif := t.notif, rx := t.rx)
    && t.notif >= s.notif && t.c.snIr.recv == s.c.snIr.recv
    && (Serving(t.rx) || t.rx.ClrRead?)
  }

  /** The RX task inside w5500_handle_socket0_ir. */
  function HandleStep(s: Sys): (t: Sys)
    requires Handling(s.rx)
    ensures OnlyServes(s, t)
  {
    match s.rx
    case SvcSn =>
      var v := s.c.snIr;
      s.(rx := if !v.Any() then ClrRead else if v.sendOk || v.timeout then SvcUpd(v, Look) else SvcClearSn(v))
    case SvcUpd(v, p) =>
      var next := UpdNext(p, s.c);
      UpdEffect(p, s).(rx := if next.Through? then SvcClearSn(v) else SvcUpd(v, next))
    case SvcClearSn(v) =>
      ClearSn(s, SN_NONE.(con := v.con, discon := v.discon)).(rx := if v.recv then ClrRead else SvcIr)
  }

  /** The RX task inside the interrupt service. */
  function ServiceStep(s: Sys): (t: Sys)
    requires Serving(s.rx)
    ensures OnlyServes(s, t)
  {
    if Handling(s.rx) then HandleStep(s)
    else match s.rx
         case SvcIr => s.(rx := SvcSir(s.c.ir))
         case SvcSir(ir) =>
           s.(rx := if ir.Any() then SvcClearIr(ir, Sir(s.c)) else if Sir(s.c) then SvcSn else ClrRead)
         case SvcClearIr(ir, sir) =>
           s.(c := s.c.(ir := s.c.ir.Clear(ir.Defined())), rx := if sir then SvcSn else SvcIr)
  }

  /** The RX task clearing RECV. */
  function ClearStep(s: Sys): (t: Sys)
    requires s.rx.ClrRead? || s.rx.ClrWrite?
    ensures t == s.(c := s.c.(snIr := t.c.snIr), rx := t.rx)
    ensures t.c.snIr.recv == (s.c.snIr.recv && s.rx.ClrRead?)
    ensures t.rx.ClrWrite? || t.rx == Reading(false, Hi1(0))
  {
    if s.rx.ClrWrite? then ClearSn(s, SN_RECV).(rx := Reading(false, Hi1(0)))
    else s.(rx := if s.c.snIr.recv then ClrWrite else Reading(false, Hi1(0)))
  }

  predicate Draining(p: RxPc) { Looking(p) || p.RcvSetRd? || p.RcvCommand? || p.RcvWait? }
  predicate Looking(p: RxPc) { p.Reading? || p.RcvSr? || p.RcvRd? || p.RcvHeader? || p.RcvBody? }

  /** A step of the drain that reads from the chip. */
  function LookStep(p: RxPc, c: State): (q: RxPc)
    requires Looking(p)
    ensures Draining(q) || q.Level? || q == Wait(true)
    ensures !p.Reading? ==> !q.Level? && (q.Reading? ==> q.stable == Hi1(0))
  {
    match p
    case Reading(inner, stable) => AfterRead(inner, StableStep(stable, Rsr(c.rx)))
    case RcvSr => if c.sr == SOCK_MACRAW then Reading(true, Hi1(0)) else Wait(true)
    case RcvRd(remain) => RcvHeader(remain, c.rx.rdReg)
    case RcvHeader(remain, rd) => AfterHeader(c, remain, rd)
    case RcvBody(rd, n) => RcvSetRd(rd, ReadRing(c.rx.mem, Add16(rd, HEADER), n))
  }

  /** The RX task inside the drain. */
  function DrainStep(s: Sys): (t: Sys)
    requires Draining(s.rx)
    ensures t == s.(c := t.c, rx := t.rx, offered := t.offered)
    ensures t.c == s.c.(rx := t.c.rx, cr := t.c.cr)
    ensures t.c.cr == s.c.cr || t.c.cr == 0 || t.c.cr == CR_RECV
    ensures !s.rx.Reading? ==> !t.rx.Level? && t.rx != Wait(false) && (t.rx.Reading? ==> t.rx.stable == Hi1(0))
  {
    if Looking(s.rx) then s.(rx := LookStep(s.rx, s.c))
    else match s.rx
         case RcvSetRd(rd, frame) => s.(c := WriteRd(s.c, Add16(rd, HEADER + |frame|)), rx := RcvCommand(frame))
         case RcvCommand(frame) => s.(c := WriteCommand(s.c, CR_RECV), rx := RcvWait(frame))
         case RcvWait(frame) =>
           if s.c.cr != 0 then s else s.(offered := s.offered + [frame], rx := Reading(false, Hi1(0)))
  }

  /** The RX task registering, waiting, or checking the level. */
  function OuterStep(s: Sys): (t: Sys)
    requires s.rx.SetHandle? || s.rx.EnableGpio? || s.rx.CheckPin? || s.rx.Wait? || s.rx.Level?
    ensures t == s.(handle := t.handle, gpio := t.gpio, notif := t.notif, rx := t.rx)
    ensures t.rx.EnableGpio? || t.rx.CheckPin? || t.rx.Wait? || t.rx.SvcIr?
  {
    match s.rx
    case SetHandle => s.(handle := true, rx := EnableGpio)
    case EnableGpio => s.(gpio := true, rx := CheckPin)
    case CheckPin => NotifiedIfPending(s).(rx := Wait(false))
    case Wait(_) => if s.notif == 0 then s else s.(notif := 0, rx := SvcIr)
    case Level => s.(rx := if s.pinHigh then Wait(false) else SvcIr)
  }

  function RxStep(s: Sys): Sys {
    if Serving(s.rx) then ServiceStep(s)
    else if s.rx.ClrRead? || s.rx.ClrWrite? then ClearStep(s)
    else if Draining(s.rx) then DrainStep(s)
    else OuterStep(s)
  }

  /** The next transaction of the RX task fails, a command wait gives up, or malloc does. An
      ESP_ERR_TIMEOUT out of the interrupt service is taken for success. */
  function RxFail(s: Sys, timeout: bool): (t: Sys)
    ensures t == s.(rx := t.rx)
    ensures t.rx == s.rx || t.rx == Wait(true) || t.rx == ClrRead || t.rx.SvcClearSn?
    ensures s.rx.SetHandle? || s.rx.EnableGpio? ==> t == s
  {
    match s.rx
    case SetHandle => s
    case EnableGpio => s
    case CheckPin => s
    case Wait(_) => s
    case Level => s
    case SvcUpd(v, _) => s.(rx := if timeout then SvcClearSn(v) else Wait(true))
    case _ => s.(rx := if timeout && Serving(s.rx) then ClrRead else Wait(true))
  }

  // ---------- a sending task ----------

  function AfterTxRead(frame: seq<byte>, p: Stable): TxPc {
    match p
    case Got(v) => if v < |frame| then Sent(NoMem) else TxRdWr(frame)
    case GaveUp => Sent(Timeout)
    case _ => TxReading(frame, p)
  }

  /** Whether `data` goes into free space right at Sn_TX_WR. */
  predicate Roomy(x: Tx, wr: u16, n: nat)
    requires TxValid(x)
  {
    wr == TxWr(x) && n <= Fsr(x)
  }

  /** Writes that overrun the free space are not modelled; BothSidesExact shows that, while the
      socket stays open, there are none. */
  function FillTx(c: State, wr: u16, data: seq<byte>): (d: State)
    ensures d == c.(tx := d.tx)
  {
    if Roomy(c.tx, wr, |data|) then FillKeeps(c.tx, data); c.(tx := Fill(c.tx, data)) else c
  }

  function MoveTxWr(c: State, wr: u16, n: nat): (d: State)
    ensures d == c.(tx := d.tx)
  {
    if Roomy(c.tx, wr, n) then SetTxWrKeeps(c.tx, n); c.(tx := SetTxWr(c.tx, Add16(wr, n))) else c
  }

  function TxStep(s: Sys): (t: Sys)
    ensures OnlySends(s, t) && (t.c.cr == s.c.cr || t.c.cr == CR_SEND)
  {
    match s.tx
    case Idle => s
    case TxUpd(frame, p) =>
      var next := UpdNext(p, s.c);
      UpdEffect(p, s).(tx := if next.Through? then TxSr(frame) else TxUpd(frame, next))
    case TxSr(frame) =>
      s.(tx := if s.c.sr == SOCK_MACRAW then TxReading(frame, Hi1(0)) else Sent(InvalidState))
    case TxReading(frame, p) => s.(tx := AfterTxRead(frame, StableStep(p, Fsr(s.c.tx))))
    case TxRdWr(frame) => s.(tx := TxFill(frame, TxWr(s.c.tx)))
    case TxFill(frame, wr) => s.(c := FillTx(s.c, wr, frame), tx := TxSetWr(frame, wr))
    case TxSetWr(frame, wr) => s.(c := MoveTxWr(s.c, wr, |frame|), tx := TxCommand(frame))
    case TxCommand(frame) => s.(c := WriteCommand(s.c, CR_SEND), tx := TxWait(frame))
    case TxWait(frame) => if s.c.cr != 0 then s else s.(tx := Sent(Ok), sent := s.sent + [frame])
    case Sent(_) => s
  }

  function TxFail(s: Sys, timeout: bool): (t: Sys)
    ensures t == s.(tx := t.tx)
  {
    match s.tx
    case Idle => s
    case Sent(_) => s
    case TxUpd(frame, _) => s.(tx := if timeout then TxSr(frame) else Sent(Fail))
    case _ => s.(tx := Sent(if timeout then Timeout else Fail))
  }

  // ---------- the link poll ----------

  predicate Opening(p: LinkPc) {
    p.Down? || p.Close? || p.CloseWait? || p.Flush? || p.Setup? || p.Open? || p.OpenWait? || p.CheckSr?
  }

  /** w5500_socket0_open_macraw. The writes of sizes and mode are one step. */
  function OpenStep(s: Sys): (t: Sys)
    requires Opening(s.link)
    ensures t == s.(c := t.c, link := t.link) && t.c.rx == s.c.rx && t.c.tx == s.c.tx
    ensures !s.link.Open? ==> t.c.cr == s.c.cr || t.c.cr == CR_CLOSE
    ensures Opening(t.link) || t.link.Mask?
    ensures t.c.snIr.recv == (s.c.snIr.recv && !s.link.Flush?)
  {
    match s.link
    case Down => s.(link := Close)
    case Close => s.(c := WriteCommand(s.c, CR_CLOSE), link := CloseWait)
    case CloseWait => if s.c.cr != 0 then s else s.(link := Flush)
    case Flush => ClearSn(s, SN_ALL).(link := Setup)
    case Setup =>
      var sizes := [16, 0, 0, 0, 0, 0, 0, 0];
      s.(c := s.c.(rxKb := sizes, txKb := sizes, mr := BringUp.MODE), link := Open)
    case Open => s.(c := WriteCommand(s.c, CR_OPEN), link := OpenWait)
    case OpenWait => if s.c.cr != 0 then s else s.(link := CheckSr)
    case CheckSr => s.(link := if s.c.sr == SOCK_MACRAW then Mask else Down)
  }

  /** From where on the interrupt of socket 0 is unmasked. */
  predicate Unmasking(p: LinkPc, c: State) {
    && (p.SetLevel? || p.UnmaskAll? || p.PendUp? || p.Give? || p.Up? ==> c.snImr == SN_RECV)
    && (p.PendUp? || p.Give? || p.Up? ==> c.simr == BringUp.SIMR_S0)
  }

  predicate Enabling(p: LinkPc) {
    p.Mask? || p.WipeCommon? || p.WipeSn? || p.UnmaskSn? || p.SetLevel? || p.UnmaskAll? || p.PendUp?
  }

  /** The order of the steps of w5500_interrupts_enable_socket0. */
  function EnableNext(p: LinkPc): LinkPc
    requires Enabling(p)
  {
    match p
    case Mask => WipeCommon
    case WipeCommon => WipeSn
    case WipeSn => UnmaskSn
    case UnmaskSn => SetLevel
    case SetLevel => UnmaskAll
    case UnmaskAll => PendUp
    case PendUp => Give
  }

  /** w5500_interrupts_enable_socket0 */
  function EnableStep(s: Sys): (t: Sys)
    requires Enabling(s.link)
    ensures t == s.(c := t.c, notif := t.notif, link := EnableNext(s.link))
    ensures t.c.rx == s.c.rx && t.c.tx == s.c.tx && t.c.cr == s.c.cr && t.c.sr == s.c.sr
    ensures t.notif >= s.notif && (Enabling(t.link) || t.link.Give?)
    ensures Unmasking(s.link, s.c) ==> Unmasking(t.link, t.c)
    ensures t.c.snIr.recv == (s.c.snIr.recv && !s.link.WipeSn?)
  {
    var next := EnableNext(s.link);
    match s.link
    case Mask => s.(c := s.c.(imr := 0), link := next)
    case WipeCommon => s.(c := s.c.(ir := s.c.ir.Clear(IR_ALL)), link := next)
    case WipeSn => ClearSn(s, SN_ALL).(link := next)
    case UnmaskSn => s.(c := s.c.(snImr := SN_RECV), link := next)
    case SetLevel => s.(c := s.c.(intLevel := 0xFFFF), link := next)
    case UnmaskAll => s.(c := s.c.(simr := BringUp.SIMR_S0), link := next)
    case PendUp => NotifiedIfPending(s).(link := next)
  }

  /** A link-up ends with an unconditional notification. */
  function LinkStep(s: Sys): Sys {
    if Opening(s.link) then OpenStep(s)
    else if Enabling(s.link) then EnableStep(s)
    else if s.link.Give? then Notified(s).(armed := s.handle, link := Up)
    else s
  }

  // ---------- the machine ----------

  datatype Action =
    | RxTask | RxFault(timeout: bool)
    | Sender | SenderFault(timeout: bool) | Begin(frame: seq<byte>)
    | LinkPoll | LinkFault | LinkDrop
    | Chip(e: Event)
    | PinFall | PinRise

  /** INTn is asserted for socket 0 when SIR shows it and SIMR lets it through. */
  predicate Asserted(c: State) { Sir(c) && c.simr == BringUp.SIMR_S0 }

  /** INTn follows its source at any later time, or not if the source changes back before. Its
      falling edge runs the interrupt handler. */
  function Fall(s: Sys): (t: Sys)
    ensures t == s.(pinHigh := t.pinHigh, notif := t.notif)
  {
    if !Asserted(s.c) || !s.pinHigh then s
    else if s.gpio then Notified(s).(pinHigh := false)
    else s.(pinHigh := false)
  }

  function Rise(s: Sys): Sys {
    if Asserted(s.c) then s else s.(pinHigh := true)
  }

  /** A send is called, the link poll gives up, or the link goes down. */
  function CallStep(s: Sys, a: Action): (t: Sys)
    requires a.Begin? || a.LinkFault? || a.LinkDrop?
    ensures t == s.(link := t.link, tx := t.tx)
  {
    match a
    case Begin(frame) =>
      if s.tx.Idle? || s.tx.Sent?
      then s.(tx := if frame == [] then Sent(InvalidArg) else TxUpd(frame, Look))
      else s
    case LinkFault => if s.link.Up? then s else s.(link := Down)
    case LinkDrop => if s.link.Up? then s.(link := Down) else s
  }

  function Step(s: Sys, a: Action): Sys {
    match a
    case RxTask => RxStep(s)
    case RxFault(timeout) => RxFail(s, timeout)
    case Sender => TxStep(s)
    case SenderFault(timeout) => TxFail(s, timeout)
    case LinkPoll => LinkStep(s)
    case Chip(e) => s.(c := Happen(s.c.(events := 1), e))
    case PinFall => Fall(s)
    case PinRise => Rise(s)
    case _ => CallStep(s, a)
  }

  function Run(s: Sys, actions: seq<Action>): Sys
    decreases |actions|
  {
    if actions == [] then s else Run(Step(s, actions[0]), actions[1..])
  }
}

/** The wake-up protocol: the level of INTn is turned into edge notifications without losing a
    frame. Proved over every sequence of actions of the machine. */
module Wakeup {
  import opened Words
  import opened Ring
  import opened W5500
  import opened Machine

  /** RECV will bring the RX task back, or a notification already will. */
  predicate Covered(s: Sys) { s.c.snIr.recv || s.notif > 0 }

  /** Nothing is left in the ring that would have to bring the RX task back. */
  predicate Clear(s: Sys) { Rsr(s.c.rx) == 0 || Covered(s) }

  /** The RX task has registered and waits without having failed, or is about to. */
  predicate Registered(s: Sys) {
    if s.rx.SetHandle? then !s.handle && !s.armed else s.handle && (s.rx.EnableGpio? || s.gpio)
  }

  /** A task that is waiting after a pass without error has seen the pin high. */
  predicate EdgeToCome(s: Sys) {
    s.rx == Wait(false) && s.notif == 0 ==> s.pinHigh
  }

  /** What has been read so far of a count that may turn out to be zero. From the first low byte on,
      a zero means the ring was empty, unless something will bring the RX task back. */
  predicate ZeroOk(p: Stable, now: u16, covered: bool) {
    covered || match p
               case Lo1(_, h) => h == 0 ==> now < 0x100
               case Hi2(_, v) => v == 0 ==> now == 0
               case Lo2(_, v, _) => v == 0 ==> now == 0
               case Got(v) => v == 0 ==> now == 0
               case _ => true
  }

  /** RECV was cleared before the count was read. */
  predicate ZeroIsTrue(s: Sys) {
    match s.rx
    case Reading(_, p) => ZeroOk(p, Rsr(s.c.rx), Covered(s))
    case Level => Clear(s)
    case Wait(failed) => failed || Clear(s)
    case EnableGpio => Clear(s)
    case CheckPin => Clear(s)
    case _ => true
  }

  predicate Inv(s: Sys) {
    && Registered(s) && Unmasking(s.link, s.c) && EdgeToCome(s)
    && (s.link.Up? && s.armed ==> ZeroIsTrue(s))
  }

  predicate Initial(s: Sys) {
    s.rx.SetHandle? && s.link.Down? && !s.handle && !s.armed
  }

  // ---------- one step keeps it ----------

  lemma ServiceKeeps(s: Sys)
    requires Inv(s) && Serving(s.rx)
    ensures Inv(RxStep(s))
  {
  }

  lemma ClearKeeps(s: Sys)
    requires Inv(s) && (s.rx.ClrRead? || s.rx.ClrWrite?)
    ensures Inv(RxStep(s))
  {
  }

  lemma ZeroRead(h: byte, value: u16)
    ensures Join(h, Lo(value)) == 0 ==> h == 0 && (value < 0x100 ==> value == 0)
  {
  }

  lemma ZeroHigh(value: u16)
    ensures Hi(value) == 0 ==> value < 0x100
  {
  }

  lemma ZeroAdvances(p: Stable, now: u16, covered: bool)
    requires ZeroOk(p, now, covered)
    ensures ZeroOk(StableStep(p, now), now, covered)
  {
    match p
    case Hi1(_) => ZeroHigh(now);
    case Lo1(_, h) => ZeroRead(h, now);
    case _ =>
  }

  /** A byte of the count read by the drain. */
  lemma ByteKeeps(inner: bool, p: Stable, s: Sys)
    requires Inv(s) && s.rx == Reading(inner, p)
    ensures Inv(s.(rx := Reading(inner, StableStep(p, Rsr(s.c.rx)))))
  {
    if s.link.Up? && s.armed {
      ZeroAdvances(p, Rsr(s.c.rx), Covered(s));
    }
  }

  lemma EndKeeps(s: Sys)
    requires Inv(s) && s.rx.Reading?
    ensures Inv(s.(rx := AfterRead(s.rx.inner, s.rx.stable)))
  {
  }

  lemma ReadKeeps(s: Sys)
    requires Inv(s) && s.rx.Reading?
    ensures Inv(DrainStep(s))
  {
    var t := s.(rx := Reading(s.rx.inner, StableStep(s.rx.stable, Rsr(s.c.rx))));
    ByteKeeps(s.rx.inner, s.rx.stable, s);
    EndKeeps(t);
    assert DrainStep(s) == t.(rx := AfterRead(t.rx.inner, t.rx.stable));
  }

  lemma DrainKeeps(s: Sys)
    requires Inv(s) && Draining(s.rx)
    ensures Inv(DrainStep(s))
  {
    if s.rx.Reading? {
      ReadKeeps(s);
    }
  }

  lemma RxKeeps(s: Sys)
    requires Inv(s)
    ensures Inv(RxStep(s))
  {
    if Serving(s.rx) {
      ServiceKeeps(s);
    } else if Draining(s.rx) {
      DrainKeeps(s);
    } else if s.rx.ClrRead? || s.rx.ClrWrite? {
      ClearKeeps(s);
    }
  }

  lemma TxKeeps(s: Sys, t: Sys)
    requires Inv(s) && OnlySends(s, t)
    ensures Inv(t)
  {
  }

  lemma LinkingKeeps(s: Sys, t: Sys)
    requires Inv(s) && t == s.(c := t.c, notif := t.notif, link := t.link) && t.notif >= s.notif
    requires !t.link.Up? && Unmasking(t.link, t.c)
    ensures Inv(t)
  {
  }

  lemma GiveKeeps(s: Sys)
    requires Inv(s) && s.link.Give?
    ensures Inv(Notified(s).(armed := s.handle, link := Up))
  {
  }

  lemma LinkKeeps(s: Sys)
    requires Inv(s)
    ensures Inv(LinkStep(s))
  {
    if Opening(s.link) {
      LinkingKeeps(s, OpenStep(s));
    } else if Enabling(s.link) {
      LinkingKeeps(s, EnableStep(s));
    } else if s.link.Give? {
      GiveKeeps(s);
    }
  }

  /** With RECV clear, the chip by itself only makes the count go down. */
  predicate Covers(c: State, d: State) {
    d.snImr == c.snImr && d.simr == c.simr && (d.snIr.recv || (!c.snIr.recv && Rsr(d.rx) <= Rsr(c.rx)))
  }

  lemma ChipCovers(c: State, e: Event)
    requires c.events > 0
    ensures Covers(c, Happen(c, e))
  {
  }

  lemma CoversKeeps(s: Sys, d: State)
    requires Inv(s) && Covers(s.c, d)
    ensures Inv(s.(c := d))
  {
  }

  lemma ChipKeeps(s: Sys, e: Event)
    requires Inv(s)
    ensures Inv(Step(s, Chip(e)))
  {
    ChipCovers(s.c.(events := 1), e);
    CoversKeeps(s, Happen(s.c.(events := 1), e));
  }

  lemma PinKeeps(s: Sys)
    requires Inv(s)
    ensures Inv(Fall(s)) && Inv(Rise(s))
  {
  }

  lemma FaultKeeps(s: Sys, timeout: bool)
    requires Inv(s)
    ensures Inv(RxFail(s, timeout)) && Inv(TxFail(s, timeout))
  {
  }

  lemma StepKeeps(s: Sys, a: Action)
    requires Inv(s)
    ensures Inv(Step(s, a))
  {
    match a
    case RxTask => RxKeeps(s);
    case RxFault(timeout) => FaultKeeps(s, timeout);
    case Sender => TxKeeps(s, TxStep(s));
    case SenderFault(timeout) => FaultKeeps(s, timeout);
    case Begin(_) => TxKeeps(s, CallStep(s, a));
    case LinkPoll => LinkKeeps(s);
    case LinkFault =>
    case LinkDrop =>
    case Chip(e) => ChipKeeps(s, e);
    case PinFall => PinKeeps(s);
    case PinRise => PinKeeps(s);
  }

  lemma {:induction false} RunKeeps(s: Sys, actions: seq<Action>)
    requires Inv(s)
    ensures Inv(Run(s, actions))
    decreases |actions|
  {
    if actions != [] {
      StepKeeps(s, actions[0]);
      RunKeeps(Step(s, actions[0]), actions[1..]);
    }
  }

  // ---------- no lost wake-up ----------

  /** The RX task is blocked, and nothing has been given to it. */
  predicate Asleep(s: Sys) { s.rx.Wait? && s.notif == 0 }

  /** INTn is still high with its source set: the falling edge that wakes the RX task is to come. */
  predicate EdgeDue(s: Sys) {
    && s.c.snIr.recv && Asserted(s.c) && s.pinHigh
    && Fall(s).notif == 1 && RxStep(Fall(s)).rx == SvcIr
  }

  /** A sleeping task has an edge due exactly if RECV is set and the pin has not fallen yet. */
  lemma EdgeExact(s: Sys)
    requires Inv(s) && s.link.Up? && Asleep(s)
    ensures EdgeDue(s) <==> s.c.snIr.recv && s.pinHigh
  {
  }

  /** In every interleaving of frame arrivals, pin changes, interrupt handler, RX task, sending
      task and link poll: if the link is up and the RX task sleeps, an edge is due exactly if RECV
      is set and the pin is high; and if the link-up found the RX task registered and its last pass
      met no error, that is the case whenever there are frames in the ring. */
  lemma NoLostWakeup(s: Sys, actions: seq<Action>)
    requires Initial(s)
    ensures var t := Run(s, actions);
            t.link.Up? && Asleep(t) ==>
              && (EdgeDue(t) <==> t.c.snIr.recv && t.pinHigh)
              && (t.armed && !t.rx.failed && Rsr(t.c.rx) > 0 ==> EdgeDue(t))
  {
    var t := Run(s, actions);
    RunKeeps(s, actions);
    if t.link.Up? && Asleep(t) {
      EdgeExact(t);
    }
  }

  /** RECV is cleared only by the RX task, in its last step before a drain, and by a link-up. */
  lemma RecvIsConserved(s: Sys, a: Action)
    requires s.c.snIr.recv && !Step(s, a).c.snIr.recv
    ensures a.RxTask? || a.LinkPoll?
    ensures a.RxTask? ==> s.rx.ClrWrite? && Step(s, a).rx == Reading(false, Hi1(0))
    ensures a.LinkPoll? ==> s.link.Flush? || s.link.WipeSn?
  {
    match a
    case RxTask => RecvInRx(s);
    case Chip(e) => HappenExtends(s.c.(events := 1), e);
    case _ =>
  }

  lemma RecvInRx(s: Sys)
    ensures s.c.snIr.recv && !RxStep(s).c.snIr.recv ==> s.rx.ClrWrite?
  {
  }

  // ---------- what wakes a sleeping task ----------

  /** The steps that give the RX task a notification: the falling edge, a send that finds RECV set
      and the pin low, and a link-up. */
  predicate Notifies(s: Sys, a: Action) {
    || (a.PinFall? && Asserted(s.c) && s.pinHigh)
    || (a.Sender? && s.tx.TxUpd? && s.tx.upd.Pend? && !s.pinHigh)
    || (a.LinkPoll? && (s.link.Give? || (s.link.PendUp? && !s.pinHigh)))
  }

  /** A sleeping task is woken by these and by nothing else. */
  lemma WokenExactly(s: Sys, a: Action)
    requires Inv(s) && Asleep(s)
    ensures Asleep(Step(s, a)) <==> !Notifies(s, a)
    ensures Step(s, RxTask) == s
  {
    SleepsOn(s);
    match a
    case Sender => SenderWakes(s);
    case LinkPoll => LinkWakes(s);
    case PinFall => FallWakes(s);
    case _ =>
  }

  lemma SleepsOn(s: Sys)
    requires Asleep(s)
    ensures RxStep(s) == s
  {
  }

  lemma FallWakes(s: Sys)
    requires Inv(s) && Asleep(s)
    ensures Asleep(Fall(s)) <==> !Notifies(s, PinFall)
  {
  }

  lemma SenderWakes(s: Sys)
    requires Inv(s) && Asleep(s)
    ensures Asleep(TxStep(s)) <==> !Notifies(s, Sender)
  {
  }

  lemma LinkWakes(s: Sys)
    requires Inv(s) && Asleep(s)
    ensures Asleep(LinkStep(s)) <==> !Notifies(s, LinkPoll)
  {
  }

  /** Frames in the ring, the RX task asleep, and RECV clear: only an arrival can bring an edge. */
  predicate Stranded(s: Sys) {
    Asleep(s) && Rsr(s.c.rx) > 0 && !s.c.snIr.recv
  }

  /** The RX task asleep with RECV set and the pin already low: no edge can come any more. */
  predicate Deaf(s: Sys) {
    Asleep(s) && s.c.snIr.recv && !s.pinHigh
  }

  /** While the link stays up, arrivals, other flags, the pin and the RX task itself leave a deaf
      task deaf; it hears again exactly when a send notifies it. */
  lemma DeafExactly(s: Sys, a: Action)
    requires Inv(s) && s.link.Up? && Deaf(s)
    ensures Deaf(Step(s, a)) <==> !Notifies(s, a)
    ensures Notifies(s, a) ==> a.Sender?
  {
    WokenExactly(s, a);
    if !a.RxTask? && !a.LinkPoll? && !Step(s, a).c.snIr.recv {
      RecvIsConserved(s, a);
    }
    if a.PinRise? || a.PinFall? {
      assert Asserted(s.c);
    }
  }

  /** Likewise a stranded one, unless the chip sets RECV, on a new arrival, or carries out a RECV
      that empties the ring. No send notifies it whose look at Sn_IR comes after RECV was cleared. */
  lemma StrandedExactly(s: Sys, a: Action)
    requires Inv(s) && s.link.Up? && Stranded(s) && !a.Chip?
    ensures Stranded(Step(s, a)) <==> !Notifies(s, a)
    ensures Notifies(s, a) ==> a.Sender?
    ensures a.Sender? && s.tx.TxUpd? && s.tx.upd.Look? ==> !Step(s, a).tx.upd.Pend?
  {
    WokenExactly(s, a);
  }

  // ---------- when wake-ups are lost ----------

  /** A pass that breaks off with an error, wherever it does, leaves the RX task with an edge due
      exactly if RECV is set and the pin is high; otherwise it is deaf, or, with frames in the
      ring, stranded. */
  lemma FailureExact(s: Sys, timeout: bool)
    requires Inv(s) && s.link.Up? && s.notif == 0 && !s.rx.Wait? && RxFail(s, timeout).rx == Wait(true)
    ensures var t := Step(s, RxFault(timeout));
            && (EdgeDue(t) <==> s.c.snIr.recv && s.pinHigh)
            && (Deaf(t) <==> s.c.snIr.recv && !s.pinHigh)
            && (Stranded(t) <==> !s.c.snIr.recv && Rsr(s.c.rx) > 0)
  {
    var t := RxFail(s, timeout);
    FaultKeeps(s, timeout);
    assert t == s.(rx := Wait(true));
    EdgeExact(t);
  }

  lemma FailedPassDeafens(s: Sys)
    requires Inv(s) && s.link.Up? && Asleep(s) && s.pinHigh && s.c.snIr.recv
    ensures var t := RxFail(RxStep(Fall(s)), false);
            Deaf(t) && t.c == s.c && t.rx.failed
  {
    var s1 := s.(pinHigh := false, notif := 1);
    var s2 := s1.(notif := 0, rx := SvcIr);
    assert Fall(s) == s1;
    assert RxStep(s1) == s2;
    assert RxFail(s2, false) == s2.(rx := Wait(true));
  }

  lemma ArrivalSetsRecv(s: Sys)
    requires Inv(s) && s.link.Up? && Asleep(s) && s.pinHigh && s.c.sr == SOCK_MACRAW && Fits(s.c.rx)
    ensures var t := Step(s, Chip(Arrive));
            Inv(t) && t.link.Up? && Asleep(t) && t.pinHigh && t.c.snIr.recv && t.c.rx.stored == s.c.rx.stored + 1
  {
    ChipKeeps(s, Arrive);
  }

  /** Both happen. A frame arrives while the RX task sleeps in good order, the pin falls, and the
      pass that this starts fails at its first transaction: the RX task is deaf, with the frame in
      the ring. */
  lemma FirstFailureDeafens(s: Sys)
    requires Inv(s) && s.link.Up? && Asleep(s) && s.pinHigh && s.c.sr == SOCK_MACRAW && Fits(s.c.rx)
    ensures var t := RxFail(RxStep(Fall(Step(s, Chip(Arrive)))), false);
            Deaf(t) && t.rx.failed && t.c.rx.stored == s.c.rx.stored + 1
  {
    ArrivalSetsRecv(s);
    FailedPassDeafens(Step(s, Chip(Arrive)));
  }

  /** A pass that fails anywhere in its drain strands what is in the ring if no frame has come in
      since RECV was cleared. */
  lemma FailureStrands(s: Sys, timeout: bool)
    requires Inv(s) && s.link.Up? && s.notif == 0 && Draining(s.rx) && Rsr(s.c.rx) > 0 && !s.c.snIr.recv
    ensures Stranded(Step(s, RxFault(timeout)))
  {
    FailureExact(s, timeout);
  }

  /** The last step of a registration, whatever has happened before it and whether or not a link-up
      has come and gone: with the pin low the task is notified; with the pin high an edge is due
      exactly if RECV has not been wiped since the last arrival. */
  lemma UnregisteredExact(s: Sys, actions: seq<Action>)
    requires Initial(s)
    ensures var t := Run(s, actions);
            t.link.Up? && t.rx.CheckPin? && t.notif == 0 ==>
              var u := Step(t, RxTask);
              && u.rx == Wait(false)
              && if t.pinHigh then Asleep(u) && (EdgeDue(u) <==> t.c.snIr.recv) else u.notif > 0
  {
    var t := Run(s, actions);
    RunKeeps(s, actions);
    if t.link.Up? && t.rx.CheckPin? && t.notif == 0 {
      RegisteredExact(t);
    }
  }

  lemma RegisteredExact(t: Sys)
    requires Inv(t) && t.link.Up? && t.rx.CheckPin? && t.notif == 0
    ensures var u := Step(t, RxTask);
            && u.rx == Wait(false)
            && if t.pinHigh then Asleep(u) && (EdgeDue(u) <==> t.c.snIr.recv) else u.notif > 0
  {
    var u := NotifiedIfPending(t).(rx := Wait(false));
    assert t.(notif := u.notif, rx := u.rx) == OuterStep(t);
    assert RxStep(t) == u;
    RxKeeps(t);
    if t.pinHigh {
      EdgeExact(u);
    }
  }

  /** A link-up that finds no task registered gives no notification, and is not taken for
      one that did. */
  lemma UnregisteredMisses(s: Sys)
    requires Inv(s) && s.rx.SetHandle? && s.link.Give?
    ensures var t := Step(s, LinkPoll);
            t.link.Up? && !t.armed && t.notif == s.notif && t.rx.SetHandle?
  {
  }
}

/** What a link that is up stands for, at every step of the machine. */
module LinkUp {
  import opened Words
  import opened W5500
  import opened Machine
  import opened BringUp

  predicate Past(p: LinkPc) { Enabling(p) || p.Give? || p.Up? }

  /** What is set up by the time the link poll is at `p`. */
  predicate SetUp(p: LinkPc, c: State) {
    && (p.Open? || p.OpenWait? || p.CheckSr? || Past(p) ==> c.mr == MODE && Sized(c.rxKb, 8) && Sized(c.txKb, 8))
    && (p.CheckSr? || Past(p) ==> c.cr != CR_OPEN && c.cr != CR_CLOSE)
    && (Past(p) ==> c.sr == SOCK_MACRAW)
  }

  predicate Masked(p: LinkPc, c: State) {
    && (p.WipeCommon? || p.WipeSn? || p.UnmaskSn? || p.SetLevel? || p.UnmaskAll? || p.PendUp? || p.Give? || p.Up? ==>
          c.imr == 0)
    && (p.UnmaskAll? || p.PendUp? || p.Give? || p.Up? ==> c.intLevel == 0xFFFF)
  }

  predicate Ready(s: Sys) {
    SetUp(s.link, s.c) && Masked(s.link, s.c) && Unmasking(s.link, s.c)
  }

  /** Whoever else acts changes Sn_CR, and Sn_SR only by carrying out OPEN or CLOSE. */
  predicate LeavesSetup(a: State, b: State) {
    && b == a.(rx := b.rx, tx := b.tx, ir := b.ir, snIr := b.snIr, events := b.events, cr := b.cr, sr := b.sr)
    && (a.cr != CR_OPEN && a.cr != CR_CLOSE ==> b.sr == a.sr && b.cr != CR_OPEN && b.cr != CR_CLOSE)
  }

  lemma OthersKeep(s: Sys, t: Sys)
    requires Ready(s) && t.link == s.link && LeavesSetup(s.c, t.c)
    ensures Ready(t)
  {
  }

  lemma RxLeaves(s: Sys)
    ensures LeavesSetup(s.c, RxStep(s).c) && RxStep(s).link == s.link
  {
    if Serving(s.rx) {
      assert RxStep(s) == ServiceStep(s);
    } else if s.rx.ClrRead? || s.rx.ClrWrite? {
      assert RxStep(s) == ClearStep(s);
    } else if Draining(s.rx) {
      assert RxStep(s) == DrainStep(s);
    } else {
      assert RxStep(s) == OuterStep(s);
    }
  }

  lemma ChipLeaves(c: State, e: Event)
    ensures LeavesSetup(c, Happen(c.(events := 1), e))
  {
    HappenEvolves(c.(events := 1), e);
  }

  lemma ConfigureKeeps(s: Sys)
    requires s.link.Setup?
    ensures SetUp(OpenStep(s).link, OpenStep(s).c)
  {
    var sizes: seq<byte> := [16, 0, 0, 0, 0, 0, 0, 0];
    assert Sized(sizes, 8);
    assert OpenStep(s) == s.(c := s.c.(rxKb := sizes, txKb := sizes, mr := MODE), link := Open);
  }

  lemma CommandKeeps(s: Sys)
    requires SetUp(s.link, s.c) && (s.link.Close? || s.link.Open?)
    ensures SetUp(OpenStep(s).link, OpenStep(s).c)
  {
  }

  lemma LookKeeps(s: Sys)
    requires SetUp(s.link, s.c) && (s.link.OpenWait? || s.link.CheckSr?)
    ensures SetUp(OpenStep(s).link, OpenStep(s).c)
  {
  }

  lemma CloseKeeps(s: Sys)
    requires SetUp(s.link, s.c) && (s.link.Down? || s.link.CloseWait? || s.link.Flush?)
    ensures SetUp(OpenStep(s).link, OpenStep(s).c)
  {
  }

  lemma OpenKeeps(s: Sys)
    requires Ready(s) && Opening(s.link)
    ensures Ready(OpenStep(s))
  {
    if s.link.Setup? {
      ConfigureKeeps(s);
    } else if s.link.Close? || s.link.Open? {
      CommandKeeps(s);
    } else if s.link.OpenWait? || s.link.CheckSr? {
      LookKeeps(s);
    } else {
      CloseKeeps(s);
    }
  }

  lemma EnableKeeps(s: Sys)
    requires Ready(s) && Enabling(s.link)
    ensures Ready(EnableStep(s))
  {
  }

  lemma LinkKeeps(s: Sys)
    requires Ready(s)
    ensures Ready(LinkStep(s))
  {
    if Opening(s.link) {
      OpenKeeps(s);
    } else if Enabling(s.link) {
      EnableKeeps(s);
    }
  }

  lemma RxKeeps(s: Sys, timeout: bool)
    requires Ready(s)
    ensures Ready(RxStep(s)) && Ready(RxFail(s, timeout))
  {
    RxLeaves(s);
    OthersKeep(s, RxStep(s));
    OthersKeep(s, RxFail(s, timeout));
  }

  lemma TxKeeps(s: Sys, timeout: bool)
    requires Ready(s)
    ensures Ready(TxStep(s)) && Ready(TxFail(s, timeout))
  {
    OthersKeep(s, TxStep(s));
    OthersKeep(s, TxFail(s, timeout));
  }

  lemma ChipKeeps(s: Sys, e: Event)
    requires Ready(s)
    ensures Ready(s.(c := Happen(s.c.(events := 1), e)))
  {
    ChipLeaves(s.c, e);
    OthersKeep(s, s.(c := Happen(s.c.(events := 1), e)));
  }

  lemma PinKeeps(s: Sys)
    requires Ready(s)
    ensures Ready(Fall(s)) && Ready(Rise(s))
  {
    OthersKeep(s, Fall(s));
    OthersKeep(s, Rise(s));
  }

  lemma CallKeeps(s: Sys, a: Action)
    requires Ready(s) && (a.Begin? || a.LinkFault? || a.LinkDrop?)
    ensures Ready(CallStep(s, a))
  {
    if a.Begin? {
      OthersKeep(s, CallStep(s, a));
    }
  }

  lemma StepKeeps(s: Sys, a: Action)
    requires Ready(s)
    ensures Ready(Step(s, a))
  {
    match a
    case RxTask => RxKeeps(s, false);
    case RxFault(timeout) => RxKeeps(s, timeout);
    case Sender => TxKeeps(s, false);
    case SenderFault(timeout) => TxKeeps(s, timeout);
    case LinkPoll => LinkKeeps(s);
    case Chip(e) => ChipKeeps(s, e);
    case PinFall => PinKeeps(s);
    case PinRise => PinKeeps(s);
    case _ => CallKeeps(s, a);
  }

  /** Over every run, whatever the samples, the failures and the traffic between them: while the
      link is up the socket is open in MACRAW mode with the whole packet memory, and RECV, and
      nothing else, is unmasked. */
  lemma {:induction false} LinkUpIsReady(s: Sys, actions: seq<Action>)
    requires Ready(s)
    ensures var t := Run(s, actions);
            Ready(t) && (t.link.Up? ==> Opened(t.c) && Unmasked(t.c))
    decreases |actions|
  {
    if actions != [] {
      StepKeeps(s, actions[0]);
      LinkUpIsReady(Step(s, actions[0]), actions[1..]);
    }
  }
}

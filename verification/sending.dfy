/** The transmit side under every interleaving: what the chip accepts is what the sends put in. */
module Sending {
  import opened Words
  import opened Ring
  import opened W5500
  import opened Machine
  import opened Interleaving

  /** Nothing is staged, and the chip has accepted `accepted`. */
  predicate Steady(x: Tx, accepted: seq<seq<byte>>)
    requires TxValid(x)
  {
    Staged(x) == [] && x.outbox == accepted
  }

  /** Where a sending task is when the sends that have returned account for `accepted`. */
  predicate TxPlace(p: TxPc, x: Tx, accepted: seq<seq<byte>>)
    requires TxValid(x)
  {
    match p
    case Idle => Steady(x, accepted)
    case TxUpd(frame, _) => frame != [] && Steady(x, accepted)
    case TxSr(frame) => frame != [] && Steady(x, accepted)
    case TxReading(frame, q) => frame != [] && Steady(x, accepted) && StableOk(q, Fsr(x))
    case TxRdWr(frame) => frame != [] && Steady(x, accepted) && |frame| <= Fsr(x)
    case TxFill(frame, wr) => frame != [] && Steady(x, accepted) && Roomy(x, wr, |frame|)
    case TxSetWr(frame, wr) =>
      && frame != [] && Steady(x, accepted) && Roomy(x, wr, |frame|)
      && ReadRing(x.mem, x.put, |frame|) == frame
    case TxCommand(frame) => frame != [] && Staged(x) == frame && x.outbox == accepted
    case TxWait(frame) => Steady(x, accepted + [frame])
    case Sent(_) => Steady(x, accepted)
  }

  /** What the chip has accepted by rights: `before`, and the frames of the sends that have returned
      ESP_OK from the `n`-th one on. */
  function Due(s: Sys, before: seq<seq<byte>>, n: nat): seq<seq<byte>>
    requires n <= |s.sent|
  {
    before + s.sent[n..]
  }

  predicate Sending(s: Sys, before: seq<seq<byte>>, n: nat) {
    n <= |s.sent| && s.c.cr == 0 && TxPlace(s.tx, s.c.tx, Due(s, before, n))
  }

  lemma TxPlaceLater(p: TxPc, x: Tx, y: Tx, accepted: seq<seq<byte>>)
    requires TxValid(x) && TxValid(y) && TxPlace(p, x, accepted) && TxDrains(x, y)
    ensures TxPlace(p, y, accepted)
  {
    TxDrainsFsr(x, y);
    if p.TxReading? {
      StableLater(p.stable, Fsr(x), Fsr(y));
    }
  }

  lemma TxReadPlace(frame: seq<byte>, p: Stable, x: Tx, accepted: seq<seq<byte>>)
    requires TxValid(x) && TxPlace(TxReading(frame, p), x, accepted)
    ensures TxPlace(AfterTxRead(frame, StableStep(p, Fsr(x))), x, accepted)
  {
    StableAdvances(p, Fsr(x));
  }

  /** The room check holds good until the bytes are in: writes stay clear of everything that has
      not left. */
  lemma FillPlace(c: State, frame: seq<byte>, wr: u16, accepted: seq<seq<byte>>)
    requires TxPlace(TxFill(frame, wr), c.tx, accepted)
    ensures TxPlace(TxSetWr(frame, wr), FillTx(c, wr, frame).tx, accepted)
  {
    FillKeeps(c.tx, frame);
  }

  lemma MovePlace(c: State, frame: seq<byte>, wr: u16, accepted: seq<seq<byte>>)
    requires TxPlace(TxSetWr(frame, wr), c.tx, accepted)
    ensures TxPlace(TxCommand(frame), MoveTxWr(c, wr, |frame|).tx, accepted)
  {
    SetTxWrKeeps(c.tx, |frame|);
  }

  lemma CommandPlace(c: State, frame: seq<byte>, accepted: seq<seq<byte>>)
    requires TxPlace(TxCommand(frame), c.tx, accepted)
    ensures TxPlace(TxWait(frame), Accepted(WriteCommand(c, CR_SEND)).tx, accepted)
  {
    assert Accepted(WriteCommand(c, CR_SEND)).tx == AcceptSend(c.tx);
  }

  /** A step that touches nothing of the transmit side. */
  lemma ElsewhereSends(s: Sys, t: Sys, before: seq<seq<byte>>, n: nat)
    requires Sending(s, before, n) && t.c.tx == s.c.tx && t.sent == s.sent
    requires t.c.cr == 0 || t.c.cr == CR_RECV
    requires TxPlace(t.tx, s.c.tx, Due(s, before, n))
    ensures Sending(Settled(t), before, n)
  {
  }

  lemma FillSends(s: Sys, before: seq<seq<byte>>, n: nat)
    requires Sending(s, before, n) && s.tx.TxFill?
    ensures Sending(PromptStep(s, Sender), before, n)
  {
    var c := FillTx(s.c, s.tx.wr, s.tx.frame);
    FillPlace(s.c, s.tx.frame, s.tx.wr, Due(s, before, n));
    assert TxStep(s) == s.(c := c, tx := TxSetWr(s.tx.frame, s.tx.wr));
  }

  lemma MoveSends(s: Sys, before: seq<seq<byte>>, n: nat)
    requires Sending(s, before, n) && s.tx.TxSetWr?
    ensures Sending(PromptStep(s, Sender), before, n)
  {
    var c := MoveTxWr(s.c, s.tx.wr, |s.tx.frame|);
    MovePlace(s.c, s.tx.frame, s.tx.wr, Due(s, before, n));
    assert TxStep(s) == s.(c := c, tx := TxCommand(s.tx.frame));
  }

  lemma CommandSends(s: Sys, before: seq<seq<byte>>, n: nat)
    requires Sending(s, before, n) && s.tx.TxCommand?
    ensures Sending(PromptStep(s, Sender), before, n)
  {
    CommandPlace(s.c, s.tx.frame, Due(s, before, n));
    assert TxStep(s) == s.(c := WriteCommand(s.c, CR_SEND), tx := TxWait(s.tx.frame));
  }

  lemma CopySends(s: Sys, before: seq<seq<byte>>, n: nat)
    requires Sending(s, before, n) && (s.tx.TxFill? || s.tx.TxSetWr? || s.tx.TxCommand?)
    ensures Sending(PromptStep(s, Sender), before, n)
  {
    match s.tx
    case TxFill(_, _) => FillSends(s, before, n);
    case TxSetWr(_, _) => MoveSends(s, before, n);
    case TxCommand(_) => CommandSends(s, before, n);
  }

  lemma WaitSends(s: Sys, before: seq<seq<byte>>, n: nat)
    requires Sending(s, before, n) && s.tx.TxWait?
    ensures Sending(PromptStep(s, Sender), before, n)
  {
    var t := s.(tx := Sent(Ok), sent := s.sent + [s.tx.frame]);
    assert Due(t, before, n) == Due(s, before, n) + [s.tx.frame];
    assert TxStep(s) == t;
  }

  lemma ReadSends(s: Sys, before: seq<seq<byte>>, n: nat)
    requires Sending(s, before, n) && s.tx.TxReading?
    ensures Sending(PromptStep(s, Sender), before, n)
  {
    TxReadPlace(s.tx.frame, s.tx.stable, s.c.tx, Due(s, before, n));
    var t := s.(tx := AfterTxRead(s.tx.frame, StableStep(s.tx.stable, Fsr(s.c.tx))));
    assert TxStep(s) == t;
    ElsewhereSends(s, t, before, n);
  }

  lemma LookSends(s: Sys, before: seq<seq<byte>>, n: nat)
    requires Sending(s, before, n)
    requires s.tx.Idle? || s.tx.TxUpd? || s.tx.TxSr? || s.tx.TxRdWr? || s.tx.Sent?
    ensures Sending(PromptStep(s, Sender), before, n)
  {
    ElsewhereSends(s, TxStep(s), before, n);
  }

  lemma SenderSends(s: Sys, before: seq<seq<byte>>, n: nat)
    requires Sending(s, before, n)
    ensures Sending(PromptStep(s, Sender), before, n)
  {
    if s.tx.TxFill? || s.tx.TxSetWr? || s.tx.TxCommand? {
      CopySends(s, before, n);
    } else if s.tx.TxWait? {
      WaitSends(s, before, n);
    } else if s.tx.TxReading? {
      ReadSends(s, before, n);
    } else {
      LookSends(s, before, n);
    }
  }

  // ---------- the other actions ----------

  lemma RxSends(s: Sys, before: seq<seq<byte>>, n: nat)
    requires Sending(s, before, n)
    ensures Sending(PromptStep(s, RxTask), before, n)
  {
    if Serving(s.rx) {
      ElsewhereSends(s, ServiceStep(s), before, n);
    } else if s.rx.ClrRead? || s.rx.ClrWrite? {
      ElsewhereSends(s, ClearStep(s), before, n);
    } else if Draining(s.rx) {
      ElsewhereSends(s, DrainStep(s), before, n);
    } else {
      ElsewhereSends(s, OuterStep(s), before, n);
    }
  }

  lemma ChipSends(s: Sys, e: Event, before: seq<seq<byte>>, n: nat)
    requires Sending(s, before, n)
    ensures Sending(PromptStep(s, Chip(e)), before, n)
  {
    var c := s.c.(events := 1);
    HappenExtends(c, e);
    TxPlaceLater(s.tx, c.tx, Happen(c, e).tx, Due(s, before, n));
  }

  /** A failing send is accounted for, the caller taking the frame for unsent, if and only if it
      does not fail between the write of Sn_TX_WR and the end of SEND. There the frame is staged
      and leaves with the next one, or the chip has accepted it already. */
  lemma FaultExact(s: Sys, timeout: bool, before: seq<seq<byte>>, n: nat)
    requires Sending(s, before, n)
    ensures Sending(PromptStep(s, SenderFault(timeout)), before, n) <==> !s.tx.TxCommand? && !s.tx.TxWait?
  {
    var t := TxFail(s, timeout);
    if s.tx.TxCommand? || s.tx.TxWait? {
      assert t == s.(tx := Sent(if timeout then Timeout else Fail));
      FailedCommit(s, before, n, t.tx.err);
    } else {
      ElsewhereSends(s, t, before, n);
    }
  }

  lemma FailedCommit(s: Sys, before: seq<seq<byte>>, n: nat, err: Err)
    requires Sending(s, before, n) && (s.tx.TxCommand? || s.tx.TxWait?)
    ensures !Sending(s.(tx := Sent(err)), before, n)
  {
    assert |Due(s, before, n) + [s.tx.frame]| > |Due(s.(tx := Sent(err)), before, n)|;
  }

  /** The steps that keep both sides exact. */
  predicate Harmless(s: Sys, a: Action) {
    Ordinary(s, a) && (a.SenderFault? ==> !s.tx.TxCommand? && !s.tx.TxWait?)
  }

  lemma RxFaultSends(s: Sys, timeout: bool, before: seq<seq<byte>>, n: nat)
    requires Sending(s, before, n)
    ensures Sending(PromptStep(s, RxFault(timeout)), before, n)
  {
    ElsewhereSends(s, RxFail(s, timeout), before, n);
  }

  lemma PinSends(s: Sys, before: seq<seq<byte>>, n: nat)
    requires Sending(s, before, n)
    ensures Sending(PromptStep(s, PinFall), before, n) && Sending(PromptStep(s, PinRise), before, n)
  {
    ElsewhereSends(s, Fall(s), before, n);
    ElsewhereSends(s, Rise(s), before, n);
  }

  lemma BeginSends(s: Sys, frame: seq<byte>, before: seq<seq<byte>>, n: nat)
    requires Sending(s, before, n)
    ensures Sending(PromptStep(s, Begin(frame)), before, n)
  {
    if s.tx.Idle? || s.tx.Sent? {
      ElsewhereSends(s, s.(tx := if frame == [] then Sent(InvalidArg) else TxUpd(frame, Look)), before, n);
    }
  }

  lemma LinkSends(s: Sys, before: seq<seq<byte>>, n: nat)
    requires Sending(s, before, n) && !s.link.Open?
    ensures Sending(PromptStep(s, LinkPoll), before, n)
  {
    LinkLeaves(s);
    ElsewhereSends(s, Settled(LinkStep(s)), before, n);
  }

  lemma LossSends(s: Sys, link: LinkPc, before: seq<seq<byte>>, n: nat)
    requires Sending(s, before, n)
    ensures Sending(Settled(s.(link := link)), before, n)
  {
  }

  lemma TaskSends(s: Sys, a: Action, before: seq<seq<byte>>, n: nat)
    requires Sending(s, before, n) && Harmless(s, a)
    requires a.RxTask? || a.RxFault? || a.Sender? || a.SenderFault? || a.LinkPoll?
    ensures Sending(PromptStep(s, a), before, n)
  {
    match a
    case RxTask => RxSends(s, before, n);
    case RxFault(timeout) => RxFaultSends(s, timeout, before, n);
    case Sender => SenderSends(s, before, n);
    case SenderFault(timeout) => FaultExact(s, timeout, before, n);
    case LinkPoll => LinkSends(s, before, n);
  }

  lemma StepSends(s: Sys, a: Action, before: seq<seq<byte>>, n: nat)
    requires Sending(s, before, n) && Harmless(s, a)
    ensures Sending(PromptStep(s, a), before, n)
  {
    match a
    case Chip(e) => ChipSends(s, e, before, n);
    case PinFall => PinSends(s, before, n);
    case PinRise => PinSends(s, before, n);
    case Begin(frame) => BeginSends(s, frame, before, n);
    case LinkFault => LossSends(s, Step(s, a).link, before, n);
    case LinkDrop => LossSends(s, Step(s, a).link, before, n);
    case _ => TaskSends(s, a, before, n);
  }

  /** Where OPEN does not catch a send with a pointer of the old session, or behind its commit. */
  predicate OpenSpares(p: TxPc) {
    match p
    case TxFill(_, wr) => wr == 0
    case TxSetWr(_, wr) => wr == 0
    case TxCommand(_) => false
    case TxWait(_) => false
    case _ => true
  }

  /** OPEN starts the account of segments again, a send that is under way being accounted for,
      exactly if it spares that send. */
  lemma OpenSends(s: Sys, before: seq<seq<byte>>, n: nat)
    requires Sending(s, before, n) && s.link.Open?
    ensures Sending(PromptStep(s, LinkPoll), [], |s.sent|) <==> OpenSpares(s.tx)
  {
    OpenRestarts(s);
    var t := PromptStep(s, LinkPoll);
    assert Due(t, [], |s.sent|) == [];
    OpenPlace(s.tx, s.c.tx, Due(s, before, n));
  }

  lemma OpenPlace(p: TxPc, x: Tx, accepted: seq<seq<byte>>)
    requires TxValid(x) && TxPlace(p, x, accepted) && TxValid(ReopenedTx(x))
    ensures TxPlace(p, ReopenedTx(x), []) <==> OpenSpares(p)
  {
    match p
    case TxReading(_, q) => StableLater(q, Fsr(x), RING);
    case TxSetWr(frame, wr) =>
      if wr == 0 {
        ReadWrapped(x.mem, x.put, |frame|);
      }
    case _ =>
  }

  /** Behind its commit the send returns ESP_OK and the frame is gone: the chip has accepted nothing,
      or a segment with nothing in it. */
  lemma OpenMisreports(s: Sys)
    requires s.c.cr == 0 && s.link.Open? && (s.tx.TxCommand? || s.tx.TxWait?)
    ensures var t := PromptStep(s, LinkPoll);
            var u := if s.tx.TxWait? then PromptStep(t, Sender) else PromptStep(PromptStep(t, Sender), Sender);
            && u.tx == Sent(Ok) && u.sent == s.sent + [s.tx.frame]
            && u.c.tx.outbox == if s.tx.TxWait? then [] else [[]]
  {
    OpenRestarts(s);
    var t := PromptStep(s, LinkPoll);
    if s.tx.TxCommand? {
      EmptySend(t);
      SendReturns(PromptStep(t, Sender));
    } else {
      SendReturns(t);
    }
  }

  lemma EmptySend(t: Sys)
    requires t.c.cr == 0 && t.tx.TxCommand? && t.c.tx.outbox == [] && Staged(t.c.tx) == []
    ensures var u := PromptStep(t, Sender);
            u.c.cr == 0 && u.tx == TxWait(t.tx.frame) && u.sent == t.sent && u.c.tx.outbox == [[]]
  {
    assert TxStep(t) == t.(c := WriteCommand(t.c, CR_SEND), tx := TxWait(t.tx.frame));
    assert Accepted(WriteCommand(t.c, CR_SEND)).tx == AcceptSend(t.c.tx);
  }

  lemma SendReturns(t: Sys)
    requires t.c.cr == 0 && t.tx.TxWait?
    ensures PromptStep(t, Sender) == t.(tx := Sent(Ok), sent := t.sent + [t.tx.frame])
  {
    assert TxStep(t) == t.(tx := Sent(Ok), sent := t.sent + [t.tx.frame]);
  }

  predicate AllHarmless(s: Sys, actions: seq<Action>)
    decreases |actions|
  {
    actions == [] || (Harmless(s, actions[0]) && AllHarmless(PromptStep(s, actions[0]), actions[1..]))
  }

  lemma {:induction false} RunSends(s: Sys, actions: seq<Action>, before: seq<seq<byte>>, n: nat)
    requires Sending(s, before, n) && AllHarmless(s, actions)
    ensures Sending(PromptRun(s, actions), before, n)
    decreases |actions|
  {
    if actions != [] {
      StepSends(s, actions[0], before, n);
      RunSends(PromptStep(s, actions[0]), actions[1..], before, n);
    }
  }

  lemma {:induction false} HarmlessIsOrdinary(s: Sys, actions: seq<Action>)
    requires AllHarmless(s, actions)
    ensures AllOrdinary(s, actions)
    decreases |actions|
  {
    if actions != [] {
      HarmlessIsOrdinary(PromptStep(s, actions[0]), actions[1..]);
    }
  }

  /** Non-interference. In every interleaving the receive side delivers the records and the
      transmit side accepts the frames of the sends exactly as each would alone; what the chip
      has put on the wire is a prefix of that, and no write ever overruns free space. */
  lemma BothSidesExact(s: Sys, actions: seq<Action>, first: nat, before: seq<seq<byte>>, n: nat) returns (last: nat)
    requires Following(s, first) && first <= |s.c.rx.traffic| && AllHarmless(s, actions)
    requires Sending(s, before, n)
    ensures var t := PromptRun(s, actions);
            && Delivered(s, t, first, last)
            && Sending(t, before, n)
            && before + t.sent[n..] <= t.c.tx.outbox
            && t.c.tx.wire <= t.c.tx.outbox
            && (t.tx.Idle? || t.tx.Sent? ==> t.c.tx.outbox == before + t.sent[n..])
            && (t.tx.TxFill? ==> Roomy(t.c.tx, t.tx.wr, |t.tx.frame|))
            && (t.tx.TxSetWr? ==> Roomy(t.c.tx, t.tx.wr, |t.tx.frame|))
  {
    HarmlessIsOrdinary(s, actions);
    last := DeliversInOrder(s, actions, first);
    RunSends(s, actions, before, n);
    WireIsOutbox(PromptRun(s, actions).c.tx);
  }
}

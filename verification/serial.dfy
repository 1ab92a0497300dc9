/** One pass of the RX task and one send, interleaved in any way on a prompt chip, have a serial
    equivalent: the pass first and the send after it. */
module Serial {
  import opened Words
  import opened Ring
  import opened W5500
  import opened Machine
  import opened Interleaving
  import D = Delivery

  // ---------- what a pass and a send depend on ----------

  /** The receive side, and the transmit side. */
  predicate SameReceive(s: Sys, t: Sys) {
    t.c.rx == s.c.rx && t.c.sr == s.c.sr && t.offered == s.offered && t.rx == s.rx && s.c.cr == t.c.cr == 0
  }

  predicate SameSend(s: Sys, t: Sys) {
    t.c.tx == s.c.tx && t.c.sr == s.c.sr && t.sent == s.sent && t.tx == s.tx && s.c.cr == t.c.cr == 0
  }

  /** A pass is over at the level check or with an error. */
  predicate Passing(p: RxPc) { Serving(p) || p.ClrRead? || p.ClrWrite? || Draining(p) }

  /** Up to its drain, respectively its look at Sn_SR, a task has only dealt with flags. */
  predicate Preparing(p: RxPc) { Serving(p) || p.ClrRead? || p.ClrWrite? }

  /** `t` has its preparation behind it and is otherwise where `s` is. */
  predicate RxAlike(s: Sys, t: Sys) {
    && t.c.rx == s.c.rx && t.c.sr == s.c.sr && t.offered == s.offered && s.c.cr == t.c.cr == 0
    && t.rx == if Preparing(s.rx) then Reading(false, Hi1(0)) else s.rx
  }

  predicate TxAlike(s: Sys, t: Sys) {
    && t.c.tx == s.c.tx && t.c.sr == s.c.sr && t.sent == s.sent && s.c.cr == t.c.cr == 0
    && t.tx == if s.tx.TxUpd? then TxSr(s.tx.frame) else s.tx
  }

  lemma PrepareAlike(s: Sys, t: Sys)
    requires RxAlike(s, t) && Preparing(s.rx)
    ensures RxAlike(PromptStep(s, RxTask), t)
  {
    if Serving(s.rx) {
      D.SoloIsStep(s);
      D.SoloServes(s);
    } else {
      D.SoloIsStep(s);
      D.SoloClears(s);
    }
  }

  lemma LookSame(p: RxPc, c: State, d: State)
    requires Looking(p) && c.rx == d.rx && c.sr == d.sr
    ensures LookStep(p, c) == LookStep(p, d)
  {
  }

  lemma LookAlike(s: Sys, t: Sys)
    requires RxAlike(s, t) && Looking(s.rx)
    ensures RxAlike(Settled(DrainStep(s)), Settled(DrainStep(t)))
  {
    var q := LookStep(s.rx, s.c);
    LookSame(s.rx, s.c, t.c);
    assert DrainStep(s) == s.(rx := q) && DrainStep(t) == t.(rx := q);
  }

  lemma MoveAlike(s: Sys, t: Sys)
    requires RxAlike(s, t) && s.rx.RcvSetRd?
    ensures RxAlike(Settled(DrainStep(s)), Settled(DrainStep(t)))
  {
  }

  function Commanded(c: State, cr: byte): State {
    if WriteCommand(c, cr).cr == 0 then WriteCommand(c, cr) else Accepted(WriteCommand(c, cr))
  }

  lemma RecvSame(c: State, d: State)
    requires c.rx == d.rx && c.sr == d.sr
    ensures var a, b := Commanded(c, CR_RECV), Commanded(d, CR_RECV);
            a.rx == b.rx && a.sr == b.sr && a.cr == b.cr == 0
  {
  }

  lemma CommandAlike(s: Sys, t: Sys)
    requires RxAlike(s, t) && s.rx.RcvCommand?
    ensures RxAlike(Settled(DrainStep(s)), Settled(DrainStep(t)))
  {
    RecvSame(s.c, t.c);
    CommandIs(s);
    CommandIs(t);
  }

  lemma CommandIs(s: Sys)
    requires s.rx.RcvCommand?
    ensures Settled(DrainStep(s)) == s.(c := Commanded(s.c, CR_RECV), rx := RcvWait(s.rx.frame))
  {
  }

  lemma RxDrains(s: Sys)
    requires Draining(s.rx)
    ensures RxStep(s) == DrainStep(s)
  {
  }

  lemma WaitAlike(s: Sys, t: Sys)
    requires RxAlike(s, t) && s.rx.RcvWait?
    ensures RxAlike(Settled(DrainStep(s)), Settled(DrainStep(t)))
  {
  }

  lemma DrainAlike(s: Sys, t: Sys)
    requires RxAlike(s, t) && Draining(s.rx)
    ensures RxAlike(PromptStep(s, RxTask), PromptStep(t, RxTask))
  {
    RxDrains(s);
    RxDrains(t);
    if Looking(s.rx) {
      LookAlike(s, t);
    } else if s.rx.RcvSetRd? {
      MoveAlike(s, t);
    } else if s.rx.RcvCommand? {
      CommandAlike(s, t);
    } else {
      WaitAlike(s, t);
    }
  }

  lemma SendPrepares(s: Sys, t: Sys)
    requires TxAlike(s, t) && s.tx.TxUpd?
    ensures TxAlike(PromptStep(s, Sender), t)
  {
  }

  lemma CopyAlike(s: Sys, t: Sys)
    requires TxAlike(s, t) && (s.tx.TxFill? || s.tx.TxSetWr?)
    ensures TxAlike(Settled(TxStep(s)), Settled(TxStep(t)))
  {
  }

  lemma SendSame(c: State, d: State)
    requires c.tx == d.tx && c.sr == d.sr
    ensures var a, b := Commanded(c, CR_SEND), Commanded(d, CR_SEND);
            a.tx == b.tx && a.sr == b.sr && a.cr == b.cr == 0
  {
  }

  lemma SendCommandAlike(s: Sys, t: Sys)
    requires TxAlike(s, t) && s.tx.TxCommand?
    ensures TxAlike(Settled(TxStep(s)), Settled(TxStep(t)))
  {
    SendSame(s.c, t.c);
    assert Settled(TxStep(s)) == s.(c := Commanded(s.c, CR_SEND), tx := TxWait(s.tx.frame));
    assert Settled(TxStep(t)) == t.(c := Commanded(t.c, CR_SEND), tx := TxWait(s.tx.frame));
  }

  lemma ReadAlike(s: Sys, t: Sys)
    requires TxAlike(s, t) && s.tx.TxReading?
    ensures TxAlike(Settled(TxStep(s)), Settled(TxStep(t)))
  {
    var q := AfterTxRead(s.tx.frame, StableStep(s.tx.stable, Fsr(s.c.tx)));
    assert TxStep(s) == s.(tx := q) && TxStep(t) == t.(tx := q);
  }

  lemma SendStepAlike(s: Sys, t: Sys)
    requires TxAlike(s, t) && (s.tx.Idle? || s.tx.TxSr? || s.tx.TxRdWr? || s.tx.TxWait? || s.tx.Sent?)
    ensures TxAlike(Settled(TxStep(s)), Settled(TxStep(t)))
  {
  }

  lemma SendAlike(s: Sys, t: Sys)
    requires TxAlike(s, t) && !s.tx.TxUpd?
    ensures TxAlike(PromptStep(s, Sender), PromptStep(t, Sender))
  {
    if s.tx.TxFill? || s.tx.TxSetWr? {
      CopyAlike(s, t);
    } else if s.tx.TxCommand? {
      SendCommandAlike(s, t);
    } else if s.tx.TxReading? {
      ReadAlike(s, t);
    } else {
      SendStepAlike(s, t);
    }
  }

  // ---------- projections ----------

  /** What one pass and one send are interleaved with. */
  predicate Mixed(s: Sys, a: Action) {
    match a
    case RxTask => Passing(s.rx)
    case Sender => true
    case Chip(e) => !e.Accept?
    case PinFall => true
    case PinRise => true
    case _ => false
  }

  predicate AllMixed(s: Sys, actions: seq<Action>)
    decreases |actions|
  {
    actions == [] || (Mixed(s, actions[0]) && AllMixed(PromptStep(s, actions[0]), actions[1..]))
  }

  predicate ForRx(s: Sys, a: Action) { (a.RxTask? && Draining(s.rx)) || a == Chip(Arrive) }
  predicate ForTx(s: Sys, a: Action) { (a.Sender? && !s.tx.TxUpd?) || (a.Chip? && a.e.Depart?) }

  /** The RX task and arrivals; a sending task and departures. */
  predicate OnlyRx(actions: seq<Action>) {
    forall i | 0 <= i < |actions| :: actions[i].RxTask? || actions[i] == Chip(Arrive)
  }

  predicate OnlyTx(actions: seq<Action>) {
    forall i | 0 <= i < |actions| :: actions[i].Sender? || (actions[i].Chip? && actions[i].e.Depart?)
  }

  /** The steps of the drain, with the arrivals; and the steps of the send from Sn_SR on, with the
      departures. */
  function RxPart(s: Sys, actions: seq<Action>): (part: seq<Action>)
    ensures OnlyRx(part)
    decreases |actions|
  {
    if actions == [] then []
    else (if ForRx(s, actions[0]) then [actions[0]] else []) + RxPart(PromptStep(s, actions[0]), actions[1..])
  }

  function TxPart(s: Sys, actions: seq<Action>): (part: seq<Action>)
    ensures OnlyTx(part)
    decreases |actions|
  {
    if actions == [] then []
    else (if ForTx(s, actions[0]) then [actions[0]] else []) + TxPart(PromptStep(s, actions[0]), actions[1..])
  }

  /** What an event does to one side depends on that side only. */
  lemma ArriveSame(c: State, d: State)
    requires c.rx == d.rx && c.sr == d.sr
    ensures var a, b := Happen(c.(events := 1), Arrive), Happen(d.(events := 1), Arrive);
            a.rx == b.rx && a.tx == c.tx && a.sr == c.sr && b.sr == d.sr && a.cr == c.cr && b.cr == d.cr
  {
  }

  lemma DepartSame(c: State, d: State, timedOut: bool)
    requires c.tx == d.tx
    ensures var a, b := Happen(c.(events := 1), Depart(timedOut)), Happen(d.(events := 1), Depart(timedOut));
            a.tx == b.tx && a.rx == c.rx && a.sr == c.sr && b.sr == d.sr && a.cr == c.cr && b.cr == d.cr
  {
  }

  lemma ArriveAlike(s: Sys, t: Sys)
    requires RxAlike(s, t)
    ensures RxAlike(PromptStep(s, Chip(Arrive)), PromptStep(t, Chip(Arrive)))
  {
    ArriveSame(s.c, t.c);
  }

  lemma DepartAlike(s: Sys, t: Sys, timedOut: bool)
    requires TxAlike(s, t)
    ensures TxAlike(PromptStep(s, Chip(Depart(timedOut))), PromptStep(t, Chip(Depart(timedOut))))
  {
    DepartSame(s.c, t.c, timedOut);
    DepartSame(t.c, t.c, timedOut);
    PromptEvent(s, Depart(timedOut));
    PromptEvent(t, Depart(timedOut));
  }

  lemma PromptEvent(s: Sys, e: Event)
    requires s.c.cr == 0 && !e.Accept?
    ensures PromptStep(s, Chip(e)) == s.(c := Happen(s.c.(events := 1), e))
  {
  }

  lemma ChipLeavesRx(s: Sys, e: Event)
    requires s.c.cr == 0 && !e.Accept? && !e.Arrive?
    ensures SameReceive(s, PromptStep(s, Chip(e)))
  {
    if e.Depart? {
      DepartSame(s.c, s.c, e.timedOut);
    }
  }

  lemma ChipLeavesTx(s: Sys, e: Event)
    requires s.c.cr == 0 && !e.Accept? && !e.Depart?
    ensures SameSend(s, PromptStep(s, Chip(e)))
  {
    if e.Arrive? {
      ArriveSame(s.c, s.c);
    }
  }

  lemma SenderLeavesRx(s: Sys)
    requires s.c.cr == 0
    ensures SameReceive(s, PromptStep(s, Sender))
  {
    var t := TxStep(s);
    assert OnlySends(s, t);
  }

  lemma RxLeavesTx(s: Sys)
    requires s.c.cr == 0
    ensures SameSend(s, PromptStep(s, RxTask))
  {
    if Serving(s.rx) {
      assert RxStep(s) == ServiceStep(s);
    } else if s.rx.ClrRead? || s.rx.ClrWrite? {
      assert RxStep(s) == ClearStep(s);
    } else if Draining(s.rx) {
      assert RxStep(s) == DrainStep(s);
    } else {
      assert RxStep(s) == OuterStep(s);
    }
  }

  lemma PinLeavesBoth(s: Sys)
    requires s.c.cr == 0
    ensures SameReceive(s, PromptStep(s, PinFall)) && SameSend(s, PromptStep(s, PinFall))
    ensures SameReceive(s, PromptStep(s, PinRise)) && SameSend(s, PromptStep(s, PinRise))
  {
  }

  lemma SameThenAlike(s: Sys, u: Sys, t: Sys)
    ensures SameReceive(s, u) && RxAlike(s, t) ==> RxAlike(u, t)
    ensures SameSend(s, u) && TxAlike(s, t) ==> TxAlike(u, t)
  {
  }

  lemma OthersLeaveRx(s: Sys, a: Action)
    requires s.c.cr == 0 && Mixed(s, a) && !a.RxTask? && a != Chip(Arrive)
    ensures SameReceive(s, PromptStep(s, a))
  {
    match a
    case Sender => SenderLeavesRx(s);
    case Chip(e) => ChipLeavesRx(s, e);
    case _ => PinLeavesBoth(s);
  }

  lemma OthersLeaveTx(s: Sys, a: Action)
    requires s.c.cr == 0 && Mixed(s, a) && !a.Sender? && !(a.Chip? && a.e.Depart?)
    ensures SameSend(s, PromptStep(s, a))
  {
    match a
    case RxTask => RxLeavesTx(s);
    case Chip(e) => ChipLeavesTx(s, e);
    case _ => PinLeavesBoth(s);
  }

  lemma RxTaskForRx(s: Sys, t: Sys)
    requires RxAlike(s, t) && Passing(s.rx)
    ensures var u := PromptStep(s, RxTask);
            RxAlike(u, if Draining(s.rx) then PromptStep(t, RxTask) else t)
  {
    if Draining(s.rx) {
      DrainAlike(s, t);
    } else {
      PrepareAlike(s, t);
    }
  }

  lemma StepForRx(s: Sys, t: Sys, a: Action)
    requires RxAlike(s, t) && Mixed(s, a)
    ensures RxAlike(PromptStep(s, a), if ForRx(s, a) then PromptStep(t, a) else t)
  {
    if a.RxTask? {
      RxTaskForRx(s, t);
    } else if a == Chip(Arrive) {
      ArriveAlike(s, t);
    } else {
      OthersLeaveRx(s, a);
      SameThenAlike(s, PromptStep(s, a), t);
    }
  }

  lemma StepForTx(s: Sys, t: Sys, a: Action)
    requires TxAlike(s, t) && Mixed(s, a)
    ensures TxAlike(PromptStep(s, a), if ForTx(s, a) then PromptStep(t, a) else t)
  {
    if a.Sender? {
      if s.tx.TxUpd? {
        SendPrepares(s, t);
      } else {
        SendAlike(s, t);
      }
    } else if a.Chip? && a.e.Depart? {
      DepartAlike(s, t, a.e.timedOut);
    } else {
      OthersLeaveTx(s, a);
      SameThenAlike(s, PromptStep(s, a), t);
    }
  }

  lemma {:induction false} RxProjection(s: Sys, t: Sys, actions: seq<Action>)
    requires RxAlike(s, t) && AllMixed(s, actions)
    ensures RxAlike(PromptRun(s, actions), PromptRun(t, RxPart(s, actions)))
    decreases |actions|
  {
    if actions != [] {
      var a, u := actions[0], PromptStep(s, actions[0]);
      StepForRx(s, t, a);
      var rest := RxPart(u, actions[1..]);
      if ForRx(s, a) {
        RxProjection(u, PromptStep(t, a), actions[1..]);
        assert ([a] + rest)[1..] == rest;
      } else {
        RxProjection(u, t, actions[1..]);
        assert [] + rest == rest;
      }
    }
  }

  lemma {:induction false} TxProjection(s: Sys, t: Sys, actions: seq<Action>)
    requires TxAlike(s, t) && AllMixed(s, actions)
    ensures TxAlike(PromptRun(s, actions), PromptRun(t, TxPart(s, actions)))
    decreases |actions|
  {
    if actions != [] {
      var a, u := actions[0], PromptStep(s, actions[0]);
      StepForTx(s, t, a);
      var rest := TxPart(u, actions[1..]);
      if ForTx(s, a) {
        TxProjection(u, PromptStep(t, a), actions[1..]);
        assert ([a] + rest)[1..] == rest;
      } else {
        TxProjection(u, t, actions[1..]);
        assert [] + rest == rest;
      }
    }
  }

  // ---------- the serial run ----------

  lemma {:induction false} PromptRunSplit(s: Sys, a: seq<Action>, b: seq<Action>)
    ensures PromptRun(s, a + b) == PromptRun(PromptRun(s, a), b)
    decreases |a|
  {
    if a == [] {
      assert a + b == b;
    } else {
      assert (a + b)[1..] == a[1..] + b;
      PromptRunSplit(PromptStep(s, a[0]), a[1..], b);
    }
  }

  lemma {:induction false} OnlyRxLeavesTx(s: Sys, actions: seq<Action>)
    requires s.c.cr == 0 && OnlyRx(actions)
    ensures SameSend(s, PromptRun(s, actions))
    decreases |actions|
  {
    if actions != [] {
      var u := PromptStep(s, actions[0]);
      if actions[0].RxTask? {
        RxLeavesTx(s);
      } else {
        ChipLeavesTx(s, Arrive);
      }
      OnlyRxLeavesTx(u, actions[1..]);
    }
  }

  lemma {:induction false} OnlyTxLeavesRx(s: Sys, actions: seq<Action>)
    requires s.c.cr == 0 && OnlyTx(actions)
    ensures SameReceive(s, PromptRun(s, actions))
    decreases |actions|
  {
    if actions != [] {
      var u := PromptStep(s, actions[0]);
      if actions[0].Sender? {
        SenderLeavesRx(s);
      } else {
        ChipLeavesRx(s, actions[0].e);
      }
      OnlyTxLeavesRx(u, actions[1..]);
    }
  }

  lemma RunHead(s: Sys, a: Action, rest: seq<Action>)
    ensures PromptRun(s, [a] + rest) == PromptRun(PromptStep(s, a), rest)
  {
    assert ([a] + rest)[1..] == rest;
  }

  function Alone(n: nat): (actions: seq<Action>)
    ensures OnlyRx(actions)
  {
    if n == 0 then [] else [RxTask] + Alone(n - 1)
  }

  lemma {:induction false} SoloIsRun(s: Sys, n: nat)
    ensures PromptRun(s, Alone(n)) == D.Solo(s, n)
    decreases n
  {
    if n > 0 {
      var t := D.SoloStep(s);
      D.SoloIsStep(s);
      SoloIsRun(t, n - 1);
      RunHead(s, RxTask, Alone(n - 1));
      assert D.Solo(s, n) == D.Solo(t, n - 1);
    }
  }

  /** Left alone, the pass gets to its drain, and the send to its look at Sn_SR. */
  lemma RxPrepares(s: Sys) returns (actions: seq<Action>)
    requires s.rx.SvcIr? && s.c.cr == 0
    ensures OnlyRx(actions) && RxAlike(s, PromptRun(s, actions))
  {
    var n := D.ReadySolo(s);
    SoloIsRun(s, n);
    actions := Alone(n);
  }

  function UpdPlace(p: Upd): nat {
    if p.Look? then 4 else if p.Pend? then 3 else if p.AckOk? then 2 else 1
  }

  lemma {:induction false} TxPrepares(s: Sys) returns (actions: seq<Action>)
    requires s.tx.TxUpd? && s.c.cr == 0
    ensures OnlyTx(actions) && TxAlike(s, PromptRun(s, actions)) && PromptRun(s, actions).tx.TxSr?
    decreases UpdPlace(s.tx.upd)
  {
    var t := PromptStep(s, Sender);
    UpdOnward(s);
    if t.tx.TxSr? {
      actions := [Sender];
      assert PromptRun(s, [Sender]) == PromptRun(t, []);
    } else {
      var rest := TxPrepares(t);
      actions := [Sender] + rest;
      assert actions[1..] == rest;
    }
  }

  lemma UpdOnward(s: Sys)
    requires s.tx.TxUpd? && s.c.cr == 0
    ensures var t := PromptStep(s, Sender);
            && t.c.tx == s.c.tx && t.c.sr == s.c.sr && t.sent == s.sent && t.c.cr == 0
            && (t.tx == TxSr(s.tx.frame)
                || (t.tx.TxUpd? && t.tx.frame == s.tx.frame && UpdPlace(t.tx.upd) < UpdPlace(s.tx.upd)))
  {
  }

  /** However one pass and one send are interleaved, with each other, with arrivals, departures,
      other flags and the pin: some run in which the RX task acts first, among arrivals only, and
      the sending task after it, among departures only, comes to the same frames offered, the same
      segments, pointers and ring contents, and the same outcome on both sides. */
  lemma SerialEquivalent(s: Sys, actions: seq<Action>) returns (rxFirst: seq<Action>, txThen: seq<Action>)
    requires s.rx.SvcIr? && s.tx.TxUpd? && s.c.cr == 0 && AllMixed(s, actions)
    requires var t := PromptRun(s, actions); !Preparing(t.rx) && !t.tx.TxUpd?
    ensures OnlyRx(rxFirst) && OnlyTx(txThen)
    ensures var t, u := PromptRun(s, actions), PromptRun(s, rxFirst + txThen);
            SameReceive(t, u) && SameSend(t, u)
  {
    var p := RxPrepares(s);
    var s1 := PromptRun(s, p);
    var s2 := PromptRun(s1, RxPart(s, actions));
    RxProjection(s, s1, actions);
    OnlyRxLeavesTx(s, p);
    OnlyRxLeavesTx(s1, RxPart(s, actions));

    var q := TxPrepares(s2);
    var s3 := PromptRun(s2, q);
    TxProjection(s, s3, actions);
    OnlyTxLeavesRx(s2, q);
    OnlyTxLeavesRx(s3, TxPart(s, actions));

    rxFirst := p + RxPart(s, actions);
    txThen := q + TxPart(s, actions);
    PromptRunSplit(s, p, RxPart(s, actions));
    PromptRunSplit(s2, q, TxPart(s, actions));
    PromptRunSplit(s, rxFirst, txThen);
  }

  // ---------- where promptness is needed ----------

  lemma SendIs(c: State)
    ensures Commanded(c, CR_SEND).rx == c.rx && Commanded(c, CR_SEND).tx == AcceptSend(c.tx)
  {
  }

  lemma RecvIs(c: State)
    ensures Commanded(c, CR_RECV).tx == c.tx
    ensures Commanded(c, CR_RECV).rx == if Ahead(c.rx) <= Rsr(c.rx) then Commit(c.rx) else c.rx
  {
  }

  lemma SendCommandIs(s: Sys)
    requires s.tx.TxCommand?
    ensures Settled(TxStep(s)) == s.(c := Commanded(s.c, CR_SEND), tx := TxWait(s.tx.frame))
  {
  }

  /** The two sides of the chip. */
  predicate SameRings(s: Sys, t: Sys) { s.c.rx == t.c.rx && s.c.tx == t.c.tx }

  /** A write of Sn_CR replaces the command in it, carried out or not: so it is assumed here. A SEND
      written by the sending task has the effect it has on a chip that takes over each command at
      once, if and only if no command is pending when it is written. A pending RECV, which the RX
      task issues with Sn_RX_RD ahead only, is lost by it: the record stays in the ring. */
  lemma SendOverPending(s: Sys)
    requires s.tx.TxCommand? && (s.c.cr == 0 || (s.c.cr == CR_RECV && Ahead(s.c.rx) > 0))
    ensures var late, prompt := Settled(TxStep(s)), Settled(TxStep(Settled(s)));
            && (SameRings(late, prompt) <==> s.c.cr == 0)
            && (s.c.cr == CR_RECV ==> late.c.rx == s.c.rx && prompt.c.rx == Commit(s.c.rx))
  {
    var t := Settled(s);
    SendIs(s.c);
    SendIs(t.c);
    SendCommandIs(s);
    SendCommandIs(t);
  }

  /** Likewise a RECV written by the RX task. A pending SEND is lost by it: no segment is
      accepted. */
  lemma RecvOverPending(s: Sys)
    requires s.rx.RcvCommand? && (s.c.cr == 0 || s.c.cr == CR_SEND)
    ensures var late, prompt := Settled(DrainStep(s)), Settled(DrainStep(Settled(s)));
            && (SameRings(late, prompt) <==> s.c.cr == 0)
            && (s.c.cr == CR_SEND ==> late.c.tx == s.c.tx && prompt.c.tx == AcceptSend(s.c.tx))
  {
    var t := Settled(s);
    RecvIs(s.c);
    RecvIs(t.c);
    CommandIs(s);
    CommandIs(t);
  }

  /** And the sending task, which sees Sn_CR read 0, returns ESP_OK for a frame that the chip has
      not accepted. */
  lemma LateSendIsLost(s: Sys)
    requires s.c.cr == CR_SEND && s.rx.RcvCommand? && s.tx.TxWait?
    ensures var t := TxStep(Settled(DrainStep(s)));
            && t.tx == Sent(Ok) && t.sent == s.sent + [s.tx.frame]
            && t.c.tx.outbox == s.c.tx.outbox
  {
    RecvIs(s.c);
    CommandIs(s);
  }
}

/** Non-interference on a chip that takes its time over commands: all that is needed is that no
    task writes Sn_CR while a command is pending. */
module Overlap {
  import opened Ring
  import opened W5500
  import opened Machine
  import opened Interleaving
  import opened Serial

  /** A write of Sn_CR over a pending command. */
  predicate Clashes(s: Sys, a: Action) {
    s.c.cr != 0 && ((a.RxTask? && s.rx.RcvCommand?) || (a.Sender? && s.tx.TxCommand?))
  }

  /** What a pass and a send are interleaved with, the acceptance of commands now among it. */
  predicate Free(s: Sys, a: Action) {
    (Mixed(s, a) || a == Chip(Accept)) && !Clashes(s, a)
  }

  predicate AllFree(s: Sys, actions: seq<Action>)
    decreases |actions|
  {
    actions == [] || (Free(s, actions[0]) && AllFree(Step(s, actions[0]), actions[1..]))
  }

  /** A pending command is waited for by the task that issued it. The count of events plays no part
      in the machine. */
  predicate Owned(s: Sys) {
    && s.c.events == 0
    && (s.c.cr == 0 || (s.c.cr == CR_RECV && s.rx.RcvWait?) || (s.c.cr == CR_SEND && s.tx.TxWait?))
  }

  /** The steps that do nothing but wait for the chip, or that a chip with a command behind it would
      already have made room for. */
  predicate Waits(s: Sys, a: Action) {
    match a
    case RxTask => s.c.cr != 0 && s.rx.RcvWait?
    case Sender => s.c.cr != 0 && s.tx.TxWait?
    case Chip(Accept) => true
    case Chip(Arrive) => s.c.cr != 0 && !(s.c.sr == SOCK_MACRAW && Fits(s.c.rx))
    case Chip(Depart(_)) => s.c.cr != 0 && s.c.tx.left == |s.c.tx.outbox|
    case _ => false
  }

  lemma TasksWait(s: Sys)
    requires s.c.cr != 0
    ensures s.rx.RcvWait? ==> RxStep(s) == s
    ensures s.tx.TxWait? ==> TxStep(s) == s
  {
  }

  lemma ChipWaits(c: State, e: Event)
    requires c.events == 0
    requires match e
             case Accept => true
             case Arrive => !(c.sr == SOCK_MACRAW && Fits(c.rx))
             case Depart(_) => c.tx.left == |c.tx.outbox|
             case _ => false
    ensures Happen(c.(events := 1), e) == if e.Accept? && c.cr != 0 then Accepted(c) else c
  {
  }

  lemma WaitChangesNothing(s: Sys, a: Action)
    requires Owned(s) && Waits(s, a)
    ensures Settled(Step(s, a)) == Settled(s) && Owned(Step(s, a))
  {
    if a.Chip? {
      ChipWaits(s.c, a.e);
    } else {
      TasksWait(s);
    }
  }

  // ---------- steps that commute with the acceptance ----------

  lemma CommitFits(x: Rx)
    requires RxValid(x) && Ahead(x) <= Rsr(x) && Fits(x)
    ensures RxValid(Commit(x)) && Fits(Commit(x)) && RxValid(Publish(x)) && Ahead(Publish(x)) <= Rsr(Publish(x))
    ensures Publish(Commit(x)) == Commit(Publish(x))
  {
    CommitKeeps(x);
    PublishKeeps(x);
  }

  lemma SendDeparts(x: Tx)
    requires TxValid(x) && x.left < |x.outbox|
    ensures TxValid(AcceptSend(x)) && TxValid(Transmit(x))
    ensures Transmit(AcceptSend(x)) == AcceptSend(Transmit(x))
  {
    AcceptSendKeeps(x);
    TransmitKeeps(x);
  }

  lemma ArriveCommutes(c: State)
    requires c.events == 0 && (c.cr == CR_RECV || c.cr == CR_SEND) && c.sr == SOCK_MACRAW && Fits(c.rx)
    ensures Happen(Accepted(c).(events := 1), Arrive) == Accepted(Happen(c.(events := 1), Arrive))
  {
    if c.cr == CR_RECV {
      CommitFits(c.rx);
    }
  }

  lemma DepartCommutes(c: State, timedOut: bool)
    requires c.events == 0 && (c.cr == CR_RECV || c.cr == CR_SEND) && c.tx.left < |c.tx.outbox|
    ensures Happen(Accepted(c).(events := 1), Depart(timedOut)) == Accepted(Happen(c.(events := 1), Depart(timedOut)))
  {
    SendDeparts(c.tx);
  }

  lemma HappenCommutes(c: State, e: Event)
    requires c.events == 0 && (c.cr == CR_RECV || c.cr == CR_SEND) && !e.Accept?
    requires e.Arrive? ==> c.sr == SOCK_MACRAW && Fits(c.rx)
    requires e.Depart? ==> c.tx.left < |c.tx.outbox|
    ensures Happen(Accepted(c).(events := 1), e) == Accepted(Happen(c.(events := 1), e))
    ensures Happen(c.(events := 1), e).cr == c.cr && Happen(c.(events := 1), e).events == 0
  {
    match e
    case Arrive => ArriveCommutes(c);
    case Depart(timedOut) => DepartCommutes(c, timedOut);
    case _ =>
  }

  lemma ChipCommutes(s: Sys, e: Event)
    requires Owned(s) && s.c.cr != 0 && !e.Accept? && !Waits(s, Chip(e))
    ensures var u := s.(c := Happen(s.c.(events := 1), e));
            Owned(u) && Settled(u) == Settled(s).(c := Happen(Settled(s).c.(events := 1), e))
  {
    HappenCommutes(s.c, e);
  }

  lemma PinCommutes(s: Sys)
    requires Owned(s) && s.c.cr != 0
    ensures Settled(Fall(s)) == Fall(Settled(s)) && Owned(Fall(s))
    ensures Settled(Rise(s)) == Rise(Settled(s)) && Owned(Rise(s))
  {
  }

  lemma ServeCommutes(s: Sys)
    requires s.c.cr == CR_SEND && Serving(s.rx)
    ensures Settled(ServiceStep(s)) == ServiceStep(Settled(s))
  {
    if Handling(s.rx) {
      HandleCommutes(s);
    }
  }

  lemma UpdCommutes(s: Sys, p: Upd)
    requires s.c.cr == CR_SEND || s.c.cr == CR_RECV
    ensures Settled(UpdEffect(p, s)) == UpdEffect(p, Settled(s)) && UpdNext(p, s.c) == UpdNext(p, Settled(s).c)
    ensures UpdEffect(p, s).c.cr == s.c.cr && UpdEffect(p, s).c.events == s.c.events
  {
  }

  lemma HandleCommutes(s: Sys)
    requires s.c.cr == CR_SEND && Handling(s.rx)
    ensures Settled(HandleStep(s)) == HandleStep(Settled(s))
  {
    if s.rx.SvcUpd? {
      UpdCommutes(s, s.rx.upd);
      UpdIs(s);
      UpdIs(Settled(s));
    }
  }

  lemma UpdIs(s: Sys)
    requires s.rx.SvcUpd?
    ensures var next := UpdNext(s.rx.upd, s.c);
            HandleStep(s) ==
            UpdEffect(s.rx.upd, s).(rx := if next.Through? then SvcClearSn(s.rx.v) else SvcUpd(s.rx.v, next))
  {
  }

  lemma ClearCommutes(s: Sys)
    requires s.c.cr == CR_SEND && (s.rx.ClrRead? || s.rx.ClrWrite?)
    ensures Settled(ClearStep(s)) == ClearStep(Settled(s))
  {
  }

  lemma DrainCommutes(s: Sys)
    requires s.c.cr == CR_SEND && Draining(s.rx) && !s.rx.RcvCommand? && !s.rx.RcvWait?
    ensures Settled(DrainStep(s)) == DrainStep(Settled(s))
  {
    if Looking(s.rx) {
      LookSame(s.rx, s.c, Settled(s).c);
    }
  }

  lemma RxCommutes(s: Sys)
    requires Owned(s) && s.c.cr == CR_SEND && Passing(s.rx) && !s.rx.RcvCommand? && !s.rx.RcvWait?
    ensures Settled(RxStep(s)) == RxStep(Settled(s)) && Owned(RxStep(s))
  {
    if Serving(s.rx) {
      ServeCommutes(s);
    } else if s.rx.ClrRead? || s.rx.ClrWrite? {
      ClearCommutes(s);
    } else {
      DrainCommutes(s);
    }
  }

  lemma SenderCommutes(s: Sys)
    requires Owned(s) && s.c.cr == CR_RECV && !s.tx.TxCommand? && !s.tx.TxWait?
    ensures Settled(TxStep(s)) == TxStep(Settled(s)) && Owned(TxStep(s))
  {
    if s.tx.TxUpd? {
      UpdCommutes(s, s.tx.upd);
      TxUpdIs(s);
      TxUpdIs(Settled(s));
    } else if s.tx.TxFill? || s.tx.TxSetWr? {
      CopyCommutes(s);
    } else {
      TxLookCommutes(s);
    }
  }

  lemma TxUpdIs(s: Sys)
    requires s.tx.TxUpd?
    ensures var next := UpdNext(s.tx.upd, s.c);
            TxStep(s) ==
            UpdEffect(s.tx.upd, s).(tx := if next.Through? then TxSr(s.tx.frame) else TxUpd(s.tx.frame, next))
  {
  }

  lemma CopyCommutes(s: Sys)
    requires Owned(s) && s.c.cr == CR_RECV && (s.tx.TxFill? || s.tx.TxSetWr?)
    ensures Settled(TxStep(s)) == TxStep(Settled(s)) && Owned(TxStep(s))
  {
  }

  lemma TxLookCommutes(s: Sys)
    requires Owned(s) && s.c.cr == CR_RECV
    requires s.tx.Idle? || s.tx.TxSr? || s.tx.TxReading? || s.tx.TxRdWr? || s.tx.Sent?
    ensures Settled(TxStep(s)) == TxStep(Settled(s)) && Owned(TxStep(s))
  {
  }

  // ---------- runs ----------

  lemma RxOwned(s: Sys)
    requires Owned(s) && s.c.cr == 0
    ensures Owned(RxStep(s))
  {
    if Serving(s.rx) {
      assert RxStep(s) == ServiceStep(s);
    } else if s.rx.ClrRead? || s.rx.ClrWrite? {
      assert RxStep(s) == ClearStep(s);
    } else if Draining(s.rx) {
      DrainOwned(s);
    } else {
      assert RxStep(s) == OuterStep(s);
    }
  }

  lemma DrainOwned(s: Sys)
    requires Owned(s) && s.c.cr == 0 && Draining(s.rx)
    ensures Owned(DrainStep(s)) && RxStep(s) == DrainStep(s)
  {
  }

  lemma SenderOwned(s: Sys)
    requires Owned(s) && s.c.cr == 0
    ensures Owned(TxStep(s))
  {
  }

  lemma RxTracks(s: Sys)
    requires Owned(s) && Free(s, RxTask) && !Waits(s, RxTask)
    ensures Settled(RxStep(s)) == Settled(RxStep(Settled(s))) && Owned(RxStep(s))
  {
    if s.c.cr == 0 {
      RxOwned(s);
    } else {
      RxCommutes(s);
    }
  }

  lemma SenderTracks(s: Sys)
    requires Owned(s) && Free(s, Sender) && !Waits(s, Sender)
    ensures Settled(TxStep(s)) == Settled(TxStep(Settled(s))) && Owned(TxStep(s))
  {
    if s.c.cr == 0 {
      SenderOwned(s);
    } else {
      SenderCommutes(s);
    }
  }

  lemma ChipTracks(s: Sys, e: Event)
    requires Owned(s) && Free(s, Chip(e)) && !Waits(s, Chip(e))
    ensures var u, v := s.(c := Happen(s.c.(events := 1), e)), Settled(s).(c := Happen(Settled(s).c.(events := 1), e));
            Settled(u) == Settled(v) && Owned(u)
  {
    if s.c.cr != 0 {
      ChipCommutes(s, e);
    }
  }

  lemma PinTracks(s: Sys)
    requires Owned(s)
    ensures Settled(Fall(s)) == Settled(Fall(Settled(s))) && Owned(Fall(s))
    ensures Settled(Rise(s)) == Settled(Rise(Settled(s))) && Owned(Rise(s))
  {
    if s.c.cr != 0 {
      PinCommutes(s);
    }
  }

  /** Step by step the run is the run of a chip that takes over commands at once, less the steps
      that wait. */
  lemma StepTracks(s: Sys, a: Action)
    requires Owned(s) && Free(s, a)
    ensures Owned(Step(s, a))
    ensures Settled(Step(s, a)) == if Waits(s, a) then Settled(s) else PromptStep(Settled(s), a)
  {
    if Waits(s, a) {
      WaitChangesNothing(s, a);
    } else {
      match a
      case RxTask => RxTracks(s);
      case Sender => SenderTracks(s);
      case Chip(e) => ChipTracks(s, e);
      case PinFall => PinTracks(s);
      case PinRise => PinTracks(s);
    }
  }

  /** The steps that are not spent waiting. */
  function Effective(s: Sys, actions: seq<Action>): seq<Action>
    decreases |actions|
  {
    if actions == [] then []
    else (if Waits(s, actions[0]) then [] else [actions[0]]) + Effective(Step(s, actions[0]), actions[1..])
  }

  lemma {:induction false} RunTracks(s: Sys, actions: seq<Action>)
    requires Owned(s) && AllFree(s, actions)
    ensures PromptRun(Settled(s), Effective(s, actions)) == Settled(Run(s, actions))
    ensures AllMixed(Settled(s), Effective(s, actions))
    decreases |actions|
  {
    if actions != [] {
      var a, u := actions[0], Step(s, actions[0]);
      var rest := Effective(u, actions[1..]);
      StepTracks(s, a);
      RunTracks(u, actions[1..]);
      if Waits(s, a) {
        assert [] + rest == rest;
      } else {
        assert ([a] + rest)[1..] == rest;
      }
    }
  }

  /** The serial equivalent of a pass and a send on a chip that accepts commands at any later time,
      provided that neither task writes Sn_CR while a command is pending: once the last command has
      been carried out, everything is as after the pass first and the send then. */
  lemma SerialWithoutClashes(s: Sys, actions: seq<Action>) returns (rxFirst: seq<Action>, txThen: seq<Action>)
    requires s.rx.SvcIr? && s.tx.TxUpd? && s.c.cr == 0 && s.c.events == 0 && AllFree(s, actions)
    requires var t := Run(s, actions); !Preparing(t.rx) && !t.tx.TxUpd?
    ensures OnlyRx(rxFirst) && OnlyTx(txThen)
    ensures var t, u := Settled(Run(s, actions)), PromptRun(s, rxFirst + txThen);
            SameReceive(t, u) && SameSend(t, u)
  {
    RunTracks(s, actions);
    rxFirst, txThen := SerialEquivalent(s, Effective(s, actions));
  }
}

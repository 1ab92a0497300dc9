/** What each part of the machine gets done when it is left alone on a prompt chip: the link comes up,
    a send comes to its end, and frames that arrive get through. */
module Progress {
  import opened Words
  import opened Flags
  import opened Ring
  import opened W5500
  import opened Machine
  import opened Interleaving
  import opened Delivery
  import BringUp
  import LinkUp
  import Wakeup
  import S = Sending

  // ---------- runs ----------

  function Repeat(a: Action, n: nat): seq<Action> {
    if n == 0 then [] else [a] + Repeat(a, n - 1)
  }

  lemma RepeatNext(s: Sys, a: Action, n: nat)
    ensures PromptRun(s, Repeat(a, 0)) == s
    ensures PromptRun(s, Repeat(a, n + 1)) == PromptRun(PromptStep(s, a), Repeat(a, n))
  {
    assert Repeat(a, n + 1)[0] == a && Repeat(a, n + 1)[1..] == Repeat(a, n);
  }

  /** One task, or one kind of event, alone leads from `s` to `t`. */
  ghost predicate Alone(s: Sys, a: Action, t: Sys) {
    exists n: nat :: PromptRun(s, Repeat(a, n)) == t
  }

  lemma AloneHere(s: Sys, a: Action)
    ensures Alone(s, a, s)
  {
    RepeatNext(s, a, 0);
  }

  lemma AloneNext(s: Sys, a: Action, u: Sys, t: Sys)
    requires u == PromptStep(s, a) && Alone(u, a, t)
    ensures Alone(s, a, t)
  {
    var n: nat :| PromptRun(u, Repeat(a, n)) == t;
    RepeatNext(s, a, n);
  }

  lemma {:induction false} RunAppend(s: Sys, xs: seq<Action>, ys: seq<Action>)
    ensures PromptRun(s, xs + ys) == PromptRun(PromptRun(s, xs), ys)
    decreases |xs|
  {
    if xs == [] {
      assert [] + ys == ys;
    } else {
      assert (xs + ys)[1..] == xs[1..] + ys;
      RunAppend(PromptStep(s, xs[0]), xs[1..], ys);
    }
  }

  // ---------- the link comes up ----------

  function LinkPlace(p: LinkPc): nat {
    match p
    case Down => 16
    case Close => 15
    case CloseWait => 14
    case Flush => 13
    case Setup => 12
    case Open => 11
    case OpenWait => 10
    case CheckSr => 9
    case Mask => 8
    case WipeCommon => 7
    case WipeSn => 6
    case UnmaskSn => 5
    case SetLevel => 4
    case UnmaskAll => 3
    case PendUp => 2
    case Give => 1
    case Up => 0
  }

  predicate BeforeOpen(p: LinkPc) { LinkPlace(p) >= 11 }

  /** A link poll that began at `s0` has come to `s`, nothing else having happened. */
  predicate Rising(s0: Sys, s: Sys) {
    && s == s0.(c := s.c, notif := s.notif, link := s.link, armed := s.armed)
    && s.c.cr == 0 && s.notif >= s0.notif && LinkUp.Ready(s)
    && (if BeforeOpen(s.link) then s.c.rx == s0.c.rx && s.c.tx == s0.c.tx
        else s.c.rx == Reopened(s0.c.rx) && s.c.tx == ReopenedTx(s0.c.tx) && s.c.sr == SOCK_MACRAW)
    && (s.link.Up? ==> s.armed == s0.handle && (s0.handle ==> s.notif > s0.notif))
  }

  predicate Climbs(s0: Sys, s: Sys, t: Sys) {
    Rising(s0, t) && LinkPlace(t.link) == LinkPlace(s.link) - 1
  }

  lemma ClosingRises(s0: Sys, s: Sys)
    requires Rising(s0, s) && (s.link.Close? || s.link.CloseWait?)
    ensures Climbs(s0, s, Settled(OpenStep(s)))
  {
    LinkUp.OpenKeeps(s);
    LinkUp.OthersKeep(OpenStep(s), Settled(OpenStep(s)));
  }

  lemma ConfiguringRises(s0: Sys, s: Sys)
    requires Rising(s0, s) && (s.link.Down? || s.link.Flush? || s.link.Setup?)
    ensures Climbs(s0, s, OpenStep(s))
  {
    LinkUp.OpenKeeps(s);
  }

  lemma OpenRises(s0: Sys, s: Sys)
    requires Rising(s0, s) && s.link.Open?
    ensures Climbs(s0, s, Settled(OpenStep(s)))
  {
    LinkUp.OpenKeeps(s);
    LinkUp.OthersKeep(OpenStep(s), Settled(OpenStep(s)));
  }

  lemma OpenedRises(s0: Sys, s: Sys)
    requires Rising(s0, s) && (s.link.OpenWait? || s.link.CheckSr?)
    ensures Climbs(s0, s, Settled(OpenStep(s)))
  {
    LinkUp.OpenKeeps(s);
  }

  lemma EnableGoesOn(p: LinkPc)
    requires Enabling(p)
    ensures LinkPlace(EnableNext(p)) == LinkPlace(p) - 1
  {
  }

  lemma EnablingRises(s0: Sys, s: Sys)
    requires Rising(s0, s) && Enabling(s.link)
    ensures Climbs(s0, s, EnableStep(s))
  {
    var t := EnableStep(s);
    LinkUp.EnableKeeps(s);
    EnableGoesOn(s.link);
    assert t == s.(c := t.c, notif := t.notif, link := EnableNext(s.link));
  }

  lemma GiveRises(s0: Sys, s: Sys)
    requires Rising(s0, s) && s.link.Give?
    ensures Climbs(s0, s, Settled(LinkStep(s)))
  {
    LinkUp.LinkKeeps(s);
  }

  lemma LinkStepRises(s0: Sys, s: Sys)
    requires Rising(s0, s) && !s.link.Up?
    ensures Climbs(s0, s, Settled(LinkStep(s)))
  {
    if s.link.Open? {
      OpenRises(s0, s);
    } else if s.link.Close? || s.link.CloseWait? {
      ClosingRises(s0, s);
    } else if BeforeOpen(s.link) {
      ConfiguringRises(s0, s);
    } else if s.link.OpenWait? || s.link.CheckSr? {
      OpenedRises(s0, s);
    } else if Enabling(s.link) {
      EnablingRises(s0, s);
    } else {
      GiveRises(s0, s);
    }
  }

  lemma StepRises(s0: Sys, s: Sys)
    requires Rising(s0, s) && !s.link.Up?
    ensures Climbs(s0, s, PromptStep(s, LinkPoll))
    ensures !s.link.Open? ==> Ordinary(s, LinkPoll)
  {
    LinkStepRises(s0, s);
    assert Step(s, LinkPoll) == LinkStep(s);
  }

  /** Up to `goal`, which is Open or Up. */
  lemma {:induction false} RisesTo(s0: Sys, s: Sys, goal: LinkPc) returns (t: Sys)
    requires Rising(s0, s) && (goal.Open? || goal.Up?) && LinkPlace(goal) <= LinkPlace(s.link)
    ensures Alone(s, LinkPoll, t) && Rising(s0, t) && t.link == goal
    decreases LinkPlace(s.link)
  {
    if s.link == goal {
      t := s;
      AloneHere(s, LinkPoll);
    } else {
      var u := PromptStep(s, LinkPoll);
      StepRises(s0, s);
      t := RisesTo(s0, u, goal);
      AloneNext(s, LinkPoll, u, t);
    }
  }

  /** A link poll that samples the link up and is left alone brings it up: with the socket open and
      RECV unmasked, both rings restarted, and a notification given to the RX task if it is
      registered. */
  lemma LinkComesUp(s: Sys) returns (t: Sys)
    requires s.link.Down? && s.c.cr == 0 && LinkUp.Ready(s)
    ensures Alone(s, LinkPoll, t)
    ensures t.link.Up? && BringUp.Opened(t.c) && BringUp.Unmasked(t.c)
    ensures t.c.rx == Reopened(s.c.rx) && t.c.tx == ReopenedTx(s.c.tx)
    ensures t.armed == s.handle && (if s.handle then t.notif > s.notif else t.notif >= s.notif)
    ensures t == s.(c := t.c, notif := t.notif, link := t.link, armed := t.armed)
  {
    t := RisesTo(s, s, Up);
  }

  // ---------- the RX task registers ----------

  lemma OuterIs(s: Sys, t: Sys)
    requires s.rx.SetHandle? || s.rx.EnableGpio? || s.rx.CheckPin?
    requires t == OuterStep(s) && s.c.cr == 0
    ensures PromptStep(s, RxTask) == t
  {
    assert RxStep(s) == t;
  }

  /** An RX task that is left alone registers and waits, and has a notification if the pin is low. */
  lemma RxRegisters(s: Sys) returns (t: Sys)
    requires s.rx.SetHandle? && s.c.cr == 0
    ensures Alone(s, RxTask, t)
    ensures t == s.(handle := true, gpio := true, rx := Wait(false), notif := s.notif + if s.pinHigh then 0 else 1)
  {
    var s1 := s.(handle := true, rx := EnableGpio);
    var s2 := s1.(gpio := true, rx := CheckPin);
    t := NotifiedIfPending(s2).(rx := Wait(false));
    AloneHere(t, RxTask);
    AloneOuter(s2, t, t);
    AloneOuter(s1, s2, t);
    AloneOuter(s, s1, t);
  }

  lemma AloneOuter(s: Sys, u: Sys, t: Sys)
    requires s.rx.SetHandle? || s.rx.EnableGpio? || s.rx.CheckPin?
    requires u == OuterStep(s) && s.c.cr == 0 && Alone(u, RxTask, t)
    ensures Alone(s, RxTask, t)
  {
    OuterIs(s, u);
    AloneNext(s, RxTask, u, t);
  }

  // ---------- frames arrive ----------

  lemma ArriveStep(s: Sys)
    requires s.c.cr == 0 && s.c.sr == SOCK_MACRAW && Fits(s.c.rx)
    ensures var t := PromptStep(s, Chip(Arrive));
            && t == s.(c := t.c) && t.c.cr == 0 && t.c.sr == SOCK_MACRAW && t.c.snIr.recv
            && t.c.rx.traffic == s.c.rx.traffic && t.c.rx.taken == s.c.rx.taken
            && t.c.rx.stored == s.c.rx.stored + 1
  {
    assert Step(s, Chip(Arrive)) == s.(c := Happen(s.c.(events := 1), Arrive));
  }

  lemma NextFits(x: Rx, m: nat)
    requires RxValid(x) && x.taken == 0 && x.stored < m <= |x.traffic| && |Flat(x.traffic, m)| <= RING
    ensures Fits(x)
  {
    OpenRx(x);
    FlatPrefix(x.traffic, x.stored + 1, m);
  }

  /** The first `m` records of a session come in one after the other. */
  lemma {:induction false} ArriveAll(s: Sys, m: nat) returns (t: Sys)
    requires s.c.cr == 0 && s.c.sr == SOCK_MACRAW && s.c.rx.taken == 0
    requires s.c.rx.stored <= m <= |s.c.rx.traffic| && |Flat(s.c.rx.traffic, m)| <= RING
    ensures Alone(s, Chip(Arrive), t)
    ensures t == s.(c := t.c) && t.c.rx.traffic == s.c.rx.traffic && t.c.rx.stored == m
    decreases m - s.c.rx.stored
  {
    if s.c.rx.stored == m {
      t := s;
      AloneHere(s, Chip(Arrive));
    } else {
      NextFits(s.c.rx, m);
      var u := PromptStep(s, Chip(Arrive));
      ArriveStep(s);
      t := ArriveAll(u, m);
      AloneNext(s, Chip(Arrive), u, t);
    }
  }

  // ---------- a session ----------

  lemma OrdinaryNext(s: Sys, a: Action, xs: seq<Action>)
    requires Ordinary(s, a) && AllOrdinary(PromptStep(s, a), xs)
    ensures AllOrdinary(s, [a] + xs)
  {
    assert ([a] + xs)[1..] == xs;
  }

  lemma {:induction false} ArrivalsOrdinary(s: Sys, n: nat)
    ensures AllOrdinary(s, Repeat(Chip(Arrive), n))
    decreases n
  {
    if n > 0 {
      ArrivalsOrdinary(PromptStep(s, Chip(Arrive)), n - 1);
      OrdinaryNext(s, Chip(Arrive), Repeat(Chip(Arrive), n - 1));
    }
  }

  /** The RX task registers, and the link poll gets to OPEN. */
  lemma BringsUp(s: Sys) returns (bringUp: seq<Action>)
    requires Wakeup.Initial(s) && s.c.cr == 0
    ensures var o := PromptRun(s, bringUp);
            && o.link.Open? && o.rx == Wait(false) && o.handle && o.c.rx == s.c.rx && o.offered == s.offered
            && Rising(o.(link := Down), o)
  {
    var r := RxRegisters(s);
    var o := RisesTo(r, r, Open);
    var m: nat :| PromptRun(s, Repeat(RxTask, m)) == r;
    var n: nat :| PromptRun(r, Repeat(LinkPoll, n)) == o;
    bringUp := Repeat(RxTask, m) + Repeat(LinkPoll, n);
    RunAppend(s, Repeat(RxTask, m), Repeat(LinkPoll, n));
  }

  /** In the course of `traffic` the link has come up, with a notification for the RX task, and the
      first `m` records have come in. */
  predicate Fills(b: Sys, traffic: seq<Action>, m: nat) {
    AllOrdinary(b, traffic)
    && var t := PromptRun(b, traffic);
       && t.link.Up? && t.armed && t.notif > 0 && t.c.rx.stored == m
       && t.rx == b.rx && t.c.rx.traffic == b.c.rx.traffic
  }

  lemma FillsNext(s: Sys, a: Action, u: Sys, xs: seq<Action>, m: nat)
    requires u == PromptStep(s, a) && Ordinary(s, a) && Fills(u, xs, m)
    requires u.rx == s.rx && u.c.rx.traffic == s.c.rx.traffic
    ensures Fills(s, [a] + xs, m)
  {
    OrdinaryNext(s, a, xs);
    assert ([a] + xs)[1..] == xs;
  }

  lemma FillsHere(s: Sys, m: nat) returns (traffic: seq<Action>)
    requires s.link.Up? && s.armed && s.notif > 0 && s.c.cr == 0 && s.c.sr == SOCK_MACRAW
    requires s.c.rx.taken == s.c.rx.stored == 0 && m <= |s.c.rx.traffic| && |Flat(s.c.rx.traffic, m)| <= RING
    ensures Fills(s, traffic, m)
  {
    var t := ArriveAll(s, m);
    var k: nat :| PromptRun(s, Repeat(Chip(Arrive), k)) == t;
    ArrivalsOrdinary(s, k);
    traffic := Repeat(Chip(Arrive), k);
  }

  /** From OPEN on. */
  lemma {:induction false} GoesUp(s0: Sys, s: Sys, m: nat) returns (traffic: seq<Action>)
    requires Rising(s0, s) && !BeforeOpen(s.link) && s0.handle
    requires m <= |s.c.rx.traffic| && |Flat(s.c.rx.traffic, m)| <= RING
    ensures Fills(s, traffic, m)
    decreases LinkPlace(s.link)
  {
    if s.link.Up? {
      traffic := FillsHere(s, m);
    } else {
      var u := PromptStep(s, LinkPoll);
      StepRises(s0, s);
      traffic := GoesUp(s0, u, m);
      FillsNext(s, LinkPoll, u, traffic, m);
      traffic := [LinkPoll] + traffic;
    }
  }

  /** Sessions as in Delivery.Session exist, and frames get through in them: from power-up there is a
      way for the link to come up and any number of records to arrive that the ring holds, and the
      notification of the link-up then brings every one of them to the stack. */
  lemma FramesGetThrough(s: Sys, m: nat) returns (bringUp: seq<Action>, traffic: seq<Action>, n: nat)
    requires Wakeup.Initial(s) && s.c.cr == 0 && AllRecords(NextSession(s.c.rx))
    requires m <= |NextSession(s.c.rx)| && |Flat(NextSession(s.c.rx), m)| <= RING
    requires forall i | 0 <= i < m :: WellFormed(NextSession(s.c.rx)[i])
    ensures Session(s, bringUp, traffic)
    ensures var t := PromptRun(OpenedBy(s, bringUp), traffic);
            var u := Solo(t, n);
            && t.link.Up? && t.armed && t.c.rx.stored == m
            && u.rx.Level? && Rsr(u.c.rx) == 0 && u.offered == s.offered + Frames(NextSession(s.c.rx)[..m])
  {
    bringUp := BringsUp(s);
    var o := PromptRun(s, bringUp);
    var b := PromptStep(o, LinkPoll);
    OpenRestarts(o);
    StepRises(o.(link := Down), o);
    traffic := GoesUp(o.(link := Down), b, m);
    var carried, last;
    carried, n, last := EveryFrameIsDelivered(s, bringUp, traffic);
    assert b.offered + carried == s.offered;
  }

  // ---------- a send comes to its end ----------

  /** What a send that is left alone returns. */
  function Verdict(s: Sys, frame: seq<byte>): Err {
    if frame == [] then InvalidArg
    else if s.c.sr != SOCK_MACRAW then InvalidState
    else if Fsr(s.c.tx) < |frame| then NoMem
    else Ok
  }

  function UpdPlace(p: Upd): nat { if p.Look? then 3 else if p.Pend? then 2 else if p.AckOk? then 1 else 0 }

  function SendPlace(p: TxPc): nat {
    match p
    case TxUpd(_, q) => 11 + UpdPlace(q)
    case TxSr(_) => 10
    case TxReading(_, q) => 5 + (if q.Hi1? then 4 else if q.Lo1? then 3 else if q.Hi2? then 2 else 1)
    case TxRdWr(_) => 5
    case TxFill(_, _) => 4
    case TxSetWr(_, _) => 3
    case TxCommand(_) => 2
    case TxWait(_) => 1
    case _ => 0
  }

  /** A send of `frame` that is under way, or has ended, and is going to return `err`. */
  predicate OnCourse(s: Sys, frame: seq<byte>, err: Err) {
    match s.tx
    case Idle => false
    case TxUpd(f, p) => f == frame && frame != [] && err == Verdict(s, frame) && !p.Through?
    case TxSr(f) => f == frame && frame != [] && err == Verdict(s, frame)
    case TxReading(f, q) =>
      && f == frame && frame != [] && s.c.sr == SOCK_MACRAW && err == Verdict(s, frame)
      && ReadFresh(q, Fsr(s.c.tx))
    case Sent(e) => e == err
    case _ => s.tx.frame == frame && err == Ok
  }

  /** One step on. */
  predicate GoesOn(s: Sys, t: Sys, frame: seq<byte>, err: Err) {
    && OnCourse(t, frame, err) && SendPlace(t.tx) < SendPlace(s.tx)
    && (t.tx.Sent? && err.Ok? ==> s.tx.TxWait?)
    && t.sent == s.sent + (if s.tx.TxWait? then [frame] else [])
  }

  lemma UpdGoesOn(s: Sys, frame: seq<byte>, err: Err)
    requires OnCourse(s, frame, err) && s.tx.TxUpd?
    ensures GoesOn(s, TxStep(s), frame, err)
  {
  }

  lemma SrGoesOn(s: Sys, frame: seq<byte>, err: Err)
    requires OnCourse(s, frame, err) && s.tx.TxSr?
    ensures GoesOn(s, TxStep(s), frame, err)
  {
  }

  lemma ReadGoesOn(s: Sys, frame: seq<byte>, err: Err)
    requires OnCourse(s, frame, err) && s.tx.TxReading?
    ensures GoesOn(s, TxStep(s), frame, err)
  {
    var q := StableStep(s.tx.stable, Fsr(s.c.tx));
    FreshReadEnds(s.tx.stable, Fsr(s.c.tx));
    assert TxStep(s) == s.(tx := AfterTxRead(frame, q));
  }

  lemma CopyGoesOn(s: Sys, frame: seq<byte>, err: Err)
    requires OnCourse(s, frame, err) && (s.tx.TxRdWr? || s.tx.TxFill? || s.tx.TxSetWr?)
    ensures GoesOn(s, TxStep(s), frame, err)
  {
  }

  lemma CommandGoesOn(s: Sys, frame: seq<byte>, err: Err)
    requires OnCourse(s, frame, err) && (s.tx.TxCommand? || s.tx.TxWait?) && s.c.cr == 0
    ensures GoesOn(s, Settled(TxStep(s)), frame, err)
  {
  }

  lemma SendGoesOn(s: Sys, frame: seq<byte>, err: Err)
    requires OnCourse(s, frame, err) && !s.tx.Sent? && s.c.cr == 0
    ensures GoesOn(s, PromptStep(s, Sender), frame, err)
  {
    assert Step(s, Sender) == TxStep(s);
    match s.tx
    case TxUpd(_, _) => UpdGoesOn(s, frame, err);
    case TxSr(_) => SrGoesOn(s, frame, err);
    case TxReading(_, _) => ReadGoesOn(s, frame, err);
    case TxCommand(_) => CommandGoesOn(s, frame, err);
    case TxWait(_) => CommandGoesOn(s, frame, err);
    case _ => CopyGoesOn(s, frame, err);
  }

  lemma {:induction false} SendEnds(s: Sys, frame: seq<byte>, err: Err, before: seq<seq<byte>>, n: nat)
    returns (t: Sys)
    requires S.Sending(s, before, n) && OnCourse(s, frame, err)
    ensures Alone(s, Sender, t) && S.Sending(t, before, n) && t.tx == Sent(err)
    ensures t.sent == s.sent + if err.Ok? && !s.tx.Sent? then [frame] else []
    decreases SendPlace(s.tx), 1
  {
    if s.tx.Sent? {
      t := s;
      AloneHere(s, Sender);
    } else {
      SendGoesOn(s, frame, err);
      S.SenderSends(s, before, n);
      t := SendEndsFrom(s, PromptStep(s, Sender), frame, err, before, n);
      AloneNext(s, Sender, PromptStep(s, Sender), t);
    }
  }

  lemma {:induction false} SendEndsFrom(s: Sys, u: Sys, frame: seq<byte>, err: Err, before: seq<seq<byte>>, n: nat)
    returns (t: Sys)
    requires S.Sending(u, before, n) && GoesOn(s, u, frame, err) && OnCourse(s, frame, err) && !s.tx.Sent?
    ensures Alone(u, Sender, t) && S.Sending(t, before, n) && t.tx == Sent(err)
    ensures t.sent == s.sent + if err.Ok? then [frame] else []
    decreases SendPlace(s.tx), 0
  {
    t := SendEnds(u, frame, err, before, n);
  }

  /** A send that is called and left alone ends: with ESP_OK if the socket is open and the frame
      fits, and then the chip has accepted exactly the frame; otherwise with the error that belongs to
      the cause, and nothing is accepted. */
  lemma SendComesToItsEnd(s: Sys, frame: seq<byte>, before: seq<seq<byte>>, n: nat) returns (t: Sys)
    requires S.Sending(s, before, n) && (s.tx.Idle? || s.tx.Sent?)
    ensures Alone(PromptStep(s, Begin(frame)), Sender, t) && t.tx == Sent(Verdict(s, frame))
    ensures var ok := if Verdict(s, frame).Ok? then [frame] else [];
            t.sent == s.sent + ok && t.c.tx.outbox == s.c.tx.outbox + ok
  {
    var u := PromptStep(s, Begin(frame));
    SendBegins(s, frame);
    S.BeginSends(s, frame, before, n);
    t := SendEnds(u, frame, Verdict(s, frame), before, n);
    DueGrows(s, t, before, n, if Verdict(s, frame).Ok? then [frame] else []);
  }

  lemma SendBegins(s: Sys, frame: seq<byte>)
    requires s.c.cr == 0 && (s.tx.Idle? || s.tx.Sent?)
    ensures PromptStep(s, Begin(frame)) == s.(tx := if frame == [] then Sent(InvalidArg) else TxUpd(frame, Look))
  {
    assert Step(s, Begin(frame)) == CallStep(s, Begin(frame));
  }

  lemma DueGrows(s: Sys, t: Sys, before: seq<seq<byte>>, n: nat, ok: seq<seq<byte>>)
    requires n <= |s.sent| && t.sent == s.sent + ok
    ensures S.Due(t, before, n) == S.Due(s, before, n) + ok
  {
  }

  /** A send brings back an RX task that is deaf: it finds RECV set and the pin low, and gives it a
      notification in its second transaction. */
  lemma SendWakesDeaf(s: Sys, frame: seq<byte>)
    requires Wakeup.Inv(s) && s.link.Up? && Wakeup.Deaf(s) && s.c.cr == 0
    requires frame != [] && (s.tx.Idle? || s.tx.Sent?)
    ensures PromptStep(PromptStep(PromptStep(s, Begin(frame)), Sender), Sender).notif > 0
  {
    var s1 := s.(tx := TxUpd(frame, Look));
    var s2 := s.(tx := TxUpd(frame, Pend(s.c.snIr)));
    SendBegins(s, frame);
    UpdIs(s1, s2);
    UpdIs(s2, NotifiedIfPending(s2).(tx := TxUpd(frame, AckOk(s.c.snIr))));
  }

  lemma UpdIs(s: Sys, t: Sys)
    requires s.tx.TxUpd? && s.c.cr == 0 && t == TxStep(s) && t.c.cr == 0
    ensures PromptStep(s, Sender) == t
  {
    assert Step(s, Sender) == t;
  }
}

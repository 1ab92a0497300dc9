/** What reaches the stack and the wire when the RX task, a sending task and the chip interleave
    transaction by transaction, the chip taking over a command before the next transaction. */
module Interleaving {
  import opened Words
  import opened Ring
  import opened W5500
  import opened Mac
  import opened Drain
  import opened Machine

  // ---------- a prompt chip ----------

  function Settled(s: Sys): Sys {
    if s.c.cr == 0 then s else s.(c := Accepted(s.c))
  }

  function PromptStep(s: Sys, a: Action): Sys { Settled(Step(s, a)) }

  function PromptRun(s: Sys, actions: seq<Action>): Sys
    decreases |actions|
  {
    if actions == [] then s else PromptRun(PromptStep(s, actions[0]), actions[1..])
  }

  // ---------- stable reads ----------

  /** What the bytes read so far say about a register that never went down and stands at `now`. */
  predicate StableOk(p: Stable, now: u16) {
    match p
    case Lo1(_, h) => h <= Hi(now)
    case Hi2(_, v) => Hi(v) <= Hi(now) && (Hi(v) == Hi(now) ==> v <= now)
    case Lo2(_, v, h) => h == Hi(v) ==> v <= now
    case Got(v) => v <= now
    case _ => true
  }

  lemma StableLater(p: Stable, now: u16, later: u16)
    requires StableOk(p, now) && now <= later
    ensures StableOk(p, later)
  {
  }

  lemma JoinParts(h: byte, l: byte)
    ensures Hi(Join(h, l)) == h && Lo(Join(h, l)) == l
  {
  }

  lemma StableAdvances(p: Stable, now: u16)
    requires StableOk(p, now)
    ensures StableOk(StableStep(p, now), now)
  {
    match p
    case Lo1(_, h) => JoinParts(h, Lo(now));
    case Lo2(_, v, h) => JoinParts(h, Lo(now));
    case _ =>
  }

  /** A read that ends with a value other than 0 is one of a register that is not 0 by then. Less is
      asked for here, and it holds even if the register has been at 0 in between. */
  predicate NotEmpty(p: Stable, now: u16) {
    match p
    case Lo2(_, v, h) => 0 < v == Join(h, 0) ==> now > 0
    case Got(v) => v > 0 ==> now > 0
    case _ => true
  }

  lemma NotEmptyAdvances(p: Stable, now: u16)
    requires NotEmpty(p, now)
    ensures NotEmpty(StableStep(p, now), now)
  {
    if now == 0 {
      assert Hi(now) == 0 && Lo(now) == 0;
    }
  }

  // ---------- the receive side ----------

  predicate AtRecord(c: State, k: nat) {
    Aligned(c, k) && k < c.rx.stored
  }

  /** Sn_RX_RD has been moved over the `k`-th record, which is still in the ring. */
  predicate Moved(c: State, k: nat) {
    && c.cr == 0 && k < c.rx.stored && c.rx.taken == |Flat(c.rx.traffic, k)|
    && Ahead(c.rx) == |c.rx.traffic[k]| <= Rsr(c.rx)
    && c.rx.rdReg == Add16(RdPtr(c.rx), |c.rx.traffic[k]|)
  }

  /** Where the RX task is when exactly the first `k` records have been offered. */
  predicate RxPlace(p: RxPc, c: State, k: nat) {
    match p
    case Reading(inner, q) => Aligned(c, k) && (inner ==> NotEmpty(q, Rsr(c.rx)))
    case RcvSr => Aligned(c, k)
    case RcvRd(_) => AtRecord(c, k)
    case RcvHeader(_, rd) => AtRecord(c, k) && rd == c.rx.rdReg
    case RcvBody(rd, n) =>
      AtRecord(c, k) && rd == c.rx.rdReg && HEADER + n == |c.rx.traffic[k]| && WellFormed(c.rx.traffic[k])
    case RcvSetRd(rd, frame) => AtRecord(c, k) && rd == c.rx.rdReg && IsFrame(c, k, frame)
    case RcvCommand(frame) => Moved(c, k) && IsFrame(c, k, frame)
    case RcvWait(frame) => Aligned(c, k + 1) && IsFrame(c, k, frame)
    case _ => Aligned(c, k)
  }

  predicate IsFrame(c: State, k: nat, frame: seq<byte>) {
    k < |c.rx.traffic| && WellFormed(c.rx.traffic[k]) && frame == c.rx.traffic[k][HEADER..]
  }

  /** The chip moving on does not disturb that. */
  lemma RxPlaceLater(p: RxPc, a: State, b: State, k: nat)
    requires RxPlace(p, a, k) && Extends(a, b) && a.cr == 0
    ensures RxPlace(p, b, k)
  {
    RxGrowsLive(a.rx, b.rx);
  }

  lemma AfterReadPlace(inner: bool, p: Stable, c: State, k: nat)
    requires RxPlace(Reading(inner, p), c, k) && AllRecords(c.rx.traffic)
    ensures RxPlace(AfterRead(inner, p), c, k)
  {
    FrontRecord(c, k);
  }

  lemma ReadPlace(inner: bool, p: Stable, c: State, k: nat)
    requires RxPlace(Reading(inner, p), c, k) && AllRecords(c.rx.traffic)
    ensures RxPlace(AfterRead(inner, StableStep(p, Rsr(c.rx))), c, k)
  {
    if inner {
      NotEmptyAdvances(p, Rsr(c.rx));
    }
    AfterReadPlace(inner, StableStep(p, Rsr(c.rx)), c, k);
  }

  lemma RecordInRing(c: State, k: nat)
    requires AtRecord(c, k) && AllRecords(c.rx.traffic)
    ensures |c.rx.traffic[k]| <= Rsr(c.rx) && c.rx.traffic[k] <= Live(c.rx)
  {
    FrontRecord(c, k);
  }

  /** The header of the record at the front, whatever follows the record. */
  lemma HeaderBytes(c: State, k: nat)
    requires AtRecord(c, k) && AllRecords(c.rx.traffic)
    ensures ReadRing(c.rx.mem, c.rx.rdReg, HEADER) == c.rx.traffic[k][..HEADER]
  {
    RecordInRing(c, k);
    LiveAt(c, c, 0, HEADER);
  }

  lemma HeaderOf(c: State, r: seq<byte>, remain: u16)
    requires IsRecord(r) && ReadRing(c.rx.mem, c.rx.rdReg, HEADER) == r[..HEADER]
    ensures AfterHeader(c, remain, c.rx.rdReg) ==
            if WellFormed(r) && |r| <= remain then RcvBody(c.rx.rdReg, |r| - HEADER) else Wait(true)
  {
    assert r[..HEADER][0] == r[0] && r[..HEADER][1] == r[1];
  }

  lemma HeaderPlace(c: State, k: nat, remain: u16)
    requires AtRecord(c, k) && AllRecords(c.rx.traffic)
    ensures var r := c.rx.traffic[k];
            AfterHeader(c, remain, c.rx.rdReg) ==
            if WellFormed(r) && |r| <= remain then RcvBody(c.rx.rdReg, |r| - HEADER) else Wait(true)
  {
    HeaderBytes(c, k);
    HeaderOf(c, c.rx.traffic[k], remain);
  }

  lemma BodyPlace(c: State, k: nat)
    requires AtRecord(c, k) && AllRecords(c.rx.traffic)
    ensures ReadRing(c.rx.mem, Add16(c.rx.rdReg, HEADER), |c.rx.traffic[k]| - HEADER) == c.rx.traffic[k][HEADER..]
  {
    ParseFront(c, k);
    LiveAt(c, c, HEADER, |c.rx.traffic[k]| - HEADER);
  }

  lemma MovePlace(c: State, k: nat)
    requires AtRecord(c, k) && AllRecords(c.rx.traffic)
    ensures Moved(WriteRd(c, Add16(c.rx.rdReg, |c.rx.traffic[k]|)), k)
  {
    ParseFront(c, k);
    SubAdd(c.rx.rdReg, |c.rx.traffic[k]|);
  }

  lemma CommandPlace(c: State, k: nat)
    requires Moved(c, k)
    ensures Aligned(Accepted(WriteCommand(c, CR_RECV)), k + 1)
  {
    CommitKeeps(c.rx);
  }

  /** How many records have been offered after one more action. */
  function Next(s: Sys, a: Action, k: nat): nat {
    if a.RxTask? && s.rx.RcvWait? then k + 1 else k
  }

  predicate Following(s: Sys, k: nat) {
    AllRecords(s.c.rx.traffic) && s.c.cr == 0 && RxPlace(s.rx, s.c, k)
  }

  predicate Follows(s: Sys, t: Sys, k: nat, l: nat) {
    && Following(t, l) && t.c.rx.traffic == s.c.rx.traffic && k <= l <= k + 1 <= |s.c.rx.traffic| + 1
    && l <= |s.c.rx.traffic| && (l > k ==> WellFormed(s.c.rx.traffic[k]))
    && t.offered == s.offered + (if l == k then [] else [s.c.rx.traffic[k][HEADER..]])
  }

  lemma LookPlace(p: RxPc, c: State, k: nat)
    requires RxPlace(p, c, k) && AllRecords(c.rx.traffic) && Looking(p)
    ensures RxPlace(LookStep(p, c), c, k)
  {
    match p
    case Reading(inner, q) => ReadPlace(inner, q, c, k);
    case RcvSr =>
    case RcvRd(_) =>
    case RcvHeader(remain, _) => HeaderPlace(c, k, remain);
    case RcvBody(_, _) => BodyPlace(c, k);
  }

  lemma MovedFollows(s: Sys, t: Sys, k: nat)
    requires Following(s, k) && s.rx.RcvSetRd? && t.rx == RcvCommand(s.rx.frame) && Moved(t.c, k)
    requires t.c.rx.traffic == s.c.rx.traffic && t.offered == s.offered
    ensures Follows(s, Settled(t), k, k)
  {
  }

  lemma SetRdFollows(s: Sys, k: nat)
    requires Following(s, k) && s.rx.RcvSetRd?
    ensures Follows(s, Settled(DrainStep(s)), k, k)
  {
    var n := HEADER + |s.rx.frame|;
    var t := s.(c := WriteRd(s.c, Add16(s.rx.rd, n)), rx := RcvCommand(s.rx.frame));
    assert n == |s.c.rx.traffic[k]|;
    MovePlace(s.c, k);
    MovedFollows(s, t, k);
    assert DrainStep(s) == t;
  }

  lemma CommandFollows(s: Sys, k: nat)
    requires Following(s, k) && s.rx.RcvCommand?
    ensures Follows(s, Settled(DrainStep(s)), k, k)
  {
    CommandPlace(s.c, k);
  }

  lemma MoveFollows(s: Sys, k: nat)
    requires Following(s, k) && (s.rx.RcvSetRd? || s.rx.RcvCommand?)
    ensures Follows(s, Settled(RxStep(s)), k, k)
  {
    if s.rx.RcvSetRd? {
      SetRdFollows(s, k);
    } else {
      CommandFollows(s, k);
    }
    assert RxStep(s) == DrainStep(s);
  }

  /** A step that touches nothing of the receive side. */
  lemma ElsewhereFollows(s: Sys, t: Sys, k: nat)
    requires Following(s, k) && t.c.rx == s.c.rx && t.c.cr == 0 && t.offered == s.offered
    requires RxPlace(t.rx, s.c, k)
    ensures Follows(s, Settled(t), k, k)
  {
  }

  lemma DrainIsStep(s: Sys)
    requires Draining(s.rx)
    ensures PromptStep(s, RxTask) == Settled(DrainStep(s))
  {
    assert RxStep(s) == DrainStep(s);
  }

  lemma LookFollows(s: Sys, k: nat)
    requires Following(s, k) && Looking(s.rx)
    ensures Follows(s, PromptStep(s, RxTask), k, k)
  {
    LookPlace(s.rx, s.c, k);
    var t := s.(rx := LookStep(s.rx, s.c));
    assert RxStep(s) == t;
    ElsewhereFollows(s, t, k);
  }

  lemma IdleFollows(s: Sys, k: nat)
    requires Following(s, k) && !Draining(s.rx)
    ensures Follows(s, Settled(RxStep(s)), k, k)
  {
    if Serving(s.rx) {
      ElsewhereFollows(s, ServiceStep(s), k);
    } else if s.rx.ClrRead? || s.rx.ClrWrite? {
      ElsewhereFollows(s, ClearStep(s), k);
    } else {
      ElsewhereFollows(s, OuterStep(s), k);
    }
  }

  lemma OfferFollows(s: Sys, k: nat)
    requires Following(s, k) && s.rx.RcvWait?
    ensures Follows(s, PromptStep(s, RxTask), k, k + 1)
  {
    assert RxStep(s) == s.(offered := s.offered + [s.rx.frame], rx := Reading(false, Hi1(0)));
  }

  lemma RxFollows(s: Sys, k: nat)
    requires Following(s, k)
    ensures Follows(s, PromptStep(s, RxTask), k, Next(s, RxTask, k))
  {
    if s.rx.RcvSetRd? || s.rx.RcvCommand? {
      MoveFollows(s, k);
    } else if Looking(s.rx) {
      LookFollows(s, k);
    } else if s.rx.RcvWait? {
      OfferFollows(s, k);
    } else {
      IdleFollows(s, k);
    }
  }

  lemma ChipPlace(p: RxPc, c: State, e: Event, k: nat)
    requires RxPlace(p, c, k) && c.cr == 0
    ensures var d := Happen(c.(events := 1), e);
            RxPlace(p, d, k) && d.cr == 0 && d.rx.traffic == c.rx.traffic
  {
    HappenExtends(c.(events := 1), e);
    RxPlaceLater(p, c.(events := 1), Happen(c.(events := 1), e), k);
  }

  lemma ChipFollows(s: Sys, e: Event, k: nat)
    requires Following(s, k)
    ensures Follows(s, PromptStep(s, Chip(e)), k, k)
  {
    ChipPlace(s.rx, s.c, e, k);
  }

  // ---------- failures ----------

  /** A failure of the RX task leaves it where it is for exactly the records offered so far if and
      only if it does not come between the write of Sn_RX_RD and the end of RECV. There it leaves
      Sn_RX_RD moved over a record that was neither released nor offered, or a record released and
      not offered. */
  lemma FaultExact(s: Sys, timeout: bool, k: nat)
    requires Following(s, k)
    ensures Follows(s, PromptStep(s, RxFault(timeout)), k, k) <==> !s.rx.RcvCommand? && !s.rx.RcvWait?
  {
    if s.rx.RcvCommand? || s.rx.RcvWait? {
      FaultLoses(s, timeout, k);
    } else {
      FaultFollows(s, timeout, k);
    }
  }

  lemma FaultLoses(s: Sys, timeout: bool, k: nat)
    requires Following(s, k) && (s.rx.RcvCommand? || s.rx.RcvWait?)
    ensures !Following(PromptStep(s, RxFault(timeout)), k)
  {
    if s.rx.RcvCommand? {
      FaultMoves(s.c, k);
    } else {
      FaultSkips(s.c, k);
    }
    assert RxFail(s, timeout) == s.(rx := Wait(true));
  }

  lemma FaultMoves(c: State, k: nat)
    requires Moved(c, k) && AllRecords(c.rx.traffic)
    ensures !Aligned(c, k) && !InSync(c)
  {
  }

  lemma FaultSkips(c: State, k: nat)
    requires Aligned(c, k + 1) && AllRecords(c.rx.traffic)
    ensures !Aligned(c, k)
  {
    FlatPrefix(c.rx.traffic, k, k + 1);
  }

  lemma FaultFollows(s: Sys, timeout: bool, k: nat)
    requires Following(s, k) && !s.rx.RcvCommand? && !s.rx.RcvWait?
    ensures Follows(s, PromptStep(s, RxFault(timeout)), k, k)
  {
    ElsewhereFollows(s, RxFail(s, timeout), k);
  }

  // ---------- the other tasks ----------

  /** Whatever the link poll does but OPEN leaves both rings and both tasks alone. */
  lemma LinkLeaves(s: Sys)
    requires s.c.cr == 0 && !s.link.Open?
    ensures var t := Settled(LinkStep(s));
            && t.c.rx == s.c.rx && t.c.tx == s.c.tx && t.c.cr == 0
            && t.rx == s.rx && t.tx == s.tx && t.offered == s.offered && t.sent == s.sent
  {
    var t := LinkStep(s);
    if Opening(s.link) {
      assert t == OpenStep(s);
    } else if Enabling(s.link) {
      assert t == EnableStep(s);
    }
  }

  /** Nothing of the receive side is touched. */
  predicate LeavesRx(s: Sys, t: Sys) {
    t.c.rx == s.c.rx && t.c.cr == 0 && t.rx == s.rx && t.offered == s.offered
  }

  lemma CallLeaves(s: Sys, link: LinkPc, tx: TxPc)
    requires s.c.cr == 0
    ensures LeavesRx(s, Settled(s.(link := link, tx := tx)))
  {
  }

  lemma CallsLeave(s: Sys, a: Action)
    requires s.c.cr == 0 && (a.Begin? || a.LinkFault? || a.LinkDrop?)
    ensures LeavesRx(s, PromptStep(s, a))
  {
    var t := CallStep(s, a);
    CallLeaves(s, t.link, t.tx);
    assert Step(s, a) == t;
  }

  lemma SenderLeaves(s: Sys)
    requires s.c.cr == 0
    ensures LeavesRx(s, Settled(TxStep(s)))
  {
  }

  lemma PinLeaves(s: Sys)
    requires s.c.cr == 0
    ensures LeavesRx(s, Settled(Fall(s))) && LeavesRx(s, Settled(Rise(s)))
  {
  }

  lemma OthersLeave(s: Sys, a: Action)
    requires s.c.cr == 0 && !a.RxTask? && !a.RxFault? && !a.Chip? && (a.LinkPoll? ==> !s.link.Open?)
    ensures LeavesRx(s, PromptStep(s, a))
  {
    match a
    case Sender => SenderLeaves(s);
    case SenderFault(timeout) => CallLeaves(s, s.link, TxFail(s, timeout).tx);
    case LinkPoll => LinkLeaves(s);
    case PinFall => PinLeaves(s);
    case PinRise => PinLeaves(s);
    case _ => CallsLeave(s, a);
  }

  /** OPEN restarts both rings. */
  lemma OpenRestarts(s: Sys)
    requires s.c.cr == 0 && s.link.Open?
    ensures var t := PromptStep(s, LinkPoll);
            && t.c.rx == Reopened(s.c.rx) && t.c.tx == ReopenedTx(s.c.tx) && t.c.cr == 0
            && t == s.(c := t.c, link := OpenWait)
  {
  }

  /** The steps that keep delivery exact: a failure of the RX task does not come between the write
      of Sn_RX_RD and the end of RECV, and the socket is not opened again. */
  predicate Ordinary(s: Sys, a: Action) {
    && (a.RxFault? ==> !s.rx.RcvCommand? && !s.rx.RcvWait?)
    && (a.LinkPoll? ==> !s.link.Open?)
  }

  lemma StepFollows(s: Sys, a: Action, k: nat)
    requires Following(s, k) && Ordinary(s, a)
    ensures Follows(s, PromptStep(s, a), k, Next(s, a, k))
  {
    match a
    case RxTask => RxFollows(s, k);
    case RxFault(timeout) => FaultFollows(s, timeout, k);
    case Chip(e) => ChipFollows(s, e, k);
    case _ => OthersLeave(s, a); ElsewhereFollows(s, PromptStep(s, a), k);
  }

  predicate AllOrdinary(s: Sys, actions: seq<Action>)
    decreases |actions|
  {
    actions == [] || (Ordinary(s, actions[0]) && AllOrdinary(PromptStep(s, actions[0]), actions[1..]))
  }

  /** Between `s` and `t` records `i` to `j` were offered, all of them of frames that the driver
      accepts. */
  predicate Delivered(s: Sys, t: Sys, i: nat, j: nat) {
    && Following(t, j) && t.c.rx.traffic == s.c.rx.traffic && i <= j <= |t.c.rx.traffic|
    && t.offered == s.offered + Frames(t.c.rx.traffic[i..j])
    && forall k | i <= k < j :: WellFormed(t.c.rx.traffic[k])
  }

  lemma DeliveredNext(s: Sys, t: Sys, u: Sys, i: nat, j: nat, k: nat)
    requires Follows(s, t, i, j) && Delivered(t, u, j, k) && i <= |s.c.rx.traffic|
    ensures Delivered(s, u, i, k)
  {
    var rs := s.c.rx.traffic;
    if i < j {
      assert Frames(rs[i..k]) == [rs[i][HEADER..]] + Frames(rs[j..k]);
    }
  }

  lemma DeliveredTrans(s: Sys, t: Sys, u: Sys, i: nat, j: nat, k: nat)
    requires Following(t, j) && t.c.rx.traffic == s.c.rx.traffic && i <= j <= |t.c.rx.traffic|
    requires t.offered == s.offered + Frames(s.c.rx.traffic[i..j]) && Delivered(t, u, j, k)
    requires forall n | i <= n < j :: WellFormed(s.c.rx.traffic[n])
    ensures Delivered(s, u, i, k)
  {
    FramesSplit(s.c.rx.traffic, i, j, k);
  }

  /** Exactly-once delivery in order. Whatever the interleaving, what has been offered to the
      stack is the frames of the records from the first one on, each once and in order. */
  lemma {:induction false} DeliversInOrder(s: Sys, actions: seq<Action>, first: nat) returns (last: nat)
    requires Following(s, first) && AllOrdinary(s, actions) && first <= |s.c.rx.traffic|
    ensures Delivered(s, PromptRun(s, actions), first, last)
    decreases |actions|
  {
    if actions == [] {
      assert s.c.rx.traffic[first..first] == [];
      last := first;
    } else {
      var u, mid := PromptStep(s, actions[0]), Next(s, actions[0], first);
      StepFollows(s, actions[0], first);
      last := DeliversInOrder(u, actions[1..], mid);
      DeliveredNext(s, u, PromptRun(u, actions[1..]), first, mid, last);
    }
  }

  // ---------- a record is lost ----------

  /** The failure at the wait for RECV: the record is released and not offered, and delivery goes on
      with the next one. */
  lemma WaitFaultLoses(s: Sys, timeout: bool, actions: seq<Action>, k: nat) returns (last: nat)
    requires Following(s, k) && s.rx.RcvWait? && AllOrdinary(PromptStep(s, RxFault(timeout)), actions)
    ensures Delivered(s, PromptRun(PromptStep(s, RxFault(timeout)), actions), k + 1, last)
  {
    var t := PromptStep(s, RxFault(timeout));
    assert RxFail(s, timeout) == s.(rx := Wait(true));
    last := DeliversInOrder(t, actions, k + 1);
    DeliveredFrom(s, t, PromptRun(t, actions), k + 1, last);
  }

  lemma DeliveredFrom(s: Sys, t: Sys, u: Sys, i: nat, j: nat)
    requires Delivered(t, u, i, j) && t.offered == s.offered && t.c.rx.traffic == s.c.rx.traffic
    ensures Delivered(s, u, i, j)
  {
  }

  /** Sn_RX_RD has been moved over the `k`-th record and the next one, both still in the ring. */
  predicate MovedTwice(c: State, k: nat) {
    && c.cr == 0 && k + 1 < c.rx.stored && c.rx.taken == |Flat(c.rx.traffic, k)|
    && Ahead(c.rx) == |c.rx.traffic[k]| + |c.rx.traffic[k + 1]| <= Rsr(c.rx)
    && c.rx.rdReg == Add16(RdPtr(c.rx), |c.rx.traffic[k]| + |c.rx.traffic[k + 1]|)
  }

  /** Where the RX task is when the `k`-th record has been passed over and the RECV for it was never
      issued, another record being in the ring. */
  predicate BehindPlace(p: RxPc, c: State, k: nat) {
    k + 1 < c.rx.stored &&
    match p
    case RcvHeader(_, rd) => Moved(c, k) && rd == c.rx.rdReg
    case RcvBody(rd, n) =>
      Moved(c, k) && rd == c.rx.rdReg && HEADER + n == |c.rx.traffic[k + 1]| && WellFormed(c.rx.traffic[k + 1])
    case RcvSetRd(rd, frame) => Moved(c, k) && rd == c.rx.rdReg && IsFrame(c, k + 1, frame)
    case RcvCommand(frame) => MovedTwice(c, k) && IsFrame(c, k + 1, frame)
    case RcvWait(_) => false
    case _ => Moved(c, k)
  }

  predicate Behind(s: Sys, k: nat) {
    AllRecords(s.c.rx.traffic) && s.c.cr == 0 && BehindPlace(s.rx, s.c, k)
  }

  /** One action later the next record is still to be read, or is as good as delivered. */
  predicate BehindNext(s: Sys, t: Sys, k: nat) {
    && t.offered == s.offered && t.c.rx.traffic == s.c.rx.traffic
    && (Behind(t, k) || Following(t, k + 1))
  }

  lemma SecondRecord(c: State, k: nat)
    requires Moved(c, k) && k + 1 < c.rx.stored && AllRecords(c.rx.traffic)
    ensures var n, m := |c.rx.traffic[k]|, |c.rx.traffic[k + 1]|;
            n + m <= Rsr(c.rx) && Live(c.rx)[n..n + m] == c.rx.traffic[k + 1]
  {
    OpenRx(c.rx);
    var rs, p, n, m := c.rx.traffic, c.rx.taken, |c.rx.traffic[k]|, |c.rx.traffic[k + 1]|;
    var two := Flat(rs, k + 2);
    FlatPrefix(rs, k + 2, c.rx.stored);
    assert two == Flat(rs, k) + rs[k] + rs[k + 1];
    PrefixSlice(Flat(rs, c.rx.stored), two, p, n, m);
    assert two[p + n..] == rs[k + 1];
  }

  lemma PrefixSlice(all: seq<byte>, two: seq<byte>, p: nat, n: nat, m: nat)
    requires two <= all && |two| == p + n + m
    ensures all[p..][n..n + m] == two[p + n..]
  {
  }

  lemma AddAdd(p: u16, n: nat, m: nat)
    ensures Add16(Add16(p, n), m) == Add16(p, n + m)
  {
  }

  lemma SecondPlace(c: State, k: nat, off: nat)
    requires Moved(c, k)
    ensures Add16(c.rx.rdReg, off) == Add16(RdPtr(c.rx), |c.rx.traffic[k]| + off)
  {
    AddAdd(RdPtr(c.rx), |c.rx.traffic[k]|, off);
  }

  lemma SliceOfSlice(s: seq<byte>, r: nat, m: nat, off: nat, n: nat)
    requires r + m <= |s| && off + n <= m
    ensures s[r + off..r + off + n] == s[r..r + m][off..off + n]
  {
    var t := s[r..r + m];
    assert t[off..] == s[r + off..r + m];
    assert t[off..][..n] == t[off..off + n];
  }

  lemma SecondBytes(c: State, k: nat, off: nat, n: nat)
    requires Moved(c, k) && k + 1 < c.rx.stored && AllRecords(c.rx.traffic)
    requires off + n <= |c.rx.traffic[k + 1]|
    ensures ReadRing(c.rx.mem, Add16(c.rx.rdReg, off), n) == c.rx.traffic[k + 1][off..off + n]
  {
    var r, m := |c.rx.traffic[k]|, |c.rx.traffic[k + 1]|;
    SecondRecord(c, k);
    SecondPlace(c, k, off);
    ReadLive(c.rx, r + off, n);
    SliceOfSlice(Live(c.rx), r, m, off, n);
  }

  lemma BehindHeader(c: State, k: nat, remain: u16)
    requires Moved(c, k) && k + 1 < c.rx.stored && AllRecords(c.rx.traffic)
    ensures BehindPlace(AfterHeader(c, remain, c.rx.rdReg), c, k)
  {
    SecondBytes(c, k, 0, HEADER);
    HeaderOf(c, c.rx.traffic[k + 1], remain);
  }

  lemma BehindLooks(p: RxPc, c: State, k: nat)
    requires BehindPlace(p, c, k) && AllRecords(c.rx.traffic) && Looking(p)
    ensures BehindPlace(LookStep(p, c), c, k)
  {
    match p
    case RcvHeader(remain, _) => BehindHeader(c, k, remain);
    case RcvBody(_, n) => SecondBytes(c, k, HEADER, n);
    case _ =>
  }

  lemma BehindMoves(c: State, k: nat)
    requires Moved(c, k) && k + 1 < c.rx.stored && AllRecords(c.rx.traffic)
    ensures MovedTwice(WriteRd(c, Add16(c.rx.rdReg, |c.rx.traffic[k + 1]|)), k)
  {
    var n, m := |c.rx.traffic[k]|, |c.rx.traffic[k + 1]|;
    SecondRecord(c, k);
    AddAdd(RdPtr(c.rx), n, m);
    SubAdd(RdPtr(c.rx), n + m);
  }

  lemma BehindCommits(c: State, k: nat)
    requires MovedTwice(c, k)
    ensures Aligned(Accepted(WriteCommand(c, CR_RECV)), k + 2)
  {
    CommitKeeps(c.rx);
    assert Flat(c.rx.traffic, k + 2) == Flat(c.rx.traffic, k) + c.rx.traffic[k] + c.rx.traffic[k + 1];
  }

  lemma ElsewhereBehind(s: Sys, t: Sys, k: nat)
    requires Behind(s, k) && t.c.rx == s.c.rx && t.c.cr == 0 && t.offered == s.offered
    requires BehindPlace(t.rx, s.c, k)
    ensures BehindNext(s, Settled(t), k)
  {
  }

  lemma SetRdBehind(s: Sys, k: nat)
    requires Behind(s, k) && s.rx.RcvSetRd?
    ensures BehindNext(s, Settled(DrainStep(s)), k)
  {
    BehindMoves(s.c, k);
  }

  lemma CommandBehind(s: Sys, k: nat)
    requires Behind(s, k) && s.rx.RcvCommand?
    ensures BehindNext(s, Settled(DrainStep(s)), k)
  {
    BehindCommits(s.c, k);
  }

  lemma DrainBehind(s: Sys, k: nat)
    requires Behind(s, k) && Draining(s.rx)
    ensures BehindNext(s, PromptStep(s, RxTask), k)
  {
    DrainIsStep(s);
    if Looking(s.rx) {
      BehindLooks(s.rx, s.c, k);
      ElsewhereBehind(s, s.(rx := LookStep(s.rx, s.c)), k);
    } else if s.rx.RcvSetRd? {
      SetRdBehind(s, k);
    } else {
      CommandBehind(s, k);
    }
  }

  lemma IdleBehind(s: Sys, k: nat)
    requires Behind(s, k) && !Draining(s.rx)
    ensures BehindNext(s, Settled(RxStep(s)), k)
  {
    if Serving(s.rx) {
      ElsewhereBehind(s, ServiceStep(s), k);
    } else if s.rx.ClrRead? || s.rx.ClrWrite? {
      ElsewhereBehind(s, ClearStep(s), k);
    } else {
      ElsewhereBehind(s, OuterStep(s), k);
    }
  }

  lemma BehindLater(p: RxPc, a: State, b: State, k: nat)
    requires BehindPlace(p, a, k) && Extends(a, b) && a.cr == 0
    ensures BehindPlace(p, b, k)
  {
    RxGrowsLive(a.rx, b.rx);
  }

  lemma ChipBehind(s: Sys, e: Event, k: nat)
    requires Behind(s, k)
    ensures BehindNext(s, PromptStep(s, Chip(e)), k)
  {
    var c := s.c.(events := 1);
    HappenExtends(c, e);
    BehindLater(s.rx, c, Happen(c, e), k);
    assert Step(s, Chip(e)) == s.(c := Happen(c, e));
  }

  lemma StepBehind(s: Sys, a: Action, k: nat)
    requires Behind(s, k) && Ordinary(s, a)
    ensures BehindNext(s, PromptStep(s, a), k)
  {
    match a
    case RxTask =>
      if Draining(s.rx) {
        DrainBehind(s, k);
      } else {
        IdleBehind(s, k);
      }
    case RxFault(timeout) => ElsewhereBehind(s, RxFail(s, timeout), k);
    case Chip(e) => ChipBehind(s, e, k);
    case _ => OthersLeave(s, a); ElsewhereBehind(s, PromptStep(s, a), k);
  }

  lemma {:induction false} BehindInOrder(s: Sys, actions: seq<Action>, k: nat) returns (last: nat)
    requires Behind(s, k) && AllOrdinary(s, actions)
    ensures var t := PromptRun(s, actions);
            || (Behind(t, k) && t.offered == s.offered)
            || Delivered(s, t, k + 1, last)
    decreases |actions|
  {
    last := 0;
    if actions != [] {
      var u := PromptStep(s, actions[0]);
      StepBehind(s, actions[0], k);
      if Behind(u, k) {
        last := BehindInOrder(u, actions[1..], k);
      } else {
        last := DeliversInOrder(u, actions[1..], k + 1);
      }
      if Delivered(u, PromptRun(u, actions[1..]), k + 1, last) {
        DeliveredFrom(s, u, PromptRun(u, actions[1..]), k + 1, last);
      }
    }
  }

  /** The failure before RECV, with another record in the ring. In every interleaving the record is
      never offered; the next pass takes the one behind it, whose RECV releases both, and from there
      on delivery is in order again. */
  lemma CommandFaultLoses(s: Sys, timeout: bool, actions: seq<Action>, k: nat) returns (last: nat)
    requires Following(s, k) && s.rx.RcvCommand? && k + 1 < s.c.rx.stored
    requires AllOrdinary(PromptStep(s, RxFault(timeout)), actions)
    ensures var t := PromptRun(PromptStep(s, RxFault(timeout)), actions);
            || (Behind(t, k) && t.offered == s.offered)
            || Delivered(s, t, k + 1, last)
  {
    var t := PromptStep(s, RxFault(timeout));
    assert RxFail(s, timeout) == s.(rx := Wait(true));
    last := BehindInOrder(t, actions, k);
    if Delivered(t, PromptRun(t, actions), k + 1, last) {
      DeliveredFrom(s, t, PromptRun(t, actions), k + 1, last);
    }
  }

  // ---------- the socket is opened again ----------

  /** The RX task still has a frame of the old session in hand. All it is going to do to the chip is
      to write 0 to Sn_RX_RD, which is there already, and to issue a RECV that releases nothing. */
  predicate Carrying(s: Sys) {
    && AllRecords(s.c.rx.traffic) && s.c.cr == 0 && Aligned(s.c, 0)
    && match s.rx
       case RcvSetRd(rd, frame) => Add16(rd, HEADER + |frame|) == 0
       case RcvCommand(_) => true
       case RcvWait(_) => true
       case _ => false
  }

  /** The frame that the RX task is about to offer. */
  function InHand(p: RxPc): seq<seq<byte>> {
    match p
    case RcvSetRd(_, frame) => [frame]
    case RcvCommand(frame) => [frame]
    case RcvWait(frame) => [frame]
    case _ => []
  }

  /** Where OPEN does not catch the RX task with a count, a pointer or a length of the old session
      that it is still going to use. */
  predicate OpenSafe(p: RxPc) {
    match p
    case Reading(inner, q) => inner ==> NotEmpty(q, 0)
    case RcvRd(_) => false
    case RcvHeader(_, _) => false
    case RcvBody(_, _) => false
    case RcvSetRd(rd, frame) => Add16(rd, HEADER + |frame|) == 0
    case _ => true
  }

  /** The RX task is then in place for the first record of the new session, or is so once it has got
      rid of the frame in hand. */
  lemma OpenFollows(s: Sys)
    requires s.c.cr == 0 && s.link.Open? && AllRecords(Reopened(s.c.rx).traffic)
    ensures var t := PromptStep(s, LinkPoll);
            && t.rx == s.rx && t.offered == s.offered
            && (OpenSafe(s.rx) <==> Following(t, 0) || Carrying(t))
  {
    OpenRestarts(s);
  }

  /** `t` is one action after `s`: the frame is still in hand, or has been offered, or was given up
      with an error. */
  predicate CarriesOn(s: Sys, t: Sys) {
    && t.c.rx.traffic == s.c.rx.traffic
    && if Carrying(t) then InHand(t.rx) == InHand(s.rx) && t.offered == s.offered
       else Following(t, 0) && (t.offered == s.offered || t.offered == s.offered + InHand(s.rx))
  }

  lemma WritesNothingNew(c: State)
    requires c.cr == 0 && Aligned(c, 0)
    ensures WriteRd(c, 0) == c && Accepted(WriteCommand(c, CR_RECV)) == c
  {
  }

  lemma SetRdCarries(s: Sys)
    requires Carrying(s) && s.rx.RcvSetRd?
    ensures Settled(DrainStep(s)) == s.(rx := RcvCommand(s.rx.frame))
  {
    WritesNothingNew(s.c);
  }

  lemma CommandCarries(s: Sys)
    requires Carrying(s) && s.rx.RcvCommand?
    ensures Settled(DrainStep(s)) == s.(rx := RcvWait(s.rx.frame))
  {
    WritesNothingNew(s.c);
  }

  lemma OfferCarries(s: Sys)
    requires Carrying(s) && s.rx.RcvWait?
    ensures Settled(DrainStep(s)) == s.(offered := s.offered + InHand(s.rx), rx := Reading(false, Hi1(0)))
  {
  }

  lemma RxCarries(s: Sys)
    requires Carrying(s)
    ensures CarriesOn(s, Settled(DrainStep(s)))
  {
    if s.rx.RcvSetRd? {
      SetRdCarries(s);
    } else if s.rx.RcvCommand? {
      CommandCarries(s);
    } else {
      OfferCarries(s);
    }
  }

  lemma ChipCarries(s: Sys, e: Event)
    requires Carrying(s)
    ensures CarriesOn(s, PromptStep(s, Chip(e)))
  {
    var c := s.c.(events := 1);
    HappenExtends(c, e);
    AlignedLater(c, Happen(c, e), 0);
    assert Step(s, Chip(e)) == s.(c := Happen(c, e));
  }

  lemma FaultCarries(s: Sys, timeout: bool)
    requires Carrying(s)
    ensures CarriesOn(s, PromptStep(s, RxFault(timeout)))
  {
    assert RxFail(s, timeout) == s.(rx := Wait(true));
  }

  lemma StepCarries(s: Sys, a: Action)
    requires Carrying(s) && Ordinary(s, a)
    ensures CarriesOn(s, PromptStep(s, a))
  {
    match a
    case RxTask => DrainIsStep(s); RxCarries(s);
    case RxFault(timeout) => FaultCarries(s, timeout);
    case Chip(e) => ChipCarries(s, e);
    case _ => OthersLeave(s, a);
  }

  /** `s` after an offer of `frames`. */
  function After(s: Sys, frames: seq<seq<byte>>): Sys { s.(offered := s.offered + frames) }

  /** A session has come to `t`: the frame that was in hand at its beginning `s` still is, or what
      has been offered is `carried` and the first `last` records. */
  predicate InSession(s: Sys, t: Sys, carried: seq<seq<byte>>, last: nat) {
    || (Carrying(s) && Carrying(t) && InHand(t.rx) == InHand(s.rx)
        && t.offered == s.offered && t.c.rx.traffic == s.c.rx.traffic)
    || Delivered(After(s, carried), t, 0, last)
  }

  lemma InSessionNext(s: Sys, u: Sys, t: Sys, carried: seq<seq<byte>>, last: nat) returns (all: seq<seq<byte>>)
    requires Carrying(s) && CarriesOn(s, u) && InSession(u, t, carried, last)
    requires carried == [] || (Carrying(u) && carried == InHand(u.rx))
    ensures InSession(s, t, all, last) && (all == [] || all == InHand(s.rx))
  {
    all := if Carrying(u) then carried else if u.offered == s.offered then [] else InHand(s.rx);
    assert u.offered + carried == s.offered + all;
  }

  lemma FollowingInOrder(s: Sys, actions: seq<Action>) returns (last: nat)
    requires Following(s, 0) && AllOrdinary(s, actions)
    ensures InSession(s, PromptRun(s, actions), [], last)
  {
    last := DeliversInOrder(s, actions, 0);
    assert After(s, []) == s;
  }

  /** Exactly-once delivery in order of a new session. Whatever comes after an OPEN that caught the
      RX task at a safe place: the stack is given the frame in hand, if that is not given up, and
      then the frames of the new records from the first one on, each once and in order. */
  lemma {:induction false} SessionInOrder(s: Sys, actions: seq<Action>) returns (carried: seq<seq<byte>>, last: nat)
    requires (Following(s, 0) || Carrying(s)) && AllOrdinary(s, actions)
    ensures InSession(s, PromptRun(s, actions), carried, last)
    ensures carried == [] || (Carrying(s) && carried == InHand(s.rx))
    decreases |actions|
  {
    carried, last := [], 0;
    if Following(s, 0) {
      last := FollowingInOrder(s, actions);
    } else if actions != [] {
      var u := PromptStep(s, actions[0]);
      StepCarries(s, actions[0]);
      carried, last := SessionInOrder(u, actions[1..]);
      carried := InSessionNext(s, u, PromptRun(u, actions[1..]), carried, last);
    }
  }
}

/** w5500_socket0_send_raw_frame: putting a frame into the transmit ring. */
module Transmission {
  import opened Words
  import opened Ring
  import opened W5500
  import opened Regs
  import opened Driver

  /** `b` is `a` after a stretch of time that left everything accepted or staged for transmission
      as it was; free ring space may have been written. */
  predicate Undisturbed(a: State, b: State) {
    && b == a.(rx := b.rx, tx := b.tx, ir := b.ir, snIr := b.snIr, events := b.events)
    && RxGrows(a.rx, b.rx)
    && (a.snIr.recv || a.rx.stored < b.rx.stored ==> b.snIr.recv)
    && b.tx.outbox == a.tx.outbox && a.tx.left <= b.tx.left
    && b.tx.put == a.tx.put && b.tx.latched == a.tx.latched
    && Staged(b.tx) == Staged(a.tx)
  }

  lemma DriftsUndisturbed(a: State, b: State)
    requires Drifts(a, b)
    ensures Undisturbed(a, b)
  {
  }

  lemma UndisturbedTrans(a: State, b: State, c: State)
    requires Undisturbed(a, b) && Undisturbed(b, c)
    ensures Undisturbed(a, c)
  {
  }

  /** w5500_write_tx_buffer at Sn_TX_WR: a burst into free space, which may break off. */
  method WriteTxBuffer(c: Chip, offset: u16, data: seq<byte>) returns (err: Err)
    requires c.s.cr == 0 && |data| <= Fsr(c.s.tx) && offset == TxWr(c.s.tx)
    modifies c`s, c`faults
    ensures Undisturbed(old(c.s), c.s) && Fsr(old(c.s).tx) <= Fsr(c.s.tx)
    ensures err.Ok? || BusError(err)
    ensures c.faults <= old(c.faults) && (err.Ok? <==> c.faults == old(c.faults))
    ensures c.s.events <= old(c.s).events
    ensures err.Ok? ==> ReadRing(c.s.tx.mem, c.s.tx.put, |data|) == data
  {
    err := c.Transact(c.s);
    ExtendsDrifts(old(c.s), c.s);
    DriftsUndisturbed(old(c.s), c.s);
    TxDrainsFsr(old(c.s).tx, c.s.tx);
    var done := data;
    if err != Ok {
      var k: nat :| k <= |data|;
      done := data[..k];
    }
    ghost var before := c.s;
    FillKeeps(c.s.tx, done);
    c.s := c.s.(tx := Fill(c.s.tx, done));
    UndisturbedTrans(old(c.s), before, c.s);
  }

  /** SEND has been issued for the frame and is still pending, having been waited for since `now` on a
      chip that is not prompt. */
  predicate SendPending(from: State, frame: seq<byte>, c: Chip, now: nat)
    reads c
  {
    Stages(from, c.s, frame) && c.s.cr == CR_SEND && !c.prompt && now + COMMAND_TICKS <= c.now
  }

  /** The commit: Sn_TX_WR, then SEND, then the wait. It fails for a failed transaction, or because
      SEND is still pending after the time that it is waited for. */
  method CommitFrame(c: Chip, txWr: u16, frame: seq<byte>, ghost from: State) returns (err: Err, ghost committed: bool)
    requires Undisturbed(from, c.s) && from.cr == 0 && txWr == TxWr(c.s.tx)
    requires |frame| <= Fsr(c.s.tx) && ReadRing(c.s.tx.mem, c.s.tx.put, |frame|) == frame
    requires 0 < c.maxGap <= TICKS - COMMAND_TICKS
    modifies c
    ensures err.Ok? || BusError(err)
    ensures !committed ==> !err.Ok? && Undisturbed(from, c.s) && c.faults < old(c.faults)
    ensures committed ==> Sends(from, c.s, frame, err)
    ensures !err.Ok? && c.faults == old(c.faults) ==> committed && SendPending(from, frame, c, old(c.now))
    ensures c.faults <= old(c.faults) && (err.Ok? ==> c.faults == old(c.faults)) && old(c.now) <= c.now
  {
    ghost var start := c.s;
    committed := false;
    err := c.Transact(start);
    ExtendsDrifts(start, c.s);
    DriftsUndisturbed(start, c.s);
    UndisturbedTrans(from, start, c.s);
    if err != Ok {
      return;
    }
    TxDrainsFsr(start.tx, c.s.tx);
    SetTxWrKeeps(c.s.tx, |frame|);
    ghost var before := c.s;
    c.s := c.s.(tx := SetTxWr(c.s.tx, Add16(txWr, |frame|)));
    StagesFrame(from, before, c.s, frame);

    committed := true;
    ghost var staged := c.s;
    err := c.Transact(staged);
    StagedLater(from, staged, c.s, frame);
    if err != Ok {
      return;
    }
    c.s := c.s.(cr := CR_SEND);

    ghost var issued := c.s;
    err := WaitForCommand(c, COMMAND_TICKS);
    SendWaited(from, issued, c.s, frame);
  }

  /** The frame is in the ring behind what was staged before, and no SEND has taken it yet. */
  predicate Stages(a: State, b: State, frame: seq<byte>) {
    && RxGrows(a.rx, b.rx)
    && (a.snIr.recv || a.rx.stored < b.rx.stored ==> b.snIr.recv)
    && b.tx.outbox == a.tx.outbox && a.tx.left <= b.tx.left
    && Staged(b.tx) == Staged(a.tx) + frame
    && SameSetup(a, b) && (b.cr == 0 || b.cr == CR_SEND)
  }

  /** SEND has taken the frame, together with what was staged before it. */
  predicate Takes(a: State, b: State, frame: seq<byte>) {
    && RxGrows(a.rx, b.rx)
    && (a.snIr.recv || a.rx.stored < b.rx.stored ==> b.snIr.recv)
    && b.tx.outbox == a.tx.outbox + [Staged(a.tx) + frame] && a.tx.left <= b.tx.left
    && Staged(b.tx) == [] && SameSetup(a, b) && b.cr == 0
  }

  predicate Sends(a: State, b: State, frame: seq<byte>, err: Err) {
    if err.Ok? then Takes(a, b, frame) else Takes(a, b, frame) || Stages(a, b, frame)
  }

  lemma StagesFrame(from: State, a: State, b: State, frame: seq<byte>)
    requires from.cr == 0
    requires Undisturbed(from, a) && |frame| <= Fsr(a.tx) && ReadRing(a.tx.mem, a.tx.put, |frame|) == frame
    requires b == a.(tx := SetTxWr(a.tx, Add16(TxWr(a.tx), |frame|)))
    ensures Stages(from, b, frame)
  {
    SetTxWrKeeps(a.tx, |frame|);
  }

  lemma StagedLater(from: State, a: State, b: State, frame: seq<byte>)
    requires Stages(from, a, frame) && Extends(a, b)
    ensures Stages(from, b, frame)
  {
  }

  lemma SendWaited(from: State, a: State, b: State, frame: seq<byte>)
    requires Stages(from, a, frame) && a.cr == CR_SEND && Evolves(a, b)
    ensures b.cr == 0 ==> Takes(from, b, frame)
    ensures b.cr != 0 ==> Stages(from, b, frame)
  {
    if b.cr == 0 {
      var t := Accepted(a);
      assert t.tx == AcceptSend(a.tx);
      assert Staged(b.tx) == [];
    } else {
      StagedLater(from, a, b, frame);
    }
  }

  /** w5500_socket0_send_raw_frame. Until Sn_TX_WR is written a failure leaves everything accepted
      or staged as it was, so the next send starts from the same state; `room` is an instant of the
      call at which the free size was what the room check went by. On a chip that does not change meanwhile
      such a failure means that the socket is not open or that there is no room. */
  method SendRawFrame(c: Chip, ctx: Context, frame: seq<byte>)
    returns (err: Err, ghost committed: bool, ghost room: State)
    requires c.s.cr == 0
    requires 0 < c.maxGap <= TICKS - COMMAND_TICKS
    modifies c, ctx`given, ctx`levels
    ensures frame == [] ==> err.InvalidArg? && c.s == old(c.s)
    ensures err.Ok? ==> committed && Takes(old(c.s), c.s, frame)
    ensures committed ==> Sends(old(c.s), c.s, frame, err)
    ensures !committed ==> !err.Ok? && Undisturbed(old(c.s), c.s)
    ensures !committed && frame != [] && c.faults == old(c.faults) ==>
              || (old(c.s).sr != SOCK_MACRAW && err.InvalidState?)
              || (old(c.s).sr == SOCK_MACRAW && err.NoMem? && Fsr(room.tx) < |frame|)
              || (err.Timeout? && Crowded(old(c.s), c.s))
    ensures committed && !err.Ok? && c.faults == old(c.faults) ==> SendPending(room, frame, c, old(c.now))
    ensures frame != [] && old(c.s).sr == SOCK_MACRAW && |frame| <= Fsr(old(c.s).tx) ==>
              err.Ok? || c.Excused(old(c.faults), old(c.now)) || Crowded(old(c.s), c.s)
    ensures c.faults <= old(c.faults) && old(c.now) <= c.now
    ensures committed ==> old(c.s).sr == SOCK_MACRAW && |frame| <= Fsr(room.tx) && Sends(room, c.s, frame, err)
    ensures Drifts(old(c.s), room) && (!committed ==> Undisturbed(room, c.s))
  {
    ghost var from := c.s;
    committed, room := false, from;
    if frame == [] {
      return InvalidArg, false, from;
    }
    err := UpdateTxCompletion(c, ctx, from);
    DriftsUndisturbed(from, c.s);
    if err != Ok && err != Timeout {
      return;
    }
    err := Access(c, from);
    DriftsUndisturbed(from, c.s);
    if err != Ok {
      return;
    }
    if c.s.sr != SOCK_MACRAW {
      return InvalidState, false, from;
    }
    err, room := CheckRoom(c, |frame|, from);
    DriftsUndisturbed(room, c.s);
    if err == Ok {
      err, committed := StoreFrame(c, frame, room);
    }
    SinceRoom(from, room, c.s, frame, err, committed);
    TxDrainsFsr(from.tx, room.tx);
  }

  /** What a call has done since its room check it has done since it began. */
  lemma SinceRoom(from: State, room: State, s: State, frame: seq<byte>, err: Err, committed: bool)
    requires Drifts(from, room) && (err.Ok? ==> committed)
    requires if committed then Sends(room, s, frame, err) else Undisturbed(room, s)
    ensures if committed then Sends(from, s, frame, err) else Undisturbed(from, s)
  {
    DriftsUndisturbed(from, room);
    if !committed {
      UndisturbedTrans(from, room, s);
    }
  }

  /** Room in the ring, by the stable read of Sn_TX_FSR. */
  method CheckRoom(c: Chip, n: nat, ghost from: State) returns (err: Err, ghost room: State)
    requires Drifts(from, c.s) && from.cr == 0
    modifies c`s, c`faults
    ensures Drifts(from, room) && Drifts(room, c.s) && Drifts(from, c.s)
    ensures err.Ok? ==> n <= Fsr(room.tx) <= Fsr(c.s.tx)
    ensures !err.Ok? ==> BusError(err)
    ensures c.s.events <= old(c.s).events && c.faults <= old(c.faults) && (err.Ok? ==> c.faults == old(c.faults))
    ensures !err.Ok? && c.faults == old(c.faults) ==>
              (err.NoMem? && Fsr(room.tx) < n) || (err.Timeout? && Crowded(old(c.s), c.s))
  {
    ghost var s1 := c.s;
    var fsr;
    err, fsr, room := ReadStable(c, TxFsr);
    ExtendsDrifts(s1, room);
    ExtendsDrifts(room, c.s);
    DriftsTrans(from, s1, room);
    DriftsTrans(from, room, c.s);
    if err == Ok {
      TxDrainsFsr(room.tx, c.s.tx);
      if fsr < n {
        err := NoMem;
      }
    }
  }

  /** From the read of Sn_TX_WR on. */
  method StoreFrame(c: Chip, frame: seq<byte>, ghost from: State) returns (err: Err, ghost committed: bool)
    requires Drifts(from, c.s) && from.cr == 0 && |frame| <= Fsr(c.s.tx)
    requires 0 < c.maxGap <= TICKS - COMMAND_TICKS
    modifies c
    ensures err.Ok? || BusError(err)
    ensures !committed ==> !err.Ok? && Undisturbed(from, c.s) && c.faults < old(c.faults)
    ensures committed ==> Sends(from, c.s, frame, err)
    ensures !err.Ok? && c.faults == old(c.faults) ==> committed && SendPending(from, frame, c, old(c.now))
    ensures c.faults <= old(c.faults) && (err.Ok? ==> c.faults == old(c.faults)) && old(c.now) <= c.now
  {
    committed := false;
    ghost var s1 := c.s;
    err := c.Transact(s1);
    ExtendsDrifts(s1, c.s);
    TxDrainsFsr(s1.tx, c.s.tx);
    DriftsTrans(from, s1, c.s);
    DriftsUndisturbed(from, c.s);
    if err != Ok {
      return;
    }
    var txWr := TxWr(c.s.tx);
    ghost var s2 := c.s;
    err := WriteTxBuffer(c, txWr, frame);
    UndisturbedTrans(from, s2, c.s);
    if err != Ok {
      return;
    }
    err, committed := CommitFrame(c, txWr, frame, from);
  }

  // ---------- runs of sends ----------

  /** How a send can end: with an error before the commit, well, or with an error behind the commit,
      the chip having taken the frame or not. */
  datatype Outcome = Refused | Taken | FailedTaken | FailedStaged

  /** One call of the transmit path seen from outside. */
  datatype Call = Call(frame: seq<byte>, outcome: Outcome, after: State)

  predicate AfterCommit(o: Outcome) { o.FailedTaken? || o.FailedStaged? }

  /** What two calls leave room for: segments leave, a pending SEND is carried out or overwritten,
      and the receive side and the flags do what they will. */
  predicate Between(a: State, b: State) {
    || (TxDrains(a.tx, b.tx) && (b.cr == CR_SEND ==> a.cr == CR_SEND))
    || (a.cr == CR_SEND && TxDrains(AcceptSend(a.tx), b.tx))
  }

  predicate Ends(t: State, call: Call) {
    match call.outcome
    case Refused => Undisturbed(t, call.after)
    case Taken => call.frame != [] && Takes(t, call.after, call.frame)
    case FailedTaken => call.frame != [] && Takes(t, call.after, call.frame)
    case FailedStaged => call.frame != [] && Stages(t, call.after, call.frame)
  }

  ghost predicate Made(s: State, call: Call) {
    exists t: State {:trigger Between(s, t)} :: Between(s, t) && t.cr == 0 && Ends(t, call)
  }

  ghost predicate Run(s: State, calls: seq<Call>)
    decreases |calls|
  {
    calls == [] || (Made(s, calls[0]) && Run(calls[0].after, calls[1..]))
  }

  /** Every call is one of these: this is what the contract of SendRawFrame comes to. */
  lemma SendIsACall(a: State, b: State, frame: seq<byte>, err: Err, committed: bool) returns (o: Outcome)
    requires a.cr == 0 && (err.Ok? ==> committed) && (committed ==> frame != [])
    requires if committed then Sends(a, b, frame, err) else Undisturbed(a, b)
    ensures Made(a, Call(frame, o, b))
    ensures (o.Taken? <==> err.Ok?) && (o.Refused? <==> !committed)
  {
    o := if !committed then Refused
         else if err.Ok? then Taken
         else if Takes(a, b, frame) then FailedTaken
         else FailedStaged;
    assert Between(a, a) && Ends(a, Call(frame, o, b));
  }

  /** The frames of the calls that returned ESP_OK. */
  function Sent(calls: seq<Call>): seq<seq<byte>> {
    if calls == [] then [] else Counted(calls[0]) + Sent(calls[1..])
  }

  function Counted(call: Call): seq<seq<byte>> {
    if call.outcome.Taken? then [call.frame] else []
  }

  function Last(s: State, calls: seq<Call>): State {
    if calls == [] then s else calls[|calls| - 1].after
  }

  predicate Clean(calls: seq<Call>) {
    forall i | 0 <= i < |calls| :: !AfterCommit(calls[i].outcome)
  }

  /** The chip has accepted exactly `frames`, one segment each, and nothing is under way. */
  predicate Exact(s: State, frames: seq<seq<byte>>) {
    s.tx.outbox == frames && Staged(s.tx) == []
  }

  /** The chip has accepted more, or something else, or is going to. */
  predicate Off(s: State, frames: seq<seq<byte>>) {
    || |s.tx.outbox| > |frames|
    || (|s.tx.outbox| == |frames| && !Exact(s, frames))
  }

  lemma CallIsExact(s: State, frames: seq<seq<byte>>, call: Call)
    requires Exact(s, frames) && s.cr != CR_SEND && Made(s, call) && !AfterCommit(call.outcome)
    ensures Exact(call.after, frames + Counted(call)) && call.after.cr != CR_SEND
  {
    var t: State :| Between(s, t) && t.cr == 0 && Ends(t, call);
    assert [] + call.frame == call.frame;
    assert frames + [] == frames;
  }

  lemma CallGoesOff(s: State, frames: seq<seq<byte>>, call: Call)
    requires Exact(s, frames) && s.cr != CR_SEND && Made(s, call) && AfterCommit(call.outcome)
    ensures Off(call.after, frames)
  {
    var t: State :| Between(s, t) && t.cr == 0 && Ends(t, call);
  }

  /** A segment that carries more than the frame is not the frame. */
  lemma AloneIffNothingStaged(staged: seq<byte>, frame: seq<byte>)
    ensures staged + frame == frame <==> staged == []
  {
    assert staged + frame == frame ==> |staged| == 0;
  }

  lemma SnocSame(a: seq<seq<byte>>, x: seq<byte>, b: seq<seq<byte>>, y: seq<byte>)
    ensures a + [x] == b + [y] <==> a == b && x == y
  {
    if a + [x] == b + [y] {
      assert a == (a + [x])[..|a|] && b == (b + [y])[..|b|];
      assert x == (a + [x])[|a|] && y == (b + [y])[|b|];
    }
  }

  lemma BetweenStaysOff(s: State, t: State, frames: seq<seq<byte>>)
    requires Off(s, frames) && Between(s, t)
    ensures Off(t, frames)
  {
  }

  lemma CallStaysOff(s: State, frames: seq<seq<byte>>, call: Call)
    requires Off(s, frames) && Made(s, call)
    ensures Off(call.after, frames + Counted(call))
  {
    var t: State :| Between(s, t) && t.cr == 0 && Ends(t, call);
    BetweenStaysOff(s, t, frames);
    if call.outcome.Taken? {
      AloneIffNothingStaged(Staged(t.tx), call.frame);
      SnocSame(t.tx.outbox, Staged(t.tx) + call.frame, frames, call.frame);
    }
  }

  lemma LastOfRest(s: State, calls: seq<Call>)
    requires calls != []
    ensures Last(s, calls) == Last(calls[0].after, calls[1..])
  {
  }

  lemma SentOfRest(frames: seq<seq<byte>>, calls: seq<Call>)
    requires calls != []
    ensures frames + Counted(calls[0]) + Sent(calls[1..]) == frames + Sent(calls)
  {
  }

  lemma {:induction false} RunStaysOff(s: State, frames: seq<seq<byte>>, calls: seq<Call>)
    requires Off(s, frames) && Run(s, calls)
    ensures Off(Last(s, calls), frames + Sent(calls))
    decreases |calls|
  {
    if calls == [] {
      assert frames + [] == frames;
    } else {
      CallStaysOff(s, frames, calls[0]);
      RunStaysOff(calls[0].after, frames + Counted(calls[0]), calls[1..]);
      LastOfRest(s, calls);
      SentOfRest(frames, calls);
    }
  }

  lemma {:induction false} RunSplits(s: State, frames: seq<seq<byte>>, calls: seq<Call>)
    requires Exact(s, frames) && s.cr != CR_SEND && Run(s, calls)
    ensures Clean(calls) ==> Exact(Last(s, calls), frames + Sent(calls))
    ensures !Clean(calls) ==> Off(Last(s, calls), frames + Sent(calls))
    decreases |calls|
  {
    if calls == [] {
      assert frames + [] == frames;
    } else {
      var next := frames + Counted(calls[0]);
      if AfterCommit(calls[0].outcome) {
        CallGoesOff(s, frames, calls[0]);
        assert next == frames;
        RunStaysOff(calls[0].after, next, calls[1..]);
      } else {
        CallIsExact(s, frames, calls[0]);
        RunSplits(calls[0].after, next, calls[1..]);
        assert Clean(calls) <==> Clean(calls[1..]) by {
          assert forall i | 0 < i < |calls| :: calls[i] == calls[1..][i - 1];
        }
      }
      LastOfRest(s, calls);
      SentOfRest(frames, calls);
    }
  }

  /** Transmit exactness, and exactly when. Over any run of sends that starts with nothing under
      way, the chip has accepted exactly the frames of the calls that returned ESP_OK, one segment
      each and in order, with nothing under way at the end, if and only if no call failed after its
      commit. */
  lemma RunIsExact(s: State, calls: seq<Call>)
    requires Run(s, calls) && Staged(s.tx) == [] && s.cr != CR_SEND
    ensures Exact(Last(s, calls), s.tx.outbox + Sent(calls)) <==> Clean(calls)
  {
    RunSplits(s, s.tx.outbox, calls);
  }

  /** And then what the chip has put on the wire, read from ring memory at the moment of sending,
      is a prefix of those frames. */
  lemma WireIsSent(s: State, calls: seq<Call>)
    requires Run(s, calls) && Staged(s.tx) == [] && s.cr != CR_SEND && s.tx.outbox == [] && Clean(calls)
    ensures Last(s, calls).tx.wire <= Sent(calls)
  {
    RunIsExact(s, calls);
    assert [] + Sent(calls) == Sent(calls);
    WireIsOutbox(Last(s, calls).tx);
  }
}

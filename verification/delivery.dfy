/** From the wake-up to the stack: when an edge is due, the edge and the RX task alone bring every
    frame in the ring to the stack. */
module Delivery {
  import opened Words
  import opened Flags
  import opened Ring
  import opened W5500
  import opened Drain
  import opened Machine
  import LinkUp
  import Wakeup
  import I = Interleaving

  function Iterate<T>(f: T -> T, x: T, n: nat): T
    decreases n
  {
    if n == 0 then x else Iterate(f, f(x), n - 1)
  }

  lemma {:induction false} IterateAdds<T>(f: T -> T, x: T, m: nat, n: nat)
    ensures Iterate(f, x, m + n) == Iterate(f, Iterate(f, x, m), n)
    decreases m
  {
    if m > 0 {
      IterateAdds(f, f(x), m - 1, n);
    }
  }

  function SoloStep(s: Sys): Sys { I.PromptStep(s, RxTask) }

  lemma SoloIsStep(s: Sys)
    ensures SoloStep(s) == I.PromptStep(s, RxTask)
  {
  }

  function Solo(s: Sys, n: nat): Sys { Iterate(SoloStep, s, n) }

  lemma SoloNext(s: Sys, n: nat)
    ensures Solo(s, 0) == s && Solo(s, n + 1) == Solo(SoloStep(s), n)
  {
  }

  // ---------- the interrupt service ends ----------

  /** Flags the service clears in passing. */
  predicate Dirty(x: Sn) { x.con || x.discon || x.sendOk || x.timeout }

  /** What the RX task has read is still so. */
  predicate Fresh(p: RxPc, c: State) {
    match p
    case SvcSir(ir) => ir == c.ir
    case SvcClearIr(ir, sir) => ir == c.ir && ir.Any()
    case SvcUpd(v, q) => (v.recv || Dirty(v)) && UpdFresh(v, q, c)
    case SvcClearSn(v) => (v.recv || Dirty(v)) && c.snIr == v.(sendOk := false, timeout := false)
    case _ => true
  }

  predicate UpdFresh(v: Sn, q: Upd, c: State) {
    match q
    case Look => c.snIr == v
    case Pend(u) => u == v == c.snIr
    case AckOk(u) => u == v == c.snIr
    case AckTimeout(u) => u == v && c.snIr == v.(sendOk := false)
    case Through => false
  }

  function Place(p: RxPc): nat {
    match p
    case SvcIr => 12
    case SvcSir(_) => 11
    case SvcClearIr(_, _) => 10
    case SvcSn => 9
    case SvcUpd(_, q) => if q.Look? then 8 else if q.Pend? then 7 else if q.AckOk? then 6 else 5
    case _ => 4
  }

  /** Every pass that comes round again has used up a flag. */
  function Credit(p: RxPc, c: State): nat {
    (if c.ir.Any() then 16 else 0)
    + match p
      case SvcUpd(v, _) => if v.recv then 0 else 16
      case SvcClearSn(v) => if v.recv then 0 else 16
      case _ => if Dirty(c.snIr) then 16 else 0
  }

  /** What the service has found when it ends: RECV, or nothing in Sn_IR, or nothing pending. */
  predicate Looked(c: State) { c.snIr.recv || !c.snIr.Any() || (!c.ir.Any() && !Sir(c)) }

  predicate Shrinks(s: Sys, t: Sys) {
    if t.rx.ClrRead? then Looked(t.c)
    else Fresh(t.rx, t.c) && Credit(t.rx, t.c) + Place(t.rx) < Credit(s.rx, s.c) + Place(s.rx)
  }

  lemma UpdStaysFresh(s: Sys, v: Sn, q: Upd)
    requires UpdFresh(v, q, s.c)
    ensures var c, next := UpdEffect(q, s).c, UpdNext(q, s.c);
            && c.ir == s.c.ir
            && if next.Through? then c.snIr == v.(sendOk := false, timeout := false) else UpdFresh(v, next, c)
  {
  }

  lemma UpdShrinks(s: Sys)
    requires s.rx.SvcUpd? && Fresh(s.rx, s.c)
    ensures Shrinks(s, HandleStep(s))
  {
    var v, q := s.rx.v, s.rx.upd;
    var next := UpdNext(q, s.c);
    UpdStaysFresh(s, v, q);
    assert HandleStep(s) == UpdEffect(q, s).(rx := if next.Through? then SvcClearSn(v) else SvcUpd(v, next));
  }

  lemma SnShrinks(s: Sys)
    requires (s.rx.SvcSn? || s.rx.SvcClearSn?) && Fresh(s.rx, s.c)
    ensures Shrinks(s, HandleStep(s))
  {
  }

  lemma HandleShrinks(s: Sys)
    requires Handling(s.rx) && Fresh(s.rx, s.c)
    ensures Shrinks(s, HandleStep(s))
  {
    if s.rx.SvcUpd? {
      UpdShrinks(s);
    } else {
      SnShrinks(s);
    }
  }

  lemma ServeShrinks(s: Sys)
    requires Serving(s.rx) && Fresh(s.rx, s.c)
    ensures Shrinks(s, ServiceStep(s))
  {
    if Handling(s.rx) {
      HandleShrinks(s);
    }
  }

  lemma SoloServes(s: Sys)
    requires Serving(s.rx) && s.c.cr == 0
    ensures SoloStep(s) == ServiceStep(s)
  {
    SoloIsStep(s);
  }

  lemma {:induction false} ServeSolo(s: Sys) returns (n: nat)
    requires Serving(s.rx) && Fresh(s.rx, s.c) && s.c.cr == 0
    ensures OnlyServes(s, Solo(s, n)) && Solo(s, n).rx == ClrRead && Looked(Solo(s, n).c)
    decreases Credit(s.rx, s.c) + Place(s.rx)
  {
    var t := ServiceStep(s);
    ServeShrinks(s);
    SoloServes(s);
    if t.rx.ClrRead? {
      n := 1;
      assert Iterate(SoloStep, t, 0) == t;
    } else {
      n := ServeSolo(t);
      n := n + 1;
    }
  }

  lemma SoloClears(s: Sys)
    requires (s.rx.ClrRead? || s.rx.ClrWrite?) && s.c.cr == 0
    ensures SoloStep(s) == ClearStep(s)
  {
    SoloIsStep(s);
  }

  lemma ClearSolo(s: Sys) returns (n: nat)
    requires (s.rx.ClrRead? || s.rx.ClrWrite?) && s.c.cr == 0
    ensures Solo(s, n) == s.(c := s.c.(snIr := Solo(s, n).c.snIr), rx := Reading(false, Hi1(0)))
    ensures !Solo(s, n).c.snIr.recv
    decreases s.rx.ClrRead?, 1
  {
    SoloClears(s);
    n := ClearRest(s, ClearStep(s));
    SoloNext(s, n);
    n := n + 1;
  }

  lemma ClearRest(s: Sys, t: Sys) returns (n: nat)
    requires t == s.(c := s.c.(snIr := t.c.snIr), rx := t.rx) && s.c.cr == 0
    requires (t.rx.ClrWrite? && s.rx.ClrRead?) || t.rx == Reading(false, Hi1(0))
    requires t.rx.Reading? ==> !t.c.snIr.recv
    ensures Solo(t, n) == s.(c := s.c.(snIr := Solo(t, n).c.snIr), rx := Reading(false, Hi1(0)))
    ensures !Solo(t, n).c.snIr.recv
    decreases s.rx.ClrRead?, 0
  {
    n := 0;
    if t.rx.ClrWrite? {
      n := ClearSolo(t);
    } else {
      SoloNext(t, 0);
    }
  }

  // ---------- the drain ends with an empty ring ----------

  /** What a stable read has read is still so. */
  predicate ReadFresh(p: Stable, now: u16) {
    match p
    case Hi1(_) => true
    case Lo1(_, h) => h == Hi(now)
    case Hi2(_, v) => v == now
    case Lo2(_, v, h) => v == now && h == Hi(now)
    case _ => false
  }

  predicate DrainFresh(p: RxPc, c: State) {
    match p
    case Reading(_, q) => ReadFresh(q, Rsr(c.rx))
    case RcvRd(remain) => remain == Rsr(c.rx)
    case RcvHeader(remain, _) => remain == Rsr(c.rx)
    case _ => Draining(p)
  }

  function DrainPlace(p: RxPc): nat {
    match p
    case Reading(inner, q) =>
      (if inner then 7 else 12) + (if q.Hi1? then 4 else if q.Lo1? then 3 else if q.Hi2? then 2 else 1)
    case RcvSr => 12
    case RcvRd(_) => 7
    case RcvHeader(_, _) => 6
    case RcvBody(_, _) => 5
    case RcvSetRd(_, _) => 4
    case RcvCommand(_) => 3
    case _ => 2
  }

  /** The next byte of a fresh read is fresh, and the last one ends it with the count. */
  predicate ReadsOn(p: Stable, q: Stable, now: u16) {
    if p.Lo2? then q == Got(now)
    else ReadFresh(q, now) && (p.Hi1? ==> q.Lo1?) && (p.Lo1? ==> q.Hi2?) && (p.Hi2? ==> q.Lo2?)
  }

  lemma FreshReadEnds(p: Stable, now: u16)
    requires ReadFresh(p, now)
    ensures ReadsOn(p, StableStep(p, now), now)
  {
  }

  lemma CountIsWhole(c: State, k: nat)
    requires Aligned(c, k) && AllRecords(c.rx.traffic)
    ensures if k == c.rx.stored then Rsr(c.rx) == 0 else Rsr(c.rx) >= |c.rx.traffic[k]| >= HEADER
  {
    FrontRecord(c, k);
  }

  /** Where a drain ends that has brought the first `k` records to the stack: at the level check
      with the ring empty, or with an error at a record that the driver does not accept. */
  predicate Ended(p: RxPc, c: State, k: nat) {
    if k == c.rx.stored then p.Level? && Rsr(c.rx) == 0
    else p == Wait(true) && k < c.rx.stored && !WellFormed(c.rx.traffic[k])
  }

  /** The drain has ended, or has got further with the front record. */
  predicate EndedOr(p: RxPc, q: RxPc, c: State, k: nat) {
    if Draining(q) then DrainFresh(q, c) && DrainPlace(q) < DrainPlace(p) else Ended(q, c, k)
  }

  lemma EndAdvances(inner: bool, p: Stable, q: Stable, c: State, k: nat)
    requires Aligned(c, k) && AllRecords(c.rx.traffic) && ReadFresh(p, Rsr(c.rx)) && ReadsOn(p, q, Rsr(c.rx))
    ensures EndedOr(Reading(inner, p), AfterRead(inner, q), c, k)
  {
    CountIsWhole(c, k);
  }

  lemma ReadAdvances(inner: bool, p: Stable, c: State, k: nat)
    requires Aligned(c, k) && AllRecords(c.rx.traffic) && ReadFresh(p, Rsr(c.rx))
    ensures EndedOr(Reading(inner, p), AfterRead(inner, StableStep(p, Rsr(c.rx))), c, k)
  {
    FreshReadEnds(p, Rsr(c.rx));
    EndAdvances(inner, p, StableStep(p, Rsr(c.rx)), c, k);
  }

  lemma LookAdvances(p: RxPc, c: State, k: nat)
    requires I.RxPlace(p, c, k) && AllRecords(c.rx.traffic) && c.sr == SOCK_MACRAW
    requires Looking(p) && DrainFresh(p, c)
    ensures EndedOr(p, LookStep(p, c), c, k)
  {
    match p
    case Reading(inner, q) => ReadAdvances(inner, q, c, k);
    case RcvHeader(remain, _) => I.HeaderPlace(c, k, remain); CountIsWhole(c, k);
    case _ =>
  }

  function Togo(s: Sys, k: nat): int { 40 * (s.c.rx.stored - k) + DrainPlace(s.rx) }

  /** Nothing has arrived, and the pin is as it was. */
  predicate SameOutside(s: Sys, u: Sys) { u.c.rx.stored == s.c.rx.stored && u.pinHigh == s.pinHigh }

  predicate Advances(s: Sys, t: Sys, k: nat, l: nat) {
    && t.c.sr == s.c.sr && SameOutside(s, t) && t.c.snIr == s.c.snIr
    && if Draining(t.rx) then DrainFresh(t.rx, t.c) && Togo(t, l) < Togo(s, k) else Ended(t.rx, t.c, l)
  }

  lemma LookSolo(s: Sys, k: nat)
    requires I.Following(s, k) && s.c.sr == SOCK_MACRAW
    requires Looking(s.rx) && DrainFresh(s.rx, s.c)
    ensures Advances(s, SoloStep(s), k, k)
  {
    SoloIsStep(s);
    LookAdvances(s.rx, s.c, k);
    assert DrainStep(s) == s.(rx := LookStep(s.rx, s.c));
    assert SoloStep(s) == DrainStep(s);
  }

  lemma SetRdSolo(s: Sys, k: nat)
    requires I.Following(s, k) && s.rx.RcvSetRd?
    ensures Advances(s, I.Settled(DrainStep(s)), k, k)
  {
    I.MovePlace(s.c, k);
  }

  lemma CommandSolo(s: Sys, k: nat)
    requires I.Following(s, k) && s.rx.RcvCommand?
    ensures Advances(s, I.Settled(DrainStep(s)), k, k)
  {
    I.CommandPlace(s.c, k);
  }

  lemma MoveSolo(s: Sys, k: nat)
    requires I.Following(s, k) && (s.rx.RcvSetRd? || s.rx.RcvCommand?)
    ensures Advances(s, SoloStep(s), k, k)
  {
    SoloIsStep(s);
    assert RxStep(s) == DrainStep(s);
    if s.rx.RcvSetRd? {
      SetRdSolo(s, k);
    } else {
      CommandSolo(s, k);
    }
  }

  lemma OfferSolo(s: Sys, k: nat)
    requires I.Following(s, k) && s.rx.RcvWait?
    ensures Advances(s, SoloStep(s), k, k + 1)
  {
    SoloIsStep(s);
    assert DrainStep(s) == s.(offered := s.offered + [s.rx.frame], rx := Reading(false, Hi1(0)));
  }

  lemma DrainAdvances(s: Sys, k: nat)
    requires I.Following(s, k) && s.c.sr == SOCK_MACRAW
    requires DrainFresh(s.rx, s.c)
    ensures Advances(s, SoloStep(s), k, I.Next(s, RxTask, k))
    ensures I.Follows(s, SoloStep(s), k, I.Next(s, RxTask, k))
  {
    SoloIsStep(s);
    I.RxFollows(s, k);
    if Looking(s.rx) {
      LookSolo(s, k);
    } else if s.rx.RcvWait? {
      OfferSolo(s, k);
    } else {
      MoveSolo(s, k);
    }
  }

  predicate Drained(s: Sys, u: Sys, k: nat, j: nat) {
    Ended(u.rx, u.c, j) && I.Delivered(s, u, k, j)
  }

  lemma DrainedNext(s: Sys, t: Sys, u: Sys, k: nat, l: nat, j: nat)
    requires I.Follows(s, t, k, l) && Drained(t, u, l, j) && k <= |s.c.rx.traffic|
    ensures Drained(s, u, k, j)
  {
    I.DeliveredNext(s, t, u, k, l, j);
  }

  lemma DrainedHere(t: Sys, k: nat)
    requires I.Following(t, k) && Ended(t.rx, t.c, k) && k <= |t.c.rx.traffic|
    ensures Drained(t, t, k, k)
  {
    assert t.c.rx.traffic[k..k] == [];
  }

  /** The drain ends, with everything that was in the ring offered or at a record that the driver
      does not accept. */
  lemma {:induction false} DrainSolo(s: Sys, k: nat) returns (n: nat, last: nat)
    requires I.Following(s, k) && s.c.sr == SOCK_MACRAW && DrainFresh(s.rx, s.c) && k <= |s.c.rx.traffic|
    ensures Drained(s, Solo(s, n), k, last) && SameOutside(s, Solo(s, n)) && Solo(s, n).c.snIr == s.c.snIr
    decreases Togo(s, k) + 40, 1
  {
    var t, l := SoloStep(s), I.Next(s, RxTask, k);
    DrainAdvances(s, k);
    n, last := DrainRest(s, t, k, l);
    SoloNext(s, n);
    n := n + 1;
  }

  lemma {:induction false} DrainRest(s: Sys, t: Sys, k: nat, l: nat) returns (n: nat, last: nat)
    requires I.Follows(s, t, k, l) && Advances(s, t, k, l)
    requires s.c.sr == SOCK_MACRAW && k <= |s.c.rx.traffic|
    ensures Drained(s, Solo(t, n), k, last) && SameOutside(s, Solo(t, n)) && Solo(t, n).c.snIr == s.c.snIr
    decreases Togo(s, k) + 40, 0
  {
    if Draining(t.rx) {
      n, last := DrainSolo(t, l);
    } else {
      n, last := 0, l;
      DrainedHere(t, l);
    }
    SoloNext(t, n);
    DrainedNext(s, t, Solo(t, n), k, l, last);
  }

  // ---------- from the wake-up to the stack ----------

  /** Nothing on the receive side has changed. */
  predicate SameRx(s: Sys, t: Sys) {
    t.c.rx == s.c.rx && t.c.cr == s.c.cr && t.c.sr == s.c.sr && t.offered == s.offered && t.pinHigh == s.pinHigh
  }

  lemma SoloTwice(s: Sys, m: nat, n: nat)
    ensures Solo(s, m + n) == Solo(Solo(s, m), n)
  {
    IterateAdds(SoloStep, s, m, n);
  }

  lemma ReadySolo(s: Sys) returns (n: nat)
    requires s.rx.SvcIr? && s.c.cr == 0
    ensures SameRx(s, Solo(s, n)) && Solo(s, n).rx == Reading(false, Hi1(0)) && !Solo(s, n).c.snIr.recv
  {
    var m := ServeSolo(s);
    var t := Solo(s, m);
    n := ClearSolo(t);
    SoloTwice(s, m, n);
    n := m + n;
  }

  lemma Onward(s: Sys, t: Sys, u: Sys, k: nat, j: nat)
    requires I.Following(s, k) && SameRx(s, t) && Drained(t, u, k, j)
    ensures Drained(s, u, k, j)
  {
  }

  /** A task that has just woken up brings what is in the ring to the stack. */
  lemma WakeSolo(s: Sys, k: nat) returns (n: nat, last: nat)
    requires I.Following(s, k) && s.c.sr == SOCK_MACRAW && s.rx.SvcIr? && k <= |s.c.rx.traffic|
    ensures Drained(s, Solo(s, n), k, last) && SameOutside(s, Solo(s, n)) && !Solo(s, n).c.snIr.recv
  {
    var m := ReadySolo(s);
    var t := Solo(s, m);
    n, last := DrainSolo(t, k);
    Onward(s, t, Solo(t, n), k, last);
    SoloTwice(s, m, n);
    n := m + n;
  }

  /** And then, with the pin high, it waits again with RECV clear, having left nothing in the ring,
      or having met a record that it does not accept. */
  lemma PassEnds(s: Sys, k: nat) returns (n: nat, last: nat)
    requires I.Following(s, k) && s.c.sr == SOCK_MACRAW && s.rx.SvcIr? && k <= |s.c.rx.traffic| && s.pinHigh
    ensures var u := Solo(s, n);
            && u.rx == Wait(last < s.c.rx.stored) && I.Delivered(s, u, k, last) && !u.c.snIr.recv
            && if last == s.c.rx.stored then Rsr(u.c.rx) == 0
               else last < s.c.rx.stored && !WellFormed(s.c.rx.traffic[last])
  {
    n, last := WakeSolo(s, k);
    var u := Solo(s, n);
    if u.rx.Level? {
      LevelWaits(u);
      SoloTwice(s, n, 1);
      SoloNext(u, 0);
      SoloNext(SoloStep(u), 0);
      n := n + 1;
    }
  }

  lemma LevelWaits(u: Sys)
    requires u.rx.Level? && u.pinHigh && u.c.cr == 0
    ensures SoloStep(u) == u.(rx := Wait(false))
  {
    SoloIsStep(u);
    assert RxStep(u) == OuterStep(u);
  }

  lemma SettledKeeps(s: Sys)
    requires Wakeup.Inv(s) && LinkUp.Ready(s)
    ensures Wakeup.Inv(I.Settled(s)) && LinkUp.Ready(I.Settled(s)) && I.Settled(s).c.cr == 0
  {
    LinkUp.OthersKeep(s, I.Settled(s));
  }

  lemma {:induction false} PromptRunKeeps(s: Sys, actions: seq<Action>)
    requires Wakeup.Inv(s) && LinkUp.Ready(s)
    ensures var t := I.PromptRun(s, actions);
            Wakeup.Inv(t) && LinkUp.Ready(t) && (actions != [] ==> t.c.cr == 0)
    decreases |actions|
  {
    if actions != [] {
      Wakeup.StepKeeps(s, actions[0]);
      LinkUp.StepKeeps(s, actions[0]);
      SettledKeeps(Step(s, actions[0]));
      PromptRunKeeps(I.PromptStep(s, actions[0]), actions[1..]);
    }
  }

  /** A task that has been given a notification starts a pass. */
  lemma Woken(w: Sys, k: nat)
    requires I.Following(w, k) && w.rx.Wait? && w.notif > 0
    ensures var u := SoloStep(w);
            u.rx.SvcIr? && u.c == w.c && u.offered == w.offered && I.Following(u, k)
  {
    SoloIsStep(w);
    assert RxStep(w) == OuterStep(w);
  }

  lemma NotifiedDelivers(s: Sys, w: Sys, first: nat, k: nat) returns (n: nat, last: nat)
    requires I.Delivered(s, w, first, k) && w.rx.Wait? && w.notif > 0 && w.c.sr == SOCK_MACRAW
    ensures Drained(s, Solo(w, n), first, last) && Solo(w, n).c.rx.stored == w.c.rx.stored
  {
    var v := SoloStep(w);
    Woken(w, k);
    n, last := WakeSolo(v, k);
    I.DeliveredTrans(s, v, Solo(v, n), first, k, last);
    n := n + 1;
  }

  lemma FallDelivers(s: Sys, t: Sys, first: nat, k: nat)
    requires I.Delivered(s, t, first, k) && t.rx.Wait? && Wakeup.EdgeDue(t)
    ensures I.Delivered(s, Fall(t), first, k) && Fall(t).notif > 0 && Fall(t).rx.Wait? && Fall(t).c == t.c
  {
  }

  /** A pass of the link poll that opens the socket, from power-up on. */
  predicate Opens(s: Sys, bringUp: seq<Action>) {
    var o := I.PromptRun(s, bringUp);
    o.link.Open? && I.OpenSafe(o.rx) && AllRecords(Reopened(o.c.rx).traffic)
  }

  function OpenedBy(s: Sys, bringUp: seq<Action>): Sys {
    I.PromptStep(I.PromptRun(s, bringUp), LinkPoll)
  }

  /** Power-up, a bring-up that opens the socket, and what follows up to the next OPEN. */
  predicate Session(s: Sys, bringUp: seq<Action>, traffic: seq<Action>) {
    Wakeup.Initial(s) && Opens(s, bringUp) && I.AllOrdinary(OpenedBy(s, bringUp), traffic)
  }

  lemma OpensFollowing(s: Sys, bringUp: seq<Action>)
    requires Wakeup.Initial(s) && Opens(s, bringUp)
    ensures var b := OpenedBy(s, bringUp);
            Wakeup.Inv(b) && LinkUp.Ready(b) && (I.Following(b, 0) || I.Carrying(b))
  {
    var o := I.PromptRun(s, bringUp);
    PromptRunKeeps(s, bringUp);
    OpenBegins(o, I.PromptStep(o, LinkPoll));
  }

  lemma OpenBegins(o: Sys, b: Sys)
    requires Wakeup.Inv(o) && LinkUp.Ready(o) && o.c.cr == 0 && o.link.Open? && b == I.PromptStep(o, LinkPoll)
    requires I.OpenSafe(o.rx) && AllRecords(Reopened(o.c.rx).traffic)
    ensures Wakeup.Inv(b) && LinkUp.Ready(b) && (I.Following(b, 0) || I.Carrying(b))
  {
    I.OpenFollows(o);
    I.OpenRestarts(o);
    Wakeup.StepKeeps(o, LinkPoll);
    LinkUp.StepKeeps(o, LinkPoll);
    SettledKeeps(Step(o, LinkPoll));
  }

  /** What a session begun at `b` has come to at `t`, the link being up and the RX task waiting. An
      edge is due whenever there are frames in the ring, no notification is pending, the link-up
      found the RX task registered and its last pass met no error. And if it has been given a
      notification, or an edge is due, then that and `n` steps of the RX task alone bring the stack
      to have been offered the first `last` records since `b`, each once and in order: every record
      the chip has stored, or those before one that is too short or too long. */
  predicate Fulfils(b: Sys, t: Sys, n: nat, last: nat) {
    var u := Solo(if t.notif > 0 then t else Fall(t), n);
    t.link.Up? && t.rx.Wait? ==>
      && (t.notif == 0 && t.armed && !t.rx.failed && Rsr(t.c.rx) > 0 ==> Wakeup.EdgeDue(t))
      && (t.notif > 0 || Wakeup.EdgeDue(t) ==> Drained(b, u, 0, last) && u.c.rx.stored == t.c.rx.stored)
  }

  /** The parts together. After power-up anything may happen, until the link poll opens the socket
      and does not catch the RX task with something of the old session that it is still going to
      use; what is said holds from then on, through the rest of the link-up and whatever follows it,
      up to the next OPEN. `carried` is the old frame that the RX task may have had in hand. */
  lemma EveryFrameIsDelivered(s: Sys, bringUp: seq<Action>, traffic: seq<Action>)
    returns (carried: seq<seq<byte>>, n: nat, last: nat)
    requires Session(s, bringUp, traffic)
    ensures var b := OpenedBy(s, bringUp);
            && (carried == [] || carried == I.InHand(b.rx))
            && Fulfils(I.After(b, carried), I.PromptRun(b, traffic), n, last)
  {
    OpensFollowing(s, bringUp);
    carried, n, last := Rest(OpenedBy(s, bringUp), traffic);
  }

  lemma Rest(b: Sys, traffic: seq<Action>) returns (carried: seq<seq<byte>>, n: nat, last: nat)
    requires Wakeup.Inv(b) && LinkUp.Ready(b) && (I.Following(b, 0) || I.Carrying(b)) && I.AllOrdinary(b, traffic)
    ensures carried == [] || carried == I.InHand(b.rx)
    ensures Fulfils(I.After(b, carried), I.PromptRun(b, traffic), n, last)
  {
    var t := I.PromptRun(b, traffic);
    var k;
    PromptRunKeeps(b, traffic);
    carried, k := I.SessionInOrder(b, traffic);
    n, last := 0, 0;
    if t.link.Up? && t.rx.Wait? {
      n, last := WaiterIsServed(I.After(b, carried), t, k);
    }
  }

  lemma WaiterIsServed(b: Sys, t: Sys, k: nat) returns (n: nat, last: nat)
    requires Wakeup.Inv(t) && LinkUp.Ready(t) && t.link.Up? && t.rx.Wait? && I.Delivered(b, t, 0, k)
    ensures Fulfils(b, t, n, last)
  {
    n, last := 0, 0;
    if t.notif > 0 {
      n, last := NotifiedDelivers(b, t, 0, k);
    } else {
      Wakeup.EdgeExact(t);
      if Wakeup.EdgeDue(t) {
        FallDelivers(b, t, 0, k);
        n, last := NotifiedDelivers(b, Fall(t), 0, k);
      }
    }
  }
}

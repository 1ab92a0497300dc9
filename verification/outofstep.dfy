/** What the RX task does when Sn_RX_RD is not where the chip reads: after a failure between
    Sn_RX_RD and RECV, and after an OPEN that has caught it unawares. */
module OutOfStep {
  import opened Words
  import opened Ring
  import opened W5500
  import opened Machine
  import opened Delivery
  import I = Interleaving

  // ---------- after a failure ----------

  lemma LookOnce(s: Sys)
    requires Looking(s.rx) && s.c.cr == 0
    ensures SoloStep(s) == s.(rx := LookStep(s.rx, s.c))
  {
    SoloIsStep(s);
    assert DrainStep(s) == s.(rx := LookStep(s.rx, s.c));
  }

  lemma {:induction false} ReadSolo(s: Sys) returns (n: nat)
    requires s.c.cr == 0 && s.rx.Reading? && ReadFresh(s.rx.stable, Rsr(s.c.rx))
    ensures Solo(s, n) == s.(rx := AfterRead(s.rx.inner, Got(Rsr(s.c.rx))))
    decreases DrainPlace(s.rx)
  {
    var t := SoloStep(s);
    LookOnce(s);
    FreshReadEnds(s.rx.stable, Rsr(s.c.rx));
    if s.rx.stable.Lo2? {
      n := 1;
      assert Iterate(SoloStep, t, 0) == t;
    } else {
      n := ReadSolo(t);
      n := n + 1;
    }
  }

  ghost predicate Leads(s: Sys, t: Sys) {
    exists n: nat :: Solo(s, n) == t
  }

  lemma LeadsTrans(s: Sys, t: Sys, u: Sys)
    requires Leads(s, t) && Leads(t, u)
    ensures Leads(s, u)
  {
    var m: nat :| Solo(s, m) == t;
    var n: nat :| Solo(t, n) == u;
    SoloTwice(s, m, n);
  }

  lemma StepLeads(s: Sys)
    ensures Leads(s, SoloStep(s))
  {
    assert Iterate(SoloStep, SoloStep(s), 0) == SoloStep(s);
    assert Solo(s, 1) == SoloStep(s);
  }

  lemma LookLeads(s: Sys, p: RxPc)
    requires Looking(p) && s.c.cr == 0
    ensures Leads(s.(rx := p), s.(rx := LookStep(p, s.c)))
  {
    LookOnce(s.(rx := p));
    StepLeads(s.(rx := p));
  }

  lemma ReadLeads(s: Sys, inner: bool)
    requires s.c.cr == 0
    ensures Leads(s.(rx := Reading(inner, Hi1(0))), s.(rx := AfterRead(inner, Got(Rsr(s.c.rx)))))
  {
    var n := ReadSolo(s.(rx := Reading(inner, Hi1(0))));
  }

  /** From the drain's first read to the header: in step or not, the RX task goes by Sn_RX_RSR and
      Sn_RX_RD as it finds them. */
  lemma HeaderLeads(s: Sys)
    requires s.c.cr == 0 && s.c.sr == SOCK_MACRAW && Rsr(s.c.rx) >= HEADER
    ensures Leads(s.(rx := Reading(false, Hi1(0))), s.(rx := RcvHeader(Rsr(s.c.rx), s.c.rx.rdReg)))
  {
    var s0, s1, s2 := s.(rx := Reading(false, Hi1(0))), s.(rx := RcvSr), s.(rx := Reading(true, Hi1(0)));
    var s3 := s.(rx := RcvRd(Rsr(s.c.rx)));
    ReadLeads(s, false);
    LookLeads(s, RcvSr);
    ReadLeads(s, true);
    LookLeads(s, RcvRd(Rsr(s.c.rx)));
    LeadsTrans(s0, s1, s2);
    LeadsTrans(s0, s2, s3);
    LeadsTrans(s0, s3, s.(rx := RcvHeader(Rsr(s.c.rx), s.c.rx.rdReg)));
  }

  lemma CommitLeads(s: Sys) returns (t: Sys)
    requires s.rx.RcvSetRd? && s.c.cr == 0
    ensures Leads(s, t) && t.offered == s.offered + [s.rx.frame]
  {
    var s1 := SoloStep(s);
    CommitOnce(s);
    var s2 := SoloStep(s1);
    CommitOnce(s1);
    t := SoloStep(s2);
    CommitOnce(s2);
    StepLeads(s);
    StepLeads(s1);
    StepLeads(s2);
    LeadsTrans(s, s1, s2);
    LeadsTrans(s, s2, t);
  }

  lemma CommitOnce(s: Sys)
    requires (s.rx.RcvSetRd? || s.rx.RcvCommand? || s.rx.RcvWait?) && s.c.cr == 0
    ensures var t := SoloStep(s);
            && t.c.cr == 0
            && (s.rx.RcvSetRd? ==> t.rx == RcvCommand(s.rx.frame) && t.offered == s.offered)
            && (s.rx.RcvCommand? ==> t.rx == RcvWait(s.rx.frame) && t.offered == s.offered)
            && (s.rx.RcvWait? ==> t.rx == Reading(false, Hi1(0)) && t.offered == s.offered + [s.rx.frame])
  {
    SoloIsStep(s);
  }

  /** What follows a failure between Sn_RX_RD and RECV. The register is ahead of the ring; the next
      pass reads a header there and checks it against the count of bytes before it. Whatever bytes
      it finds that look like a header are taken for one, and what is behind them is offered to the
      stack. */
  lemma PassOffers(s: Sys, m: nat) returns (t: Sys)
    requires s.rx == Reading(false, Hi1(0)) && s.c.cr == 0 && s.c.sr == SOCK_MACRAW && Rsr(s.c.rx) >= HEADER
    requires AfterHeader(s.c, Rsr(s.c.rx), s.c.rx.rdReg) == RcvBody(s.c.rx.rdReg, m)
    ensures Leads(s, t)
    ensures t.offered == s.offered + [ReadRing(s.c.rx.mem, Add16(s.c.rx.rdReg, HEADER), m)]
  {
    var rd, v := s.c.rx.rdReg, Rsr(s.c.rx);
    var s1, s2 := s.(rx := RcvHeader(v, rd)), s.(rx := RcvBody(rd, m));
    var s3 := s.(rx := RcvSetRd(rd, ReadRing(s.c.rx.mem, Add16(rd, HEADER), m)));
    assert s == s.(rx := Reading(false, Hi1(0)));
    HeaderLeads(s);
    LookLeads(s, RcvHeader(v, rd));
    LookLeads(s, RcvBody(rd, m));
    LeadsTrans(s, s1, s2);
    LeadsTrans(s, s2, s3);
    t := CommitLeads(s3);
    LeadsTrans(s, s3, t);
  }

  /** Or it finds none, and gives up as it began. */
  lemma PassFails(s: Sys)
    requires s.rx == Reading(false, Hi1(0)) && s.c.cr == 0 && s.c.sr == SOCK_MACRAW && Rsr(s.c.rx) >= HEADER
    requires !AfterHeader(s.c, Rsr(s.c.rx), s.c.rx.rdReg).RcvBody?
    ensures Leads(s, s.(rx := Wait(true)))
  {
    assert s == s.(rx := Reading(false, Hi1(0)));
    HeaderLeads(s);
    LookLeads(s, RcvHeader(Rsr(s.c.rx), s.c.rx.rdReg));
    LeadsTrans(s, s.(rx := RcvHeader(Rsr(s.c.rx), s.c.rx.rdReg)), s.(rx := Wait(true)));
  }

  lemma LastRecord(x: Rx, k: nat)
    requires RxValid(x) && k + 1 == x.stored && x.taken == |Flat(x.traffic, k)|
    ensures Rsr(x) == |x.traffic[k]|
  {
    OpenRx(x);
  }

  /** If the failure came with a single record in the ring, all of that lies behind the chip's write
      pointer: bytes of frames long gone. */
  lemma OneRecordIsStale(c: State, k: nat)
    requires I.Moved(c, k) && k + 1 == c.rx.stored && AllRecords(c.rx.traffic)
    ensures c.rx.rdReg == WrPtr(c.rx) && Rsr(c.rx) == |c.rx.traffic[k]| >= HEADER
  {
    LastRecord(c.rx, k);
    AddWrapped(c.rx.taken, Rsr(c.rx));
  }

  // ---------- OPEN at an unsafe place ----------

  /** Whether the RX task goes by a count, a pointer or a length that it has read, the ring having
      been empty ever since. */
  predicate GoesBy(p: RxPc) {
    p.RcvRd? || p.RcvHeader? || p.RcvBody? || (p.Reading? && p.inner && !I.NotEmpty(p.stable, 0))
  }

  function GoesByPlace(p: RxPc): nat {
    match p
    case Reading(_, q) => if I.NotEmpty(q, 0) then 0 else 4
    case RcvRd(_) => 3
    case RcvHeader(_, _) => 2
    case RcvBody(_, _) => 1
    case _ => 0
  }

  lemma GoesByLess(p: RxPc, c: State)
    requires GoesBy(p)
    ensures GoesByPlace(LookStep(p, c)) < GoesByPlace(p)
  {
  }

  /** Where that takes it, if nothing else happens: to the write of Sn_RX_RD, or nowhere. */
  function Bound(p: RxPc, c: State): (q: RxPc)
    ensures !GoesBy(q)
    decreases GoesByPlace(p)
  {
    if GoesBy(p) then GoesByLess(p, c); Bound(LookStep(p, c), c) else p
  }

  /** What the commit writes to Sn_RX_RD, which holds `rdReg`. */
  function Written(p: RxPc, rdReg: u16): u16 {
    match p
    case RcvSetRd(rd, frame) => Add16(rd, HEADER + |frame|)
    case _ => rdReg
  }

  /** What the RX task leaves in Sn_RX_RD. */
  function LandsAt(p: RxPc, c: State): u16 { Written(Bound(p, c), c.rx.rdReg) }

  lemma {:induction false} BoundSolo(s: Sys) returns (n: nat)
    requires s.c.cr == 0
    ensures Solo(s, n) == s.(rx := Bound(s.rx, s.c))
    decreases GoesByPlace(s.rx)
  {
    n := 0;
    if GoesBy(s.rx) {
      GoesByLess(s.rx, s.c);
      LookOnce(s);
      n := BoundSolo(s.(rx := LookStep(s.rx, s.c)));
      SoloNext(s, n);
      n := n + 1;
    } else {
      SoloNext(s, 0);
    }
  }

  predicate EmptyRing(c: State) { c.cr == 0 && c.rx.taken == c.rx.end == 0 }

  function WithRd(s: Sys, rd: u16): Sys
    requires s.c.cr == 0
  {
    s.(c := s.c.(rx := s.c.rx.(rdReg := rd)))
  }

  predicate Committing(p: RxPc) { p.RcvSetRd? || p.RcvCommand? || p.RcvWait? }

  lemma EmptyWrites(c: State, rd: u16)
    requires EmptyRing(c)
    ensures WriteRd(c, rd) == c.(rx := c.rx.(rdReg := rd))
    ensures var d := WriteCommand(c, CR_RECV); (if d.cr == 0 then d else Accepted(d)) == c
  {
  }

  function EmptyStep(s: Sys): Sys
    requires s.c.cr == 0 && Committing(s.rx)
  {
    match s.rx
    case RcvSetRd(rd, frame) => WithRd(s, Add16(rd, HEADER + |frame|)).(rx := RcvCommand(frame))
    case RcvCommand(frame) => s.(rx := RcvWait(frame))
    case RcvWait(frame) => s.(offered := s.offered + [frame], rx := Reading(false, Hi1(0)))
  }

  lemma SetRdEmpty(s: Sys)
    requires EmptyRing(s.c) && s.rx.RcvSetRd?
    ensures I.Settled(DrainStep(s)) == EmptyStep(s)
  {
    EmptyWrites(s.c, Written(s.rx, 0));
  }

  lemma CommandEmpty(s: Sys)
    requires EmptyRing(s.c) && s.rx.RcvCommand?
    ensures I.Settled(DrainStep(s)) == EmptyStep(s)
  {
    EmptyWrites(s.c, 0);
  }

  lemma EmptyCommits(s: Sys)
    requires EmptyRing(s.c) && Committing(s.rx)
    ensures SoloStep(s) == EmptyStep(s)
  {
    I.DrainIsStep(s);
    if s.rx.RcvSetRd? {
      SetRdEmpty(s);
    } else if s.rx.RcvCommand? {
      CommandEmpty(s);
    }
  }

  /** What the commit comes to on an empty ring: it moves Sn_RX_RD and nothing else, and the frame is
      offered. */
  function Emptied(s: Sys): Sys
    requires s.c.cr == 0
  {
    I.After(WithRd(s, Written(s.rx, s.c.rx.rdReg)), I.InHand(s.rx)).(rx := Reading(false, Hi1(0)))
  }

  lemma SetRdNext(s: Sys, t: Sys)
    requires EmptyRing(s.c) && s.rx.RcvSetRd? && t == EmptyStep(s)
    ensures EmptyRing(t.c) && t.rx.RcvCommand? && Emptied(t) == Emptied(s)
  {
  }

  lemma CommandNext(s: Sys, t: Sys)
    requires EmptyRing(s.c) && s.rx.RcvCommand? && t == EmptyStep(s)
    ensures EmptyRing(t.c) && t.rx.RcvWait? && Emptied(t) == Emptied(s)
  {
  }

  lemma WaitNext(s: Sys, t: Sys)
    requires EmptyRing(s.c) && s.rx.RcvWait? && t == EmptyStep(s)
    ensures t == Emptied(s)
  {
    assert WithRd(s, s.c.rx.rdReg) == s;
  }

  function CommitPlace(p: RxPc): nat { if p.RcvSetRd? then 2 else if p.RcvCommand? then 1 else 0 }

  lemma {:induction false} EmptySolo(s: Sys) returns (n: nat)
    requires EmptyRing(s.c) && Committing(s.rx)
    ensures Solo(s, n) == Emptied(s)
    decreases CommitPlace(s.rx), 1
  {
    EmptyCommits(s);
    n := EmptyRest(s, EmptyStep(s));
    SoloNext(s, n);
    n := n + 1;
  }

  lemma {:induction false} EmptyRest(s: Sys, t: Sys) returns (n: nat)
    requires EmptyRing(s.c) && Committing(s.rx) && t == EmptyStep(s)
    ensures Solo(t, n) == Emptied(s)
    decreases CommitPlace(s.rx), 0
  {
    n := 0;
    if s.rx.RcvWait? {
      WaitNext(s, t);
      SoloNext(t, 0);
    } else {
      if s.rx.RcvSetRd? {
        SetRdNext(s, t);
      } else {
        CommandNext(s, t);
      }
      n := EmptySolo(t);
    }
  }

  /** The state in which the RX task is done with what it had in hand. */
  function Done(b: Sys): Sys
    requires b.c.cr == 0
  {
    var t := b.(rx := Bound(b.rx, b.c));
    if Committing(t.rx) then Emptied(t) else t
  }

  lemma DoneSolo(b: Sys) returns (n: nat)
    requires EmptyRing(b.c)
    ensures Solo(b, n) == Done(b)
  {
    var t := b.(rx := Bound(b.rx, b.c));
    n := BoundSolo(b);
    if Committing(t.rx) {
      var m := EmptySolo(t);
      SoloTwice(b, n, m);
      n := n + m;
    }
  }

  lemma DoneFollows(b: Sys)
    requires EmptyRing(b.c) && b.c.rx.stored == 0 && AllRecords(b.c.rx.traffic)
    ensures I.Following(Done(b), 0) <==> LandsAt(b.rx, b.c) == 0
  {
    var q, u := Bound(b.rx, b.c), Done(b);
    assert !GoesBy(u.rx) && !Committing(u.rx);
  }

  /** What becomes of an OPEN, exactly. Left alone, the RX task finishes what it has in hand and is
      then in place for the first record of the new session if and only if it leaves Sn_RX_RD at 0.
      What it has offered by then is the frame that it had in hand, or whatever bytes it found where
      the old pointers led it. */
  lemma OpenExactly(s: Sys) returns (n: nat)
    requires s.c.cr == 0 && s.link.Open? && AllRecords(Reopened(s.c.rx).traffic)
    ensures var b := I.PromptStep(s, LinkPoll);
            var u := Solo(b, n);
            && u == Done(b) && u.c.rx.rdReg == LandsAt(s.rx, b.c)
            && u.offered == s.offered + I.InHand(Bound(s.rx, b.c))
            && (I.Following(u, 0) <==> LandsAt(s.rx, b.c) == 0)
            && (I.OpenSafe(s.rx) ==> LandsAt(s.rx, b.c) == 0)
  {
    var b := I.PromptStep(s, LinkPoll);
    I.OpenRestarts(s);
    n := DoneSolo(b);
    DoneFollows(b);
  }
}

/** The packet rings of socket 0 and the two halves of the chip that use them. */
module Ring {
  import opened Words

  // ---------- pointers ----------

  lemma SubAdd(p: u16, n: nat)
    requires n < 0x1_0000
    ensures Sub16(Add16(p, n), p) == n
  {
  }

  lemma AddSub(p: nat, v: u16)
    ensures (p + Sub16(v, p % 0x1_0000)) % 0x1_0000 == v
  {
  }

  lemma AddWrapped(p: nat, n: nat)
    ensures Add16(p % 0x1_0000, n) == (p + n) % 0x1_0000
  {
  }

  // ---------- ring memory ----------

  /** `n` bytes from position `p`: the index wraps at the ring end. */
  function ReadRing(mem: seq<byte>, p: nat, n: nat): (r: seq<byte>)
    requires |mem| == RING
    ensures |r| == n
  {
    seq(n, i requires 0 <= i < n => mem[(p + i) % RING])
  }

  /** Memory after `data` has been stored from position `p` on. */
  function WriteRing(mem: seq<byte>, p: nat, data: seq<byte>): (m: seq<byte>)
    requires |mem| == RING && |data| <= RING
    ensures |m| == RING
  {
    seq(RING, j requires 0 <= j < RING => if (j - p) % RING < |data| then data[(j - p) % RING] else mem[j])
  }

  lemma ReadAfterWrite(mem: seq<byte>, p: nat, data: seq<byte>)
    requires |mem| == RING && |data| <= RING
    ensures ReadRing(WriteRing(mem, p, data), p, |data|) == data
  {
    forall i | 0 <= i < |data|
      ensures ReadRing(WriteRing(mem, p, data), p, |data|)[i] == data[i]
    {
      assert ((p + i) % RING - p) % RING == i;
    }
  }

  /** Ring distance from a write position to a byte that lies `n - i` before it. */
  lemma DistanceBehind(q: nat, n: nat, i: nat, p: nat)
    requires i < n <= RING && p == q + n
    ensures ((q + i) % RING - p) % RING == RING + i - n
  {
    assert ((q + i) % RING - p) % RING == (q + i - p) % RING;
  }

  /** A write of at most the free space directly behind `n` live bytes leaves them alone. */
  lemma ReadBesideWrite(mem: seq<byte>, q: nat, n: nat, p: nat, data: seq<byte>)
    requires |mem| == RING && n + |data| <= RING && p == q + n
    ensures ReadRing(WriteRing(mem, p, data), q, n) == ReadRing(mem, q, n)
  {
    forall i | 0 <= i < n
      ensures ReadRing(WriteRing(mem, p, data), q, n)[i] == ReadRing(mem, q, n)[i]
    {
      DistanceBehind(q, n, i, p);
    }
  }

  lemma ReadSplit(mem: seq<byte>, p: nat, n: nat, m: nat)
    requires |mem| == RING
    ensures ReadRing(mem, p, n + m) == ReadRing(mem, p, n) + ReadRing(mem, p + n, m)
  {
  }

  lemma AgreeOnParts(a: seq<byte>, b: seq<byte>, p: nat, n: nat, m: nat)
    requires |a| == RING && |b| == RING && ReadRing(a, p, n + m) == ReadRing(b, p, n + m)
    ensures ReadRing(a, p, n) == ReadRing(b, p, n) && ReadRing(a, p + n, m) == ReadRing(b, p + n, m)
  {
    ReadSplit(a, p, n, m);
    ReadSplit(b, p, n, m);
    assert ReadRing(a, p, n) == ReadRing(a, p, n + m)[..n] && ReadRing(b, p, n) == ReadRing(b, p, n + m)[..n];
  }

  lemma WholeTurns(x: int, k: int)
    ensures (x + RING * k) % RING == x % RING
  {
  }

  /** Ring distances depend on the position of the pointer in the ring only. */
  lemma SameDistance(x: int, p: int, q: int)
    requires p % RING == q % RING
    ensures (x - p) % RING == (x - q) % RING && (x + p) % RING == (x + q) % RING
  {
    var k := q / RING - p / RING;
    assert q - p == RING * k;
    WholeTurns(x - q, k);
    WholeTurns(x + p, k);
  }

  /** Pointer wrap at 65536 is invisible to the ring, whose size divides it. */
  lemma WrapInRing(p: nat)
    ensures p % 0x1_0000 % RING == p % RING
  {
    var k := p / 0x1_0000;
    assert p == p % 0x1_0000 + RING * (4 * k);
    WholeTurns(p % 0x1_0000, 4 * k);
  }

  lemma ReadShifted(mem: seq<byte>, p: nat, q: nat, n: nat)
    requires |mem| == RING && p % RING == q % RING
    ensures ReadRing(mem, p, n) == ReadRing(mem, q, n)
  {
    forall i | 0 <= i < n
      ensures ReadRing(mem, p, n)[i] == ReadRing(mem, q, n)[i]
    {
      SameDistance(i, p, q);
    }
  }

  lemma WriteShifted(mem: seq<byte>, p: nat, q: nat, data: seq<byte>)
    requires |mem| == RING && |data| <= RING && p % RING == q % RING
    ensures WriteRing(mem, p, data) == WriteRing(mem, q, data)
  {
    forall j | 0 <= j < RING
      ensures WriteRing(mem, p, data)[j] == WriteRing(mem, q, data)[j]
    {
      SameDistance(j, p, q);
    }
  }

  lemma ReadWrapped(mem: seq<byte>, p: nat, n: nat)
    requires |mem| == RING
    ensures ReadRing(mem, p % 0x1_0000, n) == ReadRing(mem, p, n)
  {
    WrapInRing(p);
    ReadShifted(mem, p % 0x1_0000, p, n);
  }

  lemma WriteWrapped(mem: seq<byte>, p: nat, data: seq<byte>)
    requires |mem| == RING && |data| <= RING
    ensures WriteRing(mem, p % 0x1_0000, data) == WriteRing(mem, p, data)
  {
    WrapInRing(p);
    WriteShifted(mem, p % 0x1_0000, p, data);
  }

  // ---------- records ----------

  /** The first `n` of a run of records, laid end to end. */
  function Flat(rs: seq<seq<byte>>, n: nat): seq<byte>
    requires n <= |rs|
  {
    if n == 0 then [] else Flat(rs, n - 1) + rs[n - 1]
  }

  lemma {:induction false} FlatPrefix(rs: seq<seq<byte>>, j: nat, n: nat)
    requires j <= n <= |rs|
    ensures Flat(rs, j) <= Flat(rs, n)
  {
    if j < n {
      FlatPrefix(rs, j, n - 1);
    }
  }

  lemma {:induction false} FlatSame(a: seq<seq<byte>>, b: seq<seq<byte>>, n: nat)
    requires n <= |a| && n <= |b| && forall i | 0 <= i < n :: a[i] == b[i]
    ensures Flat(a, n) == Flat(b, n)
  {
    if n > 0 {
      FlatSame(a, b, n - 1);
    }
  }

  /** What the chip stores for an Ethernet frame: a big-endian length that counts itself,
      then the frame. */
  function Record(frame: seq<byte>): seq<byte>
    requires |frame| + HEADER < 0x1_0000
  {
    [Hi(|frame| + HEADER), Lo(|frame| + HEADER)] + frame
  }

  /** What the chip stores: the length field is right. */
  predicate IsRecord(r: seq<byte>) {
    HEADER <= |r| && Join(r[0], r[1]) == |r|
  }

  predicate AllRecords(rs: seq<seq<byte>>) {
    forall i | 0 <= i < |rs| :: IsRecord(rs[i])
  }

  /** A record that the driver accepts. */
  predicate WellFormed(r: seq<byte>) {
    HEADER + MIN_FRAME <= |r| <= HEADER + RX_BUF_SIZE && IsRecord(r)
  }

  /** The Ethernet frames carried by a run of records. */
  function Frames(rs: seq<seq<byte>>): (fs: seq<seq<byte>>)
    requires AllRecords(rs)
    ensures |fs| == |rs|
  {
    seq(|rs|, i requires 0 <= i < |rs| && IsRecord(rs[i]) => rs[i][HEADER..])
  }

  lemma FramesSplit(rs: seq<seq<byte>>, i: nat, j: nat, k: nat)
    requires AllRecords(rs) && i <= j <= k <= |rs|
    ensures Frames(rs[i..k]) == Frames(rs[i..j]) + Frames(rs[j..k])
  {
    var a, b, all := rs[i..j], rs[j..k], rs[i..k];
    assert all == a + b;
    assert forall n | 0 <= n < |all| :: Frames(all)[n] == (Frames(a) + Frames(b))[n];
  }

  lemma LengthField(f: seq<byte>)
    requires |f| + HEADER < 0x1_0000
    ensures Join(Record(f)[0], Record(f)[1]) == |Record(f)|
  {
  }

  /** Exactly the frames of 60 to 1600 bytes have well-formed records. */
  lemma RecordsOfFrames(r: seq<byte>)
    ensures WellFormed(r) <==>
            exists f: seq<byte> :: MIN_FRAME <= |f| <= RX_BUF_SIZE && r == Record(f)
  {
    if WellFormed(r) {
      assert r == Record(r[HEADER..]);
    }
    if f: seq<byte> :| MIN_FRAME <= |f| <= RX_BUF_SIZE && r == Record(f) {
      LengthField(f);
    }
  }

  // ---------- receive half ----------

  /** `traffic` is every record the chip is going to accept after OPEN, in order, of which the
      first `stored` have reached the ring. `end` counts the bytes stored and `taken` the bytes
      released by RECV; OPEN starts both pointers at zero, so these are the unbounded values
      behind the chip's 16-bit pointers. `rdReg` is what the host last wrote to Sn_RX_RD;
      `sessions` is the traffic after each further OPEN. */
  datatype Rx = Rx(
    mem: seq<byte>, rdReg: u16,
    traffic: seq<seq<byte>>, stored: nat, end: nat, taken: nat,
    sessions: seq<seq<seq<byte>>>)

  ghost predicate RxValid(x: Rx) {
    && |x.mem| == RING
    && x.stored <= |x.traffic|
    && x.taken <= x.end <= x.taken + RING
    && forall i: nat :: RxByte(x.mem, x.traffic, x.stored, x.taken, x.end, i)
  }

  /** The ring holds exactly what was stored and not yet released. */
  ghost predicate RxIntact(x: Rx) {
    && |x.mem| == RING && x.stored <= |x.traffic| && x.taken <= x.end
    && x.end == |Flat(x.traffic, x.stored)|
    && Live(x) == Flat(x.traffic, x.stored)[x.taken..]
  }

  /** The `i`-th byte of the session: the ones before `end` have been stored, and those of them not
      released are in the ring. */
  predicate RxByte(mem: seq<byte>, traffic: seq<seq<byte>>, stored: nat, taken: nat, end: nat, i: nat)
    requires |mem| == RING && stored <= |traffic|
  {
    && (i < end <==> i < |Flat(traffic, stored)|)
    && (taken <= i < end ==> mem[i % RING] == Flat(traffic, stored)[i])
  }

  lemma OpenRx(x: Rx)
    requires |x.mem| == RING && x.stored <= |x.traffic| && x.taken <= x.end <= x.taken + RING
    ensures RxValid(x) <==> RxIntact(x)
  {
    var all := Flat(x.traffic, x.stored);
    if RxValid(x) {
      assert RxByte(x.mem, x.traffic, x.stored, x.taken, x.end, x.end);
      assert RxByte(x.mem, x.traffic, x.stored, x.taken, x.end, |all|);
      forall i | 0 <= i < x.end - x.taken
        ensures Live(x)[i] == all[x.taken..][i]
      {
        assert RxByte(x.mem, x.traffic, x.stored, x.taken, x.end, x.taken + i);
      }
    }
    if RxIntact(x) {
      forall i: nat
        ensures RxByte(x.mem, x.traffic, x.stored, x.taken, x.end, i)
      {
        if x.taken <= i < x.end {
          assert Live(x)[i - x.taken] == all[x.taken..][i - x.taken];
        }
      }
    }
  }

  /** The bytes that are in the ring. */
  function Live(x: Rx): (bytes: seq<byte>)
    requires |x.mem| == RING && x.taken <= x.end
    ensures |bytes| == x.end - x.taken
  {
    ReadRing(x.mem, x.taken, x.end - x.taken)
  }

  /** The 16-bit pointers. */
  function RdPtr(x: Rx): u16 { x.taken % 0x1_0000 }
  function WrPtr(x: Rx): u16 { x.end % 0x1_0000 }

  /** Sn_RX_RSR */
  function Rsr(x: Rx): u16
    requires x.taken <= x.end <= x.taken + RING
  {
    x.end - x.taken
  }

  /** Sn_RX_RSR is the 16-bit difference of the chip's pointers, whatever the host has written to
      Sn_RX_RD. Sn_RX_RD plus Sn_RX_RSR is the chip's write pointer exactly while the chip reads
      where the host does. */
  lemma RsrIsPointerDistance(x: Rx)
    requires RxValid(x)
    ensures Rsr(x) == Sub16(WrPtr(x), RdPtr(x))
    ensures Add16(x.rdReg, Rsr(x)) == WrPtr(x) <==> x.rdReg == RdPtr(x)
  {
    SumPointers(x.taken, Rsr(x), x.rdReg);
  }

  lemma SumPointers(p: nat, n: nat, v: u16)
    requires n <= RING
    ensures Sub16((p + n) % 0x1_0000, p % 0x1_0000) == n
    ensures Add16(v, n) == (p + n) % 0x1_0000 <==> v == p % 0x1_0000
  {
  }

  predicate Fits(x: Rx)
    requires x.taken <= x.end
  {
    x.stored < |x.traffic| && x.end - x.taken + |x.traffic[x.stored]| <= RING
  }

  /** The chip stores the next record whole, then moves its write pointer. */
  function Publish(x: Rx): Rx
    requires RxValid(x) && Fits(x)
  {
    var r := x.traffic[x.stored];
    x.(mem := WriteRing(x.mem, x.end, r), stored := x.stored + 1, end := x.end + |r|)
  }

  lemma PublishKeeps(x: Rx)
    requires RxValid(x) && Fits(x)
    ensures RxValid(Publish(x)) && Live(Publish(x)) == Live(x) + x.traffic[x.stored]
  {
    var y, r := Publish(x), x.traffic[x.stored];
    OpenRx(x);
    OpenRx(y);
    StoreBehind(x.mem, x.taken, x.end, r);
    assert (Flat(x.traffic, x.stored) + r)[x.taken..] == Flat(x.traffic, x.stored)[x.taken..] + r;
  }

  lemma StoreBehind(mem: seq<byte>, p: nat, q: nat, data: seq<byte>)
    requires |mem| == RING && p <= q && q - p + |data| <= RING
    ensures ReadRing(WriteRing(mem, q, data), p, q - p + |data|) == ReadRing(mem, p, q - p) + data
  {
    ReadSplit(WriteRing(mem, q, data), p, q - p, |data|);
    ReadBesideWrite(mem, p, q - p, q, data);
    ReadAfterWrite(mem, q, data);
  }

  /** How far Sn_RX_RD is ahead of the chip's read pointer. */
  function Ahead(x: Rx): nat { Sub16(x.rdReg, RdPtr(x)) }

  /** The RECV command: the chip takes over Sn_RX_RD. */
  function Commit(x: Rx): Rx {
    x.(taken := x.taken + Ahead(x))
  }

  lemma CommitKeeps(x: Rx)
    requires RxValid(x) && Ahead(x) <= Rsr(x)
    ensures RxValid(Commit(x)) && Live(Commit(x)) == Live(x)[Ahead(x)..]
    ensures RdPtr(Commit(x)) == x.rdReg
  {
    OpenRx(x);
    OpenRx(Commit(x));
    AddSub(x.taken, x.rdReg);
    ReadSplit(x.mem, x.taken, Ahead(x), Rsr(x) - Ahead(x));
  }

  /** The records that come in after the next OPEN. */
  function NextSession(x: Rx): seq<seq<byte>> { if x.sessions == [] then [] else x.sessions[0] }

  /** OPEN: both pointers restart at zero. */
  function Reopened(x: Rx): Rx {
    Rx(x.mem, 0, NextSession(x), 0, 0, 0, if x.sessions == [] then [] else x.sessions[1..])
  }

  lemma ReopenedValid(x: Rx)
    requires |x.mem| == RING
    ensures RxValid(Reopened(x))
  {
    OpenRx(Reopened(x));
  }

  /** `b` is `a` after any number of further records. */
  predicate RxGrows(a: Rx, b: Rx) {
    && b == a.(mem := b.mem, stored := b.stored, end := b.end)
    && a.stored <= b.stored
  }

  lemma RxGrowsLive(a: Rx, b: Rx)
    requires RxValid(a) && RxValid(b) && RxGrows(a, b)
    ensures Live(a) <= Live(b) && Rsr(a) <= Rsr(b)
  {
    OpenRx(a);
    OpenRx(b);
    FlatPrefix(b.traffic, a.stored, b.stored);
  }

  lemma CommitMonotone(a: Rx, b: Rx)
    requires RxValid(a) && RxValid(b) && RxGrows(a, b) && Ahead(a) <= Rsr(a)
    ensures RxGrows(Commit(a), Commit(b)) && Ahead(b) <= Rsr(b)
  {
    RxGrowsLive(a, b);
  }

  /** Bytes in the ring are read back from a 16-bit offset, wherever it wraps. */
  lemma ReadLive(x: Rx, off: nat, n: nat)
    requires RxValid(x) && off + n <= Rsr(x)
    ensures ReadRing(x.mem, Add16(RdPtr(x), off), n) == Live(x)[off..off + n]
  {
    ReadSplit(x.mem, x.taken, off, Rsr(x) - off);
    ReadSplit(x.mem, x.taken + off, n, Rsr(x) - off - n);
    ReadWrapped(x.mem, x.taken + off, n);
    assert Add16(RdPtr(x), off) == (x.taken + off) % 0x1_0000;
  }

  // ---------- transmit half ----------

  /** Unbounded positions again. `outbox` is every segment accepted since OPEN, up to `latched`,
      of which the first `left` have been transmitted, up to `gone`; `put` is where the host has
      moved Sn_TX_WR. `wire` is what the chip actually sent: the bytes it found in its memory
      when it sent them. */
  datatype Tx = Tx(
    mem: seq<byte>, outbox: seq<seq<byte>>, left: nat,
    gone: nat, latched: nat, put: nat, wire: seq<seq<byte>>)

  ghost predicate TxValid(x: Tx) {
    && |x.mem| == RING
    && x.left <= |x.outbox|
    && x.gone <= x.latched <= x.put <= x.gone + RING
    && forall i: nat :: TxByte(x.mem, x.outbox, x.left, x.gone, x.latched, x.wire, i)
  }

  /** The ring still holds every accepted segment that has not left, and what has left went out
      as it was accepted. */
  ghost predicate TxIntact(x: Tx) {
    && |x.mem| == RING && x.left <= |x.outbox| && x.gone <= x.latched
    && x.latched == |Flat(x.outbox, |x.outbox|)|
    && x.gone == |Flat(x.outbox, x.left)|
    && ReadRing(x.mem, x.gone, x.latched - x.gone) == Flat(x.outbox, |x.outbox|)[x.gone..]
    && x.wire == x.outbox[..x.left]
  }

  /** The `i`-th byte of the accepted segments, and the `i`-th segment on the wire. */
  predicate TxByte(mem: seq<byte>, outbox: seq<seq<byte>>, left: nat, gone: nat, latched: nat,
                   wire: seq<seq<byte>>, i: nat)
    requires |mem| == RING && left <= |outbox|
  {
    && (i < latched <==> i < |Flat(outbox, |outbox|)|)
    && (i < gone <==> i < |Flat(outbox, left)|)
    && (gone <= i < latched ==> mem[i % RING] == Flat(outbox, |outbox|)[i])
    && (i < |wire| <==> i < left) && (i < left ==> wire[i] == outbox[i])
  }

  lemma OpenTx(x: Tx)
    requires |x.mem| == RING && x.left <= |x.outbox| && x.gone <= x.latched <= x.put <= x.gone + RING
    ensures TxValid(x) <==> TxIntact(x)
  {
    if TxValid(x) {
      TxValidIntact(x);
    }
    if TxIntact(x) {
      TxIntactValid(x);
    }
  }

  lemma TxByteAt(x: Tx, i: nat)
    requires TxValid(x)
    ensures TxByte(x.mem, x.outbox, x.left, x.gone, x.latched, x.wire, i)
  {
  }

  lemma TxValidIntact(x: Tx)
    requires TxValid(x)
    ensures TxIntact(x)
  {
    var all := Flat(x.outbox, |x.outbox|);
    TxByteAt(x, x.latched);
    TxByteAt(x, |all|);
    TxByteAt(x, x.gone);
    TxByteAt(x, |Flat(x.outbox, x.left)|);
    TxByteAt(x, |x.wire|);
    TxByteAt(x, x.left);
    forall i | 0 <= i < x.latched - x.gone
      ensures ReadRing(x.mem, x.gone, x.latched - x.gone)[i] == all[x.gone..][i]
    {
      TxByteAt(x, x.gone + i);
    }
    forall i | 0 <= i < x.left
      ensures i < |x.wire| && x.wire[i] == x.outbox[i]
    {
      TxByteAt(x, i);
    }
  }

  lemma TxIntactValid(x: Tx)
    requires |x.mem| == RING && x.left <= |x.outbox| && x.gone <= x.latched <= x.put <= x.gone + RING
    requires TxIntact(x)
    ensures TxValid(x)
  {
    var all := Flat(x.outbox, |x.outbox|);
    forall i: nat
      ensures TxByte(x.mem, x.outbox, x.left, x.gone, x.latched, x.wire, i)
    {
      if x.gone <= i < x.latched {
        assert ReadRing(x.mem, x.gone, x.latched - x.gone)[i - x.gone] == all[x.gone..][i - x.gone];
      }
    }
  }

  /** What the chip has sent is what it accepted, in order and byte for byte. */
  lemma WireIsOutbox(x: Tx)
    requires TxValid(x)
    ensures x.wire <= x.outbox
  {
    OpenTx(x);
  }

  /** Sn_TX_WR and Sn_TX_FSR */
  function TxWr(x: Tx): u16 { x.put % 0x1_0000 }
  function Fsr(x: Tx): u16
    requires x.gone <= x.put <= x.gone + RING
  {
    RING - (x.put - x.gone)
  }

  /** Sn_TX_FSR is the ring size less the 16-bit distance of the pointers. */
  lemma FsrIsPointerDistance(x: Tx)
    requires TxValid(x)
    ensures Fsr(x) == RING - Sub16(TxWr(x), x.gone % 0x1_0000)
  {
  }

  /** Bytes committed to Sn_TX_WR that no SEND command has covered yet. */
  function Staged(x: Tx): seq<byte>
    requires |x.mem| == RING && x.latched <= x.put
  {
    ReadRing(x.mem, x.latched, x.put - x.latched)
  }

  /** `b` is `a` after any number of segments have left. */
  predicate TxDrains(a: Tx, b: Tx) {
    && b == a.(left := b.left, gone := b.gone, wire := b.wire)
    && a.left <= b.left
  }

  lemma TxDrainsFsr(a: Tx, b: Tx)
    requires TxValid(a) && TxValid(b) && TxDrains(a, b)
    ensures Fsr(a) <= Fsr(b)
  {
    OpenTx(a);
    OpenTx(b);
    FlatPrefix(b.outbox, a.left, b.left);
  }

  /** The chip sends its oldest segment out of ring memory. */
  function Transmit(x: Tx): Tx
    requires TxValid(x) && x.left < |x.outbox|
  {
    var n := |x.outbox[x.left]|;
    x.(wire := x.wire + [ReadRing(x.mem, x.gone, n)], left := x.left + 1, gone := x.gone + n)
  }

  lemma TransmitKeeps(x: Tx)
    requires TxValid(x) && x.left < |x.outbox|
    ensures TxValid(Transmit(x))
  {
    var y, n, all := Transmit(x), |x.outbox[x.left]|, Flat(x.outbox, |x.outbox|);
    OpenTx(x);
    FlatPrefix(x.outbox, y.left, |x.outbox|);
    OpenTx(y);
    ReadSplit(x.mem, x.gone, n, x.latched - y.gone);
    assert all[x.gone..][..n] == x.outbox[x.left];
    assert all[x.gone..][n..] == all[y.gone..];
  }

  lemma TransmitDrains(x: Tx)
    requires TxValid(x) && x.left < |x.outbox|
    ensures TxDrains(x, Transmit(x)) && Transmit(x).left > x.left
  {
  }

  /** OPEN: all pointers restart at zero. */
  function ReopenedTx(x: Tx): Tx { Tx(x.mem, [], 0, 0, 0, 0, []) }

  lemma ReopenedTxValid(x: Tx)
    requires |x.mem| == RING
    ensures TxValid(ReopenedTx(x))
  {
    OpenTx(ReopenedTx(x));
  }

  /** The SEND command: one segment up to Sn_TX_WR. */
  function AcceptSend(x: Tx): Tx
    requires TxValid(x)
  {
    x.(outbox := x.outbox + [Staged(x)], latched := x.put)
  }

  lemma AcceptSendKeeps(x: Tx)
    requires TxValid(x)
    ensures TxValid(AcceptSend(x))
  {
    var y, n := AcceptSend(x), |x.outbox|;
    OpenTx(x);
    OpenTx(y);
    FlatSame(x.outbox, y.outbox, n);
    FlatSame(x.outbox, y.outbox, x.left);
    ReadSplit(x.mem, x.gone, x.latched - x.gone, x.put - x.latched);
    assert (Flat(x.outbox, n) + Staged(x))[x.gone..] == Flat(x.outbox, n)[x.gone..] + Staged(x);
  }

  /** The host stores bytes in free space from the 16-bit offset Sn_TX_WR on. */
  function Fill(x: Tx, data: seq<byte>): Tx
    requires TxValid(x) && |data| <= Fsr(x)
  {
    x.(mem := WriteRing(x.mem, TxWr(x), data))
  }

  /** Memory that agrees on what has been accepted and not sent will do as well. */
  lemma SameAccepted(x: Tx, m: seq<byte>)
    requires TxValid(x) && |m| == RING
    requires ReadRing(m, x.gone, x.latched - x.gone) == ReadRing(x.mem, x.gone, x.latched - x.gone)
    ensures TxValid(x.(mem := m))
  {
    OpenTx(x);
    OpenTx(x.(mem := m));
  }

  lemma FillIsWrite(x: Tx, data: seq<byte>)
    requires TxValid(x) && |data| <= Fsr(x)
    ensures Fill(x, data) == x.(mem := WriteRing(x.mem, x.put, data))
  {
    WriteWrapped(x.mem, x.put, data);
  }

  lemma WriteKeeps(x: Tx, m: seq<byte>, data: seq<byte>)
    requires TxValid(x) && |data| <= Fsr(x) && m == WriteRing(x.mem, x.put, data)
    ensures TxValid(x.(mem := m)) && Staged(x.(mem := m)) == Staged(x) && ReadRing(m, x.put, |data|) == data
  {
    StoreBeside(x.mem, x.gone, x.latched, x.put, data);
    SameAccepted(x, m);
  }

  /** Free space is disjoint from everything accepted or staged. */
  lemma FillKeeps(x: Tx, data: seq<byte>)
    requires TxValid(x) && |data| <= Fsr(x)
    ensures var y := Fill(x, data);
            && TxValid(y) && Staged(y) == Staged(x)
            && ReadRing(y.mem, x.put, |data|) == data
  {
    FillIsWrite(x, data);
    WriteKeeps(x, WriteRing(x.mem, x.put, data), data);
  }

  lemma StoreBeside(mem: seq<byte>, p: nat, q: nat, r: nat, data: seq<byte>)
    requires |mem| == RING && p <= q <= r && r - p + |data| <= RING
    ensures var m := WriteRing(mem, r, data);
            && ReadRing(m, p, q - p) == ReadRing(mem, p, q - p)
            && ReadRing(m, q, r - q) == ReadRing(mem, q, r - q)
            && ReadRing(m, r, |data|) == data
  {
    ReadBesideWrite(mem, p, r - p, r, data);
    AgreeOnParts(mem, WriteRing(mem, r, data), p, q - p, r - q);
    ReadAfterWrite(mem, r, data);
  }

  /** The host writes Sn_TX_WR. */
  function SetTxWr(x: Tx, v: u16): Tx {
    x.(put := x.put + Sub16(v, TxWr(x)))
  }

  /** Moving Sn_TX_WR over `n` free bytes stages exactly those. */
  lemma SetTxWrKeeps(x: Tx, n: nat)
    requires TxValid(x) && n <= Fsr(x)
    ensures var y := SetTxWr(x, Add16(TxWr(x), n));
            && TxValid(y) && y.put == x.put + n
            && Staged(y) == Staged(x) + ReadRing(x.mem, x.put, n)
  {
    OpenTx(x);
    OpenTx(SetTxWr(x, Add16(TxWr(x), n)));
    SubAdd(TxWr(x), n);
    ReadSplit(x.mem, x.latched, x.put - x.latched, n);
  }
}

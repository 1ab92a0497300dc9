/** w5500_mac.c: taking records out of the receive ring. */
module Mac {
  import opened Words
  import opened Ring
  import opened W5500
  import opened Regs

  // ---------- the record parser ----------

  /** What the record at the front of `live` gives a caller with room for `cap` bytes: an error
      and a length, or the length of the frame behind the header. */
  datatype Parsed = Parsed(err: Err, length: nat)

  function Parse(live: seq<byte>, cap: nat): Parsed {
    if |live| == 0 then Parsed(NotFound, 0)
    else if |live| < HEADER then Parsed(InvalidResponse, 0)
    else ParseHeader(Join(live[0], live[1]), |live|, cap)
  }

  function ParseHeader(record: u16, remain: nat, cap: nat): Parsed {
    if record < HEADER || record > remain then Parsed(InvalidResponse, 0)
    else if record - HEADER < MIN_FRAME || record - HEADER > RX_BUF_SIZE then Parsed(InvalidResponse, 0)
    else if record - HEADER > cap then Parsed(InvalidSize, record - HEADER)
    else Parsed(Ok, record - HEADER)
  }

  /** A well-formed record at the front is found whatever follows it: its frame is returned if
      there is room, and otherwise its length, so that a retry with that much room succeeds. */
  lemma ParseWellFormed(r: seq<byte>, rest: seq<byte>, cap: nat)
    requires WellFormed(r)
    ensures var p := Parse(r + rest, cap);
            && p.length == |r| - HEADER
            && p.err == (if |r| - HEADER <= cap then Ok else InvalidSize)
            && Parse(r + rest, p.length) == Parsed(Ok, p.length)
            && (r + rest)[HEADER..HEADER + p.length] == r[HEADER..]
  {
  }

  /** What is accepted is exactly a well-formed record at the front, if there is room for its
      frame. */
  lemma ParseAccepts(live: seq<byte>, cap: nat)
    ensures Parse(live, cap).err.Ok? <==>
            exists r: seq<byte> :: WellFormed(r) && r <= live && |r| - HEADER <= cap
  {
    if Parse(live, cap).err.Ok? {
      var n := Join(live[0], live[1]);
      assert WellFormed(live[..n]) && live[..n] <= live;
    }
    if r: seq<byte> :| WellFormed(r) && r <= live && |r| - HEADER <= cap {
      ParseWellFormed(r, live[|r|..], cap);
      assert live == r + live[|r|..];
    }
  }

  /** A front record is an error for good exactly if its length field is one that no frame has. */
  lemma MalformedStays(live: seq<byte>, cap: nat)
    requires HEADER <= |live|
    ensures var n := Join(live[0], live[1]);
            (forall more: seq<byte> :: Parse(live + more, cap).err.InvalidResponse?) <==>
            n < HEADER + MIN_FRAME || n > HEADER + RX_BUF_SIZE
  {
    var n := Join(live[0], live[1]);
    forall more: seq<byte>
      ensures Parse(live + more, cap) == ParseHeader(n, |live| + |more|, cap)
    {
      assert (live + more)[0] == live[0] && (live + more)[1] == live[1];
    }
    if HEADER + MIN_FRAME <= n <= HEADER + RX_BUF_SIZE {
      var more: seq<byte> := seq(n, _ => 0);
      assert !Parse(live + more, cap).err.InvalidResponse?;
    }
  }

  /** A frame is there, whether or not there is room for it. */
  predicate Found(p: Parsed) { p.err.Ok? || p.err.InvalidSize? }

  /** A parse that does not find the ring empty or cut short is not changed by later arrivals. */
  lemma ParseStable(live: seq<byte>, more: seq<byte>, cap: nat)
    requires Found(Parse(live, cap))
    ensures Parse(live + more, cap) == Parse(live, cap)
  {
  }

  /** A caller whose buffer was too small gets exactly that frame with a buffer of the length it
      was told, even if more records have come in meanwhile. */
  lemma RetrySucceeds(live: seq<byte>, more: seq<byte>, cap: nat)
    requires Parse(live, cap).err.InvalidSize?
    ensures var n := Parse(live, cap).length;
            && cap < n && HEADER + n <= |live|
            && Parse(live + more, n) == Parsed(Ok, n)
            && (live + more)[HEADER..HEADER + n] == live[HEADER..HEADER + n]
  {
    ParseStable(live, more, cap);
  }

  // ---------- receiving one frame ----------

  /** Every earlier RECV has been carried out: the chip reads where the host does. */
  predicate InSync(s: State) {
    s.cr == 0 && s.rx.rdReg == RdPtr(s.rx)
  }

  /** Sn_RX_RD has been moved over a record of `n` bytes. */
  function Released(s: State, n: nat): State
    requires s.cr == 0
  {
    s.(rx := s.rx.(rdReg := Add16(s.rx.rdReg, n)))
  }

  /** A record of `n` bytes has been taken out of the ring. */
  function Consumed(s: State, n: nat): State
    requires InSync(s) && n <= Rsr(s.rx)
  {
    AheadReleased(s, n);
    CommitKeeps(Released(s, n).rx);
    s.(rx := s.rx.(rdReg := Add16(s.rx.rdReg, n), taken := s.rx.taken + n))
  }

  lemma AheadReleased(s: State, n: nat)
    requires InSync(s) && n <= Rsr(s.rx)
    ensures Ahead(Released(s, n).rx) == n
  {
    SubAdd(s.rx.rdReg, n);
  }

  lemma ReleasedExtends(a: State, b: State, n: nat)
    requires Extends(a, b) && a.cr == 0
    ensures Extends(Released(a, n), Released(b, n))
  {
  }

  /** Moving Sn_RX_RD and issuing RECV takes exactly the record at the front, at whatever later
      instants the two writes are made and the command is carried out. */
  lemma RecvConsumes(at: State, b: State, n: nat)
    requires InSync(at) && n <= Rsr(at.rx) && Extends(Released(at, n), b)
    ensures Ahead(b.rx) <= Rsr(b.rx)
    ensures Accepted(Released(at, n).(cr := CR_RECV)) == Consumed(at, n)
    ensures Extends(Consumed(at, n), Accepted(b.(cr := CR_RECV)))
  {
    var a := Released(at, n);
    AheadReleased(at, n);
    RxGrowsLive(a.rx, b.rx);
    assert Extends(a.(cr := CR_RECV), b.(cr := CR_RECV));
    AcceptAcross(a.(cr := CR_RECV), b.(cr := CR_RECV));
  }

  /** How a call leaves the ring that moved Sn_RX_RD over a record of `n` bytes and then failed: RECV
      not issued, or issued and pending, or carried out. */
  predicate LeftBehind(at: State, n: nat, s: State)
    requires InSync(at) && n <= Rsr(at.rx)
  {
    AheadReleased(at, n);
    || Extends(Released(at, n), s)
    || Extends(Released(at, n).(cr := CR_RECV), s)
    || Extends(Consumed(at, n), s)
  }

  lemma WaitedBehind(at: State, n: nat, issued: State, s: State)
    requires InSync(at) && n <= Rsr(at.rx) && issued.cr == CR_RECV && Extends(Released(at, n), issued.(cr := 0))
    requires Evolves(issued, s)
    ensures LeftBehind(at, n, s)
  {
    AheadReleased(at, n);
    if Extends(issued, s) {
      ExtendsTrans(Released(at, n).(cr := CR_RECV), issued, s);
    } else {
      RecvConsumes(at, issued.(cr := 0), n);
      ExtendsTrans(Consumed(at, n), Accepted(issued), s);
    }
  }

  lemma PendingBehind(at: State, n: nat, issued: State, s: State)
    requires InSync(at) && n <= Rsr(at.rx) && issued.cr == CR_RECV && Extends(Released(at, n), issued.(cr := 0))
    requires Evolves(issued, s)
    ensures Ahead(Released(at, n).rx) <= Rsr(at.rx)
    ensures s.cr != 0 ==> Extends(Released(at, n).(cr := CR_RECV), s)
  {
    AheadReleased(at, n);
    if s.cr != 0 {
      ExtendsTrans(Released(at, n).(cr := CR_RECV), issued, s);
    }
  }

  /** w5500_read_rx_buffer at `off` bytes behind Sn_RX_RD: one burst read into the caller's
      buffer. What was in the ring at an earlier instant is still there. */
  method ReadRxBuffer(c: Chip, offset: u16, buf: array<byte>, n: nat, ghost at: State, ghost off: nat)
    returns (err: Err)
    requires Extends(at, c.s) && InSync(at) && off + n <= Rsr(at.rx) && offset == Add16(at.rx.rdReg, off)
    requires n <= buf.Length
    modifies c`s, c`faults, buf
    ensures Extends(at, c.s) && c.s.events <= old(c.s).events
    ensures err.Ok? || BusError(err)
    ensures c.faults <= old(c.faults) && (err.Ok? <==> c.faults == old(c.faults))
    ensures err.Ok? ==> buf[..n] == Live(at.rx)[off..off + n]
  {
    err := c.Transact(at);
    if err == Ok {
      LiveAt(at, c.s, off, n);
      var bytes := ReadRing(c.s.rx.mem, offset, n);
      forall i | 0 <= i < n {
        buf[i] := bytes[i];
      }
      assert buf[..n] == bytes;
    }
  }

  lemma LiveAt(at: State, s: State, off: nat, n: nat)
    requires Extends(at, s) && InSync(at) && off + n <= Rsr(at.rx)
    ensures ReadRing(s.rx.mem, Add16(at.rx.rdReg, off), n) == Live(at.rx)[off..off + n]
  {
    RxGrowsLive(at.rx, s.rx);
    ReadLive(s.rx, off, n);
  }

  /** The checks on the length that starts a record. */
  method CheckHeader(recordLen: u16, remain: nat, cap: nat) returns (err: Err, length: nat)
    ensures Parsed(err, length) == ParseHeader(recordLen, remain, cap)
  {
    if recordLen < HEADER || recordLen > remain {
      return InvalidResponse, 0;
    }
    var frameLen := recordLen - HEADER;
    if frameLen < MIN_FRAME || frameLen > RX_BUF_SIZE {
      return InvalidResponse, 0;
    }
    if frameLen > cap {
      return InvalidSize, frameLen;
    }
    return Ok, frameLen;
  }

  /** Reads Sn_RX_RD, and reads and checks the header of the record there. */
  method ReadHeader(c: Chip, remain: nat, cap: nat, ghost at: State, ghost live: seq<byte>)
    returns (err: Err, rxRd: u16, length: nat)
    requires Extends(at, c.s) && InSync(at) && live == Live(at.rx) && HEADER <= remain == |live|
    modifies c`s, c`faults
    ensures Extends(at, c.s) && c.s.events <= old(c.s).events
    ensures err.Ok? ==> rxRd == at.rx.rdReg
    ensures c.faults <= old(c.faults)
    ensures if c.faults == old(c.faults) then Parse(live, cap) == Parsed(err, length) else BusError(err)
  {
    length := cap;
    err := c.Transact(at);
    rxRd := c.s.rx.rdReg;
    if err == Ok {
      var header := new byte[HEADER];
      err := ReadRxBuffer(c, rxRd, header, HEADER, at, 0);
      if err == Ok {
        assert header[0] == header[..HEADER][0] == live[0];
        assert header[1] == header[..HEADER][1] == live[1];
        err, length := CheckHeader(Join(header[0], header[1]), remain, cap);
      }
    }
  }

  /** The commit: Sn_RX_RD, then RECV, then the wait. It fails for a failed transaction, or because
      RECV is still pending after the time that it is waited for. */
  method FinishRecord(c: Chip, rxRd: u16, length: nat, ghost at: State) returns (err: Err, lost: bool)
    requires Extends(at, c.s) && InSync(at) && HEADER + length <= Rsr(at.rx) && rxRd == at.rx.rdReg
    requires 0 < c.maxGap <= TICKS - COMMAND_TICKS
    modifies c
    ensures err.Ok? ==> Extends(Consumed(at, HEADER + length), c.s)
    ensures err.Ok? || BusError(err)
    ensures !lost && !err.Ok? ==> Extends(at, c.s) && c.faults < old(c.faults)
    ensures lost ==> !err.Ok? && LeftBehind(at, HEADER + length, c.s)
    ensures lost && c.faults == old(c.faults) ==> RecvPending(at, HEADER + length, c, old(c.now))
    ensures c.faults <= old(c.faults) && (err.Ok? ==> c.faults == old(c.faults)) && old(c.now) <= c.now
  {
    lost := false;
    err := c.Transact(at);
    if err != Ok {
      return;
    }
    ReleasedExtends(at, c.s, HEADER + length);
    c.s := c.s.(rx := c.s.rx.(rdReg := Add16(rxRd, HEADER + length)));

    err := c.Transact(Released(at, HEADER + length));
    if err != Ok {
      return err, true;
    }
    RecvConsumes(at, c.s, HEADER + length);
    c.s := c.s.(cr := CR_RECV);
    err := AwaitRecv(c, at, HEADER + length);
    lost := err != Ok;
  }

  /** RECV has been issued for the record and is still pending, having been waited for since `now`
      on a chip that is not prompt. */
  predicate RecvPending(at: State, n: nat, c: Chip, now: nat)
    requires InSync(at) && n <= Rsr(at.rx)
    reads c
  {
    AheadReleased(at, n);
    Extends(Released(at, n).(cr := CR_RECV), c.s) && !c.prompt && now + COMMAND_TICKS <= c.now
  }

  /** The wait behind RECV. */
  method AwaitRecv(c: Chip, ghost at: State, ghost n: nat) returns (err: Err)
    requires InSync(at) && n <= Rsr(at.rx) && c.s.cr == CR_RECV && Extends(Released(at, n), c.s.(cr := 0))
    requires 0 < c.maxGap <= TICKS - COMMAND_TICKS
    modifies c
    ensures err.Ok? ==> Extends(Consumed(at, n), c.s)
    ensures err.Ok? || (BusError(err) && LeftBehind(at, n, c.s))
    ensures !err.Ok? && c.faults == old(c.faults) ==> RecvPending(at, n, c, old(c.now))
    ensures c.faults <= old(c.faults) && (err.Ok? ==> c.faults == old(c.faults)) && old(c.now) <= c.now
  {
    ghost var issued := c.s;
    err := WaitForCommand(c, COMMAND_TICKS);
    WaitedBehind(at, n, issued, c.s);
    PendingBehind(at, n, issued, c.s);
    if err == Ok {
      RecvConsumes(at, issued.(cr := 0), n);
      ExtendsTrans(Consumed(at, n), Accepted(issued), c.s);
    }
  }

  /** w5500_mac_receive_one_frame once the ring was seen to hold `remain` bytes. */
  method ReceiveRecord(c: Chip, buf: array<byte>, cap: nat, remain: nat, ghost at: State, ghost live: seq<byte>)
    returns (err: Err, length: nat, lost: bool)
    requires Extends(at, c.s) && InSync(at) && live == Live(at.rx) && HEADER <= remain == |live|
    requires cap <= buf.Length
    requires 0 < c.maxGap <= TICKS - COMMAND_TICKS
    modifies c, buf
    ensures err.Ok? ==>
              && Parse(live, cap) == Parsed(Ok, length)
              && buf[..length] == live[HEADER..HEADER + length]
              && Extends(Consumed(at, HEADER + length), c.s)
    ensures err.Ok? || BusError(err) || (Parse(live, cap) == Parsed(err, length) && !lost)
    ensures !lost && !err.Ok? ==>
              Extends(at, c.s) && (c.faults < old(c.faults) || Parse(live, cap) == Parsed(err, length))
    ensures lost && c.faults == old(c.faults) ==>
              Parse(live, cap).err.Ok? && RecvPending(at, HEADER + Parse(live, cap).length, c, old(c.now))
    ensures c.faults <= old(c.faults) && (err.Ok? ==> c.faults == old(c.faults)) && old(c.now) <= c.now
    ensures SameSetup(at, c.s)
    ensures lost ==>
              && BusError(err) && length == 0 && Parse(live, cap).err.Ok?
              && LeftBehind(at, HEADER + Parse(live, cap).length, c.s)
  {
    lost := false;
    var rxRd;
    err, rxRd, length := ReadHeader(c, remain, cap, at, live);
    if err == Ok {
      err := ReadRxBuffer(c, Add16(rxRd, HEADER), buf, length, at, HEADER);
      if err == Ok {
        err, lost := FinishRecord(c, rxRd, length, at);
      }
      if err != Ok {
        length := 0;
      }
    }
  }

  /** What a call that has taken nothing says of the chip as it was at `s`. */
  predicate Refused(s: State, cap: nat, err: Err, length: nat) {
    if s.sr != SOCK_MACRAW then err.InvalidState? else Parse(Live(s.rx), cap) == Parsed(err, length)
  }

  /** w5500_mac_receive_one_frame, with `cap` the length the caller passes in. `at` is an instant
      of the call at which the ring held the bytes the outcome is about. Until Sn_RX_RD is
      written nothing is taken; `lost` tells that it was written and the call then failed, and
      then the ring is as LeftBehind says. Without a failed transaction it fails for what the ring
      held, or for being disturbed eight times, or for a RECV that is not carried out in time; a
      frame at the front that fits is returned, whatever arrives behind it. */
  method Receive(c: Chip, buf: array<byte>, cap: nat)
    returns (err: Err, length: nat, ghost at: State, lost: bool)
    requires InSync(c.s) && cap <= buf.Length
    requires 0 < c.maxGap <= TICKS - COMMAND_TICKS
    modifies c, buf
    ensures Extends(old(c.s), at)
    ensures err.Ok? ==>
              && Parse(Live(at.rx), cap) == Parsed(Ok, length)
              && buf[..length] == Live(at.rx)[HEADER..HEADER + length]
              && Extends(Consumed(at, HEADER + length), c.s)
    ensures err.Ok? || BusError(err) || (Parse(Live(at.rx), cap) == Parsed(err, length) && !lost)
    ensures !BusError(err) ==> old(c.s).sr == SOCK_MACRAW
    ensures !lost && !err.Ok? ==>
              && Extends(old(c.s), c.s) && Extends(at, c.s)
              && (c.faults < old(c.faults) || (Crowded(old(c.s), c.s) && err.Timeout?) || Refused(at, cap, err, length))
    ensures lost ==>
              && BusError(err) && length == 0 && Parse(Live(at.rx), cap).err.Ok?
              && LeftBehind(at, HEADER + Parse(Live(at.rx), cap).length, c.s)
    ensures lost && c.faults == old(c.faults) ==>
              && Parse(Live(at.rx), cap).err.Ok?
              && RecvPending(at, HEADER + Parse(Live(at.rx), cap).length, c, old(c.now))
    ensures old(c.s).sr == SOCK_MACRAW && Found(Parse(Live(old(c.s).rx), cap)) ==>
              || Parse(Live(old(c.s).rx), cap) == Parsed(err, length)
              || c.Excused(old(c.faults), old(c.now)) || Crowded(old(c.s), c.s)
    ensures c.faults <= old(c.faults) && (err.Ok? ==> c.faults == old(c.faults)) && old(c.now) <= c.now
    ensures SameSetup(old(c.s), c.s)
  {
    ghost var start := c.s;
    at, lost, length := start, false, cap;
    err := CheckSocket(c, start);
    if err == Ok {
      err, length, at, lost := ReceiveFront(c, buf, cap, start);
      ParseLater(start, at, cap);
      if !lost && !err.Ok? {
        ExtendsTrans(start, at, c.s);
      }
    }
  }

  lemma ParseLater(a: State, b: State, cap: nat)
    requires Extends(a, b)
    ensures Found(Parse(Live(a.rx), cap)) ==> Parse(Live(b.rx), cap) == Parse(Live(a.rx), cap)
  {
    RxGrowsLive(a.rx, b.rx);
    var more := Live(b.rx)[|Live(a.rx)|..];
    assert Live(b.rx) == Live(a.rx) + more;
    if Found(Parse(Live(a.rx), cap)) {
      ParseStable(Live(a.rx), more, cap);
    }
  }

  lemma ConsumedLater(a: State, b: State, n: nat)
    requires InSync(a) && Extends(a, b) && n <= Rsr(a.rx)
    ensures n <= Rsr(b.rx) && Extends(Consumed(a, n), Consumed(b, n))
  {
    RxGrowsLive(a.rx, b.rx);
  }

  /** What two instants of the ring say about a record that was too long for the buffer. */
  lemma RetryFinds(a: State, b: State, cap: nat, n: nat)
    requires InSync(a) && Extends(a, b) && Parse(Live(a.rx), cap) == Parsed(InvalidSize, n)
    ensures cap < n && HEADER + n <= Rsr(a.rx) && Parse(Live(b.rx), n) == Parsed(Ok, n)
    ensures Live(b.rx)[HEADER..HEADER + n] == Live(a.rx)[HEADER..HEADER + n]
    ensures Extends(Consumed(a, HEADER + n), Consumed(b, HEADER + n))
  {
    RxGrowsLive(a.rx, b.rx);
    RetrySucceeds(Live(a.rx), Live(b.rx)[|Live(a.rx)|..], cap);
    assert Live(b.rx) == Live(a.rx) + Live(b.rx)[|Live(a.rx)|..];
    ConsumedLater(a, b, HEADER + n);
  }

  /** A call with a buffer of the length that an earlier one reported for the record it found. */
  method ReceiveAgain(c: Chip, n: nat, cap: nat, ghost found: State)
    returns (err: Err, frame: seq<byte>, lost: bool)
    requires InSync(found) && Extends(found, c.s) && found.sr == SOCK_MACRAW
    requires Parse(Live(found.rx), cap) == Parsed(InvalidSize, n)
    requires 0 < c.maxGap <= TICKS - COMMAND_TICKS
    modifies c
    ensures HEADER + n <= Rsr(found.rx)
    ensures err.Ok? || BusError(err)
    ensures err.Ok? ==>
              frame == Live(found.rx)[HEADER..HEADER + n] && Extends(Consumed(found, HEADER + n), c.s)
    ensures !err.Ok? && !lost ==> Extends(found, c.s)
    ensures lost ==> !err.Ok?
    ensures !err.Ok? ==> c.Excused(old(c.faults), old(c.now)) || Crowded(old(c.s), c.s)
    ensures c.faults <= old(c.faults) && old(c.now) <= c.now && c.s.events <= old(c.s).events
  {
    ghost var again := c.s;
    RetryFinds(found, again, cap, n);
    var big := new byte[n];
    var length;
    ghost var at;
    frame := [];
    err, length, at, lost := Receive(c, big, n);
    ExtendsTrans(found, again, at);
    RetryFinds(found, at, cap, n);
    if err == Ok {
      frame := big[..length];
      ExtendsTrans(Consumed(found, HEADER + n), Consumed(at, HEADER + n), c.s);
    } else if !lost {
      ExtendsTrans(found, again, c.s);
    }
  }

  /** A call that fails with ESP_ERR_INVALID_SIZE, and another one with a buffer of the length it
      reported. The first call takes nothing. Whatever has come in by then, the second one returns
      exactly the frame that the first one found too long, and takes that; it fails for a failed
      transaction, a RECV that is not carried out in time or eight disturbances, and never for the
      frame. */
  method ReceiveTwice(c: Chip, buf: array<byte>, cap: nat)
    returns (err: Err, length: nat, retried: bool, frame: seq<byte>, ghost found: State, lost: bool)
    requires InSync(c.s) && cap <= buf.Length
    requires 0 < c.maxGap <= TICKS - COMMAND_TICKS
    modifies c, buf
    ensures Extends(old(c.s), found)
    ensures !retried ==> !err.InvalidSize?
    ensures retried ==> Parse(Live(found.rx), cap) == Parsed(InvalidSize, length) && cap < length
    ensures retried ==> HEADER + length <= Rsr(found.rx) && (err.Ok? || BusError(err))
    ensures retried && err.Ok? ==>
              && frame == Live(found.rx)[HEADER..HEADER + length]
              && Extends(Consumed(found, HEADER + length), c.s)
    ensures retried && !err.Ok? && !lost ==> Extends(found, c.s)
    ensures retried && !err.Ok? ==> c.Excused(old(c.faults), old(c.now)) || Crowded(old(c.s), c.s)
    ensures !retried && old(c.s).sr == SOCK_MACRAW && Parse(Live(old(c.s).rx), cap).err.InvalidSize? ==>
              c.Excused(old(c.faults), old(c.now)) || Crowded(old(c.s), c.s)
  {
    err, length, found, lost := Receive(c, buf, cap);
    frame, retried := [], err == InvalidSize;
    if retried {
      Arrivals(c, found);
      err, frame, lost := ReceiveAgain(c, length, cap, found);
    }
  }

  /** Time between two calls. */
  method Arrivals(c: Chip, ghost from: State)
    requires Extends(from, c.s) && from.cr == 0
    modifies c`s
    ensures Extends(from, c.s) && c.s.events <= old(c.s).events
  {
    c.Env();
    ExtendsTrans(from, old(c.s), c.s);
  }

  /** The rest, on a socket that is open. */
  method ReceiveFront(c: Chip, buf: array<byte>, cap: nat, ghost start: State)
    returns (err: Err, length: nat, ghost at: State, lost: bool)
    requires Extends(start, c.s) && InSync(start) && cap <= buf.Length
    requires 0 < c.maxGap <= TICKS - COMMAND_TICKS
    modifies c, buf
    ensures Extends(start, at)
    ensures err.Ok? ==>
              && Parse(Live(at.rx), cap) == Parsed(Ok, length)
              && buf[..length] == Live(at.rx)[HEADER..HEADER + length]
              && Extends(Consumed(at, HEADER + length), c.s)
    ensures err.Ok? || BusError(err) || (Parse(Live(at.rx), cap) == Parsed(err, length) && !lost)
    ensures !lost && !err.Ok? ==>
              && Extends(at, c.s)
              && (c.faults < old(c.faults) || (Crowded(old(c.s), c.s) && err.Timeout?)
                  || Parse(Live(at.rx), cap) == Parsed(err, length))
    ensures lost && c.faults == old(c.faults) ==>
              && Parse(Live(at.rx), cap).err.Ok?
              && RecvPending(at, HEADER + Parse(Live(at.rx), cap).length, c, old(c.now))
    ensures c.faults <= old(c.faults) && (err.Ok? ==> c.faults == old(c.faults)) && old(c.now) <= c.now
    ensures SameSetup(at, c.s)
    ensures lost ==>
              && BusError(err) && length == 0 && Parse(Live(at.rx), cap).err.Ok?
              && LeftBehind(at, HEADER + Parse(Live(at.rx), cap).length, c.s)
  {
    lost := false;
    var remain;
    err, remain, length, at := CountBytes(c, cap, start);
    if err == Ok {
      err, length, lost := ReceiveRecord(c, buf, cap, remain, at, Live(at.rx));
    }
  }

  method CheckSocket(c: Chip, ghost start: State) returns (err: Err)
    requires Extends(start, c.s) && start.cr == 0
    modifies c`s, c`faults
    ensures Extends(start, c.s) && c.s.events <= old(c.s).events
    ensures err.Ok? || BusError(err)
    ensures err.Ok? ==> c.s.sr == SOCK_MACRAW
    ensures c.faults <= old(c.faults) && (err.Ok? ==> c.faults == old(c.faults))
    ensures !err.Ok? && c.faults == old(c.faults) ==> c.s.sr != SOCK_MACRAW && err.InvalidState?
  {
    err := c.Transact(start);
    if err == Ok && c.s.sr != SOCK_MACRAW {
      err := InvalidState;
    }
  }

  /** The count of bytes in the ring, and whether there is a header among them. */
  method CountBytes(c: Chip, cap: nat, ghost start: State)
    returns (err: Err, remain: u16, length: nat, ghost at: State)
    requires Extends(start, c.s) && start.cr == 0
    modifies c`s, c`faults
    ensures Extends(start, at) && Extends(at, c.s) && Extends(start, c.s) && c.s.events <= old(c.s).events
    ensures err.Ok? ==> HEADER <= remain == Rsr(at.rx)
    ensures c.faults <= old(c.faults) && (err.Ok? ==> c.faults == old(c.faults))
    ensures !err.Ok? ==>
              || (BusError(err) && c.faults < old(c.faults))
              || (err.Timeout? && Crowded(old(c.s), c.s))
              || Parse(Live(at.rx), cap) == Parsed(err, length)
  {
    length := cap;
    ghost var s1 := c.s;
    err, remain, at := ReadStable(c, RxRsr);
    ExtendsTrans(start, s1, at);
    ExtendsTrans(start, at, c.s);
    if err == Ok && remain < HEADER {
      err, length := if remain == 0 then NotFound else InvalidResponse, 0;
    }
  }
}

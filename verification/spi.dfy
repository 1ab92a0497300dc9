/** w5500_spi.c: the frame that starts every transaction, and the bursts behind it. The frame
    format is the one of section 2.2 of the W5500 datasheet. */
module Spi {
  import opened Words
  import opened Ring

  // ---------- control byte ----------

  const RWB_READ: bv8 := 0x00
  const RWB_WRITE: bv8 := 0x04
  const OM_VDM: bv8 := 0x00

  /** w5500_build_control */
  function BuildControl(block: bv8, isRead: bool): bv8 {
    (block << 3) | (if isRead then RWB_READ else RWB_WRITE) | OM_VDM
  }

  /** How the chip takes a control byte apart. */
  function BlockOf(control: bv8): bv8 { control >> 3 }
  predicate IsWrite(control: bv8) { control & RWB_WRITE != 0 }
  predicate VariableLength(control: bv8) { control & 0x03 == OM_VDM }

  /** Direction and length mode always survive, the block select exactly if it has five bits. */
  lemma ControlRoundTrip(block: bv8, isRead: bool)
    ensures var c := BuildControl(block, isRead);
            && (IsWrite(c) <==> !isRead) && VariableLength(c)
            && (BlockOf(c) == block <==> block < 0x20)
  {
  }

  const BSB_COMMON: bv8 := 0x00
  datatype Kind = Registers | TxBuffer | RxBuffer

  /** W5500_BSB_SOCK_REG, W5500_BSB_SOCK_TX and W5500_BSB_SOCK_RX */
  function SocketBlock(kind: Kind, n: bv8): bv8 {
    match kind
    case Registers => 0x01 + n * 4
    case TxBuffer => 0x02 + n * 4
    case RxBuffer => 0x03 + n * 4
  }

  /** For the eight sockets no two blocks are the same, none is the common block, and all of them
      fit the control byte. */
  lemma BlocksDistinct(j: Kind, m: bv8, k: Kind, n: bv8)
    requires m < 8 && n < 8
    ensures SocketBlock(j, m) == SocketBlock(k, n) <==> j == k && m == n
    ensures BSB_COMMON != SocketBlock(j, m) < 0x20
  {
    var a, b := SocketBlock(j, m), SocketBlock(k, n);
    assert a & 0x03 == (if j.Registers? then 1 else if j.TxBuffer? then 2 else 3);
    assert b & 0x03 == (if k.Registers? then 1 else if k.TxBuffer? then 2 else 3);
    assert a >> 2 == m && b >> 2 == n;
  }

  // ---------- bursts ----------

  /** The chip takes burst bytes one at a time, its 16-bit address counting up behind them. */
  function BurstWrite(mem: seq<byte>, a: u16, data: seq<byte>): (m: seq<byte>)
    requires |mem| == RING
    ensures |m| == RING
    decreases |data|
  {
    if data == [] then mem else BurstWrite(mem[a % RING := data[0]], Add16(a, 1), data[1..])
  }

  function BurstRead(mem: seq<byte>, a: u16, n: nat): (r: seq<byte>)
    requires |mem| == RING
    ensures |r| == n
    decreases n
  {
    if n == 0 then [] else [mem[a % RING]] + BurstRead(mem, Add16(a, 1), n - 1)
  }

  /** A read burst of any length from any offset is the ring read the driver counts on. */
  lemma {:induction false} BurstReadIsRing(mem: seq<byte>, a: u16, n: nat)
    requires |mem| == RING
    ensures BurstRead(mem, a, n) == ReadRing(mem, a, n)
    decreases n
  {
    if n > 0 {
      BurstReadIsRing(mem, Add16(a, 1), n - 1);
      ReadWrapped(mem, a + 1, n - 1);
      ReadSplit(mem, a, 1, n - 1);
    }
  }

  /** A write burst that goes round the ring leaves its last RING bytes. */
  function Kept(a: nat, data: seq<byte>): (nat, seq<byte>) {
    if |data| <= RING then (a, data) else (a + |data| - RING, data[|data| - RING..])
  }

  lemma {:induction false} BurstWriteIsRing(mem: seq<byte>, a: u16, data: seq<byte>)
    requires |mem| == RING
    ensures BurstWrite(mem, a, data) == WriteRing(mem, Kept(a, data).0, Kept(a, data).1)
    decreases |data|
  {
    if data != [] {
      var rest, b := data[1..], Add16(a, 1);
      var (p, kept) := Kept(a + 1, rest);
      BurstWriteIsRing(mem[a % RING := data[0]], b, rest);
      WriteShifted(mem[a % RING := data[0]], Kept(b, rest).0, p, kept);
      WriteFirst(mem, a, data);
    }
  }

  lemma WriteFirst(mem: seq<byte>, a: nat, data: seq<byte>)
    requires |mem| == RING && data != []
    ensures var (p, kept) := Kept(a + 1, data[1..]);
            WriteRing(mem[a % RING := data[0]], p, kept) == WriteRing(mem, Kept(a, data).0, Kept(a, data).1)
  {
    if |data| <= RING {
      WriteFirstFits(mem, a, data);
    } else {
      WriteAround(mem[a % RING := data[0]], mem, a + |data| - RING, data[|data| - RING..]);
      assert data[1..][|data| - 1 - RING..] == data[|data| - RING..];
    }
  }

  lemma WriteFirstFits(mem: seq<byte>, a: nat, data: seq<byte>)
    requires |mem| == RING && 0 < |data| <= RING
    ensures WriteRing(mem[a % RING := data[0]], a + 1, data[1..]) == WriteRing(mem, a, data)
  {
    forall j | 0 <= j < RING
      ensures WriteRing(mem[a % RING := data[0]], a + 1, data[1..])[j] == WriteRing(mem, a, data)[j]
    {
      WriteFirstAt(a, |data|, j);
    }
  }

  /** A write of the whole ring leaves nothing of what was there. */
  lemma WriteAround(mem: seq<byte>, other: seq<byte>, p: nat, data: seq<byte>)
    requires |mem| == RING && |other| == RING && |data| == RING
    ensures WriteRing(mem, p, data) == WriteRing(other, p, data)
  {
  }

  /** Ring distances seen from one byte further on. */
  lemma WriteFirstAt(a: nat, n: nat, j: nat)
    requires n > 0 && j < RING
    ensures n <= RING && j == a % RING ==> (j - a) % RING == 0 && (j - (a + 1)) % RING == RING - 1
    ensures n <= RING && j != a % RING ==> (j - a) % RING == (j - (a + 1)) % RING + 1
  {
  }

  // ---------- transactions ----------

  datatype Header = Header(hi: byte, lo: byte, control: bv8)

  function HeaderOf(addr: u16, block: bv8, isRead: bool): Header {
    Header(Hi(addr), Lo(addr), BuildControl(block, isRead))
  }

  /** A block select as the key of its memory. */
  datatype Block = Block(bits: bv8)

  /** The chip behind the bus: one memory per block. */
  class Device {
    var initialized: bool
    var memory: map<Block, seq<byte>>
    /** How many more transactions, locks and allocations are going to fail. */
    var faults: nat

    ghost predicate Valid()
      reads this
    {
      forall b: Block | b.bits < 0x20 :: b in memory && |memory[b]| == RING
    }

    constructor (memory: map<Block, seq<byte>>, faults: nat)
      ensures this.memory == memory && initialized && this.faults == faults
    {
      this.memory, initialized, this.faults := memory, true, faults;
    }

    /** One of the things that can fail, with the error it reports then. */
    method Attempt(failure: Err) returns (err: Err)
      requires !failure.Ok?
      modifies this`faults
      ensures err == Ok || err == failure
      ensures faults <= old(faults) && (err.Ok? <==> faults == old(faults))
    {
      err := Ok;
      if faults > 0 {
        var fails: bool := *;
        if fails {
          err, faults := failure, faults - 1;
        }
      }
    }

    /** One polled transaction as the chip carries it out: it goes by the header alone. */
    method Transmit(h: Header, data: seq<byte>, n: nat) returns (err: Err, read: seq<byte>)
      requires Valid()
      modifies this`memory, this`faults
      ensures Valid()
      ensures err.Ok? || err.Fail?
      ensures faults <= old(faults) && (err.Ok? <==> faults == old(faults))
      ensures var block, a := Block(BlockOf(h.control)), Join(h.hi, h.lo);
              && block in old(memory)
              && (err.Ok? && IsWrite(h.control) ==>
                 memory == old(memory)[block := BurstWrite(old(memory)[block], a, data)])
              && (err.Ok? && !IsWrite(h.control) ==> read == BurstRead(memory[block], a, n))
              && (err.Fail? || !IsWrite(h.control) ==> memory == old(memory))
    {
      var block, a := Block(BlockOf(h.control)), Join(h.hi, h.lo);
      read := [];
      err := Attempt(Fail);
      if err != Ok {
        return;
      }
      if IsWrite(h.control) {
        memory := memory[block := BurstWrite(memory[block], a, data)];
      } else {
        read := BurstRead(memory[block], a, n);
      }
      return Ok, read;
    }
  }

  /** The lock and the scratch buffers of a transaction can be refused. */
  method Prepare(dev: Device) returns (err: Err)
    modifies dev`faults
    ensures err.Ok? || err.Timeout? || err.NoMem?
    ensures dev.faults <= old(dev.faults) && (err.Ok? <==> dev.faults == old(dev.faults))
  {
    err := dev.Attempt(Timeout);
    if err == Ok {
      err := dev.Attempt(NoMem);
    }
  }

  /** w5500_spi_write: success means the ring write the driver meant, in the block it named and
      in no other. */
  method SpiWrite(dev: Device, addr: u16, block: Block, data: seq<byte>) returns (err: Err)
    requires dev.Valid() && block.bits < 0x20 && |data| <= RING
    modifies dev`memory, dev`faults
    ensures dev.Valid()
    ensures err.Ok? || BusError(err)
    ensures err.Ok? <==> dev.initialized && dev.faults == old(dev.faults)
    ensures dev.memory ==
            if err.Ok? then old(dev.memory)[block := WriteRing(old(dev.memory)[block], addr, data)] else old(dev.memory)
  {
    if !dev.initialized {
      return InvalidState;
    }
    err := Prepare(dev);
    if err != Ok {
      return;
    }
    ControlRoundTrip(block.bits, false);
    BurstWriteIsRing(dev.memory[block], addr, data);
    var rx;
    err, rx := dev.Transmit(HeaderOf(addr, block.bits, false), data, 0);
  }

  /** w5500_spi_read */
  method SpiRead(dev: Device, addr: u16, block: Block, buf: array<byte>, n: nat) returns (err: Err)
    requires dev.Valid() && block.bits < 0x20 && n <= buf.Length
    modifies buf, dev`memory, dev`faults
    ensures dev.memory == old(dev.memory)
    ensures err.Ok? <==> dev.initialized && dev.faults == old(dev.faults)
    ensures err.Ok? || BusError(err)
    ensures buf[n..] == old(buf[n..])
    ensures buf[..n] == if err.Ok? then ReadRing(dev.memory[block], addr, n) else old(buf[..n])
  {
    if !dev.initialized {
      return InvalidState;
    }
    err := Prepare(dev);
    if err != Ok {
      return;
    }
    ControlRoundTrip(block.bits, true);
    BurstReadIsRing(dev.memory[block], addr, n);
    var rx;
    err, rx := dev.Transmit(HeaderOf(addr, block.bits, true), [], n);
    if err == Ok {
      forall i | 0 <= i < n {
        buf[i] := rx[i];
      }
    }
  }

  /** w5500_reg_write16 followed by w5500_reg_read16 gives back the value, from any address. */
  method WriteThenRead16(dev: Device, addr: u16, block: Block, value: u16) returns (err: Err, back: u16)
    requires dev.Valid() && block.bits < 0x20
    modifies dev`memory, dev`faults
    ensures err.Ok? ==> back == value
    ensures dev.initialized && dev.faults == old(dev.faults) ==> err.Ok?
  {
    back := 0;
    var bytes := [Hi(value), Lo(value)];
    ReadAfterWrite(dev.memory[block], addr, bytes);
    err := SpiWrite(dev, addr, block, bytes);
    if err == Ok {
      var data := new byte[2];
      err := SpiRead(dev, addr, block, data, 2);
      assert err.Ok? ==> data[..2] == bytes;
      assert data[..2][0] == data[0] && data[..2][1] == data[1];
      back := Join(data[0], data[1]);
    }
  }
}

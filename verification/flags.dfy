/** Interrupt flag registers. Writing a one to a flag clears it. */
module Flags {
  /** Sn_IR and Sn_IMR; `reserved` stands for bits 7 to 5 together. */
  datatype Sn = Sn(con: bool, discon: bool, recv: bool, timeout: bool, sendOk: bool, reserved: bool) {
    predicate Any() { con || discon || recv || timeout || sendOk || reserved }

    /** The register after the host has written `m` to it. */
    function Clear(m: Sn): Sn {
      Sn(con && !m.con, discon && !m.discon, recv && !m.recv,
         timeout && !m.timeout, sendOk && !m.sendOk, reserved && !m.reserved)
    }

    function Set(m: Sn): Sn {
      Sn(con || m.con, discon || m.discon, recv || m.recv,
         timeout || m.timeout, sendOk || m.sendOk, reserved || m.reserved)
    }

    function And(m: Sn): Sn {
      Sn(con && m.con, discon && m.discon, recv && m.recv,
         timeout && m.timeout, sendOk && m.sendOk, reserved && m.reserved)
    }

    /** Every flag set here is set in `y`. */
    predicate Kept(y: Sn) { y.Set(this) == y }

    function Count(): (n: nat)
      ensures n <= 6
    {
      Tally(Bits())
    }

    function Bits(): (bits: seq<bool>)
      ensures |bits| == 6
    {
      [con, discon, recv, timeout, sendOk, reserved]
    }
  }

  /** How many of `bs` hold. */
  function Tally(bs: seq<bool>): (n: nat)
    ensures n <= |bs|
  {
    if bs == [] then 0 else (if bs[0] then 1 else 0) + Tally(bs[1..])
  }

  /** Dropping flags that were set lowers the tally. */
  lemma {:induction false} TallyDrops(a: seq<bool>, b: seq<bool>)
    requires |a| == |b| && forall i | 0 <= i < |a| :: a[i] ==> b[i]
    ensures Tally(a) <= Tally(b) && (Tally(a) == Tally(b) ==> a == b)
  {
    if a != [] {
      TallyDrops(a[1..], b[1..]);
      assert a == [a[0]] + a[1..] && b == [b[0]] + b[1..];
    }
  }

  const SN_NONE := Sn(false, false, false, false, false, false)
  const SN_CON := SN_NONE.(con := true)
  const SN_DISCON := SN_NONE.(discon := true)
  const SN_RECV := SN_NONE.(recv := true)
  const SN_TIMEOUT := SN_NONE.(timeout := true)
  const SN_SEND_OK := SN_NONE.(sendOk := true)
  /** 0x1F */
  const SN_ALL := Sn(true, true, true, true, true, false)

  /** IR; `reserved` stands for bits 3 to 0 together. */
  datatype Common = Common(conflict: bool, unreach: bool, pppoe: bool, magic: bool, reserved: bool) {
    predicate Any() { conflict || unreach || pppoe || magic || reserved }

    function Clear(m: Common): Common {
      Common(conflict && !m.conflict, unreach && !m.unreach, pppoe && !m.pppoe,
             magic && !m.magic, reserved && !m.reserved)
    }

    function Set(m: Common): Common {
      Common(conflict || m.conflict, unreach || m.unreach, pppoe || m.pppoe,
             magic || m.magic, reserved || m.reserved)
    }

    /** The value masked with 0xF0. */
    function Defined(): Common { this.(reserved := false) }

    predicate Kept(y: Common) { y.Set(this) == y }

    function Count(): (n: nat)
      ensures n <= 5
    {
      Tally(Bits())
    }

    function Bits(): (bits: seq<bool>)
      ensures |bits| == 5
    {
      [conflict, unreach, pppoe, magic, reserved]
    }
  }

  const IR_NONE := Common(false, false, false, false, false)
  /** 0xF0 */
  const IR_ALL := Common(true, true, true, true, false)

  lemma SnBits(x: Sn, y: Sn)
    ensures x.Bits() == y.Bits() <==> x == y
    ensures y.Kept(x) ==> forall i | 0 <= i < 6 :: y.Bits()[i] ==> x.Bits()[i]
  {
    var a, b := x.Bits(), y.Bits();
    assert a == b ==> a[0] == b[0] && a[1] == b[1] && a[2] == b[2] && a[3] == b[3] && a[4] == b[4] && a[5] == b[5];
  }

  lemma CommonBits(x: Common, y: Common)
    ensures x.Bits() == y.Bits() <==> x == y
    ensures y.Kept(x) ==> forall i | 0 <= i < 5 :: y.Bits()[i] ==> x.Bits()[i]
  {
    var a, b := x.Bits(), y.Bits();
    assert a == b ==> a[0] == b[0] && a[1] == b[1] && a[2] == b[2] && a[3] == b[3] && a[4] == b[4];
  }

  /** Losing a flag lowers the count. */
  lemma SnCountDrops(x: Sn, y: Sn)
    requires y.Kept(x)
    ensures y.Count() <= x.Count() && (y != x ==> y.Count() < x.Count())
  {
    SnBits(x, y);
    TallyDrops(y.Bits(), x.Bits());
  }

  lemma CommonCountDrops(x: Common, y: Common)
    requires y.Kept(x)
    ensures y.Count() <= x.Count() && (y != x ==> y.Count() < x.Count())
  {
    CommonBits(x, y);
    TallyDrops(y.Bits(), x.Bits());
  }

  /** The register bytes behind the records. */
  function SnOf(x: bv8): Sn {
    Sn(x & 0x01 != 0, x & 0x02 != 0, x & 0x04 != 0, x & 0x08 != 0, x & 0x10 != 0, x & 0xE0 != 0)
  }

  function CommonOf(x: bv8): Common {
    Common(x & 0x80 != 0, x & 0x40 != 0, x & 0x20 != 0, x & 0x10 != 0, x & 0x0F != 0)
  }

  /** On bytes, clearing is `x & ~m` for every mask of defined flags, and the masks the driver
      writes are the named ones. */
  lemma ByteLayout(x: bv8, m: bv8)
    ensures m & 0xE0 == 0 ==> SnOf(x & !m) == SnOf(x).Clear(SnOf(m))
    ensures m & 0x0F == 0 ==> CommonOf(x & !m) == CommonOf(x).Clear(CommonOf(m))
    ensures CommonOf(x & 0xF0) == CommonOf(x).Defined()
    ensures SnOf(0x01) == SN_CON && SnOf(0x02) == SN_DISCON && SnOf(0x04) == SN_RECV
    ensures SnOf(0x08) == SN_TIMEOUT && SnOf(0x10) == SN_SEND_OK && SnOf(0x1F) == SN_ALL
    ensures SnOf(x).Any() <==> x != 0
    ensures CommonOf(x).Any() <==> x != 0
  {
    SnByte(x, m);
    CommonByte(x, m);
    assert CommonOf(x & 0xF0) == CommonOf(x).Defined();
  }

  lemma SnByte(x: bv8, m: bv8)
    ensures m & 0xE0 == 0 ==> SnOf(x & !m) == SnOf(x).Clear(SnOf(m))
    ensures SnOf(x).Any() <==> x != 0
  {
  }

  lemma CommonByte(x: bv8, m: bv8)
    ensures m & 0x0F == 0 ==> CommonOf(x & !m) == CommonOf(x).Clear(CommonOf(m))
    ensures CommonOf(x).Any() <==> x != 0
  {
  }
}

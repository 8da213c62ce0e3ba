/** CRC-8 over the payload bytes: polynomial x^8 + x^2 + x + 1 (0x07),
    initial value 0, most significant bit first, no reflection, no final XOR
    (the parameter set catalogued as CRC-8/SMBUS). Both transports carry a
    textually identical copy of `calcCRC`; it is modelled once here. */
module Crc {
  import opened Protocol

  /** One clock of the shift register. */
  function ShiftOnce(c: bv8): bv8 {
    if c & 0x80 != 0 then (c << 1) ^ 0x07 else c << 1
  }

  /** `n` clocks of the shift register. */
  function Shift(c: bv8, n: nat): bv8 {
    if n == 0 then c else ShiftOnce(Shift(c, n - 1))
  }

  /** Folding one data byte into the register: XOR it in, then clock eight times. */
  function Update(crc: bv8, b: Byte): bv8 {
    Shift(crc ^ (b as bv8), 8)
  }

  /** The register after every byte of `data`, first byte first. */
  function Register(data: seq<Byte>): bv8 {
    if data == [] then 0 else Update(Register(data[..|data| - 1]), data[|data| - 1])
  }

  /** The checksum value transmitted in a frame's last byte. */
  function Crc8(data: seq<Byte>): Byte {
    Register(data) as int
  }

  /** `calcCRC`: the nested loop over the bytes and the eight shifts. */
  method CalcCrc(data: seq<Byte>) returns (crc: Byte)
    ensures crc == Crc8(data)
    ensures data == [] ==> crc == 0
  {
    var c: bv8 := 0;
    var i := 0;
    while i < |data|
      invariant 0 <= i <= |data|
      invariant c == Register(data[..i])
    {
      c := c ^ (data[i] as bv8);
      ghost var mixed := c;
      var j := 0;
      while j < 8
        invariant 0 <= j <= 8
        invariant c == Shift(mixed, j)
      {
        if c & 0x80 != 0 {
          c := (c << 1) ^ 0x07;
        } else {
          c := c << 1;
        }
        j := j + 1;
      }
      assert data[..i + 1][..i] == data[..i];
      i := i + 1;
    }
    assert data[..|data|] == data;
    crc := c as int;
  }

  /** Appending a byte folds it into the register of the prefix. */
  lemma {:induction false} RegisterSnoc(data: seq<Byte>, b: Byte)
    ensures Register(data + [b]) == Update(Register(data), b)
  {
    assert (data + [b])[..|data|] == data;
  }

  /** Appending a message's own CRC leaves a zero register (the residue of
      CRC-8/SMBUS is 0). */
  lemma {:induction false} CrcResidueIsZero(data: seq<Byte>)
    ensures Crc8(data + [Crc8(data)]) == 0
  {
    RegisterSnoc(data, Crc8(data));
    UpdateWithOwnValue(Register(data));
  }

  /** Folding the register's own value into it clears it. */
  lemma UpdateWithOwnValue(r: bv8)
    ensures Update(r, r as int) == 0
  {
    assert r ^ ((r as int) as bv8) == 0 by {
      BitsOfByteValue(r);
    }
    ShiftOfZero(8);
  }

  lemma BitsOfByteValue(c: bv8)
    ensures (c as int) as bv8 == c
  {
  }

  lemma ByteOfBits(b: Byte)
    ensures (b as bv8) as int == b
  {
    // The solver reads `(b as bv8) as int` as `b % 256`.
    assert b % 256 == b;
  }

  lemma {:induction false} ShiftOfZero(n: nat)
    ensures Shift(0, n) == 0
  {
    if n > 0 {
      ShiftOfZero(n - 1);
    }
  }

  /** Every clock of the register is a bijection on bytes: the polynomial's
      x^0 term puts the dropped top bit into the (otherwise zero) low bit. */
  lemma ShiftOnceInjective(x: bv8, y: bv8)
    requires ShiftOnce(x) == ShiftOnce(y)
    ensures x == y
  {
  }

  lemma {:induction false} ShiftInjective(x: bv8, y: bv8, n: nat)
    requires Shift(x, n) == Shift(y, n)
    ensures x == y
  {
    if n > 0 {
      ShiftOnceInjective(Shift(x, n - 1), Shift(y, n - 1));
      ShiftInjective(x, y, n - 1);
    }
  }

  /** The published check value: CRC-8/SMBUS of ASCII "123456789" is 0xF4. */
  lemma CheckValue()
    ensures Crc8([0x31, 0x32, 0x33, 0x34, 0x35, 0x36, 0x37, 0x38, 0x39]) == 0xF4
  {
    CheckValueSteps();
    var s: seq<Byte> := [];
    assert Register(s) == 0x00;
    RegisterSnoc(s, 0x31);
    s := s + [0x31];
    assert Register(s) == 0x97;
    RegisterSnoc(s, 0x32);
    s := s + [0x32];
    assert Register(s) == 0x72;
    RegisterSnoc(s, 0x33);
    s := s + [0x33];
    assert Register(s) == 0xC0;
    RegisterSnoc(s, 0x34);
    s := s + [0x34];
    assert Register(s) == 0xC2;
    RegisterSnoc(s, 0x35);
    s := s + [0x35];
    assert Register(s) == 0xCB;
    RegisterSnoc(s, 0x36);
    s := s + [0x36];
    assert Register(s) == 0xFD;
    RegisterSnoc(s, 0x37);
    s := s + [0x37];
    assert Register(s) == 0x78;
    RegisterSnoc(s, 0x38);
    s := s + [0x38];
    assert Register(s) == 0xC7;
    RegisterSnoc(s, 0x39);
    s := s + [0x39];
    assert Register(s) == 0xF4;
    assert s == [0x31, 0x32, 0x33, 0x34, 0x35, 0x36, 0x37, 0x38, 0x39];
  }

  /** The register after each character of "123456789". */
  lemma CheckValueSteps()
    ensures Update(0x00, 0x31) == 0x97
    ensures Update(0x97, 0x32) == 0x72
    ensures Update(0x72, 0x33) == 0xC0
    ensures Update(0xC0, 0x34) == 0xC2
    ensures Update(0xC2, 0x35) == 0xCB
    ensures Update(0xCB, 0x36) == 0xFD
    ensures Update(0xFD, 0x37) == 0x78
    ensures Update(0x78, 0x38) == 0xC7
    ensures Update(0xC7, 0x39) == 0xF4
  {
    assert (0x31 as bv8) == 0x31;
    assert Shift(0x00 ^ 0x31, 8) == 0x97;
    assert (0x32 as bv8) == 0x32;
    assert Shift(0x97 ^ 0x32, 8) == 0x72;
    assert (0x33 as bv8) == 0x33;
    assert Shift(0x72 ^ 0x33, 8) == 0xC0;
    assert (0x34 as bv8) == 0x34;
    assert Shift(0xC0 ^ 0x34, 8) == 0xC2;
    assert (0x35 as bv8) == 0x35;
    assert Shift(0xC2 ^ 0x35, 8) == 0xCB;
    assert (0x36 as bv8) == 0x36;
    assert Shift(0xCB ^ 0x36, 8) == 0xFD;
    assert (0x37 as bv8) == 0x37;
    assert Shift(0xFD ^ 0x37, 8) == 0x78;
    assert (0x38 as bv8) == 0x38;
    assert Shift(0x78 ^ 0x38, 8) == 0xC7;
    assert (0x39 as bv8) == 0x39;
    assert Shift(0xC7 ^ 0x39, 8) == 0xF4;
  }

  /** The check byte of the one-byte heartbeat payload 0x01 is 0x07. */
  lemma HeartBeatCheckValue()
    ensures Crc8([0x01]) == 0x07
  {
    RegisterSnoc([], 0x01);
    assert [] + [0x01] == [0x01];
    assert (0x01 as bv8) == 0x01;
    assert Shift(0x00 ^ 0x01, 8) == 0x07;
  }

  /** Folding a byte in is injective in the register and in the byte. */
  lemma UpdateInjective(c: bv8, c': bv8, b: Byte, b': Byte)
    requires Update(c, b) == Update(c', b')
    requires c == c' || b == b'
    ensures c == c' && b == b'
  {
    ShiftInjective(c ^ (b as bv8), c' ^ (b' as bv8), 8);
    ByteOfBits(b);
    ByteOfBits(b');
  }

  /** Two payloads of the same length that differ in exactly one byte never
      share a CRC: any corruption confined to one payload byte (in
      particular any single flipped bit) is detected. */
  lemma {:induction false} SingleByteErrorDetected(d: seq<Byte>, e: seq<Byte>, k: nat)
    requires |d| == |e| && k < |d|
    requires d[k] != e[k]
    requires forall i :: 0 <= i < |d| && i != k ==> d[i] == e[i]
    ensures Crc8(d) != Crc8(e)
  {
    var n := |d| - 1;
    assert Register(d) == Update(Register(d[..n]), d[n]);
    assert Register(e) == Update(Register(e[..n]), e[n]);
    if k == n {
      assert d[..n] == e[..n];
      if Register(d) == Register(e) {
        UpdateInjective(Register(d[..n]), Register(e[..n]), d[n], e[n]);
      }
    } else {
      SingleByteErrorDetected(d[..n], e[..n], k);
      if Register(d) == Register(e) {
        UpdateInjective(Register(d[..n]), Register(e[..n]), d[n], e[n]);
      }
    }
    BitsOfByteValue(Register(d));
    BitsOfByteValue(Register(e));
  }
}

/** The 8-byte little-endian form in which commit indexes are stored. */
module Bytes {
  import opened Basics

  /** binary.LittleEndian.PutUint64 for the low `count` bytes. */
  function PutLittleEndian(value: nat, count: nat): (bytes: seq<byte>)
    ensures |bytes| == count
  {
    if count == 0 then [] else [(value % 256) as byte] + PutLittleEndian(value / 256, count - 1)
  }

  function GetLittleEndian(bytes: seq<byte>): nat {
    if bytes == [] then 0 else bytes[0] as nat + 256 * GetLittleEndian(bytes[1..])
  }

  function Power256(count: nat): (power: nat)
    ensures power > 0
  {
    if count == 0 then 1 else 256 * Power256(count - 1)
  }

  function PutUint64(value: nat): (bytes: seq<byte>)
    ensures |bytes| == 8
  {
    PutLittleEndian(value, 8)
  }

  /** binary.Read into a uint64: the first eight bytes, and 0 when there are fewer. */
  function ReadUint64(data: seq<byte>): nat {
    if |data| < 8 then 0 else GetLittleEndian(data[..8])
  }

  lemma {:induction false} LittleEndianRoundTrip(value: nat, count: nat)
    requires value < Power256(count)
    ensures GetLittleEndian(PutLittleEndian(value, count)) == value
    decreases count
  {
    if count > 0 {
      LittleEndianRoundTrip(value / 256, count - 1);
      var bytes := PutLittleEndian(value, count);
      assert bytes[1..] == PutLittleEndian(value / 256, count - 1);
    }
  }

  /** The byte at `i` counts 256^i times: the low byte comes first. */
  lemma {:induction false} ByteAt(value: nat, count: nat, i: nat)
    requires i < count
    ensures PutLittleEndian(value, count)[i] as nat == value / Power256(i) % 256
    decreases count
  {
    if i > 0 {
      ByteAt(value / 256, count - 1, i - 1);
      DivideTwice(value, Power256(i - 1));
    }
  }

  lemma DivideTwice(value: nat, power: nat)
    requires power > 0
    ensures 256 * power > 0 && value / (256 * power) == value / 256 / power
  {
    var q, r := value / 256 / power, value / 256 % power;
    assert value / 256 == q * power + r;
    assert value == q * (256 * power) + (256 * r + value % 256);
    QuotientIs(value, 256 * power, q, 256 * r + value % 256);
  }

  lemma QuotientIs(x: nat, n: nat, q: nat, r: nat)
    requires n > 0 && x == q * n + r && r < n
    ensures x / n == q
  {
    var p := x / n;
    assert p * n <= x < p * n + n;
    if p < q { LaterMultiple(n, p, q); }
    if q < p { LaterMultiple(n, q, p); }
  }

  lemma LaterMultiple(n: nat, a: nat, b: nat)
    requires a < b
    ensures a * n + n <= b * n
  {
    assert b * n == a * n + (b - a) * n;
    assert (b - a) * n == n + (b - a - 1) * n;
  }

  /** Whatever follows the first eight bytes is not read; with fewer there is nothing to read. */
  lemma ReadsEight(data: seq<byte>, more: seq<byte>)
    ensures |data| == 8 ==> ReadUint64(data + more) == ReadUint64(data)
    ensures |data| < 8 ==> ReadUint64(data) == 0
  {
    if |data| == 8 { assert (data + more)[..8] == data[..8]; }
  }

  /** Every 64-bit value survives being written and read back. */
  lemma Uint64RoundTrip(value: nat)
    requires value < 0x1_0000_0000_0000_0000
    ensures ReadUint64(PutUint64(value)) == value
  {
    assert Power256(2) == 0x1_0000;
    assert Power256(4) == 0x1_0000_0000;
    assert Power256(6) == 0x1_0000_0000_0000;
    assert Power256(8) == 0x1_0000_0000_0000_0000;
    LittleEndianRoundTrip(value, 8);
    assert PutUint64(value)[..8] == PutUint64(value);
  }

  /** Reading decodes every eight bytes to a distinct value: writing what was read gives them back. */
  lemma {:induction false} WriteAfterRead(bytes: seq<byte>)
    ensures PutLittleEndian(GetLittleEndian(bytes), |bytes|) == bytes
    decreases |bytes|
  {
    if bytes != [] {
      WriteAfterRead(bytes[1..]);
      var rest := GetLittleEndian(bytes[1..]);
      var value := bytes[0] as nat + 256 * rest;
      assert value % 256 == bytes[0] as nat && value / 256 == rest;
      assert bytes == [bytes[0]] + bytes[1..];
    }
  }
}

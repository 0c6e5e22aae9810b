/** The Internet checksum of flow_headers.go (sections 1 and 2 of RFC 1071) and its two headers. */
module Checksum {
  import opened Basics

  type u16 = x: int | 0 <= x < 0x1_0000

  const TWO32: int := 0x1_0000_0000

  /** The 16-bit big-endian words of a buffer, added up without limit; an odd byte is a high byte. */
  function WordSum(buf: seq<byte>): nat {
    if |buf| == 0 then 0
    else if |buf| == 1 then 256 * buf[0] as int
    else 256 * buf[0] as int + buf[1] as int + WordSum(buf[2..])
  }

  /** The sum of a buffer of zeros is zero. */
  lemma {:induction false} ZerosSum(buf: seq<byte>)
    requires forall i :: 0 <= i < |buf| ==> buf[i] == 0
    ensures WordSum(buf) == 0
    decreases |buf|
  {
    if |buf| >= 2 { ZerosSum(buf[2..]); }
  }

  /** Every byte counts 256 times at an even position, the last one of an odd length included, and once at an odd one. */
  lemma {:induction false} ByteCounts(buf: seq<byte>, i: nat, b: byte)
    requires i < |buf|
    ensures WordSum(buf[i := b]) - WordSum(buf) == (if i % 2 == 0 then 256 else 1) * (b as int - buf[i] as int)
    decreases |buf|
  {
    if i >= 2 {
      assert buf[i := b][2..] == buf[2..][i - 2 := b];
      ByteCounts(buf[2..], i - 2, b);
    } else if |buf| >= 2 {
      assert buf[i := b][2..] == buf[2..];
    }
  }

  /** Whole words add up, whatever follows them. */
  lemma {:induction false} WordsAddUp(a: seq<byte>, b: seq<byte>)
    requires |a| % 2 == 0
    ensures WordSum(a + b) == WordSum(a) + WordSum(b)
    decreases |a|
  {
    if |a| == 0 {
      assert a + b == b;
    } else {
      assert (a + b)[2..] == a[2..] + b;
      WordsAddUp(a[2..], b);
    }
  }

  /** An odd buffer is summed as if a zero byte followed (section 4.1 of RFC 1071). */
  lemma PaddingIsZero(buf: seq<byte>)
    requires |buf| % 2 == 1
    ensures WordSum(buf + [0]) == WordSum(buf)
  {
    var front, last := buf[..|buf| - 1], buf[|buf| - 1];
    assert buf == front + [last] && buf + [0] == front + [last, 0];
    WordsAddUp(front, [last]);
    WordsAddUp(front, [last, 0]);
    assert [last, 0][2..] == [];
  }

  /** A big-endian word is its high byte first. */
  lemma TwoBytes(h: byte, l: byte)
    ensures WordSum([h, l]) == 256 * h as int + l as int && WordSum([h]) == 256 * h as int
  {
    assert [h, l][2..] == [];
  }

  /** Adding the carries back in until sixteen bits are left. */
  function Fold(sum: nat): nat {
    if sum > 0xffff then Fold(sum / 0x1_0000 + sum % 0x1_0000) else sum
  }

  /** Folding is reduction modulo 65535, except that only zero folds to zero. */
  lemma {:induction false} FoldIsResidue(sum: nat)
    ensures Fold(sum) <= 0xffff
    ensures Fold(sum) % 0xffff == sum % 0xffff
    ensures Fold(sum) == 0 <==> sum == 0
    decreases sum
  {
    if sum > 0xffff {
      var hi, lo := sum / 0x1_0000, sum % 0x1_0000;
      FoldIsResidue(hi + lo);
      assert sum == 0xffff * hi + (hi + lo);
      MultipleDropsOut(hi, hi + lo);
    }
  }

  lemma MultipleDropsOut(k: int, x: int)
    ensures (0xffff * k + x) % 0xffff == x % 0xffff
  {
  }

  /** A sum checks out: its words fold to all ones. */
  predicate AllOnes(sum: nat) {
    Fold(sum) == 0xffff
  }

  lemma AllOnesIff(sum: nat)
    ensures AllOnes(sum) <==> sum > 0 && sum % 0xffff == 0
  {
    FoldIsResidue(sum);
  }

  /** Carries lost by a 32-bit accumulator over the buffer. */
  function LostCarries(buf: seq<byte>): nat {
    WordSum(buf) / TWO32
  }

  /**
   * checksum as written, 32-bit accumulator included. The buffer's words plus the result fold to
   * all ones exactly when the number of carries the accumulator lost is a multiple of 65535, in
   * particular when it lost none; with what was left in the accumulator they always do, and only
   * this result does that.
   */
  method ComputeChecksum(buf: seq<byte>) returns (csum: u16)
    ensures csum != 0
    ensures AllOnes(WordSum(buf) + csum) <==> LostCarries(buf) % 0xffff == 0
    ensures AllOnes(WordSum(buf) % TWO32 + csum)
  {
    var sum := 0;
    var rest := buf;
    ghost var carries := 0;
    while |rest| >= 2
      invariant 0 <= sum < TWO32 && carries >= 0
      invariant WordSum(buf) == WordSum(rest) + sum + carries * TWO32
      decreases |rest|
    {
      sum := sum + (256 * rest[0] as int + rest[1] as int);
      if sum >= TWO32 { sum := sum - TWO32; carries := carries + 1; }
      rest := rest[2..];
    }
    if |rest| > 0 {
      sum := sum + 256 * rest[0] as int;
      if sum >= TWO32 { sum := sum - TWO32; carries := carries + 1; }
    }
    assert WordSum(buf) == sum + carries * TWO32;
    ghost var total: nat := sum;
    while sum > 0xffff
      invariant 0 <= sum && Fold(sum) == Fold(total)
    {
      sum := sum / 0x1_0000 + sum % 0x1_0000;
    }
    csum := 0xffff - sum;
    if csum == 0 { csum := 0xffff; }
    ChecksumMeaning(WordSum(buf), total, carries, csum);
  }

  /** The complement of a folded sum makes it check out. */
  lemma ComplementChecks(total: nat, csum: int)
    requires csum == if Fold(total) == 0xffff then 0xffff else 0xffff - Fold(total)
    requires 0 < csum <= 0xffff
    ensures AllOnes(total + csum) && (total + csum) % 0xffff == 0
  {
    FoldIsResidue(total);
    FillsUp(total, Fold(total), csum);
    AllOnesIff(total + csum);
  }

  lemma FillsUp(total: nat, f: nat, csum: int)
    requires f <= 0xffff && f % 0xffff == total % 0xffff && csum == if f == 0xffff then 0xffff else 0xffff - f
    ensures (total + csum) % 0xffff == 0
  {
    var k := total / 0xffff;
    assert total == 0xffff * k + total % 0xffff;
    assert total + csum == 0xffff * (k + 1) + 0;
    MultipleDropsOut(k + 1, 0);
  }

  lemma ChecksumMeaning(words: nat, total: nat, carries: nat, csum: int)
    requires words == total + carries * TWO32 && total < TWO32
    requires csum == if Fold(total) == 0xffff then 0xffff else 0xffff - Fold(total)
    requires 0 < csum <= 0xffff
    ensures AllOnes(words + csum) <==> (words / TWO32) % 0xffff == 0
    ensures AllOnes(words % TWO32 + csum)
  {
    assert words / TWO32 == carries && words % TWO32 == total;
    ComplementChecks(total, csum);
    AllOnesIff(words + csum);
    assert words + csum == 0xffff * (carries * 0x1_0001) + (carries + (total + csum));
    MultipleDropsOut(carries * 0x1_0001, carries + (total + csum));
    var j := (total + csum) / 0xffff;
    assert total + csum == 0xffff * j;
    MultipleDropsOut(j, carries);
  }

  /** There is one checksum for a sum. */
  lemma ChecksumIsUnique(sum: nat, a: u16, b: u16)
    requires a != 0 && b != 0 && AllOnes(sum + a) && AllOnes(sum + b)
    ensures a == b
  {
    AllOnesIff(sum + a);
    AllOnesIff(sum + b);
    var i, j := (sum + a) / 0xffff, (sum + b) / 0xffff;
    assert a - b == 0xffff * (i - j);
  }

  // ---------------------------------------------------------------- no carry is lost

  lemma {:induction false} WordSumBound(buf: seq<byte>)
    ensures WordSum(buf) <= 0xffff * ((|buf| + 1) / 2)
    decreases |buf|
  {
    if |buf| >= 2 { WordSumBound(buf[2..]); }
  }

  /** Up to 131074 bytes the accumulator cannot overflow. */
  lemma NothingIsLost(buf: seq<byte>)
    requires |buf| <= 131074
    ensures WordSum(buf) < TWO32 && LostCarries(buf) == 0
  {
    WordSumBound(buf);
  }

  /** Two bytes more can: 131076 bytes of 0xff lose a carry, and the checksum no longer checks. */
  lemma LongBuffersLoseCarries(buf: seq<byte>)
    requires |buf| == 131076 && forall i :: 0 <= i < |buf| ==> buf[i] == 255
    ensures LostCarries(buf) == 1
  {
    OnesSum(buf);
    assert WordSum(buf) == 0xffff * 65538;
  }

  lemma {:induction false} OnesSum(buf: seq<byte>)
    requires |buf| % 2 == 0 && forall i :: 0 <= i < |buf| ==> buf[i] == 255
    ensures WordSum(buf) == 0xffff * (|buf| / 2)
    decreases |buf|
  {
    if |buf| >= 2 { OnesSum(buf[2..]); }
  }

  // ---------------------------------------------------------------- headers

  function BigEndian(x: u16): seq<byte> {
    [(x / 256) as byte, (x % 256) as byte]
  }

  /** A word at an even offset adds its value to the sum. */
  lemma {:induction false} WordAt(before: seq<byte>, x: u16, after: seq<byte>)
    requires |before| % 2 == 0
    ensures WordSum(before + BigEndian(x) + after) == WordSum(before + BigEndian(0) + after) + x
    decreases |before|
  {
    var all, none := before + BigEndian(x) + after, before + BigEndian(0) + after;
    if |before| == 0 {
      assert all[2..] == after && none[2..] == after;
    } else {
      var rest := before[2..];
      assert all[2..] == rest + BigEndian(x) + after && none[2..] == rest + BigEndian(0) + after;
      WordAt(rest, x, after);
    }
  }

  lemma BigEndianSum(x: u16)
    ensures |BigEndian(x)| == 2 && WordSum(BigEndian(x)) == x
  {
    TwoBytes((x / 256) as byte, (x % 256) as byte);
  }

  class Iphdr {
    var Vhl: byte
    var Tos: byte
    var Iplen: u16
    var Id: u16
    var Off: u16
    var Ttl: byte
    var Proto: byte
    var Csum: u16
    var Src: seq<byte>
    var Dst: seq<byte>

    ghost predicate Valid() reads this { |Src| == 4 && |Dst| == 4 }

    function Front(): (s: seq<byte>)
      reads this
      ensures |s| == 10
    {
      [Vhl, Tos] + BigEndian(Iplen) + BigEndian(Id) + BigEndian(Off) + [Ttl, Proto]
    }

    /** The header on the wire, big-endian. */
    function Wire(): seq<byte>
      reads this
    {
      Front() + BigEndian(Csum) + (Src + Dst)
    }

    /** Every field stands where section 3.1 of RFC 791 has it, high byte first. */
    lemma WireFields()
      requires Valid()
      ensures
        var w := Wire();
        && |w| == 20 && w[0] == Vhl && w[1] == Tos
        && 256 * w[2] as int + w[3] as int == Iplen && 256 * w[4] as int + w[5] as int == Id
        && 256 * w[6] as int + w[7] as int == Off && w[8] == Ttl && w[9] == Proto
        && 256 * w[10] as int + w[11] as int == Csum && w[12..16] == Src && w[16..20] == Dst
    {
    }

    /** The words of the header, field by field. */
    lemma WireSum()
      requires Valid()
      ensures WordSum(Wire()) == (256 * Vhl as int + Tos as int) + Iplen + Id + Off + (256 * Ttl as int + Proto as int) + Csum
                                 + WordSum(Src) + WordSum(Dst)
    {
      FrontSum();
      WordsAddUp(Front() + BigEndian(Csum), Src + Dst);
      WordsAddUp(Front(), BigEndian(Csum));
      WordsAddUp(Src, Dst);
      BigEndianSum(Csum);
    }

    lemma FrontSum()
      ensures WordSum(Front()) == (256 * Vhl as int + Tos as int) + Iplen + Id + Off + (256 * Ttl as int + Proto as int)
    {
      WordsAddUp([Vhl, Tos] + BigEndian(Iplen) + BigEndian(Id) + BigEndian(Off), [Ttl, Proto]);
      WordsAddUp([Vhl, Tos] + BigEndian(Iplen) + BigEndian(Id), BigEndian(Off));
      WordsAddUp([Vhl, Tos] + BigEndian(Iplen), BigEndian(Id));
      WordsAddUp([Vhl, Tos], BigEndian(Iplen));
      TwoBytes(Vhl, Tos);
      TwoBytes(Ttl, Proto);
      BigEndianSum(Iplen);
      BigEndianSum(Id);
      BigEndianSum(Off);
    }

    /**
     * Afterwards the header with its checksum in place checks out (section 3.1 of RFC 791), on the
     * wire and as the sum of its fields; the checksum is not zero, which makes it the only one.
     */
    method InstallChecksum()
      requires Valid()
      modifies this`Csum
      ensures |Wire()| == 20 && Csum != 0 && AllOnes(WordSum(Wire()))
      ensures AllOnes((256 * Vhl as int + Tos as int) + Iplen + Id + Off + (256 * Ttl as int + Proto as int) + Csum
                      + WordSum(Src) + WordSum(Dst))
    {
      Csum := 0;
      var bare := Wire();
      NothingIsLost(bare);
      var csum := ComputeChecksum(bare);
      Csum := csum;
      WordAt(Front(), Csum, Src + Dst);
      WireSum();
    }
  }

  class Udphdr {
    var Src: u16
    var Dst: u16
    var Ulen: u16
    var Csum: u16

    /** Pseudo header, UDP header and payload as they are summed (RFC 768). */
    function Wire(ip: Iphdr, payload: seq<byte>): seq<byte>
      reads this, ip
    {
      Front(ip) + BigEndian(Csum) + payload
    }

    function Front(ip: Iphdr): seq<byte>
      reads this, ip
    {
      ip.Src + ip.Dst + [0, ip.Proto] + BigEndian(Ulen) + BigEndian(Src) + BigEndian(Dst) + BigEndian(Ulen)
    }

    /** Both addresses, zero, protocol and length, then ports, length and checksum, then the payload. */
    lemma WireFields(ip: Iphdr, payload: seq<byte>)
      requires ip.Valid()
      ensures
        var w := Wire(ip, payload);
        && |w| == 20 + |payload| && w[0..4] == ip.Src && w[4..8] == ip.Dst && w[8] == 0 && w[9] == ip.Proto
        && 256 * w[10] as int + w[11] as int == Ulen && 256 * w[12] as int + w[13] as int == Src
        && 256 * w[14] as int + w[15] as int == Dst && 256 * w[16] as int + w[17] as int == Ulen
        && 256 * w[18] as int + w[19] as int == Csum && w[20..] == payload
    {
    }

    lemma FrontSum(ip: Iphdr)
      requires ip.Valid()
      ensures |Front(ip)| == 18
      ensures WordSum(Front(ip)) == WordSum(ip.Src) + WordSum(ip.Dst) + ip.Proto as int + Ulen + Src + Dst + Ulen
    {
      var a := ip.Src + ip.Dst + [0, ip.Proto];
      WordsAddUp(a + BigEndian(Ulen) + BigEndian(Src) + BigEndian(Dst), BigEndian(Ulen));
      WordsAddUp(a + BigEndian(Ulen) + BigEndian(Src), BigEndian(Dst));
      WordsAddUp(a + BigEndian(Ulen), BigEndian(Src));
      WordsAddUp(a, BigEndian(Ulen));
      WordsAddUp(ip.Src + ip.Dst, [0, ip.Proto]);
      WordsAddUp(ip.Src, ip.Dst);
      TwoBytes(0, ip.Proto);
      BigEndianSum(Ulen);
      BigEndianSum(Src);
      BigEndianSum(Dst);
    }

    /** The words of pseudo header, header and payload, field by field. */
    lemma WireSum(ip: Iphdr, payload: seq<byte>)
      requires ip.Valid()
      ensures WordSum(Wire(ip, payload)) == WordSum(ip.Src) + WordSum(ip.Dst) + ip.Proto as int + Ulen + Src + Dst + Ulen + Csum
                                            + WordSum(payload)
    {
      FrontSum(ip);
      WordsAddUp(Front(ip) + BigEndian(Csum), payload);
      WordsAddUp(Front(ip), BigEndian(Csum));
      BigEndianSum(Csum);
    }

    /**
     * Afterwards pseudo header, header and payload check out, exactly when the accumulator lost
     * no carries over the other words (modulo 65535), and so for every payload up to 131054
     * bytes, as the sum of the fields too; with what was left in the accumulator they always do,
     * and the checksum is never zero.
     */
    method InstallChecksum(ip: Iphdr, payload: seq<byte>)
      requires ip.Valid()
      modifies this`Csum
      ensures Csum != 0
      ensures AllOnes(WordSum(Wire(ip, payload))) <==> ((WordSum(Wire(ip, payload)) - Csum) / TWO32) % 0xffff == 0
      ensures AllOnes((WordSum(Wire(ip, payload)) - Csum) % TWO32 + Csum)
      ensures |payload| <= 131054 ==> AllOnes(WordSum(Wire(ip, payload)))
      ensures |payload| <= 131054 ==>
                AllOnes(WordSum(ip.Src) + WordSum(ip.Dst) + ip.Proto as int + Ulen + Src + Dst + Ulen + Csum + WordSum(payload))
    {
      Csum := 0;
      var bare := Wire(ip, payload);
      if |payload| <= 131054 { NothingIsLost(bare); }
      var csum := ComputeChecksum(bare);
      Csum := csum;
      WordAt(Front(ip), Csum, payload);
      WireSum(ip, payload);
    }
  }
}

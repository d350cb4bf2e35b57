/** Numbers as bit vectors and back. */
module Conversions {

  lemma WordOfInt(c: bv16)
    ensures (c as int) as bv16 == c
  {
  }

  lemma OneMore(x: bv8)
    requires x != 0xFF
    ensures (x + 1) as int == x as int + 1
  {
  }

  /** Every byte value is some bit vector's. */
  lemma {:induction false} SomeByte(b: int) returns (x: bv8)
    requires 0 <= b < 0x100
    ensures x as int == b
  {
    if b == 0 {
      x := 0;
    } else {
      x := SomeByte(b - 1);
      OneMore(x);
      x := x + 1;
    }
  }

  lemma BackToByte(x: bv8)
    ensures (x as int) as bv8 == x
  {
  }

  lemma ByteOfInt(b: int)
    requires 0 <= b < 0x100
    ensures (b as bv8) as int == b
  {
    var x := SomeByte(b);
    BackToByte(x);
  }
}

/** The link's checksum on bytes and words as numbers, and the errors in a frame that it detects. */
module LinkChecksum {
  import Crc16
  import opened Conversions
  import opened LlpFrame
  import opened LlpParser
  import opened LlpStream
  import opened TimedStreams

  /** llp_crc16_update. */
  function CrcUpdate(c: word, b: byte): word {
    Crc16.Update(c as bv16, b as bv8) as int
  }

  function AsBits(bytes: seq<byte>): (r: seq<bv8>)
    ensures |r| == |bytes| && forall i | 0 <= i < |r| :: r[i] == bytes[i] as bv8
  {
    seq(|bytes|, i requires 0 <= i < |bytes| => bytes[i] as bv8)
  }

  lemma UpdateOfWord(c: bv16, b: byte)
    ensures CrcUpdate(c as int, b) == Crc16.Update(c, b as bv8) as int
  {
    WordOfInt(c);
  }

  lemma CrcOneMore(bytes: seq<bv8>, b: bv8)
    ensures Crc16.Crc(Crc16.INITIAL, bytes + [b]) == Crc16.Update(Crc16.Crc(Crc16.INITIAL, bytes), b)
  {
    Crc16.CrcAppend(Crc16.INITIAL, bytes, [b]);
    CrcOfOne(Crc16.Crc(Crc16.INITIAL, bytes), [b]);
  }

  lemma CrcOfOne(c: bv16, bytes: seq<bv8>)
    requires |bytes| == 1
    ensures Crc16.Crc(c, bytes) == Crc16.Update(c, bytes[0])
  {
    assert bytes[1..] == [];
  }

  lemma {:induction false} CheckIsCrc(bytes: seq<byte>)
    ensures Check(CrcUpdate, bytes) == Crc16.Crc(Crc16.INITIAL, AsBits(bytes)) as int
    decreases |bytes|
  {
    if bytes == [] {
      InitialIsInitial();
    } else {
      var n := |bytes| - 1;
      CheckIsCrc(bytes[..n]);
      assert AsBits(bytes) == AsBits(bytes[..n]) + [bytes[n] as bv8];
      CrcOneMore(AsBits(bytes[..n]), bytes[n] as bv8);
      UpdateOfWord(Crc16.Crc(Crc16.INITIAL, AsBits(bytes[..n])), bytes[n]);
    }
  }

  lemma InitialIsInitial()
    ensures Crc16.INITIAL as int == CRC_INITIAL
  {
  }

  lemma WordsDiffer(a: bv16, b: bv16)
    requires a != b
    ensures a as int != b as int
  {
    WordOfInt(a);
    WordOfInt(b);
  }

  /** The bits of a message, each byte's top bit first. */
  function Bits(bytes: seq<byte>): (r: seq<bv16>)
    ensures |r| == 8 * |bytes|
  {
    Crc16.Bits(AsBits(bytes))
  }

  lemma BitsAppend(a: seq<byte>, b: seq<byte>)
    ensures Bits(a + b) == Bits(a) + Bits(b)
  {
    assert AsBits(a + b) == AsBits(a) + AsBits(b);
    Crc16.BitsAppend(AsBits(a), AsBits(b));
  }

  lemma AsBitsKnown(p: seq<byte>, q: seq<byte>)
    requires |p| == |q| && p != q
    ensures AsBits(p) != AsBits(q)
  {
    var i :| 0 <= i < |p| && p[i] != q[i];
    ByteOfInt(p[i]);
    ByteOfInt(q[i]);
    assert AsBits(p)[i] != AsBits(q)[i];
  }

  /** `p` and `q` differ, and only within 16 consecutive bits, the first of them bit `i`. */
  ghost predicate OneBurst(p: seq<byte>, q: seq<byte>, i: nat) {
    && |p| == |q| && p != q
    && forall j: nat | j < 8 * |p| && !(i <= j < i + 16) :: Bits(p)[j] == Bits(q)[j]
  }

  lemma BurstChangesCheck(p: seq<byte>, q: seq<byte>, i: nat)
    requires OneBurst(p, q, i)
    ensures Check(CrcUpdate, p) != Check(CrcUpdate, q)
  {
    AsBitsKnown(p, q);
    forall j: nat | j < 8 * |p| && !(i <= j < i + 16)
      ensures Crc16.Bits(AsBits(p))[j] == Crc16.Bits(AsBits(q))[j]
    {
      assert Bits(p)[j] == Bits(q)[j];
    }
    Crc16.BurstInBytes(Crc16.INITIAL, AsBits(p), AsBits(q), i);
    CheckIsCrc(p);
    CheckIsCrc(q);
    WordsDiffer(Crc16.Crc(Crc16.INITIAL, AsBits(p)), Crc16.Crc(Crc16.INITIAL, AsBits(q)));
  }

  lemma TailsDiffer(h: seq<byte>, p: seq<byte>, q: seq<byte>)
    requires |p| == |q| && p != q
    ensures h + p != h + q
  {
    var k :| 0 <= k < |p| && p[k] != q[k];
    assert (h + p)[|h| + k] != (h + q)[|h| + k];
  }

  /** Payloads that differ by one burst of at most 16 bits have different checksums, whatever their length. */
  lemma PayloadBurstDetected(p: seq<byte>, q: seq<byte>, i: nat)
    requires OneBurst(p, q, i) && |p| < 0x1_0000
    ensures Check(CrcUpdate, Content(p)) != Check(CrcUpdate, Content(q))
  {
    var header := Magic() + TwoBytes(|p|);
    BitsAppend(header, p);
    BitsAppend(header, q);
    TailsDiffer(header, p, q);
    BurstChangesCheck(header + p, header + q, i + 8 * |header|);
  }

  /** Payloads that differ only inside two adjacent bytes differ by such a burst. */
  lemma AdjacentBytesAreBurst(p: seq<byte>, q: seq<byte>, i: nat)
    requires |p| == |q| && p != q
    requires forall k: nat | k < |p| && k != i && k != i + 1 :: p[k] == q[k]
    ensures OneBurst(p, q, 8 * i)
  {
    forall j: nat | j < 8 * |p| && !(8 * i <= j < 8 * i + 16) ensures Bits(p)[j] == Bits(q)[j] {
      SameBit(p, q, j / 8, j % 8);
    }
  }

  lemma SameBit(p: seq<byte>, q: seq<byte>, i: nat, k: nat)
    requires |p| == |q| && i < |p| && k < 8 && p[i] == q[i]
    ensures Bits(p)[8 * i + k] == Bits(q)[8 * i + k]
  {
    Crc16.BitOfByte(AsBits(p), i, k);
    Crc16.BitOfByte(AsBits(q), i, k);
  }

  /**
   A payload hit by one burst of at most 16 bits is never delivered: the frame that carries
   it with the original checksum is refused on its last byte.
   */
  lemma BurstIsRefused(s: State, p: seq<byte>, q: seq<byte>, i: nat, times: seq<nat>)
    requires Valid(s) && |q| <= |s.buffer| && OneBurst(p, q, i)
    requires |times| == |Transmitted(q, Check(CrcUpdate, Content(p)))| && Prompt(times[0] % 0x1_0000, times[1..])
    requires s.escapePending ==> TimedOut(s, times[0])
    ensures var codes := Run(Parser(CrcUpdate), s, Transmitted(q, Check(CrcUpdate, Content(p))), times).1;
            1 !in codes && codes[|codes| - 1] == -1
  {
    PayloadBurstDetected(p, q, i);
    WrongChecksumIsRefused(CrcUpdate, s, q, Check(CrcUpdate, Content(p)), times);
  }
}

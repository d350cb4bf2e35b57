/**
 The wire format in plain numbers: a frame, the layers of a payload, and the timeout. The other link
 modules name these numbers; here they stand for themselves.
 */
module LinkFormat {
  import Crc16
  import CrcPolynomial
  import opened Conversions
  import opened LayerChain
  import opened LinkChecksum
  import opened LlpFrame
  import C = LlpParser
  import opened Options
  import Polynomials
  import Python = LlpPython

  // ---------------------------------------------------------------------------
  // Frames
  // ---------------------------------------------------------------------------

  /** The checksum of a frame is a remainder, with 16 ones before the content of the frame. */
  lemma FrameCheckIsRemainder(bytes: seq<byte>)
    ensures Polynomials.Remainder(CrcPolynomial.Dividend(0xFFFF, AsBits(bytes)),
                                  CrcPolynomial.OfWord(Check(CrcUpdate, bytes) as bv16))
  {
    CheckIsCrc(bytes);
    WordOfInt(Crc16.Crc(Crc16.INITIAL, AsBits(bytes)));
    CrcPolynomial.CrcIsRemainder(0xFFFF, AsBits(bytes));
  }

  lemma ContentCheck()
    ensures Crc16.Crc(0xFFFF, [0xAA, 0x55, 3, 0, 0, 0x47, 0xAA]) == 0x9A33
  {
    assert Crc16.Update(0xFFFF, 0xAA) == 0xF550;
    assert Crc16.Update(0xF550, 0x55) == 0xE5EA;
    assert Crc16.Update(0xE5EA, 3) == 0x77E8;
    assert Crc16.Update(0x77E8, 0) == 0xE670;
    assert Crc16.Update(0xE670, 0) == 0xEDE8;
    assert Crc16.Update(0xEDE8, 0x47) == 0xFCA0;
    assert Crc16.Update(0xFCA0, 0xAA) == 0x9A33;
  }

  lemma CheckInNumbers()
    ensures Check(CrcUpdate, [0xAA, 0x55, 3, 0, 0, 0x47, 0xAA]) == 0x9A33
  {
    var content: seq<byte> := [0xAA, 0x55, 3, 0, 0, 0x47, 0xAA];
    CheckIsCrc(content);
    BitsInNumbers(content);
    ContentCheck();
  }

  lemma BitsInNumbers(content: seq<byte>)
    requires content == [0xAA, 0x55, 3, 0, 0, 0x47, 0xAA]
    ensures AsBits(content) == [0xAA, 0x55, 3, 0, 0, 0x47, 0xAA]
  {
  }

  lemma BodyInNumbers(p: seq<byte>)
    requires p == [0, 0x47, 0xAA]
    ensures Body(CrcUpdate, p) == [3, 0, 0, 0x47, 0xAA, 0x33, 0x9A]
  {
    assert Content(p) == [0xAA, 0x55, 3, 0, 0, 0x47, 0xAA];
    CheckInNumbers();
  }

  /** The frame of a final layer with two bytes, the second of which is the first magic byte. */
  lemma FrameInNumbers()
    ensures Frame(CrcUpdate, [0, 0x47, 0xAA]) == [0xAA, 0x55, 3, 0, 0, 0x47, 0xAA, 0, 0x33, 0x9A]
  {
    BodyInNumbers([0, 0x47, 0xAA]);
    StuffInNumbers();
  }

  lemma StuffInNumbers()
    ensures Stuff([3, 0, 0, 0x47, 0xAA, 0x33, 0x9A]) == [3, 0, 0, 0x47, 0xAA, 0, 0x33, 0x9A]
  {
    StuffPlain([3, 0, 0, 0x47]);
    StuffPlain([0x33, 0x9A]);
    StuffOne([3, 0, 0, 0x47], 0xAA);
    StuffAppend([3, 0, 0, 0x47] + [0xAA], [0x33, 0x9A]);
    assert [3, 0, 0, 0x47] + [0xAA] + [0x33, 0x9A] == [3, 0, 0, 0x47, 0xAA, 0x33, 0x9A];
    assert [3, 0, 0, 0x47] + [0xAA, 0] + [0x33, 0x9A] == [3, 0, 0, 0x47, 0xAA, 0, 0x33, 0x9A];
  }

  lemma {:induction false} StuffPlain(bytes: seq<byte>)
    requires 0xAA !in bytes
    ensures Stuff(bytes) == bytes
    decreases |bytes|
  {
    if bytes != [] {
      assert 0xAA !in bytes[1..];
      StuffPlain(bytes[1..]);
      assert bytes == [bytes[0]] + bytes[1..];
    }
  }

  // ---------------------------------------------------------------------------
  // Layers
  // ---------------------------------------------------------------------------

  lemma ShortLayer(id: byte, n: byte, meta: seq<byte>, rest: seq<byte>)
    requires id != 0 && n < 255
    ensures |meta| == n ==>
              FinalPayload([id, n] + meta + rest) == if 0x80 <= id <= 0xFE then None else FinalPayload(rest)
    ensures |meta| < n ==> FinalPayload([id, n] + meta) == None
  {
    var p := [id, n] + meta + rest;
    assert p[1..] == [n] + meta + rest && p[2..] == meta + rest && (meta + rest)[|meta|..] == rest;
    assert ([id, n] + meta)[1..] == [n] + meta && ([id, n] + meta)[2..] == meta;
  }

  lemma LongLayer(id: byte, hi: byte, lo: byte, meta: seq<byte>, rest: seq<byte>)
    requires id != 0 && |meta| == 256 * hi as nat + lo as nat
    ensures FinalPayload([id, 255, hi, lo] + meta + rest) == if 0x80 <= id <= 0xFE then None else FinalPayload(rest)
  {
    var q := [id, 255, hi, lo] + meta + rest;
    assert q[1..] == [255, hi, lo] + meta + rest && q[4..] == meta + rest && (meta + rest)[|meta|..] == rest;
  }

  /**
   How a payload is read: 0 begins the data; an identifier from 0x80 to 0xFE hides what follows; any other is
   skipped with its metadata, whose length is one byte below 255, or 255 and two bytes, the higher first. A
   payload that ends before its data has none.
   */
  lemma LayerInNumbers(id: byte, n: byte, hi: byte, lo: byte, meta: seq<byte>, rest: seq<byte>)
    ensures FinalPayload([]) == None && FinalPayload([0] + rest) == Some(rest)
    ensures id != 0 && n < 255 && |meta| == n ==>
              FinalPayload([id, n] + meta + rest) == if 0x80 <= id <= 0xFE then None else FinalPayload(rest)
    ensures id != 0 && |meta| == 256 * hi as nat + lo as nat ==>
              FinalPayload([id, 255, hi, lo] + meta + rest) == if 0x80 <= id <= 0xFE then None else FinalPayload(rest)
    ensures id != 0 && n < 255 && |meta| < n ==> FinalPayload([id, n] + meta) == None
  {
    assert ([0] + rest)[1..] == rest;
    if id != 0 && n < 255 { ShortLayer(id, n, meta, rest); }
    if id != 0 && |meta| == 256 * hi as nat + lo as nat { LongLayer(id, hi, lo, meta, rest); }
  }

  // ---------------------------------------------------------------------------
  // Timeouts
  // ---------------------------------------------------------------------------

  /** Behind the magic both parsers give up a frame after more than 2000 milliseconds, and not before. */
  lemma TimeoutInNumbers(f: Checksum, buffer: seq<byte>, b: byte, start: nat, gap: nat)
    requires |buffer| < 0x1_0000 && b != 0xAA && start > 0 && gap < 0x1_0000
    ensures var c := C.Begin(f, C.Init(buffer)).(lastByteTime := start % 0x1_0000);
            C.Step(f, c, b, start + gap).1 == if gap > 2000 then -1 else 0
    ensures var p := Python.Initial().(crc := Python.MagicCrc(f), state := C.READ_LEN_L, lastByteTime := start);
            Python.Step(f, |buffer|, p, b, start + gap).1 == if gap > 2000 then -1 else 0
  {
    Python.ElapsedOfLow(start, start + gap);
  }
}

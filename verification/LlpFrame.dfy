/**
 The wire format of a link frame: two magic bytes, then length, payload and checksum with
 every 0xAA written as 0xAA 0x00.

 Builders and parsers of frames work with any checksum, so the checksum's byte update is a
 parameter here; module LinkChecksum supplies the CRC.
 */
module LlpFrame {

  type byte = b: int | 0 <= b < 0x100
  type word = w: int | 0 <= w < 0x1_0000
  type Checksum = (word, byte) -> word

  const MAGIC_1: byte := 0xAA
  const MAGIC_2: byte := 0x55
  const ESCAPE: byte := 0x00
  const CRC_INITIAL: word := 0xFFFF

  function Magic(): (m: seq<byte>)
    ensures |m| == 2 && m[0] == MAGIC_1 && m[1] == MAGIC_2
  {
    [MAGIC_1, MAGIC_2]
  }

  // ---------------------------------------------------------------------------
  // Byte stuffing
  // ---------------------------------------------------------------------------

  function Stuffed(b: byte): (s: seq<byte>)
    ensures 1 <= |s| <= 2 && s[0] == b
  {
    if b == MAGIC_1 then [MAGIC_1, ESCAPE] else [b]
  }

  function Stuff(bytes: seq<byte>): (s: seq<byte>)
    ensures |bytes| <= |s| <= 2 * |bytes|
    decreases |bytes|
  {
    if bytes == [] then [] else Stuffed(bytes[0]) + Stuff(bytes[1..])
  }

  lemma {:induction false} StuffAppend(a: seq<byte>, b: seq<byte>)
    ensures Stuff(a + b) == Stuff(a) + Stuff(b)
    decreases |a|
  {
    if a == [] {
      assert a + b == b;
    } else {
      assert (a + b)[1..] == a[1..] + b;
      StuffAppend(a[1..], b);
    }
  }

  lemma StuffOne(a: seq<byte>, b: byte)
    ensures Stuff(a + [b]) == Stuff(a) + Stuffed(b)
  {
    StuffAppend(a, [b]);
    assert Stuff([b]) == Stuffed(b) + Stuff([]);
  }

  /** No frame can seem to begin inside these bytes or across their end. */
  ghost predicate NoMagic(s: seq<byte>) {
    && (forall i, j {:trigger s[i], s[j]} | 0 <= i < j < |s| && j == i + 1 && s[i] == MAGIC_1 :: s[j] != MAGIC_2)
    && (s != [] ==> s[|s| - 1] != MAGIC_1)
  }

  lemma NoMagicAppend(a: seq<byte>, b: seq<byte>)
    requires NoMagic(a) && NoMagic(b)
    ensures NoMagic(a + b)
  {
    var s := a + b;
    forall i, j {:trigger s[i], s[j]} | 0 <= i < j < |s| && j == i + 1 && s[i] == MAGIC_1 ensures s[j] != MAGIC_2 {
      if j < |a| { assert a[i] == s[i] && a[j] == s[j]; }
      else if i >= |a| { assert b[i - |a|] == s[i] && b[j - |a|] == s[j]; }
    }
  }

  /** Stuffed bytes never contain a magic pair, and never end in the first magic byte. */
  lemma {:induction false} StuffHidesMagic(bytes: seq<byte>)
    ensures NoMagic(Stuff(bytes))
    decreases |bytes|
  {
    if bytes != [] {
      StuffHidesMagic(bytes[1..]);
      assert NoMagic(Stuffed(bytes[0]));
      NoMagicAppend(Stuffed(bytes[0]), Stuff(bytes[1..]));
    }
  }

  /** Stuffing loses nothing: no stuffed message is the beginning of another. */
  lemma {:induction false} StuffIsPrefixFree(a: seq<byte>, b: seq<byte>, x: seq<byte>, y: seq<byte>)
    requires Stuff(a) + x == Stuff(b) + y && |a| == |b|
    ensures a == b && x == y
    decreases |a|
  {
    if a != [] {
      var s, t := Stuff(a) + x, Stuff(b) + y;
      assert s[0] == a[0] && t[0] == b[0];
      assert s[|Stuffed(a[0])|..] == Stuff(a[1..]) + x && t[|Stuffed(b[0])|..] == Stuff(b[1..]) + y;
      StuffIsPrefixFree(a[1..], b[1..], x, y);
      assert a == [a[0]] + a[1..] && b == [b[0]] + b[1..];
    } else {
      assert Stuff(a) + x == x && Stuff(b) + y == y;
    }
  }

  // ---------------------------------------------------------------------------
  // Frames
  // ---------------------------------------------------------------------------

  /** A 16-bit value from its low and its high byte. */
  function Joined(lo: byte, hi: byte): word {
    var low, high: int := lo, hi;
    low + 0x100 * high
  }

  /** A 16-bit value, low byte first. */
  function TwoBytes(n: word): (s: seq<byte>)
    ensures |s| == 2 && Joined(s[0], s[1]) == n
  {
    [n % 0x100, n / 0x100]
  }

  lemma TwoBytesKnown(lo: byte, hi: byte)
    ensures TwoBytes(Joined(lo, hi)) == [lo, hi]
  {
  }

  /** The running checksum over a message. */
  function Check(f: Checksum, bytes: seq<byte>): word
    decreases |bytes|
  {
    if bytes == [] then CRC_INITIAL else f(Check(f, bytes[..|bytes| - 1]), bytes[|bytes| - 1])
  }

  lemma CheckOne(f: Checksum, bytes: seq<byte>, b: byte)
    ensures Check(f, bytes + [b]) == f(Check(f, bytes), b)
  {
    assert (bytes + [b])[..|bytes|] == bytes;
  }

  /** What the checksum covers: magic, length and payload. */
  function Content(p: seq<byte>): seq<byte>
    requires |p| < 0x1_0000
  {
    Magic() + TwoBytes(|p|) + p
  }

  /** Everything after the magic, before stuffing. */
  function Body(f: Checksum, p: seq<byte>): seq<byte>
    requires |p| < 0x1_0000
  {
    TwoBytes(|p|) + p + TwoBytes(Check(f, Content(p)))
  }

  function Frame(f: Checksum, p: seq<byte>): (s: seq<byte>)
    requires |p| < 0x1_0000
    ensures |s| <= 2 + 4 + 2 * |p| + 4
  {
    Magic() + Stuff(Body(f, p))
  }

  /** Frames determine their payloads. */
  lemma FrameIsInjective(f: Checksum, p: seq<byte>, q: seq<byte>)
    requires |p| < 0x1_0000 && |q| < 0x1_0000 && Frame(f, p) == Frame(f, q)
    ensures p == q
  {
    var a, b := TwoBytes(|p|), TwoBytes(|q|);
    var x := p + TwoBytes(Check(f, Content(p)));
    var y := q + TwoBytes(Check(f, Content(q)));
    assert Body(f, p) == a + x && Body(f, q) == b + y;
    StuffAppend(a, x);
    StuffAppend(b, y);
    assert Frame(f, p)[2..] == Stuff(a) + Stuff(x) && Frame(f, q)[2..] == Stuff(b) + Stuff(y);
    StuffIsPrefixFree(a, b, Stuff(x), Stuff(y));
    StuffIsPrefixFree(x, y, [], []);
    assert x[..|p|] == p && y[..|q|] == q;
  }

  // ---------------------------------------------------------------------------
  // Building a frame byte by byte
  // ---------------------------------------------------------------------------

  /** The stream `out` is the magic and the stuffed bytes `sent`, with their checksum. */
  ghost predicate Written(f: Checksum, out: seq<byte>, crc: word, sent: seq<byte>) {
    out == Magic() + Stuff(sent) && crc == Check(f, Magic() + sent)
  }

  lemma MagicWritten(f: Checksum)
    ensures Written(f, Magic(), f(f(CRC_INITIAL, MAGIC_1), MAGIC_2), [])
  {
    assert Check(f, []) == CRC_INITIAL;
    CheckOne(f, [], MAGIC_1);
    CheckOne(f, [MAGIC_1], MAGIC_2);
    assert [] + [MAGIC_1] == [MAGIC_1] && [MAGIC_1] + [MAGIC_2] == Magic();
    assert Magic() + [] == Magic();
  }

  lemma OneMoreWritten(f: Checksum, out: seq<byte>, crc: word, sent: seq<byte>, b: byte)
    requires Written(f, out, crc, sent)
    ensures Written(f, out + Stuffed(b), f(crc, b), sent + [b])
  {
    StuffOne(sent, b);
    CheckOne(f, Magic() + sent, b);
    assert (Magic() + sent) + [b] == Magic() + (sent + [b]);
  }

  lemma PrefixGrows(sent: seq<byte>, p: seq<byte>, i: nat)
    requires i < |p|
    ensures (sent + p[..i]) + [p[i]] == sent + p[..i + 1]
  {
  }

  lemma PrefixEnds(sent: seq<byte>, p: seq<byte>)
    ensures sent + p[..0] == sent && sent + p[..|p|] == sent + p
  {
  }

  lemma StuffTwo(a: byte, b: byte)
    ensures Stuff([a, b]) == Stuffed(a) + Stuffed(b)
  {
    StuffOne([a], b);
    assert [a] + [b] == [a, b] && Stuff([a]) == Stuffed(a) + Stuff([]);
  }

  lemma RegroupedRight(m: seq<byte>, x: seq<byte>, y: seq<byte>, z: seq<byte>)
    ensures m + x + y + z == m + (x + (y + z))
  {
  }

  /** The checksum of what has been written completes the frame. */
  lemma WrittenCompletes(f: Checksum, out: seq<byte>, crc: word, p: seq<byte>)
    requires |p| < 0x1_0000 && Written(f, out, crc, TwoBytes(|p|) + p)
    ensures out + Stuffed(crc % 0x100) + Stuffed(crc / 0x100) == Frame(f, p)
  {
    var sent := TwoBytes(|p|) + p;
    var lo, hi := Stuffed(crc % 0x100), Stuffed(crc / 0x100);
    assert crc == Check(f, Content(p)) by { assert Magic() + sent == Content(p); }
    StuffAppend(sent, TwoBytes(crc));
    StuffTwo(crc % 0x100, crc / 0x100);
    RegroupedRight(Magic(), Stuff(sent), lo, hi);
  }

  lemma Regrouped(m: seq<byte>, x: seq<byte>, y: seq<byte>, z: seq<byte>)
    ensures m + x + y + z == m + ((x + y) + z)
  {
  }

  lemma FrameInThree(f: Checksum, p: seq<byte>)
    requires |p| < 0x1_0000
    ensures Magic() + Stuff(TwoBytes(|p|)) + Stuff(p) + Stuff(TwoBytes(Check(f, Content(p)))) == Frame(f, p)
  {
    var crc := TwoBytes(Check(f, Content(p)));
    StuffAppend(TwoBytes(|p|), p);
    StuffAppend(TwoBytes(|p|) + p, crc);
    Regrouped(Magic(), Stuff(TwoBytes(|p|)), Stuff(p), Stuff(crc));
  }
}

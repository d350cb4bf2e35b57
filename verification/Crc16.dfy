/**
 The link's checksum: CRC-16-CCITT with polynomial 0x1021 and initial value 0xFFFF, fed byte
 by byte, most significant bit first.
 */
module Crc16 {

  type byte = bv8
  type word = bv16

  const POLYNOMIAL: word := 0x1021
  const INITIAL: word := 0xFFFF
  const BYTE_WIDTH: nat := 8

  /** One turn of the update loop, without its branch: the top bit selects the polynomial. */
  function Shift(c: word): word {
    (c << 1) ^ (POLYNOMIAL & (0 - (c >> 15)))
  }

  lemma ShiftBranches(c: word)
    ensures c & 0x8000 != 0 ==> Shift(c) == (c << 1) ^ POLYNOMIAL
    ensures c & 0x8000 == 0 ==> Shift(c) == c << 1
  {
  }

  function Shifts(c: word, n: nat): word
    decreases n
  {
    if n == 0 then c else Shifts(Shift(c), n - 1)
  }

  /** The data byte enters at the top. */
  function Entered(c: word, d: byte): word {
    c ^ ((d as word) << 8)
  }

  /** llp_crc16_update. */
  function Update(c: word, d: byte): word {
    Shifts(Entered(c, d), BYTE_WIDTH)
  }

  function Crc(c: word, bytes: seq<byte>): word
    decreases |bytes|
  {
    if bytes == [] then c else Crc(Update(c, bytes[0]), bytes[1..])
  }

  lemma {:induction false} CrcAppend(c: word, a: seq<byte>, b: seq<byte>)
    ensures Crc(c, a + b) == Crc(Crc(c, a), b)
    decreases |a|
  {
    if a == [] {
      assert a + b == b;
    } else {
      assert (a + b)[1..] == a[1..] + b;
      CrcAppend(Update(c, a[0]), a[1..], b);
    }
  }

  /** The update loop, as the firmware runs it. */
  method UpdateLoop(crc: word, data: byte) returns (c: word)
    ensures c == Update(crc, data)
  {
    c := crc ^ ((data as word) << 8);
    for i := 0 to 8
      invariant Shifts(c, 8 - i) == Update(crc, data)
    {
      ShiftBranches(c);
      c := if c & 0x8000 != 0 then (c << 1) ^ POLYNOMIAL else c << 1;
    }
  }

  // ---------------------------------------------------------------------------
  // The same checksum bit by bit. A message bit is a word that is zero below its top bit.
  // ---------------------------------------------------------------------------

  predicate IsBit(b: word) {
    b & 0x7FFF == 0
  }

  /** One message bit enters at the top. */
  function Feed(c: word, b: word): word {
    Shift(c ^ b)
  }

  function FeedAll(c: word, bits: seq<word>): word
    decreases |bits|
  {
    if bits == [] then c else FeedAll(Feed(c, bits[0]), bits[1..])
  }

  /** The `n` top bits of a word, the topmost first. */
  function TopBits(x: word, n: nat): (bits: seq<word>)
    ensures |bits| == n
    decreases n
  {
    if n == 0 then [] else [x & 0x8000] + TopBits(x << 1, n - 1)
  }

  function ByteBits(d: byte): (bits: seq<word>)
    ensures |bits| == 8
  {
    TopBits((d as word) << 8, BYTE_WIDTH)
  }

  function Bits(bytes: seq<byte>): (bits: seq<word>)
    ensures |bits| == 8 * |bytes|
  {
    if bytes == [] then [] else ByteBits(bytes[0]) + Bits(bytes[1..])
  }

  lemma {:induction false} FeedAppend(c: word, a: seq<word>, b: seq<word>)
    ensures FeedAll(c, a + b) == FeedAll(FeedAll(c, a), b)
    decreases |a|
  {
    if a == [] {
      assert a + b == b;
    } else {
      assert (a + b)[1..] == a[1..] + b;
      FeedAppend(Feed(c, a[0]), a[1..], b);
    }
  }

  function Left(x: word, n: nat): word
    decreases n
  {
    if n == 0 then x else Left(x << 1, n - 1)
  }

  lemma SplitStep(y: word, c: word, x: word)
    requires y == c ^ x
    ensures Shift(y) == Feed(c, x & 0x8000) ^ (x << 1)
  {
  }

  lemma OneFeed(y: word, c: word, x: word, n: nat)
    requires n > 0 && Shifts(Shift(y), n - 1) == FeedAll(Feed(c, x & 0x8000), TopBits(x << 1, n - 1))
    ensures Shifts(y, n) == FeedAll(c, TopBits(x, n))
  {
    assert TopBits(x, n)[1..] == TopBits(x << 1, n - 1);
  }

  lemma {:induction false} RestAreFeeds(y: word, c: word, x: word, n: nat)
    requires n > 0 && y == c ^ x && Left(x, n) == 0
    ensures Shifts(Shift(y), n - 1) == FeedAll(Feed(c, x & 0x8000), TopBits(x << 1, n - 1))
    decreases n, 0
  {
    SplitStep(y, c, x);
    ShiftsAreFeeds(Shift(y), Feed(c, x & 0x8000), x << 1, n - 1);
  }

  lemma {:induction false} ShiftsAreFeeds(y: word, c: word, x: word, n: nat)
    requires y == c ^ x && Left(x, n) == 0
    ensures Shifts(y, n) == FeedAll(c, TopBits(x, n))
    decreases n, 1
  {
    if n == 0 {
      XorNothing(c);
    } else {
      RestAreFeeds(y, c, x, n);
      OneFeed(y, c, x, n);
    }
  }

  lemma NothingLeft(x: word)
    requires x & 0xFF == 0
    ensures Left(x, 8) == 0
  {
  }

  lemma XorNothing(x: word)
    ensures x ^ 0 == x
  {
  }

  lemma LowByteFree(d: byte)
    ensures ((d as word) << 8) & 0xFF == 0
  {
  }

  /** A byte update is eight bit updates. */
  lemma UpdateIsFeeds(c: word, d: byte)
    ensures Update(c, d) == FeedAll(c, ByteBits(d))
  {
    var x := (d as word) << 8;
    LowByteFree(d);
    NothingLeft(x);
    ShiftsAreFeeds(c ^ x, c, x, BYTE_WIDTH);
  }

  lemma {:induction false} CrcIsFeeds(c: word, bytes: seq<byte>)
    ensures Crc(c, bytes) == FeedAll(c, Bits(bytes))
    decreases |bytes|
  {
    if bytes != [] {
      UpdateIsFeeds(c, bytes[0]);
      FeedAppend(c, ByteBits(bytes[0]), Bits(bytes[1..]));
      CrcIsFeeds(Update(c, bytes[0]), bytes[1..]);
    }
  }

  // ---------------------------------------------------------------------------
  // Bursts
  // ---------------------------------------------------------------------------

  /** The words agree on the bits of the mask. */
  predicate Agree(a: word, b: word, mask: word) {
    (a ^ b) & mask == 0
  }

  /** If two registers agree on their low bits after a bit, they agreed on one bit less before. */
  lemma AgreeBefore(a: word, x: word, b: word, y: word, mask: word)
    requires IsBit(x) && IsBit(y) && mask & 1 == 1 && Agree(Feed(a, x), Feed(b, y), mask)
    ensures Agree(a, b, mask >> 1)
  {
  }

  /** Different bits into equal registers: the low bits differ. */
  lemma DifferAfter(a: word, x: word, y: word)
    requires IsBit(x) && IsBit(y) && x != y
    ensures !Agree(Feed(a, x), Feed(a, y), 1)
  {
  }

  /** Registers that are equal after the same bit were equal before. */
  lemma FeedInjective(a: word, b: word, x: word)
    requires Feed(a, x) == Feed(b, x)
    ensures a == b
  {
  }

  lemma {:induction false} FeedAllInjective(a: word, b: word, bits: seq<word>)
    requires FeedAll(a, bits) == FeedAll(b, bits)
    ensures a == b
    decreases |bits|
  {
    if bits != [] {
      FeedAllInjective(Feed(a, bits[0]), Feed(b, bits[0]), bits[1..]);
      FeedInjective(a, b, bits[0]);
    }
  }

  /** The mask of the `n` low bits. */
  function Low(n: nat): word
    requires n <= 16
    decreases n
  {
    if n == 0 then 0 else (Low(n - 1) << 1) | 1
  }

  lemma LowIsOdd(n: nat)
    requires 1 <= n <= 16
    ensures Low(n) & 1 == 1
  {
    OrOne(Low(n - 1) << 1);
  }

  lemma OrOne(x: word)
    ensures (x | 1) & 1 == 1
  {
  }

  lemma LowHalves(n: nat)
    requires 1 <= n <= 16
    ensures Low(n) >> 1 == Low(n - 1)
  {
    LowIsLow(n - 1);
    TopFree(Low(n - 1));
  }

  lemma TopFree(x: word)
    requires x & 0x8000 == 0
    ensures ((x << 1) | 1) >> 1 == x
  {
  }

  lemma LowIsLow(n: nat)
    requires n <= 15
    ensures Low(n) & 0x8000 == 0
  {
    assert Low(1) == 1 && Low(2) == 3 && Low(3) == 7 && Low(4) == 0xF && Low(5) == 0x1F;
    assert Low(6) == 0x3F && Low(7) == 0x7F && Low(8) == 0xFF && Low(9) == 0x1FF && Low(10) == 0x3FF;
    assert Low(11) == 0x7FF && Low(12) == 0xFFF && Low(13) == 0x1FFF && Low(14) == 0x3FFF && Low(15) == 0x7FFF;
  }

  predicate AllBits(bits: seq<word>) {
    forall b | b in bits :: IsBit(b)
  }

  /** Agreement on `n` low bits reaches back over fewer than `n` bits of any two messages. */
  lemma {:induction false} AgreeAllBefore(a: word, u: seq<word>, b: word, v: seq<word>, n: nat)
    requires |u| == |v| < n <= 16 && AllBits(u) && AllBits(v)
    requires Agree(FeedAll(a, u), FeedAll(b, v), Low(n))
    ensures Agree(a, b, Low(n - |u|))
    decreases |u|
  {
    if u != [] {
      AgreeAllBefore(Feed(a, u[0]), u[1..], Feed(b, v[0]), v[1..], n);
      LowIsOdd(n - |u| + 1);
      LowHalves(n - |u| + 1);
      assert u[0] in u && v[0] in v;
      AgreeBefore(a, u[0], b, v[0], Low(n - |u| + 1));
    }
  }

  lemma AgreeOnLess(a: word, b: word, mask: word)
    requires mask & 1 == 1 && Agree(a, b, mask)
    ensures Agree(a, b, 1)
  {
  }

  lemma EqualAgree(a: word, mask: word)
    ensures Agree(a, a, mask)
  {
  }

  /** Two messages that first differ in their first bit and are equal after the 16th. */
  lemma BurstAtStart(c: word, a: seq<word>, b: seq<word>)
    requires |a| == |b| >= 1 && AllBits(a) && AllBits(b) && a[0] != b[0]
    requires forall j | 16 <= j < |a| :: a[j] == b[j]
    ensures FeedAll(c, a) != FeedAll(c, b)
  {
    var n := if |a| < 16 then |a| else 16;
    var u, v := a[1..n], b[1..n];
    var x, y := Feed(c, a[0]), Feed(c, b[0]);
    assert a[n..] == b[n..];
    assert a[1..] == u + a[n..] && b[1..] == v + b[n..];
    FeedAppend(x, u, a[n..]);
    FeedAppend(y, v, b[n..]);
    if FeedAll(c, a) == FeedAll(c, b) {
      FeedAllInjective(FeedAll(x, u), FeedAll(y, v), a[n..]);
      EqualAgree(FeedAll(x, u), Low(16));
      AgreeAllBefore(x, u, y, v, 16);
      LowIsOdd(16 - |u|);
      AgreeOnLess(x, y, Low(16 - |u|));
      assert a[0] in a && b[0] in b;
      DifferAfter(c, a[0], b[0]);
    }
  }

  /** `a` and `b` differ, and only within 16 consecutive bits, the first of them bit `i`. */
  ghost predicate Burst(a: seq<word>, b: seq<word>, i: nat) {
    && |a| == |b| && a != b
    && forall j: nat | j < |a| && !(i <= j < i + 16) :: a[j] == b[j]
  }

  /** Bit messages that differ in one burst of at most 16 bits have different checksums. */
  lemma {:induction false} BurstDetected(c: word, a: seq<word>, b: seq<word>, i: nat)
    requires AllBits(a) && AllBits(b) && Burst(a, b, i)
    ensures FeedAll(c, a) != FeedAll(c, b)
    decreases |a|
  {
    assert |a| > 0;
    if a[0] != b[0] {
      BurstAtStart(c, a, b);
    } else {
      assert a == [a[0]] + a[1..] && b == [b[0]] + b[1..];
      BurstDetected(Feed(c, a[0]), a[1..], b[1..], if i == 0 then 0 else i - 1);
    }
  }

  // ---------------------------------------------------------------------------
  // Bursts in bytes
  // ---------------------------------------------------------------------------

  lemma {:induction false} TopBitsAreBits(x: word, n: nat)
    ensures AllBits(TopBits(x, n))
    decreases n
  {
    if n > 0 {
      TopBitsAreBits(x << 1, n - 1);
      JustTheTop(x);
    }
  }

  lemma JustTheTop(x: word)
    ensures IsBit(x & 0x8000)
  {
  }

  lemma {:induction false} BitsAreBits(bytes: seq<byte>)
    ensures AllBits(Bits(bytes))
    decreases |bytes|
  {
    if bytes != [] {
      TopBitsAreBits((bytes[0] as word) << 8, 8);
      BitsAreBits(bytes[1..]);
    }
  }

  lemma TopBitsSplit(x: word, y: word, n: nat)
    requires n > 0 && TopBits(x, n) == TopBits(y, n)
    ensures x & 0x8000 == y & 0x8000 && TopBits(x << 1, n - 1) == TopBits(y << 1, n - 1)
  {
    assert TopBits(x, n)[0] == TopBits(y, n)[0];
    assert TopBits(x, n)[1..] == TopBits(x << 1, n - 1) && TopBits(y, n)[1..] == TopBits(y << 1, n - 1);
  }

  /** A word is known from its top bits and what is left below them. */
  lemma {:induction false} TopBitsKnown(x: word, y: word, n: nat)
    requires TopBits(x, n) == TopBits(y, n) && Left(x, n) == Left(y, n)
    ensures x == y
    decreases n
  {
    if n > 0 {
      TopBitsSplit(x, y, n);
      TopBitsKnown(x << 1, y << 1, n - 1);
      TopAndRest(x, y);
    }
  }

  lemma TopAndRest(x: word, y: word)
    requires x & 0x8000 == y & 0x8000 && x << 1 == y << 1
    ensures x == y
  {
  }

  lemma ByteBitsKnown(d: byte, e: byte)
    requires ByteBits(d) == ByteBits(e)
    ensures d == e
  {
    var x, y := (d as word) << 8, (e as word) << 8;
    LowByteFree(d);
    LowByteFree(e);
    NothingLeft(x);
    NothingLeft(y);
    TopBitsKnown(x, y, 8);
    SameByte(d, e);
  }

  lemma SameByte(d: byte, e: byte)
    requires (d as word) << 8 == (e as word) << 8
    ensures d == e
  {
  }

  lemma {:induction false} BitsKnown(a: seq<byte>, b: seq<byte>)
    requires |a| == |b| && Bits(a) == Bits(b)
    ensures a == b
    decreases |a|
  {
    if a != [] {
      assert Bits(a)[..8] == ByteBits(a[0]) && Bits(b)[..8] == ByteBits(b[0]);
      assert Bits(a)[8..] == Bits(a[1..]) && Bits(b)[8..] == Bits(b[1..]);
      ByteBitsKnown(a[0], b[0]);
      BitsKnown(a[1..], b[1..]);
      assert a == [a[0]] + a[1..] && b == [b[0]] + b[1..];
    }
  }

  /** Messages of equal length whose bits differ within one burst of 16 have different checksums. */
  lemma BurstInBytes(c: word, a: seq<byte>, b: seq<byte>, i: nat)
    requires |a| == |b| && a != b
    requires forall j: nat | j < 8 * |a| && !(i <= j < i + 16) :: Bits(a)[j] == Bits(b)[j]
    ensures Crc(c, a) != Crc(c, b)
  {
    if Bits(a) == Bits(b) { BitsKnown(a, b); }
    BitsAreBits(a);
    BitsAreBits(b);
    BurstDetected(c, Bits(a), Bits(b), i);
    CrcIsFeeds(c, a);
    CrcIsFeeds(c, b);
  }

  lemma {:induction false} BitsAppend(a: seq<byte>, b: seq<byte>)
    ensures Bits(a + b) == Bits(a) + Bits(b)
    decreases |a|
  {
    if a == [] {
      assert a + b == b;
    } else {
      assert (a + b)[1..] == a[1..] + b;
      BitsAppend(a[1..], b);
    }
  }

  lemma {:induction false} BitOfByte(bytes: seq<byte>, i: nat, k: nat)
    requires i < |bytes| && k < 8
    ensures Bits(bytes)[8 * i + k] == ByteBits(bytes[i])[k]
    decreases |bytes|
  {
    var first, rest := ByteBits(bytes[0]), Bits(bytes[1..]);
    assert Bits(bytes) == first + rest;
    if i > 0 {
      BitOfByte(bytes[1..], i - 1, k);
      SecondPart(first, rest, 8 * (i - 1) + k);
    }
  }

  lemma SecondPart(a: seq<word>, b: seq<word>, j: nat)
    requires |a| == 8 && j < |b|
    ensures (a + b)[j + 8] == b[j]
  {
  }

  // ---------------------------------------------------------------------------
  // The table-driven form
  // ---------------------------------------------------------------------------

  /** The table entry for a byte. */
  function Entry(d: byte): word {
    Update(0, d)
  }

  /** One table step: what a table-driven implementation computes for one byte. */
  function TableStep(c: word, d: byte): word {
    (c << 8) ^ Entry(((c >> 8) as byte) ^ d)
  }

  lemma ShiftLinear(y: word, a: word, b: word)
    requires y == a ^ b
    ensures Shift(y) == Shift(a) ^ Shift(b)
  {
  }

  lemma {:induction false} ShiftsLinear(y: word, a: word, b: word, n: nat)
    requires y == a ^ b
    ensures Shifts(y, n) == Shifts(a, n) ^ Shifts(b, n)
    decreases n
  {
    if n > 0 {
      ShiftLinear(y, a, b);
      ShiftsLinear(Shift(y), Shift(a), Shift(b), n - 1);
    }
  }

  lemma ShiftBelow(x: word)
    requires x & 0x8000 == 0
    ensures Shift(x) == x << 1
  {
  }

  lemma LowByteShifts(x: word)
    requires x & 0xFF00 == 0
    ensures Shifts(x, 8) == x << 8
  {
    var x1 := x << 1;
    var x2 := x1 << 1;
    var x3 := x2 << 1;
    var x4 := x3 << 1;
    var x5 := x4 << 1;
    var x6 := x5 << 1;
    var x7 := x6 << 1;
    assert x & 0x8000 == 0 && x1 & 0x8000 == 0 && x2 & 0x8000 == 0 && x3 & 0x8000 == 0;
    assert x4 & 0x8000 == 0 && x5 & 0x8000 == 0 && x6 & 0x8000 == 0 && x7 & 0x8000 == 0;
    ShiftBelow(x); ShiftBelow(x1); ShiftBelow(x2); ShiftBelow(x3);
    ShiftBelow(x4); ShiftBelow(x5); ShiftBelow(x6); ShiftBelow(x7);
    assert x7 << 1 == x << 8;
  }

  /** The byte that selects the table entry, at the top of a word. */
  function Selected(c: word, d: byte): word {
    ((((c >> 8) as byte) ^ d) as word) << 8
  }

  function LowByte(c: word): word {
    c & 0xFF
  }

  function MovedUp(c: word): word {
    c << 8
  }

  lemma SplitWord(c: word, d: byte)
    ensures Entered(c, d) == LowByte(c) ^ Selected(c, d)
  {
  }

  lemma LowByteMovesUp(c: word)
    ensures Shifts(LowByte(c), BYTE_WIDTH) == MovedUp(c)
  {
    LowByteShifts(c & 0xFF);
  }

  lemma EntryOfSelected(c: word, d: byte)
    ensures Entry(((c >> 8) as byte) ^ d) == Shifts(Selected(c, d), BYTE_WIDTH)
  {
    assert Entered(0, ((c >> 8) as byte) ^ d) == Selected(c, d);
  }

  lemma XorOfShifts(y: word, low: word, x: word, z: word, n: nat)
    requires y == low ^ x && Shifts(low, n) == z
    ensures Shifts(y, n) == z ^ Shifts(x, n)
  {
    ShiftsLinear(y, low, x, n);
  }

  lemma UpdateSplits(c: word, d: byte)
    ensures Update(c, d) == MovedUp(c) ^ Shifts(Selected(c, d), BYTE_WIDTH)
  {
    SplitWord(c, d);
    LowByteMovesUp(c);
    XorOfShifts(Entered(c, d), LowByte(c), Selected(c, d), MovedUp(c), BYTE_WIDTH);
  }

  /** The table-driven step is the bit loop. */
  lemma TableIsLoop(c: word, d: byte)
    ensures TableStep(c, d) == Update(c, d)
  {
    EntryOfSelected(c, d);
    UpdateSplits(c, d);
  }
}

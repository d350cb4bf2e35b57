/**
 What the link's checksum computes, in terms of polynomials over two-element coefficients: the
 remainder of the message under division by x^16 + x^12 + x^5 + 1.
 */
module CrcPolynomial {
  import opened Crc16
  import opened Polynomials

  // ---------------------------------------------------------------------------
  // Words as polynomials
  // ---------------------------------------------------------------------------

  predicate TopSet(w: word) {
    w & 0x8000 != 0
  }

  function Monomial(present: bool, e: nat): Poly {
    if present then {e} else {}
  }

  /** The top bit of a word, as the coefficient of x^e. */
  function Leading(w: word, e: nat): Poly {
    Monomial(TopSet(w), e)
  }

  function Up(w: word): word {
    w << 1
  }

  /** The `n` top bits of a word: the lowest of them has exponent 0. */
  function OfTop(w: word, n: nat): Poly
    decreases n
  {
    if n == 0 then {} else Sum(Leading(w, n - 1), OfTop(Up(w), n - 1))
  }

  lemma TopBitXor(a: word, b: word, y: word)
    requires y == a ^ b
    ensures TopSet(y) <==> TopSet(a) != TopSet(b)
  {
  }

  lemma MonomialXor(x: bool, y: bool, z: bool, e: nat)
    requires z <==> x != y
    ensures Monomial(z, e) == Sum(Monomial(x, e), Monomial(y, e))
  {
  }

  lemma LeadingXor(a: word, b: word, y: word, e: nat)
    requires y == a ^ b
    ensures Leading(y, e) == Sum(Leading(a, e), Leading(b, e))
  {
    TopBitXor(a, b, y);
    MonomialXor(TopSet(a), TopSet(b), TopSet(y), e);
  }

  lemma UpXor(a: word, b: word, y: word)
    requires y == a ^ b
    ensures Up(y) == Up(a) ^ Up(b)
  {
  }

  lemma StepXor(a: word, b: word, y: word, n: nat, ra: Poly, rb: Poly, ry: Poly)
    requires y == a ^ b && ry == Sum(ra, rb)
    ensures Sum(Leading(y, n), ry) == Sum(Sum(Leading(a, n), ra), Sum(Leading(b, n), rb))
  {
    LeadingXor(a, b, y, n);
    SumMixes(Leading(a, n), Leading(b, n), ra, rb);
  }

  lemma {:induction false} RestXor(a: word, b: word, y: word, n: nat)
    requires y == a ^ b
    ensures OfTop(Up(y), n) == Sum(OfTop(Up(a), n), OfTop(Up(b), n))
    decreases n, 2
  {
    UpXor(a, b, y);
    OfTopXor(Up(a), Up(b), Up(y), n);
  }

  lemma {:induction false} OfTopXor(a: word, b: word, y: word, n: nat)
    requires y == a ^ b
    ensures OfTop(y, n) == Sum(OfTop(a, n), OfTop(b, n))
    decreases n, 1
  {
    if n > 0 {
      RestXor(a, b, y, n - 1);
      StepXor(a, b, y, n - 1, OfTop(Up(a), n - 1), OfTop(Up(b), n - 1), OfTop(Up(y), n - 1));
    }
  }

  function OfWord(w: word): Poly {
    OfTop(w, 16)
  }

  /** One bit more from the word. */
  lemma {:induction false} OfTopOneMore(w: word, n: nat)
    ensures OfTop(w, n + 1) == Sum(Raised(OfTop(w, n), 1), Leading(Ups(w, n), 0))
    decreases n
  {
    if n == 0 {
      SumNothing(Leading(w, 0));
    } else {
      OfTopOneMore(Up(w), n - 1);
      OneMoreStep(w, n, OfTop(Up(w), n - 1), OfTop(Up(w), n), Leading(Ups(w, n), 0));
    }
  }

  lemma OneMoreStep(w: word, n: nat, rest: Poly, more: Poly, last: Poly)
    requires n > 0 && more == Sum(Raised(rest, 1), last)
    ensures Sum(Leading(w, n), more) == Sum(Raised(Sum(Leading(w, n - 1), rest), 1), last)
  {
    LeadingRaised(w, n - 1);
    RaisedSum(Leading(w, n - 1), rest, 1);
    SumRegroups(Leading(w, n), Raised(rest, 1), last);
  }

  function Ups(w: word, n: nat): word
    decreases n
  {
    if n == 0 then w else Ups(Up(w), n - 1)
  }

  lemma SumNothing(a: Poly)
    ensures Sum({}, a) == a == Sum(a, {}) && Raised({}, 1) == {}
  {
  }

  lemma LeadingRaised(w: word, e: nat)
    ensures Raised(Leading(w, e), 1) == Leading(w, e + 1)
  {
  }

  lemma {:induction false} OfTopOfNothing(n: nat)
    ensures OfTop(0, n) == {}
  {
    if n > 0 {
      OfTopOfNothing(n - 1);
      NothingUp(n - 1);
      SumNothing({});
    }
  }

  lemma NothingUp(e: nat)
    ensures Up(0) == 0 && Leading(0, e) == {}
  {
  }

  /** Nothing but zeros below the `n` top bits. */
  lemma {:induction false} OfTopOfZeros(w: word, n: nat, k: nat)
    requires Ups(w, n) == 0
    ensures OfTop(w, n + k) == Raised(OfTop(w, n), k)
    decreases k
  {
    if k == 0 {
      RaisedByNothing(OfTop(w, n));
    } else {
      OfTopOfZeros(w, n, k - 1);
      ZeroBit(w, n, k - 1);
      ZeroStep(OfTop(w, n), k, Raised(OfTop(w, n), k - 1));
    }
  }

  lemma ZeroBit(w: word, n: nat, k: nat)
    requires Ups(w, n) == 0
    ensures OfTop(w, n + k + 1) == Sum(Raised(OfTop(w, n + k), 1), {})
  {
    OfTopOneMore(w, n + k);
    UpsOfZero(w, n, k);
    NothingUp(0);
  }

  lemma ZeroStep(a: Poly, k: nat, before: Poly)
    requires k > 0 && before == Raised(a, k - 1)
    ensures Sum(Raised(before, 1), {}) == Raised(a, k)
  {
    RaisedTwice(a, k - 1, 1);
    SumNothing(Raised(a, k));
  }

  lemma {:induction false} UpsOfZero(w: word, n: nat, k: nat)
    requires Ups(w, n) == 0
    ensures Ups(w, n + k) == 0
    decreases n, k
  {
    if n > 0 {
      UpsOfZero(Up(w), n - 1, k);
    } else if k > 0 {
      NothingUp(0);
      UpsOfZero(0, 0, k - 1);
    }
  }

  // ---------------------------------------------------------------------------
  // The update
  // ---------------------------------------------------------------------------

  lemma UpsOfLowByte(w: word)
    requires w & 0xFF == 0
    ensures Ups(w, 8) == 0
  {
  }

  lemma {:induction false} UpsTwice(w: word, n: nat, k: nat)
    ensures Ups(w, n + k) == Ups(Ups(w, n), k)
    decreases n
  {
    if n > 0 { UpsTwice(Up(w), n - 1, k); }
  }

  lemma UpsEight(w: word)
    ensures Ups(w, 8) & 0xFF == 0
  {
  }

  lemma UpsSixteen(w: word)
    ensures Ups(w, 16) == 0
  {
    UpsEight(w);
    UpsTwice(w, 8, 8);
    UpsOfLowByte(Ups(w, 8));
  }

  /** Multiplication by x, but for the bit that comes out. */
  lemma UpIsRaised(w: word)
    ensures Raised(OfWord(w), 1) == Sum(Leading(w, 16), OfWord(Up(w)))
  {
    UpsSixteen(w);
    OfTopOneMore(w, 16);
    NothingUp(0);
    SumNothing(Raised(OfWord(w), 1));
    assert OfTop(w, 17) == Sum(Leading(w, 16), OfTop(Up(w), 16));
  }

  lemma PolynomialBits()
    ensures OfWord(0x1021) == {12, 5, 0}
  {
    assert OfTop(0x8000, 1) == {0};
    assert OfTop(0x4000, 2) == {0};
    assert OfTop(0x2000, 3) == {0};
    assert OfTop(0x1000, 4) == {0};
    assert OfTop(0x800, 5) == {0};
    assert OfTop(0x8400, 6) == {5, 0};
    assert OfTop(0x4200, 7) == {5, 0};
    assert OfTop(0x2100, 8) == {5, 0};
    assert OfTop(0x1080, 9) == {5, 0};
    assert OfTop(0x840, 10) == {5, 0};
    assert OfTop(0x420, 11) == {5, 0};
    assert OfTop(0x210, 12) == {5, 0};
    assert OfTop(0x8108, 13) == {12, 5, 0};
    assert OfTop(0x4084, 14) == {12, 5, 0};
    assert OfTop(0x2042, 15) == {12, 5, 0};
    assert OfTop(0x1021, 16) == {12, 5, 0};
  }

  lemma WithPolynomial(u: word, y: word)
    requires y == u ^ 0x1021
    ensures OfWord(y) == Sum(OfWord(u), {12, 5, 0})
  {
    OfTopXor(u, 0x1021, y, 16);
    PolynomialBits();
  }

  lemma ShiftIs(w: word)
    ensures TopSet(w) ==> Shift(w) == Up(w) ^ 0x1021
    ensures !TopSet(w) ==> Shift(w) == Up(w)
  {
    ShiftBranches(w);
  }

  /** The turn of the loop on polynomials: `a` is the word, `u` the word moved up, `r` the result. */
  lemma TurnCongruent(a: Poly, top: bool, u: Poly, r: Poly)
    requires Raised(a, 1) == Sum(Monomial(top, 16), u)
    requires r == if top then Sum(u, {12, 5, 0}) else u
    ensures Congruent(Raised(a, 1), r)
  {
    if top {
      DivisorTaken(Raised(a, 1), u, r);
    } else {
      SumNothing(u);
      CongruentSelf(u);
    }
  }

  lemma ShiftCongruent(w: word)
    ensures Congruent(Raised(OfWord(w), 1), OfWord(Shift(w)))
  {
    UpIsRaised(w);
    ShiftIs(w);
    if TopSet(w) { WithPolynomial(Up(w), Shift(w)); }
    TurnCongruent(OfWord(w), TopSet(w), OfWord(Up(w)), OfWord(Shift(w)));
  }

  lemma {:induction false} ShiftsCongruent(w: word, n: nat)
    ensures Congruent(Raised(OfWord(w), n), OfWord(Shifts(w, n)))
    decreases n
  {
    if n == 0 {
      RaisedByNothing(OfWord(w));
      CongruentSelf(OfWord(w));
    } else {
      ShiftCongruent(w);
      ShiftsCongruent(Shift(w), n - 1);
      ShiftsStep(OfWord(w), OfWord(Shift(w)), OfWord(Shifts(w, n)), n);
    }
  }

  lemma ShiftsStep(a: Poly, b: Poly, r: Poly, n: nat)
    requires n > 0 && Congruent(Raised(a, 1), b) && Congruent(Raised(b, n - 1), r)
    ensures Congruent(Raised(a, n), r)
  {
    CongruentRaised(Raised(a, 1), b, n - 1);
    RaisedTwice(a, 1, n - 1);
    CongruentChain(Raised(a, n), Raised(Raised(a, 1), n - 1), Raised(b, n - 1), r);
  }

  /** The polynomial of a byte: the number of each of its bits that are set is an exponent. */
  function OfByte(d: byte): Poly {
    OfTop((d as word) << 8, 8)
  }

  lemma AtTop(x: word)
    requires x & 0xFF == 0
    ensures OfTop(x, 16) == Raised(OfTop(x, 8), 8)
  {
    UpsOfLowByte(x);
    OfTopOfZeros(x, 8, 8);
  }

  lemma EnteredAtTop(w: word, x: word, y: word)
    requires y == w ^ x && x & 0xFF == 0
    ensures OfWord(y) == Sum(OfWord(w), Raised(OfTop(x, 8), 8))
  {
    AtTop(x);
    OfTopXor(w, x, y, 16);
  }

  lemma EnteredIs(w: word, d: byte)
    ensures OfWord(Entered(w, d)) == Sum(OfWord(w), Raised(OfByte(d), 8))
  {
    LowByteFree(d);
    EnteredAtTop(w, (d as word) << 8, Entered(w, d));
  }

  /** A byte update is multiplication by x^8, with the byte added in front. */
  lemma UpdateCongruent(w: word, d: byte)
    ensures Congruent(Sum(Raised(OfWord(w), 8), Raised(OfByte(d), 16)), OfWord(Update(w, d)))
  {
    EnteredIs(w, d);
    ShiftsCongruent(Entered(w, d), 8);
    RaisedSum(OfWord(w), Raised(OfByte(d), 8), 8);
    RaisedTwice(OfByte(d), 8, 8);
  }

  // ---------------------------------------------------------------------------
  // Messages
  // ---------------------------------------------------------------------------

  /** A message: its last bit has exponent 0. */
  function OfMessage(bytes: seq<byte>): Poly {
    if bytes == [] then {}
    else Sum(Raised(OfMessage(bytes[..|bytes| - 1]), 8), OfByte(bytes[|bytes| - 1]))
  }

  lemma CrcOneMore(c: word, bytes: seq<byte>, d: byte)
    ensures Crc(c, bytes + [d]) == Update(Crc(c, bytes), d)
  {
    CrcAppend(c, bytes, [d]);
    assert [d][1..] == [];
    assert Crc(Crc(c, bytes), [d]) == Crc(Update(Crc(c, bytes), d), []);
  }

  /** Start value `w` before `n` bits of the message `m`, and 16 zero bits behind it. */
  function Padded(w: Poly, n: nat, m: Poly): Poly {
    Sum(Raised(w, n), Raised(m, 16))
  }

  function Dividend(c: word, bytes: seq<byte>): Poly {
    Padded(OfWord(c), 8 * |bytes|, OfMessage(bytes))
  }

  lemma MessageOneMore(bytes: seq<byte>, d: byte)
    ensures OfMessage(bytes + [d]) == Sum(Raised(OfMessage(bytes), 8), OfByte(d))
  {
    assert (bytes + [d])[..|bytes|] == bytes;
  }

  /** One more byte, on the polynomials of start value, message and byte. */
  lemma PaddedOneMore(w: Poly, n: nat, m: Poly, o: Poly, k: nat, more: Poly)
    requires k == n + 8 && more == Sum(Raised(m, 8), o)
    ensures Padded(w, k, more) == Sum(Raised(Padded(w, n, m), 8), Raised(o, 16))
  {
    RaisedSum(Raised(m, 8), o, 16);
    RaisedTwice(m, 8, 16);
    RaisedTwice(m, 16, 8);
    RaisedTwice(w, n, 8);
    RaisedSum(Raised(w, n), Raised(m, 16), 8);
    SumRegroups(Raised(w, k), Raised(m, 24), Raised(o, 16));
  }

  lemma DividendOneMore(c: word, bytes: seq<byte>, d: byte)
    ensures Dividend(c, bytes + [d]) == Sum(Raised(Dividend(c, bytes), 8), Raised(OfByte(d), 16))
  {
    MessageOneMore(bytes, d);
    PaddedOneMore(OfWord(c), 8 * |bytes|, OfMessage(bytes), OfByte(d), 8 * |bytes + [d]|, OfMessage(bytes + [d]));
  }

  lemma {:induction false} CrcCongruent(c: word, bytes: seq<byte>)
    ensures Congruent(Dividend(c, bytes), OfWord(Crc(c, bytes)))
    decreases |bytes|
  {
    if bytes == [] {
      assert Dividend(c, bytes) == OfWord(c);
      CongruentSelf(OfWord(c));
    } else {
      var init, d := bytes[..|bytes| - 1], bytes[|bytes| - 1];
      assert bytes == init + [d];
      var o := Raised(OfByte(d), 16);
      CrcCongruent(c, init);
      CongruentRaised(Dividend(c, init), OfWord(Crc(c, init)), 8);
      CongruentSum(Raised(Dividend(c, init), 8), Raised(OfWord(Crc(c, init)), 8), o);
      DividendOneMore(c, init, d);
      UpdateCongruent(Crc(c, init), d);
      CrcOneMore(c, init, d);
      CongruentTrans(Dividend(c, bytes), Sum(Raised(OfWord(Crc(c, init)), 8), o), OfWord(Crc(c, bytes)));
    }
  }

  /**
   For every start value and message, the checksum is the remainder of the message, with the start value in
   front and 16 zero bits behind, under division by x^16 + x^12 + x^5 + 1.
   */
  lemma CrcIsRemainder(c: word, bytes: seq<byte>)
    ensures Remainder(Dividend(c, bytes), OfWord(Crc(c, bytes)))
  {
    CrcCongruent(c, bytes);
    OfTopBelow(Crc(c, bytes), 16);
  }

  lemma {:induction false} OfTopBelow(w: word, n: nat)
    ensures forall e | e in OfTop(w, n) :: e < n
    decreases n
  {
    if n > 0 { OfTopBelow(Up(w), n - 1); }
  }

  /** The check value of this checksum in the catalogues: that of the digits 1 to 9. */
  lemma CheckValue()
    ensures Crc(0xFFFF, [0x31, 0x32, 0x33, 0x34, 0x35, 0x36, 0x37, 0x38, 0x39]) == 0x29B1
  {
    assert Update(0xFFFF, 0x31) == 0xC782;
    assert Update(0xC782, 0x32) == 0x3DBA;
    assert Update(0x3DBA, 0x33) == 0x5BCE;
    assert Update(0x5BCE, 0x34) == 0x5349;
    assert Update(0x5349, 0x35) == 0x4560;
    assert Update(0x4560, 0x36) == 0x2EF4;
    assert Update(0x2EF4, 0x37) == 0x7718;
    assert Update(0x7718, 0x38) == 0xA12B;
    assert Update(0xA12B, 0x39) == 0x29B1;
  }
}

/**
 The line assembler of the main loop: it filters characters one at a time into a fixed line
 buffer. Its specification works in stages on whole lines: split, strip comments, drop blanks
 and block deletes, upcase, and refuse what does not fit.
 */
module LineAssembler {

  import LlpFrame

  type byte = LlpFrame.byte

  const LINE_BUFFER_SIZE := 48
  const NEWLINE: byte := 10
  const RETURN: byte := 13
  const BLANK: byte := ' ' as int
  const SLASH: byte := '/' as int
  const OPEN: byte := '(' as int
  const CLOSE: byte := ')' as int
  const SEMICOLON: byte := ';' as int

  predicate EndOfLine(c: byte) {
    c == NEWLINE || c == RETURN
  }

  function Upcase(c: byte): byte {
    if 'a' as int <= c <= 'z' as int then c - 'a' as int + 'A' as int else c
  }

  // ---------------------------------------------------------------------------
  // In stages, on whole lines
  // ---------------------------------------------------------------------------

  /** Everything outside comments. `inside` says that the text begins inside a parenthesised comment. */
  function Stripped(x: seq<byte>, inside: bool): seq<byte>
    decreases |x|
  {
    if x == [] then []
    else if inside then Stripped(x[1..], x[0] != CLOSE)
    else if x[0] == SEMICOLON then []
    else if x[0] == OPEN then Stripped(x[1..], true)
    else [x[0]] + Stripped(x[1..], false)
  }

  /** Without white space, control characters and block deletes. */
  function Squeezed(x: seq<byte>): seq<byte>
    decreases |x|
  {
    if x == [] then []
    else (if x[0] <= BLANK || x[0] == SLASH then [] else [x[0]]) + Squeezed(x[1..])
  }

  function Upcased(x: seq<byte>): (r: seq<byte>)
    ensures |r| == |x| && forall i | 0 <= i < |r| :: r[i] == Upcase(x[i])
  {
    seq(|x|, i requires 0 <= i < |x| => Upcase(x[i]))
  }

  function Clean(x: seq<byte>, inside: bool): seq<byte> {
    Upcased(Squeezed(Stripped(x, inside)))
  }

  datatype Result = Line(text: seq<byte>) | Overflow

  /** What a line of input is turned into. */
  function Filtered(x: seq<byte>): Result {
    var text := Clean(x, false);
    if |text| < LINE_BUFFER_SIZE then Line(text) else Overflow
  }

  /** The results of all complete lines of a stream. */
  function AllFiltered(x: seq<byte>, begun: seq<byte>): seq<Result>
    decreases |x|
  {
    if x == [] then []
    else if EndOfLine(x[0]) then [Filtered(begun)] + AllFiltered(x[1..], [])
    else AllFiltered(x[1..], begun + [x[0]])
  }

  // ---------------------------------------------------------------------------
  // What the stages do, in plain numbers
  // ---------------------------------------------------------------------------

  /** Small letters become capitals, in order, and nothing else changes. */
  lemma UpcaseInNumbers(c: byte)
    ensures 0x61 <= c < 0x61 + 26 ==> Upcase(c) == 0x41 + (c - 0x61)
    ensures !(0x61 <= c < 0x61 + 26) ==> Upcase(c) == c
  {
  }

  lemma {:induction false} StrippedPlain(a: seq<byte>, b: seq<byte>)
    requires 0x28 !in a && 0x3B !in a
    ensures Stripped(a + b, false) == a + Stripped(b, false)
    decreases |a|
  {
    if a == [] {
      assert a + b == b;
    } else {
      assert (a + b)[1..] == a[1..] + b;
      StrippedPlain(a[1..], b);
    }
  }

  lemma {:induction false} StrippedComment(comment: seq<byte>, b: seq<byte>)
    requires 0x29 !in comment
    ensures Stripped(comment + [0x29] + b, true) == Stripped(b, false)
    ensures Stripped(comment, true) == []
    decreases |comment|
  {
    if comment == [] {
      assert ([0x29] + b)[1..] == b;
      assert comment + [0x29] + b == [0x29] + b;
    } else {
      assert (comment + [0x29] + b)[1..] == comment[1..] + [0x29] + b;
      StrippedComment(comment[1..], b);
    }
  }

  lemma {:induction false} SqueezedBoth(a: seq<byte>, b: seq<byte>)
    ensures Squeezed(a + b) == Squeezed(a) + Squeezed(b)
    decreases |a|
  {
    if a == [] {
      assert a + b == b;
    } else {
      assert (a + b)[1..] == a[1..] + b;
      SqueezedBoth(a[1..], b);
    }
  }

  lemma CleanBoth(a: seq<byte>, b: seq<byte>)
    requires 0x28 !in a && 0x3B !in a
    ensures Clean(a + b, false) == Clean(a, false) + Clean(b, false)
  {
    StrippedPlain(a, b);
    StrippedPlain(a, []);
    assert a + [] == a;
    SqueezedBoth(a, Stripped(b, false));
    var x, y := Squeezed(a), Squeezed(Stripped(b, false));
    assert Upcased(x + y) == Upcased(x) + Upcased(y);
  }

  lemma CleanOfOne(c: byte)
    requires c != 0x28 && c != 0x3B
    ensures Clean([c], false) == if c <= 0x20 || c == 0x2F then [] else [Upcase(c)]
  {
    CleanOne(c, []);
    assert [c] + [] == [c] && Clean([], false) == [];
    var text := if c <= BLANK || c == SLASH then [] else [Upcase(c)];
    assert text + [] == text;
  }

  lemma CleanComments(comment: seq<byte>, b: seq<byte>)
    requires 0x29 !in comment
    ensures Clean([0x28] + comment + [0x29] + b, false) == Clean(b, false)
    ensures Clean([0x28] + comment, false) == [] == Clean([0x3B] + b, false)
  {
    StrippedComment(comment, b);
    assert ([0x28] + comment + [0x29] + b)[1..] == comment + [0x29] + b && ([0x28] + comment)[1..] == comment;
  }

  /**
   What becomes of the text of a line: it is filtered part by part, up to a parenthesis or a semicolon. A
   comment in parentheses vanishes, and so does everything from an open parenthesis or a semicolon on if
   nothing closes it. Of single characters, blanks, control characters and slashes vanish, and small letters
   become capitals.
   */
  lemma CleanInNumbers(a: seq<byte>, b: seq<byte>, comment: seq<byte>, c: byte)
    requires 0x28 !in a && 0x3B !in a && 0x29 !in comment
    ensures Clean(a + b, false) == Clean(a, false) + Clean(b, false)
    ensures Clean([0x28] + comment + [0x29] + b, false) == Clean(b, false)
    ensures Clean([0x28] + comment, false) == [] == Clean([0x3B] + b, false)
    ensures c != 0x28 && c != 0x3B ==>
              Clean([c], false) == if c <= 0x20 || c == 0x2F then []
                                   else if 0x61 <= c < 0x61 + 26 then [0x41 + (c - 0x61)] else [c]
  {
    CleanBoth(a, b);
    CleanComments(comment, b);
    if c != 0x28 && c != 0x3B {
      CleanOfOne(c);
      UpcaseInNumbers(c);
    }
  }

  lemma {:induction false} NoMoreThanText(x: seq<byte>, c: byte)
    ensures c in Squeezed(x) ==> c > 0x20 && c != 0x2F
    ensures c in Stripped(x, false) ==> c != 0x28 && c != 0x3B
    decreases |x|
  {
    if x != [] {
      NoMoreThanText(x[1..], c);
      StrippedFrom(x[1..], true, c);
    }
  }

  lemma {:induction false} StrippedFrom(x: seq<byte>, inside: bool, c: byte)
    ensures c in Stripped(x, inside) ==> c != 0x28 && c != 0x3B
    decreases |x|
  {
    if x != [] {
      StrippedFrom(x[1..], true, c);
      StrippedFrom(x[1..], false, c);
    }
  }

  lemma {:induction false} SqueezedFrom(x: seq<byte>, c: byte)
    ensures c in Squeezed(x) ==> c in x
    decreases |x|
  {
    if x != [] { SqueezedFrom(x[1..], c); }
  }

  /** A line overflows exactly when more than 47 characters are left of it. */
  lemma OverflowsExactly(x: seq<byte>)
    ensures Filtered(x) == if |Clean(x, false)| <= 47 then Line(Clean(x, false)) else Overflow
  {
  }

  /** A finished line has at most 47 characters, no blank, comment or slash and no small letter among them. */
  lemma FinishedLine(x: seq<byte>, c: byte)
    requires Filtered(x).Line? && c in Filtered(x).text
    ensures |Filtered(x).text| <= 47
    ensures c > 0x20 && c !in {0x28, 0x2F, 0x3B} && !(0x61 <= c < 0x61 + 26)
  {
    var text := Squeezed(Stripped(x, false));
    var i :| 0 <= i < |text| && Upcase(text[i]) == c;
    NoMoreThanText(Stripped(x, false), text[i]);
    SqueezedFrom(Stripped(x, false), text[i]);
    StrippedFrom(x, false, text[i]);
    UpcaseInNumbers(text[i]);
  }

  /** Lines end at 10 and at 13. */
  lemma {:induction false} LinesInNumbers(begun: seq<byte>, line: seq<byte>, end: byte, rest: seq<byte>)
    requires 10 !in line && 13 !in line && end in {10, 13}
    ensures AllFiltered(line + [end] + rest, begun) == [Filtered(begun + line)] + AllFiltered(rest, [])
    decreases |line|
  {
    if line == [] {
      assert line + [end] + rest == [end] + rest && ([end] + rest)[1..] == rest && begun + line == begun;
    } else {
      assert (line + [end] + rest)[1..] == line[1..] + [end] + rest;
      assert (begun + [line[0]]) + line[1..] == begun + line;
      LinesInNumbers(begun + [line[0]], line[1..], end, rest);
    }
  }

  // ---------------------------------------------------------------------------
  // One character at a time
  // ---------------------------------------------------------------------------

  /** line_flags. */
  datatype Mode = Plain | InParentheses | AfterSemicolon | Overflowed

  datatype Buffer = Buffer(line: seq<byte>, mode: Mode)

  const Fresh := Buffer([], Plain)

  /** A character that does not end the line. */
  function Take(b: Buffer, c: byte): Buffer {
    if b.mode != Plain then
      if c == CLOSE && b.mode == InParentheses then b.(mode := Plain) else b
    else if c <= BLANK || c == SLASH then b
    else if c == OPEN then b.(mode := InParentheses)
    else if c == SEMICOLON then b.(mode := AfterSemicolon)
    else if |b.line| >= LINE_BUFFER_SIZE - 1 then b.(mode := Overflowed)
    else b.(line := b.line + [Upcase(c)])
  }

  function Finish(b: Buffer): Result {
    if b.mode == Overflowed then Overflow else Line(b.line)
  }

  /** The text that a buffer makes of the rest of its line. */
  function Rest(b: Buffer, x: seq<byte>): seq<byte> {
    if b.mode == AfterSemicolon then [] else Clean(x, b.mode == InParentheses)
  }

  /** `b` will finish as the staged filter of the whole line says, where `x` is the rest of it. */
  ghost predicate Foretells(b: Buffer, x: seq<byte>, r: Result) {
    r == if b.mode == Overflowed || |b.line| + |Rest(b, x)| >= LINE_BUFFER_SIZE then Overflow
         else Line(b.line + Rest(b, x))
  }

  lemma UpcasedOne(c: byte, x: seq<byte>)
    ensures Upcased([c] + x) == [Upcase(c)] + Upcased(x)
  {
  }

  lemma SqueezedOne(c: byte, x: seq<byte>)
    ensures Squeezed([c] + x) == (if c <= BLANK || c == SLASH then [] else [c]) + Squeezed(x)
  {
    assert ([c] + x)[1..] == x;
  }

  /** One character of clean text. */
  lemma CleanOne(c: byte, x: seq<byte>)
    requires c != OPEN && c != SEMICOLON
    ensures Clean([c] + x, false) == (if c <= BLANK || c == SLASH then [] else [Upcase(c)]) + Clean(x, false)
  {
    assert ([c] + x)[1..] == x;
    SqueezedOne(c, Stripped(x, false));
    UpcasedOne(c, Squeezed(Stripped(x, false)));
    assert [] + Squeezed(Stripped(x, false)) == Squeezed(Stripped(x, false));
  }

  lemma CleanComment(c: byte, x: seq<byte>)
    ensures Clean([c] + x, true) == Clean(x, c != CLOSE)
    ensures c == OPEN ==> Clean([c] + x, false) == Clean(x, true)
    ensures c == SEMICOLON ==> Clean([c] + x, false) == []
  {
    assert ([c] + x)[1..] == x;
  }

  lemma Regrouped(line: seq<byte>, c: byte, rest: seq<byte>)
    ensures line + ([c] + rest) == (line + [c]) + rest
  {
  }

  lemma TextForetells(b: Buffer, c: byte, x: seq<byte>, r: Result)
    requires |b.line| < LINE_BUFFER_SIZE && b.mode == Plain && c != OPEN && c != SEMICOLON && Foretells(b, [c] + x, r)
    ensures Foretells(Take(b, c), x, r)
  {
    CleanOne(c, x);
    if c <= BLANK || c == SLASH {
      assert [] + Clean(x, false) == Clean(x, false);
    } else {
      Regrouped(b.line, Upcase(c), Clean(x, false));
    }
  }

  /** Taking a character leaves what the buffer foretells unchanged. */
  lemma TakeForetells(b: Buffer, c: byte, x: seq<byte>, r: Result)
    requires |b.line| < LINE_BUFFER_SIZE && Foretells(b, [c] + x, r)
    ensures |Take(b, c).line| < LINE_BUFFER_SIZE && Foretells(Take(b, c), x, r)
  {
    if b.mode == Plain && c != OPEN && c != SEMICOLON {
      TextForetells(b, c, x, r);
    } else {
      CleanComment(c, x);
    }
  }

  function TakeAll(b: Buffer, x: seq<byte>): Buffer
    decreases |x|
  {
    if x == [] then b else TakeAll(Take(b, x[0]), x[1..])
  }

  lemma {:induction false} TakeAllForetells(b: Buffer, x: seq<byte>, r: Result)
    requires |b.line| < LINE_BUFFER_SIZE && Foretells(b, x, r)
    ensures Finish(TakeAll(b, x)) == r
    decreases |x|
  {
    if x == [] {
      assert Rest(b, x) == [] && b.line + [] == b.line;
    } else {
      assert x == [x[0]] + x[1..];
      TakeForetells(b, x[0], x[1..], r);
      TakeAllForetells(Take(b, x[0]), x[1..], r);
    }
  }

  /** The one-pass assembler computes the staged filter. */
  lemma AssembledIsFiltered(x: seq<byte>)
    ensures Finish(TakeAll(Fresh, x)) == Filtered(x)
  {
    assert [] + Clean(x, false) == Clean(x, false);
    TakeAllForetells(Fresh, x, Filtered(x));
  }

  lemma {:induction false} TakeAllOne(b: Buffer, x: seq<byte>, c: byte)
    ensures TakeAll(b, x + [c]) == Take(TakeAll(b, x), c)
    decreases |x|
  {
    if x == [] {
      assert ([] + [c])[1..] == [];
    } else {
      assert (x + [c])[1..] == x[1..] + [c];
      TakeAllOne(Take(b, x[0]), x[1..], c);
    }
  }

  lemma {:induction false} TakeAllFits(b: Buffer, x: seq<byte>)
    requires |b.line| < LINE_BUFFER_SIZE
    ensures |TakeAll(b, x).line| < LINE_BUFFER_SIZE
    decreases |x|
  {
    if x != [] { TakeAllFits(Take(b, x[0]), x[1..]); }
  }

  // ---------------------------------------------------------------------------
  // The line buffer in place
  // ---------------------------------------------------------------------------

  class Assembler {
    const line: array<byte>
    var charCounter: nat
    var mode: Mode

    constructor ()
      ensures Valid() && View() == Fresh && fresh(line)
    {
      line := new byte[LINE_BUFFER_SIZE](_ => 0);
      charCounter, mode := 0, Plain;
    }

    ghost predicate Valid()
      reads this
    {
      line.Length == LINE_BUFFER_SIZE && charCounter < LINE_BUFFER_SIZE
    }

    ghost function View(): Buffer
      reads this, line
      requires Valid()
    {
      Buffer(line[..charCounter], mode)
    }

    /** A character that does not end the line. */
    method TakeChar(c: byte)
      requires Valid()
      modifies this, line
      ensures Valid() && View() == Take(old(View()), c)
    {
      if mode != Plain {
        if c == CLOSE {
          if mode == InParentheses { mode := Plain; }
        }
      } else if c <= BLANK {
      } else if c == SLASH {
      } else if c == OPEN {
        mode := InParentheses;
      } else if c == SEMICOLON {
        mode := AfterSemicolon;
      } else if charCounter >= LINE_BUFFER_SIZE - 1 {
        mode := Overflowed;
      } else {
        line[charCounter] := Upcase(c);
        charCounter := charCounter + 1;
        assert line[..charCounter] == old(line[..charCounter]) + [Upcase(c)];
      }
    }

    /** The end of a line: its result, and a fresh buffer. The text is terminated in the buffer. */
    method EndLine() returns (r: Result)
      requires Valid()
      modifies this, line
      ensures Valid() && View() == Fresh && r == Finish(old(View()))
      ensures r.Line? ==> |r.text| < line.Length && line[..|r.text|] == r.text && line[|r.text|] == 0
    {
      line[charCounter] := 0;
      r := if mode == Overflowed then Overflow else Line(line[..charCounter]);
      charCounter, mode := 0, Plain;
    }

    /** The reading loop of protocol_main_loop, over everything there is to read. */
    method ReadAll(input: seq<byte>, ghost begun: seq<byte>) returns (results: seq<Result>)
      requires Valid() && View() == TakeAll(Fresh, begun)
      modifies this, line
      ensures Valid() && results == AllFiltered(input, begun)
    {
      results := [];
      ghost var current := begun;
      for i := 0 to |input|
        invariant Valid() && View() == TakeAll(Fresh, current)
        invariant AllFiltered(input, begun) == results + AllFiltered(input[i..], current)
      {
        var c := input[i];
        assert input[i..][1..] == input[i + 1..];
        if EndOfLine(c) {
          AssembledIsFiltered(current);
          var r := EndLine();
          assert results + ([r] + AllFiltered(input[i + 1..], [])) == (results + [r]) + AllFiltered(input[i + 1..], []);
          results := results + [r];
          current := [];
        } else {
          TakeAllOne(Fresh, current, c);
          TakeChar(c);
          current := current + [c];
        }
      }
    }
  }
}

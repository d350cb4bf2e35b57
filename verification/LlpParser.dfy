/**
 The incremental frame parser of the firmware, as a function on its state, and what it accepts:
 exactly the frames that the builder makes, with bounded loss after anything else.
 */
module LlpParser {
  import opened LlpFrame

  const FRAME_TIMEOUT_MS := 2000

  const WAIT_MAGIC1 := 0
  const WAIT_MAGIC2 := 1
  const READ_LEN_L := 2
  const READ_LEN_H := 3
  const READ_PAYLOAD := 4
  const READ_CRC_L := 5
  const READ_CRC_H := 6

  type Phase = n: int | WAIT_MAGIC1 <= n <= READ_CRC_H

  /** llp_parser_t; `buffer` and `len` are the frame. */
  datatype State = State(
    state: Phase,
    escapePending: bool,
    buffer: seq<byte>,
    len: word,
    idx: nat,
    crcReceived: word,
    crc: word,
    lastByteTime: word)

  /** llp_parser_init, on a frame buffer with any contents. */
  function Init(buffer: seq<byte>): State {
    State(WAIT_MAGIC1, false, buffer, 0, 0, 0, CRC_INITIAL, 0)
  }

  /** _llp_parser_reset. */
  function Reset(s: State): State {
    s.(state := WAIT_MAGIC1, escapePending := false, idx := 0, crc := CRC_INITIAL)
  }

  /** The magic has just been seen. */
  function Begin(f: Checksum, s: State): State {
    s.(state := READ_LEN_L, crc := f(f(CRC_INITIAL, MAGIC_1), MAGIC_2))
  }

  predicate TimedOut(s: State, now: nat) {
    s.state != WAIT_MAGIC1 && (now - s.lastByteTime) % 0x1_0000 > FRAME_TIMEOUT_MS
  }

  function Stored(buffer: seq<byte>, idx: nat, b: byte): (r: seq<byte>)
    ensures |r| == |buffer|
  {
    if idx < |buffer| then buffer[idx := b] else buffer
  }

  /** The main switch, for a byte outside a frame or an unstuffed byte inside one. */
  function Dispatch(f: Checksum, s: State, b: byte): (State, int) {
    if s.state == WAIT_MAGIC1 then (if b == MAGIC_1 then s.(state := WAIT_MAGIC2) else s, 0)
    else if s.state == WAIT_MAGIC2 then
      (if b == MAGIC_2 then Begin(f, s)
       else if b == MAGIC_1 then s
       else s.(state := WAIT_MAGIC1), 0)
    else if s.state == READ_LEN_L then (s.(len := b, crc := f(s.crc, b), state := READ_LEN_H), 0)
    else if s.state == READ_LEN_H then
      var t := s.(len := Joined(s.len % 0x100, b), crc := f(s.crc, b));
      if t.len > |t.buffer| then (Reset(t), -1)
      else (t.(idx := 0, state := if t.len == 0 then READ_CRC_L else READ_PAYLOAD), 0)
    else if s.state == READ_PAYLOAD then
      (s.(buffer := Stored(s.buffer, s.idx, b), idx := s.idx + 1, crc := f(s.crc, b),
          state := if s.idx + 1 == s.len then READ_CRC_L else READ_PAYLOAD), 0)
    else if s.state == READ_CRC_L then (s.(crcReceived := b, state := READ_CRC_H), 0)
    else
      var t := s.(crcReceived := Joined(s.crcReceived % 0x100, b));
      if t.crcReceived != t.crc then (Reset(t), -1) else (Reset(t), 1)
  }

  /** llp_parser_process_byte. */
  function Step(f: Checksum, s: State, b: byte, now: nat): (State, int) {
    if TimedOut(s, now) then
      (Reset(s).(lastByteTime := now % 0x1_0000, state := if b == MAGIC_1 then WAIT_MAGIC2 else WAIT_MAGIC1), -1)
    else
      var t := s.(lastByteTime := now % 0x1_0000);
      if t.state == WAIT_MAGIC1 || t.state == WAIT_MAGIC2 then Dispatch(f, t, b)
      else if t.escapePending then
        var u := t.(escapePending := false);
        if b == MAGIC_2 then (Begin(f, u).(idx := 0), -1)
        else if b == ESCAPE then Dispatch(f, u, MAGIC_1)
        else (Reset(u), -1)
      else if b == MAGIC_1 then (t.(escapePending := true), 0)
      else Dispatch(f, t, b)
  }

  // ---------------------------------------------------------------------------
  // What the parser knows about the bytes so far
  // ---------------------------------------------------------------------------

  function Prefix(s: seq<byte>, n: nat): seq<byte> {
    if n <= |s| then s[..n] else s
  }

  /** The unstuffed bytes of the current frame after its magic. */
  function Read(s: State): seq<byte> {
    if s.state == READ_LEN_H then [s.len % 0x100]
    else if s.state == READ_PAYLOAD then TwoBytes(s.len) + Prefix(s.buffer, s.idx)
    else if s.state == READ_CRC_L then TwoBytes(s.len) + Prefix(s.buffer, s.len)
    else if s.state == READ_CRC_H then TwoBytes(s.len) + Prefix(s.buffer, s.len) + [s.crcReceived % 0x100]
    else []
  }

  ghost predicate Valid(s: State) {
    && (s.escapePending ==> s.state >= READ_LEN_L)
    && s.idx <= |s.buffer| < 0x1_0000
    && (s.state == READ_LEN_H ==> s.len < 0x100)
    && (s.state >= READ_PAYLOAD ==> s.len <= |s.buffer|)
    && (s.state == READ_PAYLOAD ==> s.idx < s.len)
    && (s.state == READ_CRC_H ==> s.crcReceived < 0x100)
  }

  ghost predicate Ends(h: seq<byte>, x: seq<byte>) {
    |h| >= |x| && h[|h| - |x|..] == x
  }

  /** The raw bytes that the parser has consumed of the current frame. */
  ghost function Consumed(s: State): seq<byte> {
    if s.state == WAIT_MAGIC1 then []
    else if s.state == WAIT_MAGIC2 then [MAGIC_1]
    else Magic() + Stuff(Read(s)) + (if s.escapePending then [MAGIC_1] else [])
  }

  /** The part of the read bytes that the checksum covers. */
  function Covered(s: State): seq<byte> {
    if s.state == READ_CRC_H then TwoBytes(s.len) + Prefix(s.buffer, s.len) else Read(s)
  }

  ghost predicate Summed(f: Checksum, s: State) {
    s.state >= READ_LEN_L ==> s.crc == Check(f, Magic() + Covered(s))
  }

  /** The stream `h` ends in what the parser has consumed, and the checksum covers it. */
  ghost predicate Pending(f: Checksum, s: State, h: seq<byte>) {
    Valid(s) && Ends(h, Consumed(s)) && Summed(f, s)
  }

  /** The parser's state and return code after the stream `h`. */
  ghost predicate Delivers(f: Checksum, r: (State, int), h: seq<byte>) {
    && Pending(f, r.0, h)
    && (r.1 == 1 ==> r.0.len <= |r.0.buffer| && Ends(h, Frame(f, r.0.buffer[..r.0.len])))
  }

  lemma EndsGrow(h: seq<byte>, x: seq<byte>, b: byte)
    requires Ends(h, x)
    ensures Ends(h + [b], x + [b])
  {
  }

  lemma EndsShrink(h: seq<byte>, x: seq<byte>, y: seq<byte>)
    requires Ends(h, x + y)
    ensures Ends(h, y)
  {
    assert h[|h| - |y|..] == (x + y)[|x|..];
  }

  // ---------------------------------------------------------------------------
  // Soundness: an accepted frame is in the stream
  // ---------------------------------------------------------------------------

  lemma BeginPends(f: Checksum, s: State, h: seq<byte>)
    requires Valid(s) && !s.escapePending && Ends(h, Magic())
    ensures Pending(f, Begin(f, s), h)
  {
    assert Magic() + [] == Magic() == [MAGIC_1] + [MAGIC_2];
    assert Check(f, []) == CRC_INITIAL;
    CheckOne(f, [], MAGIC_1);
    CheckOne(f, [MAGIC_1], MAGIC_2);
  }

  /** Inside a frame, an unstuffed byte that does not end the frame is one more byte read. */
  lemma ReadGrows(f: Checksum, s: State, b: byte)
    requires Valid(s) && READ_LEN_L <= s.state <= READ_CRC_L && !s.escapePending
    ensures var (t, r) := Dispatch(f, s, b);
            && Valid(t) && r != 1 && !t.escapePending
            && (t.state == WAIT_MAGIC1 || (t.state >= s.state && Read(t) == Read(s) + [b]))
  {
    var t := Dispatch(f, s, b).0;
    if s.state == READ_LEN_H {
      TwoBytesKnown(s.len, b);
      if t.state >= READ_LEN_L { assert Read(t) == TwoBytes(t.len) + []; }
    } else if s.state == READ_PAYLOAD {
      assert t.buffer[..s.idx + 1] == s.buffer[..s.idx] + [b];
    }
  }

  lemma SumGrows(f: Checksum, s: State, b: byte)
    requires Valid(s) && Summed(f, s) && READ_LEN_L <= s.state <= READ_CRC_L && !s.escapePending
    ensures Valid(Dispatch(f, s, b).0) && Summed(f, Dispatch(f, s, b).0)
  {
    var t := Dispatch(f, s, b).0;
    ReadGrows(f, s, b);
    if t.state >= READ_LEN_L && s.state < READ_CRC_L {
      CheckOne(f, Magic() + Read(s), b);
      assert (Magic() + Read(s)) + [b] == Magic() + Read(t);
    }
  }

  lemma EndsAppend(h: seq<byte>, x: seq<byte>, y: seq<byte>)
    requires Ends(h, x)
    ensures Ends(h + y, x + y)
  {
    var n := |h| - |x|;
    assert (h + y)[n..] == h[n..] + y;
  }

  /** One more unstuffed byte of a frame. */
  lemma FrameGrows(h: seq<byte>, r: seq<byte>, b: byte)
    requires Ends(h, Magic() + Stuff(r))
    ensures Ends(h + Stuffed(b), Magic() + Stuff(r + [b]))
  {
    StuffOne(r, b);
    EndsAppend(h, Magic() + Stuff(r), Stuffed(b));
    assert Magic() + Stuff(r + [b]) == (Magic() + Stuff(r)) + Stuffed(b);
  }

  lemma PlainConsumed(s: State)
    requires s.state >= READ_LEN_L && !s.escapePending
    ensures Consumed(s) == Magic() + Stuff(Read(s))
  {
  }

  lemma GrowsPending(f: Checksum, s: State, h: seq<byte>, b: byte)
    requires Pending(f, s, h) && READ_LEN_L <= s.state <= READ_CRC_L && !s.escapePending
    ensures Pending(f, Dispatch(f, s, b).0, h + Stuffed(b))
  {
    var t := Dispatch(f, s, b).0;
    ReadGrows(f, s, b);
    SumGrows(f, s, b);
    PlainConsumed(s);
    if t.state >= READ_LEN_L {
      PlainConsumed(t);
      FrameGrows(h, Read(s), b);
    }
  }

  lemma LastByte(a: seq<byte>, lo: byte, b: byte)
    ensures a + [lo, b] == (a + [lo]) + [b]
  {
  }

  /** A matching checksum completes the body of the payload's frame. */
  lemma BodyCompletes(f: Checksum, s: State, b: byte)
    requires Valid(s) && Summed(f, s) && s.state == READ_CRC_H && Joined(s.crcReceived, b) == s.crc
    ensures Body(f, s.buffer[..s.len]) == Read(s) + [b]
  {
    var p := s.buffer[..s.len];
    TwoBytesKnown(s.crcReceived, b);
    assert Magic() + Covered(s) == Content(p);
    LastByte(TwoBytes(s.len) + p, s.crcReceived, b);
  }

  lemma Accepts(f: Checksum, s: State, h: seq<byte>, b: byte)
    requires Pending(f, s, h) && s.state == READ_CRC_H && !s.escapePending
    ensures Delivers(f, Dispatch(f, s, b), h + Stuffed(b))
  {
    var (t, r) := Dispatch(f, s, b);
    if r == 1 {
      assert Joined(s.crcReceived, b) == s.crc;
      BodyCompletes(f, s, b);
      PlainConsumed(s);
      FrameGrows(h, Read(s), b);
    }
  }

  lemma EndsBack(h: seq<byte>, x: seq<byte>, b: byte)
    requires Ends(h, x + [b])
    ensures |h| > 0 && h[|h| - 1] == b && Ends(h[..|h| - 1], x)
  {
    var n := |h| - |x| - 1;
    assert h[n..] == x + [b];
    assert h[..|h| - 1][n..] == x;
    assert h[|h| - 1] == h[n..][|x|];
  }

  lemma UnescapePends(f: Checksum, s: State, h: seq<byte>)
    requires Pending(f, s, h) && s.escapePending
    ensures |h| > 0 && h[|h| - 1] == MAGIC_1
    ensures Pending(f, s.(escapePending := false), h[..|h| - 1])
  {
    var x := Magic() + Stuff(Read(s));
    assert Consumed(s) == x + [MAGIC_1];
    EndsBack(h, x, MAGIC_1);
    PlainConsumed(s.(escapePending := false));
  }

  lemma EscapeIsStuffed(h: seq<byte>)
    requires |h| > 0 && h[|h| - 1] == MAGIC_1
    ensures h[..|h| - 1] + Stuffed(MAGIC_1) == h + [ESCAPE]
  {
  }

  lemma DispatchPends(f: Checksum, s: State, h: seq<byte>, b: byte)
    requires Pending(f, s, h) && s.state >= READ_LEN_L && !s.escapePending
    ensures Delivers(f, Dispatch(f, s, b), h + Stuffed(b))
  {
    if s.state == READ_CRC_H {
      Accepts(f, s, h, b);
    } else {
      GrowsPending(f, s, h, b);
      ReadGrows(f, s, b);
    }
  }

  lemma SearchPends(f: Checksum, s: State, h: seq<byte>, b: byte)
    requires Pending(f, s, h) && s.state < READ_LEN_L
    ensures var (t, r) := Dispatch(f, s, b);
            Pending(f, t, h + [b]) && r == 0
  {
    if s.state == WAIT_MAGIC2 && b == MAGIC_2 {
      EndsGrow(h, [MAGIC_1], b);
      assert [MAGIC_1] + [b] == Magic();
      BeginPends(f, s, h + [b]);
    }
  }

  /** An unexpected magic inside a frame begins a new one. */
  lemma ResyncPends(f: Checksum, s: State, h: seq<byte>)
    requires Pending(f, s, h) && s.escapePending
    ensures Pending(f, Begin(f, s.(escapePending := false)).(idx := 0), h + [MAGIC_2])
  {
    var x := Magic() + Stuff(Read(s));
    assert Consumed(s) + [MAGIC_2] == x + Magic();
    EndsGrow(h, Consumed(s), MAGIC_2);
    EndsShrink(h + [MAGIC_2], x, Magic());
    BeginPends(f, s.(escapePending := false, idx := 0), h + [MAGIC_2]);
  }

  lemma UnstuffPends(f: Checksum, s: State, h: seq<byte>)
    requires Pending(f, s, h) && s.escapePending
    ensures Delivers(f, Dispatch(f, s.(escapePending := false), MAGIC_1), h + [ESCAPE])
  {
    UnescapePends(f, s, h);
    DispatchPends(f, s.(escapePending := false), h[..|h| - 1], MAGIC_1);
    EscapeIsStuffed(h);
  }

  lemma EscapedPends(f: Checksum, s: State, h: seq<byte>, b: byte, now: nat)
    requires Pending(f, s, h) && s.escapePending && !TimedOut(s, now)
    ensures Delivers(f, Step(f, s, b, now), h + [b])
  {
    var u := s.(lastByteTime := now % 0x1_0000);
    assert Pending(f, u, h);
    if b == MAGIC_2 {
      ResyncPends(f, u, h);
    } else if b == ESCAPE {
      UnstuffPends(f, u, h);
    }
  }

  lemma TimeoutPends(f: Checksum, s: State, h: seq<byte>, b: byte, now: nat)
    requires Pending(f, s, h) && TimedOut(s, now)
    ensures Delivers(f, Step(f, s, b, now), h + [b])
  {
  }

  lemma SearchStepPends(f: Checksum, s: State, h: seq<byte>, b: byte, now: nat)
    requires Pending(f, s, h) && s.state < READ_LEN_L && !TimedOut(s, now)
    ensures Delivers(f, Step(f, s, b, now), h + [b])
  {
    var u := s.(lastByteTime := now % 0x1_0000);
    assert Pending(f, u, h);
    SearchPends(f, u, h, b);
  }

  lemma EscapePends(f: Checksum, s: State, h: seq<byte>)
    requires Pending(f, s, h) && s.state >= READ_LEN_L && !s.escapePending
    ensures Pending(f, s.(escapePending := true), h + [MAGIC_1])
  {
    PlainConsumed(s);
    EndsGrow(h, Consumed(s), MAGIC_1);
  }

  lemma PlainPends(f: Checksum, s: State, h: seq<byte>, b: byte, now: nat)
    requires Pending(f, s, h) && s.state >= READ_LEN_L && !s.escapePending && !TimedOut(s, now)
    ensures Delivers(f, Step(f, s, b, now), h + [b])
  {
    var u := s.(lastByteTime := now % 0x1_0000);
    assert Pending(f, u, h);
    if b == MAGIC_1 {
      EscapePends(f, u, h);
    } else {
      DispatchPends(f, u, h, b);
      assert Step(f, s, b, now) == Dispatch(f, u, b);
    }
  }

  /**
   One byte, at any time: the parser keeps track of what it has consumed, and if it accepts,
   the stream ends in the frame of the payload that it delivers.
   */
  lemma StepPends(f: Checksum, s: State, h: seq<byte>, b: byte, now: nat)
    requires Pending(f, s, h)
    ensures Delivers(f, Step(f, s, b, now), h + [b])
  {
    if TimedOut(s, now) {
      TimeoutPends(f, s, h, b, now);
    } else if s.state < READ_LEN_L {
      SearchStepPends(f, s, h, b, now);
    } else if s.escapePending {
      EscapedPends(f, s, h, b, now);
    } else {
      PlainPends(f, s, h, b, now);
    }
  }
}

/** The Python side of the link, and its agreement with the firmware. */
module LlpPython {
  import Crc16
  import opened Conversions
  import opened LinkChecksum
  import opened LlpFrame
  import C = LlpParser
  import opened LlpStream
  import opened TimedStreams

  /** LLPParser; `payload` is the bytearray. Statistics are left out. */
  datatype State = State(
    state: C.Phase,
    escapePending: bool,
    payloadLen: word,
    payload: seq<byte>,
    crcReceived: word,
    crc: word,
    lastByteTime: nat)

  /** LLPParser.reset. */
  function Initial(): State {
    State(C.WAIT_MAGIC1, false, 0, [], 0, CRC_INITIAL, 0)
  }

  function MagicCrc(f: Checksum): word {
    f(f(CRC_INITIAL, MAGIC_1), MAGIC_2)
  }

  predicate TimedOut(s: State, now: nat) {
    s.state != C.WAIT_MAGIC1 && s.state != C.WAIT_MAGIC2 && s.lastByteTime > 0
    && now - s.lastByteTime > C.FRAME_TIMEOUT_MS
  }

  /** The state machine proper. */
  function Dispatch(f: Checksum, max: nat, s: State, b: byte): (State, int) {
    if s.state == C.WAIT_MAGIC1 then (if b == MAGIC_1 then s.(state := C.WAIT_MAGIC2) else s, 0)
    else if s.state == C.WAIT_MAGIC2 then
      (if b == MAGIC_2 then s.(crc := MagicCrc(f), state := C.READ_LEN_L)
       else if b == MAGIC_1 then s.(state := C.WAIT_MAGIC2)
       else s.(state := C.WAIT_MAGIC1), 0)
    else if s.state == C.READ_LEN_L then (s.(payloadLen := b, crc := f(s.crc, b), state := C.READ_LEN_H), 0)
    else if s.state == C.READ_LEN_H then
      var n := Joined(s.payloadLen % 0x100, b);
      if n > max then (Initial(), -1)
      else (s.(payloadLen := n, crc := f(s.crc, b), payload := [],
               state := if n > 0 then C.READ_PAYLOAD else C.READ_CRC_L), 0)
    else if s.state == C.READ_PAYLOAD then
      var p := s.payload + [b];
      (s.(payload := p, crc := f(s.crc, b),
          state := if |p| == s.payloadLen then C.READ_CRC_L else C.READ_PAYLOAD), 0)
    else if s.state == C.READ_CRC_L then (s.(crcReceived := b, state := C.READ_CRC_H), 0)
    else
      var r := Joined(s.crcReceived % 0x100, b);
      if r != s.crc then (Initial(), -1)
      else (s.(crcReceived := r, state := C.WAIT_MAGIC1, escapePending := false), 1)
  }

  /** LLPParser.process_byte. */
  function Step(f: Checksum, max: nat, s: State, b: byte, now: nat): (State, int) {
    if TimedOut(s, now) then
      (Initial().(lastByteTime := now, state := if b == MAGIC_1 then C.WAIT_MAGIC2 else C.WAIT_MAGIC1), -1)
    else
      var t := s.(lastByteTime := now);
      if t.state == C.WAIT_MAGIC1 || t.state == C.WAIT_MAGIC2 then Dispatch(f, max, t, b)
      else if t.escapePending then
        var u := t.(escapePending := false);
        if b == MAGIC_2 then (u.(crc := MagicCrc(f), payload := [], state := C.READ_LEN_L), -1)
        else if b == ESCAPE then Dispatch(f, max, u, MAGIC_1)
        else (Initial(), -1)
      else if b == MAGIC_1 then (t.(escapePending := true), 0)
      else Dispatch(f, max, t, b)
  }

  function Parser(f: Checksum, max: nat): Machine<State> {
    (s: State, b: byte, now: nat) => Step(f, max, s, b, now)
  }

  // ---------------------------------------------------------------------------
  // Bisimulation
  // ---------------------------------------------------------------------------

  /** The two parsers are at the same point of the same frame. */
  ghost predicate Similar(c: C.State, p: State) {
    && C.Valid(c) && p.state == c.state && p.escapePending == c.escapePending
    && (c.state >= C.WAIT_MAGIC2 ==> c.lastByteTime == p.lastByteTime % 0x1_0000)
    && (c.state >= C.READ_LEN_L ==> p.crc == c.crc)
    && (c.state >= C.READ_LEN_H ==> p.payloadLen == c.len)
    && (c.state == C.READ_PAYLOAD ==> p.payload == c.buffer[..c.idx])
    && (c.state >= C.READ_CRC_L ==> p.payload == c.buffer[..c.len])
    && (c.state == C.READ_CRC_H ==> p.crcReceived == c.crcReceived)
  }

  lemma DispatchSimilar(f: Checksum, c: C.State, p: State, b: byte)
    requires Similar(c, p) && !c.escapePending
    requires c.lastByteTime == p.lastByteTime % 0x1_0000
    ensures var (c', code) := C.Dispatch(f, c, b);
            var (p', pcode) := Dispatch(f, |c.buffer|, p, b);
            && pcode == code && Similar(c', p') && |c'.buffer| == |c.buffer|
            && (code == 1 ==> c'.len <= |c'.buffer| && p'.payload == c'.buffer[..c'.len])
  {
    if c.state == C.READ_PAYLOAD {
      var c' := C.Dispatch(f, c, b).0;
      assert c'.buffer[..c.idx + 1] == c.buffer[..c.idx] + [b];
    }
  }

  /** Both parsers give up their frame at this byte, or neither does. */
  predicate TimeoutsAgree(c: C.State, p: State, now: nat) {
    C.TimedOut(c, now) == TimedOut(p, now)
  }

  /**
   One byte on which the timeouts agree: the same return code, and on acceptance the same payload. A gap
   inside a frame makes both give it up.
   */
  lemma StepSimilar(f: Checksum, c: C.State, p: State, b: byte, now: nat)
    requires Similar(c, p) && TimeoutsAgree(c, p, now)
    ensures var (c', code) := C.Step(f, c, b, now);
            var (p', pcode) := Step(f, |c.buffer|, p, b, now);
            && pcode == code && Similar(c', p') && |c'.buffer| == |c.buffer|
            && (code == 1 ==> c'.len <= |c'.buffer| && p'.payload == c'.buffer[..c'.len])
            && (p'.state != C.WAIT_MAGIC1 ==> p'.lastByteTime == now)
  {
    if !C.TimedOut(c, now) {
      var u := c.(lastByteTime := now % 0x1_0000, escapePending := false);
      var v := p.(lastByteTime := now, escapePending := false);
      DispatchSimilar(f, u, v, b);
      DispatchSimilar(f, u, v, MAGIC_1);
    }
  }

  /** Milliseconds between two bytes, as the C parser sees them. */
  function Elapsed(last: nat, now: nat): nat {
    (now - last) % 0x1_0000
  }

  lemma ElapsedOfLow(last: nat, now: nat)
    ensures (now - last % 0x1_0000) % 0x1_0000 == Elapsed(last, now)
    ensures last <= now < last + 0x1_0000 ==> Elapsed(last, now) == now - last
  {
  }

  /**
   Where the timeouts differ: between the two magic bytes; inside a frame whose last byte came at time
   zero, which the Python parser takes for no time at all; and inside a frame after a gap so long that
   the 16-bit time of the C parser has wrapped.
   */
  lemma TimeoutsAgreeExactly(c: C.State, p: State, now: nat)
    requires Similar(c, p)
    ensures var gap := Elapsed(p.lastByteTime, now);
            TimeoutsAgree(c, p, now) <==>
              && !(c.state == C.WAIT_MAGIC2 && gap > C.FRAME_TIMEOUT_MS)
              && !(c.state >= C.READ_LEN_L && p.lastByteTime == 0 && gap > C.FRAME_TIMEOUT_MS)
              && !(c.state >= C.READ_LEN_L && p.lastByteTime > 0
                   && (gap > C.FRAME_TIMEOUT_MS) != (now - p.lastByteTime > C.FRAME_TIMEOUT_MS))
  {
    ElapsedOfLow(p.lastByteTime, now);
  }

  /** A gap over the timeout between the magic bytes: -1 from the C parser, 0 from the Python parser. */
  lemma MagicGapDiffers(f: Checksum, c: C.State, p: State, b: byte, now: nat)
    requires Similar(c, p) && c.state == C.WAIT_MAGIC2 && C.TimedOut(c, now)
    ensures C.Step(f, c, b, now).1 == -1 && Step(f, |c.buffer|, p, b, now).1 == 0
  {
  }

  /**
   The clock of the stream: within a frame and its magic, time is not zero, does not run backwards and
   makes no leap of 2^16 milliseconds. Anything may happen between frames.
   */
  ghost predicate Clocked(f: Checksum, c: C.State, last: nat, bytes: seq<byte>, times: seq<nat>)
    requires |bytes| == |times|
    decreases |bytes|
  {
    bytes == [] ||
    (&& (c.state != C.WAIT_MAGIC1 ==> 0 < last <= times[0] < last + 0x1_0000)
     && Clocked(f, C.Step(f, c, bytes[0], times[0]).0, times[0], bytes[1..], times[1..]))
  }

  /** Somewhere the C parser waits for the second magic byte for longer than the timeout. */
  ghost predicate GapInMagic(f: Checksum, c: C.State, last: nat, bytes: seq<byte>, times: seq<nat>)
    requires |bytes| == |times|
    decreases |bytes|
  {
    bytes != [] &&
    (|| (c.state == C.WAIT_MAGIC2 && times[0] - last > C.FRAME_TIMEOUT_MS)
     || GapInMagic(f, C.Step(f, c, bytes[0], times[0]).0, times[0], bytes[1..], times[1..]))
  }

  lemma ClockedAgrees(c: C.State, p: State, last: nat, now: nat)
    requires Similar(c, p) && (c.state != C.WAIT_MAGIC1 ==> p.lastByteTime == last && 0 < last <= now < last + 0x1_0000)
    ensures TimeoutsAgree(c, p, now) <==> !(c.state == C.WAIT_MAGIC2 && now - last > C.FRAME_TIMEOUT_MS)
    ensures c.state == C.WAIT_MAGIC2 && now - last > C.FRAME_TIMEOUT_MS ==> C.TimedOut(c, now)
  {
    ElapsedOfLow(p.lastByteTime, now);
  }

  /** The two parsers have the same answers, and the same payload if the last one is an acceptance. */
  ghost predicate SameAnswers(f: Checksum, c: C.State, p: State, bytes: seq<byte>, times: seq<nat>)
    requires |bytes| == |times|
  {
    var (c', codes) := Run(LlpStream.Parser(f), c, bytes, times);
    var (p', pcodes) := Run(Parser(f, |c.buffer|), p, bytes, times);
    && pcodes == codes
    && (codes != [] && codes[|codes| - 1] == 1 ==> c'.len <= |c'.buffer| && p'.payload == c'.buffer[..c'.len])
  }

  lemma FirstCodes(f: Checksum, c: C.State, p: State, bytes: seq<byte>, times: seq<nat>)
    requires |bytes| == |times| > 0
    ensures Run(LlpStream.Parser(f), c, bytes, times).1[0] == C.Step(f, c, bytes[0], times[0]).1
    ensures Run(Parser(f, |c.buffer|), p, bytes, times).1[0] == Step(f, |c.buffer|, p, bytes[0], times[0]).1
  {
  }

  lemma SameAnswersStep(f: Checksum, c: C.State, p: State, bytes: seq<byte>, times: seq<nat>)
    requires |bytes| == |times| > 0 && Similar(c, p) && TimeoutsAgree(c, p, times[0])
    ensures var c1 := C.Step(f, c, bytes[0], times[0]).0;
            var p1 := Step(f, |c.buffer|, p, bytes[0], times[0]).0;
            SameAnswers(f, c, p, bytes, times) <==> SameAnswers(f, c1, p1, bytes[1..], times[1..])
  {
    StepSimilar(f, c, p, bytes[0], times[0]);
    var (c1, code) := C.Step(f, c, bytes[0], times[0]);
    var (p1, pcode) := Step(f, |c.buffer|, p, bytes[0], times[0]);
    var codes := Run(LlpStream.Parser(f), c1, bytes[1..], times[1..]).1;
    var pcodes := Run(Parser(f, |c.buffer|), p1, bytes[1..], times[1..]).1;
    assert ([code] + codes)[1..] == codes && ([code] + pcodes)[1..] == pcodes;
    if |bytes| > 1 { assert ([code] + codes)[|codes|] == codes[|codes| - 1]; }
  }

  lemma {:induction false} RunsAgreeExactly(f: Checksum, c: C.State, p: State, last: nat, bytes: seq<byte>, times: seq<nat>)
    requires |bytes| == |times| && Similar(c, p) && (c.state != C.WAIT_MAGIC1 ==> p.lastByteTime == last)
    requires Clocked(f, c, last, bytes, times)
    ensures SameAnswers(f, c, p, bytes, times) <==> !GapInMagic(f, c, last, bytes, times)
    decreases |bytes|
  {
    if bytes != [] {
      ClockedAgrees(c, p, last, times[0]);
      if c.state == C.WAIT_MAGIC2 && times[0] - last > C.FRAME_TIMEOUT_MS {
        MagicGapDiffers(f, c, p, bytes[0], times[0]);
        FirstCodes(f, c, p, bytes, times);
      } else {
        StepSimilar(f, c, p, bytes[0], times[0]);
        SameAnswersStep(f, c, p, bytes, times);
        var c1 := C.Step(f, c, bytes[0], times[0]).0;
        var p1 := Step(f, |c.buffer|, p, bytes[0], times[0]).0;
        RunsAgreeExactly(f, c1, p1, times[0], bytes[1..], times[1..]);
      }
    }
  }

  /**
   The C and the Python parser, fresh and with the same maximum payload, return the same code on every
   byte of a stream, and yield the same payload whenever they accept, if and only if no gap between two
   magic bytes exceeds the timeout. Gaps inside frames make both of them give up the frame.
   */
  lemma ParsersAgreeExactly(f: Checksum, buffer: seq<byte>, bytes: seq<byte>, times: seq<nat>)
    requires |buffer| < 0x1_0000 && |bytes| == |times| && Clocked(f, C.Init(buffer), 0, bytes, times)
    ensures SameAnswers(f, C.Init(buffer), Initial(), bytes, times) <==>
              !GapInMagic(f, C.Init(buffer), 0, bytes, times)
  {
    RunsAgreeExactly(f, C.Init(buffer), Initial(), 0, bytes, times);
  }

  /** A stream with such a gap: between the two magic bytes only the C parser times out. */
  lemma TimeoutInMagicDiffers(f: Checksum, buffer: seq<byte>, start: nat, gap: nat)
    requires |buffer| < 0x1_0000 && C.FRAME_TIMEOUT_MS < gap < 0x1_0000
    ensures var times := [start, start + gap];
            && Run(LlpStream.Parser(f), C.Init(buffer), Magic(), times).1 == [0, -1]
            && Run(Parser(f, |buffer|), Initial(), Magic(), times).1 == [0, 0]
  {
    RunTwo(LlpStream.Parser(f), C.Init(buffer), Magic(), [start, start + gap]);
    RunTwo(Parser(f, |buffer|), Initial(), Magic(), [start, start + gap]);
    ElapsedOfLow(start, start + gap);
  }

  /** Where the parsers stand after the magic of a first frame, and what they say to the byte behind it. */
  lemma AfterMagic(f: Checksum, buffer: seq<byte>, start: nat, b: byte, now: nat)
    requires |buffer| < 0x1_0000
    ensures var times := [start, start, now];
            var c := C.Begin(f, C.Init(buffer)).(lastByteTime := start % 0x1_0000);
            var p := Initial().(crc := MagicCrc(f), state := C.READ_LEN_L, lastByteTime := start);
            && Run(LlpStream.Parser(f), C.Init(buffer), Magic() + [b], times).1 == [0, 0, C.Step(f, c, b, now).1]
            && Run(Parser(f, |buffer|), Initial(), Magic() + [b], times).1 == [0, 0, Step(f, |buffer|, p, b, now).1]
  {
    var c := C.Begin(f, C.Init(buffer)).(lastByteTime := start % 0x1_0000);
    var p := Initial().(crc := MagicCrc(f), state := C.READ_LEN_L, lastByteTime := start);
    assert [start, start] + [now] == [start, start, now];
    ElapsedOfLow(start, start);
    RunTwo(LlpStream.Parser(f), C.Init(buffer), Magic(), [start, start]);
    RunTwo(Parser(f, |buffer|), Initial(), Magic(), [start, start]);
    RunOne(LlpStream.Parser(f), c, [b], [now]);
    RunOne(Parser(f, |buffer|), p, [b], [now]);
    RunAppend(LlpStream.Parser(f), C.Init(buffer), Magic(), [b], [start, start], [now]);
    RunAppend(Parser(f, |buffer|), Initial(), Magic(), [b], [start, start], [now]);
  }

  /** A stream that begins at time zero: after a gap behind the magic only the C parser times out. */
  lemma TimeZeroDiffers(f: Checksum, buffer: seq<byte>, b: byte, gap: nat)
    requires |buffer| < 0x1_0000 && b != MAGIC_1 && C.FRAME_TIMEOUT_MS < gap < 0x1_0000
    ensures var times := [0, 0, gap];
            && Run(LlpStream.Parser(f), C.Init(buffer), Magic() + [b], times).1 == [0, 0, -1]
            && Run(Parser(f, |buffer|), Initial(), Magic() + [b], times).1 == [0, 0, 0]
  {
    AfterMagic(f, buffer, 0, b, gap);
  }

  /**
   A stream with a gap whose low 16 bits are within the timeout, such as 65.536 seconds: to the C parser it
   is no gap, and only the Python parser times out.
   */
  lemma WrappedGapDiffers(f: Checksum, buffer: seq<byte>, b: byte, start: nat, gap: nat)
    requires |buffer| < 0x1_0000 && b != MAGIC_1 && start > 0
    requires gap >= 0x1_0000 && gap % 0x1_0000 <= C.FRAME_TIMEOUT_MS
    ensures var times := [start, start, start + gap];
            && Run(LlpStream.Parser(f), C.Init(buffer), Magic() + [b], times).1 == [0, 0, 0]
            && Run(Parser(f, |buffer|), Initial(), Magic() + [b], times).1 == [0, 0, -1]
  {
    AfterMagic(f, buffer, start, b, start + gap);
    ElapsedOfLow(start, start + gap);
  }

  // ---------------------------------------------------------------------------
  // The Python code in its own form
  // ---------------------------------------------------------------------------

  /** One byte of binascii.crc_hqx, which is driven by a table. */
  function HqxStep(c: word, b: byte): word {
    Crc16.TableStep(c as bv16, b as bv8) as int
  }

  lemma HqxIsCrc(c: word, b: byte)
    ensures HqxStep(c, b) == CrcUpdate(c, b)
  {
    Crc16.TableIsLoop(c as bv16, b as bv8);
  }

  /** binascii.crc_hqx. */
  method CrcHqx(data: seq<byte>, initial: word, ghost before: seq<byte>) returns (c: word)
    requires initial == Check(CrcUpdate, before)
    ensures c == Check(CrcUpdate, before + data)
  {
    c := initial;
    PrefixEnds(before, data);
    for i := 0 to |data|
      invariant c == Check(CrcUpdate, before + data[..i])
    {
      HqxIsCrc(c, data[i]);
      c := HqxStep(c, data[i]);
      CheckOne(CrcUpdate, before + data[..i], data[i]);
      PrefixGrows(before, data, i);
    }
  }

  datatype Result<T> = Ok(value: T) | ValueError

  /** One of the three loops of build_frame. */
  method AppendStuffed(output: seq<byte>, bytes: seq<byte>) returns (r: seq<byte>)
    ensures r == output + Stuff(bytes)
  {
    r := output;
    for i := 0 to |bytes|
      invariant r == output + Stuff(bytes[..i])
    {
      r := r + [bytes[i]];
      if bytes[i] == MAGIC_1 { r := r + [ESCAPE]; }
      StuffOne(bytes[..i], bytes[i]);
      assert bytes[..i + 1] == bytes[..i] + [bytes[i]];
      assert output + (Stuff(bytes[..i]) + Stuffed(bytes[i])) == (output + Stuff(bytes[..i])) + Stuffed(bytes[i]);
    }
    assert bytes[..|bytes|] == bytes;
  }

  /** build_frame. */
  method BuildFrame(payload: seq<byte>, max: nat) returns (r: Result<seq<byte>>)
    requires max < 0x1_0000
    ensures r == if |payload| > max then ValueError else Ok(Frame(CrcUpdate, payload))
  {
    if |payload| > max { return ValueError; }
    var lengthLe := TwoBytes(|payload|);
    var crc := CrcHqx(Magic() + lengthLe + payload, CRC_INITIAL, []);
    assert [] + (Magic() + lengthLe + payload) == Content(payload);
    var output := [MAGIC_1, MAGIC_2];
    output := AppendStuffed(output, lengthLe);
    output := AppendStuffed(output, payload);
    output := AppendStuffed(output, TwoBytes(crc));
    FrameInThree(CrcUpdate, payload);
    r := Ok(output);
  }

  /** encode: the data in a final layer, framed. */
  method Encode(raw: seq<byte>, max: nat) returns (r: Result<seq<byte>>)
    requires max < 0x1_0000
    ensures r == if 1 + |raw| > max then ValueError else Ok(Frame(CrcUpdate, [0] + raw))
  {
    r := BuildFrame([0] + raw, max);
  }

  /** LLPParser. */
  class LLPParser {
    const max: nat
    var state: C.Phase
    var escapePending: bool
    var payloadLen: word
    var payload: seq<byte>
    var crcReceived: word
    var crcCalculated: word
    var lastByteTime: nat

    constructor (max: nat)
      ensures this.max == max && View() == Initial()
    {
      this.max := max;
      state, escapePending, payloadLen, payload := C.WAIT_MAGIC1, false, 0, [];
      crcReceived, crcCalculated, lastByteTime := 0, CRC_INITIAL, 0;
    }

    function View(): State
      reads this
    {
      State(state, escapePending, payloadLen, payload, crcReceived, crcCalculated, lastByteTime)
    }

    method Reset()
      modifies this
      ensures View() == Initial()
    {
      state, escapePending, payloadLen, payload := C.WAIT_MAGIC1, false, 0, [];
      crcReceived, crcCalculated, lastByteTime := 0, CRC_INITIAL, 0;
    }

    /** The checksum of the magic. */
    method MagicCrcHqx() returns (c: word)
      ensures c == MagicCrc(CrcUpdate)
    {
      HqxIsCrc(CRC_INITIAL, MAGIC_1);
      HqxIsCrc(CrcUpdate(CRC_INITIAL, MAGIC_1), MAGIC_2);
      c := HqxStep(HqxStep(CRC_INITIAL, MAGIC_1), MAGIC_2);
    }

    method AddToCrc(b: byte)
      modifies this`crcCalculated
      ensures crcCalculated == CrcUpdate(old(crcCalculated), b)
    {
      HqxIsCrc(crcCalculated, b);
      crcCalculated := HqxStep(crcCalculated, b);
    }

    method WaitMagic2(b: byte)
      requires state == C.WAIT_MAGIC2
      modifies this
      ensures (View(), 0) == Dispatch(CrcUpdate, max, old(View()), b)
    {
      if b == MAGIC_2 {
        crcCalculated := MagicCrcHqx();
        state := C.READ_LEN_L;
      } else if b == MAGIC_1 {
        state := C.WAIT_MAGIC2;
      } else {
        state := C.WAIT_MAGIC1;
      }
    }

    method ReadLenH(b: byte) returns (code: int)
      requires state == C.READ_LEN_H && payloadLen < 0x100
      modifies this
      ensures (View(), code) == Dispatch(CrcUpdate, max, old(View()), b)
    {
      payloadLen := Joined(payloadLen % 0x100, b);
      AddToCrc(b);
      if payloadLen > max {
        Reset();
        return -1;
      }
      payload := [];
      state := if payloadLen > 0 then C.READ_PAYLOAD else C.READ_CRC_L;
      code := 0;
    }

    method ReadPayload(b: byte)
      requires state == C.READ_PAYLOAD
      modifies this
      ensures (View(), 0) == Dispatch(CrcUpdate, max, old(View()), b)
    {
      payload := payload + [b];
      AddToCrc(b);
      if |payload| == payloadLen { state := C.READ_CRC_L; }
    }

    method ReadCrcH(b: byte) returns (code: int)
      requires state == C.READ_CRC_H && crcReceived < 0x100
      modifies this
      ensures (View(), code) == Dispatch(CrcUpdate, max, old(View()), b)
    {
      crcReceived := Joined(crcReceived % 0x100, b);
      if crcReceived != crcCalculated {
        Reset();
        return -1;
      }
      state := C.WAIT_MAGIC1;
      escapePending := false;
      code := 1;
    }

    ghost predicate Valid()
      reads this
    {
      && (state == C.READ_LEN_H ==> payloadLen < 0x100)
      && (state == C.READ_CRC_H ==> crcReceived < 0x100)
    }

    /** The state machine proper. */
    method Switch(b: byte) returns (code: int)
      requires Valid()
      modifies this
      ensures Valid() && (View(), code) == Dispatch(CrcUpdate, max, old(View()), b)
    {
      code := 0;
      match state
      case 0 => if b == MAGIC_1 { state := C.WAIT_MAGIC2; }
      case 1 => WaitMagic2(b);
      case 2 =>
        payloadLen := b;
        AddToCrc(b);
        state := C.READ_LEN_H;
      case 3 => code := ReadLenH(b);
      case 4 => ReadPayload(b);
      case 5 =>
        crcReceived := b;
        state := C.READ_CRC_H;
      case _ => code := ReadCrcH(b);
    }

    method Unescape(b: byte) returns (code: int)
      requires Valid() && escapePending
      modifies this
      ensures var u := old(View()).(escapePending := false);
              Valid() && (View(), code) ==
                if b == MAGIC_2 then (u.(crc := MagicCrc(CrcUpdate), payload := [], state := C.READ_LEN_L), -1)
                else if b == ESCAPE then Dispatch(CrcUpdate, max, u, MAGIC_1)
                else (Initial(), -1)
    {
      escapePending := false;
      if b == MAGIC_2 {
        crcCalculated := MagicCrcHqx();
        payload := [];
        state := C.READ_LEN_L;
        code := -1;
      } else if b == ESCAPE {
        code := Switch(MAGIC_1);
      } else {
        Reset();
        code := -1;
      }
    }

    /** process_byte. */
    method ProcessByte(b: byte, currentMs: nat) returns (code: int)
      requires Valid()
      modifies this
      ensures Valid() && (View(), code) == Step(CrcUpdate, max, old(View()), b, currentMs)
    {
      if state != C.WAIT_MAGIC1 && state != C.WAIT_MAGIC2 {
        if lastByteTime > 0 && currentMs - lastByteTime > C.FRAME_TIMEOUT_MS {
          Reset();
          lastByteTime := currentMs;
          if b == MAGIC_1 { state := C.WAIT_MAGIC2; }
          return -1;
        }
      }
      lastByteTime := currentMs;
      if state != C.WAIT_MAGIC1 && state != C.WAIT_MAGIC2 {
        if escapePending {
          code := Unescape(b);
          return;
        } else if b == MAGIC_1 {
          escapePending := true;
          return 0;
        }
      }
      code := Switch(b);
    }
  }
}

/**
 Streams of bytes through the frame parser: every acceptance is sound, every well-formed frame
 is delivered unless an escape is pending when it begins, and a wrong checksum is refused.
 */
module LlpStream {
  import opened LlpFrame
  import opened LlpParser
  import opened TimedStreams

  function Parser(f: Checksum): Machine<State> {
    (s: State, b: byte, now: nat) => Step(f, s, b, now)
  }

  lemma StepValid(f: Checksum, s: State, b: byte, now: nat)
    requires Valid(s)
    ensures Valid(Step(f, s, b, now).0) && |Step(f, s, b, now).0.buffer| == |s.buffer|
    ensures Step(f, s, b, now).0.escapePending ==> b == MAGIC_1
  {
  }

  lemma {:induction false} RunValid(f: Checksum, s: State, bytes: seq<byte>, times: seq<nat>)
    requires Valid(s) && |bytes| == |times|
    ensures var t := Run(Parser(f), s, bytes, times).0;
            && Valid(t) && |t.buffer| == |s.buffer|
            && (t.escapePending ==> if bytes == [] then s.escapePending else bytes[|bytes| - 1] == MAGIC_1)
    decreases |bytes|
  {
    if bytes != [] {
      StepValid(f, s, bytes[0], times[0]);
      RunValid(f, Step(f, s, bytes[0], times[0]).0, bytes[1..], times[1..]);
    }
  }

  // ---------------------------------------------------------------------------
  // Soundness
  // ---------------------------------------------------------------------------

  lemma {:induction false} RunPends(f: Checksum, s: State, h: seq<byte>, bytes: seq<byte>, times: seq<nat>)
    requires Pending(f, s, h) && |bytes| == |times|
    ensures var (t, codes) := Run(Parser(f), s, bytes, times);
            && Pending(f, t, h + bytes)
            && (bytes != [] ==> Delivers(f, (t, codes[|codes| - 1]), h + bytes))
    decreases |bytes|
  {
    if bytes == [] {
      assert h + bytes == h;
    } else {
      StepPends(f, s, h, bytes[0], times[0]);
      var r := Step(f, s, bytes[0], times[0]);
      RunPends(f, r.0, h + [bytes[0]], bytes[1..], times[1..]);
      assert (h + [bytes[0]]) + bytes[1..] == h + bytes;
      assert |bytes| == 1 ==> bytes[1..] == [] && h + [bytes[0]] == h + bytes;
    }
  }

  /**
   For every byte stream and any timestamps: if the parser returns 1 on the last byte, the
   stream ends in the frame of the payload that it delivers.
   */
  lemma AcceptedFramesAreReal(f: Checksum, buffer: seq<byte>, bytes: seq<byte>, times: seq<nat>)
    requires |buffer| < 0x1_0000 && |bytes| == |times| > 0
    ensures var (t, codes) := Run(Parser(f), Init(buffer), bytes, times);
            codes[|codes| - 1] == 1 ==>
              t.len <= |t.buffer| && Ends(bytes, Frame(f, t.buffer[..t.len]))
  {
    RunPends(f, Init(buffer), [], bytes, times);
    assert [] + bytes == bytes;
  }

  // ---------------------------------------------------------------------------
  // Completeness: a frame inside its timeouts is delivered
  // ---------------------------------------------------------------------------

  /** No gap between these times, the first of them after `last`, exceeds the timeout. */
  ghost predicate Prompt(last: word, times: seq<nat>)
    decreases |times|
  {
    times == [] || ((times[0] - last) % 0x1_0000 <= FRAME_TIMEOUT_MS && Prompt(times[0] % 0x1_0000, times[1..]))
  }

  lemma {:induction false} PromptSplit(last: word, times: seq<nat>, n: nat)
    requires Prompt(last, times) && n <= |times|
    ensures Prompt(last, times[..n])
    ensures n > 0 ==> Prompt(times[n - 1] % 0x1_0000, times[n..])
    decreases n
  {
    if n > 0 {
      PromptSplit(times[0] % 0x1_0000, times[1..], n - 1);
      assert times[..n][1..] == times[1..][..n - 1] && times[1..][n - 1..] == times[n..];
      if n == 1 { assert times[1..] == times[n..]; }
    }
  }

  /** What is sent after the magic when the checksum field holds `c`. */
  ghost function Sent(p: seq<byte>, c: word): seq<byte>
    requires |p| < 0x1_0000
  {
    TwoBytes(|p|) + p + TwoBytes(c)
  }

  lemma DispatchAtAnyTime(f: Checksum, s: State, b: byte, last: word)
    ensures Dispatch(f, s.(lastByteTime := last), b) == (Dispatch(f, s, b).0.(lastByteTime := last), Dispatch(f, s, b).1)
  {
  }

  lemma StepUnescapes(f: Checksum, s: State, now: nat)
    requires Valid(s) && s.escapePending && !TimedOut(s, now)
    ensures var (t, code) := Dispatch(f, s.(escapePending := false), MAGIC_1);
            Step(f, s, ESCAPE, now) == (t.(lastByteTime := now % 0x1_0000), code)
  {
    DispatchAtAnyTime(f, s.(escapePending := false), MAGIC_1, now % 0x1_0000);
  }

  lemma StepIsDispatch(f: Checksum, s: State, b: byte, now: nat)
    requires s.state >= READ_LEN_L && !s.escapePending && b != MAGIC_1 && !TimedOut(s, now)
    ensures var (t, code) := Dispatch(f, s, b);
            Step(f, s, b, now) == (t.(lastByteTime := now % 0x1_0000), code)
  {
    DispatchAtAnyTime(f, s, b, now % 0x1_0000);
  }

  /** A stuffed magic byte inside a frame acts as one unstuffed byte. */
  lemma RunEscaped(f: Checksum, s: State, times: seq<nat>)
    requires Valid(s) && s.state >= READ_LEN_L && !s.escapePending
    requires |times| == 2 && Prompt(s.lastByteTime, times)
    ensures var (t, code) := Dispatch(f, s, MAGIC_1);
            Run(Parser(f), s, [MAGIC_1, ESCAPE], times) == (t.(lastByteTime := times[1] % 0x1_0000), [0, code])
  {
    var u := s.(lastByteTime := times[0] % 0x1_0000, escapePending := true);
    assert Step(f, s, MAGIC_1, times[0]) == (u, 0);
    assert Prompt(u.lastByteTime, times[1..]);
    StepUnescapes(f, u, times[1]);
    DispatchAtAnyTime(f, s, MAGIC_1, u.lastByteTime);
    RunTwo(Parser(f), s, [MAGIC_1, ESCAPE], times);
  }

  lemma RunPlain(f: Checksum, s: State, b: byte, times: seq<nat>)
    requires s.state >= READ_LEN_L && !s.escapePending && b != MAGIC_1
    requires |times| == 1 && Prompt(s.lastByteTime, times)
    ensures var (t, code) := Dispatch(f, s, b);
            Run(Parser(f), s, [b], times) == (t.(lastByteTime := times[0] % 0x1_0000), [code])
  {
    StepIsDispatch(f, s, b, times[0]);
    RunOne(Parser(f), s, [b], times);
  }

  /** A stuffed byte inside a frame acts as one unstuffed byte. */
  lemma RunStuffed(f: Checksum, s: State, b: byte, times: seq<nat>)
    requires Valid(s) && s.state >= READ_LEN_L && !s.escapePending
    requires |times| == |Stuffed(b)| && Prompt(s.lastByteTime, times)
    ensures var last := times[|times| - 1] % 0x1_0000;
            var (t, code) := Dispatch(f, s, b);
            var r := Run(Parser(f), s, Stuffed(b), times);
            r.0 == t.(lastByteTime := last) && Silent(r.1, code)
  {
    if b == MAGIC_1 {
      RunEscaped(f, s, times);
    } else {
      RunPlain(f, s, b, times);
    }
  }

  /** How far a reader of `p` has come is determined by the bytes read. */
  lemma WhereInFrame(s: State, p: seq<byte>, c: word, r: seq<byte>)
    requires Valid(s) && s.state >= READ_LEN_L && |p| < 0x1_0000
    requires Read(s) + r == Sent(p, c) && r != []
    ensures s.state >= READ_PAYLOAD ==> s.len == |p|
    ensures s.state == READ_LEN_H ==> s.len == TwoBytes(|p|)[0] && r[0] == TwoBytes(|p|)[1]
    ensures |r| == 1 <==> s.state == READ_CRC_H
  {
    var read, sent := Read(s), Sent(p, c);
    assert forall k | 0 <= k < |read| :: read[k] == sent[k];
    assert sent[|read|] == r[0];
    if s.state == READ_LEN_H {
      assert read[0] == s.len && sent[0] == TwoBytes(|p|)[0] && sent[1] == TwoBytes(|p|)[1];
    } else if s.state >= READ_PAYLOAD {
      assert read[0] == TwoBytes(|p|)[0] && read[1] == TwoBytes(|p|)[1];
      assert read[0] == TwoBytes(s.len)[0] && read[1] == TwoBytes(s.len)[1];
    }
  }

  /** At the last byte, the payload has been stored and only the checksum is left to compare. */
  lemma AtLastByte(s: State, p: seq<byte>, c: word, hi: byte)
    requires Valid(s) && s.state == READ_CRC_H && |p| < 0x1_0000 && s.len == |p|
    requires Read(s) + [hi] == Sent(p, c)
    ensures s.buffer[..s.len] == p && Joined(s.crcReceived, hi) == c
  {
    var read, sent := Read(s), Sent(p, c);
    assert |read| == 3 + |p|;
    assert forall k | 0 <= k < |read| :: read[k] == (read + [hi])[k] == sent[k];
    forall k | 0 <= k < |p| ensures s.buffer[k] == p[k] {
      assert read[2 + k] == s.buffer[k] && sent[2 + k] == p[k];
    }
    assert read[2 + |p|] == s.crcReceived && sent[2 + |p|] == TwoBytes(c)[0];
    assert (read + [hi])[3 + |p|] == hi && sent[3 + |p|] == TwoBytes(c)[1];
  }

  /** Inside a frame, with no escape pending. */
  ghost predicate Reading(f: Checksum, s: State) {
    Valid(s) && Summed(f, s) && s.state >= READ_LEN_L && !s.escapePending
  }

  /** A byte of a frame that is not its last: read, without complaint. */
  lemma OneMoreByte(f: Checksum, s: State, p: seq<byte>, c: word, r: seq<byte>)
    requires Reading(f, s) && |p| <= |s.buffer| && Read(s) + r == Sent(p, c) && |r| >= 2
    ensures var (t, code) := Dispatch(f, s, r[0]);
            code == 0 && Reading(f, t) && |t.buffer| == |s.buffer| && Read(t) + r[1..] == Sent(p, c)
  {
    WhereInFrame(s, p, c, r);
    ReadGrows(f, s, r[0]);
    SumGrows(f, s, r[0]);
    assert (Read(s) + [r[0]]) + r[1..] == Read(s) + r;
  }

  /** The parser after a frame of `p`. */
  ghost predicate Finished(t: State, p: seq<byte>) {
    t.state == WAIT_MAGIC1 && !t.escapePending && t.len == |p| <= |t.buffer| && t.buffer[..t.len] == p
  }

  /** The return code of a frame of `p` whose checksum field holds `c`. */
  ghost function Verdict(f: Checksum, p: seq<byte>, c: word): int
    requires |p| < 0x1_0000
  {
    if c == Check(f, Content(p)) then 1 else -1
  }

  /** The last byte of a frame: accepted if and only if the checksum is the right one. */
  lemma OneLastByte(f: Checksum, s: State, p: seq<byte>, c: word, hi: byte)
    requires Reading(f, s) && |p| <= |s.buffer| && Read(s) + [hi] == Sent(p, c)
    ensures var (t, code) := Dispatch(f, s, hi);
            code == Verdict(f, p, c) && Finished(t, p)
  {
    WhereInFrame(s, p, c, [hi]);
    AtLastByte(s, p, c, hi);
    assert Magic() + Covered(s) == Content(p);
  }

  lemma LastOfFrame(f: Checksum, s: State, p: seq<byte>, c: word, b: byte, times: seq<nat>)
    requires Reading(f, s) && |p| <= |s.buffer| && Read(s) + [b] == Sent(p, c)
    requires |times| == |Stuffed(b)| && Prompt(s.lastByteTime, times)
    ensures var r := Run(Parser(f), s, Stuffed(b), times);
            Finished(r.0, p) && Silent(r.1, Verdict(f, p, c))
  {
    RunStuffed(f, s, b, times);
    OneLastByte(f, s, p, c, b);
  }

  lemma NextOfFrame(f: Checksum, s: State, p: seq<byte>, c: word, r: seq<byte>, times: seq<nat>)
    requires Reading(f, s) && |p| <= |s.buffer| && Read(s) + r == Sent(p, c) && |r| >= 2
    requires |times| == |Stuffed(r[0])| && Prompt(s.lastByteTime, times)
    ensures var (t, codes) := Run(Parser(f), s, Stuffed(r[0]), times);
            && Silent(codes, 0) && Reading(f, t) && |t.buffer| == |s.buffer|
            && Read(t) + r[1..] == Sent(p, c) && t.lastByteTime == times[|times| - 1] % 0x1_0000
  {
    RunStuffed(f, s, r[0], times);
    OneMoreByte(f, s, p, c, r);
  }

  /** The rest of a frame inside its timeouts. */
  lemma {:induction false} RestOfFrame(f: Checksum, s: State, p: seq<byte>, c: word, r: seq<byte>, times: seq<nat>)
    requires Reading(f, s) && |p| <= |s.buffer| && Read(s) + r == Sent(p, c) && r != []
    requires |times| == |Stuff(r)| && Prompt(s.lastByteTime, times)
    ensures var (t, codes) := Run(Parser(f), s, Stuff(r), times);
            Finished(t, p) && Silent(codes, Verdict(f, p, c))
    decreases |r|
  {
    var b := r[0];
    if |r| == 1 {
      assert r == [b] && Stuff(r) == Stuffed(b) + Stuff(r[1..]) && Stuff(r) == Stuffed(b);
      LastOfFrame(f, s, p, c, b, times);
    } else {
      var n := |Stuffed(b)|;
      PromptSplit(s.lastByteTime, times, n);
      NextOfFrame(f, s, p, c, r, times[..n]);
      var first := Run(Parser(f), s, Stuffed(b), times[..n]);
      RestOfFrame(f, first.0, p, c, r[1..], times[n..]);
      var second := Run(Parser(f), first.0, Stuff(r[1..]), times[n..]);
      SilentRuns(Parser(f), s, Stuffed(b), Stuff(r[1..]), times, first, second, Verdict(f, p, c));
    }
  }

  /** The parser expects the second magic byte, whether it searches or has an escape pending. */
  predicate HalfMagic(s: State) {
    (s.state == WAIT_MAGIC2 && !s.escapePending) || (s.state >= READ_LEN_L && s.escapePending)
  }

  lemma FirstMagic(f: Checksum, s: State, now: nat)
    requires Valid(s) && (s.escapePending ==> TimedOut(s, now))
    ensures var (t, code) := Step(f, s, MAGIC_1, now);
            && Valid(t) && HalfMagic(t) && t.lastByteTime == now % 0x1_0000 && |t.buffer| == |s.buffer|
            && (code == 0 || (code == -1 && !t.escapePending))
  {
    StepValid(f, s, MAGIC_1, now);
  }

  lemma SecondMagic(f: Checksum, s: State, now: nat)
    requires Valid(s) && HalfMagic(s) && !TimedOut(s, now)
    ensures var (t, code) := Step(f, s, MAGIC_2, now);
            && Reading(f, t) && t.state == READ_LEN_L && t.lastByteTime == now % 0x1_0000 && |t.buffer| == |s.buffer|
            && code == if s.escapePending then -1 else 0
  {
    StepValid(f, s, MAGIC_2, now);
    assert Check(f, []) == CRC_INITIAL;
    CheckOne(f, [], MAGIC_1);
    CheckOne(f, [MAGIC_1], MAGIC_2);
    assert [] + [MAGIC_1] == [MAGIC_1] && [MAGIC_1] + [MAGIC_2] == Magic() && Magic() + [] == Magic();
  }

  /** The two magic bytes, from any state: a resync inside a frame, otherwise silent. */
  lemma MagicBegins(f: Checksum, s: State, times: seq<nat>)
    requires Valid(s) && |times| == 2 && (s.escapePending ==> TimedOut(s, times[0]))
    requires (times[1] - times[0] % 0x1_0000) % 0x1_0000 <= FRAME_TIMEOUT_MS
    ensures var (t, codes) := Run(Parser(f), s, Magic(), times);
            && Reading(f, t) && t.state == READ_LEN_L && t.lastByteTime == times[1] % 0x1_0000
            && |t.buffer| == |s.buffer|
            && codes in {[0, 0], [0, -1], [-1, 0]}
  {
    RunTwo(Parser(f), s, Magic(), times);
    FirstMagic(f, s, times[0]);
    SecondMagic(f, Step(f, s, MAGIC_1, times[0]).0, times[1]);
  }

  /** A frame as sent when the checksum field holds `c`. */
  ghost function Transmitted(p: seq<byte>, c: word): (s: seq<byte>)
    requires |p| < 0x1_0000
    ensures |s| >= 6
  {
    Magic() + Stuff(Sent(p, c))
  }

  /**
   A frame whose bytes follow each other within the timeout, from any state with no escape
   pending: at most a resync in its magic, then silence, then the verdict on its checksum.
   */
  lemma TransmittedIsJudged(f: Checksum, s: State, p: seq<byte>, c: word, times: seq<nat>)
    requires Valid(s) && |p| <= |s.buffer|
    requires |times| == |Transmitted(p, c)| && Prompt(times[0] % 0x1_0000, times[1..])
    requires s.escapePending ==> TimedOut(s, times[0])
    ensures var (t, codes) := Run(Parser(f), s, Transmitted(p, c), times);
            && Finished(t, p)
            && codes[..2] in {[0, 0], [0, -1], [-1, 0]} && Silent(codes[2..], Verdict(f, p, c))
  {
    MagicBegins(f, s, times[..2]);
    assert times[1..][0] == times[1] && times[1..][1..] == times[2..];
    var t := Run(Parser(f), s, Magic(), times[..2]).0;
    assert Read(t) + Sent(p, c) == Sent(p, c);
    RestOfFrame(f, t, p, c, Sent(p, c), times[2..]);
    RunSplit(Parser(f), s, Magic(), Stuff(Sent(p, c)), times);
  }

  lemma FrameIsTransmitted(f: Checksum, p: seq<byte>)
    requires |p| < 0x1_0000
    ensures Frame(f, p) == Transmitted(p, Check(f, Content(p))) && Verdict(f, p, Check(f, Content(p))) == 1
  {
  }

  // ---------------------------------------------------------------------------
  // Which frames are lost
  // ---------------------------------------------------------------------------

  lemma RestHidesMagic(x: seq<byte>)
    requires NoMagic(x) && x != []
    ensures NoMagic(x[1..])
    ensures x[0] == MAGIC_1 ==> |x| >= 2 && x[1] != MAGIC_2
  {
    var y := x[1..];
    forall i, j {:trigger y[i], y[j]} | 0 <= i < j < |y| && j == i + 1 && y[i] == MAGIC_1 ensures y[j] != MAGIC_2 {
      assert x[i + 1] == y[i] && x[j + 1] == y[j];
    }
  }

  /** Outside a frame, bytes without a magic pair change nothing, whatever their times. */
  lemma {:induction false} SearchGoesOn(f: Checksum, s: State, x: seq<byte>, times: seq<nat>)
    requires s.state < READ_LEN_L && |x| == |times| && NoMagic(x)
    requires s.state == WAIT_MAGIC2 ==> x != [] && x[0] != MAGIC_2
    ensures var (t, codes) := Run(Parser(f), s, x, times);
            t.state == WAIT_MAGIC1 && 1 !in codes
    decreases |x|
  {
    if x != [] {
      var (t, code) := Step(f, s, x[0], times[0]);
      assert t.state < READ_LEN_L && code != 1;
      assert t.state == WAIT_MAGIC2 ==> x[0] == MAGIC_1;
      RestHidesMagic(x);
      SearchGoesOn(f, t, x[1..], times[1..]);
    }
  }

  lemma AfterMagicHides(f: Checksum, p: seq<byte>)
    requires |p| < 0x1_0000
    ensures Frame(f, p) == [MAGIC_1] + Frame(f, p)[1..] && NoMagic(Frame(f, p)[1..])
  {
    StuffHidesMagic(Body(f, p));
    assert NoMagic([MAGIC_2]);
    NoMagicAppend([MAGIC_2], Stuff(Body(f, p)));
    assert Frame(f, p)[1..] == [MAGIC_2] + Stuff(Body(f, p));
  }

  /** A frame that arrives while an escape is pending is lost as a whole. */
  lemma FrameIsLost(f: Checksum, s: State, p: seq<byte>, times: seq<nat>)
    requires Valid(s) && |p| <= |s.buffer| && |times| == |Frame(f, p)|
    requires s.escapePending && !TimedOut(s, times[0])
    ensures var (t, codes) := Run(Parser(f), s, Frame(f, p), times);
            t.state == WAIT_MAGIC1 && 1 !in codes
  {
    var r := Step(f, s, MAGIC_1, times[0]);
    assert r.0.state == WAIT_MAGIC1 && r.1 == -1;
    AfterMagicHides(f, p);
    SearchGoesOn(f, r.0, Frame(f, p)[1..], times[1..]);
  }

  lemma SilentUntilLast(codes: seq<int>, verdict: int)
    requires Silent(codes, verdict)
    ensures codes[|codes| - 1] == verdict && (forall k | 0 <= k < |codes| - 1 :: codes[k] == 0)
  {
  }

  /**
   Exactly which frames are delivered. A well-formed frame within its timeouts is delivered,
   by a return of 1 on its last byte and nowhere before, if and only if no escape is pending
   when it begins, or the pending one has timed out.
   */
  lemma DeliveredExactly(f: Checksum, s: State, p: seq<byte>, times: seq<nat>)
    requires Valid(s) && |p| <= |s.buffer|
    requires |times| == |Frame(f, p)| && Prompt(times[0] % 0x1_0000, times[1..])
    ensures var (t, codes) := Run(Parser(f), s, Frame(f, p), times);
            && (1 in codes <==> !s.escapePending || TimedOut(s, times[0]))
            && (1 in codes ==>
                  Finished(t, p) && codes[..2] in {[0, 0], [0, -1], [-1, 0]} && Silent(codes[2..], 1))
            && (1 !in codes ==> t.state == WAIT_MAGIC1)
  {
    if !s.escapePending || TimedOut(s, times[0]) {
      FrameIsTransmitted(f, p);
      TransmittedIsJudged(f, s, p, Check(f, Content(p)), times);
      var codes := Run(Parser(f), s, Frame(f, p), times).1;
      SilentUntilLast(codes[2..], 1);
      assert codes[|codes| - 1] == 1;
    } else {
      FrameIsLost(f, s, p, times);
    }
  }

  /**
   Whatever came before, in whatever state the parser is: a frame within its timeouts is
   delivered if the byte before it was not 0xAA.
   */
  lemma DeliveredAfterAnything(f: Checksum, s: State, g: seq<byte>, p: seq<byte>, times: seq<nat>)
    requires Valid(s) && |p| <= |s.buffer| && |g| > 0 && g[|g| - 1] != MAGIC_1
    requires |times| == |g| + |Frame(f, p)| && Prompt(times[|g|] % 0x1_0000, times[|g| + 1..])
    ensures var (t, codes) := Run(Parser(f), s, g + Frame(f, p), times);
            Finished(t, p) && codes[|codes| - 1] == 1
  {
    var u := Run(Parser(f), s, g, times[..|g|]).0;
    RunValid(f, s, g, times[..|g|]);
    assert times[|g|..][1..] == times[|g| + 1..];
    DeliveredExactly(f, u, p, times[|g|..]);
    RunSplit(Parser(f), s, g, Frame(f, p), times);
    var codes := Run(Parser(f), u, Frame(f, p), times[|g|..]).1;
    SilentUntilLast(codes[2..], 1);
    assert codes[|codes| - 1] == codes[2..][|codes| - 3];
  }

  lemma FrameEndsPlain(f: Checksum, p: seq<byte>)
    requires |p| < 0x1_0000
    ensures Frame(f, p)[|Frame(f, p)| - 1] != MAGIC_1
  {
    StuffHidesMagic(Body(f, p));
  }

  /**
   Self-synchronisation: from any state, noise and all, at most the next frame is lost. The
   second of two consecutive frames is always delivered, whatever became of the first.
   */
  lemma SecondFrameIsDelivered(f: Checksum, s: State, p: seq<byte>, q: seq<byte>, times: seq<nat>)
    requires Valid(s) && |p| < 0x1_0000 && |q| <= |s.buffer|
    requires var n := |Frame(f, p)|;
             |times| == n + |Frame(f, q)| && Prompt(times[n] % 0x1_0000, times[n + 1..])
    ensures var (t, codes) := Run(Parser(f), s, Frame(f, p) + Frame(f, q), times);
            Finished(t, q) && codes[|codes| - 1] == 1
  {
    FrameEndsPlain(f, p);
    DeliveredAfterAnything(f, s, Frame(f, p), q, times);
  }

  /** A frame that carries another checksum than its own is refused. */
  lemma WrongChecksumIsRefused(f: Checksum, s: State, p: seq<byte>, c: word, times: seq<nat>)
    requires Valid(s) && |p| <= |s.buffer| && c != Check(f, Content(p))
    requires |times| == |Transmitted(p, c)| && Prompt(times[0] % 0x1_0000, times[1..])
    requires s.escapePending ==> TimedOut(s, times[0])
    ensures var codes := Run(Parser(f), s, Transmitted(p, c), times).1;
            1 !in codes && codes[|codes| - 1] == -1
  {
    TransmittedIsJudged(f, s, p, c, times);
    var codes := Run(Parser(f), s, Transmitted(p, c), times).1;
    SilentUntilLast(codes[2..], -1);
    assert codes == codes[..2] + codes[2..];
  }
}

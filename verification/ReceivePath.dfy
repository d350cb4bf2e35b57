/** The receive path: the interrupt parses frames and puts their data into the ring. */
module ReceivePath {
  import opened LayerChain
  import opened LinkChecksum
  import opened LlpFrame
  import C = LlpParser
  import opened LlpStream
  import opened Options
  import opened RxInterleaving
  import opened RxRing
  import opened TimedStreams

  const CMD_RESET: byte := 0x18
  const CMD_STATUS_REPORT: byte := '?' as int
  const CMD_CYCLE_START: byte := '~' as int
  const CMD_FEED_HOLD: byte := '!' as int

  /** Characters that are data: not a realtime command, and 7-bit. */
  predicate IsData(c: byte) {
    c != CMD_RESET && c != CMD_STATUS_REPORT && c != CMD_CYCLE_START && c != CMD_FEED_HOLD && c <= 0x7F
  }

  function DataOf(payload: seq<byte>): (r: seq<byte>)
    ensures forall c | c in r :: IsData(c)
    decreases |payload|
  {
    if payload == [] then []
    else (if IsData(payload[0]) then [payload[0]] else []) + DataOf(payload[1..])
  }

  /** What one byte of a payload brings: itself, unless it is above 0x7F or one of the four realtime commands. */
  lemma DataOfOne(c: byte)
    ensures DataOf([c]) == if c <= 0x7F && c !in {0x18, 0x21, 0x3F, 0x7E} then [c] else []
  {
    assert [c][1..] == [];
  }

  /** Order is kept and nothing else is lost: the data of a payload is that of its parts, one after the other. */
  lemma {:induction false} DataOfBoth(a: seq<byte>, b: seq<byte>)
    ensures DataOf(a + b) == DataOf(a) + DataOf(b)
    decreases |a|
  {
    if a == [] {
      assert a + b == b;
    } else {
      assert (a + b)[1..] == a[1..] + b;
      DataOfBoth(a[1..], b);
    }
  }

  /** 7-bit, and none of the four realtime commands. */
  predicate SevenBitText(c: byte) {
    c <= 0x7F && c !in {0x18, 0x21, 0x3F, 0x7E}
  }

  ghost predicate Increasing(at: seq<nat>, n: nat) {
    (forall i, k | 0 <= i < k < |at| :: at[i] < at[k]) && (forall i | i in at :: i < n)
  }

  /** `at` are the places of the data in `text`, in order: every character of that kind. */
  ghost predicate Places(at: seq<nat>, text: seq<byte>) {
    Increasing(at, |text|) && forall k: nat {:trigger text[k]} | k < |text| :: k in at <==> SevenBitText(text[k])
  }

  ghost predicate Stand(data: seq<byte>, at: seq<nat>, text: seq<byte>) {
    |at| == |data| && forall i {:trigger at[i]} | 0 <= i < |at| :: at[i] < |text| && data[i] == text[at[i]]
  }

  /** `data` is what stands at those places. */
  ghost predicate Selects(data: seq<byte>, text: seq<byte>) {
    exists at: seq<nat> :: Places(at, text) && Stand(data, at, text)
  }

  lemma IncreasingOneMore(at: seq<nat>, n: nat)
    requires Increasing(at, n)
    ensures Increasing(at, n + 1) && Increasing(at + [n], n + 1)
  {
    var more := at + [n];
    forall i, k | 0 <= i < k < |more| ensures more[i] < more[k] {
      if k == |at| { assert at[i] in at; }
    }
  }

  lemma PlacesOneMore(at: seq<nat>, text: seq<byte>, c: byte)
    requires Places(at, text)
    ensures Places(if SevenBitText(c) then at + [|text|] else at, text + [c])
  {
    var n := |text|;
    var more := if SevenBitText(c) then at + [n] else at;
    IncreasingOneMore(at, n);
    forall k: nat | k < n + 1 ensures k in more <==> SevenBitText((text + [c])[k]) {
      if k < n {
        assert k in at <==> SevenBitText(text[k]);
      } else {
        assert n !in at;
      }
    }
  }

  lemma StandOneMore(data: seq<byte>, at: seq<nat>, text: seq<byte>, c: byte)
    requires Stand(data, at, text)
    ensures Stand(data, at, text + [c]) && Stand(data + [c], at + [|text|], text + [c])
  {
  }

  lemma SelectsOneMore(data: seq<byte>, text: seq<byte>, c: byte)
    requires Selects(data, text)
    ensures Selects(if SevenBitText(c) then data + [c] else data, text + [c])
  {
    var at :| Places(at, text) && Stand(data, at, text);
    PlacesOneMore(at, text, c);
    StandOneMore(data, at, text, c);
  }

  lemma {:induction false} DataOfSelects(text: seq<byte>)
    ensures Selects(DataOf(text), text)
    decreases |text|
  {
    if text == [] {
      assert Places([], text) && Stand([], [], text);
    } else {
      var n := |text| - 1;
      assert text == text[..n] + [text[n]];
      DataOfSelects(text[..n]);
      SelectsOneMore(DataOf(text[..n]), text[..n], text[n]);
      DataOfBoth(text[..n], [text[n]]);
      DataOfOne(text[n]);
    }
  }

  // ---------------------------------------------------------------------------
  // What is on the wire
  // ---------------------------------------------------------------------------

  /** The data layer that one byte from the wire completes, if it completes a frame that has one. */
  function Completed(r: (C.State, int)): (data: seq<byte>) {
    if r.1 == 1 && r.0.len <= |r.0.buffer| then
      match FinalPayload(r.0.buffer[..r.0.len])
      case Some(payload) => payload
      case None => []
    else []
  }

  /** The data that one byte from the wire brings: that of the frame it completes, if any. */
  function Brought(r: (C.State, int)): (data: seq<byte>)
    ensures forall c | c in data :: IsData(c)
  {
    if r.1 == 1 && r.0.len <= |r.0.buffer| then
      match FinalPayload(r.0.buffer[..r.0.len])
      case Some(payload) => DataOf(payload)
      case None => []
    else []
  }

  /** The data layers of all frames on the wire that are accepted, frame after frame. */
  ghost function WireText(s: C.State, bytes: seq<byte>, times: seq<nat>): seq<byte>
    requires |bytes| == |times|
  {
    Yield(Parser(CrcUpdate), Completed, s, bytes, times)
  }

  lemma {:induction false} BroughtIsDataOf(s: C.State, bytes: seq<byte>, times: seq<nat>)
    requires |bytes| == |times|
    ensures Yield(Parser(CrcUpdate), Brought, s, bytes, times) == DataOf(WireText(s, bytes, times))
    decreases |bytes|
  {
    if bytes != [] {
      var r := C.Step(CrcUpdate, s, bytes[0], times[0]);
      BroughtIsDataOf(r.0, bytes[1..], times[1..]);
      DataOfBoth(Completed(r), WireText(r.0, bytes[1..], times[1..]));
    }
  }

  lemma BroughtIsPlain()
    ensures BringsPlain(Brought)
  {
    forall r {:trigger Brought(r)} ensures Plain(Brought(r)) {
      assert !IsData(SERIAL_NO_DATA);
    }
  }

  /**
   The receive path of the firmware, for every interleaving of its interrupt with the main
   program: what serial_read has returned is, in order, the 7-bit characters in the data layers of the
   accepted frames that are no realtime commands, less what was counted as dropped for want of room,
   what was cleared, and what is still queued; and no character in the ring is 0xFF, the answer
   for no data.
   */
  lemma ReceivePathRefinesWire(buffer: seq<byte>, events: seq<Event>, l: Link<C.State>, h: History)
    requires Reaches(Parser(CrcUpdate), Brought, C.Init(buffer), events, l, h)
    ensures Indexed(l.ring) && |h.bytes| == |h.times|
    ensures Selects(Offered(h.chunks), WireText(C.Init(buffer), h.bytes, h.times))
    ensures Kept(h.chunks) == Characters(h.gone) + Queue(l.ring)
    ensures DataAnswers(h.answers) == ReadOnly(h.gone)
    ensures l.ring.dropped == Lost(h.chunks) % 0x1_0000
    ensures Plain(Queue(l.ring))
  {
    BroughtIsPlain();
    ReadsRefineWire(Parser(CrcUpdate), Brought, C.Init(buffer), events, l, h);
    BroughtIsDataOf(C.Init(buffer), h.bytes, h.times);
    DataOfSelects(WireText(C.Init(buffer), h.bytes, h.times));
  }
}

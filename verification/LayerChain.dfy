/** The layers inside a payload, down to the application's data. */
module LayerChain {
  import opened LinkChecksum
  import opened LlpFrame
  import C = LlpParser
  import opened LlpStream
  import opened Options
  import opened TimedStreams

  const FINAL: byte := 0
  const LONG: byte := 0xFF

  predicate IsTransform(id: byte) {
    0x80 <= id <= 0xFE
  }

  /** _llp_read_meta_len: how many bytes the length takes, none if it is cut off, and the length. */
  function MetaLen(p: seq<byte>): (r: (nat, nat))
    ensures r.0 <= |p|
  {
    if p == [] then (0, 0)
    else if p[0] < LONG then (1, p[0])
    else if |p| < 3 then (0, 0)
    else (3, Joined(p[2], p[1]))
  }

  /** The data after the final layer; nothing if the chain is cut off or may not be skipped. */
  function FinalPayload(p: seq<byte>): Option<seq<byte>>
    decreases |p|
  {
    if p == [] then None
    else if p[0] == FINAL then Some(p[1..])
    else
      var (lenBytes, metaLen) := MetaLen(p[1..]);
      var rest := p[1 + lenBytes..];
      if lenBytes == 0 || metaLen > |rest| || IsTransform(p[0]) then None
      else FinalPayload(rest[metaLen..])
  }

  /** One layer, seen from its position in the payload. */
  lemma FinalFrom(buf: seq<byte>, pos: nat)
    requires pos < |buf|
    ensures var (lenBytes, metaLen) := MetaLen(buf[pos + 1..]);
            var next := pos + 1 + lenBytes + metaLen;
            FinalPayload(buf[pos..]) ==
              if buf[pos] == FINAL then Some(buf[pos + 1..])
              else if lenBytes == 0 || next > |buf| || IsTransform(buf[pos]) then None
              else FinalPayload(buf[next..])
  {
    var p := buf[pos..];
    var (lenBytes, metaLen) := MetaLen(buf[pos + 1..]);
    assert p[1..] == buf[pos + 1..];
    assert p[1 + lenBytes..] == buf[pos + 1 + lenBytes..];
    if pos + 1 + lenBytes + metaLen <= |buf| {
      assert p[1 + lenBytes..][metaLen..] == buf[pos + 1 + lenBytes + metaLen..];
    }
  }

  /** Past the layer at `pos`, or -1 if it is cut off or may not be skipped. */
  method SkipLayer(buf: seq<byte>, pos: nat) returns (next: int)
    requires pos < |buf| && buf[pos] != FINAL
    ensures next < 0 ==> FinalPayload(buf[pos..]) == None
    ensures next >= 0 ==> pos < next <= |buf| && FinalPayload(buf[pos..]) == FinalPayload(buf[next..])
  {
    FinalFrom(buf, pos);
    var (lenBytes, metaLen) := MetaLen(buf[pos + 1..]);
    if lenBytes == 0 { return -1; }
    next := pos + 1 + lenBytes;
    if next + metaLen > |buf| || IsTransform(buf[pos]) { return -1; }
    next := next + metaLen;
  }

  /** llp_get_final_payload_ptr: the position of the data, or -1. */
  method GetFinalPayloadPtr(buf: seq<byte>) returns (start: int)
    ensures start <= |buf|
    ensures FinalPayload(buf) == if start < 0 then None else Some(buf[start..])
  {
    var pos := 0;
    assert buf[0..] == buf;
    while pos < |buf|
      invariant pos <= |buf| && FinalPayload(buf) == FinalPayload(buf[pos..])
    {
      if buf[pos] == FINAL {
        FinalFrom(buf, pos);
        return pos + 1;
      }
      var next := SkipLayer(buf, pos);
      if next < 0 { return -1; }
      pos := next;
    }
    start := -1;
  }

  datatype Layer = Layer(id: byte, meta: seq<byte>)

  /** How a sender writes a layer's metadata length. */
  function MetaBytes(n: word): seq<byte> {
    if n < LONG then [n] else [LONG, n / 0x100, n % 0x100]
  }

  predicate Skippable(l: Layer) {
    l.id != FINAL && !IsTransform(l.id) && |l.meta| < 0x1_0000
  }

  function Header(l: Layer): seq<byte>
    requires |l.meta| < 0x1_0000
  {
    [l.id] + MetaBytes(|l.meta|) + l.meta
  }

  function Chain(layers: seq<Layer>, raw: seq<byte>): seq<byte>
    requires forall l | l in layers :: Skippable(l)
    decreases |layers|
  {
    if layers == [] then [FINAL] + raw else assert layers[0] in layers && Skippable(layers[0]); Header(layers[0]) + Chain(layers[1..], raw)
  }

  lemma LayerIsSkipped(l: Layer, inner: seq<byte>)
    requires Skippable(l)
    ensures FinalPayload(Header(l) + inner) == FinalPayload(inner)
  {
    var p := Header(l) + inner;
    var n := MetaBytes(|l.meta|);
    assert p[1..] == n + (l.meta + inner);
    assert MetaLen(p[1..]) == (|n|, |l.meta|);
    assert p[1 + |n|..] == l.meta + inner;
    assert (l.meta + inner)[|l.meta|..] == inner;
  }

  /** The data comes back out of any chain of layers that may be skipped. */
  lemma {:induction false} ChainRoundTrip(layers: seq<Layer>, raw: seq<byte>)
    requires forall l | l in layers :: Skippable(l)
    ensures FinalPayload(Chain(layers, raw)) == Some(raw)
    decreases |layers|
  {
    if layers == [] {
      assert ([FINAL] + raw)[1..] == raw;
    } else {
      assert layers[0] in layers;
      ChainRoundTrip(layers[1..], raw);
      LayerIsSkipped(layers[0], Chain(layers[1..], raw));
    }
  }

  /** A transform layer in front makes the data unreachable. */
  lemma TransformIsOpaque(l: Layer, inner: seq<byte>)
    requires IsTransform(l.id) && |l.meta| < 0x1_0000
    ensures FinalPayload(Header(l) + inner) == None
  {
    assert (Header(l) + inner)[0] == l.id;
  }

  // ---------------------------------------------------------------------------
  // The Python side
  // ---------------------------------------------------------------------------

  /** LLPParser.get_final_payload: everything after the first zero byte. */
  function AfterZero(p: seq<byte>): seq<byte>
    decreases |p|
  {
    if p == [] then [] else if p[0] == FINAL then p[1..] else AfterZero(p[1..])
  }

  method GetFinalPayload(rawPayload: seq<byte>) returns (r: seq<byte>)
    ensures r == AfterZero(rawPayload)
  {
    var pos := 0;
    assert rawPayload[0..] == rawPayload;
    while pos < |rawPayload|
      invariant pos <= |rawPayload| && AfterZero(rawPayload) == AfterZero(rawPayload[pos..])
    {
      if rawPayload[pos] == FINAL {
        assert rawPayload[pos..][1..] == rawPayload[pos + 1..];
        return rawPayload[pos + 1..];
      }
      assert rawPayload[pos..][1..] == rawPayload[pos + 1..];
      pos := pos + 1;
    }
    r := [];
  }

  lemma {:induction false} NoZeroIsSkipped(h: seq<byte>, inner: seq<byte>)
    requires FINAL !in h
    ensures AfterZero(h + inner) == AfterZero(inner)
    decreases |h|
  {
    if h == [] {
      assert h + inner == inner;
    } else {
      assert (h + inner)[1..] == h[1..] + inner;
      NoZeroIsSkipped(h[1..], inner);
    }
  }

  /** A zero byte in front leaves at least everything behind it. */
  lemma {:induction false} ZeroStopsEarly(h: seq<byte>, inner: seq<byte>)
    requires FINAL in h
    ensures |AfterZero(h + inner)| >= |inner|
    decreases |h|
  {
    if h[0] != FINAL {
      assert (h + inner)[1..] == h[1..] + inner;
      assert FINAL in h[1..];
      ZeroStopsEarly(h[1..], inner);
    }
  }

  lemma {:induction false} ChainIsLonger(layers: seq<Layer>, raw: seq<byte>)
    requires forall l | l in layers :: Skippable(l)
    ensures |Chain(layers, raw)| > |raw|
    decreases |layers|
  {
    if layers != [] {
      assert layers[0] in layers;
      ChainIsLonger(layers[1..], raw);
    }
  }

  /**
   The Python side finds the data of a chain if and only if no skipped layer holds a zero byte, in its
   identifier, in its length or in its metadata.
   */
  lemma {:induction false} PythonChainExactly(layers: seq<Layer>, raw: seq<byte>)
    requires forall l | l in layers :: Skippable(l)
    ensures AfterZero(Chain(layers, raw)) == raw <==> forall l | l in layers :: FINAL !in Header(l)
    decreases |layers|
  {
    if layers == [] {
      assert ([FINAL] + raw)[1..] == raw;
    } else {
      var first, rest := layers[0], layers[1..];
      assert first in layers && layers == [first] + rest;
      if FINAL in Header(first) {
        ZeroStopsEarly(Header(first), Chain(rest, raw));
        ChainIsLonger(rest, raw);
      } else {
        PythonChainExactly(rest, raw);
        NoZeroIsSkipped(Header(first), Chain(rest, raw));
        assert forall l | l in layers :: l == first || l in rest;
      }
    }
  }

  /** The two sides return the same data for exactly those chains. */
  lemma SidesAgreeExactly(layers: seq<Layer>, raw: seq<byte>)
    requires forall l | l in layers :: Skippable(l)
    ensures FinalPayload(Chain(layers, raw)) == Some(AfterZero(Chain(layers, raw))) <==>
              forall l | l in layers :: FINAL !in Header(l)
  {
    ChainRoundTrip(layers, raw);
    PythonChainExactly(layers, raw);
  }

  /** A layer without metadata has a zero length byte, and so always hides the data from the Python side. */
  lemma EmptyLayerDiffers(id: byte, raw: seq<byte>)
    requires Skippable(Layer(id, []))
    ensures var chain := Chain([Layer(id, [])], raw);
            FinalPayload(chain) == Some(raw) && AfterZero(chain) == [FINAL] + raw
  {
    var l := Layer(id, []);
    ChainRoundTrip([l], raw);
    assert [l][1..] == [];
    var chain := Chain([l], raw);
    assert chain == [id] + ([FINAL] + ([FINAL] + raw));
    NoZeroIsSkipped([id], [FINAL] + ([FINAL] + raw));
  }

  // ---------------------------------------------------------------------------
  // End to end
  // ---------------------------------------------------------------------------

  /**
   What one side encodes, the other side decodes: a frame of `raw` in a final layer, within
   its timeouts and with no escape pending, is accepted on its last byte, and both sides then
   extract `raw` from the stored payload.
   */
  lemma EncodeDecode(s: C.State, raw: seq<byte>, times: seq<nat>)
    requires C.Valid(s) && 1 + |raw| <= |s.buffer| && !s.escapePending
    requires |times| == |Frame(CrcUpdate, [FINAL] + raw)| && Prompt(times[0] % 0x1_0000, times[1..])
    ensures var (t, codes) := Run(Parser(CrcUpdate), s, Frame(CrcUpdate, [FINAL] + raw), times);
            && codes[|codes| - 1] == 1 && t.len <= |t.buffer|
            && FinalPayload(t.buffer[..t.len]) == Some(raw) && AfterZero(t.buffer[..t.len]) == raw
  {
    var p := [FINAL] + raw;
    DeliveredExactly(CrcUpdate, s, p, times);
    var codes := Run(Parser(CrcUpdate), s, Frame(CrcUpdate, p), times).1;
    SilentUntilLast(codes[2..], 1);
    assert codes[|codes| - 1] == codes[2..][|codes| - 3];
    assert p[1..] == raw;
  }
}

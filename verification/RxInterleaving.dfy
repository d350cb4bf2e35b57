/**
 The main program reads from the receive ring while the receive interrupt writes into it. The
 interrupt may strike between any two accesses of the main program to the ring. What the
 interrupt makes of a received byte is a parameter here: any machine, and the data that its
 answers bring.
 */
module RxInterleaving {
  import opened LlpFrame
  import opened RxRing
  import opened TimedStreams

  const SERIAL_NO_DATA: byte := 0xFF

  /** Where the main program is inside serial_read or serial_reset_read_buffer. */
  datatype Reader = Idle | TailSeen(tail: nat) | Occupied(tail: nat) | Fetched(tail: nat, data: byte) | HeadSeen(head: nat)

  datatype Link<S> = Link(parser: S, ring: Ring, reader: Reader)

  datatype Event =
    | Receive(b: byte, now: nat)
    | SeeTail
    | SeeHead
    | Fetch
    | Advance
    | SeeHeadToClear
    | Clear

  type Bring<!S> = ((S, int)) -> seq<byte>

  predicate Enabled<S>(l: Link<S>, e: Event) {
    match e
    case Receive(_, _) => true
    case SeeTail => l.reader.Idle?
    case SeeHead => l.reader.TailSeen?
    case Fetch => l.reader.Occupied?
    case Advance => l.reader.Fetched?
    case SeeHeadToClear => l.reader.Idle?
    case Clear => l.reader.HeadSeen?
  }

  /** One receive interrupt's data, and the room in the ring when it arrived. */
  datatype Chunk = Chunk(data: seq<byte>, room: nat)

  /** A character that has left the ring: returned by serial_read, or cleared. */
  datatype Gone = Gone(c: byte, read: bool)

  /** What has happened so far: bytes received, data offered, characters gone, answers of serial_read. */
  datatype History = History(bytes: seq<byte>, times: seq<nat>, chunks: seq<Chunk>, gone: seq<Gone>, answers: seq<byte>)

  /** The characters of `q` up to index `head` of the ring. */
  function Before(r: Ring, head: nat): (k: nat)
    requires Indexed(r)
    ensures k <= |Queue(r)|
  {
    var k := Count(r.(head := if head < RX_RING_BUFFER then head else 0));
    if k <= |Queue(r)| then k else 0
  }

  function Cleared(q: seq<byte>, k: nat): (gone: seq<Gone>)
    requires k <= |q|
    ensures |gone| == k
  {
    seq(k, i requires 0 <= i < k => Gone(q[i], false))
  }

  /** The link after an interrupt in which the parser answered `r` and the ring became `w`. */
  function AfterInterrupt<S>(bring: Bring<S>, l: Link<S>, h: History, b: byte, now: nat, r: (S, int), w: Ring): (Link<S>, History)
    requires Indexed(l.ring)
  {
    (l.(parser := r.0, ring := w),
     h.(bytes := h.bytes + [b], times := h.times + [now],
        chunks := h.chunks + [Chunk(bring(r), RX_RING_BUFFER - 1 - |Queue(l.ring)|)]))
  }

  /** The receive interrupt. */
  function Interrupted<S>(step: Machine<S>, bring: Bring<S>, l: Link<S>, h: History, b: byte, now: nat): (Link<S>, History)
    requires Indexed(l.ring)
  {
    var r := step(l.parser, b, now);
    AfterInterrupt(bring, l, h, b, now, r, WriteAll(l.ring, bring(r)))
  }

  /** One access of the main program to the ring, or one whole receive interrupt. */
  function Next<S>(step: Machine<S>, bring: Bring<S>, l: Link<S>, h: History, e: Event): (Link<S>, History)
    requires Enabled(l, e) && Indexed(l.ring) && ReaderOk(l.ring, l.reader)
  {
    match e
    case Receive(b, now) => Interrupted(step, bring, l, h, b, now)
    case SeeTail => (l.(reader := TailSeen(l.ring.tail)), h)
    case SeeHead =>
      if l.ring.head == l.reader.tail then (l.(reader := Idle), h.(answers := h.answers + [SERIAL_NO_DATA]))
      else (l.(reader := Occupied(l.reader.tail)), h)
    case Fetch => (l.(reader := Fetched(l.reader.tail, l.ring.buffer[l.reader.tail])), h)
    case Advance =>
      (l.(ring := l.ring.(tail := NextIndex(l.reader.tail)), reader := Idle),
       h.(answers := h.answers + [l.reader.data], gone := h.gone + [Gone(l.reader.data, true)]))
    case SeeHeadToClear => (l.(reader := HeadSeen(l.ring.head)), h)
    case Clear =>
      (l.(ring := l.ring.(tail := l.reader.head), reader := Idle),
       h.(gone := h.gone + Cleared(Queue(l.ring), Before(l.ring, l.reader.head))))
  }

  // ---------------------------------------------------------------------------
  // The invariant
  // ---------------------------------------------------------------------------

  /** What the main program has seen of the ring stays true whatever the interrupt does meanwhile. */
  predicate ReaderOk(r: Ring, reader: Reader)
    requires Indexed(r)
  {
    match reader
    case Idle => true
    case TailSeen(tail) => tail == r.tail
    case Occupied(tail) => tail == r.tail && Queue(r) != []
    case Fetched(tail, data) => tail == r.tail && Queue(r) != [] && data == Queue(r)[0]
    case HeadSeen(head) => head < RX_RING_BUFFER && Before(r, head) == Count(r.(head := head))
  }

  ghost function Offered(chunks: seq<Chunk>): seq<byte>
    decreases |chunks|
  {
    if chunks == [] then [] else Offered(chunks[..|chunks| - 1]) + chunks[|chunks| - 1].data
  }

  ghost function Kept(chunks: seq<Chunk>): seq<byte>
    decreases |chunks|
  {
    if chunks == [] then []
    else var last := chunks[|chunks| - 1]; Kept(chunks[..|chunks| - 1]) + Fitting(last.data, last.room)
  }

  ghost function Lost(chunks: seq<Chunk>): (n: nat)
    decreases |chunks|
  {
    if chunks == [] then 0
    else
      var last := chunks[|chunks| - 1];
      Lost(chunks[..|chunks| - 1]) + |last.data| - |Fitting(last.data, last.room)|
  }

  ghost function Characters(gone: seq<Gone>): (r: seq<byte>)
    ensures |r| == |gone|
  {
    seq(|gone|, i requires 0 <= i < |gone| => gone[i].c)
  }

  ghost function ReadOnly(gone: seq<Gone>): seq<byte>
    decreases |gone|
  {
    if gone == [] then []
    else ReadOnly(gone[..|gone| - 1]) + (if gone[|gone| - 1].read then [gone[|gone| - 1].c] else [])
  }

  /** The answers of serial_read that are not "no data". */
  ghost function DataAnswers(answers: seq<byte>): seq<byte>
    decreases |answers|
  {
    if answers == [] then []
    else
      var last := answers[|answers| - 1];
      DataAnswers(answers[..|answers| - 1]) + (if last != SERIAL_NO_DATA then [last] else [])
  }

  /** What has been offered is exactly what came over the wire. */
  ghost predicate WireOk<S>(step: Machine<S>, bring: Bring<S>, s: S, l: Link<S>, h: History) {
    && |h.bytes| == |h.times|
    && l.parser == Run(step, s, h.bytes, h.times).0
    && Offered(h.chunks) == Yield(step, bring, s, h.bytes, h.times)
  }

  /** What was kept has left the ring or is still in it, in order, and the rest is counted. */
  ghost predicate RingOk(r: Ring, h: History)
    requires Indexed(r)
  {
    Kept(h.chunks) == Characters(h.gone) + Queue(r) && r.dropped == Lost(h.chunks) % 0x1_0000
  }

  ghost predicate AnswersOk(h: History) {
    DataAnswers(h.answers) == ReadOnly(h.gone)
  }

  /** No character in the ring can be mistaken for "no data". */
  ghost predicate Plain(cs: seq<byte>) {
    SERIAL_NO_DATA !in cs
  }

  ghost predicate Inv<S>(step: Machine<S>, bring: Bring<S>, s: S, l: Link<S>, h: History) {
    && Indexed(l.ring) && ReaderOk(l.ring, l.reader) && Plain(Queue(l.ring))
    && WireOk(step, bring, s, l, h) && RingOk(l.ring, h) && AnswersOk(h)
  }

  lemma ReceiveKeepsReader(r: Ring, w: Ring, reader: Reader)
    requires Indexed(r) && ReaderOk(r, reader) && Indexed(w) && w.tail == r.tail && Queue(r) <= Queue(w)
    ensures ReaderOk(w, reader)
  {
  }

  lemma ChunkCounts(chunks: seq<Chunk>, c: Chunk)
    ensures Offered(chunks + [c]) == Offered(chunks) + c.data
    ensures Kept(chunks + [c]) == Kept(chunks) + Fitting(c.data, c.room)
    ensures Lost(chunks + [c]) == Lost(chunks) + |c.data| - |Fitting(c.data, c.room)|
  {
    assert (chunks + [c])[..|chunks|] == chunks;
  }

  lemma LostWraps(dropped: word, lost: nat, n: nat)
    requires dropped == lost % 0x1_0000
    ensures (dropped + n) % 0x1_0000 == (lost + n) % 0x1_0000
  {
  }

  /** `w` is the ring `r` after the data of one interrupt. */
  ghost predicate Received(r: Ring, w: Ring, data: seq<byte>)
    requires Indexed(r)
  {
    var fitting := Fitting(data, RX_RING_BUFFER - 1 - |Queue(r)|);
    && Indexed(w) && w.tail == r.tail && Queue(w) == Queue(r) + fitting
    && w.dropped == (r.dropped + |data| - |fitting|) % 0x1_0000
  }

  lemma ReceiveKeepsRing(r: Ring, w: Ring, h: History, data: seq<byte>)
    requires Indexed(r) && RingOk(r, h) && Received(r, w, data)
    ensures var chunk := Chunk(data, RX_RING_BUFFER - 1 - |Queue(r)|);
            RingOk(w, h.(chunks := h.chunks + [chunk]))
  {
    var fitting := Fitting(data, RX_RING_BUFFER - 1 - |Queue(r)|);
    ChunkCounts(h.chunks, Chunk(data, RX_RING_BUFFER - 1 - |Queue(r)|));
    LostWraps(r.dropped, Lost(h.chunks), |data| - |fitting|);
    Extend(Kept(h.chunks), Characters(h.gone), Queue(r), fitting);
  }

  lemma Extend(kept: seq<byte>, chars: seq<byte>, q: seq<byte>, x: seq<byte>)
    requires kept == chars + q
    ensures kept + x == chars + (q + x)
  {
  }

  lemma ReceivedKeepsInv<S>(step: Machine<S>, bring: Bring<S>, s: S, l: Link<S>, h: History, b: byte, now: nat, w: Ring)
    requires Inv(step, bring, s, l, h) && Plain(bring(step(l.parser, b, now)))
    requires Received(l.ring, w, bring(step(l.parser, b, now)))
    ensures var n := AfterInterrupt(bring, l, h, b, now, step(l.parser, b, now), w); Inv(step, bring, s, n.0, n.1)
  {
    var data := bring(step(l.parser, b, now));
    ReceiveKeepsRing(l.ring, w, h, data);
    ReceiveKeepsReader(l.ring, w, l.reader);
    ChunkCounts(h.chunks, Chunk(data, RX_RING_BUFFER - 1 - |Queue(l.ring)|));
    YieldGrows(step, bring, s, h.bytes, h.times, b, now);
  }

  lemma WriteIsReceived(r: Ring, data: seq<byte>)
    requires Indexed(r)
    ensures Received(r, WriteAll(r, data), data)
  {
    WriteAllFits(r, data);
  }

  lemma ReceiveKeepsInv<S>(step: Machine<S>, bring: Bring<S>, s: S, l: Link<S>, h: History, b: byte, now: nat)
    requires Inv(step, bring, s, l, h) && Plain(bring(step(l.parser, b, now)))
    ensures var n := Interrupted(step, bring, l, h, b, now); Inv(step, bring, s, n.0, n.1)
  {
    var data := bring(step(l.parser, b, now));
    WriteIsReceived(l.ring, data);
    ReceivedKeepsInv(step, bring, s, l, h, b, now, WriteAll(l.ring, data));
  }

  lemma OneGone(gone: seq<Gone>, g: Gone)
    ensures Characters(gone + [g]) == Characters(gone) + [g.c]
    ensures ReadOnly(gone + [g]) == ReadOnly(gone) + (if g.read then [g.c] else [])
  {
    assert (gone + [g])[..|gone|] == gone;
  }

  lemma OneAnswer(answers: seq<byte>, a: byte)
    ensures DataAnswers(answers + [a]) == DataAnswers(answers) + (if a != SERIAL_NO_DATA then [a] else [])
  {
    assert (answers + [a])[..|answers|] == answers;
  }

  lemma ClearedOne(gone: seq<Gone>, q: seq<byte>, k: nat)
    requires 0 < k <= |q|
    ensures gone + Cleared(q, k) == (gone + Cleared(q, k - 1)) + [Gone(q[k - 1], false)]
  {
  }

  lemma {:induction false} ClearedIsNotRead(gone: seq<Gone>, q: seq<byte>, k: nat)
    requires k <= |q|
    ensures Characters(gone + Cleared(q, k)) == Characters(gone) + q[..k]
    ensures ReadOnly(gone + Cleared(q, k)) == ReadOnly(gone)
    decreases k
  {
    if k == 0 {
      assert gone + Cleared(q, k) == gone;
    } else {
      ClearedIsNotRead(gone, q, k - 1);
      ClearedOne(gone, q, k);
      OneGone(gone + Cleared(q, k - 1), Gone(q[k - 1], false));
      assert q[..k] == q[..k - 1] + [q[k - 1]];
    }
  }

  lemma Handover(kept: seq<byte>, chars: seq<byte>, q: seq<byte>, k: nat)
    requires kept == chars + q && k <= |q|
    ensures kept == (chars + q[..k]) + q[k..]
  {
  }

  /** The ring `t` is `r` without its `k` oldest characters, which are now in `gone`. */
  lemma GoneKeepsRing(r: Ring, t: Ring, h: History, gone: seq<Gone>, k: nat)
    requires Indexed(r) && RingOk(r, h) && Plain(Queue(r)) && Indexed(t) && t.dropped == r.dropped
    requires k <= |Queue(r)| && Queue(t) == Queue(r)[k..] && Characters(gone) == Characters(h.gone) + Queue(r)[..k]
    ensures Plain(Queue(t)) && RingOk(t, h.(gone := gone))
  {
    Handover(Kept(h.chunks), Characters(h.gone), Queue(r), k);
  }

  lemma AdvanceKeepsRing(r: Ring, h: History)
    requires Indexed(r) && RingOk(r, h) && Queue(r) != [] && Plain(Queue(r))
    ensures var t := r.(tail := NextIndex(r.tail));
            && Indexed(t) && Plain(Queue(t)) && Queue(r)[0] != SERIAL_NO_DATA
            && RingOk(t, h.(gone := h.gone + [Gone(Queue(r)[0], true)]))
  {
    TakeOne(r);
    var q := Queue(r);
    assert q[0] in q && q[..1] == [q[0]];
    OneGone(h.gone, Gone(q[0], true));
    GoneKeepsRing(r, r.(tail := NextIndex(r.tail)), h, h.gone + [Gone(q[0], true)], 1);
  }

  lemma BeforeIsSlot(r: Ring, head: nat)
    requires Indexed(r) && head < RX_RING_BUFFER && Before(r, head) == Count(r.(head := head))
    ensures head == Slot(r.tail, Before(r, head))
  {
    HeadIsSlot(r.(head := head));
  }

  lemma ClearKeepsRing(r: Ring, h: History, head: nat)
    requires Indexed(r) && RingOk(r, h) && Plain(Queue(r))
    requires head < RX_RING_BUFFER && Before(r, head) == Count(r.(head := head))
    ensures var t := r.(tail := head);
            && Indexed(t) && Plain(Queue(t))
            && RingOk(t, h.(gone := h.gone + Cleared(Queue(r), Before(r, head))))
  {
    var k := Before(r, head);
    BeforeIsSlot(r, head);
    TakeMany(r, k);
    ClearedIsNotRead(h.gone, Queue(r), k);
    GoneKeepsRing(r, r.(tail := head), h, h.gone + Cleared(Queue(r), k), k);
  }

  lemma NextKeepsInv<S>(step: Machine<S>, bring: Bring<S>, s: S, l: Link<S>, h: History, e: Event)
    requires Inv(step, bring, s, l, h) && Enabled(l, e)
    requires e.Receive? ==> Plain(bring(step(l.parser, e.b, e.now)))
    ensures var n := Next(step, bring, l, h, e); Inv(step, bring, s, n.0, n.1)
  {
    match e
    case Receive(b, now) => ReceiveKeepsInv(step, bring, s, l, h, b, now);
    case SeeTail =>
    case SeeHead =>
      OneAnswer(h.answers, SERIAL_NO_DATA);
    case Fetch => TakeOne(l.ring);
    case Advance =>
      AdvanceKeepsRing(l.ring, h);
      OneAnswer(h.answers, l.reader.data);
      OneGone(h.gone, Gone(l.reader.data, true));
    case SeeHeadToClear =>
    case Clear =>
      ClearKeepsRing(l.ring, h, l.reader.head);
      ClearedIsNotRead(h.gone, Queue(l.ring), Before(l.ring, l.reader.head));
  }

  // ---------------------------------------------------------------------------
  // Runs
  // ---------------------------------------------------------------------------

  ghost predicate Reaches<S(!new)>(step: Machine<S>, bring: Bring<S>, s: S, events: seq<Event>, l: Link<S>, h: History)
    decreases |events|
  {
    if events == [] then
      Indexed(l.ring) && Queue(l.ring) == [] && l.ring.dropped == 0 && l.reader.Idle? && l.parser == s
      && h == History([], [], [], [], [])
    else
      var n := |events| - 1;
      exists t, g {:trigger Reaches(step, bring, s, events[..n], t, g)} ::
        && Reaches(step, bring, s, events[..n], t, g)
        && Enabled(t, events[n]) && Indexed(t.ring) && ReaderOk(t.ring, t.reader)
        && (l, h) == Next(step, bring, t, g, events[n])
  }

  /** No answer of the parser brings a character that is the "no data" code. */
  ghost predicate BringsPlain<S(!new)>(bring: Bring<S>) {
    forall r {:trigger bring(r)} :: Plain(bring(r))
  }

  lemma {:induction false} ReachableInv<S(!new)>(step: Machine<S>, bring: Bring<S>, s: S, events: seq<Event>, l: Link<S>, h: History)
    requires BringsPlain(bring) && Reaches(step, bring, s, events, l, h)
    ensures Inv(step, bring, s, l, h)
    decreases |events|
  {
    if events != [] {
      var n := |events| - 1;
      var t, g :| && Reaches(step, bring, s, events[..n], t, g)
                  && Enabled(t, events[n]) && Indexed(t.ring) && ReaderOk(t.ring, t.reader)
                  && (l, h) == Next(step, bring, t, g, events[n]);
      ReachableInv(step, bring, s, events[..n], t, g);
      NextKeepsInv(step, bring, s, t, g, events[n]);
    }
  }

  /**
   For every interleaving: the data that serial_read has returned is, in order, what was kept
   of the data on the wire less what was cleared and what is still queued; of each interrupt's
   data the part that fitted was kept and the rest counted as dropped.
   */
  lemma ReadsRefineWire<S(!new)>(step: Machine<S>, bring: Bring<S>, s: S, events: seq<Event>, l: Link<S>, h: History)
    requires BringsPlain(bring) && Reaches(step, bring, s, events, l, h)
    ensures Indexed(l.ring) && |h.bytes| == |h.times|
    ensures Offered(h.chunks) == Yield(step, bring, s, h.bytes, h.times)
    ensures Kept(h.chunks) == Characters(h.gone) + Queue(l.ring)
    ensures DataAnswers(h.answers) == ReadOnly(h.gone)
    ensures l.ring.dropped == Lost(h.chunks) % 0x1_0000
    ensures Plain(Queue(l.ring))
  {
    ReachableInv(step, bring, s, events, l, h);
  }

  /** serial_read answers "no data" exactly when the ring is empty as it looks at the head. */
  lemma NoDataMeansEmpty<S(!new)>(step: Machine<S>, bring: Bring<S>, s: S, events: seq<Event>, l: Link<S>, h: History)
    requires BringsPlain(bring) && Reaches(step, bring, s, events, l, h)
    requires l.reader.TailSeen? || l.reader.Fetched?
    ensures Indexed(l.ring) && ReaderOk(l.ring, l.reader)
    ensures l.reader.TailSeen? ==>
              (Next(step, bring, l, h, SeeHead).1 == h.(answers := h.answers + [SERIAL_NO_DATA]) <==> Queue(l.ring) == [])
    ensures l.reader.Fetched? ==>
              Queue(l.ring) != [] && l.reader.data == Queue(l.ring)[0] != SERIAL_NO_DATA
  {
    ReachableInv(step, bring, s, events, l, h);
    if l.reader.Fetched? {
      assert Queue(l.ring)[0] in Queue(l.ring);
    } else {
      assert h.answers + [SERIAL_NO_DATA] != h.answers;
    }
  }
}

/** The receive ring of serial.c and llp_transport.c. */
module RxRing {
  import opened LlpFrame
  import Rings

  const RX_RING_BUFFER := 81

  datatype Ring = Ring(buffer: seq<byte>, head: nat, tail: nat, dropped: word)

  predicate Indexed(r: Ring) {
    |r.buffer| == RX_RING_BUFFER && r.head < RX_RING_BUFFER && r.tail < RX_RING_BUFFER
  }

  function NextIndex(i: nat): nat
    requires i < RX_RING_BUFFER
  {
    Rings.Successor(i, RX_RING_BUFFER)
  }

  function Count(r: Ring): (n: nat)
    requires Indexed(r)
    ensures n < RX_RING_BUFFER
  {
    Rings.Gap(r.tail, r.head, RX_RING_BUFFER)
  }

  function Slot(tail: nat, k: nat): nat
    requires tail < RX_RING_BUFFER && k <= RX_RING_BUFFER
  {
    Rings.Place(tail, k, RX_RING_BUFFER)
  }

  /** The characters in the ring, oldest first. */
  function Queue(r: Ring): (q: seq<byte>)
    requires Indexed(r)
    ensures |q| == Count(r) && forall k: nat {:trigger q[k]} :: k < |q| ==> q[k] == r.buffer[Slot(r.tail, k)]
  {
    seq(Count(r), k requires 0 <= k < Count(r) => r.buffer[Slot(r.tail, k)])
  }

  /** llp_rx_buffer_write: a character that does not fit is counted. */
  function Write(r: Ring, c: byte): (w: Ring)
    requires Indexed(r)
    ensures Indexed(w) && w.tail == r.tail
    ensures Queue(w) == if |Queue(r)| < RX_RING_BUFFER - 1 then Queue(r) + [c] else Queue(r)
    ensures w.dropped == if |Queue(r)| < RX_RING_BUFFER - 1 then r.dropped else (r.dropped + 1) % 0x1_0000
  {
    var next := NextIndex(r.head);
    if next != r.tail then r.(buffer := r.buffer[r.head := c], head := next)
    else r.(dropped := (r.dropped + 1) % 0x1_0000)
  }

  function WriteAll(r: Ring, data: seq<byte>): (w: Ring)
    requires Indexed(r)
    ensures Indexed(w) && w.tail == r.tail
    decreases |data|
  {
    if data == [] then r else WriteAll(Write(r, data[0]), data[1..])
  }

  /** The characters of `data` that fit, and how many do not, when `room` is left. */
  function Fitting(data: seq<byte>, room: nat): seq<byte> {
    if |data| <= room then data else data[..room]
  }

  /** Queue `q` and counter `dropped` become `u` and `count` when `data` is written. */
  predicate Fills(q: seq<byte>, dropped: word, data: seq<byte>, u: seq<byte>, count: word)
    requires |q| < RX_RING_BUFFER
  {
    var fitting := Fitting(data, RX_RING_BUFFER - 1 - |q|);
    u == q + fitting && count == (dropped + |data| - |fitting|) % 0x1_0000
  }

  /** Writing one character and then the rest of a burst is writing the burst, on queue and counter. */
  lemma FillStep(q: seq<byte>, dropped: word, data: seq<byte>, next: seq<byte>, count: word, u: seq<byte>, total: word)
    requires |q| < RX_RING_BUFFER && |next| < RX_RING_BUFFER && data != []
    requires next == if |q| < RX_RING_BUFFER - 1 then q + [data[0]] else q
    requires count == if |q| < RX_RING_BUFFER - 1 then dropped else (dropped + 1) % 0x1_0000
    requires Fills(next, count, data[1..], u, total)
    ensures Fills(q, dropped, data, u, total)
  {
    var room := RX_RING_BUFFER - 1 - |q|;
    if room > 0 {
      assert Fitting(data, room) == [data[0]] + Fitting(data[1..], room - 1);
      assert (q + [data[0]]) + Fitting(data[1..], room - 1) == q + Fitting(data, room);
    } else {
      assert Fitting(data, 0) == [] == Fitting(data[1..], 0);
    }
  }

  /** A burst of data fills the ring and is dropped from there on, every character counted. */
  lemma {:induction false} WriteAllFits(r: Ring, data: seq<byte>)
    requires Indexed(r)
    ensures var w := WriteAll(r, data); Fills(Queue(r), r.dropped, data, Queue(w), w.dropped)
    decreases |data|
  {
    if data == [] {
      assert Queue(r) + [] == Queue(r);
    } else {
      var next, w := Write(r, data[0]), WriteAll(r, data);
      WriteAllFits(next, data[1..]);
      FillStep(Queue(r), r.dropped, data, Queue(next), next.dropped, Queue(w), w.dropped);
    }
  }

  lemma FillsEmpty(q: seq<byte>, dropped: word, data: seq<byte>, u: seq<byte>, count: word)
    requires q == [] && Fills(q, dropped, data, u, count)
    ensures TakesEighty(dropped, data, u, count)
  {
    assert [] + Fitting(data, 80) == Fitting(data, 80);
  }

  /** What an empty ring takes of a burst. */
  predicate TakesEighty(dropped: word, data: seq<byte>, u: seq<byte>, count: word) {
    && u == (if |data| <= 80 then data else data[..80])
    && count == (dropped + if |data| <= 80 then 0 else |data| - 80) % 0x1_0000
  }

  /** An empty ring takes 80 characters. */
  lemma EmptyRingTakesEighty(r: Ring, data: seq<byte>)
    requires Indexed(r) && r.head == r.tail
    ensures var w := WriteAll(r, data); TakesEighty(r.dropped, data, Queue(w), w.dropped)
  {
    var w := WriteAll(r, data);
    WriteAllFits(r, data);
    FillsEmpty(Queue(r), r.dropped, data, Queue(w), w.dropped);
  }

  /** serial_read, when the ring is not empty. */
  lemma TakeOne(r: Ring)
    requires Indexed(r) && Count(r) > 0
    ensures var t := r.(tail := NextIndex(r.tail));
            Indexed(t) && Queue(t) == Queue(r)[1..] && Queue(r)[0] == r.buffer[r.tail]
  {
  }

  /** Moving the tail up to an index where the head has been forgets the characters before it. */
  lemma TakeMany(r: Ring, k: nat)
    requires Indexed(r) && k <= Count(r)
    ensures var t := r.(tail := Slot(r.tail, k));
            Indexed(t) && Queue(t) == Queue(r)[k..]
  {
  }

  lemma HeadIsSlot(r: Ring)
    requires Indexed(r)
    ensures r.head == Slot(r.tail, Count(r))
  {
  }

  /** serial_rx_buffer and its indices, in place. */
  class SerialRx {
    const rxBuffer: array<byte>
    var head: nat
    var tail: nat
    var dropped: word

    constructor ()
      ensures Indexed(View()) && Queue(View()) == [] && dropped == 0 && fresh(rxBuffer)
    {
      rxBuffer := new byte[RX_RING_BUFFER](_ => 0);
      head, tail, dropped := 0, 0, 0;
    }

    function View(): Ring
      reads this, rxBuffer
    {
      Ring(rxBuffer[..], head, tail, dropped)
    }

    /** llp_rx_buffer_write. */
    method RxBufferWrite(data: byte)
      requires Indexed(View())
      modifies this`head, this`dropped, rxBuffer
      ensures View() == Write(old(View()), data)
    {
      var nextHead := head + 1;
      if nextHead == RX_RING_BUFFER { nextHead := 0; }
      if nextHead != tail {
        rxBuffer[head] := data;
        head := nextHead;
      } else {
        dropped := (dropped + 1) % 0x1_0000;
      }
    }

    /** serial_read: 0xFF if there is nothing, and only then unless 0xFF is in the ring; otherwise the oldest character. */
    method SerialRead() returns (data: byte)
      requires Indexed(View())
      modifies this`tail
      ensures Indexed(View()) && dropped == old(dropped)
      ensures old(Queue(View())) == [] ==> data == 0xFF && Queue(View()) == []
      ensures old(Queue(View())) != [] ==> [data] + Queue(View()) == old(Queue(View()))
      ensures 0xFF !in old(Queue(View())) ==> (data == 0xFF <==> old(Queue(View())) == [])
    {
      if head == tail { return 0xFF; }
      TakeOne(View());
      data := rxBuffer[tail];
      assert data in Queue(View());
      tail := NextIndex(tail);
    }

    /** serial_get_rx_buffer_available. */
    function SerialGetRxBufferAvailable(): (n: nat)
      reads this, rxBuffer
      requires Indexed(View())
      ensures n == RX_RING_BUFFER - 1 - |Queue(View())|
    {
      if head >= tail then RX_RING_BUFFER - 1 - (head - tail) else tail - head - 1
    }

    /** serial_reset_read_buffer. */
    method SerialResetReadBuffer()
      requires Indexed(View())
      modifies this`tail
      ensures Indexed(View()) && Queue(View()) == []
    {
      tail := head;
    }
  }
}

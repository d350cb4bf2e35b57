/** The transmit path: the bytes of a report line are collected and sent as one frame. */
module TransmitPath {
  import opened LinkChecksum
  import opened LlpFirmware
  import opened LlpFrame

  const LLP_MAX_PAYLOAD := 64
  const LLP_TX_LINE_BUF_SIZE := 64
  const NEWLINE: byte := 10

  /** The line buffer and the chunks that have been sent, each as one frame. */
  datatype Tx = Tx(line: seq<byte>, sent: seq<seq<byte>>)

  /** llp_transport_tx_flush. A chunk whose payload would be too long is not sent. */
  function Flush(t: Tx): Tx {
    Tx([], if t.line == [] || 1 + |t.line| > LLP_MAX_PAYLOAD then t.sent else t.sent + [t.line])
  }

  /** llp_transport_tx_byte. */
  function Put(t: Tx, b: byte): Tx {
    var line := if |t.line| < LLP_TX_LINE_BUF_SIZE then t.line + [b] else t.line;
    if b == NEWLINE || |line| >= LLP_TX_LINE_BUF_SIZE then Flush(t.(line := line)) else t.(line := line)
  }

  function PutAll(t: Tx, x: seq<byte>): Tx
    decreases |x|
  {
    if x == [] then t else PutAll(Put(t, x[0]), x[1..])
  }

  /** The data of the chunks sent. */
  function Data(sent: seq<seq<byte>>): seq<byte>
    decreases |sent|
  {
    if sent == [] then [] else Data(sent[..|sent| - 1]) + sent[|sent| - 1]
  }

  /** Every line of `x`, newline included, fits into one payload when `k` bytes of the first are there already. */
  predicate Short(x: seq<byte>, k: nat)
    decreases |x|
  {
    x == [] || (k + 1 < LLP_MAX_PAYLOAD && Short(x[1..], if x[0] == NEWLINE then 0 else k + 1))
  }

  lemma DataOfOneMore(sent: seq<seq<byte>>, chunk: seq<byte>)
    ensures Data(sent + [chunk]) == Data(sent) + chunk
  {
    assert (sent + [chunk])[..|sent|] == sent;
  }

  /** One byte is in the line or sent, unless it fills the line buffer: then 64 bytes are lost. */
  lemma PutOne(t: Tx, b: byte)
    requires |t.line| < LLP_TX_LINE_BUF_SIZE
    ensures var u := Put(t, b);
            && |u.line| < LLP_TX_LINE_BUF_SIZE
            && (|t.line| + 1 < LLP_TX_LINE_BUF_SIZE ==>
                  && Data(u.sent) + u.line == Data(t.sent) + t.line + [b]
                  && |u.line| == if b == NEWLINE then 0 else |t.line| + 1)
            && (|t.line| + 1 == LLP_TX_LINE_BUF_SIZE ==> u == Tx([], t.sent))
  {
    DataOfOneMore(t.sent, t.line + [b]);
    var u := Put(t, b);
    if |t.line| + 1 < LLP_TX_LINE_BUF_SIZE {
      assert (Data(t.sent) + t.line) + [b] == Data(t.sent) + (t.line + [b]);
      assert u.line == [] ==> Data(u.sent) + u.line == Data(u.sent);
    }
  }

  lemma {:induction false} NothingGrows(t: Tx, x: seq<byte>)
    requires |t.line| < LLP_TX_LINE_BUF_SIZE
    ensures var u := PutAll(t, x); |Data(u.sent)| + |u.line| <= |Data(t.sent)| + |t.line| + |x|
    decreases |x|
  {
    if x != [] {
      PutOne(t, x[0]);
      NothingGrows(Put(t, x[0]), x[1..]);
      assert |Data(Put(t, x[0]).sent) + Put(t, x[0]).line| == |Data(Put(t, x[0]).sent)| + |Put(t, x[0]).line|;
    }
  }

  /**
   Exactly which streams get through: everything written is sent or still in the line buffer
   if and only if no line, its newline included, is longer than 63 bytes.
   */
  lemma {:induction false} NothingLostExactly(t: Tx, x: seq<byte>)
    requires |t.line| < LLP_TX_LINE_BUF_SIZE
    ensures var u := PutAll(t, x);
            Data(u.sent) + u.line == Data(t.sent) + t.line + x <==> Short(x, |t.line|)
    decreases |x|
  {
    if x == [] {
      assert Data(t.sent) + t.line + x == Data(t.sent) + t.line;
    } else {
      PutOne(t, x[0]);
      var v := Put(t, x[0]);
      if |t.line| + 1 < LLP_TX_LINE_BUF_SIZE {
        NothingLostExactly(v, x[1..]);
        assert Data(t.sent) + t.line + x == (Data(v.sent) + v.line) + x[1..];
      } else {
        NothingGrows(v, x[1..]);
        var u := PutAll(t, x);
        assert |Data(u.sent) + u.line| < |Data(t.sent) + t.line + x|;
      }
    }
  }

  lemma {:induction false} Collected(t: Tx, x: seq<byte>)
    requires 10 !in x && |t.line| + |x| <= 63
    ensures PutAll(t, x) == t.(line := t.line + x)
    decreases |x|
  {
    if x == [] {
      assert t.line + x == t.line;
    } else {
      assert t.line + [x[0]] + x[1..] == t.line + x;
      Collected(Put(t, x[0]), x[1..]);
    }
  }

  lemma {:induction false} PutAllBoth(t: Tx, x: seq<byte>, y: seq<byte>)
    ensures PutAll(t, x + y) == PutAll(PutAll(t, x), y)
    decreases |x|
  {
    if x == [] {
      assert x + y == y;
    } else {
      assert (x + y)[1..] == x[1..] + y;
      PutAllBoth(Put(t, x[0]), x[1..], y);
    }
  }

  /** A line of up to 62 bytes is sent with its newline, as one chunk; one of 63 bytes is lost with its newline. */
  lemma LineInNumbers(sent: seq<seq<byte>>, line: seq<byte>)
    requires 10 !in line && |line| <= 63
    ensures PutAll(Tx([], sent), line + [10]) == Tx([], if |line| <= 62 then sent + [line + [10]] else sent)
  {
    PutAllBoth(Tx([], sent), line, [10]);
    Collected(Tx([], sent), line);
    assert [] + line == line;
    assert [10][1..] == [];
    var t := Tx(line, sent);
    assert PutAll(t, [10]) == PutAll(Put(t, 10), []);
  }

  /** llp_tx_line_buf and its index, in place. */
  class TxLine {
    const lineBuf: array<byte>
    const payloadBuf: array<byte>
    const frameBuf: array<byte>
    var lineIdx: nat
    ghost var sent: seq<seq<byte>>

    constructor ()
      ensures Valid() && View() == Tx([], [])
      ensures fresh(lineBuf) && fresh(payloadBuf) && fresh(frameBuf)
    {
      lineBuf := new byte[LLP_TX_LINE_BUF_SIZE](_ => 0);
      payloadBuf := new byte[LLP_MAX_PAYLOAD](_ => 0);
      frameBuf := new byte[2 + 4 + 2 * LLP_MAX_PAYLOAD + 4](_ => 0);
      lineIdx, sent := 0, [];
    }

    ghost predicate Valid()
      reads this
    {
      && lineBuf.Length == LLP_TX_LINE_BUF_SIZE && payloadBuf.Length == LLP_MAX_PAYLOAD
      && frameBuf.Length == 2 + 4 + 2 * LLP_MAX_PAYLOAD + 4
      && lineBuf != payloadBuf && lineBuf != frameBuf && payloadBuf != frameBuf
      && lineIdx <= LLP_TX_LINE_BUF_SIZE
    }

    ghost function View(): Tx
      reads this, lineBuf
      requires Valid()
    {
      Tx(lineBuf[..lineIdx], sent)
    }

    /** llp_transport_tx_flush: the bytes that go to the transmit ring. */
    method TxFlush() returns (wire: seq<byte>)
      requires Valid()
      modifies this`lineIdx, this`sent, payloadBuf, frameBuf
      ensures Valid() && View() == Flush(old(View()))
      ensures wire == if sent == old(sent) then [] else Frame(CrcUpdate, [0] + sent[|sent| - 1])
    {
      var idx := lineIdx;
      if idx == 0 {
        assert View().line == [];
        return [];
      }
      var line := lineBuf[..idx];
      lineIdx := 0;
      assert lineBuf[..0] == [];
      var payloadLen := BuildFinalPayload(payloadBuf, line);
      if payloadLen == 0 { return []; }
      var frameLen := BuildFrame(frameBuf, payloadBuf[..payloadLen], LLP_MAX_PAYLOAD);
      if frameLen == 0 {
        assert false;
        return [];
      }
      sent := sent + [line];
      wire := frameBuf[..frameLen];
    }

    /** llp_transport_tx_byte. */
    method TxByte(b: byte) returns (wire: seq<byte>)
      requires Valid() && lineIdx < LLP_TX_LINE_BUF_SIZE
      modifies this`lineIdx, this`sent, lineBuf, payloadBuf, frameBuf
      ensures Valid() && lineIdx < LLP_TX_LINE_BUF_SIZE && View() == Put(old(View()), b)
      ensures wire == if sent == old(sent) then [] else Frame(CrcUpdate, [0] + sent[|sent| - 1])
    {
      lineBuf[lineIdx] := b;
      lineIdx := lineIdx + 1;
      assert lineBuf[..lineIdx] == old(lineBuf[..lineIdx]) + [b];
      if b == NEWLINE || lineIdx >= LLP_TX_LINE_BUF_SIZE {
        wire := TxFlush();
      } else {
        wire := [];
      }
    }
  }
}

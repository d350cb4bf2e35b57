/** The firmware's side of the link: CRC loop, frame builder and parser, in their own form. */
module LlpFirmware {
  import Crc16
  import opened LinkChecksum
  import opened LlpFrame
  import opened LlpParser

  /** llp_crc16_update. */
  method Crc16Update(crc: word, data: byte) returns (c: word)
    ensures c == CrcUpdate(crc, data)
  {
    var w := Crc16.UpdateLoop(crc as bv16, data as bv8);
    c := w as int;
  }

  class Parser {
    const payload: array<byte>
    var payloadLen: word
    var payloadIdx: nat
    var crcReceived: word
    var crcCalculated: word
    var lastByteTime: word
    var state: Phase
    var escapePending: bool

    /** llp_parser_init, with room for `max` payload bytes. */
    constructor (max: nat)
      ensures fresh(payload) && payload.Length == max && View() == LlpParser.Init(payload[..])
    {
      payload := new byte[max](_ => 0);
      state, escapePending, payloadIdx, crcCalculated := WAIT_MAGIC1, false, 0, CRC_INITIAL;
      crcReceived, lastByteTime, payloadLen := 0, 0, 0;
    }

    function View(): State
      reads this, payload
    {
      State(state, escapePending, payload[..], payloadLen, payloadIdx, crcReceived, crcCalculated, lastByteTime)
    }

    /** _llp_parser_reset. */
    method Reset()
      modifies this`state, this`escapePending, this`payloadIdx, this`crcCalculated
      ensures View() == LlpParser.Reset(old(View()))
    {
      state, escapePending, payloadIdx, crcCalculated := WAIT_MAGIC1, false, 0, CRC_INITIAL;
    }

    /** The checksum restarts on the magic. */
    method Begin()
      modifies this`crcCalculated, this`state
      ensures View() == LlpParser.Begin(CrcUpdate, old(View()))
    {
      crcCalculated := CRC_INITIAL;
      crcCalculated := Crc16Update(crcCalculated, MAGIC_1);
      crcCalculated := Crc16Update(crcCalculated, MAGIC_2);
      state := READ_LEN_L;
    }

    method ReadLenH(b: byte) returns (code: int)
      requires Valid(View()) && state == READ_LEN_H
      modifies this`payloadLen, this`crcCalculated, this`payloadIdx, this`state, this`escapePending
      ensures (View(), code) == Dispatch(CrcUpdate, old(View()), b)
    {
      assert payloadLen % 0x100 == payloadLen;
      payloadLen := Joined(payloadLen, b);
      crcCalculated := Crc16Update(crcCalculated, b);
      if payloadLen > payload.Length {
        Reset();
        return -1;
      }
      payloadIdx := 0;
      state := if payloadLen == 0 then READ_CRC_L else READ_PAYLOAD;
      code := 0;
    }

    method ReadPayload(b: byte) returns (code: int)
      requires Valid(View()) && state == READ_PAYLOAD
      modifies this`crcCalculated, this`payloadIdx, this`state, payload
      ensures (View(), code) == Dispatch(CrcUpdate, old(View()), b)
    {
      payload[payloadIdx] := b;
      payloadIdx := payloadIdx + 1;
      crcCalculated := Crc16Update(crcCalculated, b);
      if payloadIdx == payloadLen { state := READ_CRC_L; }
      code := 0;
    }

    method ReadCrcH(b: byte) returns (code: int)
      requires Valid(View()) && state == READ_CRC_H
      modifies this`crcReceived, this`crcCalculated, this`payloadIdx, this`state, this`escapePending
      ensures (View(), code) == Dispatch(CrcUpdate, old(View()), b)
    {
      crcReceived := Joined(crcReceived, b);
      code := if crcReceived != crcCalculated then -1 else 1;
      Reset();
    }

    /** Bytes outside a frame. */
    method Search(b: byte)
      requires state == WAIT_MAGIC1 || state == WAIT_MAGIC2
      modifies this`crcCalculated, this`state
      ensures (View(), 0) == Dispatch(CrcUpdate, old(View()), b)
    {
      if state == WAIT_MAGIC1 {
        if b == MAGIC_1 { state := WAIT_MAGIC2; }
      } else if b == MAGIC_2 {
        Begin();
      } else if b == MAGIC_1 {
        state := WAIT_MAGIC2;
      } else {
        state := WAIT_MAGIC1;
      }
    }

    /** The main switch. */
    method Switch(b: byte) returns (code: int)
      requires Valid(View()) && !escapePending
      modifies this, payload
      ensures (View(), code) == Dispatch(CrcUpdate, old(View()), b)
    {
      code := 0;
      match state
      case 2 =>
        payloadLen := b;
        crcCalculated := Crc16Update(crcCalculated, b);
        state := READ_LEN_H;
      case 3 => code := ReadLenH(b);
      case 4 => code := ReadPayload(b);
      case 5 =>
        crcReceived := b;
        state := READ_CRC_H;
      case 6 => code := ReadCrcH(b);
      case _ => Search(b);
    }

    /** A byte after an escape: a resync, a stuffed magic byte, or an error. */
    method Unescape(b: byte) returns (code: int)
      requires Valid(View()) && escapePending
      modifies this, payload
      ensures var u := old(View()).(escapePending := false);
              (View(), code) == if b == MAGIC_2 then (LlpParser.Begin(CrcUpdate, u).(idx := 0), -1)
                                else if b == ESCAPE then Dispatch(CrcUpdate, u, MAGIC_1)
                                else (LlpParser.Reset(u), -1)
    {
      escapePending := false;
      if b == MAGIC_2 {
        Begin();
        payloadIdx := 0;
        code := -1;
      } else if b == ESCAPE {
        code := Switch(MAGIC_1);
      } else {
        Reset();
        code := -1;
      }
    }

    /** llp_parser_process_byte. */
    method ProcessByte(b: byte, currentMs: nat) returns (code: int)
      requires Valid(View())
      modifies this, payload
      ensures (View(), code) == Step(CrcUpdate, old(View()), b, currentMs)
    {
      if state != WAIT_MAGIC1 && (currentMs - lastByteTime) % 0x1_0000 > FRAME_TIMEOUT_MS {
        Reset();
        lastByteTime := currentMs % 0x1_0000;
        if b == MAGIC_1 { state := WAIT_MAGIC2; }
        return -1;
      }
      lastByteTime := currentMs % 0x1_0000;
      if state != WAIT_MAGIC1 && state != WAIT_MAGIC2 {
        if escapePending {
          code := Unescape(b);
          return;
        } else if b == MAGIC_1 {
          escapePending := true;
          return 0;
        }
      }
      code := Switch(b);
    }
  }

  // ---------------------------------------------------------------------------
  // The frame builder
  // ---------------------------------------------------------------------------

  /** _llp_write_stuffed: one byte, doubled if it is the magic one. */
  method WriteStuffed(buf: array<byte>, idx: nat, b: byte) returns (next: nat)
    requires idx + 2 <= buf.Length
    modifies buf
    ensures next == idx + |Stuffed(b)| <= buf.Length
    ensures buf[..next] == old(buf[..idx]) + Stuffed(b)
  {
    buf[idx] := b;
    next := idx + 1;
    if b == MAGIC_1 {
      buf[next] := ESCAPE;
      next := next + 1;
    }
  }

  /** llp_build_final_payload, with 0 for an output buffer that is too small. */
  method BuildFinalPayload(outBuf: array<byte>, raw: seq<byte>) returns (len: nat)
    modifies outBuf
    ensures outBuf.Length < |raw| + 1 ==> len == 0 && outBuf[..] == old(outBuf[..])
    ensures outBuf.Length >= |raw| + 1 ==> len == |raw| + 1 && outBuf[..len] == [0] + raw
  {
    if outBuf.Length < |raw| + 1 { return 0; }
    outBuf[0] := 0;
    for i := 0 to |raw|
      invariant outBuf[0] == 0 && outBuf[1..i + 1] == raw[..i]
    {
      outBuf[i + 1] := raw[i];
    }
    len := |raw| + 1;
  }

  /** _llp_write_stuffed with a checksum. */
  method WriteCounted(buf: array<byte>, idx: nat, b: byte, crc: word, ghost sent: seq<byte>) returns (next: nat, c: word)
    requires idx + 2 <= buf.Length && Written(CrcUpdate, buf[..idx], crc, sent)
    modifies buf
    ensures next <= idx + 2 && Written(CrcUpdate, buf[..next], c, sent + [b])
  {
    c := Crc16Update(crc, b);
    OneMoreWritten(CrcUpdate, buf[..idx], crc, sent, b);
    next := WriteStuffed(buf, idx, b);
  }

  /** The magic of a frame. */
  method WriteMagic(buf: array<byte>) returns (idx: nat, crc: word)
    requires buf.Length >= 2
    modifies buf
    ensures idx == 2 && Written(CrcUpdate, buf[..idx], crc, [])
  {
    buf[0], buf[1] := MAGIC_1, MAGIC_2;
    idx, crc := 2, CRC_INITIAL;
    crc := Crc16Update(crc, MAGIC_1);
    crc := Crc16Update(crc, MAGIC_2);
    MagicWritten(CrcUpdate);
    assert buf[..2] == Magic();
  }

  /** The length of a frame. */
  method WriteLength(buf: array<byte>, start: nat, initial: word, n: word) returns (idx: nat, crc: word)
    requires buf.Length >= start + 4 && Written(CrcUpdate, buf[..start], initial, [])
    modifies buf
    ensures idx <= start + 4 && Written(CrcUpdate, buf[..idx], crc, TwoBytes(n))
  {
    idx, crc := WriteCounted(buf, start, n % 0x100, initial, []);
    idx, crc := WriteCounted(buf, idx, n / 0x100, crc, [] + [n % 0x100]);
    assert ([] + [n % 0x100]) + [n / 0x100] == TwoBytes(n);
  }

  /** The payload of a frame. */
  method WritePayload(buf: array<byte>, start: nat, initial: word, p: seq<byte>, ghost sent: seq<byte>) returns (idx: nat, crc: word)
    requires buf.Length >= start + 2 * |p| && Written(CrcUpdate, buf[..start], initial, sent)
    modifies buf
    ensures idx <= start + 2 * |p| && Written(CrcUpdate, buf[..idx], crc, sent + p)
  {
    idx, crc := start, initial;
    PrefixEnds(sent, p);
    for i := 0 to |p|
      invariant idx <= start + 2 * i && Written(CrcUpdate, buf[..idx], crc, sent + p[..i])
    {
      idx, crc := WriteCounted(buf, idx, p[i], crc, sent + p[..i]);
      PrefixGrows(sent, p, i);
    }
  }

  /** llp_build_frame, with 0 for a payload that is too long or an output buffer that could be too small. */
  method BuildFrame(outBuf: array<byte>, p: seq<byte>, max: nat) returns (len: nat)
    requires max < 0x1_0000
    modifies outBuf
    ensures |p| > max || outBuf.Length < 2 + 4 + 2 * |p| + 4 ==> len == 0 && outBuf[..] == old(outBuf[..])
    ensures |p| <= max && outBuf.Length >= 2 + 4 + 2 * |p| + 4 ==>
              len <= outBuf.Length && outBuf[..len] == Frame(CrcUpdate, p)
  {
    if |p| > max || outBuf.Length < 2 + 4 + 2 * |p| + 4 { return 0; }
    var idx, crc := WriteMagic(outBuf);
    idx, crc := WriteLength(outBuf, idx, crc, |p|);
    idx, crc := WritePayload(outBuf, idx, crc, p, TwoBytes(|p|));
    WrittenCompletes(CrcUpdate, outBuf[..idx], crc, p);
    idx := WriteStuffed(outBuf, idx, crc % 0x100);
    len := WriteStuffed(outBuf, idx, crc / 0x100);
  }
}

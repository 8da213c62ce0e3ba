/** The link-layer framing `0xAA | cmd | len | payload[len] | crc8(payload)`
    and the byte-at-a-time decoder that both transports run. The serial and
    the socket view models each carry a textually identical copy of the
    decoder loop; it is modelled once, as the class `FrameDecoder`, over the
    pure transition function `Next` and its left fold `Run`. */
module Frames {
  import opened Protocol
  import opened Crc

  datatype Phase = WaitSof | WaitCmd | WaitLen | WaitData | WaitCrc

  /** A frame that passed its CRC check. */
  datatype Frame = Frame(cmd: Byte, payload: seq<Byte>)

  /** The decoder's persistent fields: state, command, length, buffer, fill index. */
  datatype Parser = Parser(phase: Phase, cmd: Byte, len: Byte, buffer: seq<Byte>, index: int)

  /** The outcome of one byte: the new decoder fields and the frame, if any,
      handed to the dispatcher. */
  datatype Stepped = Stepped(parser: Parser, frame: Option<Frame>)

  /** The outcome of a chunk: the new decoder fields and the accepted frames,
      in the order their CRC bytes arrived. */
  datatype Fed = Fed(parser: Parser, frames: seq<Frame>)

  /** Field values of a freshly constructed view model. */
  const Initial := Parser(WaitSof, 0, 0, [], 0)

  /** What the decoder keeps true between bytes: the buffer has been sized
      to `len` whenever data or the CRC is awaited, and the fill index
      stays inside it. */
  predicate Inv(p: Parser) {
    && 0 <= p.index <= p.len
    && (p.phase == WaitData ==> p.index < p.len && |p.buffer| == p.len)
    && (p.phase == WaitCrc ==> |p.buffer| == p.len)
  }

  /** `QByteArray::resize(n)`: keeps the first bytes, cuts or extends to `n`.
      Bytes added by an extension are unspecified in the source; they are 0
      here, and every one of them is overwritten before the CRC is checked. */
  function Resized(buffer: seq<Byte>, n: nat): (r: seq<Byte>)
    ensures |r| == n
    ensures forall i :: 0 <= i < n && i < |buffer| ==> r[i] == buffer[i]
  {
    if n <= |buffer| then buffer[..n] else buffer + seq(n - |buffer|, _ => 0)
  }

  /** One iteration of the decoding loop on byte `b`. */
  function Next(p: Parser, b: Byte): (r: Stepped)
    requires Inv(p)
    ensures Inv(r.parser)
    // Resynchronisation: outside a frame every byte but SOF is dropped unseen.
    ensures p.phase == WaitSof && b != SOF ==> r == Stepped(p, None)
    // The byte after SOF is the command, whatever it is (0xAA included).
    ensures p.phase == WaitCmd ==> r.parser.phase == WaitLen && r.parser.cmd == b
    // Payload bytes are stored, never taken for SOF (no escaping needed).
    ensures p.phase == WaitData ==>
      && r.frame == None
      && r.parser.phase in {WaitData, WaitCrc}
      && r.parser.buffer == p.buffer[p.index := b]
      && r.parser.index == p.index + 1
    // The CRC byte ends the frame either way; it is delivered iff the CRC matches.
    ensures p.phase == WaitCrc ==> r.parser.phase == WaitSof
    ensures r.frame.Some? <==> p.phase == WaitCrc && b == Crc8(p.buffer)
    ensures r.frame.Some? ==> r.frame.value == Frame(p.cmd, p.buffer)
  {
    match p.phase
    case WaitSof =>
      if b == SOF then Stepped(p.(phase := WaitCmd), None) else Stepped(p, None)
    case WaitCmd =>
      Stepped(p.(cmd := b, phase := WaitLen), None)
    case WaitLen =>
      Stepped(p.(len := b, buffer := Resized(p.buffer, b), index := 0,
                 phase := if b > 0 then WaitData else WaitCrc), None)
    case WaitData =>
      if p.index < p.len then
        var i := p.index + 1;
        Stepped(p.(buffer := p.buffer[p.index := b], index := i,
                   phase := if i >= p.len then WaitCrc else WaitData), None)
      else
        Stepped(p, None)
    case WaitCrc =>
      var frame := if b == Crc8(p.buffer) then Some(Frame(p.cmd, p.buffer)) else None;
      Stepped(p.(phase := WaitSof), frame)
  }

  function FrameList(f: Option<Frame>): seq<Frame> {
    if f.Some? then [f.value] else []
  }

  /** The decoding loop over a whole chunk: a left fold of `Next`. */
  function Run(p: Parser, bytes: seq<Byte>): (r: Fed)
    requires Inv(p)
    ensures Inv(r.parser)
  {
    if bytes == [] then Fed(p, [])
    else
      var prefix := Run(p, bytes[..|bytes| - 1]);
      var last := Next(prefix.parser, bytes[|bytes| - 1]);
      Fed(last.parser, prefix.frames + FrameList(last.frame))
  }

  /** The bytes of a frame carrying `crc` as its check byte. */
  function FrameBytes(cmd: Byte, payload: seq<Byte>, crc: Byte): seq<Byte>
    requires |payload| <= 255
  {
    [SOF, cmd, |payload|] + payload + [crc]
  }

  /** The bytes `sendFrame` writes: `SOF, cmd, len, payload…, crc8(payload)`. */
  function Wire(cmd: Byte, payload: seq<Byte>): seq<Byte>
    requires |payload| <= 255
  {
    FrameBytes(cmd, payload, Crc8(payload))
  }

  lemma {:induction false} RunSnoc(p: Parser, bytes: seq<Byte>, b: Byte)
    requires Inv(p)
    ensures Run(p, bytes + [b]).parser == Next(Run(p, bytes).parser, b).parser
    ensures Run(p, bytes + [b]).frames ==
            Run(p, bytes).frames + FrameList(Next(Run(p, bytes).parser, b).frame)
  {
    assert (bytes + [b])[..|bytes|] == bytes;
  }

  /** Decoding is a left fold on persistent state: feeding `a + b` in one
      call ends in the same state, with the same frames in the same order,
      as feeding `a` and then `b`. Any split of the input into chunks is
      therefore invisible. */
  lemma {:induction false} RunAppend(p: Parser, a: seq<Byte>, b: seq<Byte>)
    requires Inv(p)
    ensures Run(p, a + b).parser == Run(Run(p, a).parser, b).parser
    ensures Run(p, a + b).frames == Run(p, a).frames + Run(Run(p, a).parser, b).frames
  {
    if b == [] {
      assert a + b == a;
    } else {
      var b' := b[..|b| - 1];
      var x := b[|b| - 1];
      assert b == b' + [x];
      assert a + b == (a + b') + [x];
      RunAppend(p, a, b');
      RunSnoc(p, a + b', x);
      RunSnoc(Run(p, a).parser, b', x);
    }
  }

  /** Outside a frame, input without an SOF byte is discarded entirely and
      leaves the decoder untouched. */
  lemma {:induction false} NoiseIsDiscarded(p: Parser, bytes: seq<Byte>)
    requires Inv(p) && p.phase == WaitSof
    requires forall i :: 0 <= i < |bytes| ==> bytes[i] != SOF
    ensures Run(p, bytes) == Fed(p, [])
  {
    if bytes != [] {
      NoiseIsDiscarded(p, bytes[..|bytes| - 1]);
    }
  }

  /** Collecting payload bytes: from fill index `k`, the next bytes are
      written in order at `k`, `k+1`, …; the decoder waits for the CRC once
      `len` bytes are in. */
  lemma {:induction false} CollectData(q: Parser, data: seq<Byte>)
    requires Inv(q) && q.phase == WaitData
    requires 0 < |data| && q.index + |data| <= q.len
    ensures Run(q, data) == Fed(
      q.(buffer := q.buffer[..q.index] + data + q.buffer[q.index + |data|..],
         index := q.index + |data|,
         phase := if q.index + |data| == q.len then WaitCrc else WaitData),
      [])
  {
    var n := |data| - 1;
    if n == 0 {
      assert data[..0] == [];
      assert q.buffer[q.index := data[0]] ==
             q.buffer[..q.index] + data + q.buffer[q.index + 1..];
    } else {
      CollectData(q, data[..n]);
      var mid := Run(q, data[..n]).parser;
      assert mid.buffer[mid.index := data[n]] ==
             q.buffer[..q.index] + data + q.buffer[q.index + |data|..];
    }
  }

  /** The three header bytes take a decoder waiting for SOF to the payload
      phase (or straight to the CRC for an empty payload), with the buffer
      resized to the announced length. */
  lemma RunHeader(p: Parser, cmd: Byte, n: Byte)
    requires Inv(p) && p.phase == WaitSof
    ensures Run(p, [SOF, cmd, n]) == Fed(
      p.(cmd := cmd, len := n, buffer := Resized(p.buffer, n), index := 0,
         phase := if n > 0 then WaitData else WaitCrc),
      [])
  {
    RunSnoc(p, [], SOF);
    assert [] + [SOF] == [SOF];
    RunSnoc(p, [SOF], cmd);
    assert [SOF] + [cmd] == [SOF, cmd];
    RunSnoc(p, [SOF, cmd], n);
    assert [SOF, cmd] + [n] == [SOF, cmd, n];
  }

  /** From a freshly sized buffer, the announced number of payload bytes
      fills it completely and leaves the decoder waiting for the CRC. */
  lemma CollectPayload(q: Parser, payload: seq<Byte>)
    requires Inv(q) && q.len == |payload| && q.index == 0
    requires q.phase == if |payload| > 0 then WaitData else WaitCrc
    ensures Run(q, payload) == Fed(q.(buffer := payload, index := |payload|, phase := WaitCrc), [])
  {
    if |payload| > 0 {
      CollectData(q, payload);
      assert q.buffer[..0] + payload + q.buffer[|payload|..] == payload by {
        assert q.buffer[..0] == [] && q.buffer[|payload|..] == [];
      }
    } else {
      assert q.buffer == [] && payload == [];
    }
  }

  /** Header and payload take a decoder waiting for SOF to waiting for the
      CRC, holding the command, the length and the payload. */
  lemma RunUntilCrc(p: Parser, cmd: Byte, payload: seq<Byte>)
    requires Inv(p) && p.phase == WaitSof
    requires |payload| <= 255
    ensures Run(p, [SOF, cmd, |payload|] + payload) ==
            Fed(Parser(WaitCrc, cmd, |payload|, payload, |payload|), [])
  {
    var header := [SOF, cmd, |payload|];
    RunHeader(p, cmd, |payload|);
    CollectPayload(Run(p, header).parser, payload);
    RunAppend(p, header, payload);
  }

  /** A whole frame fed to a decoder waiting for SOF: the decoder ends
      waiting for the next SOF with `cmd`, `len` and the payload in its
      fields, and delivers `(cmd, payload)` exactly when the check byte
      equals the CRC of the payload. The CRC covers the payload only: the
      command byte is not protected by it. */
  lemma RunFrame(p: Parser, cmd: Byte, payload: seq<Byte>, crc: Byte)
    requires Inv(p) && p.phase == WaitSof
    requires |payload| <= 255
    ensures Run(p, FrameBytes(cmd, payload, crc)) == Fed(
      Parser(WaitSof, cmd, |payload|, payload, |payload|),
      if crc == Crc8(payload) then [Frame(cmd, payload)] else [])
  {
    var prefix := [SOF, cmd, |payload|] + payload;
    assert FrameBytes(cmd, payload, crc) == prefix + [crc];
    RunUntilCrc(p, cmd, payload);
    RunSnoc(p, prefix, crc);
  }

  /** Encoding then decoding: the bytes `sendFrame` writes, fed to a decoder
      waiting for SOF, deliver exactly one frame `(cmd, payload)` and leave
      the decoder waiting for the next SOF. */
  lemma WireRoundTrip(p: Parser, cmd: Byte, payload: seq<Byte>)
    requires Inv(p) && p.phase == WaitSof
    requires |payload| <= 255
    ensures Run(p, Wire(cmd, payload)).frames == [Frame(cmd, payload)]
    ensures Run(p, Wire(cmd, payload)).parser.phase == WaitSof
  {
    RunFrame(p, cmd, payload, Crc8(payload));
  }

  /** A frame whose payload was corrupted in one byte (one flipped bit, say)
      is dropped, and the decoder is back to waiting for SOF, ready for the
      next well-formed frame. */
  lemma CorruptedPayloadIsDropped(p: Parser, cmd: Byte, payload: seq<Byte>, received: seq<Byte>, k: nat)
    requires Inv(p) && p.phase == WaitSof
    requires |payload| <= 255 && |received| == |payload| && k < |payload|
    requires received[k] != payload[k]
    requires forall i :: 0 <= i < |payload| && i != k ==> received[i] == payload[i]
    ensures Run(p, FrameBytes(cmd, received, Crc8(payload))).frames == []
    ensures Run(p, FrameBytes(cmd, received, Crc8(payload))).parser.phase == WaitSof
  {
    SingleByteErrorDetected(payload, received, k);
    RunFrame(p, cmd, received, Crc8(payload));
  }

  /** A corrupted check byte drops the frame too. */
  lemma CorruptedCrcIsDropped(p: Parser, cmd: Byte, payload: seq<Byte>, crc: Byte)
    requires Inv(p) && p.phase == WaitSof
    requires |payload| <= 255 && crc != Crc8(payload)
    ensures Run(p, FrameBytes(cmd, payload, crc)).frames == []
    ensures Run(p, FrameBytes(cmd, payload, crc)).parser.phase == WaitSof
  {
    RunFrame(p, cmd, payload, crc);
  }

  /** The check byte covers the payload only: a frame whose command byte was
      corrupted in transit is accepted, under the corrupted command. */
  lemma CorruptedCommandIsAccepted(p: Parser, cmd: Byte, corrupted: Byte, payload: seq<Byte>)
    requires Inv(p) && p.phase == WaitSof
    requires |payload| <= 255
    ensures Run(p, Wire(cmd, payload)[1 := corrupted]).frames == [Frame(corrupted, payload)]
  {
    assert Wire(cmd, payload)[1 := corrupted] == Wire(corrupted, payload);
    WireRoundTrip(p, corrupted, payload);
  }

  /** A zero-length frame is delivered, with an empty payload, iff its
      check byte is 0x00 (the CRC of no bytes). */
  lemma EmptyFrame(p: Parser, cmd: Byte, crc: Byte)
    requires Inv(p) && p.phase == WaitSof
    ensures Run(p, [SOF, cmd, 0, crc]).frames == if crc == 0 then [Frame(cmd, [])] else []
  {
    RunFrame(p, cmd, [], crc);
    assert FrameBytes(cmd, [], crc) == [SOF, cmd, 0, crc];
  }

  /** The heartbeat frame with payload 0x01, as `sendFrame` writes it. */
  lemma HeartBeatWire()
    ensures Wire(CMD_HEART_BEAT, [0x01]) == [SOF, CMD_HEART_BEAT, 1, 0x01, 0x07]
  {
    HeartBeatCheckValue();
  }

  /** A repeated SOF is not skipped: the second 0xAA is taken as the command
      byte, so a valid heartbeat frame preceded by a stray SOF is lost (and
      the decoder is left collecting a five-byte payload). */
  lemma RepeatedSofIsNotSkipped()
    ensures Wire(CMD_HEART_BEAT, [0x01]) == [SOF, CMD_HEART_BEAT, 1, 0x01, 0x07]
    ensures Run(Initial, [SOF] + Wire(CMD_HEART_BEAT, [0x01])).frames == []
    ensures Run(Initial, [SOF] + Wire(CMD_HEART_BEAT, [0x01])).parser.phase == WaitData
    ensures Run(Initial, [SOF] + Wire(CMD_HEART_BEAT, [0x01])).parser.cmd == SOF
  {
    HeartBeatWire();
    var header := [SOF, SOF, CMD_HEART_BEAT];
    var rest := [1, 0x01, 0x07];
    assert [SOF] + Wire(CMD_HEART_BEAT, [0x01]) == header + rest;
    var afterLen := Initial.(cmd := SOF, len := 5, buffer := Resized([], 5), index := 0, phase := WaitData);
    assert Run(Initial, header) == Fed(afterLen, []) by {
      RunHeader(Initial, SOF, CMD_HEART_BEAT);
    }
    assert Run(afterLen, rest).frames == [] && Run(afterLen, rest).parser.phase == WaitData
        && Run(afterLen, rest).parser.cmd == SOF by {
      CollectData(afterLen, rest);
    }
    RunAppend(Initial, header, rest);
  }

  /** The decoder state of one transport: the fields `m_state`, `m_cmd`,
      `m_len`, `m_buffer` and `m_index`, updated in place byte by byte. */
  class FrameDecoder {
    var phase: Phase
    var cmd: Byte
    var len: Byte
    var buffer: seq<Byte>
    var index: int

    function State(): Parser
      reads this
    {
      Parser(phase, cmd, len, buffer, index)
    }

    predicate Valid()
      reads this
    {
      Inv(State())
    }

    constructor ()
      ensures Valid() && State() == Initial
    {
      phase, cmd, len, buffer, index := WaitSof, 0, 0, [], 0;
    }

    /** Back to waiting for SOF; the other fields are left as they are. */
    method Restart()
      requires Valid()
      modifies this
      ensures Valid() && State() == old(State()).(phase := WaitSof)
    {
      phase := WaitSof;
    }

    /** Back to waiting for SOF with the buffer emptied. */
    method Clear()
      requires Valid()
      modifies this
      ensures Valid() && State() == old(State()).(phase := WaitSof, buffer := [])
    {
      phase := WaitSof;
      buffer := [];
    }

    /** One iteration of the loop body (the `switch (m_state)`). */
    method Step(b: Byte) returns (frame: Option<Frame>)
      requires Valid()
      modifies this
      ensures Valid() && Stepped(State(), frame) == Next(old(State()), b)
    {
      frame := None;
      match phase {
        case WaitSof =>
          if b == SOF {
            phase := WaitCmd;
          }
        case WaitCmd =>
          cmd := b;
          phase := WaitLen;
        case WaitLen =>
          len := b;
          buffer := Resized(buffer, len);
          index := 0;
          phase := if len > 0 then WaitData else WaitCrc;
        case WaitData =>
          if index < len {
            buffer := buffer[index := b];
            index := index + 1;
            if index >= len {
              phase := WaitCrc;
            }
          }
        case WaitCrc =>
          var calculated := CalcCrc(buffer);
          if b == calculated {
            frame := Some(Frame(cmd, buffer));
          }
          phase := WaitSof;
      }
    }

    /** The loop over one received chunk. */
    method Feed(bytes: seq<Byte>) returns (frames: seq<Frame>)
      requires Valid()
      modifies this
      ensures Valid() && Fed(State(), frames) == Run(old(State()), bytes)
    {
      frames := [];
      var i := 0;
      while i < |bytes|
        invariant 0 <= i <= |bytes|
        invariant Valid()
        invariant Fed(State(), frames) == Run(old(State()), bytes[..i])
      {
        ghost var before := State();
        var frame := Step(bytes[i]);
        RunSnoc(old(State()), bytes[..i], bytes[i]);
        assert bytes[..i + 1] == bytes[..i] + [bytes[i]];
        frames := frames + FrameList(frame);
        i := i + 1;
      }
      assert bytes[..|bytes|] == bytes;
    }
  }
}

/**
 The native frame: a 16-byte big-endian header followed by the payload. The
 checksum is a parameter, so every law holds for every checksum function.
 */
module Frame {
  import opened Bytes

  const MAGIC: Byte := 0x56
  const PROTOCOL_VERSION: Byte := 1
  const HEADER: nat := 16
  const MAX_PAYLOAD: nat := 16 * 1024 * 1024

  datatype Frame = Frame(opcode: nat, correlation: nat, payload: Bytes, version: Byte, checksum: nat)

  datatype Error = BadMagic | TooLarge | BadVersion | BadChecksum | Incomplete | Trailing | Closed

  datatype Encoded = Ok(bytes: Bytes) | Refused

  datatype Outcome = NeedMore | Bad(error: Error) | Got(frame: Frame, rest: Bytes)

  /** A checksum function yields 32 bits. */
  ghost predicate IsChecksum(crc: Bytes -> nat) { forall b :: crc(b) < Limit(4) }

  function HeaderBytes(version: Byte, opcode: nat, correlation: nat, length: nat, checksum: nat): (h: Bytes)
    ensures |h| == HEADER
  {
    [MAGIC, version] + Big(opcode, 2) + Big(correlation, 4) + Big(length, 4) + Big(checksum, 4)
  }

  function FrameBytes(crc: Bytes -> nat, opcode: nat, correlation: nat, payload: Bytes, version: Byte): Bytes {
    HeaderBytes(version, opcode, correlation, |payload|, crc(payload)) + payload
  }

  // ---------- encoding in place ----------

  /** Overwrites `out` from `at` on with `b` (`binary.BigEndian.Put...` and `copy`). */
  method Put(out: array<Byte>, at: nat, b: Bytes)
    requires at + |b| <= out.Length
    modifies out
    ensures out[..] == old(out[..at]) + b + old(out[at + |b|..])
  {
    for i := 0 to |b|
      invariant forall j :: 0 <= j < at || at + i <= j < out.Length ==> out[j] == old(out[j])
      invariant forall j :: 0 <= j < i ==> out[at + j] == b[j]
    {
      out[at + i] := b[i];
    }
    assert out[at..at + |b|] == b;
    assert out[..] == out[..at] + out[at..at + |b|] + out[at + |b|..];
  }

  method EncodeVersion(crc: Bytes -> nat, opcode: nat, correlation: nat, payload: Bytes, version: Byte) returns (r: Encoded)
    ensures r == if |payload| > MAX_PAYLOAD then Refused else Ok(FrameBytes(crc, opcode, correlation, payload, version))
  {
    if |payload| > MAX_PAYLOAD { return Refused; }
    var out := new Byte[HEADER + |payload|];
    out[0], out[1] := MAGIC, version;
    assert out[..2] == [MAGIC, version];
    Put(out, 2, Big(opcode, 2));
    assert out[..4] == [MAGIC, version] + Big(opcode, 2);
    Put(out, 4, Big(correlation, 4));
    Put(out, 8, Big(|payload|, 4));
    assert out[..12] == [MAGIC, version] + Big(opcode, 2) + Big(correlation, 4) + Big(|payload|, 4);
    Put(out, 12, Big(crc(payload), 4));
    assert out[..HEADER] == HeaderBytes(version, opcode, correlation, |payload|, crc(payload));
    Put(out, HEADER, payload);
    r := Ok(out[..]);
  }

  // ---------- decoding ----------

  function PayloadLength(data: Bytes): nat
    requires |data| >= HEADER
  {
    FromBig(data[8..12])
  }

  /** `TryDecode`: magic and length are checked as soon as the header is there, the rest when the frame is complete. */
  function TryDecode(crc: Bytes -> nat, data: Bytes): Outcome {
    if |data| < HEADER then NeedMore
    else if data[0] != MAGIC then Bad(BadMagic)
    else if PayloadLength(data) > MAX_PAYLOAD then Bad(TooLarge)
    else
      var total := HEADER + PayloadLength(data);
      if |data| < total then NeedMore
      else
        var payload := data[HEADER..total];
        if data[1] != PROTOCOL_VERSION then Bad(BadVersion)
        else if FromBig(data[12..16]) != crc(payload) then Bad(BadChecksum)
        else Got(Frame(FromBig(data[2..4]), FromBig(data[4..8]), payload, data[1], FromBig(data[12..16])), data[total..])
  }

  datatype Whole = Parsed(frame: Frame) | Failed(error: Error)

  function Decode(crc: Bytes -> nat, data: Bytes): Whole {
    match TryDecode(crc, data)
    case Bad(e) => Failed(e)
    case NeedMore => Failed(Incomplete)
    case Got(f, rest) => if rest != [] then Failed(Trailing) else Parsed(f)
  }

  /** What a sender of this frame means. */
  ghost predicate Sendable(crc: Bytes -> nat, f: Frame) {
    && f.opcode < Limit(2) && f.correlation < Limit(4) && |f.payload| <= MAX_PAYLOAD
    && f.version == PROTOCOL_VERSION && f.checksum == crc(f.payload)
  }

  function Wire(crc: Bytes -> nat, f: Frame): Bytes { FrameBytes(crc, f.opcode, f.correlation, f.payload, f.version) }

  lemma HeaderFields(crc: Bytes -> nat, f: Frame, data: Bytes)
    requires Sendable(crc, f) && IsChecksum(crc) && |data| >= HEADER && data[..HEADER] == Wire(crc, f)[..HEADER]
    ensures data[0] == MAGIC && data[1] == f.version && PayloadLength(data) == |f.payload|
    ensures FromBig(data[2..4]) == f.opcode && FromBig(data[4..8]) == f.correlation && FromBig(data[12..16]) == f.checksum
  {
    var h := HeaderBytes(f.version, f.opcode, f.correlation, |f.payload|, f.checksum);
    assert data[..HEADER] == h;
    Limits();
    BigRoundTrip(f.opcode, 2);
    BigRoundTrip(f.correlation, 4);
    BigRoundTrip(|f.payload|, 4);
    BigRoundTrip(f.checksum, 4);
    assert data[2..4] == h[2..4] == Big(f.opcode, 2);
    assert data[4..8] == h[4..8] == Big(f.correlation, 4);
    assert data[8..12] == h[8..12] == Big(|f.payload|, 4);
    assert data[12..16] == h[12..16] == Big(f.checksum, 4);
    assert data[0] == h[0] && data[1] == h[1];
  }

  /** A frame followed by anything decodes to itself and leaves exactly the rest. */
  lemma DecodeUndoesEncode(crc: Bytes -> nat, f: Frame, rest: Bytes)
    requires Sendable(crc, f) && IsChecksum(crc)
    ensures TryDecode(crc, Wire(crc, f) + rest) == Got(f, rest)
  {
    var data := Wire(crc, f) + rest;
    HeaderFields(crc, f, data);
    assert data[HEADER..HEADER + |f.payload|] == f.payload;
    assert data[HEADER + |f.payload|..] == rest;
  }

  /** No strict prefix of a frame is an error: it only asks for more. */
  lemma PrefixNeedsMore(crc: Bytes -> nat, f: Frame, n: nat)
    requires Sendable(crc, f) && IsChecksum(crc) && n < |Wire(crc, f)|
    ensures TryDecode(crc, Wire(crc, f)[..n]) == NeedMore
  {
    if n >= HEADER { HeaderFields(crc, f, Wire(crc, f)[..n]); }
  }

  /** A header is the encoding of the fields read from it. */
  lemma HeaderRebuilt(data: Bytes)
    requires |data| >= HEADER
    ensures FromBig(data[2..4]) < Limit(2) && FromBig(data[4..8]) < Limit(4)
    ensures data[0] == MAGIC ==>
              data[..HEADER] == HeaderBytes(data[1], FromBig(data[2..4]), FromBig(data[4..8]), PayloadLength(data), FromBig(data[12..16]))
  {
    FromBigRoundTrip(data[2..4]);
    FromBigRoundTrip(data[4..8]);
    FromBigRoundTrip(data[8..12]);
    FromBigRoundTrip(data[12..16]);
    assert data[..HEADER] == [data[0], data[1]] + data[2..4] + data[4..8] + data[8..12] + data[12..16];
  }

  /** Decode accepts exactly the encodings of sendable frames. */
  lemma DecodeIffEncoded(crc: Bytes -> nat, data: Bytes, f: Frame)
    requires IsChecksum(crc)
    ensures Decode(crc, data) == Parsed(f) <==> Sendable(crc, f) && data == Wire(crc, f)
  {
    if Decode(crc, data) == Parsed(f) {
      HeaderRebuilt(data);
      var total := HEADER + PayloadLength(data);
      assert data[total..] == [];
      assert data == data[..HEADER] + data[HEADER..total];
    }
    if Sendable(crc, f) && data == Wire(crc, f) {
      DecodeUndoesEncode(crc, f, []);
      assert Wire(crc, f) + [] == Wire(crc, f);
    }
  }

  /** More bytes never change a verdict already reached. */
  lemma MoreBytesKeepVerdict(crc: Bytes -> nat, data: Bytes, more: Bytes)
    ensures match TryDecode(crc, data)
            case NeedMore => true
            case Bad(e) => TryDecode(crc, data + more) == Bad(e)
            case Got(f, rest) => TryDecode(crc, data + more) == Got(f, rest + more)
  {
    if |data| >= HEADER {
      var d := data + more;
      assert d[2..4] == data[2..4] && d[4..8] == data[4..8] && d[8..12] == data[8..12] && d[12..16] == data[12..16];
      var total := HEADER + PayloadLength(data);
      if |data| >= total {
        assert d[HEADER..total] == data[HEADER..total];
        assert d[total..] == data[total..] + more;
      }
    }
  }

  // ---------- the bytes themselves ----------

  lemma TwoBytes(v: nat)
    ensures Big(v, 2) == [v / 0x100 % 256, v % 256]
  {
    Limits();
    BigByte(v, 2, 0);
    BigByte(v, 2, 1);
  }

  lemma FourBytes(v: nat)
    ensures Big(v, 4) == [v / 0x100_0000 % 256, v / 0x1_0000 % 256, v / 0x100 % 256, v % 256]
  {
    Limits();
    assert Limit(3) == 256 * Limit(2);
    BigByte(v, 4, 0);
    BigByte(v, 4, 1);
    BigByte(v, 4, 2);
    BigByte(v, 4, 3);
  }

  /** The frame on the wire, byte by byte. */
  lemma WireBytes(crc: Bytes -> nat, f: Frame)
    ensures var (o, c, n, x) := (f.opcode, f.correlation, |f.payload|, crc(f.payload));
            Wire(crc, f) ==
            [0x56, f.version, o / 0x100 % 256, o % 256]
            + [c / 0x100_0000 % 256, c / 0x1_0000 % 256, c / 0x100 % 256, c % 256]
            + [n / 0x100_0000 % 256, n / 0x1_0000 % 256, n / 0x100 % 256, n % 256]
            + [x / 0x100_0000 % 256, x / 0x1_0000 % 256, x / 0x100 % 256, x % 256] + f.payload
  {
    TwoBytes(f.opcode);
    FourBytes(f.correlation);
    FourBytes(|f.payload|);
    FourBytes(crc(f.payload));
  }

  /** The header of `f` but for its first two bytes. */
  function HeaderTail(crc: Bytes -> nat, f: Frame): (h: Bytes)
    ensures |h| == HEADER - 2
  {
    Wire(crc, f)[2..HEADER]
  }

  lemma HeaderLength(crc: Bytes -> nat, f: Frame)
    requires Sendable(crc, f)
    ensures FromBig(HeaderTail(crc, f)[6..10]) == |f.payload|
  {
    Limits();
    BigRoundTrip(|f.payload|, 4);
    var h := HeaderBytes(f.version, f.opcode, f.correlation, |f.payload|, crc(f.payload));
    assert h[8..12] == Big(|f.payload|, 4);
    assert HeaderTail(crc, f) == h[2..];
    assert h[2..][6..10] == h[8..12];
  }

  lemma WrongVersion(crc: Bytes -> nat, f: Frame, version: Byte, payload: Bytes, rest: Bytes)
    requires Sendable(crc, f) && |payload| == |f.payload| && version != PROTOCOL_VERSION
    ensures TryDecode(crc, [MAGIC, version] + HeaderTail(crc, f) + payload + rest) == Bad(BadVersion)
  {
    var data := [MAGIC, version] + HeaderTail(crc, f) + payload + rest;
    HeaderLength(crc, f);
    assert data[8..12] == HeaderTail(crc, f)[6..10];
  }

  lemma WrongChecksum(crc: Bytes -> nat, f: Frame, payload: Bytes, rest: Bytes)
    requires Sendable(crc, f) && IsChecksum(crc) && |payload| == |f.payload| && crc(payload) != crc(f.payload)
    ensures TryDecode(crc, [MAGIC, f.version] + HeaderTail(crc, f) + payload + rest) == Bad(BadChecksum)
  {
    var data := [MAGIC, f.version] + HeaderTail(crc, f) + payload + rest;
    assert data[..HEADER] == Wire(crc, f)[..HEADER];
    HeaderFields(crc, f, data);
    assert data[HEADER..HEADER + |payload|] == payload;
  }

  lemma WrongLength(crc: Bytes -> nat, before: Bytes, length: nat, after: Bytes)
    requires |before| == 8 && before[0] == MAGIC && MAX_PAYLOAD < length < Limit(4) && |after| >= 4
    ensures TryDecode(crc, before + Big(length, 4) + after) == Bad(TooLarge)
  {
    var data := before + Big(length, 4) + after;
    BigRoundTrip(length, 4);
    assert data[8..12] == Big(length, 4);
  }

  /** A wrong first byte, a length over the limit, a wrong version and a payload of another checksum are each reported as such. */
  lemma DamageIsNamed(crc: Bytes -> nat, f: Frame, first: Byte, length: nat, version: Byte, payload: Bytes, rest: Bytes)
    requires Sendable(crc, f) && IsChecksum(crc) && length < Limit(4) && |payload| == |f.payload|
    ensures var h := HeaderTail(crc, f);
            && (first != MAGIC ==> TryDecode(crc, [first, version] + h + rest) == Bad(BadMagic))
            && (length > MAX_PAYLOAD ==> TryDecode(crc, [MAGIC, version] + h[..6] + Big(length, 4) + (h[10..] + rest)) == Bad(TooLarge))
            && (version != PROTOCOL_VERSION ==> TryDecode(crc, [MAGIC, version] + h + payload + rest) == Bad(BadVersion))
            && (crc(payload) != crc(f.payload) ==> TryDecode(crc, [MAGIC, f.version] + h + payload + rest) == Bad(BadChecksum))
  {
    if length > MAX_PAYLOAD { WrongLength(crc, [MAGIC, version] + HeaderTail(crc, f)[..6], length, HeaderTail(crc, f)[10..] + rest); }
    if version != PROTOCOL_VERSION { WrongVersion(crc, f, version, payload, rest); }
    if crc(payload) != crc(f.payload) { WrongChecksum(crc, f, payload, rest); }
  }

  /** A frame alone is parsed; a strict prefix of one is incomplete; one followed by anything has trailing bytes. */
  lemma WholeFramesOnly(crc: Bytes -> nat, f: Frame, n: nat, rest: Bytes)
    requires Sendable(crc, f) && IsChecksum(crc) && n < |Wire(crc, f)| && rest != []
    ensures Decode(crc, Wire(crc, f)) == Parsed(f)
    ensures Decode(crc, Wire(crc, f)[..n]) == Failed(Incomplete)
    ensures Decode(crc, Wire(crc, f) + rest) == Failed(Trailing)
  {
    DecodeIffEncoded(crc, Wire(crc, f), f);
    PrefixNeedsMore(crc, f, n);
    DecodeUndoesEncode(crc, f, rest);
  }
}

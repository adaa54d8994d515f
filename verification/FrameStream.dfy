/**
 Frames over a byte stream: the client's receive buffer and the reads that
 fill it, in whatever chunks the transport chooses.
 */
module FrameStream {
  import opened Bytes
  import opened Frame

  datatype Fault = NoFault | EndOfStream | Broken

  datatype Received = Delivered(frame: Frame) | Rejected(error: Error) | ClientClosed | ConnectionClosed | ReadFailed

  const MIN_READ: nat := 4096

  /**
   The peer's bytes not yet read. A reliable connection only ever reports the
   end of the stream, and only with no bytes; any other may fail at any read,
   with or without bytes.
   */
  class Connection {
    var incoming: Bytes
    const reliable: bool

    constructor (bytes: Bytes, reliable: bool)
      ensures incoming == bytes && this.reliable == reliable
    {
      incoming := bytes;
      this.reliable := reliable;
    }

    method Read(limit: nat) returns (chunk: Bytes, fault: Fault)
      requires limit > 0
      modifies this
      ensures |chunk| <= limit && old(incoming) == chunk + incoming
      ensures fault == NoFault ==> chunk != []
      ensures fault == EndOfStream ==> incoming == []
      ensures reliable ==> fault != Broken && (fault == EndOfStream ==> chunk == [])
    {
      if incoming == [] { return [], EndOfStream; }
      var n: nat :| 0 < n <= limit && n <= |incoming|;
      chunk, incoming, fault := incoming[..n], incoming[n..], NoFault;
      if !reliable { fault :| fault == EndOfStream ==> incoming == []; }
    }
  }

  // ---------- what a series of reads comes to ----------

  /** What one read brought, and whether the transport reported a fault with it. */
  datatype Reading = Reading(chunk: Bytes, fault: Fault)

  ghost function Chunks(readings: seq<Reading>): Bytes {
    if readings == [] then [] else Chunks(readings[..|readings| - 1]) + readings[|readings| - 1].chunk
  }

  ghost predicate NoFaults(readings: seq<Reading>) { forall x <- readings :: x.fault == NoFault }

  /** The fault of the last read, if there was one. */
  ghost function LastFault(readings: seq<Reading>): Fault { if readings == [] then NoFault else readings[|readings| - 1].fault }

  /** After every read but the last nothing was decided yet. */
  ghost predicate UndecidedBefore(crc: Bytes -> nat, buf: Bytes, readings: seq<Reading>) {
    forall i :: 0 <= i < |readings| ==> NoFaults(readings[..i]) && TryDecode(crc, buf + Chunks(readings[..i])) == NeedMore
  }

  /**
   A call that found `buf` in the buffer and made `readings` ends with `r` and
   leaves `after`: a fault of the last read decides, whatever bytes came with
   it; without a fault the decoder decides.
   */
  ghost predicate Ends(crc: Bytes -> nat, buf: Bytes, readings: seq<Reading>, r: Received, after: Bytes) {
    var verdict := TryDecode(crc, buf + Chunks(readings));
    && UndecidedBefore(crc, buf, readings)
    && r != ClientClosed
    && (r.Delivered? <==> NoFaults(readings) && verdict.Got?)
    && (r.Rejected? <==> NoFaults(readings) && verdict.Bad?)
    && (r == ConnectionClosed <==> LastFault(readings) == EndOfStream)
    && (r == ReadFailed <==> LastFault(readings) == Broken)
    && (r.Delivered? ==> verdict == Got(r.frame, after))
    && (r.Rejected? ==> verdict == Bad(r.error))
    && (!r.Delivered? ==> after == buf + Chunks(readings))
  }

  lemma NextRead(crc: Bytes -> nat, buf: Bytes, readings: seq<Reading>, x: Reading)
    requires UndecidedBefore(crc, buf, readings) && NoFaults(readings) && TryDecode(crc, buf + Chunks(readings)) == NeedMore
    ensures UndecidedBefore(crc, buf, readings + [x]) && Chunks(readings + [x]) == Chunks(readings) + x.chunk
    ensures NoFaults(readings + [x]) <==> x.fault == NoFault
  {
    var more := readings + [x];
    assert more[..|readings|] == readings;
    forall i | 0 <= i < |more| ensures NoFaults(more[..i]) && TryDecode(crc, buf + Chunks(more[..i])) == NeedMore {
      if i < |readings| { assert more[..i] == readings[..i]; }
    }
    assert more[|readings|] in more;
  }

  /** A first read that reports the end of the stream ends the call, and its bytes stay in the buffer. */
  lemma EndAtFirstRead(crc: Bytes -> nat, buf: Bytes, chunk: Bytes, r: Received, after: Bytes)
    requires TryDecode(crc, buf) == NeedMore
    ensures Ends(crc, buf, [Reading(chunk, EndOfStream)], r, after) <==> r == ConnectionClosed && after == buf + chunk
  {
    var readings := [Reading(chunk, EndOfStream)];
    assert readings[..0] == [] && buf + [] == buf && [] + chunk == chunk;
    assert !NoFaults(readings) by { assert readings[0] in readings; }
    assert UndecidedBefore(crc, buf, readings);
  }

  /**
   A read may bring the end of a frame together with the end of the stream.
   Then the frame is complete in the buffer and the call reports a closed
   connection all the same.
   */
  lemma FrameWithEndOfStream(crc: Bytes -> nat, f: Frame, r: Received, after: Bytes)
    requires Sendable(crc, f) && IsChecksum(crc)
    ensures Ends(crc, [], [Reading(Wire(crc, f), EndOfStream)], r, after) <==> r == ConnectionClosed && after == Wire(crc, f)
    ensures TryDecode(crc, Wire(crc, f)) == Got(f, [])
  {
    EndAtFirstRead(crc, [], Wire(crc, f), r, after);
    DecodeUndoesEncode(crc, f, []);
    assert [] + Wire(crc, f) == Wire(crc, f) == Wire(crc, f) + [];
  }

  lemma Regroup(buf: Bytes, all: Bytes, read: Bytes, chunk: Bytes, left: Bytes)
    requires all == read + (chunk + left)
    ensures buf + read + chunk == buf + (read + chunk) && all == read + chunk + left
    ensures buf + (read + chunk) + left == buf + all
  {
  }

  /** Only the end of the stream was reported, and with no bytes. */
  ghost predicate Orderly(readings: seq<Reading>) {
    LastFault(readings) != Broken && (LastFault(readings) == EndOfStream ==> readings[|readings| - 1].chunk == [])
  }

  /** What the reads decided is what the whole stream, `left` included, decides. */
  lemma StreamVerdict(crc: Bytes -> nat, buf: Bytes, readings: seq<Reading>, r: Received, after: Bytes, left: Bytes)
    requires Ends(crc, buf, readings, r, after)
    ensures var all := TryDecode(crc, buf + (Chunks(readings) + left));
            && (r.Delivered? ==> all == Got(r.frame, after + left))
            && (r.Rejected? ==> all == Bad(r.error))
            && (r == ConnectionClosed && Orderly(readings) && left == [] ==> all == NeedMore)
    ensures !r.Delivered? ==> after + left == buf + (Chunks(readings) + left)
  {
    assert buf + Chunks(readings) + left == buf + (Chunks(readings) + left);
    if r.Delivered? || r.Rejected? { MoreBytesKeepVerdict(crc, buf + Chunks(readings), left); }
    if r == ConnectionClosed && Orderly(readings) && left == [] { ClosedVerdict(crc, buf, readings, r, after); }
  }

  /** An orderly end of the stream leaves what was undecided before it. */
  lemma ClosedVerdict(crc: Bytes -> nat, buf: Bytes, readings: seq<Reading>, r: Received, after: Bytes)
    requires Ends(crc, buf, readings, r, after) && r == ConnectionClosed && Orderly(readings)
    ensures TryDecode(crc, buf + (Chunks(readings) + [])) == NeedMore
  {
    var n := |readings| - 1;
    assert TryDecode(crc, buf + Chunks(readings[..n])) == NeedMore;
    assert Chunks(readings[..n]) + [] == Chunks(readings[..n]) && Chunks(readings) + [] == Chunks(readings);
  }

  /** How much the next read asks for: the rest of the header or of the frame, and at least a page. */
  method Needed(buf: Bytes) returns (need: nat)
    ensures var missing := (if |buf| < HEADER then HEADER else HEADER + PayloadLength(buf)) - |buf|;
            need >= MIN_READ && need >= missing && (need == MIN_READ || need == missing)
  {
    var missing := HEADER - |buf|;
    if |buf| >= HEADER { missing := HEADER + PayloadLength(buf) - |buf|; }
    need := if missing < MIN_READ then MIN_READ else missing;
  }

  class Client {
    var conn: Connection?
    var buf: Bytes

    constructor (conn: Connection?)
      ensures this.conn == conn && buf == []
    {
      this.conn := conn;
      buf := [];
    }

    /** Everything received or still to be received. */
    function Pending(): Bytes
      reads this, conn
    {
      if conn == null then buf else buf + conn.incoming
    }

    /** One read, appended to the buffer whether or not it reports a fault. */
    method Fill(need: nat) returns (x: Reading)
      requires conn != null && need > 0
      modifies this`buf, conn
      ensures buf == old(buf) + x.chunk && old(conn.incoming) == x.chunk + conn.incoming
      ensures x.fault == NoFault ==> x.chunk != []
      ensures x.fault == EndOfStream ==> conn.incoming == []
      ensures conn.reliable ==> x.fault != Broken && (x.fault == EndOfStream ==> x.chunk == [])
    {
      var chunk, fault := conn.Read(need);
      if |chunk| > 0 { buf := buf + chunk; }
      x := Reading(chunk, fault);
    }

    /** The receive loop on an open connection. */
    method ReceiveLoop(crc: Bytes -> nat) returns (r: Received, ghost readings: seq<Reading>)
      requires conn != null
      modifies this`buf, conn
      ensures Ends(crc, old(buf), readings, r, buf) && old(conn.incoming) == Chunks(readings) + conn.incoming
      ensures LastFault(readings) == EndOfStream ==> conn.incoming == []
      ensures conn.reliable ==> Orderly(readings)
    {
      readings := [];
      while true
        invariant UndecidedBefore(crc, old(buf), readings) && NoFaults(readings)
        invariant buf == old(buf) + Chunks(readings) && old(conn.incoming) == Chunks(readings) + conn.incoming
        invariant LastFault(readings) == NoFault
        decreases |conn.incoming|
      {
        match TryDecode(crc, buf) {
          case Bad(e) => return Rejected(e), readings;
          case Got(f, rest) =>
            buf := rest;
            return Delivered(f), readings;
          case NeedMore =>
        }
        var need := Needed(buf);
        var x := Fill(need);
        NextRead(crc, old(buf), readings, x);
        Regroup(old(buf), old(conn.incoming), Chunks(readings), x.chunk, conn.incoming);
        readings := readings + [x];
        if x.fault != NoFault {
          return if x.fault == EndOfStream then ConnectionClosed else ReadFailed, readings;
        }
      }
    }

    /**
     However the bytes are cut into reads, the outcome is that of decoding what
     was read, unless the last read reported a fault; and no byte is lost on
     any path.
     */
    method ReceiveFrame(crc: Bytes -> nat) returns (r: Received, ghost readings: seq<Reading>)
      modifies this`buf, conn
      ensures r == ClientClosed <==> conn == null
      ensures conn != null ==> Ends(crc, old(buf), readings, r, buf) && old(conn.incoming) == Chunks(readings) + conn.incoming
      ensures conn == null ==> readings == [] && buf == old(buf)
      ensures r.Delivered? ==> TryDecode(crc, old(Pending())) == Got(r.frame, Pending())
      ensures !r.Delivered? ==> Pending() == old(Pending())
      ensures r.Rejected? ==> TryDecode(crc, old(Pending())) == Bad(r.error)
      ensures r == ConnectionClosed ==> conn.incoming == []
      ensures conn != null && conn.reliable ==> r != ReadFailed && (r == ConnectionClosed ==> TryDecode(crc, old(Pending())) == NeedMore)
    {
      readings := [];
      if conn == null { return ClientClosed, readings; }
      r, readings := ReceiveLoop(crc);
      StreamVerdict(crc, old(buf), readings, r, buf, conn.incoming);
    }
  }

  // ---------- the whole stream ----------

  /** Frames of `data` from the front, as long as one decodes. */
  function Split(crc: Bytes -> nat, data: Bytes): (seq<Frame>, Bytes)
    decreases |data|
  {
    match TryDecode(crc, data)
    case Got(f, rest) => var (frames, tail) := Split(crc, rest); ([f] + frames, tail)
    case _ => ([], data)
  }

  function WireAll(crc: Bytes -> nat, frames: seq<Frame>): Bytes {
    if frames == [] then [] else Wire(crc, frames[0]) + WireAll(crc, frames[1..])
  }

  /** Frames sent back to back come out one by one, whatever unfinished frame follows. */
  lemma {:induction false} SplitUndoesWireAll(crc: Bytes -> nat, frames: seq<Frame>, tail: Bytes)
    requires IsChecksum(crc) && (forall f <- frames :: Sendable(crc, f))
    requires !TryDecode(crc, tail).Got?
    ensures Split(crc, WireAll(crc, frames) + tail) == (frames, tail)
  {
    if frames == [] {
      assert WireAll(crc, frames) + tail == tail;
    } else {
      var rest := WireAll(crc, frames[1..]) + tail;
      assert WireAll(crc, frames) + tail == Wire(crc, frames[0]) + rest;
      DecodeUndoesEncode(crc, frames[0], rest);
      SplitUndoesWireAll(crc, frames[1..], tail);
      assert frames == [frames[0]] + frames[1..];
    }
  }

  /** `frames` were split off `all` and `pending` is what was left. */
  ghost predicate SplitOff(crc: Bytes -> nat, all: Bytes, frames: seq<Frame>, pending: Bytes) {
    Split(crc, all) == (frames + Split(crc, pending).0, Split(crc, pending).1)
  }

  lemma SplitOffNext(crc: Bytes -> nat, all: Bytes, frames: seq<Frame>, pending: Bytes)
    requires SplitOff(crc, all, frames, pending)
    ensures TryDecode(crc, pending).Got? ==> var Got(f, rest) := TryDecode(crc, pending); SplitOff(crc, all, frames + [f], rest)
    ensures Split(crc, all) == (frames, pending) <==> !TryDecode(crc, pending).Got?
  {
    if TryDecode(crc, pending).Got? {
      var Got(f, rest) := TryDecode(crc, pending);
      assert frames + ([f] + Split(crc, rest).0) == frames + [f] + Split(crc, rest).0;
    } else {
      assert frames + [] == frames;
    }
  }

  /** Receiving until a call yields no frame yields the split of the stream, however it was cut. */
  method ReceiveAll(crc: Bytes -> nat, client: Client) returns (frames: seq<Frame>, last: Received, ghost readings: seq<Reading>)
    modifies client`buf, client.conn
    ensures !last.Delivered?
    ensures SplitOff(crc, old(client.Pending()), frames, client.Pending())
    ensures Split(crc, old(client.Pending())) == (frames, client.Pending()) <==> !TryDecode(crc, client.Pending()).Got?
    ensures TryDecode(crc, client.Pending()).Got? && client.conn != null ==> LastFault(readings) != NoFault
    ensures client.conn != null && client.conn.reliable ==> Split(crc, old(client.Pending())) == (frames, client.Pending())
  {
    frames := [];
    assert frames + Split(crc, client.Pending()).0 == Split(crc, client.Pending()).0;
    while true
      invariant SplitOff(crc, old(client.Pending()), frames, client.Pending())
      decreases |client.Pending()|
    {
      SplitOffNext(crc, old(client.Pending()), frames, client.Pending());
      last, readings := client.ReceiveFrame(crc);
      if !last.Delivered? { return; }
      frames := frames + [last.frame];
    }
  }
}

/**
 The writer that encodes payloads: every method appends to the buffer exactly
 the bytes of the format it stands for, or refuses exactly the values that do
 not fit.
 */
module PayloadWriter {
  import opened Options
  import opened Bytes
  import opened Format
  import opened Messages

  datatype Result<+T> = Success(value: T) | Failure {
    predicate IsFailure() { Failure? }
    function PropagateFailure<U>(): Result<U>
      requires IsFailure()
    {
      Failure
    }
    function Extract(): T
      requires !IsFailure()
    {
      value
    }
  }

  /** The bytes of `x`, or a refusal when `x` does not fit. */
  function Encoding<T>(f: Format<T>, x: T): Result<Bytes> { if f.fits(x) then Success(f.put(x)) else Failure }

  lemma Finish<T>(f: Format<T>, x: T, ok: bool, buf: Bytes)
    requires Wrote(ok, f, x, [], buf)
    ensures Encoding(f, x) == if ok then Success(buf) else Failure
  {
    assert [] + f.put(x) == f.put(x);
  }

  lemma FetchWrote(x: FetchRequest, ok: bool, more: bool, mid: Bytes, after: Bytes)
    requires Wrote(ok, FETCH_BODY, FetchParts(x).0, [], mid)
    requires ok ==> if x.groupId != [] || x.memberId != [] then Wrote(more, FETCH_TRAILER, (x.groupId, x.memberId), mid, after) else more && after == mid
    ensures (ok && more) == FETCH.fits(x) && (ok && more ==> after == FetchBytes(x))
  {
    if x.groupId != [] || x.memberId != [] {
      if ok { DefaultedWrote(FETCH_TRAILER, 1, ([], []), (x.groupId, x.memberId), more, mid, after); }
      PairWrote(FETCH_BODY, FETCH_REST, FetchParts(x), ok, more, [], mid, after);
      MapWrote(Pair(FETCH_BODY, FETCH_REST), MakeFetch, FetchParts, x, ok && more, [], after);
    }
  }

  class Writer {
    var buf: Bytes

    constructor ()
      ensures buf == []
    {
      buf := [];
    }

    method Raw(b: Bytes)
      modifies this
      ensures buf == old(buf) + b
    {
      buf := buf + b;
    }

    method Byte(v: U8)
      modifies this
      ensures Wrote(true, NUMBER8, v, old(buf), buf)
    {
      Raw(Little(v, 1));
    }

    method Short(v: U16)
      modifies this
      ensures Wrote(true, NUMBER16, v, old(buf), buf)
    {
      Raw(Little(v, 2));
    }

    method Int(v: U32)
      modifies this
      ensures Wrote(true, NUMBER32, v, old(buf), buf)
    {
      Raw(Little(v, 4));
    }

    method Long(v: U64)
      modifies this
      ensures Wrote(true, NUMBER64, v, old(buf), buf)
    {
      Raw(Little(v, 8));
    }

    method SignedInt(v: I32)
      modifies this
      ensures Wrote(true, SIGNED32, v, old(buf), buf)
    {
      Int(OfI32(v));
    }

    method SignedLong(v: I64)
      modifies this
      ensures Wrote(true, SIGNED64, v, old(buf), buf)
    {
      Long(OfI64(v));
    }

    /** A length written as 32 bits, whatever its size. */
    method Count(n: nat)
      modifies this
      ensures buf == old(buf) + Little(n, 4)
    {
      Raw(Little(n, 4));
    }

    method String(s: Bytes) returns (r: Result<()>)
      modifies this
      ensures Wrote(r.Success?, TEXT, s, old(buf), buf)
    {
      if |s| > MAX_STRING { return Failure; }
      Short(|s|);
      Raw(s);
      assert buf == old(buf) + TEXT.put(s);
      return Success(());
    }

    method ByteString(v: Bytes)
      modifies this
      ensures Wrote(true, BYTE_STRING, v, old(buf), buf)
    {
      Count(|v|);
      Raw(v);
    }

    method Optional(v: Option<Bytes>)
      modifies this
      ensures Wrote(true, OPTIONAL_BYTES, v, old(buf), buf)
    {
      if v.None? {
        Int(NULL_LEN);
      } else {
        ByteString(v.value);
      }
    }

    method OneHeader(h: Header) returns (r: Result<()>)
      modifies this
      ensures Wrote(r.Success?, HEADER, h, old(buf), buf)
    {
      r := String(h.name);
      ghost var b1 := buf;
      if r.Success? {
        ByteString(h.value);
      }
      PairWrote(TEXT, BYTE_STRING, HeaderParts(h), r.Success?, true, old(buf), b1, buf);
      MapWrote(Pair(TEXT, BYTE_STRING), MakeHeader, HeaderParts, h, r.Success?, old(buf), buf);
    }

    method Headers(xs: seq<Header>) returns (r: Result<()>)
      modifies this
      ensures Wrote(r.Success?, List(HEADER), xs, old(buf), buf)
    {
      WritingStart(HEADER, xs, buf);
      Count(|xs|);
      for i := 0 to |xs|
        invariant Writing(HEADER, xs, i, old(buf), buf)
      {
        ghost var now := buf;
        var one := OneHeader(xs[i]);
        WritingNext(HEADER, xs, i, old(buf), now, one.Success?, buf);
        if one.Failure? { return Failure; }
      }
      WritingDone(HEADER, xs, old(buf), buf);
      return Success(());
    }

    method Stamped(v: (I64, seq<Header>)) returns (r: Result<()>)
      modifies this
      ensures Wrote(r.Success?, STAMPED, v, old(buf), buf)
    {
      SignedLong(v.0);
      ghost var b1 := buf;
      r := Headers(v.1);
      PairWrote(SIGNED64, List(HEADER), v, true, r.Success?, old(buf), b1, buf);
    }

    method Valued(v: (Bytes, (I64, seq<Header>))) returns (r: Result<()>)
      modifies this
      ensures Wrote(r.Success?, VALUED, v, old(buf), buf)
    {
      ByteString(v.0);
      ghost var b1 := buf;
      r := Stamped(v.1);
      PairWrote(BYTE_STRING, STAMPED, v, true, r.Success?, old(buf), b1, buf);
    }

    method Message(m: ProduceMessage) returns (r: Result<()>)
      modifies this
      ensures Wrote(r.Success?, MESSAGE, m, old(buf), buf)
    {
      Optional(m.key);
      ghost var b1 := buf;
      r := Valued((m.value, (m.timestampMs, m.headers)));
      PairWrote(OPTIONAL_BYTES, VALUED, MessageParts(m), true, r.Success?, old(buf), b1, buf);
      MapWrote(Pair(OPTIONAL_BYTES, VALUED), MakeMessage, MessageParts, m, r.Success?, old(buf), buf);
    }

    method MessageList(xs: seq<ProduceMessage>) returns (r: Result<()>)
      modifies this
      ensures Wrote(r.Success?, List(MESSAGE), xs, old(buf), buf)
    {
      WritingStart(MESSAGE, xs, buf);
      Count(|xs|);
      for i := 0 to |xs|
        invariant Writing(MESSAGE, xs, i, old(buf), buf)
      {
        ghost var now := buf;
        var one := Message(xs[i]);
        WritingNext(MESSAGE, xs, i, old(buf), now, one.Success?, buf);
        if one.Failure? { return Failure; }
      }
      WritingDone(MESSAGE, xs, old(buf), buf);
      return Success(());
    }

    method Keyed(v: (Option<Bytes>, (Bytes, seq<Header>))) returns (r: Result<()>)
      modifies this
      ensures Wrote(r.Success?, KEYED, v, old(buf), buf)
    {
      Optional(v.0);
      ghost var b1 := buf;
      ByteString(v.1.0);
      ghost var b2 := buf;
      r := Headers(v.1.1);
      TripleWrote(OPTIONAL_BYTES, BYTE_STRING, List(HEADER), v, true, true, r.Success?, old(buf), b1, b2, buf);
    }

    method Record(x: FetchRecord) returns (r: Result<()>)
      modifies this
      ensures Wrote(r.Success?, RECORD, x, old(buf), buf)
    {
      Long(x.offset);
      ghost var b1 := buf;
      SignedLong(x.timestampMs);
      ghost var b2 := buf;
      r := Keyed((x.key, (x.value, x.headers)));
      TripleWrote(NUMBER64, SIGNED64, KEYED, RecordParts(x), true, true, r.Success?, old(buf), b1, b2, buf);
      MapWrote(Pair(NUMBER64, Pair(SIGNED64, KEYED)), MakeRecord, RecordParts, x, r.Success?, old(buf), buf);
    }

    method Records(xs: seq<FetchRecord>) returns (r: Result<()>)
      modifies this
      ensures Wrote(r.Success?, List(RECORD), xs, old(buf), buf)
    {
      WritingStart(RECORD, xs, buf);
      Count(|xs|);
      for i := 0 to |xs|
        invariant Writing(RECORD, xs, i, old(buf), buf)
      {
        ghost var now := buf;
        var one := Record(xs[i]);
        WritingNext(RECORD, xs, i, old(buf), now, one.Success?, buf);
        if one.Failure? { return Failure; }
      }
      WritingDone(RECORD, xs, old(buf), buf);
      return Success(());
    }

    method Address(v: (Bytes, U16)) returns (r: Result<()>)
      modifies this
      ensures Wrote(r.Success?, ADDRESS, v, old(buf), buf)
    {
      r := String(v.0);
      ghost var b1 := buf;
      if r.Success? {
        Short(v.1);
      }
      PairWrote(TEXT, NUMBER16, v, r.Success?, true, old(buf), b1, buf);
    }

    method Broker(b: BrokerInfo) returns (r: Result<()>)
      modifies this
      ensures Wrote(r.Success?, BROKER, b, old(buf), buf)
    {
      Int(b.nodeId);
      ghost var b1 := buf;
      r := Address((b.host, b.port));
      PairWrote(NUMBER32, ADDRESS, BrokerParts(b), true, r.Success?, old(buf), b1, buf);
      MapWrote(Pair(NUMBER32, ADDRESS), MakeBroker, BrokerParts, b, r.Success?, old(buf), buf);
    }

    method Brokers(xs: seq<BrokerInfo>) returns (r: Result<()>)
      modifies this
      ensures Wrote(r.Success?, List(BROKER), xs, old(buf), buf)
    {
      WritingStart(BROKER, xs, buf);
      Count(|xs|);
      for i := 0 to |xs|
        invariant Writing(BROKER, xs, i, old(buf), buf)
      {
        ghost var now := buf;
        var one := Broker(xs[i]);
        WritingNext(BROKER, xs, i, old(buf), now, one.Success?, buf);
        if one.Failure? { return Failure; }
      }
      WritingDone(BROKER, xs, old(buf), buf);
      return Success(());
    }

    method Ints(xs: seq<U32>)
      modifies this
      ensures Wrote(true, List(NUMBER32), xs, old(buf), buf)
    {
      WritingStart(NUMBER32, xs, buf);
      Count(|xs|);
      for i := 0 to |xs|
        invariant Writing(NUMBER32, xs, i, old(buf), buf)
      {
        ghost var now := buf;
        Int(xs[i]);
        WritingNext(NUMBER32, xs, i, old(buf), now, true, buf);
      }
      WritingDone(NUMBER32, xs, old(buf), buf);
    }

    method InSync(v: (seq<U32>, U32))
      modifies this
      ensures Wrote(true, IN_SYNC, v, old(buf), buf)
    {
      Ints(v.0);
      ghost var b1 := buf;
      Int(v.1);
      PairWrote(List(NUMBER32), NUMBER32, v, true, true, old(buf), b1, buf);
    }

    method Replicas(v: (seq<U32>, (seq<U32>, U32)))
      modifies this
      ensures Wrote(true, REPLICAS, v, old(buf), buf)
    {
      Ints(v.0);
      ghost var b1 := buf;
      InSync(v.1);
      PairWrote(List(NUMBER32), IN_SYNC, v, true, true, old(buf), b1, buf);
    }

    method Placement(v: (U64, (seq<U32>, (seq<U32>, U32))))
      modifies this
      ensures Wrote(true, PLACEMENT, v, old(buf), buf)
    {
      Long(v.0);
      ghost var b1 := buf;
      Replicas(v.1);
      PairWrote(NUMBER64, REPLICAS, v, true, true, old(buf), b1, buf);
    }

    method Partition(p: PartitionInfo)
      modifies this
      ensures Wrote(true, PARTITION, p, old(buf), buf)
    {
      Int(p.partitionId);
      ghost var b1 := buf;
      Int(p.leader);
      ghost var b2 := buf;
      Placement((p.hwm, (p.replicas, (p.isr, p.leaderEpoch))));
      TripleWrote(NUMBER32, NUMBER32, PLACEMENT, PartitionParts(p), true, true, true, old(buf), b1, b2, buf);
      MapWrote(Pair(NUMBER32, Pair(NUMBER32, PLACEMENT)), MakePartition, PartitionParts, p, true, old(buf), buf);
    }

    method Partitions(xs: seq<PartitionInfo>)
      modifies this
      ensures Wrote(true, List(PARTITION), xs, old(buf), buf)
    {
      WritingStart(PARTITION, xs, buf);
      Count(|xs|);
      for i := 0 to |xs|
        invariant Writing(PARTITION, xs, i, old(buf), buf)
      {
        ghost var now := buf;
        Partition(xs[i]);
        WritingNext(PARTITION, xs, i, old(buf), now, true, buf);
      }
      WritingDone(PARTITION, xs, old(buf), buf);
    }

    method Coded(v: (U16, seq<PartitionInfo>))
      modifies this
      ensures Wrote(true, CODED, v, old(buf), buf)
    {
      Short(v.0);
      ghost var b1 := buf;
      Partitions(v.1);
      PairWrote(NUMBER16, List(PARTITION), v, true, true, old(buf), b1, buf);
    }

    method Topic(t: TopicInfo) returns (r: Result<()>)
      modifies this
      ensures Wrote(r.Success?, TOPIC, t, old(buf), buf)
    {
      r := String(t.name);
      ghost var b1, b2 := buf, buf;
      if r.Success? {
        Int(t.topicId);
        b2 := buf;
        Coded((t.errorCode, t.partitions));
      }
      TripleWrote(TEXT, NUMBER32, CODED, TopicParts(t), r.Success?, true, true, old(buf), b1, b2, buf);
      MapWrote(Pair(TEXT, Pair(NUMBER32, CODED)), MakeTopic, TopicParts, t, r.Success?, old(buf), buf);
    }

    method Topics(xs: seq<TopicInfo>) returns (r: Result<()>)
      modifies this
      ensures Wrote(r.Success?, List(TOPIC), xs, old(buf), buf)
    {
      WritingStart(TOPIC, xs, buf);
      Count(|xs|);
      r := TopicEntries(xs, old(buf));
    }

    method TopicEntries(xs: seq<TopicInfo>, ghost before: Bytes) returns (r: Result<()>)
      requires Writing(TOPIC, xs, 0, before, buf)
      modifies this
      ensures Wrote(r.Success?, List(TOPIC), xs, before, buf)
    {
      for i := 0 to |xs|
        invariant Writing(TOPIC, xs, i, before, buf)
      {
        ghost var now := buf;
        var one := Topic(xs[i]);
        WritingNext(TOPIC, xs, i, before, now, one.Success?, buf);
        if one.Failure? { return Failure; }
      }
      WritingDone(TOPIC, xs, before, buf);
      return Success(());
    }

    method OneAssignment(a: Assignment) returns (r: Result<()>)
      modifies this
      ensures Wrote(r.Success?, ASSIGNMENT, a, old(buf), buf)
    {
      r := String(a.topic);
      ghost var b1 := buf;
      if r.Success? {
        Int(a.partition);
      }
      PairWrote(TEXT, NUMBER32, AssignmentParts(a), r.Success?, true, old(buf), b1, buf);
      MapWrote(Pair(TEXT, NUMBER32), MakeAssignment, AssignmentParts, a, r.Success?, old(buf), buf);
    }

    method Assignments(xs: seq<Assignment>) returns (r: Result<()>)
      modifies this
      ensures Wrote(r.Success?, List(ASSIGNMENT), xs, old(buf), buf)
    {
      WritingStart(ASSIGNMENT, xs, buf);
      Count(|xs|);
      for i := 0 to |xs|
        invariant Writing(ASSIGNMENT, xs, i, old(buf), buf)
      {
        ghost var now := buf;
        var one := OneAssignment(xs[i]);
        WritingNext(ASSIGNMENT, xs, i, old(buf), now, one.Success?, buf);
        if one.Failure? { return Failure; }
      }
      WritingDone(ASSIGNMENT, xs, old(buf), buf);
      return Success(());
    }

    method Strings(xs: seq<Bytes>) returns (r: Result<()>)
      modifies this
      ensures Wrote(r.Success?, List(TEXT), xs, old(buf), buf)
    {
      WritingStart(TEXT, xs, buf);
      Count(|xs|);
      for i := 0 to |xs|
        invariant Writing(TEXT, xs, i, old(buf), buf)
      {
        ghost var now := buf;
        var one := String(xs[i]);
        WritingNext(TEXT, xs, i, old(buf), now, one.Success?, buf);
        if one.Failure? { return Failure; }
      }
      WritingDone(TEXT, xs, old(buf), buf);
      return Success(());
    }

    method Acked(v: (U8, seq<ProduceMessage>)) returns (r: Result<()>)
      modifies this
      ensures Wrote(r.Success?, ACKED, v, old(buf), buf)
    {
      Byte(v.0);
      ghost var b1 := buf;
      r := MessageList(v.1);
      PairWrote(NUMBER8, List(MESSAGE), v, true, r.Success?, old(buf), b1, buf);
    }

    method ProduceBody(v: ProduceBody) returns (r: Result<()>)
      modifies this
      ensures Wrote(r.Success?, PRODUCE_BODY, v, old(buf), buf)
    {
      ghost var ok1, lastOk := true, true;
      r := String(v.0);
      ok1 := r.Success?;
      ghost var b1, b2 := buf, buf;
      if r.Success? {
        SignedInt(v.1.0);
        b2 := buf;
        r := Acked(v.1.1);
        lastOk := r.Success?;
      }
      TripleWrote(TEXT, SIGNED32, ACKED, v, ok1, true, lastOk, old(buf), b1, b2, buf);
    }

    method ProduceTrailer(v: ProduceTrailer)
      modifies this
      ensures Wrote(true, PRODUCE_TRAILER, v, old(buf), buf)
    {
      Long(v.0);
      ghost var b1 := buf;
      Short(v.1.0);
      ghost var b2 := buf;
      SignedInt(v.1.1);
      TripleWrote(NUMBER64, NUMBER16, SIGNED32, v, true, true, true, old(buf), b1, b2, buf);
    }

    method FetchLimits(v: (U32, (U32, U32)))
      modifies this
      ensures Wrote(true, LIMITS, v, old(buf), buf)
    {
      Int(v.0);
      ghost var b1 := buf;
      Int(v.1.0);
      ghost var b2 := buf;
      Int(v.1.1);
      TripleWrote(NUMBER32, NUMBER32, NUMBER32, v, true, true, true, old(buf), b1, b2, buf);
    }

    method Window(v: (U64, (U32, (U32, U32))))
      modifies this
      ensures Wrote(true, WINDOW, v, old(buf), buf)
    {
      Long(v.0);
      ghost var b1 := buf;
      FetchLimits(v.1);
      PairWrote(NUMBER64, LIMITS, v, true, true, old(buf), b1, buf);
    }

    method FetchBody(v: FetchBody) returns (r: Result<()>)
      modifies this
      ensures Wrote(r.Success?, FETCH_BODY, v, old(buf), buf)
    {
      r := String(v.0);
      ghost var b1, b2 := buf, buf;
      if r.Success? {
        Int(v.1.0);
        b2 := buf;
        Window(v.1.1);
      }
      TripleWrote(TEXT, NUMBER32, WINDOW, v, r.Success?, true, true, old(buf), b1, b2, buf);
    }

    method Marked(v: (U64, (U16, seq<FetchRecord>))) returns (r: Result<()>)
      modifies this
      ensures Wrote(r.Success?, MARKED, v, old(buf), buf)
    {
      Long(v.0);
      ghost var b1 := buf;
      Short(v.1.0);
      ghost var b2 := buf;
      r := Records(v.1.1);
      TripleWrote(NUMBER64, NUMBER16, List(RECORD), v, true, true, r.Success?, old(buf), b1, b2, buf);
    }

    method Subscription(v: (U32, seq<Bytes>)) returns (r: Result<()>)
      modifies this
      ensures Wrote(r.Success?, SUBSCRIPTION, v, old(buf), buf)
    {
      Int(v.0);
      ghost var b1 := buf;
      r := Strings(v.1);
      PairWrote(NUMBER32, List(TEXT), v, true, r.Success?, old(buf), b1, buf);
    }

    method JoinBody(v: JoinBody) returns (r: Result<()>)
      modifies this
      ensures Wrote(r.Success?, JOIN_BODY, v, old(buf), buf)
    {
      ghost var ok1, ok2, lastOk := true, true, true;
      r := String(v.0);
      ok1 := r.Success?;
      ghost var b1, b2 := buf, buf;
      if r.Success? {
        r := String(v.1.0);
        ok2 := r.Success?;
        b2 := buf;
        if r.Success? {
          r := Subscription(v.1.1);
          lastOk := r.Success?;
        }
      }
      TripleWrote(TEXT, TEXT, SUBSCRIPTION, v, ok1, ok2, lastOk, old(buf), b1, b2, buf);
    }

    method JoinTrailer(v: (Bytes, U32)) returns (r: Result<()>)
      modifies this
      ensures Wrote(r.Success?, JOIN_TRAILER, v, old(buf), buf)
    {
      r := String(v.0);
      ghost var b1 := buf;
      if r.Success? {
        Int(v.1);
        DefaultedWrote(NUMBER32, 4, 0, v.1, true, b1, buf);
      }
      PairWrote(TEXT, DEFAULTED32, v, r.Success?, true, old(buf), b1, buf);
    }

    method Grant(v: (Bytes, seq<Assignment>)) returns (r: Result<()>)
      modifies this
      ensures Wrote(r.Success?, GRANT, v, old(buf), buf)
    {
      ghost var ok1, lastOk := true, true;
      r := String(v.0);
      ok1 := r.Success?;
      ghost var b1 := buf;
      if r.Success? {
        r := Assignments(v.1);
        lastOk := r.Success?;
      }
      PairWrote(TEXT, List(ASSIGNMENT), v, ok1, lastOk, old(buf), b1, buf);
    }

    method JoinedBody(v: JoinedBody) returns (r: Result<()>)
      modifies this
      ensures Wrote(r.Success?, JOINED_BODY, v, old(buf), buf)
    {
      Short(v.0);
      ghost var b1 := buf;
      Int(v.1.0);
      ghost var b2 := buf;
      r := Grant(v.1.1);
      TripleWrote(NUMBER16, NUMBER32, GRANT, v, true, true, r.Success?, old(buf), b1, b2, buf);
    }

    method JoinedHead(v: JoinedHead) returns (r: Result<()>)
      modifies this
      ensures Wrote(r.Success?, JOINED_HEAD, v, old(buf), buf)
    {
      ghost var ok1, lastOk := true, true;
      r := JoinedBody(v.0);
      ok1 := r.Success?;
      ghost var b1 := buf;
      if r.Success? {
        r := Assignments(v.1);
        DefaultedWrote(List(ASSIGNMENT), 4, [], v.1, r.Success?, b1, buf);
        lastOk := r.Success?;
      }
      PairWrote(JOINED_BODY, REVOKED, v, ok1, lastOk, old(buf), b1, buf);
    }

    method FetchTrailer(v: (Bytes, Bytes)) returns (r: Result<()>)
      modifies this
      ensures Wrote(r.Success?, FETCH_TRAILER, v, old(buf), buf)
    {
      ghost var ok1, lastOk := true, true;
      r := String(v.0);
      ok1 := r.Success?;
      ghost var b1 := buf;
      if r.Success? {
        r := String(v.1);
        lastOk := r.Success?;
      }
      PairWrote(TEXT, TEXT, v, ok1, lastOk, old(buf), b1, buf);
    }

    method MetadataBody(v: MetadataBody) returns (r: Result<()>)
      modifies this
      ensures Wrote(r.Success?, METADATA_BODY, v, old(buf), buf)
    {
      ghost var ok1, lastOk := true, true;
      r := Brokers(v.0);
      ok1 := r.Success?;
      ghost var b1 := buf;
      if r.Success? {
        r := Topics(v.1);
        lastOk := r.Success?;
      }
      PairWrote(List(BROKER), List(TOPIC), v, ok1, lastOk, old(buf), b1, buf);
    }

    method FetchResponseAll(x: FetchResponse) returns (r: Result<()>)
      modifies this
      ensures Wrote(r.Success?, FETCH_RESPONSE, x, old(buf), buf)
    {
      ghost var ok1, lastOk := true, true;
      r := String(x.topic);
      ok1 := r.Success?;
      ghost var b1, b2 := buf, buf;
      if r.Success? {
        Int(x.partition);
        b2 := buf;
        r := Marked((x.highWatermark, (x.errorCode, x.records)));
        lastOk := r.Success?;
      }
      TripleWrote(TEXT, NUMBER32, MARKED, FetchResponseParts(x), ok1, true, lastOk, old(buf), b1, b2, buf);
      MapWrote(Pair(TEXT, Pair(NUMBER32, MARKED)), MakeFetchResponse, FetchResponseParts, x, r.Success?, old(buf), buf);
    }

    method Produce(x: ProduceRequest) returns (r: Result<()>)
      modifies this
      ensures Wrote(r.Success?, PRODUCE, x, old(buf), buf)
    {
      r := ProduceBody(ProduceParts(x).0);
      ghost var b1 := buf;
      if r.Success? {
        ProduceTrailer(ProduceParts(x).1);
        DefaultedWrote(PRODUCE_TRAILER, PRODUCE_TRAILER_LEN, NOT_IDEMPOTENT, ProduceParts(x).1, true, b1, buf);
      }
      PairWrote(PRODUCE_BODY, PRODUCE_REST, ProduceParts(x), r.Success?, true, old(buf), b1, buf);
      MapWrote(Pair(PRODUCE_BODY, PRODUCE_REST), MakeProduce, ProduceParts, x, r.Success?, old(buf), buf);
    }

    method Metadata(x: MetadataResponse) returns (r: Result<()>)
      modifies this
      ensures Wrote(r.Success?, METADATA, x, old(buf), buf)
    {
      r := MetadataBody(MetadataParts(x).0);
      ghost var b1 := buf;
      if r.Success? {
        Int(x.controllerId);
        DefaultedWrote(NUMBER32, 4, 0, x.controllerId, true, b1, buf);
      }
      PairWrote(METADATA_BODY, DEFAULTED32, MetadataParts(x), r.Success?, true, old(buf), b1, buf);
      MapWrote(Pair(METADATA_BODY, DEFAULTED32), MakeMetadata, MetadataParts, x, r.Success?, old(buf), buf);
    }

    method Join(x: JoinGroupRequest) returns (r: Result<()>)
      modifies this
      ensures Wrote(r.Success?, JOIN, x, old(buf), buf)
    {
      ghost var ok1, lastOk := true, true;
      r := JoinBody(JoinParts(x).0);
      ok1 := r.Success?;
      ghost var b1 := buf;
      if r.Success? {
        r := JoinTrailer(JoinParts(x).1);
        DefaultedWrote(JOIN_TRAILER, 1, ([], 0), JoinParts(x).1, r.Success?, b1, buf);
        lastOk := r.Success?;
      }
      PairWrote(JOIN_BODY, JOIN_REST, JoinParts(x), ok1, lastOk, old(buf), b1, buf);
      MapWrote(Pair(JOIN_BODY, JOIN_REST), MakeJoin, JoinParts, x, r.Success?, old(buf), buf);
    }

    method Joined(x: JoinGroupResponse) returns (r: Result<()>)
      modifies this
      ensures Wrote(r.Success?, JOINED, x, old(buf), buf)
    {
      ghost var ok1, lastOk := true, true;
      r := JoinedHead(JoinedParts(x).0);
      ok1 := r.Success?;
      ghost var b1 := buf;
      if r.Success? {
        r := Strings(x.members);
        DefaultedWrote(List(TEXT), 4, [], x.members, r.Success?, b1, buf);
        lastOk := r.Success?;
      }
      PairWrote(JOINED_HEAD, MEMBERS, JoinedParts(x), ok1, lastOk, old(buf), b1, buf);
      MapWrote(Pair(JOINED_HEAD, MEMBERS), MakeJoined, JoinedParts, x, r.Success?, old(buf), buf);
    }
  }

  method EncodeProduceRequest(x: ProduceRequest) returns (r: Result<Bytes>)
    ensures r == Encoding(PRODUCE, x)
  {
    var w := new Writer();
    var all := w.Produce(x);
    Finish(PRODUCE, x, all.Success?, w.buf);
    return if all.Success? then Success(w.buf) else Failure;
  }

  method EncodeFetchRequest(x: FetchRequest) returns (r: Result<Bytes>)
    ensures r == if FETCH.fits(x) then Success(FetchBytes(x)) else Failure
  {
    var w := new Writer();
    var body := w.FetchBody(FetchParts(x).0);
    ghost var mid := w.buf;
    var more := true;
    if body.Success? && (x.groupId != [] || x.memberId != []) {
      var last := w.FetchTrailer((x.groupId, x.memberId));
      more := last.Success?;
    }
    FetchWrote(x, body.Success?, more, mid, w.buf);
    return if body.Success? && more then Success(w.buf) else Failure;
  }

  method EncodeFetchResponse(x: FetchResponse) returns (r: Result<Bytes>)
    ensures r == Encoding(FETCH_RESPONSE, x)
  {
    var w := new Writer();
    var all := w.FetchResponseAll(x);
    Finish(FETCH_RESPONSE, x, all.Success?, w.buf);
    return if all.Success? then Success(w.buf) else Failure;
  }

  method EncodeMetadataResponse(x: MetadataResponse) returns (r: Result<Bytes>)
    ensures r == Encoding(METADATA, x)
  {
    var w := new Writer();
    var all := w.Metadata(x);
    Finish(METADATA, x, all.Success?, w.buf);
    return if all.Success? then Success(w.buf) else Failure;
  }

  method EncodeJoinGroupRequest(x: JoinGroupRequest) returns (r: Result<Bytes>)
    ensures r == Encoding(JOIN, x)
  {
    var w := new Writer();
    var all := w.Join(x);
    Finish(JOIN, x, all.Success?, w.buf);
    return if all.Success? then Success(w.buf) else Failure;
  }

  method EncodeJoinGroupResponse(x: JoinGroupResponse) returns (r: Result<Bytes>)
    ensures r == Encoding(JOINED, x)
  {
    var w := new Writer();
    var all := w.Joined(x);
    Finish(JOINED, x, all.Success?, w.buf);
    return if all.Success? then Success(w.buf) else Failure;
  }
}

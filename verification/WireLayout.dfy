/**
 The bytes of every payload, field by field in the order of the client's
 encoders. Integers are little-endian; a string carries its length in two
 bytes, a byte string in four; a list its count in four.
 */
module WireLayout {
  import opened Options
  import opened Bytes
  import opened Format
  import opened Messages

  // ---------- the layouts ----------

  function Str(s: Bytes): Bytes { Little(|s|, 2) + s }

  function Blob(b: Bytes): Bytes { Little(|b|, 4) + b }

  function MaybeBlob(b: Option<Bytes>): Bytes { match b case None => [255, 255, 255, 255] case Some(v) => Blob(v) }

  /** The elements one after the other. */
  function Each<T>(g: T -> Bytes, xs: seq<T>): Bytes { if xs == [] then [] else g(xs[0]) + Each(g, xs[1..]) }

  function Counted<T>(g: T -> Bytes, xs: seq<T>): Bytes { Little(|xs|, 4) + Each(g, xs) }

  /** Two's complement. */
  function Int32(v: I32): Bytes { Little(v % 0x1_0000_0000, 4) }

  function Int64(v: I64): Bytes { Little(v % 0x1_0000_0000_0000_0000, 8) }

  function HeaderLayout(h: Header): Bytes { Str(h.name) + Blob(h.value) }

  function MessageLayout(m: ProduceMessage): Bytes {
    MaybeBlob(m.key) + Blob(m.value) + Int64(m.timestampMs) + Counted(HeaderLayout, m.headers)
  }

  function ProduceBodyLayout(q: ProduceRequest): Bytes {
    Str(q.topic) + Int32(q.partition) + [q.acks] + Counted(MessageLayout, q.messages)
  }

  function ProduceLayout(q: ProduceRequest): Bytes {
    ProduceBodyLayout(q) + Little(q.producerId, 8) + Little(q.producerEpoch, 2) + Int32(q.baseSequence)
  }

  function FetchBodyLayout(q: FetchRequest): Bytes {
    Str(q.topic) + Little(q.partition, 4) + Little(q.fromOffset, 8)
    + Little(q.maxMessages, 4) + Little(q.maxBytes, 4) + Little(q.maxWaitMs, 4)
  }

  function FetchLayout(q: FetchRequest): Bytes {
    FetchBodyLayout(q) + if q.groupId != [] || q.memberId != [] then Str(q.groupId) + Str(q.memberId) else []
  }

  function RecordLayout(x: FetchRecord): Bytes {
    Little(x.offset, 8) + Int64(x.timestampMs) + MaybeBlob(x.key) + Blob(x.value) + Counted(HeaderLayout, x.headers)
  }

  function FetchResponseLayout(r: FetchResponse): Bytes {
    Str(r.topic) + Little(r.partition, 4) + Little(r.highWatermark, 8) + Little(r.errorCode, 2) + Counted(RecordLayout, r.records)
  }

  function Word(v: U32): Bytes { Little(v, 4) }

  function BrokerLayout(b: BrokerInfo): Bytes { Little(b.nodeId, 4) + Str(b.host) + Little(b.port, 2) }

  function PartitionLayout(p: PartitionInfo): Bytes {
    Little(p.partitionId, 4) + Little(p.leader, 4) + Little(p.hwm, 8)
    + Counted(Word, p.replicas) + Counted(Word, p.isr) + Little(p.leaderEpoch, 4)
  }

  function TopicLayout(t: TopicInfo): Bytes {
    Str(t.name) + Little(t.topicId, 4) + Little(t.errorCode, 2) + Counted(PartitionLayout, t.partitions)
  }

  function MetadataBodyLayout(r: MetadataResponse): Bytes { Counted(BrokerLayout, r.brokers) + Counted(TopicLayout, r.topics) }

  function MetadataLayout(r: MetadataResponse): Bytes { MetadataBodyLayout(r) + Little(r.controllerId, 4) }

  function JoinBodyLayout(q: JoinGroupRequest): Bytes {
    Str(q.groupId) + Str(q.memberId) + Little(q.sessionTimeoutMs, 4) + Counted(Str, q.topics)
  }

  function JoinLayout(q: JoinGroupRequest): Bytes { JoinBodyLayout(q) + Str(q.instanceId) + Little(q.rebalanceTimeoutMs, 4) }

  function AssignmentLayout(a: Assignment): Bytes { Str(a.topic) + Little(a.partition, 4) }

  function JoinedBodyLayout(r: JoinGroupResponse): Bytes {
    Little(r.errorCode, 2) + Little(r.generation, 4) + Str(r.memberId) + Counted(AssignmentLayout, r.assignment)
  }

  function JoinedLayout(r: JoinGroupResponse): Bytes {
    JoinedBodyLayout(r) + Counted(AssignmentLayout, r.revoked) + Counted(Str, r.members)
  }

  // ---------- the formats are laid out so ----------

  lemma PairPut<A, B>(f: Format<A>, g: Format<B>, x: A, y: B)
    ensures Pair(f, g).put((x, y)) == f.put(x) + g.put(y)
  { }

  lemma MapPut<A, B>(f: Format<A>, to: A -> B, from: B -> A, y: B)
    ensures Map(f, to, from).put(y) == f.put(from(y))
  { }

  lemma {:induction false} EachPut<T(!new)>(f: Format<T>, g: T -> Bytes, xs: seq<T>)
    requires forall x :: f.put(x) == g(x)
    ensures PutAll(f, xs) == Each(g, xs)
  {
    if xs != [] { EachPut(f, g, xs[1..]); }
  }

  lemma ListPut<T(!new)>(f: Format<T>, g: T -> Bytes, xs: seq<T>)
    requires forall x :: f.put(x) == g(x)
    ensures List(f).put(xs) == Counted(g, xs)
  {
    EachPut(f, g, xs);
  }

  lemma PrimitivePuts(v: I32, w: I64, b: Option<Bytes>)
    ensures SIGNED32.put(v) == Int32(v) && SIGNED64.put(w) == Int64(w) && OPTIONAL_BYTES.put(b) == MaybeBlob(b)
  {
    MapPut(NUMBER32, ToI32, OfI32, v);
    MapPut(NUMBER64, ToI64, OfI64, w);
    assert OfI32(v) == v % 0x1_0000_0000 && OfI64(w) == w % 0x1_0000_0000_0000_0000;
    assert Little(0xFFFF_FFFF, 4) == [255] + ([255] + ([255] + ([255] + [])));
  }

  lemma HeaderPut(h: Header)
    ensures HEADER.put(h) == HeaderLayout(h)
  {
    MapPut(Pair(TEXT, BYTE_STRING), MakeHeader, HeaderParts, h);
    PairPut(TEXT, BYTE_STRING, h.name, h.value);
  }

  lemma MessagePut(m: ProduceMessage)
    ensures MESSAGE.put(m) == MessageLayout(m)
  {
    forall h: Header { HeaderPut(h); }
    ListPut(HEADER, HeaderLayout, m.headers);
    PrimitivePuts(0, m.timestampMs, m.key);
    MapPut(Pair(OPTIONAL_BYTES, VALUED), MakeMessage, MessageParts, m);
    PairPut(OPTIONAL_BYTES, VALUED, m.key, (m.value, (m.timestampMs, m.headers)));
    PairPut(BYTE_STRING, STAMPED, m.value, (m.timestampMs, m.headers));
    PairPut(SIGNED64, List(HEADER), m.timestampMs, m.headers);
    Chain4(MaybeBlob(m.key), Blob(m.value), Int64(m.timestampMs), Counted(HeaderLayout, m.headers));
  }

  lemma Chain3(a: Bytes, b: Bytes, c: Bytes)
    ensures a + (b + c) == a + b + c
  { }

  lemma Chain4(a: Bytes, b: Bytes, c: Bytes, d: Bytes)
    ensures a + (b + (c + d)) == a + b + c + d
  {
    Chain3(b, c, d);
    Chain3(a, b + c, d);
  }

  lemma Chain5(a: Bytes, b: Bytes, c: Bytes, d: Bytes, e: Bytes)
    ensures a + (b + (c + (d + e))) == a + b + c + d + e
  {
    Chain4(b, c, d, e);
    Chain4(a, b, c, d);
    Chain3(a, b + c + d, e);
  }

  lemma Chain6(a: Bytes, b: Bytes, c: Bytes, d: Bytes, e: Bytes, f: Bytes)
    ensures a + (b + (c + (d + (e + f)))) == a + b + c + d + e + f
  {
    Chain5(b, c, d, e, f);
    Chain5(a, b, c, d, e);
    Chain3(a, b + c + d + e, f);
  }

  lemma OneByte(v: U8)
    ensures NUMBER8.put(v) == [v]
  {
    assert Little(v, 1) == [v % 256] + Little(v / 256, 0);
  }

  lemma ProduceBodyPut(q: ProduceRequest)
    ensures PRODUCE_BODY.put(ProduceParts(q).0) == ProduceBodyLayout(q)
  {
    forall m: ProduceMessage { MessagePut(m); }
    ListPut(MESSAGE, MessageLayout, q.messages);
    PrimitivePuts(q.partition, 0, None);
    OneByte(q.acks);
    PairPut(TEXT, Pair(SIGNED32, ACKED), q.topic, (q.partition, (q.acks, q.messages)));
    PairPut(SIGNED32, ACKED, q.partition, (q.acks, q.messages));
    PairPut(NUMBER8, List(MESSAGE), q.acks, q.messages);
    Chain4(Str(q.topic), Int32(q.partition), [q.acks], Counted(MessageLayout, q.messages));
  }

  lemma ProduceTrailerPut(q: ProduceRequest)
    ensures PRODUCE_REST.put(ProduceParts(q).1) == Little(q.producerId, 8) + (Little(q.producerEpoch, 2) + Int32(q.baseSequence))
  {
    PrimitivePuts(q.baseSequence, 0, None);
    PairPut(NUMBER64, Pair(NUMBER16, SIGNED32), q.producerId, (q.producerEpoch, q.baseSequence));
    PairPut(NUMBER16, SIGNED32, q.producerEpoch, q.baseSequence);
  }

  lemma ProduceAsLaidOut(q: ProduceRequest)
    ensures PRODUCE.put(q) == ProduceLayout(q)
  {
    MapPut(PRODUCE_PARTS, MakeProduce, ProduceParts, q);
    PairPut(PRODUCE_BODY, PRODUCE_REST, ProduceParts(q).0, ProduceParts(q).1);
    ProduceBodyPut(q);
    ProduceTrailerPut(q);
    Chain4(ProduceBodyLayout(q), Little(q.producerId, 8), Little(q.producerEpoch, 2), Int32(q.baseSequence));
  }

  lemma FetchBodyPut(q: FetchRequest)
    ensures FETCH_BODY.put(FetchParts(q).0) == FetchBodyLayout(q)
  {
    var limits := (q.maxMessages, (q.maxBytes, q.maxWaitMs));
    PairPut(TEXT, Pair(NUMBER32, WINDOW), q.topic, (q.partition, (q.fromOffset, limits)));
    PairPut(NUMBER32, WINDOW, q.partition, (q.fromOffset, limits));
    PairPut(NUMBER64, LIMITS, q.fromOffset, limits);
    PairPut(NUMBER32, Pair(NUMBER32, NUMBER32), q.maxMessages, (q.maxBytes, q.maxWaitMs));
    PairPut(NUMBER32, NUMBER32, q.maxBytes, q.maxWaitMs);
    Chain6(Str(q.topic), Little(q.partition, 4), Little(q.fromOffset, 8), Little(q.maxMessages, 4), Little(q.maxBytes, 4), Little(q.maxWaitMs, 4));
  }

  lemma FetchAsLaidOut(q: FetchRequest)
    ensures FetchBytes(q) == FetchLayout(q)
  {
    FetchBodyPut(q);
    MapPut(FETCH_PARTS, MakeFetch, FetchParts, q);
    PairPut(FETCH_BODY, FETCH_REST, FetchParts(q).0, FetchParts(q).1);
    PairPut(TEXT, TEXT, q.groupId, q.memberId);
    assert FETCH_BODY.put(FetchParts(q).0) + [] == FETCH_BODY.put(FetchParts(q).0);
  }

  lemma RecordPut(x: FetchRecord)
    ensures RECORD.put(x) == RecordLayout(x)
  {
    forall h: Header { HeaderPut(h); }
    ListPut(HEADER, HeaderLayout, x.headers);
    PrimitivePuts(0, x.timestampMs, x.key);
    var keyed := (x.key, (x.value, x.headers));
    MapPut(Pair(NUMBER64, Pair(SIGNED64, KEYED)), MakeRecord, RecordParts, x);
    PairPut(NUMBER64, Pair(SIGNED64, KEYED), x.offset, (x.timestampMs, keyed));
    PairPut(SIGNED64, KEYED, x.timestampMs, keyed);
    PairPut(OPTIONAL_BYTES, Pair(BYTE_STRING, List(HEADER)), x.key, (x.value, x.headers));
    PairPut(BYTE_STRING, List(HEADER), x.value, x.headers);
    Chain5(Little(x.offset, 8), Int64(x.timestampMs), MaybeBlob(x.key), Blob(x.value), Counted(HeaderLayout, x.headers));
  }

  lemma FetchResponseAsLaidOut(r: FetchResponse)
    ensures FETCH_RESPONSE.put(r) == FetchResponseLayout(r)
  {
    forall x: FetchRecord { RecordPut(x); }
    ListPut(RECORD, RecordLayout, r.records);
    var marked := (r.highWatermark, (r.errorCode, r.records));
    MapPut(FETCH_RESPONSE_PARTS, MakeFetchResponse, FetchResponseParts, r);
    PairPut(TEXT, Pair(NUMBER32, MARKED), r.topic, (r.partition, marked));
    PairPut(NUMBER32, MARKED, r.partition, marked);
    PairPut(NUMBER64, Pair(NUMBER16, List(RECORD)), r.highWatermark, (r.errorCode, r.records));
    PairPut(NUMBER16, List(RECORD), r.errorCode, r.records);
    Chain5(Str(r.topic), Little(r.partition, 4), Little(r.highWatermark, 8), Little(r.errorCode, 2), Counted(RecordLayout, r.records));
  }

  lemma BrokerPut(b: BrokerInfo)
    ensures BROKER.put(b) == BrokerLayout(b)
  {
    MapPut(Pair(NUMBER32, ADDRESS), MakeBroker, BrokerParts, b);
    PairPut(NUMBER32, ADDRESS, b.nodeId, (b.host, b.port));
    PairPut(TEXT, NUMBER16, b.host, b.port);
    Chain3(Little(b.nodeId, 4), Str(b.host), Little(b.port, 2));
  }

  lemma PartitionPut(p: PartitionInfo)
    ensures PARTITION.put(p) == PartitionLayout(p)
  {
    ListPut(NUMBER32, Word, p.replicas);
    ListPut(NUMBER32, Word, p.isr);
    var sync := (p.isr, p.leaderEpoch);
    var placed := (p.hwm, (p.replicas, sync));
    MapPut(Pair(NUMBER32, Pair(NUMBER32, PLACEMENT)), MakePartition, PartitionParts, p);
    PairPut(NUMBER32, Pair(NUMBER32, PLACEMENT), p.partitionId, (p.leader, placed));
    PairPut(NUMBER32, PLACEMENT, p.leader, placed);
    PairPut(NUMBER64, REPLICAS, p.hwm, (p.replicas, sync));
    PairPut(List(NUMBER32), IN_SYNC, p.replicas, sync);
    PairPut(List(NUMBER32), NUMBER32, p.isr, p.leaderEpoch);
    Chain6(Little(p.partitionId, 4), Little(p.leader, 4), Little(p.hwm, 8), Counted(Word, p.replicas), Counted(Word, p.isr), Little(p.leaderEpoch, 4));
  }

  lemma TopicPut(t: TopicInfo)
    ensures TOPIC.put(t) == TopicLayout(t)
  {
    forall p: PartitionInfo { PartitionPut(p); }
    ListPut(PARTITION, PartitionLayout, t.partitions);
    MapPut(Pair(TEXT, Pair(NUMBER32, CODED)), MakeTopic, TopicParts, t);
    PairPut(TEXT, Pair(NUMBER32, CODED), t.name, (t.topicId, (t.errorCode, t.partitions)));
    PairPut(NUMBER32, CODED, t.topicId, (t.errorCode, t.partitions));
    PairPut(NUMBER16, List(PARTITION), t.errorCode, t.partitions);
    Chain4(Str(t.name), Little(t.topicId, 4), Little(t.errorCode, 2), Counted(PartitionLayout, t.partitions));
  }

  lemma MetadataBodyPut(r: MetadataResponse)
    ensures METADATA_BODY.put((r.brokers, r.topics)) == MetadataBodyLayout(r)
  {
    forall b: BrokerInfo { BrokerPut(b); }
    forall t: TopicInfo { TopicPut(t); }
    ListPut(BROKER, BrokerLayout, r.brokers);
    ListPut(TOPIC, TopicLayout, r.topics);
    PairPut(List(BROKER), List(TOPIC), r.brokers, r.topics);
  }

  lemma MetadataAsLaidOut(r: MetadataResponse)
    ensures METADATA.put(r) == MetadataLayout(r)
  {
    MetadataBodyPut(r);
    MapPut(METADATA_PARTS, MakeMetadata, MetadataParts, r);
    PairPut(METADATA_BODY, DEFAULTED32, (r.brokers, r.topics), r.controllerId);
  }

  lemma JoinBodyPut(q: JoinGroupRequest)
    ensures JOIN_BODY.put(JoinParts(q).0) == JoinBodyLayout(q)
  {
    ListPut(TEXT, Str, q.topics);
    var subscription := (q.sessionTimeoutMs, q.topics);
    PairPut(TEXT, Pair(TEXT, SUBSCRIPTION), q.groupId, (q.memberId, subscription));
    PairPut(TEXT, SUBSCRIPTION, q.memberId, subscription);
    PairPut(NUMBER32, List(TEXT), q.sessionTimeoutMs, q.topics);
    Chain4(Str(q.groupId), Str(q.memberId), Little(q.sessionTimeoutMs, 4), Counted(Str, q.topics));
  }

  lemma JoinAsLaidOut(q: JoinGroupRequest)
    ensures JOIN.put(q) == JoinLayout(q)
  {
    JoinBodyPut(q);
    MapPut(JOIN_PARTS, MakeJoin, JoinParts, q);
    PairPut(JOIN_BODY, JOIN_REST, JoinParts(q).0, JoinParts(q).1);
    PairPut(TEXT, DEFAULTED32, q.instanceId, q.rebalanceTimeoutMs);
    Chain3(JoinBodyLayout(q), Str(q.instanceId), Little(q.rebalanceTimeoutMs, 4));
  }

  lemma AssignmentPut(a: Assignment)
    ensures ASSIGNMENT.put(a) == AssignmentLayout(a)
  {
    MapPut(Pair(TEXT, NUMBER32), MakeAssignment, AssignmentParts, a);
    PairPut(TEXT, NUMBER32, a.topic, a.partition);
  }

  lemma JoinedBodyPut(r: JoinGroupResponse)
    ensures JOINED_BODY.put(JoinedParts(r).0.0) == JoinedBodyLayout(r)
  {
    forall a: Assignment { AssignmentPut(a); }
    ListPut(ASSIGNMENT, AssignmentLayout, r.assignment);
    PairPut(NUMBER16, Pair(NUMBER32, GRANT), r.errorCode, (r.generation, (r.memberId, r.assignment)));
    PairPut(NUMBER32, GRANT, r.generation, (r.memberId, r.assignment));
    PairPut(TEXT, List(ASSIGNMENT), r.memberId, r.assignment);
    Chain4(Little(r.errorCode, 2), Little(r.generation, 4), Str(r.memberId), Counted(AssignmentLayout, r.assignment));
  }

  lemma JoinedHeadPut(r: JoinGroupResponse)
    ensures JOINED_HEAD.put(JoinedParts(r).0) == JoinedBodyLayout(r) + Counted(AssignmentLayout, r.revoked)
  {
    JoinedBodyPut(r);
    forall a: Assignment { AssignmentPut(a); }
    ListPut(ASSIGNMENT, AssignmentLayout, r.revoked);
    PairPut(JOINED_BODY, REVOKED, JoinedParts(r).0.0, r.revoked);
  }

  lemma JoinedAsLaidOut(r: JoinGroupResponse)
    ensures JOINED.put(r) == JoinedLayout(r)
  {
    JoinedHeadPut(r);
    ListPut(TEXT, Str, r.members);
    MapPut(JOINED_PARTS, MakeJoined, JoinedParts, r);
    PairPut(JOINED_HEAD, MEMBERS, JoinedParts(r).0, r.members);
  }
}

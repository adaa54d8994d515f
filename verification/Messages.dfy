/**
 The client's message payloads. Each message is a body in a lawful format,
 followed by the trailing fields that later versions added; a reader fills in
 defaults for trailing fields that are missing.
 */
module Messages {
  import opened Options
  import opened Bytes
  import opened Format
  import Frame

  datatype Header = Header(name: Bytes, value: Bytes)

  datatype ProduceMessage = ProduceMessage(key: Option<Bytes>, value: Bytes, timestampMs: I64, headers: seq<Header>)

  datatype ProduceRequest = ProduceRequest(topic: Bytes, partition: I32, acks: U8, messages: seq<ProduceMessage>,
                                           producerId: U64, producerEpoch: U16, baseSequence: I32)

  datatype FetchRequest = FetchRequest(topic: Bytes, partition: U32, fromOffset: U64, maxMessages: U32, maxBytes: U32,
                                       maxWaitMs: U32, groupId: Bytes, memberId: Bytes)

  datatype FetchRecord = FetchRecord(offset: U64, timestampMs: I64, key: Option<Bytes>, value: Bytes, headers: seq<Header>)

  datatype FetchResponse = FetchResponse(topic: Bytes, partition: U32, highWatermark: U64, errorCode: U16, records: seq<FetchRecord>)

  datatype BrokerInfo = BrokerInfo(nodeId: U32, host: Bytes, port: U16)

  datatype PartitionInfo = PartitionInfo(partitionId: U32, leader: U32, hwm: U64, replicas: seq<U32>, isr: seq<U32>, leaderEpoch: U32)

  datatype TopicInfo = TopicInfo(name: Bytes, topicId: U32, errorCode: U16, partitions: seq<PartitionInfo>)

  datatype MetadataResponse = MetadataResponse(brokers: seq<BrokerInfo>, topics: seq<TopicInfo>, controllerId: U32)

  datatype Assignment = Assignment(topic: Bytes, partition: U32)

  datatype JoinGroupRequest = JoinGroupRequest(groupId: Bytes, memberId: Bytes, sessionTimeoutMs: U32, topics: seq<Bytes>,
                                               instanceId: Bytes, rebalanceTimeoutMs: U32)

  datatype JoinGroupResponse = JoinGroupResponse(errorCode: U16, generation: U32, memberId: Bytes, assignment: seq<Assignment>,
                                                 revoked: seq<Assignment>, members: seq<Bytes>)

  // ---------- records ----------

  function MakeHeader(p: (Bytes, Bytes)): Header { Header(p.0, p.1) }
  function HeaderParts(h: Header): (Bytes, Bytes) { (h.name, h.value) }
  const HEADER: Format<Header> := Map(Pair(TEXT, BYTE_STRING), MakeHeader, HeaderParts)

  function MakeMessage(p: (Option<Bytes>, (Bytes, (I64, seq<Header>)))): ProduceMessage { ProduceMessage(p.0, p.1.0, p.1.1.0, p.1.1.1) }
  function MessageParts(m: ProduceMessage): (Option<Bytes>, (Bytes, (I64, seq<Header>))) { (m.key, (m.value, (m.timestampMs, m.headers))) }
  const STAMPED: Format<(I64, seq<Header>)> := Pair(SIGNED64, List(HEADER))
  const VALUED: Format<(Bytes, (I64, seq<Header>))> := Pair(BYTE_STRING, STAMPED)
  const MESSAGE: Format<ProduceMessage> := Map(Pair(OPTIONAL_BYTES, VALUED), MakeMessage, MessageParts)

  function MakeRecord(p: (U64, (I64, (Option<Bytes>, (Bytes, seq<Header>))))): FetchRecord {
    FetchRecord(p.0, p.1.0, p.1.1.0, p.1.1.1.0, p.1.1.1.1)
  }
  function RecordParts(r: FetchRecord): (U64, (I64, (Option<Bytes>, (Bytes, seq<Header>)))) {
    (r.offset, (r.timestampMs, (r.key, (r.value, r.headers))))
  }
  const KEYED: Format<(Option<Bytes>, (Bytes, seq<Header>))> := Pair(OPTIONAL_BYTES, Pair(BYTE_STRING, List(HEADER)))
  const RECORD: Format<FetchRecord> := Map(Pair(NUMBER64, Pair(SIGNED64, KEYED)), MakeRecord, RecordParts)

  function MakeBroker(p: (U32, (Bytes, U16))): BrokerInfo { BrokerInfo(p.0, p.1.0, p.1.1) }
  function BrokerParts(b: BrokerInfo): (U32, (Bytes, U16)) { (b.nodeId, (b.host, b.port)) }
  const ADDRESS: Format<(Bytes, U16)> := Pair(TEXT, NUMBER16)
  const BROKER: Format<BrokerInfo> := Map(Pair(NUMBER32, ADDRESS), MakeBroker, BrokerParts)

  function MakePartition(p: (U32, (U32, (U64, (seq<U32>, (seq<U32>, U32)))))): PartitionInfo {
    PartitionInfo(p.0, p.1.0, p.1.1.0, p.1.1.1.0, p.1.1.1.1.0, p.1.1.1.1.1)
  }
  function PartitionParts(p: PartitionInfo): (U32, (U32, (U64, (seq<U32>, (seq<U32>, U32))))) {
    (p.partitionId, (p.leader, (p.hwm, (p.replicas, (p.isr, p.leaderEpoch)))))
  }
  const IN_SYNC: Format<(seq<U32>, U32)> := Pair(List(NUMBER32), NUMBER32)
  const REPLICAS: Format<(seq<U32>, (seq<U32>, U32))> := Pair(List(NUMBER32), IN_SYNC)
  const PLACEMENT: Format<(U64, (seq<U32>, (seq<U32>, U32)))> := Pair(NUMBER64, REPLICAS)
  const PARTITION: Format<PartitionInfo> := Map(Pair(NUMBER32, Pair(NUMBER32, PLACEMENT)), MakePartition, PartitionParts)

  function MakeTopic(p: (Bytes, (U32, (U16, seq<PartitionInfo>)))): TopicInfo { TopicInfo(p.0, p.1.0, p.1.1.0, p.1.1.1) }
  function TopicParts(t: TopicInfo): (Bytes, (U32, (U16, seq<PartitionInfo>))) { (t.name, (t.topicId, (t.errorCode, t.partitions))) }
  const CODED: Format<(U16, seq<PartitionInfo>)> := Pair(NUMBER16, List(PARTITION))
  const TOPIC: Format<TopicInfo> := Map(Pair(TEXT, Pair(NUMBER32, CODED)), MakeTopic, TopicParts)

  function MakeAssignment(p: (Bytes, U32)): Assignment { Assignment(p.0, p.1) }
  function AssignmentParts(a: Assignment): (Bytes, U32) { (a.topic, a.partition) }
  const ASSIGNMENT: Format<Assignment> := Map(Pair(TEXT, NUMBER32), MakeAssignment, AssignmentParts)

  lemma PrimitivesLawful()
    ensures Lawful(TEXT) && Lawful(BYTE_STRING) && Lawful(OPTIONAL_BYTES) && Lawful(SIGNED32) && Lawful(SIGNED64)
    ensures Lawful(NUMBER8) && Lawful(NUMBER16) && Lawful(NUMBER32) && Lawful(NUMBER64)
  {
    TextLawful();
    BytesLawful();
    NumbersLawful();
    SignedLawful();
  }

  lemma HeadersLawful()
    ensures Lawful(List(HEADER))
  {
    PrimitivesLawful();
    PairLawful(TEXT, BYTE_STRING);
    MapLawful(Pair(TEXT, BYTE_STRING), MakeHeader, HeaderParts);
    ListLawful(HEADER);
  }

  lemma MessagesLawful()
    ensures Lawful(List(MESSAGE))
  {
    PrimitivesLawful();
    HeadersLawful();
    PairLawful(SIGNED64, List(HEADER));
    TripleLawful(OPTIONAL_BYTES, BYTE_STRING, STAMPED);
    MapLawful(Pair(OPTIONAL_BYTES, VALUED), MakeMessage, MessageParts);
    ListLawful(MESSAGE);
  }

  lemma RecordsLawful()
    ensures Lawful(List(RECORD))
  {
    PrimitivesLawful();
    HeadersLawful();
    TripleLawful(OPTIONAL_BYTES, BYTE_STRING, List(HEADER));
    TripleLawful(NUMBER64, SIGNED64, KEYED);
    MapLawful(Pair(NUMBER64, Pair(SIGNED64, KEYED)), MakeRecord, RecordParts);
    ListLawful(RECORD);
  }

  lemma BrokersLawful()
    ensures Lawful(List(BROKER))
  {
    PrimitivesLawful();
    TripleLawful(NUMBER32, TEXT, NUMBER16);
    MapLawful(Pair(NUMBER32, ADDRESS), MakeBroker, BrokerParts);
    ListLawful(BROKER);
  }

  lemma PartitionsLawful()
    ensures Lawful(List(PARTITION))
  {
    PrimitivesLawful();
    ListLawful(NUMBER32);
    TripleLawful(List(NUMBER32), List(NUMBER32), NUMBER32);
    PairLawful(NUMBER64, REPLICAS);
    TripleLawful(NUMBER32, NUMBER32, PLACEMENT);
    MapLawful(Pair(NUMBER32, Pair(NUMBER32, PLACEMENT)), MakePartition, PartitionParts);
    ListLawful(PARTITION);
  }

  lemma TopicsLawful()
    ensures Lawful(List(TOPIC))
  {
    PrimitivesLawful();
    PartitionsLawful();
    PairLawful(NUMBER16, List(PARTITION));
    TripleLawful(TEXT, NUMBER32, CODED);
    MapLawful(Pair(TEXT, Pair(NUMBER32, CODED)), MakeTopic, TopicParts);
    ListLawful(TOPIC);
  }

  lemma AssignmentsLawful()
    ensures Lawful(List(ASSIGNMENT))
  {
    PrimitivesLawful();
    PairLawful(TEXT, NUMBER32);
    MapLawful(Pair(TEXT, NUMBER32), MakeAssignment, AssignmentParts);
    ListLawful(ASSIGNMENT);
  }

  // ---------- Produce ----------

  type ProduceBody = (Bytes, (I32, (U8, seq<ProduceMessage>)))
  type ProduceTrailer = (U64, (U16, I32))
  const ACKED: Format<(U8, seq<ProduceMessage>)> := Pair(NUMBER8, List(MESSAGE))
  const PRODUCE_BODY: Format<ProduceBody> := Pair(TEXT, Pair(SIGNED32, ACKED))
  const PRODUCE_TRAILER: Format<ProduceTrailer> := Pair(NUMBER64, Pair(NUMBER16, SIGNED32))
  const PRODUCE_TRAILER_LEN: nat := 8 + 2 + 4
  const NOT_IDEMPOTENT: ProduceTrailer := (0, (0, -1))
  const PRODUCE_REST: Format<ProduceTrailer> := Defaulted(PRODUCE_TRAILER, PRODUCE_TRAILER_LEN, NOT_IDEMPOTENT)
  const PRODUCE_PARTS: Format<(ProduceBody, ProduceTrailer)> := Pair(PRODUCE_BODY, PRODUCE_REST)

  function MakeProduce(p: (ProduceBody, ProduceTrailer)): ProduceRequest {
    ProduceRequest(p.0.0, p.0.1.0, p.0.1.1.0, p.0.1.1.1, p.1.0, p.1.1.0, p.1.1.1)
  }
  function ProduceParts(q: ProduceRequest): (ProduceBody, ProduceTrailer) {
    ((q.topic, (q.partition, (q.acks, q.messages))), (q.producerId, (q.producerEpoch, q.baseSequence)))
  }
  const PRODUCE: Format<ProduceRequest> := Map(PRODUCE_PARTS, MakeProduce, ProduceParts)

  lemma ProduceTrailerSize(t: ProduceTrailer)
    ensures |PRODUCE_TRAILER.put(t)| == PRODUCE_TRAILER_LEN
  {
    var p := Pair(NUMBER16, SIGNED32);
    assert PRODUCE_TRAILER.put(t) == NUMBER64.put(t.0) + p.put(t.1);
    assert p.put(t.1) == NUMBER16.put(t.1.0) + SIGNED32.put(t.1.1);
    assert SIGNED32.put(t.1.1) == NUMBER32.put(OfI32(t.1.1));
  }

  lemma ProduceLawful()
    ensures Lawful(PRODUCE_BODY) && Lawful(PRODUCE)
  {
    forall t { ProduceTrailerSize(t); }
    PrimitivesLawful();
    MessagesLawful();
    PairLawful(NUMBER8, List(MESSAGE));
    TripleLawful(TEXT, SIGNED32, ACKED);
    TripleLawful(NUMBER64, NUMBER16, SIGNED32);
    DefaultedLawful(PRODUCE_TRAILER, PRODUCE_TRAILER_LEN, NOT_IDEMPOTENT);
    PairLawful(PRODUCE_BODY, PRODUCE_REST);
    MapLawful(PRODUCE_PARTS, MakeProduce, ProduceParts);
  }

  /** The writer checks the strings; the length fields cover the rest. */
  predicate StringsFit(q: ProduceRequest) {
    |q.topic| <= 0xFFFF && forall m <- q.messages :: forall h <- m.headers :: |h.name| <= 0xFFFF
  }

  predicate MessageWithin(m: ProduceMessage) {
    && (m.key.Some? ==> |m.key.value| < 0xFFFF_FFFF) && |m.value| < 0xFFFF_FFFF
    && |m.headers| <= 0xFFFF_FFFF && forall h <- m.headers :: |h.value| < 0xFFFF_FFFF
  }

  predicate LengthsFit(q: ProduceRequest) { |q.messages| <= 0xFFFF_FFFF && forall m <- q.messages :: MessageWithin(m) }

  lemma HeaderLengths(h: Header)
    ensures HEADER.fits(h) <==> |h.name| <= 0xFFFF
    ensures HEADER.within(h) <==> |h.value| < 0xFFFF_FFFF
  {
    MapMeans(Pair(TEXT, BYTE_STRING), MakeHeader, HeaderParts, h);
    PairMeans(TEXT, BYTE_STRING, h.name, h.value);
  }

  lemma MessageLengths(m: ProduceMessage)
    ensures MESSAGE.fits(m) <==> forall h <- m.headers :: |h.name| <= 0xFFFF
    ensures MESSAGE.within(m) <==> MessageWithin(m)
  {
    forall h { HeaderLengths(h); }
    ListMeans(HEADER, m.headers);
    MapMeans(Pair(OPTIONAL_BYTES, VALUED), MakeMessage, MessageParts, m);
    PairMeans(OPTIONAL_BYTES, VALUED, m.key, (m.value, (m.timestampMs, m.headers)));
    PairMeans(BYTE_STRING, STAMPED, m.value, (m.timestampMs, m.headers));
    PairMeans(SIGNED64, List(HEADER), m.timestampMs, m.headers);
  }

  lemma ProduceLengths(q: ProduceRequest)
    ensures PRODUCE.fits(q) <==> StringsFit(q)
    ensures PRODUCE.within(q) <==> LengthsFit(q)
  {
    forall m { MessageLengths(m); }
    ListMeans(MESSAGE, q.messages);
    MapMeans(Pair(PRODUCE_BODY, PRODUCE_REST), MakeProduce, ProduceParts, q);
    PairMeans(PRODUCE_BODY, PRODUCE_REST, ProduceParts(q).0, ProduceParts(q).1);
    PairMeans(TEXT, Pair(SIGNED32, ACKED), q.topic, (q.partition, (q.acks, q.messages)));
    PairMeans(SIGNED32, ACKED, q.partition, (q.acks, q.messages));
    PairMeans(NUMBER8, List(MESSAGE), q.acks, q.messages);
  }

  /** An encoded request decodes to itself if and only if every key, value and list fits its length field. */
  lemma ProduceRoundTrip(q: ProduceRequest)
    requires StringsFit(q)
    ensures Decode(PRODUCE, PRODUCE.put(q)) == Some(q) <==> LengthsFit(q)
    ensures |PRODUCE.put(q)| <= Frame.MAX_PAYLOAD ==> Decode(PRODUCE, PRODUCE.put(q)) == Some(q)
  {
    ProduceLengths(q);
    ProduceLawful();
    DecodeUndoesPut(PRODUCE, q);
  }

  /** Cutting the trailer off, or cutting it short, leaves a non-idempotent request for the same messages. */
  lemma ProduceLegacy(q: ProduceRequest, rest: Bytes)
    requires StringsFit(q) && LengthsFit(q) && |rest| < PRODUCE_TRAILER_LEN
    ensures Decode(PRODUCE, PRODUCE_BODY.put(ProduceParts(q).0) + rest)
            == Some(q.(producerId := 0, producerEpoch := 0, baseSequence := -1))
  {
    ProduceLengths(q);
    ProduceLawful();
    CutOff(PRODUCE_BODY, PRODUCE_TRAILER, PRODUCE_TRAILER_LEN, NOT_IDEMPOTENT, MakeProduce, ProduceParts, q, rest);
  }

  // ---------- Fetch ----------

  type FetchBody = (Bytes, (U32, (U64, (U32, (U32, U32)))))
  const LIMITS: Format<(U32, (U32, U32))> := Pair(NUMBER32, Pair(NUMBER32, NUMBER32))
  const WINDOW: Format<(U64, (U32, (U32, U32)))> := Pair(NUMBER64, LIMITS)
  const FETCH_BODY: Format<FetchBody> := Pair(TEXT, Pair(NUMBER32, WINDOW))
  const FETCH_TRAILER: Format<(Bytes, Bytes)> := Pair(TEXT, TEXT)
  const FETCH_REST: Format<(Bytes, Bytes)> := Defaulted(FETCH_TRAILER, 1, ([], []))
  const FETCH_PARTS: Format<(FetchBody, (Bytes, Bytes))> := Pair(FETCH_BODY, FETCH_REST)

  function MakeFetch(p: (FetchBody, (Bytes, Bytes))): FetchRequest {
    FetchRequest(p.0.0, p.0.1.0, p.0.1.1.0, p.0.1.1.1.0, p.0.1.1.1.1.0, p.0.1.1.1.1.1, p.1.0, p.1.1)
  }
  function FetchParts(q: FetchRequest): (FetchBody, (Bytes, Bytes)) {
    ((q.topic, (q.partition, (q.fromOffset, (q.maxMessages, (q.maxBytes, q.maxWaitMs))))), (q.groupId, q.memberId))
  }
  const FETCH: Format<FetchRequest> := Map(FETCH_PARTS, MakeFetch, FetchParts)

  /** The group and member are written only if one of them is named. */
  function FetchBytes(q: FetchRequest): Bytes {
    if q.groupId != [] || q.memberId != [] then FETCH.put(q) else FETCH_BODY.put(FetchParts(q).0)
  }

  lemma FetchLawful()
    ensures Lawful(FETCH_BODY) && Lawful(FETCH)
  {
    PrimitivesLawful();
    TripleLawful(NUMBER32, NUMBER32, NUMBER32);
    PairLawful(NUMBER64, LIMITS);
    TripleLawful(TEXT, NUMBER32, WINDOW);
    PairLawful(TEXT, TEXT);
    DefaultedLawful(FETCH_TRAILER, 1, ([], []));
    PairLawful(FETCH_BODY, FETCH_REST);
    MapLawful(FETCH_PARTS, MakeFetch, FetchParts);
  }

  predicate NamesFit(q: FetchRequest) { |q.topic| <= 0xFFFF && |q.groupId| <= 0xFFFF && |q.memberId| <= 0xFFFF }

  lemma FetchLengths(q: FetchRequest)
    ensures FETCH.within(q) && (FETCH.fits(q) <==> NamesFit(q))
  {
    var limits := (q.maxMessages, (q.maxBytes, q.maxWaitMs));
    MapMeans(Pair(FETCH_BODY, FETCH_REST), MakeFetch, FetchParts, q);
    PairMeans(FETCH_BODY, FETCH_REST, FetchParts(q).0, FetchParts(q).1);
    PairMeans(TEXT, Pair(NUMBER32, WINDOW), q.topic, (q.partition, (q.fromOffset, limits)));
    PairMeans(NUMBER32, WINDOW, q.partition, (q.fromOffset, limits));
    PairMeans(NUMBER64, LIMITS, q.fromOffset, limits);
    PairMeans(NUMBER32, Pair(NUMBER32, NUMBER32), q.maxMessages, (q.maxBytes, q.maxWaitMs));
    PairMeans(NUMBER32, NUMBER32, q.maxBytes, q.maxWaitMs);
    PairMeans(TEXT, TEXT, q.groupId, q.memberId);
  }

  lemma FetchLegacy(q: FetchRequest)
    requires NamesFit(q)
    ensures Decode(FETCH, FETCH_BODY.put(FetchParts(q).0)) == Some(q.(groupId := [], memberId := []))
  {
    FetchLengths(q);
    FetchLawful();
    CutOff(FETCH_BODY, FETCH_TRAILER, 1, ([], []), MakeFetch, FetchParts, q, []);
    assert FETCH_BODY.put(FetchParts(q).0) + [] == FETCH_BODY.put(FetchParts(q).0);
  }

  lemma FetchRoundTrip(q: FetchRequest)
    requires NamesFit(q)
    ensures Decode(FETCH, FetchBytes(q)) == Some(q)
  {
    FetchLengths(q);
    if q.groupId != [] || q.memberId != [] {
      FetchLawful();
      DecodeUndoesPut(FETCH, q);
    } else {
      FetchLegacy(q);
    }
  }

  type FetchResponseTuple = (Bytes, (U32, (U64, (U16, seq<FetchRecord>))))
  const MARKED: Format<(U64, (U16, seq<FetchRecord>))> := Pair(NUMBER64, Pair(NUMBER16, List(RECORD)))
  const FETCH_RESPONSE_PARTS: Format<FetchResponseTuple> := Pair(TEXT, Pair(NUMBER32, MARKED))

  function MakeFetchResponse(p: FetchResponseTuple): FetchResponse { FetchResponse(p.0, p.1.0, p.1.1.0, p.1.1.1.0, p.1.1.1.1) }
  function FetchResponseParts(r: FetchResponse): FetchResponseTuple { (r.topic, (r.partition, (r.highWatermark, (r.errorCode, r.records)))) }
  const FETCH_RESPONSE: Format<FetchResponse> := Map(FETCH_RESPONSE_PARTS, MakeFetchResponse, FetchResponseParts)

  lemma FetchResponseLawful()
    ensures Lawful(FETCH_RESPONSE)
  {
    PrimitivesLawful();
    RecordsLawful();
    TripleLawful(NUMBER64, NUMBER16, List(RECORD));
    TripleLawful(TEXT, NUMBER32, MARKED);
    MapLawful(FETCH_RESPONSE_PARTS, MakeFetchResponse, FetchResponseParts);
  }

  predicate FetchStringsFit(r: FetchResponse) {
    |r.topic| <= 0xFFFF && forall x <- r.records :: forall h <- x.headers :: |h.name| <= 0xFFFF
  }

  predicate RecordWithin(x: FetchRecord) {
    && (x.key.Some? ==> |x.key.value| < 0xFFFF_FFFF) && |x.value| < 0xFFFF_FFFF
    && |x.headers| <= 0xFFFF_FFFF && forall h <- x.headers :: |h.value| < 0xFFFF_FFFF
  }

  predicate FetchLengthsFit(r: FetchResponse) { |r.records| <= 0xFFFF_FFFF && forall x <- r.records :: RecordWithin(x) }

  lemma RecordLengths(x: FetchRecord)
    ensures RECORD.fits(x) <==> forall h <- x.headers :: |h.name| <= 0xFFFF
    ensures RECORD.within(x) <==> RecordWithin(x)
  {
    forall h { HeaderLengths(h); }
    ListMeans(HEADER, x.headers);
    var keyed := (x.key, (x.value, x.headers));
    MapMeans(Pair(NUMBER64, Pair(SIGNED64, KEYED)), MakeRecord, RecordParts, x);
    PairMeans(NUMBER64, Pair(SIGNED64, KEYED), x.offset, (x.timestampMs, keyed));
    PairMeans(SIGNED64, KEYED, x.timestampMs, keyed);
    PairMeans(OPTIONAL_BYTES, Pair(BYTE_STRING, List(HEADER)), x.key, (x.value, x.headers));
    PairMeans(BYTE_STRING, List(HEADER), x.value, x.headers);
  }

  lemma FetchResponseLengths(r: FetchResponse)
    ensures FETCH_RESPONSE.fits(r) <==> FetchStringsFit(r)
    ensures FETCH_RESPONSE.within(r) <==> FetchLengthsFit(r)
  {
    forall x { RecordLengths(x); }
    ListMeans(RECORD, r.records);
    var marked := (r.highWatermark, (r.errorCode, r.records));
    MapMeans(Pair(TEXT, Pair(NUMBER32, MARKED)), MakeFetchResponse, FetchResponseParts, r);
    PairMeans(TEXT, Pair(NUMBER32, MARKED), r.topic, (r.partition, marked));
    PairMeans(NUMBER32, MARKED, r.partition, marked);
    PairMeans(NUMBER64, Pair(NUMBER16, List(RECORD)), r.highWatermark, (r.errorCode, r.records));
    PairMeans(NUMBER16, List(RECORD), r.errorCode, r.records);
  }

  lemma FetchResponseRoundTrip(r: FetchResponse)
    requires FetchStringsFit(r)
    ensures Decode(FETCH_RESPONSE, FETCH_RESPONSE.put(r)) == Some(r) <==> FetchLengthsFit(r)
    ensures |FETCH_RESPONSE.put(r)| <= Frame.MAX_PAYLOAD ==> Decode(FETCH_RESPONSE, FETCH_RESPONSE.put(r)) == Some(r)
  {
    FetchResponseLengths(r);
    FetchResponseLawful();
    DecodeUndoesPut(FETCH_RESPONSE, r);
  }

  // ---------- Metadata ----------

  type MetadataBody = (seq<BrokerInfo>, seq<TopicInfo>)
  const METADATA_BODY: Format<MetadataBody> := Pair(List(BROKER), List(TOPIC))
  const DEFAULTED32: Format<U32> := Defaulted(NUMBER32, 4, 0)
  const METADATA_PARTS: Format<(MetadataBody, U32)> := Pair(METADATA_BODY, DEFAULTED32)

  function MakeMetadata(p: (MetadataBody, U32)): MetadataResponse { MetadataResponse(p.0.0, p.0.1, p.1) }
  function MetadataParts(r: MetadataResponse): (MetadataBody, U32) { ((r.brokers, r.topics), r.controllerId) }
  const METADATA: Format<MetadataResponse> := Map(METADATA_PARTS, MakeMetadata, MetadataParts)

  lemma MetadataLawful()
    ensures Lawful(METADATA_BODY) && Lawful(METADATA)
  {
    PrimitivesLawful();
    BrokersLawful();
    TopicsLawful();
    PairLawful(List(BROKER), List(TOPIC));
    DefaultedLawful(NUMBER32, 4, 0);
    PairLawful(METADATA_BODY, DEFAULTED32);
    MapLawful(METADATA_PARTS, MakeMetadata, MetadataParts);
  }

  predicate MetadataStringsFit(r: MetadataResponse) {
    (forall b <- r.brokers :: |b.host| <= 0xFFFF) && forall t <- r.topics :: |t.name| <= 0xFFFF
  }

  predicate TopicWithin(t: TopicInfo) {
    |t.partitions| <= 0xFFFF_FFFF && forall p <- t.partitions :: |p.replicas| <= 0xFFFF_FFFF && |p.isr| <= 0xFFFF_FFFF
  }

  predicate MetadataCountsFit(r: MetadataResponse) {
    |r.brokers| <= 0xFFFF_FFFF && |r.topics| <= 0xFFFF_FFFF && forall t <- r.topics :: TopicWithin(t)
  }

  lemma PartitionLengths(p: PartitionInfo)
    ensures PARTITION.fits(p) && (PARTITION.within(p) <==> |p.replicas| <= 0xFFFF_FFFF && |p.isr| <= 0xFFFF_FFFF)
  {
    var sync := (p.isr, p.leaderEpoch);
    var placed := (p.hwm, (p.replicas, sync));
    ListMeans(NUMBER32, p.replicas);
    ListMeans(NUMBER32, p.isr);
    MapMeans(Pair(NUMBER32, Pair(NUMBER32, PLACEMENT)), MakePartition, PartitionParts, p);
    PairMeans(NUMBER32, Pair(NUMBER32, PLACEMENT), p.partitionId, (p.leader, placed));
    PairMeans(NUMBER32, PLACEMENT, p.leader, placed);
    PairMeans(NUMBER64, REPLICAS, p.hwm, (p.replicas, sync));
    PairMeans(List(NUMBER32), IN_SYNC, p.replicas, sync);
    PairMeans(List(NUMBER32), NUMBER32, p.isr, p.leaderEpoch);
  }

  lemma TopicLengths(t: TopicInfo)
    ensures TOPIC.fits(t) <==> |t.name| <= 0xFFFF
    ensures TOPIC.within(t) <==> TopicWithin(t)
  {
    forall p { PartitionLengths(p); }
    ListMeans(PARTITION, t.partitions);
    MapMeans(Pair(TEXT, Pair(NUMBER32, CODED)), MakeTopic, TopicParts, t);
    PairMeans(TEXT, Pair(NUMBER32, CODED), t.name, (t.topicId, (t.errorCode, t.partitions)));
    PairMeans(NUMBER32, CODED, t.topicId, (t.errorCode, t.partitions));
    PairMeans(NUMBER16, List(PARTITION), t.errorCode, t.partitions);
  }

  lemma BrokerLengths(b: BrokerInfo)
    ensures BROKER.within(b) && (BROKER.fits(b) <==> |b.host| <= 0xFFFF)
  {
    MapMeans(Pair(NUMBER32, ADDRESS), MakeBroker, BrokerParts, b);
    PairMeans(NUMBER32, ADDRESS, b.nodeId, (b.host, b.port));
    PairMeans(TEXT, NUMBER16, b.host, b.port);
  }

  lemma MetadataLengths(r: MetadataResponse)
    ensures METADATA.fits(r) <==> MetadataStringsFit(r)
    ensures METADATA.within(r) <==> MetadataCountsFit(r)
  {
    forall b { BrokerLengths(b); }
    forall t { TopicLengths(t); }
    ListMeans(BROKER, r.brokers);
    ListMeans(TOPIC, r.topics);
    MapMeans(Pair(METADATA_BODY, DEFAULTED32), MakeMetadata, MetadataParts, r);
    PairMeans(METADATA_BODY, DEFAULTED32, (r.brokers, r.topics), r.controllerId);
    PairMeans(List(BROKER), List(TOPIC), r.brokers, r.topics);
  }

  lemma MetadataRoundTrip(r: MetadataResponse)
    requires MetadataStringsFit(r)
    ensures Decode(METADATA, METADATA.put(r)) == Some(r) <==> MetadataCountsFit(r)
    ensures |METADATA.put(r)| <= Frame.MAX_PAYLOAD ==> Decode(METADATA, METADATA.put(r)) == Some(r)
  {
    MetadataLengths(r);
    MetadataLawful();
    DecodeUndoesPut(METADATA, r);
  }

  lemma MetadataLegacy(r: MetadataResponse, rest: Bytes)
    requires MetadataStringsFit(r) && MetadataCountsFit(r) && |rest| < 4
    ensures Decode(METADATA, METADATA_BODY.put((r.brokers, r.topics)) + rest) == Some(r.(controllerId := 0))
  {
    MetadataLengths(r);
    MetadataLawful();
    CutOff(METADATA_BODY, NUMBER32, 4, 0, MakeMetadata, MetadataParts, r, rest);
  }

  // ---------- JoinGroup ----------

  type JoinBody = (Bytes, (Bytes, (U32, seq<Bytes>)))
  const SUBSCRIPTION: Format<(U32, seq<Bytes>)> := Pair(NUMBER32, List(TEXT))
  const JOIN_BODY: Format<JoinBody> := Pair(TEXT, Pair(TEXT, SUBSCRIPTION))
  const JOIN_TRAILER: Format<(Bytes, U32)> := Pair(TEXT, DEFAULTED32)
  const JOIN_REST: Format<(Bytes, U32)> := Defaulted(JOIN_TRAILER, 1, ([], 0))
  const JOIN_PARTS: Format<(JoinBody, (Bytes, U32))> := Pair(JOIN_BODY, JOIN_REST)

  function MakeJoin(p: (JoinBody, (Bytes, U32))): JoinGroupRequest { JoinGroupRequest(p.0.0, p.0.1.0, p.0.1.1.0, p.0.1.1.1, p.1.0, p.1.1) }
  function JoinParts(q: JoinGroupRequest): (JoinBody, (Bytes, U32)) {
    ((q.groupId, (q.memberId, (q.sessionTimeoutMs, q.topics))), (q.instanceId, q.rebalanceTimeoutMs))
  }
  const JOIN: Format<JoinGroupRequest> := Map(JOIN_PARTS, MakeJoin, JoinParts)

  lemma JoinLawful()
    ensures Lawful(JOIN_BODY) && Lawful(JOIN)
  {
    PrimitivesLawful();
    ListLawful(TEXT);
    PairLawful(NUMBER32, List(TEXT));
    TripleLawful(TEXT, TEXT, SUBSCRIPTION);
    DefaultedLawful(NUMBER32, 4, 0);
    PairLawful(TEXT, DEFAULTED32);
    DefaultedLawful(JOIN_TRAILER, 1, ([], 0));
    PairLawful(JOIN_BODY, JOIN_REST);
    MapLawful(JOIN_PARTS, MakeJoin, JoinParts);
  }

  predicate JoinStringsFit(q: JoinGroupRequest) {
    && |q.groupId| <= 0xFFFF && |q.memberId| <= 0xFFFF && |q.instanceId| <= 0xFFFF
    && forall t <- q.topics :: |t| <= 0xFFFF
  }

  lemma JoinLengths(q: JoinGroupRequest)
    ensures JOIN.fits(q) <==> JoinStringsFit(q)
    ensures JOIN.within(q) <==> |q.topics| <= 0xFFFF_FFFF
  {
    var subscription := (q.sessionTimeoutMs, q.topics);
    ListMeans(TEXT, q.topics);
    MapMeans(Pair(JOIN_BODY, JOIN_REST), MakeJoin, JoinParts, q);
    PairMeans(JOIN_BODY, JOIN_REST, JoinParts(q).0, JoinParts(q).1);
    PairMeans(TEXT, Pair(TEXT, SUBSCRIPTION), q.groupId, (q.memberId, subscription));
    PairMeans(TEXT, SUBSCRIPTION, q.memberId, subscription);
    PairMeans(NUMBER32, List(TEXT), q.sessionTimeoutMs, q.topics);
    PairMeans(TEXT, DEFAULTED32, q.instanceId, q.rebalanceTimeoutMs);
  }

  lemma JoinRoundTrip(q: JoinGroupRequest)
    requires JoinStringsFit(q)
    ensures Decode(JOIN, JOIN.put(q)) == Some(q) <==> |q.topics| <= 0xFFFF_FFFF
    ensures |JOIN.put(q)| <= Frame.MAX_PAYLOAD ==> Decode(JOIN, JOIN.put(q)) == Some(q)
  {
    JoinLengths(q);
    JoinLawful();
    DecodeUndoesPut(JOIN, q);
  }

  /** Without both trailing fields they are empty and zero. */
  lemma JoinLegacy(q: JoinGroupRequest)
    requires JoinStringsFit(q) && |q.topics| <= 0xFFFF_FFFF
    ensures Decode(JOIN, JOIN_BODY.put(JoinParts(q).0)) == Some(q.(instanceId := [], rebalanceTimeoutMs := 0))
  {
    JoinLengths(q);
    JoinLawful();
    CutOff(JOIN_BODY, JOIN_TRAILER, 1, ([], 0), MakeJoin, JoinParts, q, []);
    assert JOIN_BODY.put(JoinParts(q).0) + [] == JOIN_BODY.put(JoinParts(q).0);
  }

  /** Without the last trailing field, or with it cut short, it is zero. */
  lemma JoinLegacyInstance(q: JoinGroupRequest, rest: Bytes)
    requires JoinStringsFit(q) && |q.topics| <= 0xFFFF_FFFF && |rest| < 4
    ensures Decode(JOIN, JOIN_BODY.put(JoinParts(q).0) + (TEXT.put(q.instanceId) + rest)) == Some(q.(rebalanceTimeoutMs := 0))
  {
    JoinLengths(q);
    JoinLawful();
    TextLawful();
    CutOffInner(JOIN_BODY, TEXT, NUMBER32, 4, 0, ([], 0), MakeJoin, JoinParts, q, rest);
  }

  type JoinedBody = (U16, (U32, (Bytes, seq<Assignment>)))
  type JoinedHead = (JoinedBody, seq<Assignment>)
  const GRANT: Format<(Bytes, seq<Assignment>)> := Pair(TEXT, List(ASSIGNMENT))
  const JOINED_BODY: Format<JoinedBody> := Pair(NUMBER16, Pair(NUMBER32, GRANT))
  const REVOKED: Format<seq<Assignment>> := Defaulted(List(ASSIGNMENT), 4, [])
  const JOINED_HEAD: Format<JoinedHead> := Pair(JOINED_BODY, REVOKED)
  const MEMBERS: Format<seq<Bytes>> := Defaulted(List(TEXT), 4, [])
  const JOINED_PARTS: Format<(JoinedHead, seq<Bytes>)> := Pair(JOINED_HEAD, MEMBERS)

  function MakeJoined(p: (JoinedHead, seq<Bytes>)): JoinGroupResponse {
    JoinGroupResponse(p.0.0.0, p.0.0.1.0, p.0.0.1.1.0, p.0.0.1.1.1, p.0.1, p.1)
  }
  function JoinedParts(r: JoinGroupResponse): (JoinedHead, seq<Bytes>) {
    (((r.errorCode, (r.generation, (r.memberId, r.assignment))), r.revoked), r.members)
  }
  const JOINED: Format<JoinGroupResponse> := Map(JOINED_PARTS, MakeJoined, JoinedParts)

  lemma JoinedLawful()
    ensures Lawful(JOINED_BODY) && Lawful(JOINED_HEAD) && Lawful(JOINED)
  {
    PrimitivesLawful();
    AssignmentsLawful();
    ListLawful(TEXT);
    PairLawful(TEXT, List(ASSIGNMENT));
    TripleLawful(NUMBER16, NUMBER32, GRANT);
    DefaultedLawful(List(ASSIGNMENT), 4, []);
    PairLawful(JOINED_BODY, REVOKED);
    DefaultedLawful(List(TEXT), 4, []);
    PairLawful(JOINED_HEAD, MEMBERS);
    MapLawful(JOINED_PARTS, MakeJoined, JoinedParts);
  }

  predicate JoinedStringsFit(r: JoinGroupResponse) {
    && |r.memberId| <= 0xFFFF && (forall a <- r.assignment :: |a.topic| <= 0xFFFF)
    && (forall a <- r.revoked :: |a.topic| <= 0xFFFF) && forall m <- r.members :: |m| <= 0xFFFF
  }

  predicate JoinedCountsFit(r: JoinGroupResponse) {
    |r.assignment| <= 0xFFFF_FFFF && |r.revoked| <= 0xFFFF_FFFF && |r.members| <= 0xFFFF_FFFF
  }

  lemma AssignmentLengths(a: Assignment)
    ensures ASSIGNMENT.within(a) && (ASSIGNMENT.fits(a) <==> |a.topic| <= 0xFFFF)
  {
    MapMeans(Pair(TEXT, NUMBER32), MakeAssignment, AssignmentParts, a);
    PairMeans(TEXT, NUMBER32, a.topic, a.partition);
  }

  lemma JoinedLengths(r: JoinGroupResponse)
    ensures JOINED.fits(r) <==> JoinedStringsFit(r)
    ensures JOINED.within(r) <==> JoinedCountsFit(r)
  {
    forall a { AssignmentLengths(a); }
    ListMeans(ASSIGNMENT, r.assignment);
    ListMeans(ASSIGNMENT, r.revoked);
    ListMeans(TEXT, r.members);
    MapMeans(Pair(JOINED_HEAD, MEMBERS), MakeJoined, JoinedParts, r);
    PairMeans(JOINED_HEAD, MEMBERS, JoinedParts(r).0, r.members);
    PairMeans(JOINED_BODY, REVOKED, JoinedParts(r).0.0, r.revoked);
    PairMeans(NUMBER16, Pair(NUMBER32, GRANT), r.errorCode, (r.generation, (r.memberId, r.assignment)));
    PairMeans(NUMBER32, GRANT, r.generation, (r.memberId, r.assignment));
    PairMeans(TEXT, List(ASSIGNMENT), r.memberId, r.assignment);
  }

  lemma JoinedRoundTrip(r: JoinGroupResponse)
    requires JoinedStringsFit(r)
    ensures Decode(JOINED, JOINED.put(r)) == Some(r) <==> JoinedCountsFit(r)
    ensures |JOINED.put(r)| <= Frame.MAX_PAYLOAD ==> Decode(JOINED, JOINED.put(r)) == Some(r)
  {
    JoinedLengths(r);
    JoinedLawful();
    DecodeUndoesPut(JOINED, r);
  }

  /** Without the member list, or without both trailing lists, the missing lists are empty. */
  lemma JoinedLegacy(r: JoinGroupResponse, rest: Bytes)
    requires JoinedStringsFit(r) && JoinedCountsFit(r) && |rest| < 4
    ensures Decode(JOINED, JOINED_HEAD.put(JoinedParts(r).0) + rest) == Some(r.(members := []))
    ensures Decode(JOINED, JOINED_BODY.put(JoinedParts(r).0.0) + rest) == Some(r.(revoked := [], members := []))
  {
    JoinedLengths(r);
    JoinedLawful();
    CutOff(JOINED_HEAD, List(TEXT), 4, [], MakeJoined, JoinedParts, r, rest);
    CutOffTwo(JOINED_BODY, List(ASSIGNMENT), List(TEXT), 4, [], [], MakeJoined, JoinedParts, r, rest);
  }
}

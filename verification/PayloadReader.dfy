/**
 The reader that decodes payloads: every method advances the cursor exactly as
 far as the format it stands for, and fails exactly when that format does.
 */
module PayloadReader {
  import opened Options
  import opened Bytes
  import opened Format
  import opened Messages
  import opened PayloadWriter

  ghost predicate Yields<T>(r: Result<T>, p: Parsed<T>, rest: Bytes) {
    match p case Ok(x, t) => r == Success(x) && rest == t case Fail => r == Failure
  }

  class Reader {
    const data: Bytes
    var i: nat

    ghost predicate Valid()
      reads this
    {
      i <= |data|
    }

    function Rest(): Bytes
      requires Valid()
      reads this
    {
      data[i..]
    }

    constructor (data: Bytes)
      ensures Valid() && Rest() == data
    {
      this.data := data;
      i := 0;
    }

    function Remaining(): nat
      requires Valid()
      reads this
    {
      |data| - i
    }

    method Take(n: nat) returns (r: Result<Bytes>)
      requires Valid()
      modifies this
      ensures Valid() && Yields(r, GetTake(n, old(Rest())), Rest())
    {
      if Remaining() < n { return Failure; }
      i := i + n;
      assert data[i - n..i] == old(Rest())[..n];
      return Success(data[i - n..i]);
    }

    method Byte() returns (r: Result<U8>)
      requires Valid()
      modifies this
      ensures Valid() && Yields(r, NUMBER8.get(old(Rest())), Rest())
    {
      if Remaining() < 1 { return Failure; }
      var v := FromLittle(data[i..i + 1]);
      assert old(Rest())[..1] == data[i..i + 1];
      FromLittleRoundTrip(data[i..i + 1]);
      Limits();
      i := i + 1;
      return Success(v);
    }

    method Short() returns (r: Result<U16>)
      requires Valid()
      modifies this
      ensures Valid() && Yields(r, NUMBER16.get(old(Rest())), Rest())
    {
      if Remaining() < 2 { return Failure; }
      var v := FromLittle(data[i..i + 2]);
      assert old(Rest())[..2] == data[i..i + 2];
      FromLittleRoundTrip(data[i..i + 2]);
      Limits();
      i := i + 2;
      return Success(v);
    }

    method Int() returns (r: Result<U32>)
      requires Valid()
      modifies this
      ensures Valid() && Yields(r, NUMBER32.get(old(Rest())), Rest())
    {
      if Remaining() < 4 { return Failure; }
      var v := FromLittle(data[i..i + 4]);
      assert old(Rest())[..4] == data[i..i + 4];
      FromLittleRoundTrip(data[i..i + 4]);
      Limits();
      i := i + 4;
      return Success(v);
    }

    method Long() returns (r: Result<U64>)
      requires Valid()
      modifies this
      ensures Valid() && Yields(r, NUMBER64.get(old(Rest())), Rest())
    {
      if Remaining() < 8 { return Failure; }
      var v := FromLittle(data[i..i + 8]);
      assert old(Rest())[..8] == data[i..i + 8];
      FromLittleRoundTrip(data[i..i + 8]);
      Limits();
      i := i + 8;
      return Success(v);
    }

    method SignedInt() returns (r: Result<I32>)
      requires Valid()
      modifies this
      ensures Valid() && Yields(r, SIGNED32.get(old(Rest())), Rest())
    {
      var v :- Int();
      return Success(ToI32(v));
    }

    method SignedLong() returns (r: Result<I64>)
      requires Valid()
      modifies this
      ensures Valid() && Yields(r, SIGNED64.get(old(Rest())), Rest())
    {
      var v :- Long();
      return Success(ToI64(v));
    }

    method String() returns (r: Result<Bytes>)
      requires Valid()
      modifies this
      ensures Valid() && Yields(r, TEXT.get(old(Rest())), Rest())
    {
      var n :- Short();
      r := Take(n);
    }

    method ByteString() returns (r: Result<Bytes>)
      requires Valid()
      modifies this
      ensures Valid() && Yields(r, BYTE_STRING.get(old(Rest())), Rest())
    {
      var n :- Int();
      if n == NULL_LEN { return Failure; }
      r := Take(n);
    }

    method Optional() returns (r: Result<Option<Bytes>>)
      requires Valid()
      modifies this
      ensures Valid() && Yields(r, OPTIONAL_BYTES.get(old(Rest())), Rest())
    {
      var n :- Int();
      if n == NULL_LEN { return Success(None); }
      var v :- Take(n);
      return Success(Some(v));
    }

    method OneHeader() returns (r: Result<Header>)
      requires Valid()
      modifies this
      ensures Valid() && Yields(r, HEADER.get(old(Rest())), Rest())
    {
      assert HEADER == Map(Pair(TEXT, BYTE_STRING), MakeHeader, HeaderParts);
      var name :- String();
      var value :- ByteString();
      return Success(Header(name, value));
    }

    method Headers() returns (r: Result<seq<Header>>)
      requires Valid()
      modifies this
      ensures Valid() && Yields(r, GetList(HEADER, old(Rest())), Rest())
    {
      var n :- Int();
      var xs := [];
      ghost var whole := GetAll(HEADER, n, Rest());
      AheadStart(HEADER, n, Rest());
      for j := 0 to n
        invariant Valid() && Ahead(HEADER, whole, xs, n - j, Rest())
      {
        AheadNext(HEADER, whole, xs, n - j, Rest());
        var x :- OneHeader();
        xs := xs + [x];
      }
      AheadNext(HEADER, whole, xs, 0, Rest());
      return Success(xs);
    }

    method Stamped() returns (r: Result<(I64, seq<Header>)>)
      requires Valid()
      modifies this
      ensures Valid() && Yields(r, STAMPED.get(old(Rest())), Rest())
    {
      assert STAMPED == Pair(SIGNED64, List(HEADER));
      var timestampMs :- SignedLong();
      var headers :- Headers();
      return Success((timestampMs, headers));
    }

    method Valued() returns (r: Result<(Bytes, (I64, seq<Header>))>)
      requires Valid()
      modifies this
      ensures Valid() && Yields(r, VALUED.get(old(Rest())), Rest())
    {
      assert VALUED == Pair(BYTE_STRING, STAMPED);
      var value :- ByteString();
      var more :- Stamped();
      return Success((value, more));
    }

    method Message() returns (r: Result<ProduceMessage>)
      requires Valid()
      modifies this
      ensures Valid() && Yields(r, MESSAGE.get(old(Rest())), Rest())
    {
      assert MESSAGE == Map(Pair(OPTIONAL_BYTES, VALUED), MakeMessage, MessageParts);
      var key :- Optional();
      var more :- Valued();
      return Success(ProduceMessage(key, more.0, more.1.0, more.1.1));
    }

    method MessageList() returns (r: Result<seq<ProduceMessage>>)
      requires Valid()
      modifies this
      ensures Valid() && Yields(r, GetList(MESSAGE, old(Rest())), Rest())
    {
      var n :- Int();
      var xs := [];
      ghost var whole := GetAll(MESSAGE, n, Rest());
      AheadStart(MESSAGE, n, Rest());
      for j := 0 to n
        invariant Valid() && Ahead(MESSAGE, whole, xs, n - j, Rest())
      {
        AheadNext(MESSAGE, whole, xs, n - j, Rest());
        var x :- Message();
        xs := xs + [x];
      }
      AheadNext(MESSAGE, whole, xs, 0, Rest());
      return Success(xs);
    }

    method Keyed() returns (r: Result<(Option<Bytes>, (Bytes, seq<Header>))>)
      requires Valid()
      modifies this
      ensures Valid() && Yields(r, KEYED.get(old(Rest())), Rest())
    {
      assert KEYED == Pair(OPTIONAL_BYTES, Pair(BYTE_STRING, List(HEADER)));
      var key :- Optional();
      var value :- ByteString();
      var headers :- Headers();
      return Success((key, (value, headers)));
    }

    method Record() returns (r: Result<FetchRecord>)
      requires Valid()
      modifies this
      ensures Valid() && Yields(r, RECORD.get(old(Rest())), Rest())
    {
      assert RECORD == Map(Pair(NUMBER64, Pair(SIGNED64, KEYED)), MakeRecord, RecordParts);
      var offset :- Long();
      var timestampMs :- SignedLong();
      var more :- Keyed();
      return Success(FetchRecord(offset, timestampMs, more.0, more.1.0, more.1.1));
    }

    method Records() returns (r: Result<seq<FetchRecord>>)
      requires Valid()
      modifies this
      ensures Valid() && Yields(r, GetList(RECORD, old(Rest())), Rest())
    {
      var n :- Int();
      var xs := [];
      ghost var whole := GetAll(RECORD, n, Rest());
      AheadStart(RECORD, n, Rest());
      for j := 0 to n
        invariant Valid() && Ahead(RECORD, whole, xs, n - j, Rest())
      {
        AheadNext(RECORD, whole, xs, n - j, Rest());
        var x :- Record();
        xs := xs + [x];
      }
      AheadNext(RECORD, whole, xs, 0, Rest());
      return Success(xs);
    }

    method Address() returns (r: Result<(Bytes, U16)>)
      requires Valid()
      modifies this
      ensures Valid() && Yields(r, ADDRESS.get(old(Rest())), Rest())
    {
      assert ADDRESS == Pair(TEXT, NUMBER16);
      var host :- String();
      var port :- Short();
      return Success((host, port));
    }

    method Broker() returns (r: Result<BrokerInfo>)
      requires Valid()
      modifies this
      ensures Valid() && Yields(r, BROKER.get(old(Rest())), Rest())
    {
      assert BROKER == Map(Pair(NUMBER32, ADDRESS), MakeBroker, BrokerParts);
      var nodeId :- Int();
      var more :- Address();
      return Success(BrokerInfo(nodeId, more.0, more.1));
    }

    method Brokers() returns (r: Result<seq<BrokerInfo>>)
      requires Valid()
      modifies this
      ensures Valid() && Yields(r, GetList(BROKER, old(Rest())), Rest())
    {
      var n :- Int();
      var xs := [];
      ghost var whole := GetAll(BROKER, n, Rest());
      AheadStart(BROKER, n, Rest());
      for j := 0 to n
        invariant Valid() && Ahead(BROKER, whole, xs, n - j, Rest())
      {
        AheadNext(BROKER, whole, xs, n - j, Rest());
        var x :- Broker();
        xs := xs + [x];
      }
      AheadNext(BROKER, whole, xs, 0, Rest());
      return Success(xs);
    }

    method Ints() returns (r: Result<seq<U32>>)
      requires Valid()
      modifies this
      ensures Valid() && Yields(r, GetList(NUMBER32, old(Rest())), Rest())
    {
      var n :- Int();
      var xs := [];
      ghost var whole := GetAll(NUMBER32, n, Rest());
      AheadStart(NUMBER32, n, Rest());
      for j := 0 to n
        invariant Valid() && Ahead(NUMBER32, whole, xs, n - j, Rest())
      {
        AheadNext(NUMBER32, whole, xs, n - j, Rest());
        var x :- Int();
        xs := xs + [x];
      }
      AheadNext(NUMBER32, whole, xs, 0, Rest());
      return Success(xs);
    }

    method InSync() returns (r: Result<(seq<U32>, U32)>)
      requires Valid()
      modifies this
      ensures Valid() && Yields(r, IN_SYNC.get(old(Rest())), Rest())
    {
      assert IN_SYNC == Pair(List(NUMBER32), NUMBER32);
      var isr :- Ints();
      var leaderEpoch :- Int();
      return Success((isr, leaderEpoch));
    }

    method Replicas() returns (r: Result<(seq<U32>, (seq<U32>, U32))>)
      requires Valid()
      modifies this
      ensures Valid() && Yields(r, REPLICAS.get(old(Rest())), Rest())
    {
      assert REPLICAS == Pair(List(NUMBER32), IN_SYNC);
      var replicas :- Ints();
      var more :- InSync();
      return Success((replicas, more));
    }

    method Placement() returns (r: Result<(U64, (seq<U32>, (seq<U32>, U32)))>)
      requires Valid()
      modifies this
      ensures Valid() && Yields(r, PLACEMENT.get(old(Rest())), Rest())
    {
      assert PLACEMENT == Pair(NUMBER64, REPLICAS);
      var hwm :- Long();
      var replicas :- Replicas();
      return Success((hwm, replicas));
    }

    method Partition() returns (r: Result<PartitionInfo>)
      requires Valid()
      modifies this
      ensures Valid() && Yields(r, PARTITION.get(old(Rest())), Rest())
    {
      assert PARTITION == Map(Pair(NUMBER32, Pair(NUMBER32, PLACEMENT)), MakePartition, PartitionParts);
      var partitionId :- Int();
      var leader :- Int();
      var more :- Placement();
      return Success(PartitionInfo(partitionId, leader, more.0, more.1.0, more.1.1.0, more.1.1.1));
    }

    method Partitions() returns (r: Result<seq<PartitionInfo>>)
      requires Valid()
      modifies this
      ensures Valid() && Yields(r, GetList(PARTITION, old(Rest())), Rest())
    {
      var n :- Int();
      var xs := [];
      ghost var whole := GetAll(PARTITION, n, Rest());
      AheadStart(PARTITION, n, Rest());
      for j := 0 to n
        invariant Valid() && Ahead(PARTITION, whole, xs, n - j, Rest())
      {
        AheadNext(PARTITION, whole, xs, n - j, Rest());
        var x :- Partition();
        xs := xs + [x];
      }
      AheadNext(PARTITION, whole, xs, 0, Rest());
      return Success(xs);
    }

    method Coded() returns (r: Result<(U16, seq<PartitionInfo>)>)
      requires Valid()
      modifies this
      ensures Valid() && Yields(r, CODED.get(old(Rest())), Rest())
    {
      assert CODED == Pair(NUMBER16, List(PARTITION));
      var errorCode :- Short();
      var partitions :- Partitions();
      return Success((errorCode, partitions));
    }

    method Topic() returns (r: Result<TopicInfo>)
      requires Valid()
      modifies this
      ensures Valid() && Yields(r, TOPIC.get(old(Rest())), Rest())
    {
      assert TOPIC == Map(Pair(TEXT, Pair(NUMBER32, CODED)), MakeTopic, TopicParts);
      var name :- String();
      var topicId :- Int();
      var more :- Coded();
      return Success(TopicInfo(name, topicId, more.0, more.1));
    }

    method Topics() returns (r: Result<seq<TopicInfo>>)
      requires Valid()
      modifies this
      ensures Valid() && Yields(r, GetList(TOPIC, old(Rest())), Rest())
    {
      var n :- Int();
      var xs := [];
      ghost var whole := GetAll(TOPIC, n, Rest());
      AheadStart(TOPIC, n, Rest());
      for j := 0 to n
        invariant Valid() && Ahead(TOPIC, whole, xs, n - j, Rest())
      {
        AheadNext(TOPIC, whole, xs, n - j, Rest());
        var x :- Topic();
        xs := xs + [x];
      }
      AheadNext(TOPIC, whole, xs, 0, Rest());
      return Success(xs);
    }

    method OneAssignment() returns (r: Result<Assignment>)
      requires Valid()
      modifies this
      ensures Valid() && Yields(r, ASSIGNMENT.get(old(Rest())), Rest())
    {
      assert ASSIGNMENT == Map(Pair(TEXT, NUMBER32), MakeAssignment, AssignmentParts);
      var topic :- String();
      var partition :- Int();
      return Success(Assignment(topic, partition));
    }

    method Assignments() returns (r: Result<seq<Assignment>>)
      requires Valid()
      modifies this
      ensures Valid() && Yields(r, GetList(ASSIGNMENT, old(Rest())), Rest())
    {
      var n :- Int();
      var xs := [];
      ghost var whole := GetAll(ASSIGNMENT, n, Rest());
      AheadStart(ASSIGNMENT, n, Rest());
      for j := 0 to n
        invariant Valid() && Ahead(ASSIGNMENT, whole, xs, n - j, Rest())
      {
        AheadNext(ASSIGNMENT, whole, xs, n - j, Rest());
        var x :- OneAssignment();
        xs := xs + [x];
      }
      AheadNext(ASSIGNMENT, whole, xs, 0, Rest());
      return Success(xs);
    }

    method Strings() returns (r: Result<seq<Bytes>>)
      requires Valid()
      modifies this
      ensures Valid() && Yields(r, GetList(TEXT, old(Rest())), Rest())
    {
      var n :- Int();
      var xs := [];
      ghost var whole := GetAll(TEXT, n, Rest());
      AheadStart(TEXT, n, Rest());
      for j := 0 to n
        invariant Valid() && Ahead(TEXT, whole, xs, n - j, Rest())
      {
        AheadNext(TEXT, whole, xs, n - j, Rest());
        var x :- String();
        xs := xs + [x];
      }
      AheadNext(TEXT, whole, xs, 0, Rest());
      return Success(xs);
    }

    method Acked() returns (r: Result<(U8, seq<ProduceMessage>)>)
      requires Valid()
      modifies this
      ensures Valid() && Yields(r, ACKED.get(old(Rest())), Rest())
    {
      assert ACKED == Pair(NUMBER8, List(MESSAGE));
      var acks :- Byte();
      var messages :- MessageList();
      return Success((acks, messages));
    }

    method ProduceBody() returns (r: Result<ProduceBody>)
      requires Valid()
      modifies this
      ensures Valid() && Yields(r, PRODUCE_BODY.get(old(Rest())), Rest())
    {
      assert PRODUCE_BODY == Pair(TEXT, Pair(SIGNED32, ACKED));
      var topic :- String();
      var partition :- SignedInt();
      var more :- Acked();
      return Success((topic, (partition, more)));
    }

    method ProduceTrailer() returns (r: Result<ProduceTrailer>)
      requires Valid()
      modifies this
      ensures Valid() && Yields(r, PRODUCE_TRAILER.get(old(Rest())), Rest())
    {
      assert PRODUCE_TRAILER == Pair(NUMBER64, Pair(NUMBER16, SIGNED32));
      var id :- Long();
      var epoch :- Short();
      var sequence :- SignedInt();
      return Success((id, (epoch, sequence)));
    }

    method ProduceRest() returns (r: Result<ProduceTrailer>)
      requires Valid()
      modifies this
      ensures Valid() && Yields(r, PRODUCE_REST.get(old(Rest())), Rest())
    {
      assert PRODUCE_REST == Defaulted(PRODUCE_TRAILER, PRODUCE_TRAILER_LEN, NOT_IDEMPOTENT);
      if Remaining() < PRODUCE_TRAILER_LEN { return Success(NOT_IDEMPOTENT); }
      r := ProduceTrailer();
    }

    method FetchLimits() returns (r: Result<(U32, (U32, U32))>)
      requires Valid()
      modifies this
      ensures Valid() && Yields(r, LIMITS.get(old(Rest())), Rest())
    {
      assert LIMITS == Pair(NUMBER32, Pair(NUMBER32, NUMBER32));
      var messages :- Int();
      var bytes :- Int();
      var wait :- Int();
      return Success((messages, (bytes, wait)));
    }

    method Window() returns (r: Result<(U64, (U32, (U32, U32)))>)
      requires Valid()
      modifies this
      ensures Valid() && Yields(r, WINDOW.get(old(Rest())), Rest())
    {
      assert WINDOW == Pair(NUMBER64, LIMITS);
      var offset :- Long();
      var limits :- FetchLimits();
      return Success((offset, limits));
    }

    method FetchBody() returns (r: Result<FetchBody>)
      requires Valid()
      modifies this
      ensures Valid() && Yields(r, FETCH_BODY.get(old(Rest())), Rest())
    {
      assert FETCH_BODY == Pair(TEXT, Pair(NUMBER32, WINDOW));
      var topic :- String();
      var partition :- Int();
      var more :- Window();
      return Success((topic, (partition, more)));
    }

    method FetchRest() returns (r: Result<(Bytes, Bytes)>)
      requires Valid()
      modifies this
      ensures Valid() && Yields(r, FETCH_REST.get(old(Rest())), Rest())
    {
      assert FETCH_REST == Defaulted(FETCH_TRAILER, 1, ([], []));
      if Remaining() < 1 { return Success(([], [])); }
      var group :- String();
      var member :- String();
      return Success((group, member));
    }

    method Marked() returns (r: Result<(U64, (U16, seq<FetchRecord>))>)
      requires Valid()
      modifies this
      ensures Valid() && Yields(r, MARKED.get(old(Rest())), Rest())
    {
      assert MARKED == Pair(NUMBER64, Pair(NUMBER16, List(RECORD)));
      var hwm :- Long();
      var code :- Short();
      var records :- Records();
      return Success((hwm, (code, records)));
    }

    method MetadataBody() returns (r: Result<MetadataBody>)
      requires Valid()
      modifies this
      ensures Valid() && Yields(r, METADATA_BODY.get(old(Rest())), Rest())
    {
      assert METADATA_BODY == Pair(List(BROKER), List(TOPIC));
      var brokers :- Brokers();
      var topics :- Topics();
      return Success((brokers, topics));
    }

    method Defaulted32() returns (r: Result<U32>)
      requires Valid()
      modifies this
      ensures Valid() && Yields(r, DEFAULTED32.get(old(Rest())), Rest())
    {
      assert DEFAULTED32 == Defaulted(NUMBER32, 4, 0);
      if Remaining() < 4 { return Success(0); }
      r := Int();
    }

    method Subscription() returns (r: Result<(U32, seq<Bytes>)>)
      requires Valid()
      modifies this
      ensures Valid() && Yields(r, SUBSCRIPTION.get(old(Rest())), Rest())
    {
      assert SUBSCRIPTION == Pair(NUMBER32, List(TEXT));
      var timeout :- Int();
      var topics :- Strings();
      return Success((timeout, topics));
    }

    method JoinBody() returns (r: Result<JoinBody>)
      requires Valid()
      modifies this
      ensures Valid() && Yields(r, JOIN_BODY.get(old(Rest())), Rest())
    {
      assert JOIN_BODY == Pair(TEXT, Pair(TEXT, SUBSCRIPTION));
      var group :- String();
      var member :- String();
      var more :- Subscription();
      return Success((group, (member, more)));
    }

    method JoinTrailer() returns (r: Result<(Bytes, U32)>)
      requires Valid()
      modifies this
      ensures Valid() && Yields(r, JOIN_TRAILER.get(old(Rest())), Rest())
    {
      assert JOIN_TRAILER == Pair(TEXT, DEFAULTED32);
      var instanceId :- String();
      var timeout :- Defaulted32();
      return Success((instanceId, timeout));
    }

    method JoinRest() returns (r: Result<(Bytes, U32)>)
      requires Valid()
      modifies this
      ensures Valid() && Yields(r, JOIN_REST.get(old(Rest())), Rest())
    {
      assert JOIN_REST == Defaulted(JOIN_TRAILER, 1, ([], 0));
      if Remaining() < 1 { return Success(([], 0)); }
      r := JoinTrailer();
    }

    method Grant() returns (r: Result<(Bytes, seq<Assignment>)>)
      requires Valid()
      modifies this
      ensures Valid() && Yields(r, GRANT.get(old(Rest())), Rest())
    {
      assert GRANT == Pair(TEXT, List(ASSIGNMENT));
      var member :- String();
      var assignment :- Assignments();
      return Success((member, assignment));
    }

    method JoinedBody() returns (r: Result<JoinedBody>)
      requires Valid()
      modifies this
      ensures Valid() && Yields(r, JOINED_BODY.get(old(Rest())), Rest())
    {
      assert JOINED_BODY == Pair(NUMBER16, Pair(NUMBER32, GRANT));
      var code :- Short();
      var generation :- Int();
      var more :- Grant();
      return Success((code, (generation, more)));
    }

    method Revoked() returns (r: Result<seq<Assignment>>)
      requires Valid()
      modifies this
      ensures Valid() && Yields(r, REVOKED.get(old(Rest())), Rest())
    {
      assert REVOKED == Defaulted(List(ASSIGNMENT), 4, []);
      if Remaining() < 4 { return Success([]); }
      r := Assignments();
    }

    method Members() returns (r: Result<seq<Bytes>>)
      requires Valid()
      modifies this
      ensures Valid() && Yields(r, MEMBERS.get(old(Rest())), Rest())
    {
      assert MEMBERS == Defaulted(List(TEXT), 4, []);
      if Remaining() < 4 { return Success([]); }
      r := Strings();
    }

    method JoinedHead() returns (r: Result<JoinedHead>)
      requires Valid()
      modifies this
      ensures Valid() && Yields(r, JOINED_HEAD.get(old(Rest())), Rest())
    {
      assert JOINED_HEAD == Pair(JOINED_BODY, REVOKED);
      var body :- JoinedBody();
      var revoked :- Revoked();
      return Success((body, revoked));
    }
  }

  function AsResult<T>(o: Option<T>): Result<T> { if o.Some? then Success(o.value) else Failure }

  method DecodeProduceRequest(payload: Bytes) returns (r: Result<ProduceRequest>)
    ensures r == AsResult(Decode(PRODUCE, payload))
  {
    assert PRODUCE == Map(Pair(PRODUCE_BODY, PRODUCE_REST), MakeProduce, ProduceParts);
    var source := new Reader(payload);
    var body :- source.ProduceBody();
    var rest :- source.ProduceRest();
    return Success(MakeProduce((body, rest)));
  }

  method DecodeFetchRequest(payload: Bytes) returns (r: Result<FetchRequest>)
    ensures r == AsResult(Decode(FETCH, payload))
  {
    assert FETCH == Map(Pair(FETCH_BODY, FETCH_REST), MakeFetch, FetchParts);
    var source := new Reader(payload);
    var body :- source.FetchBody();
    var rest :- source.FetchRest();
    return Success(MakeFetch((body, rest)));
  }

  method DecodeFetchResponse(payload: Bytes) returns (r: Result<FetchResponse>)
    ensures r == AsResult(Decode(FETCH_RESPONSE, payload))
  {
    assert FETCH_RESPONSE == Map(Pair(TEXT, Pair(NUMBER32, MARKED)), MakeFetchResponse, FetchResponseParts);
    var source := new Reader(payload);
    var topic :- source.String();
    var partition :- source.Int();
    var more :- source.Marked();
    return Success(FetchResponse(topic, partition, more.0, more.1.0, more.1.1));
  }

  method DecodeMetadataResponse(payload: Bytes) returns (r: Result<MetadataResponse>)
    ensures r == AsResult(Decode(METADATA, payload))
  {
    assert METADATA == Map(Pair(METADATA_BODY, DEFAULTED32), MakeMetadata, MetadataParts);
    var source := new Reader(payload);
    var body :- source.MetadataBody();
    var rest :- source.Defaulted32();
    return Success(MakeMetadata((body, rest)));
  }

  method DecodeJoinGroupRequest(payload: Bytes) returns (r: Result<JoinGroupRequest>)
    ensures r == AsResult(Decode(JOIN, payload))
  {
    assert JOIN == Map(Pair(JOIN_BODY, JOIN_REST), MakeJoin, JoinParts);
    var source := new Reader(payload);
    var body :- source.JoinBody();
    var rest :- source.JoinRest();
    return Success(MakeJoin((body, rest)));
  }

  method DecodeJoinGroupResponse(payload: Bytes) returns (r: Result<JoinGroupResponse>)
    ensures r == AsResult(Decode(JOINED, payload))
  {
    assert JOINED == Map(Pair(JOINED_HEAD, MEMBERS), MakeJoined, JoinedParts);
    var source := new Reader(payload);
    var body :- source.JoinedHead();
    var rest :- source.Members();
    return Success(MakeJoined((body, rest)));
  }
}

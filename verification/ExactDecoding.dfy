/**
 What the payload decoders accept: exactly the encodings, whatever follows
 them, and the encodings older writers produce, with a trailer missing or cut
 short.
 */
module ExactDecoding {
  import opened Options
  import opened Bytes
  import opened Format
  import opened Messages
  import opened WireLayout

  // ---------- formats that read only what they write ----------

  ghost predicate CanonicalAt<T(!new)>(f: Format<T>, b: Bytes) {
    match f.get(b) case Fail => true case Ok(x, t) => f.fits(x) && f.within(x) && b == f.put(x) + t
  }

  ghost predicate Canonical<T(!new)>(f: Format<T>) { forall b: Bytes :: CanonicalAt(f, b) }

  lemma NumberCanonical(k: nat, b: Bytes)
    ensures var p := GetNumber(k, b); p.Ok? ==> b == Little(p.value, k) + p.rest
  {
    if |b| >= k { FromLittleRoundTrip(b[..k]); }
  }

  lemma NumbersCanonical()
    ensures Canonical(NUMBER8) && Canonical(NUMBER16) && Canonical(NUMBER32) && Canonical(NUMBER64)
  {
    forall b: Bytes ensures CanonicalAt(NUMBER8, b) && CanonicalAt(NUMBER16, b) && CanonicalAt(NUMBER32, b) && CanonicalAt(NUMBER64, b) {
      NumberCanonical(1, b);
      NumberCanonical(2, b);
      NumberCanonical(4, b);
      NumberCanonical(8, b);
    }
  }

  lemma MapCanonical<A(!new), B(!new)>(f: Format<A>, to: A -> B, from: B -> A)
    requires Canonical(f) && forall x :: from(to(x)) == x
    ensures Canonical(Map(f, to, from))
  {
    forall b: Bytes ensures CanonicalAt(Map(f, to, from), b) { assert CanonicalAt(f, b); }
  }

  lemma SignedCanonical()
    ensures Canonical(SIGNED32) && Canonical(SIGNED64)
  {
    NumbersCanonical();
    MapCanonical(NUMBER32, ToI32, OfI32);
    MapCanonical(NUMBER64, ToI64, OfI64);
  }

  lemma TakeCanonical(n: nat, b: Bytes)
    ensures var p := GetTake(n, b); p.Ok? ==> |p.value| == n && b == p.value + p.rest
  { }

  lemma TextCanonical()
    ensures Canonical(TEXT)
  {
    Limits();
    forall b: Bytes ensures CanonicalAt(TEXT, b) {
      NumberCanonical(2, b);
      if TEXT.get(b).Ok? {
        TakeCanonical(GetU16(b).value, GetU16(b).rest);
        var s, t := TEXT.get(b).value, TEXT.get(b).rest;
        assert Little(|s|, 2) + (s + t) == Little(|s|, 2) + s + t;
      }
    }
  }

  lemma BlobCanonical(n: nat, rest: Bytes, b: Bytes)
    requires b == Little(n, 4) + rest && |rest| >= n
    ensures b == PutBytes(rest[..n]) + rest[n..]
  {
    assert rest == rest[..n] + rest[n..];
    assert Little(n, 4) + (rest[..n] + rest[n..]) == Little(n, 4) + rest[..n] + rest[n..];
  }

  lemma BytesCanonical()
    ensures Canonical(BYTE_STRING) && Canonical(OPTIONAL_BYTES)
  {
    Limits();
    forall b: Bytes ensures CanonicalAt(BYTE_STRING, b) && CanonicalAt(OPTIONAL_BYTES, b) {
      NumberCanonical(4, b);
      if GetU32(b).Ok? && GetU32(b).value != NULL_LEN && |GetU32(b).rest| >= GetU32(b).value {
        BlobCanonical(GetU32(b).value, GetU32(b).rest, b);
      }
    }
  }

  lemma PairCanonical<A(!new), B(!new)>(f: Format<A>, g: Format<B>)
    requires Canonical(f) && Canonical(g)
    ensures Canonical(Pair(f, g))
  {
    forall b: Bytes ensures CanonicalAt(Pair(f, g), b) {
      assert CanonicalAt(f, b);
      if f.get(b).Ok? {
        var Ok(x, rest) := f.get(b);
        assert CanonicalAt(g, rest);
        if g.get(rest).Ok? {
          var Ok(y, t) := g.get(rest);
          assert f.put(x) + (g.put(y) + t) == f.put(x) + g.put(y) + t;
        }
      }
    }
  }

  lemma TripleCanonical<A(!new), B(!new), C(!new)>(f: Format<A>, g: Format<B>, h: Format<C>)
    requires Canonical(f) && Canonical(g) && Canonical(h)
    ensures Canonical(Pair(f, Pair(g, h)))
  {
    PairCanonical(g, h);
    PairCanonical(f, Pair(g, h));
  }

  lemma {:induction false} AllCanonical<T(!new)>(f: Format<T>, n: nat, b: Bytes)
    requires Canonical(f)
    ensures var p := GetAll(f, n, b);
            p.Ok? ==> b == PutAll(f, p.value) + p.rest && forall x <- p.value :: f.fits(x) && f.within(x)
  {
    if n > 0 {
      assert CanonicalAt(f, b);
      if f.get(b).Ok? {
        var Ok(x, rest) := f.get(b);
        AllCanonical(f, n - 1, rest);
        if GetAll(f, n - 1, rest).Ok? {
          var Ok(xs, t) := GetAll(f, n - 1, rest);
          assert ([x] + xs)[1..] == xs;
          assert f.put(x) + (PutAll(f, xs) + t) == f.put(x) + PutAll(f, xs) + t;
        }
      }
    }
  }

  lemma ListCanonical<T(!new)>(f: Format<T>)
    requires Canonical(f)
    ensures Canonical(List(f))
  {
    forall b: Bytes ensures CanonicalAt(List(f), b) {
      NumberCanonical(4, b);
      if GetList(f, b).Ok? {
        AllCanonical(f, GetU32(b).value, GetU32(b).rest);
        var xs, t := GetList(f, b).value, GetList(f, b).rest;
        assert Little(|xs|, 4) + (PutAll(f, xs) + t) == Little(|xs|, 4) + PutAll(f, xs) + t;
      }
    }
  }

  // ---------- what is read, both ways ----------

  lemma ExactRead<T(!new)>(f: Format<T>, b: Bytes, x: T, t: Bytes)
    requires Lawful(f) && Canonical(f)
    ensures f.get(b) == Ok(x, t) <==> f.fits(x) && f.within(x) && b == f.put(x) + t
  {
    assert CanonicalAt(f, b);
    assert ReadsBack(f, x) && (f.fits(x) ==> Faithful(f, x, t));
  }

  lemma ExactPrefix<T(!new)>(f: Format<T>, b: Bytes, x: T)
    requires Lawful(f) && Canonical(f)
    ensures Decode(f, b) == Some(x) <==> f.fits(x) && f.within(x) && f.put(x) <= b
    ensures Decode(f, b) == Some(x) ==> f.get(b).rest == b[|f.put(x)|..]
  {
    if Decode(f, b) == Some(x) { ExactRead(f, b, x, f.get(b).rest); }
    if f.fits(x) && f.within(x) && f.put(x) <= b {
      assert b == f.put(x) + b[|f.put(x)|..];
      ExactRead(f, b, x, b[|f.put(x)|..]);
    }
  }

  /** A field that may be missing: at least `least` bytes and it is read, fewer and it has its default. */
  lemma ExactDefaulted<T(!new)>(f: Format<T>, least: nat, absent: T, b: Bytes, x: T)
    requires Lawful(f) && Canonical(f) && |f.put(x)| >= least && f.fits(absent) && f.within(absent)
    ensures Decode(Defaulted(f, least, absent), b) == Some(x) <==> f.fits(x) && f.within(x) && (f.put(x) <= b || (|b| < least && x == absent))
  {
    ExactPrefix(f, b, x);
  }

  lemma PrefixOfSum(a: Bytes, c: Bytes, b: Bytes)
    ensures a + c <= b <==> a <= b && c <= b[|a|..]
  {
    if a <= b && c <= b[|a|..] { assert b == a + b[|a|..]; }
    if a + c <= b { assert b[|a|..][..|c|] == c; }
  }

  /** A body followed by a trailer that may be missing. */
  lemma ExactTrailed<A(!new), B(!new), M(!new)>(f: Format<A>, g: Format<B>, least: nat, absent: B, to: ((A, B)) -> M, from: M -> (A, B), b: Bytes, m: M)
    requires Lawful(f) && Canonical(f) && Lawful(g) && Canonical(g) && g.fits(absent) && g.within(absent) && |g.put(from(m).1)| >= least
    requires (forall y :: to(from(y)) == y) && forall x :: from(to(x)) == x
    ensures var h := Map(Pair(f, Defaulted(g, least, absent)), to, from);
            var body := f.put(from(m).0);
            Decode(h, b) == Some(m) <==>
            h.fits(m) && h.within(m) && (h.put(m) <= b || (body <= b && |b| < |body| + least && from(m).1 == absent))
  {
    var (x, y) := from(m);
    ExactPrefix(f, b, x);
    if f.put(x) <= b { ExactDefaulted(g, least, absent, b[|f.put(x)|..], y); }
    PrefixOfSum(f.put(x), g.put(y), b);
    TrailedRead(f, g, least, absent, to, from, b, m);
  }

  lemma TrailedRead<A(!new), B(!new), M(!new)>(f: Format<A>, g: Format<B>, least: nat, absent: B, to: ((A, B)) -> M, from: M -> (A, B), b: Bytes, m: M)
    requires (forall y :: to(from(y)) == y) && forall x :: from(to(x)) == x
    ensures var h := Map(Pair(f, Defaulted(g, least, absent)), to, from);
            Decode(h, b) == Some(m) <==>
            Decode(f, b) == Some(from(m).0) && Decode(Defaulted(g, least, absent), f.get(b).rest) == Some(from(m).1)
  {
    var h := Map(Pair(f, Defaulted(g, least, absent)), to, from);
    if Decode(h, b) == Some(m) { assert from(to(from(m))) == from(m); }
  }

  lemma PairRead<A(!new), B(!new)>(f: Format<A>, g: Format<B>, b: Bytes, x: A, y: B)
    ensures Decode(Pair(f, g), b) == Some((x, y)) <==> Decode(f, b) == Some(x) && Decode(g, f.get(b).rest) == Some(y)
    ensures Decode(Pair(f, g), b) == Some((x, y)) ==> Pair(f, g).get(b).rest == g.get(f.get(b).rest).rest
  { }

  lemma MapRead<A(!new), M(!new)>(f: Format<A>, to: A -> M, from: M -> A, b: Bytes, m: M)
    requires (forall y :: to(from(y)) == y) && forall x :: from(to(x)) == x
    ensures Decode(Map(f, to, from), b) == Some(m) <==> Decode(f, b) == Some(from(m))
  { }

  /** A trailer that may be missing, and in it a field that may be. */
  lemma ExactInner<B(!new), C(!new)>(g: Format<B>, h: Format<C>, least: nat, inner: C, absent: (B, C), b: Bytes, y: B, c: C)
    requires Lawful(g) && Canonical(g) && Lawful(h) && Canonical(h) && h.fits(inner) && h.within(inner) && |h.put(c)| >= least
    requires g.fits(absent.0) && g.within(absent.0) && h.fits(absent.1) && h.within(absent.1)
    ensures Decode(Defaulted(Pair(g, Defaulted(h, least, inner)), 1, absent), b) == Some((y, c)) <==>
            && g.fits(y) && g.within(y) && h.fits(c) && h.within(c)
            && (g.put(y) + h.put(c) <= b || (g.put(y) <= b && |b| < |g.put(y)| + least && c == inner) || (b == [] && (y, c) == absent))
  {
    PairRead(g, Defaulted(h, least, inner), b, y, c);
    ExactPrefix(g, b, y);
    if g.put(y) <= b { ExactDefaulted(h, least, inner, b[|g.put(y)|..], c); }
    PrefixOfSum(g.put(y), h.put(c), b);
    assert ReadsBack(g, y);
  }

  lemma ExactNested<A(!new), B(!new), C(!new), M(!new)>(
      f: Format<A>, g: Format<B>, h: Format<C>, least: nat, inner: C, absent: (B, C), to: ((A, (B, C))) -> M, from: M -> (A, (B, C)), b: Bytes, m: M)
    requires Lawful(f) && Canonical(f) && Lawful(g) && Canonical(g) && Lawful(h) && Canonical(h)
    requires h.fits(inner) && h.within(inner) && |h.put(from(m).1.1)| >= least
    requires g.fits(absent.0) && g.within(absent.0) && h.fits(absent.1) && h.within(absent.1)
    requires (forall y :: to(from(y)) == y) && forall x :: from(to(x)) == x
    ensures var k := Map(Pair(f, Defaulted(Pair(g, Defaulted(h, least, inner)), 1, absent)), to, from);
            var (body, head) := (f.put(from(m).0), f.put(from(m).0) + g.put(from(m).1.0));
            Decode(k, b) == Some(m) <==>
            && k.fits(m) && k.within(m)
            && (head + h.put(from(m).1.1) <= b || (head <= b && |b| < |head| + least && from(m).1.1 == inner) || (b == body && from(m).1 == absent))
  {
    var (x, (y, c)) := from(m);
    var tail := Defaulted(Pair(g, Defaulted(h, least, inner)), 1, absent);
    MapRead(Pair(f, tail), to, from, b, m);
    PairRead(f, tail, b, x, (y, c));
    ExactPrefix(f, b, x);
    if f.put(x) <= b {
      var rest := b[|f.put(x)|..];
      ExactInner(g, h, least, inner, absent, rest, y, c);
      assert b == f.put(x) + rest;
      assert rest == [] ==> b == f.put(x);
    }
    PrefixOfSum(f.put(x), g.put(y), b);
    PrefixOfSum(f.put(x), g.put(y) + h.put(c), b);
    assert f.put(x) + (g.put(y) + h.put(c)) == f.put(x) + g.put(y) + h.put(c);
  }

  /** Two trailers in a row that may be missing. */
  lemma ExactTwo<A(!new), B(!new), C(!new), M(!new)>(
      f: Format<A>, g: Format<B>, h: Format<C>, least: nat, absent: B, last: C, to: (((A, B), C)) -> M, from: M -> ((A, B), C), b: Bytes, m: M)
    requires Lawful(f) && Canonical(f) && Lawful(g) && Canonical(g) && Lawful(h) && Canonical(h)
    requires g.fits(absent) && g.within(absent) && h.fits(last) && h.within(last)
    requires |g.put(from(m).0.1)| >= least && |h.put(from(m).1)| >= least
    requires (forall y :: to(from(y)) == y) && forall x :: from(to(x)) == x
    ensures var k := Map(Pair(Pair(f, Defaulted(g, least, absent)), Defaulted(h, least, last)), to, from);
            var (body, head) := (f.put(from(m).0.0), f.put(from(m).0.0) + g.put(from(m).0.1));
            Decode(k, b) == Some(m) <==>
            && k.fits(m) && k.within(m)
            && (|| head + h.put(from(m).1) <= b
                || (head <= b && |b| < |head| + least && from(m).1 == last)
                || (body <= b && |b| < |body| + least && from(m).0.1 == absent && from(m).1 == last))
  {
    var ((x, y), c) := from(m);
    var second, third := Defaulted(g, least, absent), Defaulted(h, least, last);
    MapRead(Pair(Pair(f, second), third), to, from, b, m);
    PairRead(Pair(f, second), third, b, (x, y), c);
    PairRead(f, second, b, x, y);
    ExactPrefix(f, b, x);
    if f.put(x) <= b { ExactLast(g, h, least, absent, last, b[|f.put(x)|..], y, c); }
    PrefixOfSum(f.put(x), g.put(y), b);
    PrefixOfSum(f.put(x), g.put(y) + h.put(c), b);
    assert f.put(x) + (g.put(y) + h.put(c)) == f.put(x) + g.put(y) + h.put(c);
  }

  lemma ExactLast<B(!new), C(!new)>(g: Format<B>, h: Format<C>, least: nat, absent: B, last: C, b: Bytes, y: B, c: C)
    requires Lawful(g) && Canonical(g) && Lawful(h) && Canonical(h) && |g.put(y)| >= least && |h.put(c)| >= least
    requires g.fits(absent) && g.within(absent) && h.fits(last) && h.within(last)
    ensures var second := Defaulted(g, least, absent);
            Decode(second, b) == Some(y) && Decode(Defaulted(h, least, last), second.get(b).rest) == Some(c) <==>
            && g.fits(y) && g.within(y) && h.fits(c) && h.within(c)
            && (|| g.put(y) + h.put(c) <= b
                || (g.put(y) <= b && |b| < |g.put(y)| + least && c == last)
                || (|b| < least && y == absent && c == last))
  {
    ExactPrefix(g, b, y);
    if |b| >= least && g.put(y) <= b { ExactDefaulted(h, least, last, b[|g.put(y)|..], c); }
    if |b| < least { ExactDefaulted(h, least, last, b, c); }
    PrefixOfSum(g.put(y), h.put(c), b);
  }

  // ---------- the messages ----------

  lemma PrimitivesCanonical()
    ensures Canonical(TEXT) && Canonical(BYTE_STRING) && Canonical(OPTIONAL_BYTES) && Canonical(SIGNED32) && Canonical(SIGNED64)
    ensures Canonical(NUMBER8) && Canonical(NUMBER16) && Canonical(NUMBER32) && Canonical(NUMBER64)
  {
    TextCanonical();
    BytesCanonical();
    NumbersCanonical();
    SignedCanonical();
  }

  lemma HeadersCanonical()
    ensures Canonical(List(HEADER))
  {
    PrimitivesCanonical();
    PairCanonical(TEXT, BYTE_STRING);
    MapCanonical(Pair(TEXT, BYTE_STRING), MakeHeader, HeaderParts);
    ListCanonical(HEADER);
  }

  lemma ProduceBodyCanonical()
    ensures Canonical(PRODUCE_BODY) && Canonical(PRODUCE_TRAILER)
  {
    PrimitivesCanonical();
    HeadersCanonical();
    PairCanonical(SIGNED64, List(HEADER));
    TripleCanonical(OPTIONAL_BYTES, BYTE_STRING, STAMPED);
    MapCanonical(Pair(OPTIONAL_BYTES, VALUED), MakeMessage, MessageParts);
    ListCanonical(MESSAGE);
    PairCanonical(NUMBER8, List(MESSAGE));
    TripleCanonical(TEXT, SIGNED32, ACKED);
    TripleCanonical(NUMBER64, NUMBER16, SIGNED32);
  }

  /** A Produce payload decodes to `q` exactly if it begins with the layout of `q`, or with its body and less than a trailer, `q` not being idempotent. */
  lemma ProduceDecodesIff(b: Bytes, q: ProduceRequest)
    ensures Decode(PRODUCE, b) == Some(q) <==>
            && StringsFit(q) && LengthsFit(q)
            && (|| ProduceLayout(q) <= b
                || (&& ProduceBodyLayout(q) <= b && |b| < |ProduceBodyLayout(q)| + 14
                    && q.producerId == 0 && q.producerEpoch == 0 && q.baseSequence == -1))
  {
    ProduceReads(b, q);
    ProduceLengths(q);
    ProduceAsLaidOut(q);
    ProduceBodyPut(q);
  }

  lemma ProduceReads(b: Bytes, q: ProduceRequest)
    ensures var body := PRODUCE_BODY.put(ProduceParts(q).0);
            Decode(PRODUCE, b) == Some(q) <==>
            && PRODUCE.fits(q) && PRODUCE.within(q)
            && (PRODUCE.put(q) <= b || (body <= b && |b| < |body| + PRODUCE_TRAILER_LEN && ProduceParts(q).1 == NOT_IDEMPOTENT))
  {
    ProduceBodyCanonical();
    ProduceLawful();
    PrimitivesLawful();
    TripleLawful(NUMBER64, NUMBER16, SIGNED32);
    ProduceTrailerSize(ProduceParts(q).1);
    ExactTrailed(PRODUCE_BODY, PRODUCE_TRAILER, PRODUCE_TRAILER_LEN, NOT_IDEMPOTENT, MakeProduce, ProduceParts, b, q);
  }

  lemma FetchBodyCanonical()
    ensures Canonical(FETCH_BODY) && Canonical(FETCH_TRAILER)
  {
    PrimitivesCanonical();
    TripleCanonical(NUMBER32, NUMBER32, NUMBER32);
    PairCanonical(NUMBER64, LIMITS);
    TripleCanonical(TEXT, NUMBER32, WINDOW);
    PairCanonical(TEXT, TEXT);
  }

  /** A Fetch payload decodes to `q` exactly if it is the body alone, `q` naming nobody, or begins with the body and both names. */
  lemma FetchDecodesIff(b: Bytes, q: FetchRequest)
    ensures Decode(FETCH, b) == Some(q) <==>
            && NamesFit(q)
            && (FetchBodyLayout(q) + (Str(q.groupId) + Str(q.memberId)) <= b || (b == FetchBodyLayout(q) && q.groupId == [] && q.memberId == []))
  {
    FetchBodyCanonical();
    FetchLawful();
    PrimitivesLawful();
    PairLawful(TEXT, TEXT);
    FetchLengths(q);
    FetchBodyPut(q);
    MapPut(FETCH_PARTS, MakeFetch, FetchParts, q);
    PairPut(FETCH_BODY, FETCH_REST, FetchParts(q).0, FetchParts(q).1);
    PairPut(TEXT, TEXT, q.groupId, q.memberId);
    ExactTrailed(FETCH_BODY, FETCH_TRAILER, 1, ([], []), MakeFetch, FetchParts, b, q);
    assert FetchBodyLayout(q) <= b && |b| < |FetchBodyLayout(q)| + 1 ==> b == FetchBodyLayout(q);
  }

  lemma FetchResponseCanonical()
    ensures Canonical(FETCH_RESPONSE)
  {
    PrimitivesCanonical();
    HeadersCanonical();
    TripleCanonical(OPTIONAL_BYTES, BYTE_STRING, List(HEADER));
    TripleCanonical(NUMBER64, SIGNED64, KEYED);
    MapCanonical(Pair(NUMBER64, Pair(SIGNED64, KEYED)), MakeRecord, RecordParts);
    ListCanonical(RECORD);
    TripleCanonical(NUMBER64, NUMBER16, List(RECORD));
    TripleCanonical(TEXT, NUMBER32, MARKED);
    MapCanonical(FETCH_RESPONSE_PARTS, MakeFetchResponse, FetchResponseParts);
  }

  /** A Fetch response decodes to `r` exactly if it begins with the layout of `r`. */
  lemma FetchResponseDecodesIff(b: Bytes, r: FetchResponse)
    ensures Decode(FETCH_RESPONSE, b) == Some(r) <==> FetchStringsFit(r) && FetchLengthsFit(r) && FetchResponseLayout(r) <= b
  {
    FetchResponseCanonical();
    FetchResponseLawful();
    FetchResponseLengths(r);
    FetchResponseAsLaidOut(r);
    ExactPrefix(FETCH_RESPONSE, b, r);
  }

  lemma BrokersCanonical()
    ensures Canonical(List(BROKER))
  {
    PrimitivesCanonical();
    TripleCanonical(NUMBER32, TEXT, NUMBER16);
    MapCanonical(Pair(NUMBER32, ADDRESS), MakeBroker, BrokerParts);
    ListCanonical(BROKER);
  }

  lemma TopicsCanonical()
    ensures Canonical(List(TOPIC))
  {
    PrimitivesCanonical();
    ListCanonical(NUMBER32);
    TripleCanonical(List(NUMBER32), List(NUMBER32), NUMBER32);
    PairCanonical(NUMBER64, REPLICAS);
    TripleCanonical(NUMBER32, NUMBER32, PLACEMENT);
    MapCanonical(Pair(NUMBER32, Pair(NUMBER32, PLACEMENT)), MakePartition, PartitionParts);
    ListCanonical(PARTITION);
    PairCanonical(NUMBER16, List(PARTITION));
    TripleCanonical(TEXT, NUMBER32, CODED);
    MapCanonical(Pair(TEXT, Pair(NUMBER32, CODED)), MakeTopic, TopicParts);
    ListCanonical(TOPIC);
  }

  /** A Metadata response decodes to `r` exactly if it begins with the layout of `r`, or with its body and less than a controller id, which is then 0. */
  lemma MetadataDecodesIff(b: Bytes, r: MetadataResponse)
    ensures Decode(METADATA, b) == Some(r) <==>
            && MetadataStringsFit(r) && MetadataCountsFit(r)
            && (MetadataLayout(r) <= b || (MetadataBodyLayout(r) <= b && |b| < |MetadataBodyLayout(r)| + 4 && r.controllerId == 0))
  {
    PrimitivesCanonical();
    BrokersCanonical();
    TopicsCanonical();
    PairCanonical(List(BROKER), List(TOPIC));
    PrimitivesLawful();
    MetadataLawful();
    MetadataLengths(r);
    MetadataAsLaidOut(r);
    MetadataBodyPut(r);
    ExactTrailed(METADATA_BODY, NUMBER32, 4, 0, MakeMetadata, MetadataParts, b, r);
  }

  /** A JoinGroup request decodes to `q` exactly if it begins with the layout of `q`, or stops inside or before the timeout, which is then 0, or before the instance id, which is then empty. */
  lemma JoinDecodesIff(b: Bytes, q: JoinGroupRequest)
    ensures var (body, head) := (JoinBodyLayout(q), JoinBodyLayout(q) + Str(q.instanceId));
            Decode(JOIN, b) == Some(q) <==>
            && JoinStringsFit(q) && |q.topics| <= 0xFFFF_FFFF
            && (|| JoinLayout(q) <= b
                || (head <= b && |b| < |head| + 4 && q.rebalanceTimeoutMs == 0)
                || (b == body && q.instanceId == [] && q.rebalanceTimeoutMs == 0))
  {
    JoinReads(b, q);
    JoinLengths(q);
    JoinBodyPut(q);
  }

  lemma JoinReads(b: Bytes, q: JoinGroupRequest)
    ensures var (body, head) := (JOIN_BODY.put(JoinParts(q).0), JOIN_BODY.put(JoinParts(q).0) + TEXT.put(q.instanceId));
            Decode(JOIN, b) == Some(q) <==>
            && JOIN.fits(q) && JOIN.within(q)
            && (|| head + NUMBER32.put(q.rebalanceTimeoutMs) <= b
                || (head <= b && |b| < |head| + 4 && q.rebalanceTimeoutMs == 0)
                || (b == body && JoinParts(q).1 == ([], 0)))
  {
    PrimitivesCanonical();
    ListCanonical(TEXT);
    PairCanonical(NUMBER32, List(TEXT));
    TripleCanonical(TEXT, TEXT, SUBSCRIPTION);
    PrimitivesLawful();
    JoinLawful();
    ExactNested(JOIN_BODY, TEXT, NUMBER32, 4, 0, ([], 0), MakeJoin, JoinParts, b, q);
  }

  lemma JoinedBodyCanonical()
    ensures Canonical(JOINED_BODY) && Canonical(List(ASSIGNMENT)) && Canonical(List(TEXT))
  {
    PrimitivesCanonical();
    PairCanonical(TEXT, NUMBER32);
    MapCanonical(Pair(TEXT, NUMBER32), MakeAssignment, AssignmentParts);
    ListCanonical(ASSIGNMENT);
    ListCanonical(TEXT);
    PairCanonical(TEXT, List(ASSIGNMENT));
    TripleCanonical(NUMBER16, NUMBER32, GRANT);
  }

  /** A JoinGroup response decodes to `r` exactly if it begins with the layout of `r`, or lacks the member list, or that and the revoked list, which are then empty. */
  lemma JoinedDecodesIff(b: Bytes, r: JoinGroupResponse)
    ensures var (body, head) := (JoinedBodyLayout(r), JoinedBodyLayout(r) + Counted(AssignmentLayout, r.revoked));
            Decode(JOINED, b) == Some(r) <==>
            && JoinedStringsFit(r) && JoinedCountsFit(r)
            && (|| JoinedLayout(r) <= b
                || (head <= b && |b| < |head| + 4 && r.members == [])
                || (body <= b && |b| < |body| + 4 && r.revoked == [] && r.members == []))
  {
    JoinedReads(b, r);
    JoinedLengths(r);
    JoinedBodyPut(r);
    forall a: Assignment { AssignmentPut(a); }
    ListPut(ASSIGNMENT, AssignmentLayout, r.revoked);
    ListPut(TEXT, Str, r.members);
  }

  lemma JoinedReads(b: Bytes, r: JoinGroupResponse)
    ensures var (body, head) := (JOINED_BODY.put(JoinedParts(r).0.0), JOINED_BODY.put(JoinedParts(r).0.0) + List(ASSIGNMENT).put(r.revoked));
            Decode(JOINED, b) == Some(r) <==>
            && JOINED.fits(r) && JOINED.within(r)
            && (|| head + List(TEXT).put(r.members) <= b
                || (head <= b && |b| < |head| + 4 && r.members == [])
                || (body <= b && |b| < |body| + 4 && r.revoked == [] && r.members == []))
  {
    JoinedBodyCanonical();
    JoinedLawful();
    AssignmentsLawful();
    PrimitivesLawful();
    ListLawful(TEXT);
    ExactTwo(JOINED_BODY, List(ASSIGNMENT), List(TEXT), 4, [], [], MakeJoined, JoinedParts, b, r);
  }
}

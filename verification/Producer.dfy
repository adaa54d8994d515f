/**
 The idempotent producer: identity, sequence numbers and the send loop with
 its three budgets (re-initialisations, redirects, transient retries). The
 request encoder is a parameter.
 */
module Producer {
  import opened Arithmetic
  import opened Options
  import opened Bytes
  import opened Format
  import opened Messages
  import opened PayloadWriter
  import opened Retry

  type SeqKey = (Bytes, I32)

  /** A partition argument is a 64-bit integer; requests and counters keep its low 32 bits. */
  function Narrow(x: I64): I32 { ToI32(x % 0x1_0000_0000) }

  /** 32-bit wrap-around addition. */
  function AddI32(a: I32, n: nat): I32 { ToI32((OfI32(a) + n) % 0x1_0000_0000) }

  function NextSeq(seqs: map<SeqKey, I32>, key: SeqKey): I32 { if key in seqs then seqs[key] else 0 }

  function Noted(seqs: map<SeqKey, I32>, key: SeqKey, count: nat): map<SeqKey, I32> { seqs[key := AddI32(NextSeq(seqs, key), count)] }

  /** A producer's identity and the next sequence of each partition. */
  datatype Identity = Identity(ready: bool, id: U64, epoch: U16, seqs: map<SeqKey, I32>)

  const FORGOTTEN: Identity := Identity(false, 0, 0, map[])

  datatype Batch = Batch(topic: Bytes, partition: I64, messages: seq<ProduceMessage>, acks: U8)

  datatype Sent = Sent(payload: Bytes, round: nat)

  datatype Round = Finished(result: Result<U64>) | Reinit

  // ---------- when the loop goes on ----------

  datatype Limits = Limits(partition: I64, maxRedirects: int, maxRetries: nat, reinits: nat)

  /** Redirects since the last re-initialisation. */
  function SinceReinit(reply: nat -> Reply, n: nat): nat {
    if n == 0 || HasCode(reply(n - 1), UNKNOWN_PRODUCER_ID) then 0
    else SinceReinit(reply, n - 1) + if HasCode(reply(n - 1), NOT_LEADER) then 1 else 0
  }

  predicate Redirects(w: World, l: Limits, last: nat) {
    && HasCode(w.reply(last), NOT_LEADER) && (w.reply(last).Answer? || l.partition >= 0)
    && w.redirect(last) == Moved && SinceReinit(w.reply, last) < l.maxRedirects
  }

  predicate Retries(w: World, l: Limits, last: nat) { IsTransient(w.reply(last)) && Transients(w.reply, last) < l.maxRetries }

  /** The reply does not end its round. */
  predicate Resends(w: World, l: Limits, last: nat) { Redirects(w, l, last) || Retries(w, l, last) }

  predicate Reinits(w: World, l: Limits, last: nat) {
    HasCode(w.reply(last), UNKNOWN_PRODUCER_ID) && WithCode(w.reply, UNKNOWN_PRODUCER_ID, last) < l.reinits
  }

  ghost predicate RoundGoesOn(w: World, l: Limits, start: nat, n: nat) { forall i: nat :: start <= i < n ==> Resends(w, l, i) }

  ghost predicate GoesOn(w: World, l: Limits, n: nat) { forall i: nat :: i < n ==> Resends(w, l, i) || Reinits(w, l, i) }

  /** A re-initialisation happened within the first `n` replies. */
  predicate WasReset(w: World, l: Limits, n: nat) { l.reinits > 0 && WithCode(w.reply, UNKNOWN_PRODUCER_ID, n) > 0 }

  lemma {:induction false} NoReinitWithin(w: World, l: Limits, start: nat, n: nat, i: nat)
    requires RoundGoesOn(w, l, start, n) && start <= i <= n
    ensures WithCode(w.reply, UNKNOWN_PRODUCER_ID, i) == WithCode(w.reply, UNKNOWN_PRODUCER_ID, start)
  {
    if start < i {
      NoReinitWithin(w, l, start, n, i - 1);
      assert Resends(w, l, i - 1);
    }
  }

  // ---------- what a round sends ----------

  /** The answer that ends an initialisation: the first that is not transient, or the last the budget allows. */
  function FinalReply(reply: nat -> Reply, maxRetries: nat, n: nat): Reply
    requires n <= maxRetries
    decreases maxRetries - n
  {
    if IsTransient(reply(n)) && n < maxRetries then FinalReply(reply, maxRetries, n + 1) else reply(n)
  }

  /** The identity to produce under: the one there is, or the one the broker grants. */
  function Granted(me: Identity, reply: nat -> Reply, maxRetries: nat): Option<Identity> {
    var r := FinalReply(reply, maxRetries, 0);
    if me.ready then Some(me)
    else if IsGood(r) then Some(Identity(true, r.value, r.epoch, me.seqs)) else None
  }

  function RequestAs(me: Identity, b: Batch): ProduceRequest {
    ProduceRequest(b.topic, Narrow(b.partition), b.acks, b.messages, me.id, me.epoch, NextSeq(me.seqs, (b.topic, Narrow(b.partition))))
  }

  function PlainRequest(b: Batch): ProduceRequest { ProduceRequest(b.topic, Narrow(b.partition), b.acks, b.messages, 0, 0, -1) }

  /** A producer about to send a batch. */
  datatype Plan = Plan(sequenced: bool, maxRetries: nat, me: Identity, batch: Batch)

  function Payload(p: Plan, encode: ProduceRequest -> Result<Bytes>, reply: nat -> Reply): Result<Bytes> {
    if !p.sequenced then encode(PlainRequest(p.batch))
    else match Granted(p.me, reply, p.maxRetries) case None => Failure case Some(me) => encode(RequestAs(me, p.batch))
  }

  /** Every round after the first begins with the identity forgotten. */
  function RoundPayload(p: Plan, encode: ProduceRequest -> Result<Bytes>, w: World, round: nat): Result<Bytes> {
    Payload(if round == 0 then p else p.(me := FORGOTTEN), encode, w.init(round))
  }

  /** A sequenced round after a re-initialisation sends the batch under the identity just granted, at sequence 0, or nothing. */
  lemma LaterRoundsStartOver(p: Plan, encode: ProduceRequest -> Result<Bytes>, w: World, round: nat)
    requires p.sequenced && round > 0
    ensures var r, b := FinalReply(w.init(round), p.maxRetries, 0), p.batch;
            RoundPayload(p, encode, w, round) ==
            if IsGood(r) then encode(ProduceRequest(b.topic, Narrow(b.partition), b.acks, b.messages, r.value, r.epoch, 0)) else Failure
  {
  }

  /** The first round of a sequenced producer without an identity sends under the one just granted, at its next sequence. */
  lemma FirstRoundOfNewProducer(p: Plan, encode: ProduceRequest -> Result<Bytes>, w: World)
    requires p.sequenced && !p.me.ready
    ensures var r, b := FinalReply(w.init(0), p.maxRetries, 0), p.batch;
            RoundPayload(p, encode, w, 0) ==
            if IsGood(r)
            then encode(ProduceRequest(b.topic, Narrow(b.partition), b.acks, b.messages, r.value, r.epoch, NextSeq(p.me.seqs, (b.topic, Narrow(b.partition)))))
            else Failure
  {
  }

  /** The first round of a sequenced producer with an identity sends under it, at its next sequence for the partition asked for. */
  lemma FirstRoundOfKnownProducer(p: Plan, encode: ProduceRequest -> Result<Bytes>, w: World)
    requires p.sequenced && p.me.ready
    ensures var b := p.batch;
            RoundPayload(p, encode, w, 0) ==
            encode(ProduceRequest(b.topic, Narrow(b.partition), b.acks, b.messages, p.me.id, p.me.epoch, NextSeq(p.me.seqs, (b.topic, Narrow(b.partition)))))
  { }

  /** Without idempotence or transactions every round sends no identity and sequence -1. */
  lemma PlainRounds(p: Plan, encode: ProduceRequest -> Result<Bytes>, w: World, round: nat)
    requires !p.sequenced
    ensures var b := p.batch;
            RoundPayload(p, encode, w, round) == encode(ProduceRequest(b.topic, Narrow(b.partition), b.acks, b.messages, 0, 0, -1))
  { }

  // ---------- the log of sends ----------

  /** Each send's round is the number of re-initialisations before it, and a round has one payload. */
  ghost predicate Logged(w: World, sent: seq<Sent>) {
    && (forall i :: 0 <= i < |sent| ==> sent[i].round == WithCode(w.reply, UNKNOWN_PRODUCER_ID, i))
    && (forall i, j :: 0 <= i < |sent| && 0 <= j < |sent| && sent[i].round == sent[j].round ==> sent[i].payload == sent[j].payload)
  }

  ghost predicate RoundsBelow(sent: seq<Sent>, round: nat) { forall s <- sent :: s.round < round }

  /** Every send carries the payload of its round. */
  ghost predicate Carries(p: Plan, encode: ProduceRequest -> Result<Bytes>, w: World, sent: seq<Sent>) {
    forall s <- sent :: RoundPayload(p, encode, w, s.round) == Success(s.payload)
  }

  /** `more` continues `sent` with sends of `payload` in `round` only. */
  ghost predicate Repeats(sent: seq<Sent>, more: seq<Sent>, payload: Bytes, round: nat) {
    sent <= more && forall i :: |sent| <= i < |more| ==> more[i] == Sent(payload, round)
  }

  lemma LogRound(w: World, l: Limits, sent: seq<Sent>, payload: Bytes, round: nat, more: seq<Sent>)
    requires Logged(w, sent) && RoundsBelow(sent, round) && round == WithCode(w.reply, UNKNOWN_PRODUCER_ID, |sent|)
    requires Repeats(sent, more, payload, round) && |sent| < |more| && RoundGoesOn(w, l, |sent|, |more| - 1)
    ensures Logged(w, more) && RoundsBelow(more, round + 1)
  {
    forall i | 0 <= i < |more| ensures more[i].round == WithCode(w.reply, UNKNOWN_PRODUCER_ID, i) {
      if i >= |sent| { NoReinitWithin(w, l, |sent|, |more| - 1, i); }
    }
    forall i | 0 <= i < |sent| ensures more[i] == sent[i] && sent[i] in sent { }
  }

  lemma CarryRound(p: Plan, encode: ProduceRequest -> Result<Bytes>, w: World, sent: seq<Sent>, payload: Bytes, round: nat, more: seq<Sent>)
    requires Carries(p, encode, w, sent) && Repeats(sent, more, payload, round) && RoundPayload(p, encode, w, round) == Success(payload)
    ensures Carries(p, encode, w, more)
  {
    forall s | s in more ensures RoundPayload(p, encode, w, s.round) == Success(s.payload) {
      var i :| 0 <= i < |more| && more[i] == s;
      if i < |sent| { assert sent[i] == s; }
    }
  }

  lemma FirstPayload(p: Plan, encode: ProduceRequest -> Result<Bytes>, w: World, sent: seq<Sent>)
    requires Logged(w, sent) && Carries(p, encode, w, sent)
    ensures sent != [] ==> RoundPayload(p, encode, w, 0).Success?
  {
    if sent != [] { assert sent[0] in sent; }
  }

  /** `n` times `per`, added up. */
  function Rounds(n: nat, per: nat): nat { if n == 0 then 0 else Rounds(n - 1, per) + per }

  lemma {:induction false} RoundsMultiply(n: nat, per: nat)
    ensures Rounds(n, per) == n * per
  {
    if n > 0 {
      RoundsMultiply(n - 1, per);
      OneMore(n - 1, per);
    }
  }

  function Bound(l: Limits): nat { Rounds(1 + l.reinits, 1 + AtLeastZero(l.maxRedirects)) + l.maxRetries }

  lemma BoundIsProduct(l: Limits)
    ensures Bound(l) == (1 + l.reinits) * (1 + AtLeastZero(l.maxRedirects)) + l.maxRetries
  {
    RoundsMultiply(1 + l.reinits, 1 + AtLeastZero(l.maxRedirects));
  }

  lemma WithinBound(l: Limits, rounds: nat, retries: nat, n: nat)
    requires rounds <= 1 + l.reinits && retries <= l.maxRetries && n <= Rounds(rounds, 1 + AtLeastZero(l.maxRedirects)) + retries
    ensures n <= Bound(l)
  {
    var per := 1 + AtLeastZero(l.maxRedirects);
    RoundsMultiply(rounds, per);
    BoundIsProduct(l);
    MultiplyMonotone(rounds, 1 + l.reinits, per);
  }

  /** A log the loop may leave behind: within the bound, one payload a round, ended by a reply that ends a round. */
  ghost predicate Settled(w: World, l: Limits, sent: seq<Sent>) {
    && |sent| <= Bound(l) && Logged(w, sent) && RoundsBelow(sent, 1 + l.reinits)
    && (sent != [] ==> GoesOn(w, l, |sent| - 1) && !Resends(w, l, |sent| - 1))
  }

  /** The log before a round: everything sent so far ended in re-initialisations. */
  ghost predicate Between(w: World, l: Limits, sent: seq<Sent>, round: nat, retries: nat) {
    && round <= l.reinits && retries == Transients(w.reply, |sent|) <= l.maxRetries
    && |sent| <= Rounds(round, 1 + AtLeastZero(l.maxRedirects)) + retries
    && SinceReinit(w.reply, |sent|) == 0 && round == WithCode(w.reply, UNKNOWN_PRODUCER_ID, |sent|)
    && Logged(w, sent) && RoundsBelow(sent, round) && GoesOn(w, l, |sent|)
    && (sent != [] ==> round > 0 && !Resends(w, l, |sent| - 1) && HasCode(w.reply(|sent| - 1), UNKNOWN_PRODUCER_ID))
  }

  lemma BetweenSettled(w: World, l: Limits, sent: seq<Sent>, round: nat, retries: nat)
    requires Between(w, l, sent, round, retries)
    ensures Settled(w, l, sent) && !(sent != [] && IsGood(w.reply(|sent| - 1)))
    ensures l.reinits <= 1 ==> (WasReset(w, l, |sent|) <==> round > 0)
  {
    WithinBound(l, round, retries, |sent|);
  }

  lemma RoundSettled(w: World, l: Limits, sent: seq<Sent>, round: nat, retries: nat, payload: Bytes, more: seq<Sent>, used: nat)
    requires Between(w, l, sent, round, retries) && Repeats(sent, more, payload, round)
    requires |sent| < |more| <= |sent| + 1 + AtLeastZero(l.maxRedirects) + used - retries
    requires used == Transients(w.reply, |more| - 1) <= l.maxRetries
    requires RoundGoesOn(w, l, |sent|, |more| - 1) && !Resends(w, l, |more| - 1)
    ensures Settled(w, l, more)
    ensures WithCode(w.reply, UNKNOWN_PRODUCER_ID, |more| - 1) == round
    ensures |more| <= Rounds(round + 1, 1 + AtLeastZero(l.maxRedirects)) + used && RoundsBelow(more, round + 1)
  {
    LogRound(w, l, sent, payload, round, more);
    NoReinitWithin(w, l, |sent|, |more| - 1, |more| - 1);
    WithinBound(l, round + 1, used, |more|);
    GoesOnFurther(w, l, |sent|, |more| - 1);
  }

  lemma NextBetween(w: World, l: Limits, round: nat, more: seq<Sent>, used: nat)
    requires Settled(w, l, more) && more != [] && RoundsBelow(more, round + 1) && round < l.reinits
    requires WithCode(w.reply, UNKNOWN_PRODUCER_ID, |more| - 1) == round && HasCode(w.reply(|more| - 1), UNKNOWN_PRODUCER_ID)
    requires used == Transients(w.reply, |more| - 1) <= l.maxRetries
    requires |more| <= Rounds(round + 1, 1 + AtLeastZero(l.maxRedirects)) + used
    ensures Between(w, l, more, round + 1, used)
  {
  }

  lemma GoesOnFurther(w: World, l: Limits, start: nat, n: nat)
    requires GoesOn(w, l, start) && RoundGoesOn(w, l, start, n)
    ensures GoesOn(w, l, n)
  {
  }

  class Client {
    const enableIdempotence: bool
    const transactionalId: Bytes
    const maxRetriesSetting: int
    const maxRedirects: int
    var producerReady: bool
    var producerId: U64
    var producerEpoch: U16
    var nextSeq: map<SeqKey, I32>

    constructor (enableIdempotence: bool, transactionalId: Bytes, maxRetries: int, maxRedirects: int)
      ensures this.enableIdempotence == enableIdempotence && this.transactionalId == transactionalId
      ensures maxRetriesSetting == maxRetries && this.maxRedirects == maxRedirects
      ensures Now() == FORGOTTEN
    {
      this.enableIdempotence, this.transactionalId := enableIdempotence, transactionalId;
      maxRetriesSetting, this.maxRedirects := maxRetries, maxRedirects;
      producerReady, producerId, producerEpoch, nextSeq := false, 0, 0, map[];
    }

    predicate Sequenced() { enableIdempotence || transactionalId != [] }

    function MaxRetries(): nat { AtLeastZero(maxRetriesSetting) }

    function ReinitBudget(): nat { if enableIdempotence then 1 else 0 }

    function Now(): Identity
      reads this
    {
      Identity(producerReady, producerId, producerEpoch, nextSeq)
    }

    /** Keeps the identity there is, or takes the one the broker grants within the retry budget. */
    method EnsureProducerId(reply: nat -> Reply) returns (ok: bool, tries: nat)
      modifies this`producerReady, this`producerId, this`producerEpoch
      ensures tries <= 1 + MaxRetries() && (tries == 0 <==> old(producerReady))
      ensures ok <==> Granted(old(Now()), reply, MaxRetries()).Some?
      ensures Now() == if ok then Granted(old(Now()), reply, MaxRetries()).value else old(Now())
    {
      if producerReady { return true, 0; }
      var retryAttempt := 0;
      while true
        invariant 0 <= retryAttempt <= MaxRetries() && Now() == old(Now())
        invariant FinalReply(reply, MaxRetries(), retryAttempt) == FinalReply(reply, MaxRetries(), 0)
        decreases MaxRetries() - retryAttempt
      {
        var r := reply(retryAttempt);
        tries := retryAttempt + 1;
        if IsTransient(r) && retryAttempt < MaxRetries() {
          retryAttempt := retryAttempt + 1;
          continue;
        }
        if !(r.Answer? && r.answer == OK) { return false, tries; }
        producerId, producerEpoch, producerReady := r.value, r.epoch, true;
        return true, tries;
      }
    }

    function PlanFor(b: Batch): Plan
      reads this
    {
      Plan(Sequenced(), MaxRetries(), Now(), b)
    }

    /** The payload of `b` under the identity there is or the one granted; it fails when none is granted or the encoder refuses. */
    method EncodeProduce(encode: ProduceRequest -> Result<Bytes>, b: Batch, reply: nat -> Reply) returns (r: Result<Bytes>)
      modifies this`producerReady, this`producerId, this`producerEpoch
      ensures r == Payload(old(PlanFor(b)), encode, reply)
      ensures Sequenced() ==> Now() == var g := Granted(old(Now()), reply, MaxRetries()); if g.Some? then g.value else old(Now())
      ensures !Sequenced() ==> Now() == old(Now())
    {
      if !Sequenced() { return encode(PlainRequest(b)); }
      var ok, _ := EnsureProducerId(reply);
      if !ok { return Failure; }
      r := encode(RequestAs(Now(), b));
    }

    function LimitsFor(b: Batch): Limits { Limits(b.partition, maxRedirects, MaxRetries(), ReinitBudget()) }

    /** One round: sends `payload`, appending each send to the log, until a reply ends the round. */
    method SendRound(w: World, b: Batch, payload: Bytes, log: seq<Sent>, round: nat, reinitBudget: nat, retries: nat)
      returns (o: Round, used: nat, sent: seq<Sent>)
      requires retries == Transients(w.reply, |log|) <= MaxRetries() && SinceReinit(w.reply, |log|) == 0
      modifies this`nextSeq
      ensures Repeats(log, sent, payload, round)
      ensures |log| + 1 <= |sent| <= |log| + 1 + AtLeastZero(maxRedirects) + used - retries
      ensures used == Transients(w.reply, |sent| - 1) <= MaxRetries()
      ensures RoundGoesOn(w, LimitsFor(b), |log|, |sent| - 1) && !Resends(w, LimitsFor(b), |sent| - 1)
      ensures o.Reinit? <==> reinitBudget > 0 && HasCode(w.reply(|sent| - 1), UNKNOWN_PRODUCER_ID)
      ensures o.Finished? ==> o.result == if IsGood(w.reply(|sent| - 1)) then Success(w.reply(|sent| - 1).value) else Failure
      ensures nextSeq == if o.Finished? && o.result.Success? && Sequenced()
                         then Noted(old(nextSeq), (b.topic, Landed(b, w.reply(|sent| - 1))), |b.messages|) else old(nextSeq)
    {
      var attempt := 1;
      used, sent := retries, log;
      while true
        invariant Repeats(log, sent, payload, round)
        invariant used == Transients(w.reply, |sent|) <= MaxRetries()
        invariant 1 <= attempt <= 1 + AtLeastZero(maxRedirects) && attempt - 1 == SinceReinit(w.reply, |sent|)
        invariant |sent| == |log| + attempt - 1 + used - retries
        invariant RoundGoesOn(w, LimitsFor(b), |log|, |sent|)
        invariant nextSeq == old(nextSeq)
        decreases AtLeastZero(maxRedirects) - attempt + MaxRetries() - used
      {
        var reply := w.reply(|sent|);
        sent := sent + [Sent(payload, round)];
        if reply.WrongType? { return Finished(Failure), used, sent; }
        if HasCode(reply, UNKNOWN_PRODUCER_ID) && reinitBudget > 0 { return Reinit, used, sent; }
        if HasCode(reply, NOT_LEADER) && attempt < 1 + maxRedirects && (reply.Answer? || b.partition >= 0) {
          var redirect := w.redirect(|sent| - 1);
          if redirect == Failed { return Finished(Failure), used, sent; }
          if redirect == Moved {
            attempt := attempt + 1;
            continue;
          }
        }
        if IsTransient(reply) && used < MaxRetries() {
          used := used + 1;
          continue;
        }
        if !(reply.Answer? && reply.answer == OK) { return Finished(Failure), used, sent; }
        if Sequenced() { nextSeq := Noted(nextSeq, (b.topic, Landed(b, reply)), |b.messages|); }
        return Finished(Success(reply.value)), used, sent;
      }
    }

    /** A round that began with `log` ended with `o` and `sent`. */
    ghost predicate Ran(w: World, b: Batch, log: seq<Sent>, round: nat, o: Round, used: nat, sent: seq<Sent>) {
      && |log| < |sent| && Settled(w, LimitsFor(b), sent)
      && WithCode(w.reply, UNKNOWN_PRODUCER_ID, |sent| - 1) == round
      && (o.Reinit? ==> round < ReinitBudget() && Between(w, LimitsFor(b), sent, round + 1, used))
      && (o.Finished? ==>
            && (HasCode(w.reply(|sent| - 1), UNKNOWN_PRODUCER_ID) ==> round == ReinitBudget())
            && o.result == if IsGood(w.reply(|sent| - 1)) then Success(w.reply(|sent| - 1).value) else Failure)
    }

    lemma FinishedRound(w: World, b: Batch, log: seq<Sent>, round: nat, o: Round, used: nat, sent: seq<Sent>)
      requires Ran(w, b, log, round, o, used, sent) && o.Finished? && round <= ReinitBudget()
      ensures !Reinits(w, LimitsFor(b), |sent| - 1) && (WasReset(w, LimitsFor(b), |sent|) <==> round > 0)
      ensures Settled(w, LimitsFor(b), sent) && sent != []
      ensures o.result == if IsGood(w.reply(|sent| - 1)) then Success(w.reply(|sent| - 1).value) else Failure
    {
    }

    /** Only a success advances a sequence. */
    function SeqsAfter(w: World, b: Batch, o: Round, sent: seq<Sent>, seqs: map<SeqKey, I32>): map<SeqKey, I32>
      requires sent != [] && (o.Finished? && o.result.Success? ==> IsGood(w.reply(|sent| - 1)))
    {
      if o.Finished? && o.result.Success? && Sequenced()
      then Noted(seqs, (b.topic, Landed(b, w.reply(|sent| - 1))), |b.messages|) else seqs
    }

    /** A round and what it does to the log. */
    method RunRound(w: World, b: Batch, payload: Bytes, log: seq<Sent>, round: nat, retries: nat) returns (o: Round, used: nat, sent: seq<Sent>)
      requires Between(w, LimitsFor(b), log, round, retries)
      modifies this`nextSeq
      ensures Repeats(log, sent, payload, round) && Ran(w, b, log, round, o, used, sent)
      ensures nextSeq == SeqsAfter(w, b, o, sent, old(nextSeq))
    {
      o, used, sent := SendRound(w, b, payload, log, round, ReinitBudget() - round, retries);
      RoundSettled(w, LimitsFor(b), log, round, retries, payload, sent, used);
      if o.Reinit? { NextBetween(w, LimitsFor(b), round, sent, used); }
    }

    /** Forgets the identity and every sequence. */
    method ResetProducerId()
      modifies this
      ensures Now() == FORGOTTEN
    {
      producerReady, producerId, producerEpoch, nextSeq := false, 0, 0, map[];
    }

    /** The identity a round begins with. */
    ghost predicate Begins(plan: Plan, b: Batch, round: nat)
      reads this
    {
      plan == PlanFor(b).(me := plan.me) && Now() == if round == 0 then plan.me else FORGOTTEN
    }

    /** Makes the payload of a round and runs the round, or makes none and sends nothing. */
    method NextRound(encode: ProduceRequest -> Result<Bytes>, w: World, b: Batch, ghost plan: Plan, log: seq<Sent>, round: nat, retries: nat)
      returns (o: Option<Round>, used: nat, sent: seq<Sent>)
      requires Between(w, LimitsFor(b), log, round, retries) && Carries(plan, encode, w, log) && Begins(plan, b, round)
      modifies this
      ensures Carries(plan, encode, w, sent)
      ensures o.None? <==> RoundPayload(plan, encode, w, round).Failure?
      ensures o.None? ==> sent == log && used == retries && nextSeq == old(nextSeq)
      ensures o.Some? ==> Ran(w, b, log, round, o.value, used, sent) && nextSeq == SeqsAfter(w, b, o.value, sent, old(nextSeq))
    {
      used, sent := retries, log;
      var payload := EncodeProduce(encode, b, w.init(round));
      assert payload == RoundPayload(plan, encode, w, round);
      if payload.Failure? { return None, used, sent; }
      var outcome;
      outcome, used, sent := RunRound(w, b, payload.value, log, round, retries);
      CarryRound(plan, encode, w, log, payload.value, round, sent);
      o := Some(outcome);
    }

    /** Runs rounds, re-initialising in between, until one makes no payload or finishes. */
    method RunRounds(encode: ProduceRequest -> Result<Bytes>, w: World, b: Batch)
      returns (o: Option<Round>, round: nat, ghost log: seq<Sent>, used: nat, sent: seq<Sent>)
      modifies this
      ensures round <= ReinitBudget() && (round > 0 ==> log != []) && Carries(old(PlanFor(b)), encode, w, sent)
      ensures o.None? <==> RoundPayload(old(PlanFor(b)), encode, w, round).Failure?
      ensures o.None? ==> Between(w, LimitsFor(b), sent, round, used) && sent == log
      ensures o.Some? ==> o.value.Finished? && Ran(w, b, log, round, o.value, used, sent)
      ensures nextSeq == var base := if round == 0 then old(nextSeq) else map[]; if o.None? then base else SeqsAfter(w, b, o.value, sent, base)
    {
      round, used, sent := 0, 0, [];
      ghost var plan := PlanFor(b);
      while true
        invariant Between(w, LimitsFor(b), sent, round, used) && Carries(plan, encode, w, sent) && (round > 0 ==> sent != [])
        invariant Begins(plan, b, round)
        decreases ReinitBudget() - round
      {
        log := sent;
        o, used, sent := NextRound(encode, w, b, plan, sent, round, used);
        if o.None? || o.value.Finished? { return; }
        ResetProducerId();
        round := round + 1;
      }
    }

    /**
     Sends `b` until the peer settles it. The log of sends shows the bound, the
     payload of every send, and that a reply ends the log exactly when the
     client can neither redirect, retry nor re-initialise.
     */
    method ProduceBatch(encode: ProduceRequest -> Result<Bytes>, w: World, b: Batch) returns (r: Result<U64>, sent: seq<Sent>)
      modifies this
      ensures Settled(w, LimitsFor(b), sent) && Carries(old(PlanFor(b)), encode, w, sent)
      ensures sent == [] <==> b.messages == [] || RoundPayload(old(PlanFor(b)), encode, w, 0).Failure?
      ensures sent != [] && Reinits(w, LimitsFor(b), |sent| - 1) ==>
                RoundPayload(old(PlanFor(b)), encode, w, WithCode(w.reply, UNKNOWN_PRODUCER_ID, |sent|)).Failure?
      ensures r.Success? <==> sent != [] && IsGood(w.reply(|sent| - 1))
      ensures r.Success? ==> r.value == w.reply(|sent| - 1).value
      ensures nextSeq == SequencesAfter(old(nextSeq), CallEvents(w, LimitsFor(b), b, |sent|, r.Success? && Sequenced()))
    {
      if b.messages == [] { return Failure, []; }
      ghost var log;
      var outcome, round, used;
      outcome, round, log, used, sent := RunRounds(encode, w, b);
      FirstPayload(old(PlanFor(b)), encode, w, sent);
      if outcome.None? {
        BetweenSettled(w, LimitsFor(b), sent, round, used);
        return Failure, sent;
      }
      FinishedRound(w, b, log, round, outcome.value, used, sent);
      r := outcome.value.result;
    }
  }

  /** The partition whose sequence a success advances: the one asked for, or the broker's choice. */
  function Landed(b: Batch, reply: Reply): I32
    requires reply.Answer?
  {
    if b.partition < 0 then ToI32(reply.partition) else Narrow(b.partition)
  }

  // ---------- sequence numbers over many batches ----------

  /** What happens to the counters: a re-initialisation forgets them, a good answer to a batch advances one. */
  datatype Event = Forget | Advance(batch: Batch, reply: Reply)

  ghost predicate Good(run: seq<Event>) { forall e <- run :: e.Advance? ==> e.reply.Answer? }

  function SequencesAfter(seqs: map<SeqKey, I32>, run: seq<Event>): map<SeqKey, I32>
    requires Good(run)
  {
    if run == [] then seqs
    else
      match run[|run| - 1]
      case Forget => map[]
      case Advance(b, reply) => Noted(SequencesAfter(seqs, run[..|run| - 1]), (b.topic, Landed(b, reply)), |b.messages|)
  }

  /** Messages that landed on a partition since the counters were last forgotten. */
  function Total(run: seq<Event>, key: SeqKey): nat
    requires Good(run)
  {
    if run == [] then 0
    else
      match run[|run| - 1]
      case Forget => 0
      case Advance(b, reply) => Total(run[..|run| - 1], key) + if (b.topic, Landed(b, reply)) == key then |b.messages| else 0
  }

  /** The counters a run counts from. */
  function CountedFrom(seqs: map<SeqKey, I32>, run: seq<Event>): map<SeqKey, I32> { if Forget in run then map[] else seqs }

  /** What a call that sent `n` times did to the counters. */
  function CallEvents(w: World, l: Limits, b: Batch, n: nat, advanced: bool): seq<Event>
    requires advanced ==> n > 0
  {
    (if WasReset(w, l, n) then [Forget] else []) + if advanced then [Advance(b, w.reply(n - 1))] else []
  }

  lemma {:induction false} RunsCompose(seqs: map<SeqKey, I32>, first: seq<Event>, second: seq<Event>)
    requires Good(first) && Good(second)
    ensures SequencesAfter(seqs, first + second) == SequencesAfter(SequencesAfter(seqs, first), second)
  {
    if second == [] {
      assert first + second == first;
    } else {
      var n := |second| - 1;
      RunsCompose(seqs, first, second[..n]);
      var both := first + second;
      assert both[..|both| - 1] == first + second[..n] && both[|both| - 1] == second[n];
    }
  }

  lemma AddTwice(a: I32, n: nat, m: nat)
    ensures AddI32(AddI32(a, n), m) == AddI32(a, n + m)
  {
    var u := (OfI32(a) + n) % 0x1_0000_0000;
    assert OfI32(ToI32(u)) == u;
    assert (u + m) % 0x1_0000_0000 == (OfI32(a) + n + m) % 0x1_0000_0000;
  }

  lemma AddNothing(a: I32, n: nat)
    ensures AddI32(a, n) == a <==> n % 0x1_0000_0000 == 0
  {
    assert ToI32(OfI32(a)) == a;
    assert OfI32(AddI32(a, n)) == (OfI32(a) + n) % 0x1_0000_0000;
  }

  /**
   A partition's next sequence is the first one, or 0 after a
   re-initialisation, plus every message that landed there since, modulo 2^32.
   */
  lemma {:induction false} SequenceCountsLanded(seqs: map<SeqKey, I32>, run: seq<Event>, key: SeqKey)
    requires Good(run)
    ensures NextSeq(SequencesAfter(seqs, run), key) == AddI32(NextSeq(CountedFrom(seqs, run), key), Total(run, key))
  {
    var base := NextSeq(CountedFrom(seqs, run), key);
    if run == [] || run[|run| - 1].Forget? {
      AddNothing(base, 0);
    } else {
      var before, e := run[..|run| - 1], run[|run| - 1];
      SequenceCountsLanded(seqs, before, key);
      assert run == before + [e];
      var hits := (e.batch.topic, Landed(e.batch, e.reply)) == key;
      AddOne(base, NextSeq(SequencesAfter(seqs, before), key), Total(before, key), |e.batch.messages|, hits);
    }
  }

  lemma AddOne(base: I32, now: I32, total: nat, more: nat, hits: bool)
    requires now == AddI32(base, total)
    ensures (if hits then AddI32(now, more) else now) == AddI32(base, total + if hits then more else 0)
  {
    AddTwice(base, total, more);
  }

  /** No partition, asked for or answered, reaches 2^31. */
  ghost predicate SmallPartitions(run: seq<Event>) {
    forall e <- run :: e.Advance? ==> e.batch.partition < 0x8000_0000 && e.reply.Answer? && e.reply.partition < 0x8000_0000
  }

  lemma {:induction false} NegativeUntouched(run: seq<Event>, key: SeqKey)
    requires Good(run) && SmallPartitions(run) && key.1 < 0
    ensures Total(run, key) == 0
  {
    if run != [] { NegativeUntouched(run[..|run| - 1], key); }
  }

  /** A counter stands still exactly when, modulo 2^32, no message lands on it. */
  lemma StandsStillIff(seqs: map<SeqKey, I32>, run: seq<Event>, key: SeqKey)
    requires Good(run)
    ensures NextSeq(SequencesAfter(seqs, run), key) == NextSeq(CountedFrom(seqs, run), key) <==> Total(run, key) % 0x1_0000_0000 == 0
  {
    SequenceCountsLanded(seqs, run, key);
    AddNothing(NextSeq(CountedFrom(seqs, run), key), Total(run, key));
  }

  /**
   A batch that leaves the partition to the broker draws its base sequence from
   the counter of a negative partition. All such batches carry the same base
   sequence exactly when no message is counted there, modulo 2^32; and none is
   as long as no partition reaches 2^31.
   */
  lemma UnnamedPartitionStandsStill(seqs: map<SeqKey, I32>, run: seq<Event>, topic: Bytes, partition: I32)
    requires Good(run) && partition < 0
    ensures NextSeq(SequencesAfter(seqs, run), (topic, partition)) == NextSeq(CountedFrom(seqs, run), (topic, partition)) <==>
            Total(run, (topic, partition)) % 0x1_0000_0000 == 0
    ensures SmallPartitions(run) ==> Total(run, (topic, partition)) == 0
  {
    if SmallPartitions(run) { NegativeUntouched(run, (topic, partition)); }
    StandsStillIff(seqs, run, (topic, partition));
  }

  /**
   After a success, the next batch to the same topic and partition argument
   continues where this one ended if and only if the messages were counted
   under that argument, or there were a multiple of 2^32 of them. A named
   partition is always counted under itself.
   */
  lemma NextBatchContinuesIff(seqs: map<SeqKey, I32>, b: Batch, reply: Reply)
    requires reply.Answer?
    ensures var key, now := (b.topic, Narrow(b.partition)), Noted(seqs, (b.topic, Landed(b, reply)), |b.messages|);
            NextSeq(now, key) == AddI32(NextSeq(seqs, key), |b.messages|) <==>
            Landed(b, reply) == Narrow(b.partition) || |b.messages| % 0x1_0000_0000 == 0
    ensures b.partition >= 0 ==> Landed(b, reply) == Narrow(b.partition)
  {
    AddNothing(NextSeq(seqs, (b.topic, Narrow(b.partition))), |b.messages|);
  }

  /** Both are the same number modulo 2^32. */
  lemma NarrowIsModular(x: I64)
    ensures (Narrow(x) - x) % 0x1_0000_0000 == 0
  { }

  lemma AddIsModular(a: I32, n: nat)
    ensures (AddI32(a, n) - (a + n)) % 0x1_0000_0000 == 0
  { }

  /** A success counts under the partition asked for or, if that was negative, under the one the broker answered; no other counter moves. */
  lemma CountedUnder(seqs: map<SeqKey, I32>, b: Batch, reply: Reply, key: SeqKey)
    requires reply.Answer?
    ensures var partition := if b.partition < 0 then reply.partition else b.partition;
            NextSeq(SequencesAfter(seqs, [Advance(b, reply)]), key) ==
            if key.0 == b.topic && (key.1 - partition) % 0x1_0000_0000 == 0
            then AddI32(NextSeq(seqs, key), |b.messages|) else NextSeq(seqs, key)
  {
    NarrowIsModular(b.partition);
    assert [Advance(b, reply)][..0] == [];
    assert SequencesAfter(seqs, [Advance(b, reply)]) == Noted(seqs, (b.topic, Landed(b, reply)), |b.messages|);
  }

  // ---------- what the budgets buy ----------

  /** Failures in passing are ridden out exactly as long as the retry budget lasts. */
  lemma ProduceRidesOutIff(w: World, l: Limits, sent: seq<Sent>, n: nat)
    requires Settled(w, l, sent) && sent != [] && FailsFor(w, n) && Succeeds(w.reply(n))
    ensures IsGood(w.reply(|sent| - 1)) <==> n <= l.maxRetries
    ensures |sent| == 1 + if n <= l.maxRetries then n else l.maxRetries
  {
    forall i: nat | i < n ensures Resends(w, l, i) <==> i < l.maxRetries {
      CountedFailures(w, n, i);
      assert Passing(w.reply(i));
    }
    var last: nat := if n <= l.maxRetries then n else l.maxRetries;
    assert !Resends(w, l, last) && !Reinits(w, l, last) by { if last < n { assert Passing(w.reply(last)); } }
    assert !(last < |sent| - 1);
  }

  /** A peer that does not know the producer makes the client start over, if it may and can: the second send is of the next round. */
  lemma UnknownProducerStartsOver(p: Plan, encode: ProduceRequest -> Result<Bytes>, w: World, l: Limits, sent: seq<Sent>)
    requires Settled(w, l, sent) && sent != [] && Carries(p, encode, w, sent)
    requires Reinits(w, l, |sent| - 1) ==> RoundPayload(p, encode, w, WithCode(w.reply, UNKNOWN_PRODUCER_ID, |sent|)).Failure?
    requires HasCode(w.reply(0), 21) && l.reinits > 0 && RoundPayload(p, encode, w, 1).Success?
    ensures |sent| > 1 && sent[1].round == 1 && RoundPayload(p, encode, w, 1) == Success(sent[1].payload)
  {
    assert WithCode(w.reply, UNKNOWN_PRODUCER_ID, 0) == 0 && WithCode(w.reply, UNKNOWN_PRODUCER_ID, 1) == 1;
    if |sent| > 1 { assert sent[1] in sent; }
  }

  /** Redirects to the leader are followed exactly as long as the redirect budget lasts, when they come as answers or the partition is named. */
  lemma ProduceFollowsIff(w: World, l: Limits, sent: seq<Sent>, n: nat)
    requires Settled(w, l, sent) && sent != [] && SendsOn(w, 13, n) && Succeeds(w.reply(n))
    requires l.partition >= 0 || forall i: nat :: i < n ==> w.reply(i).Answer?
    ensures IsGood(w.reply(|sent| - 1)) <==> n <= AtLeastZero(l.maxRedirects)
    ensures |sent| == 1 + if n <= AtLeastZero(l.maxRedirects) then n else AtLeastZero(l.maxRedirects)
  {
    forall i: nat | i < n ensures Resends(w, l, i) <==> i < l.maxRedirects {
      RedirectsCounted(w, n, i);
      assert HasCode(w.reply(i), 13) && w.redirect(i) == Moved;
    }
    var last: nat := if n <= AtLeastZero(l.maxRedirects) then n else AtLeastZero(l.maxRedirects);
    assert !Resends(w, l, last) && !Reinits(w, l, last) by { if last < n { assert HasCode(w.reply(last), 13); } }
    assert !(last < |sent| - 1);
  }

  lemma {:induction false} RedirectsCounted(w: World, n: nat, k: nat)
    requires SendsOn(w, 13, n) && k <= n
    ensures SinceReinit(w.reply, k) == k
  {
    if k > 0 {
      RedirectsCounted(w, n, k - 1);
      assert HasCode(w.reply(k - 1), 13);
    }
  }

  /** Without a partition to look up, a redirect that comes as an error ends the call. */
  lemma UnnamedNotRedirected(w: World, l: Limits, sent: seq<Sent>)
    requires Settled(w, l, sent) && sent != [] && l.partition < 0 && w.reply(0) == BrokerError(13)
    ensures |sent| == 1
  {
    assert !Resends(w, l, 0) && !Reinits(w, l, 0);
  }

  /** The initialisation waits out failures in passing as long as its retry budget lasts. */
  lemma {:induction false} FinalReplyIs(reply: nat -> Reply, maxRetries: nat, k: nat, n: nat)
    requires k <= maxRetries && k <= n && (forall i: nat :: i < n ==> Passing(reply(i))) && !Passing(reply(n))
    ensures FinalReply(reply, maxRetries, k) == reply(if n <= maxRetries then n else maxRetries)
    decreases maxRetries - k
  {
    PassingIsTransient(reply(k));
    if k < n && k < maxRetries { FinalReplyIs(reply, maxRetries, k + 1, n); }
  }
}

/**
 The client's retry, redirect and re-initialisation loops against a peer that
 may answer anything at all: what the peer answers to the n-th send, and what
 comes of the n-th redirect, are functions of n.
 */
module Retry {
  import opened Arithmetic
  import opened Options
  import opened Format
  import opened PayloadWriter

  const OK: nat := 0
  const IO_ERROR: nat := 6
  const TIMEOUT: nat := 7
  const NOT_LEADER: nat := 13
  const NOT_CONTROLLER: nat := 14
  const NOT_ENOUGH_REPLICAS: nat := 15
  const BROKER_NOT_AVAILABLE: nat := 16
  const UNKNOWN_PRODUCER_ID: nat := 21

  /** What one round trip comes to. */
  datatype Reply =
    | BrokerError(code: nat)
    | NetworkError
    | OtherError
    | WrongType
    | Answer(answer: nat, partition: U32, value: U64, epoch: U16)

  datatype Redirect = Moved | Stayed | Failed

  /** Answers to the sends, outcomes of redirects by send, and answers to the tries of the n-th initialisation. */
  datatype World = World(reply: nat -> Reply, redirect: nat -> Redirect, init: nat -> (nat -> Reply))

  predicate IsTransientBroker(code: nat) { code in {IO_ERROR, TIMEOUT, NOT_ENOUGH_REPLICAS, BROKER_NOT_AVAILABLE} }

  /** The error code of a reply, whether it came as an error or inside an answer. */
  function Code(r: Reply): Option<nat> {
    match r
    case BrokerError(c) => Some(c)
    case Answer(c, _, _, _) => Some(c)
    case _ => None
  }

  predicate HasCode(r: Reply, code: nat) { Code(r) == Some(code) }

  predicate IsTransient(r: Reply) { r.NetworkError? || (Code(r).Some? && IsTransientBroker(Code(r).value)) }

  predicate IsGood(r: Reply) { r.Answer? && r.answer == OK }

  function AtLeastZero(x: int): nat { if x < 0 then 0 else x }

  // ---------- counting what the peer did ----------

  function Transients(reply: nat -> Reply, n: nat): nat {
    if n == 0 then 0 else Transients(reply, n - 1) + if IsTransient(reply(n - 1)) then 1 else 0
  }

  function WithCode(reply: nat -> Reply, code: nat, n: nat): nat {
    if n == 0 then 0 else WithCode(reply, code, n - 1) + if HasCode(reply(n - 1), code) then 1 else 0
  }

  // ---------- admin ----------

  /** The loop may not stop at `last`: a retry or a redirect is still to be had. */
  predicate AdminGoesOn(w: World, last: nat, maxRedirects: int, maxRetries: nat) {
    || (HasCode(w.reply(last), NOT_CONTROLLER) && w.redirect(last) == Moved && WithCode(w.reply, NOT_CONTROLLER, last) < maxRedirects)
    || (IsTransient(w.reply(last)) && Transients(w.reply, last) < maxRetries)
  }

  /** The loop went on at every reply but the last of `sends`, and ends with `r`. */
  ghost predicate AdminEnds(w: World, maxRedirects: int, maxRetries: nat, r: Result<Reply>, sends: nat) {
    && sends > 0 && (forall i: nat :: i < sends - 1 ==> AdminGoesOn(w, i, maxRedirects, maxRetries))
    && !AdminGoesOn(w, sends - 1, maxRedirects, maxRetries)
    && r == if IsGood(w.reply(sends - 1)) then Success(w.reply(sends - 1)) else Failure
  }

  /** A controller-gated call stops at the first reply it cannot act on; redirects and transient retries add up. */
  method AdminRoundTrip(w: World, maxRedirects: int, maxRetriesSetting: int) returns (r: Result<Reply>, sends: nat)
    ensures 1 <= sends <= 1 + AtLeastZero(maxRedirects) + AtLeastZero(maxRetriesSetting)
    ensures AdminEnds(w, maxRedirects, AtLeastZero(maxRetriesSetting), r, sends)
  {
    var maxRetries := AtLeastZero(maxRetriesSetting);
    var maxAttempts, retryAttempt, attempt := 1 + maxRedirects, 0, 1;
    sends := 0;
    while true
      invariant 0 <= retryAttempt <= maxRetries && 1 <= attempt <= 1 + AtLeastZero(maxRedirects)
      invariant attempt - 1 == WithCode(w.reply, NOT_CONTROLLER, sends) && retryAttempt == Transients(w.reply, sends)
      invariant sends == attempt - 1 + retryAttempt
      invariant forall i: nat :: i < sends ==> AdminGoesOn(w, i, maxRedirects, maxRetries)
      decreases AtLeastZero(maxRedirects) - attempt + maxRetries - retryAttempt
    {
      var reply := w.reply(sends);
      sends := sends + 1;
      if reply.WrongType? { return Failure, sends; }
      if HasCode(reply, NOT_CONTROLLER) && attempt < maxAttempts {
        var redirect := w.redirect(sends - 1);
        if redirect == Failed { return Failure, sends; }
        if redirect == Moved {
          attempt := attempt + 1;
          continue;
        }
      }
      if IsTransient(reply) && retryAttempt < maxRetries {
        retryAttempt := retryAttempt + 1;
        continue;
      }
      return if reply.Answer? && reply.answer == OK then Success(reply) else Failure, sends;
    }
  }

  // ---------- fetch ----------

  /** Redirects followed since the last transient failure. */
  function SinceTransient(reply: nat -> Reply, n: nat): nat {
    if n == 0 || IsTransient(reply(n - 1)) then 0 else SinceTransient(reply, n - 1) + 1
  }

  predicate FetchRedirects(w: World, last: nat, maxRedirects: int) {
    HasCode(w.reply(last), NOT_LEADER) && w.redirect(last) == Moved && SinceTransient(w.reply, last) < maxRedirects
  }

  predicate FetchGoesOn(w: World, last: nat, maxRedirects: int, maxRetries: nat) {
    FetchRedirects(w, last, maxRedirects) || (IsTransient(w.reply(last)) && Transients(w.reply, last) < maxRetries)
  }

  lemma {:induction false} TransientsStay(w: World, maxRedirects: int, start: nat, n: nat)
    requires start <= n && forall i: nat :: start <= i < n ==> FetchRedirects(w, i, maxRedirects)
    ensures Transients(w.reply, n) == Transients(w.reply, start)
  {
    if start < n {
      TransientsStay(w, maxRedirects, start, n - 1);
      assert FetchRedirects(w, n - 1, maxRedirects);
    }
  }

  datatype Turn = Done(result: Result<Reply>) | Again

  /** One pass of the inner fetch loop: it follows redirects and stops at anything else. */
  method FetchTurn(w: World, maxRedirects: int, mayRetry: bool, start: nat) returns (t: Turn, sends: nat)
    requires SinceTransient(w.reply, start) == 0
    ensures start + 1 <= sends <= start + 1 + AtLeastZero(maxRedirects)
    ensures forall i: nat :: start <= i < sends - 1 ==> FetchRedirects(w, i, maxRedirects)
    ensures !FetchRedirects(w, sends - 1, maxRedirects)
    ensures t.Again? <==> mayRetry && IsTransient(w.reply(sends - 1))
    ensures t.Done? ==> t.result == if IsGood(w.reply(sends - 1)) then Success(w.reply(sends - 1)) else Failure
  {
    var attempt := 1;
    sends := start;
    while true
      invariant 1 <= attempt <= 1 + AtLeastZero(maxRedirects) && sends == start + attempt - 1
      invariant attempt - 1 == SinceTransient(w.reply, sends)
      invariant forall i: nat :: start <= i < sends ==> FetchRedirects(w, i, maxRedirects)
      decreases AtLeastZero(maxRedirects) - attempt
    {
      var reply := w.reply(sends);
      sends := sends + 1;
      if reply.WrongType? { return Done(Failure), sends; }
      if HasCode(reply, NOT_LEADER) && attempt < 1 + maxRedirects {
        var redirect := w.redirect(sends - 1);
        if redirect == Failed { return Done(Failure), sends; }
        if redirect == Moved {
          attempt := attempt + 1;
          continue;
        }
      }
      if IsTransient(reply) && mayRetry { return Again, sends; }
      return Done(if reply.Answer? && reply.answer == OK then Success(reply) else Failure), sends;
    }
  }

  lemma OneMore(k: nat, per: nat)
    ensures (k + 1) * per == k * per + per
  {
  }

  ghost predicate FetchEnds(w: World, maxRedirects: int, maxRetries: nat, r: Result<Reply>, sends: nat) {
    && sends > 0 && (forall i: nat :: i < sends - 1 ==> FetchGoesOn(w, i, maxRedirects, maxRetries))
    && !FetchGoesOn(w, sends - 1, maxRedirects, maxRetries)
    && r == if IsGood(w.reply(sends - 1)) then Success(w.reply(sends - 1)) else Failure
  }

  /** Every transient retry starts the redirect budget over, so the two budgets multiply. */
  method FetchResult(w: World, maxRedirects: int, maxRetriesSetting: int) returns (r: Result<Reply>, sends: nat)
    ensures 1 <= sends <= (1 + AtLeastZero(maxRetriesSetting)) * (1 + AtLeastZero(maxRedirects))
    ensures FetchEnds(w, maxRedirects, AtLeastZero(maxRetriesSetting), r, sends)
  {
    var maxRetries := AtLeastZero(maxRetriesSetting);
    ghost var per: nat := 1 + AtLeastZero(maxRedirects);
    var retryAttempt: nat := 0;
    sends := 0;
    while true
      invariant retryAttempt <= maxRetries && sends <= retryAttempt * per
      invariant retryAttempt == Transients(w.reply, sends) && SinceTransient(w.reply, sends) == 0
      invariant forall i: nat :: i < sends ==> FetchGoesOn(w, i, maxRedirects, maxRetries)
      decreases maxRetries - retryAttempt
    {
      ghost var start := sends;
      var turn;
      turn, sends := FetchTurn(w, maxRedirects, retryAttempt < maxRetries, sends);
      TransientsStay(w, maxRedirects, start, sends - 1);
      OneMore(retryAttempt, per);
      if turn.Done? {
        MultiplyMonotone(retryAttempt + 1, maxRetries + 1, per);
        return turn.result, sends;
      }
      retryAttempt := retryAttempt + 1;
    }
  }

  // ---------- what the budgets buy ----------

  /** A reply that passes: the network failed, or the peer reported I/O, a timeout, missing replicas or an unavailable broker. */
  predicate Passing(r: Reply) {
    match r
    case NetworkError => true
    case BrokerError(c) => c == 6 || c == 7 || c == 15 || c == 16
    case Answer(c, _, _, _) => c == 6 || c == 7 || c == 15 || c == 16
    case _ => false
  }

  lemma PassingIsTransient(r: Reply)
    ensures IsTransient(r) <==> Passing(r)
  { }

  /** The peer fails in passing for the first `n` sends. */
  ghost predicate FailsFor(w: World, n: nat) { forall i: nat :: i < n ==> Passing(w.reply(i)) }

  /** The peer sends the client on for the first `n` sends, and the client gets there. */
  ghost predicate SendsOn(w: World, code: nat, n: nat) { forall i: nat :: i < n ==> HasCode(w.reply(i), code) && w.redirect(i) == Moved }

  predicate Succeeds(r: Reply) { r.Answer? && r.answer == 0 }

  lemma {:induction false} CountedFailures(w: World, n: nat, k: nat)
    requires FailsFor(w, n) && k <= n
    ensures Transients(w.reply, k) == k && SinceTransient(w.reply, k) == 0
  {
    if k > 0 { CountedFailures(w, n, k - 1); }
  }

  lemma {:induction false} CountedRedirects(w: World, code: nat, n: nat, k: nat)
    requires SendsOn(w, code, n) && k <= n && (code == 13 || code == 14)
    ensures WithCode(w.reply, code, k) == k && Transients(w.reply, k) == 0 && SinceTransient(w.reply, k) == k
  {
    if k > 0 {
      CountedRedirects(w, code, n, k - 1);
      assert HasCode(w.reply(k - 1), code);
    }
  }

  /** Failures in passing are ridden out exactly as long as the retry budget lasts. */
  lemma AdminRidesOutIff(w: World, maxRedirects: int, maxRetries: nat, r: Result<Reply>, sends: nat, n: nat)
    requires AdminEnds(w, maxRedirects, maxRetries, r, sends) && FailsFor(w, n) && Succeeds(w.reply(n))
    ensures r == Success(w.reply(n)) <==> n <= maxRetries
    ensures sends == 1 + if n <= maxRetries then n else maxRetries
  {
    forall i: nat | i < n ensures AdminGoesOn(w, i, maxRedirects, maxRetries) <==> i < maxRetries {
      CountedFailures(w, n, i);
      assert Passing(w.reply(i));
    }
    var last: nat := if n <= maxRetries then n else maxRetries;
    assert !AdminGoesOn(w, last, maxRedirects, maxRetries);
    assert !(last < sends - 1);
  }

  /** Redirects to the controller are followed exactly as long as the redirect budget lasts. */
  lemma AdminFollowsIff(w: World, maxRedirects: int, maxRetries: nat, r: Result<Reply>, sends: nat, n: nat)
    requires AdminEnds(w, maxRedirects, maxRetries, r, sends) && SendsOn(w, 14, n) && Succeeds(w.reply(n))
    ensures r == Success(w.reply(n)) <==> n <= AtLeastZero(maxRedirects)
    ensures sends == 1 + if n <= AtLeastZero(maxRedirects) then n else AtLeastZero(maxRedirects)
  {
    forall i: nat | i < n ensures AdminGoesOn(w, i, maxRedirects, maxRetries) <==> i < maxRedirects {
      CountedRedirects(w, 14, n, i);
      assert HasCode(w.reply(i), 14) && w.redirect(i) == Moved;
    }
    var last: nat := if n <= AtLeastZero(maxRedirects) then n else AtLeastZero(maxRedirects);
    assert !AdminGoesOn(w, last, maxRedirects, maxRetries);
    assert !(last < sends - 1);
  }

  lemma FetchRidesOutIff(w: World, maxRedirects: int, maxRetries: nat, r: Result<Reply>, sends: nat, n: nat)
    requires FetchEnds(w, maxRedirects, maxRetries, r, sends) && FailsFor(w, n) && Succeeds(w.reply(n))
    ensures r == Success(w.reply(n)) <==> n <= maxRetries
    ensures sends == 1 + if n <= maxRetries then n else maxRetries
  {
    forall i: nat | i < n ensures FetchGoesOn(w, i, maxRedirects, maxRetries) <==> i < maxRetries {
      CountedFailures(w, n, i);
      assert Passing(w.reply(i));
    }
    var last: nat := if n <= maxRetries then n else maxRetries;
    assert !FetchGoesOn(w, last, maxRedirects, maxRetries);
    assert !(last < sends - 1);
  }

  /** Redirects to the leader are followed exactly as long as the redirect budget lasts. */
  lemma FetchFollowsIff(w: World, maxRedirects: int, maxRetries: nat, r: Result<Reply>, sends: nat, n: nat)
    requires FetchEnds(w, maxRedirects, maxRetries, r, sends) && SendsOn(w, 13, n) && Succeeds(w.reply(n))
    ensures r == Success(w.reply(n)) <==> n <= AtLeastZero(maxRedirects)
    ensures sends == 1 + if n <= AtLeastZero(maxRedirects) then n else AtLeastZero(maxRedirects)
  {
    forall i: nat | i < n ensures FetchGoesOn(w, i, maxRedirects, maxRetries) <==> i < maxRedirects {
      CountedRedirects(w, 13, n, i);
      assert HasCode(w.reply(i), 13) && w.redirect(i) == Moved;
    }
    var last: nat := if n <= AtLeastZero(maxRedirects) then n else AtLeastZero(maxRedirects);
    assert !FetchGoesOn(w, last, maxRedirects, maxRetries);
    assert !(last < sends - 1);
  }
}

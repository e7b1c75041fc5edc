/** The retrying decorator of the inventory client: `RetryRoundTripper` forwards a request to
    the transport it wraps up to `maxRetries` times, with an exponential backoff sleep after
    each failed attempt, and hands back the last exchange unchanged.

    The loop is specified by `RetryTrace`, a reference definition of what one call does
    (round trips made, delays slept, result). The lemmas below state its properties; the
    methods of the class are proved to do exactly what it says. */
module InventoryClient {
  import opened Wrappers
  import opened Http
  import opened Runtime
  import opened ExponentialBackoff

  /** The test of an attempt's outcome: success is no error and a 2xx status. The status is
      read only once the error is known to be nil, and then the reply holds a response. */
  predicate Succeeds(x: Reply): (ok: bool)
    ensures ok ==> x.err.None? && x.res.Some?
    ensures x.err.Some? ==> !ok
    ensures x.res.Some? ==> (ok <==> x.err.None? && 200 <= x.res.value.statusCode < 300)
  {
    x.err.None? && 200 <= x.res.value.statusCode < 300
  }

  /** What one call of the retry loop did: the round trips it made, the delay taken from the
      backoff (and slept) after each failed attempt, in order, and the pair it returned. */
  datatype Trace = Trace(calls: nat, delays: seq<nat>, result: Exchange)

  /** The replies of `respond` to `req`, renumbered from the transport's `first`-th call. */
  function Replies(respond: (Request, nat) -> Reply, req: Request, first: nat): (reply: nat -> Reply) {
    k => respond(req, first + k)
  }

  /** Attempts `i` to `maxRetries`, once attempts 1 to i-1 have all failed, `last` is the pair
      the latest one returned and `slept` the delays slept after them. Attempt `i` gets
      `reply(i - 1)`; when it fails, it takes the backoff's delay number `a0 + i - 1`, `a0`
      being the backoff's attempt count at the start. */
  function AttemptsFrom(maxRetries: nat, min: nat, max: nat, a0: nat, reply: nat -> Reply,
                        i: nat, last: Exchange, slept: seq<nat>): (t: Trace)
    requires 1 <= i
    decreases maxRetries + 1 - i
    ensures i - 1 <= t.calls
    ensures t.calls <= maxRetries || t.calls == i - 1
  {
    if i > maxRetries then Trace(i - 1, slept, last)
    else
      var x := reply(i - 1);
      if Succeeds(x) then Trace(i, slept, x)
      else AttemptsFrom(maxRetries, min, max, a0, reply, i + 1, x, slept + [ForAttempt(min, max, a0 + i - 1)])
  }

  /** The whole loop, started with the named results at their zero values. */
  function RetryTrace(maxRetries: nat, min: nat, max: nat, a0: nat, reply: nat -> Reply): (t: Trace)
    ensures t.calls <= maxRetries
  {
    AttemptsFrom(maxRetries, min, max, a0, reply, 1, NoExchange, [])
  }

  /** The status the warning reports: the response's status code when there is a response. */
  function StatusOf(res: Option<Response>): (status: Option<int>)
    ensures status.Some? <==> res.Some?
    ensures res.Some? ==> status.value == res.value.statusCode
  {
    match res
    case Some(r) => Some(r.statusCode)
    case None => None
  }

  /** The warnings logged for the failed attempts 1 to |delays|. */
  function WarningsFor(req: Request, reply: nat -> Reply, delays: seq<nat>): (ws: seq<Warning>)
    ensures |ws| == |delays|
  {
    seq(|delays|, j requires 0 <= j < |delays| =>
      Warning(req.verb, req.url, StatusOf(reply(j).res), j + 1, delays[j], reply(j).err))
  }

  /** The j-th warning is about attempt j+1: it carries that attempt's error, the delay slept
      after it, and a status exactly when the attempt returned a response. */
  lemma WarningsForEntries(req: Request, reply: nat -> Reply, delays: seq<nat>, j: nat)
    requires j < |delays|
    ensures var w := WarningsFor(req, reply, delays)[j];
      w.verb == req.verb && w.url == req.url && w.attempt == j + 1 && w.retryIn == delays[j]
      && w.failure == reply(j).err && (w.status.Some? <==> reply(j).res.Some?)
      && (reply(j).res.Some? ==> w.status.value == reply(j).res.value.statusCode)
  {
  }

  /** `n` copies of the request: what the transport receives over `n` attempts. */
  function Repeat(req: Request, n: nat): (reqs: seq<Request>) {
    seq(n, _ => req)
  }

  lemma RepeatAppend(req: Request, n: nat)
    ensures Repeat(req, n) + [req] == Repeat(req, n + 1)
  {
  }

  /** One more failed attempt adds its warning at the end. */
  lemma WarningsForAppend(req: Request, reply: nat -> Reply, delays: seq<nat>, d: nat)
    ensures WarningsFor(req, reply, delays + [d]) == WarningsFor(req, reply, delays)
      + [Warning(req.verb, req.url, StatusOf(reply(|delays|).res), |delays| + 1, d, reply(|delays|).err)]
  {
  }

  lemma AppendAssoc<T>(a: seq<T>, b: seq<T>, c: seq<T>)
    ensures (a + b) + c == a + (b + c)
  {
  }

  // ---------------------------------------------------------------------------------------
  // Properties of one call

  /** The round trips made by attempts `i` onwards and the pair they return. */
  lemma {:induction false} AttemptsFromCalls(maxRetries: nat, min: nat, max: nat, a0: nat,
                                             reply: nat -> Reply, i: nat, last: Exchange, slept: seq<nat>)
    requires 1 <= i <= maxRetries + 1
    decreases maxRetries + 1 - i
    ensures var t := AttemptsFrom(maxRetries, min, max, a0, reply, i, last, slept);
      && i - 1 <= t.calls <= maxRetries
      && (t.calls == i - 1 ==> i == maxRetries + 1 && t.result == last)
      && (t.calls >= i ==> t.result == reply(t.calls - 1))
      && (forall k :: i - 1 <= k < t.calls - 1 ==> !Succeeds(reply(k)))
      && (t.calls < maxRetries ==> t.calls >= i && Succeeds(reply(t.calls - 1)))
  {
    if i <= maxRetries && !Succeeds(reply(i - 1)) {
      var d := ForAttempt(min, max, a0 + i - 1);
      AttemptsFromCalls(maxRetries, min, max, a0, reply, i + 1, reply(i - 1), slept + [d]);
    }
  }

  /** The delays taken by attempts `i` onwards: one for each failed attempt, following the
      backoff's schedule, after those already slept. */
  lemma {:induction false} AttemptsFromDelays(maxRetries: nat, min: nat, max: nat, a0: nat,
                                              reply: nat -> Reply, i: nat, last: Exchange, slept: seq<nat>)
    requires 1 <= i <= maxRetries + 1
    decreases maxRetries + 1 - i
    ensures var t := AttemptsFrom(maxRetries, min, max, a0, reply, i, last, slept);
      && |slept| <= |t.delays|
      && |t.delays| == |slept| + t.calls - (i - 1)
                       - (if t.calls >= i && Succeeds(reply(t.calls - 1)) then 1 else 0)
      && t.delays[..|slept|] == slept
      && (forall j :: |slept| <= j < |t.delays| ==>
            t.delays[j] == ForAttempt(min, max, a0 + i - 1 + j - |slept|))
  {
    if i <= maxRetries && !Succeeds(reply(i - 1)) {
      var d := ForAttempt(min, max, a0 + i - 1);
      AttemptsFromDelays(maxRetries, min, max, a0, reply, i + 1, reply(i - 1), slept + [d]);
      var t := AttemptsFrom(maxRetries, min, max, a0, reply, i + 1, reply(i - 1), slept + [d]);
      assert t.delays[..|slept|] == t.delays[..|slept| + 1][..|slept|];
    }
  }

  /** The facts about the whole loop from which its properties follow. */
  lemma RetryTraceFacts(maxRetries: nat, min: nat, max: nat, a0: nat, reply: nat -> Reply)
    ensures var t := RetryTrace(maxRetries, min, max, a0, reply);
      && t.calls <= maxRetries
      && (t.calls == 0 ==> maxRetries == 0 && t.result == NoExchange)
      && (t.calls >= 1 ==> t.result == reply(t.calls - 1))
      && (forall k :: 0 <= k < t.calls - 1 ==> !Succeeds(reply(k)))
      && (t.calls < maxRetries ==> t.calls >= 1 && Succeeds(reply(t.calls - 1)))
      && |t.delays| == t.calls - (if t.calls >= 1 && Succeeds(reply(t.calls - 1)) then 1 else 0)
      && (forall j :: 0 <= j < |t.delays| ==> t.delays[j] == ForAttempt(min, max, a0 + j))
  {
    AttemptsFromCalls(maxRetries, min, max, a0, reply, 1, NoExchange, []);
    AttemptsFromDelays(maxRetries, min, max, a0, reply, 1, NoExchange, []);
  }

  /** At most `maxRetries` round trips are made, and none at all exactly when it is 0. */
  lemma CallsBounded(maxRetries: nat, min: nat, max: nat, a0: nat, reply: nat -> Reply)
    ensures var t := RetryTrace(maxRetries, min, max, a0, reply);
      t.calls <= maxRetries && (t.calls == 0 <==> maxRetries == 0)
  {
    RetryTraceFacts(maxRetries, min, max, a0, reply);
  }

  /** With no attempts allowed, nothing is called, nothing is slept, and the zero values
      `(nil, nil)` come back: no error is made up for the empty loop. */
  lemma ZeroRetries(min: nat, max: nat, a0: nat, reply: nat -> Reply)
    ensures RetryTrace(0, min, max, a0, reply) == Trace(0, [], NoExchange)
  {
  }

  /** The pair returned is the last reply received, unchanged: a final non-2xx response comes
      back with no error. The loop stops early only on a success. */
  lemma ResultIsLastReply(maxRetries: nat, min: nat, max: nat, a0: nat, reply: nat -> Reply)
    requires maxRetries > 0
    ensures var t := RetryTrace(maxRetries, min, max, a0, reply);
      && 1 <= t.calls
      && t.result == reply(t.calls - 1)
      && (t.calls < maxRetries ==> Succeeds(reply(t.calls - 1)))
  {
    RetryTraceFacts(maxRetries, min, max, a0, reply);
  }

  /** The first successful attempt ends the loop: no further round trip, and no delay or
      sleep for it; one delay for each failed attempt before it. */
  lemma SuccessEndsLoop(maxRetries: nat, min: nat, max: nat, a0: nat, reply: nat -> Reply, k: nat)
    requires k < maxRetries
    requires forall j :: 0 <= j < k ==> !Succeeds(reply(j))
    requires Succeeds(reply(k))
    ensures var t := RetryTrace(maxRetries, min, max, a0, reply);
      t.calls == k + 1 && t.result == reply(k) && |t.delays| == k
  {
    RetryTraceFacts(maxRetries, min, max, a0, reply);
    var t := RetryTrace(maxRetries, min, max, a0, reply);
    assert k >= t.calls - 1;
    assert t.calls - 1 >= k;
  }

  /** When every attempt fails, all `maxRetries` round trips are made and every one of them,
      the last included, is followed by a backoff delay and a sleep; the last reply is returned. */
  lemma AllAttemptsFail(maxRetries: nat, min: nat, max: nat, a0: nat, reply: nat -> Reply)
    requires maxRetries > 0
    requires forall j :: 0 <= j < maxRetries ==> !Succeeds(reply(j))
    ensures var t := RetryTrace(maxRetries, min, max, a0, reply);
      t.calls == maxRetries && |t.delays| == maxRetries && t.result == reply(maxRetries - 1)
  {
    RetryTraceFacts(maxRetries, min, max, a0, reply);
  }

  /** An attempt is followed by a delay and a sleep exactly when it failed: the sleeps taken
      are as many as the failed attempts. */
  lemma SleepsFollowFailures(maxRetries: nat, min: nat, max: nat, a0: nat, reply: nat -> Reply, k: nat)
    requires k < RetryTrace(maxRetries, min, max, a0, reply).calls
    ensures k < |RetryTrace(maxRetries, min, max, a0, reply).delays| <==> !Succeeds(reply(k))
  {
    RetryTraceFacts(maxRetries, min, max, a0, reply);
  }

  /** A reply with an error and no response is classified as a failure without touching the
      response: it is followed by a delay and a sleep, and by a further attempt if one is left. */
  lemma NilResponseIsRetried(maxRetries: nat, min: nat, max: nat, a0: nat, reply: nat -> Reply, k: nat)
    requires k < RetryTrace(maxRetries, min, max, a0, reply).calls
    requires reply(k).res.None?
    ensures var t := RetryTrace(maxRetries, min, max, a0, reply);
      k < |t.delays| && (k + 1 < maxRetries ==> k + 1 < t.calls)
  {
    RetryTraceFacts(maxRetries, min, max, a0, reply);
  }

  /** The delays slept are the backoff's delays for its attempts `a0`, `a0 + 1`, ...: none
      exceeds `max`, and from a fresh backoff the first is `min`, or `max` when that is smaller. */
  lemma DelaysFollowSchedule(maxRetries: nat, min: nat, max: nat, a0: nat, reply: nat -> Reply)
    ensures var t := RetryTrace(maxRetries, min, max, a0, reply);
      && (forall j :: 0 <= j < |t.delays| ==> t.delays[j] == ForAttempt(min, max, a0 + j))
      && (forall j :: 0 <= j < |t.delays| ==> t.delays[j] <= max)
      && (a0 == 0 && |t.delays| > 0 ==> t.delays[0] == if min < max then min else max)
  {
    RetryTraceFacts(maxRetries, min, max, a0, reply);
    ForAttemptFirst(min, max);
  }

  /** The delays slept never shrink, and each one doubles the one before until the cap. */
  lemma DelaysGrow(maxRetries: nat, min: nat, max: nat, a0: nat, reply: nat -> Reply)
    ensures var t := RetryTrace(maxRetries, min, max, a0, reply);
      && (forall j, m :: 0 <= j <= m < |t.delays| ==> t.delays[j] <= t.delays[m])
      && (forall j :: 0 <= j < |t.delays| - 1 ==>
            t.delays[j + 1] == if 2 * t.delays[j] < max then 2 * t.delays[j] else max)
  {
    RetryTraceFacts(maxRetries, min, max, a0, reply);
    var t := RetryTrace(maxRetries, min, max, a0, reply);
    forall j, m | 0 <= j <= m < |t.delays|
      ensures t.delays[j] <= t.delays[m]
    {
      ForAttemptMonotone(min, max, a0 + j, a0 + m);
    }
    forall j | 0 <= j < |t.delays| - 1
      ensures t.delays[j + 1] == if 2 * t.delays[j] < max then 2 * t.delays[j] else max
    {
      ForAttemptDoubles(min, max, a0 + j);
    }
  }

  // ---------------------------------------------------------------------------------------
  // The loop as written: the warning reads the status code of a nil response

  /** How a call of the loop as written ends: it returns, or it panics on the nil response
      whose status code the warning of the given attempt reads. */
  datatype Outcome = Returned(trace: Trace) | NilDereference(attempt: nat)

  /** Attempts `i` to `maxRetries` of the loop as written: the warning of a failed attempt
      reads the status code of the response even when the transport returned none. */
  function AttemptsFromAsWritten(maxRetries: nat, min: nat, max: nat, a0: nat, reply: nat -> Reply,
                                 i: nat, last: Exchange, slept: seq<nat>): (o: Outcome)
    requires 1 <= i
    decreases maxRetries + 1 - i
    ensures o.NilDereference? ==> i <= o.attempt <= maxRetries && reply(o.attempt - 1).res.None?
  {
    if i > maxRetries then Returned(Trace(i - 1, slept, last))
    else
      var x := reply(i - 1);
      if Succeeds(x) then Returned(Trace(i, slept, x))
      else if x.res.None? then NilDereference(i)
      else AttemptsFromAsWritten(maxRetries, min, max, a0, reply, i + 1, x,
                                 slept + [ForAttempt(min, max, a0 + i - 1)])
  }

  /** The whole loop as written. It can only panic in an attempt whose round trip returned an
      error and no response. */
  function RetryTraceAsWritten(maxRetries: nat, min: nat, max: nat, a0: nat, reply: nat -> Reply): (o: Outcome)
    ensures o.NilDereference? ==>
      1 <= o.attempt <= maxRetries && reply(o.attempt - 1).res.None? && reply(o.attempt - 1).err.Some?
  {
    AttemptsFromAsWritten(maxRetries, min, max, a0, reply, 1, NoExchange, [])
  }

  lemma {:induction false} AsWrittenAgreesFrom(maxRetries: nat, min: nat, max: nat, a0: nat,
                                               reply: nat -> Reply, i: nat, last: Exchange, slept: seq<nat>)
    requires 1 <= i
    decreases maxRetries + 1 - i
    requires forall k :: i - 1 <= k < AttemptsFrom(maxRetries, min, max, a0, reply, i, last, slept).calls ==>
      reply(k).res.Some?
    ensures AttemptsFromAsWritten(maxRetries, min, max, a0, reply, i, last, slept)
      == Returned(AttemptsFrom(maxRetries, min, max, a0, reply, i, last, slept))
  {
    if i <= maxRetries && !Succeeds(reply(i - 1)) {
      var slept' := slept + [ForAttempt(min, max, a0 + i - 1)];
      AttemptsFromCalls(maxRetries, min, max, a0, reply, i + 1, reply(i - 1), slept');
      AsWrittenAgreesFrom(maxRetries, min, max, a0, reply, i + 1, reply(i - 1), slept');
    }
  }

  lemma {:induction false} AsWrittenPanicsFrom(maxRetries: nat, min: nat, max: nat, a0: nat,
                                               reply: nat -> Reply, i: nat, last: Exchange, slept: seq<nat>, k: nat)
    requires 1 <= i <= k + 1
    requires k < AttemptsFrom(maxRetries, min, max, a0, reply, i, last, slept).calls
    requires reply(k).res.None?
    requires forall m :: i - 1 <= m < k ==> reply(m).res.Some?
    ensures AttemptsFromAsWritten(maxRetries, min, max, a0, reply, i, last, slept) == NilDereference(k + 1)
    decreases k + 1 - i
  {
    if i - 1 < k {
      var slept' := slept + [ForAttempt(min, max, a0 + i - 1)];
      AsWrittenPanicsFrom(maxRetries, min, max, a0, reply, i + 1, reply(i - 1), slept', k);
    }
  }

  /** As long as every round trip made returns a response, the loop as written behaves as the
      guarded loop. */
  lemma AsWrittenAgrees(maxRetries: nat, min: nat, max: nat, a0: nat, reply: nat -> Reply)
    requires forall k :: 0 <= k < RetryTrace(maxRetries, min, max, a0, reply).calls ==> reply(k).res.Some?
    ensures RetryTraceAsWritten(maxRetries, min, max, a0, reply) == Returned(RetryTrace(maxRetries, min, max, a0, reply))
  {
    AsWrittenAgreesFrom(maxRetries, min, max, a0, reply, 1, NoExchange, []);
  }

  /** The first round trip that returns an error and no response makes the loop as written
      panic in that attempt's warning, where the guarded loop goes on retrying. */
  lemma AsWrittenPanicsOnNilResponse(maxRetries: nat, min: nat, max: nat, a0: nat, reply: nat -> Reply, k: nat)
    requires k < RetryTrace(maxRetries, min, max, a0, reply).calls
    requires reply(k).res.None?
    requires forall m :: 0 <= m < k ==> reply(m).res.Some?
    ensures RetryTraceAsWritten(maxRetries, min, max, a0, reply) == NilDereference(k + 1)
  {
    AsWrittenPanicsFrom(maxRetries, min, max, a0, reply, 1, NoExchange, [], k);
  }

  const Millisecond: nat := 1_000_000
  const Second: nat := 1000 * Millisecond

  /** A transport that refuses the connection three times, then answers 200. */
  function RefusedThenOk(k: nat): (x: Reply) {
    if k < 3 then Exchange(None, Some(TransportError("connection refused")))
    else Exchange(Some(Response(200)), None)
  }

  /** With delay 100ms, maxDelay 1s and 5 attempts: the guarded loop sleeps 100ms, 200ms and
      400ms and returns the 200 response after four round trips; the loop as written panics in
      the warning of the first attempt. */
  lemma RefusedThenOkExample()
    ensures RetryTrace(5, 100 * Millisecond, Second, 0, RefusedThenOk)
      == Trace(4, [100 * Millisecond, 200 * Millisecond, 400 * Millisecond], Exchange(Some(Response(200)), None))
    ensures RetryTraceAsWritten(5, 100 * Millisecond, Second, 0, RefusedThenOk) == NilDereference(1)
  {
    var min, max := 100 * Millisecond, Second;
    assert ForAttempt(min, max, 0) == 100 * Millisecond;
    assert ForAttempt(min, max, 1) == 200 * Millisecond;
    assert ForAttempt(min, max, 2) == 400 * Millisecond;
  }

  // ---------------------------------------------------------------------------------------
  // The decorator

  /** The retrying transport. Its fields are never assigned after construction: `RoundTrip`
      has a value receiver, and every call starts from a fresh backoff. */
  class RetryRoundTripper {
    const proxied: Transport
    const log: Logger
    const delay: nat
    const maxDelay: nat
    const maxRetries: nat

    constructor (proxied: Transport, log: Logger, delay: nat, maxDelay: nat, maxRetries: nat)
      ensures this.proxied == proxied && this.log == log
      ensures this.delay == delay && this.maxDelay == maxDelay && this.maxRetries == maxRetries
    {
      this.proxied := proxied;
      this.log := log;
      this.delay := delay;
      this.maxDelay := maxDelay;
      this.maxRetries := maxRetries;
    }

    /** Builds a backoff from `delay` to `maxDelay` with factor 2 and no jitter, and runs the
        retry loop over the wrapped transport. */
    method RoundTrip(req: Request, clock: Clock) returns (res: Option<Response>, err: Option<TransportError>)
      modifies proxied`calls, clock, log
      ensures var reply := Replies(proxied.respond, req, |old(proxied.calls)|);
        var t := RetryTrace(maxRetries, delay, maxDelay, 0, reply);
        && Exchange(res, err) == t.result
        && proxied.calls == old(proxied.calls) + Repeat(req, t.calls)
        && clock.slept == old(clock.slept) + t.delays
        && log.warnings == old(log.warnings) + WarningsFor(req, reply, t.delays)
    {
      var b := new Backoff(delay, maxDelay);
      ghost var t;
      res, err, t := Retry(maxRetries, b, proxied, req, clock);
    }

    /** What follows a failed attempt: the next delay of `backoff`, a warning about the attempt
        (reporting the status code only when there is a response), and a sleep for that delay. */
    method WaitAfterFailure(attempt: nat, backoff: Backoff, req: Request, res: Option<Response>,
                            err: Option<TransportError>, clock: Clock) returns (delay: nat)
      modifies backoff`attempt, clock, log
      ensures delay == ForAttempt(backoff.min, backoff.max, old(backoff.attempt))
      ensures backoff.attempt == old(backoff.attempt) + 1
      ensures log.warnings == old(log.warnings) + [Warning(req.verb, req.url, StatusOf(res), attempt, delay, err)]
      ensures clock.slept == old(clock.slept) + [delay]
    {
      delay := backoff.Duration();
      log.Warn(Warning(req.verb, req.url, StatusOf(res), attempt, delay, err));
      clock.Sleep(delay);
    }

    /** Calls `fn` with `req` up to `maxRetries` times. After each failed attempt it takes the
        next delay from `backoff`, logs a warning and sleeps for that delay; it stops at the
        first success and returns the last pair received. */
    method Retry(maxRetries: nat, backoff: Backoff, fn: Transport, req: Request, clock: Clock)
      returns (res: Option<Response>, err: Option<TransportError>, ghost t: Trace)
      modifies backoff`attempt, fn`calls, clock, log
      ensures var reply := Replies(fn.respond, req, |old(fn.calls)|);
        t == RetryTrace(maxRetries, backoff.min, backoff.max, old(backoff.attempt), reply)
        && log.warnings == old(log.warnings) + WarningsFor(req, reply, t.delays)
      ensures Exchange(res, err) == t.result
      ensures fn.calls == old(fn.calls) + Repeat(req, t.calls)
      ensures clock.slept == old(clock.slept) + t.delays
      ensures backoff.attempt == old(backoff.attempt) + |t.delays|
    {
      ghost var reply := Replies(fn.respond, req, |fn.calls|);
      ghost var a0, calls0, slept0, warnings0 := backoff.attempt, fn.calls, clock.slept, log.warnings;
      t := RetryTrace(maxRetries, backoff.min, backoff.max, a0, reply);
      ghost var done: seq<nat> := [];  // the delays slept so far
      res, err := None, None;
      var i: nat := 1;
      while i <= maxRetries
        invariant 1 <= i <= maxRetries + 1
        invariant t == AttemptsFrom(maxRetries, backoff.min, backoff.max, a0, reply, i, Exchange(res, err), done)
        invariant fn.calls == calls0 + Repeat(req, i - 1)
        invariant |done| == i - 1
        invariant clock.slept == slept0 + done
        invariant backoff.attempt == a0 + i - 1
        invariant log.warnings == warnings0 + WarningsFor(req, reply, done)
      {
        var x := fn.RoundTrip(req);
        assert x == reply(i - 1);
        RepeatAppend(req, i - 1);
        AppendAssoc(calls0, Repeat(req, i - 1), [req]);
        res, err := x.res, x.err;
        if err.Some? || res.value.statusCode < 200 || res.value.statusCode >= 300 {
          if i <= maxRetries {
            var delay := WaitAfterFailure(i, backoff, req, res, err, clock);
            WarningsForAppend(req, reply, done, delay);
            AppendAssoc(warnings0, WarningsFor(req, reply, done), [Warning(req.verb, req.url, StatusOf(res), i, delay, err)]);
            AppendAssoc(slept0, done, [delay]);
            done := done + [delay];
          }
        } else {
          break;
        }
        i := i + 1;
      }
    }
  }
}

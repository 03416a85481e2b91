/**
 The connection and retry loop of `start_listening_for_updates`, run against a
 scripted transport: the outcome of the i-th connection attempt is
 `outcomes[i]`. The handler calls, the requested sleeps and the attempt count
 are returned as traces instead of being performed.

 The loop is written against a per-chunk step, the configuration (if any)
 one chunk hands to the handler; the source's step is
 `Frames.ChunkConfig(decode, _)`. Nothing the loop does depends on how that
 step looks inside a chunk.
 */
module Listener {
  import opened Wrappers
  import opened Models
  import opened Frames

  /** What one chunk hands to the handler. */
  type Step = Chunk -> Option<ServerConfig>

  /** How the body stream of a successful response stops. */
  datatype StreamEnd = CleanEnd | ReadErr

  /**
   What one `client.get(url).send()` gives back: a connection error, or a
   response with a status and the body it would stream if read.
   */
  datatype AttemptOutcome =
    | ConnectErr
    | Response(status: int, chunks: seq<Chunk>, end: StreamEnd)

  /** The `ConfigError` variants the listener returns. */
  datatype ConfigError = Request | GenericError(message: string)

  datatype ListenResult = Ok | Err(error: ConfigError)

  /** Everything a run makes observable. */
  datatype Run = Run(
    result: ListenResult,
    handled: seq<ServerConfig>,  // handler calls, in order
    delays: seq<nat>,            // requested sleeps, in seconds, in order
    attempts: nat                // connection attempts made
  )

  const GiveUpMessage: string := "Maximum retries reached, giving up."

  /** Base of the exponential backoff, in seconds. */
  const BaseDelay: nat := 2

  /** `StatusCode::is_success`: a 2xx status. */
  predicate IsSuccess(status: int) {
    200 <= status <= 299
  }

  /** The attempt reaches the streaming state. */
  predicate Connects(o: AttemptOutcome) {
    o.Response? && IsSuccess(o.status)
  }

  function Pow(b: nat, n: nat): (p: nat)
    ensures b >= 1 ==> p >= 1
    ensures b >= 1 && n >= 1 ==> p >= b
  {
    if n == 0 then 1 else b * Pow(b, n - 1)
  }

  /**
   The sleep, in seconds, after failed attempt number `attempt`: two seconds
   after the first attempt and at least that after every later one.
   */
  function Backoff(attempt: nat): (d: nat)
    ensures attempt >= 1 ==> d >= 2
    ensures attempt == 1 ==> d == 2
  {
    Pow(BaseDelay, attempt)
  }

  /**
   Number of attempts the loop makes when every attempt fails: the give-up
   check `attempt >= max_retries` runs after the first attempt, so it is at
   least one.
   */
  function Budget(maxRetries: nat): (n: nat)
    ensures 1 <= n && maxRetries <= n
    ensures n == 1 || n == maxRetries
  {
    if maxRetries == 0 then 1 else maxRetries
  }

  /** The handler call one chunk causes: none, or one. */
  function Delivery(step: Step, c: Chunk): seq<ServerConfig> {
    match step(c)
    case None => []
    case Some(config) => [config]
  }

  /**
   The handler calls a body of chunks causes, in order: at most one per
   chunk.
   */
  function Deliveries(step: Step, chunks: seq<Chunk>): (handled: seq<ServerConfig>)
    ensures |handled| <= |chunks|
  {
    if chunks == [] then [] else Delivery(step, chunks[0]) + Deliveries(step, chunks[1..])
  }

  /** A read error ends the call with `Request`; a clean end with `Ok`. */
  function StreamResult(end: StreamEnd): ListenResult {
    match end
    case CleanEnd => Ok
    case ReadErr => Err(Request)
  }

  /** Reading chunks appends their deliveries to those already made. */
  lemma {:induction false} DeliveriesAppend(step: Step, xs: seq<Chunk>, ys: seq<Chunk>)
    ensures Deliveries(step, xs + ys) == Deliveries(step, xs) + Deliveries(step, ys)
    decreases |xs|
  {
    if xs == [] {
      assert xs + ys == ys;
    } else {
      assert (xs + ys)[0] == xs[0];
      assert (xs + ys)[1..] == xs[1..] + ys;
      DeliveriesAppend(step, xs[1..], ys);
    }
  }

  /** One more chunk read: its own handler call, if any, comes last. */
  lemma DeliveriesSnoc(step: Step, xs: seq<Chunk>, c: Chunk)
    ensures Deliveries(step, xs + [c]) == Deliveries(step, xs) + Delivery(step, c)
  {
    DeliveriesAppend(step, xs, [c]);
    assert [c][1..] == [];
  }

  /** Every handler call carries the configuration some chunk of the body yields. */
  lemma {:induction false} DeliveriesFromChunks(step: Step, chunks: seq<Chunk>, x: ServerConfig)
    requires x in Deliveries(step, chunks)
    ensures exists c :: c in chunks && step(c) == Some(x)
    decreases |chunks|
  {
    var c := chunks[0];
    if x in Delivery(step, c) {
      assert step(c) == Some(x);
    } else {
      DeliveriesFromChunks(step, chunks[1..], x);
      var d :| d in chunks[1..] && step(d) == Some(x);
      assert d in chunks;
    }
  }

  /**
   The read loop over one response body: every chunk goes through the step
   and, when it yields a configuration, to the handler; the stream's end
   decides the result.
   */
  method ReadStream(step: Step, chunks: seq<Chunk>, end: StreamEnd)
    returns (handled: seq<ServerConfig>, result: ListenResult)
    ensures handled == Deliveries(step, chunks)
    ensures result == Ok <==> end == CleanEnd
    ensures result != Ok ==> result == Err(Request)
  {
    handled := [];
    var i := 0;
    while i < |chunks|
      invariant 0 <= i <= |chunks|
      invariant handled == Deliveries(step, chunks[..i])
    {
      var c := chunks[i];
      assert chunks[..i + 1] == chunks[..i] + [c];
      DeliveriesSnoc(step, chunks[..i], c);
      match step(c) {
        case Some(config) =>
          handled := handled + [config];
        case None =>
      }
      i := i + 1;
    }
    assert chunks[..i] == chunks;
    if end == ReadErr {
      return handled, Err(Request);
    }
    result := Ok;
  }

  /**
   The loop from connection attempt number `attempt` on (1-based; the
   counter is bumped before each connect). A successful status ends the loop
   with that attempt's stream; a connection error or any other status goes to
   the give-up check, then sleeps and tries again.
   */
  function Loop(step: Step, outcomes: seq<AttemptOutcome>, maxRetries: nat, attempt: nat): (r: Run)
    requires 1 <= attempt <= Budget(maxRetries) <= |outcomes|
    ensures attempt <= r.attempts <= Budget(maxRetries)
    ensures |r.delays| == r.attempts - attempt
    ensures forall i :: 0 <= i < |r.delays| ==> r.delays[i] == Backoff(attempt + i)
    ensures r.handled != [] ==> Connects(outcomes[r.attempts - 1])
    ensures r.result == Err(GenericError(GiveUpMessage)) <==> !Connects(outcomes[r.attempts - 1])
    decreases Budget(maxRetries) - attempt
  {
    var o := outcomes[attempt - 1];
    if Connects(o) then
      Run(StreamResult(o.end), Deliveries(step, o.chunks), [], attempt)
    else if attempt >= maxRetries then
      Run(Err(GenericError(GiveUpMessage)), [], [], attempt)
    else
      var rest := Loop(step, outcomes, maxRetries, attempt + 1);
      rest.(delays := [Backoff(attempt)] + rest.delays)
  }

  /**
   `start_listening_for_updates(url, handler, max_retries)`: `clientBuilt`
   says whether `Client::builder().build()` succeeded. Delays are the exact
   powers of two; `ListenerProperties.BackoffFitsU64` says when they fit the
   source's `u64`.
   */
  function Listen(step: Step, clientBuilt: bool, outcomes: seq<AttemptOutcome>, maxRetries: nat): (r: Run)
    requires clientBuilt ==> Budget(maxRetries) <= |outcomes|
    ensures !clientBuilt ==> r == Run(Err(Request), [], [], 0)
    ensures clientBuilt ==> 1 <= r.attempts <= Budget(maxRetries) && |r.delays| == r.attempts - 1
    ensures forall i :: 0 <= i < |r.delays| ==> r.delays[i] == Backoff(i + 1)
  {
    if !clientBuilt then Run(Err(Request), [], [], 0)
    else Loop(step, outcomes, maxRetries, 1)
  }

  /** `r` preceded by the sleeps `ds`. */
  function WithDelays(ds: seq<nat>, r: Run): Run {
    r.(delays := ds + r.delays)
  }

  /** A failed attempt below the give-up bound sleeps, then the loop goes on. */
  lemma LoopRetries(step: Step, outcomes: seq<AttemptOutcome>, maxRetries: nat, attempt: nat)
    requires 1 <= attempt < maxRetries <= |outcomes|
    requires !Connects(outcomes[attempt - 1])
    ensures Loop(step, outcomes, maxRetries, attempt)
         == WithDelays([Backoff(attempt)], Loop(step, outcomes, maxRetries, attempt + 1))
  {
  }

  /** A connecting attempt ends the run with its stream's deliveries and result. */
  lemma ExitConnects(step: Step, outcomes: seq<AttemptOutcome>, maxRetries: nat, attempt: nat, delays: seq<nat>, spec: Run)
    requires 1 <= attempt <= Budget(maxRetries) <= |outcomes|
    requires Connects(outcomes[attempt - 1])
    requires spec == WithDelays(delays, Loop(step, outcomes, maxRetries, attempt))
    ensures spec == Run(StreamResult(outcomes[attempt - 1].end), Deliveries(step, outcomes[attempt - 1].chunks), delays, attempt)
  {
    assert delays + [] == delays;
  }

  /** A failed attempt at the give-up bound ends the run with the give-up error. */
  lemma ExitGivesUp(step: Step, outcomes: seq<AttemptOutcome>, maxRetries: nat, attempt: nat, delays: seq<nat>, spec: Run)
    requires 1 <= attempt <= Budget(maxRetries) <= |outcomes|
    requires !Connects(outcomes[attempt - 1]) && attempt >= maxRetries
    requires spec == WithDelays(delays, Loop(step, outcomes, maxRetries, attempt))
    ensures spec == Run(Err(GenericError(GiveUpMessage)), [], delays, attempt)
  {
    assert delays + [] == delays;
  }

  lemma WithDelaysConcat(ds: seq<nat>, es: seq<nat>, r: Run)
    ensures WithDelays(ds + es, r) == WithDelays(ds, WithDelays(es, r))
  {
    assert (ds + es) + r.delays == ds + (es + r.delays);
  }

  /** After a failed attempt below the bound, the sleep joins the trace and the loop restarts one attempt later. */
  lemma RetryKeepsRun(step: Step, outcomes: seq<AttemptOutcome>, maxRetries: nat, attempt: nat, delays: seq<nat>, spec: Run)
    requires 1 <= attempt < maxRetries <= |outcomes|
    requires !Connects(outcomes[attempt - 1])
    requires spec == WithDelays(delays, Loop(step, outcomes, maxRetries, attempt))
    ensures spec == WithDelays(delays + [Pow(BaseDelay, attempt)], Loop(step, outcomes, maxRetries, attempt + 1))
  {
    LoopRetries(step, outcomes, maxRetries, attempt);
    WithDelaysConcat(delays, [Backoff(attempt)], Loop(step, outcomes, maxRetries, attempt + 1));
  }

  /**
   The same loop written as the source writes it: a mutable attempt counter,
   a `loop` with early returns and a delay pushed before every retry.
   */
  method StartListening(step: Step, clientBuilt: bool, outcomes: seq<AttemptOutcome>, maxRetries: nat)
    returns (result: ListenResult, handled: seq<ServerConfig>, delays: seq<nat>, attempts: nat)
    requires clientBuilt ==> Budget(maxRetries) <= |outcomes|
    ensures Run(result, handled, delays, attempts) == Listen(step, clientBuilt, outcomes, maxRetries)
  {
    handled, delays, attempts := [], [], 0;
    if !clientBuilt {
      return Err(Request), handled, delays, attempts;
    }
    ghost var spec := Listen(step, clientBuilt, outcomes, maxRetries);
    assert spec == WithDelays([], Loop(step, outcomes, maxRetries, 1)) by {
      assert [] + spec.delays == spec.delays;
    }
    while true
      invariant attempts < Budget(maxRetries) <= |outcomes|
      invariant handled == []
      invariant spec == WithDelays(delays, Loop(step, outcomes, maxRetries, attempts + 1))
      decreases Budget(maxRetries) - attempts
    {
      attempts := attempts + 1;
      var o := outcomes[attempts - 1];
      if o.Response? && IsSuccess(o.status) {
        ExitConnects(step, outcomes, maxRetries, attempts, delays, spec);
        handled, result := ReadStream(step, o.chunks, o.end);
        assert result == StreamResult(o.end);
        return;
      }
      if attempts >= maxRetries {
        ExitGivesUp(step, outcomes, maxRetries, attempts, delays, spec);
        return Err(GenericError(GiveUpMessage)), handled, delays, attempts;
      }
      var delay := Pow(BaseDelay, attempts);
      RetryKeepsRun(step, outcomes, maxRetries, attempts, delays, spec);
      delays := delays + [delay];
    }
  }
}

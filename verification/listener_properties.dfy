/**
 Properties of the listener loop: a closed form for every scripted run, and
 the retry, backoff, error-classification and handler-ordering facts that
 follow from it.
 */
module ListenerProperties {
  import opened Frames
  import opened Listener

  /**
   Index of the first outcome in `outcomes[from..bound]` that connects, or
   `bound` when none does: the attempt that decides the run.
   */
  function FirstConnect(outcomes: seq<AttemptOutcome>, from: nat, bound: nat): (k: nat)
    requires from <= bound <= |outcomes|
    ensures from <= k <= bound
    ensures forall i :: from <= i < k ==> !Connects(outcomes[i])
    ensures k < bound ==> Connects(outcomes[k])
    decreases bound - from
  {
    if from == bound then bound
    else if Connects(outcomes[from]) then from
    else FirstConnect(outcomes, from + 1, bound)
  }

  /** Any index with the characterising properties is the first connect. */
  lemma FirstConnectUnique(outcomes: seq<AttemptOutcome>, from: nat, bound: nat, j: nat)
    requires from <= j <= bound <= |outcomes|
    requires forall i :: from <= i < j ==> !Connects(outcomes[i])
    requires j < bound ==> Connects(outcomes[j])
    ensures FirstConnect(outcomes, from, bound) == j
  {
  }

  /** The sleeps after failed attempts `from`, `from + 1`, ..., `hi - 1`. */
  function Backoffs(from: nat, hi: nat): (ds: seq<nat>)
    requires from <= hi
    ensures |ds| == hi - from
    ensures forall i :: 0 <= i < |ds| ==> ds[i] == Backoff(from + i)
    decreases hi - from
  {
    if from == hi then [] else [Backoff(from)] + Backoffs(from + 1, hi)
  }

  /**
   What a run is, written without the loop: the first attempt that connects
   decides the result and the handler calls, and every attempt before it
   left one sleep behind; when none connects within the budget the loop
   gives up after the last one.
   */
  function Reference(step: Step, clientBuilt: bool, outcomes: seq<AttemptOutcome>, maxRetries: nat): Run
    requires clientBuilt ==> Budget(maxRetries) <= |outcomes|
  {
    if !clientBuilt then Run(Err(Request), [], [], 0)
    else
      var bound := Budget(maxRetries);
      var k := FirstConnect(outcomes, 0, bound);
      if k < bound then
        Run(StreamResult(outcomes[k].end), Deliveries(step, outcomes[k].chunks), Backoffs(1, k + 1), k + 1)
      else
        Run(Err(GenericError(GiveUpMessage)), [], Backoffs(1, bound), bound)
  }

  lemma {:induction false} LoopClosedForm(step: Step, outcomes: seq<AttemptOutcome>, maxRetries: nat, attempt: nat)
    requires 1 <= attempt <= Budget(maxRetries) <= |outcomes|
    ensures
      var bound := Budget(maxRetries);
      var k := FirstConnect(outcomes, attempt - 1, bound);
      Loop(step, outcomes, maxRetries, attempt)
      == if k < bound then
           Run(StreamResult(outcomes[k].end), Deliveries(step, outcomes[k].chunks), Backoffs(attempt, k + 1), k + 1)
         else
           Run(Err(GenericError(GiveUpMessage)), [], Backoffs(attempt, bound), bound)
    decreases Budget(maxRetries) - attempt
  {
    var bound := Budget(maxRetries);
    var o := outcomes[attempt - 1];
    if !Connects(o) && attempt < maxRetries {
      LoopClosedForm(step, outcomes, maxRetries, attempt + 1);
      var k := FirstConnect(outcomes, attempt, bound);
      FirstConnectUnique(outcomes, attempt - 1, bound, k);
    }
  }

  /** The loop and the loop-free description agree on every scripted run. */
  lemma ListenMatchesReference(step: Step, clientBuilt: bool, outcomes: seq<AttemptOutcome>, maxRetries: nat)
    requires clientBuilt ==> Budget(maxRetries) <= |outcomes|
    ensures Listen(step, clientBuilt, outcomes, maxRetries) == Reference(step, clientBuilt, outcomes, maxRetries)
  {
    if clientBuilt {
      LoopClosedForm(step, outcomes, maxRetries, 1);
    }
  }

  /**
   How a run ends: `Ok` exactly when the first connected attempt's stream
   ends cleanly, `Request` exactly when the client cannot be built or that
   stream fails mid-read, and the give-up error exactly when no attempt
   within the budget connects.
   */
  lemma ResultClassification(step: Step, clientBuilt: bool, outcomes: seq<AttemptOutcome>, maxRetries: nat)
    requires clientBuilt ==> Budget(maxRetries) <= |outcomes|
    ensures
      var r := Listen(step, clientBuilt, outcomes, maxRetries);
      var bound := Budget(maxRetries);
      && (r.result == Ok <==>
            clientBuilt && exists k :: 0 <= k < bound && FirstConnect(outcomes, 0, bound) == k && outcomes[k].end == CleanEnd)
      && (r.result == Err(Request) <==>
            !clientBuilt || exists k :: 0 <= k < bound && FirstConnect(outcomes, 0, bound) == k && outcomes[k].end == ReadErr)
      && (r.result == Err(GenericError(GiveUpMessage)) <==>
            clientBuilt && forall i :: 0 <= i < bound ==> !Connects(outcomes[i]))
  {
    ListenMatchesReference(step, clientBuilt, outcomes, maxRetries);
    if clientBuilt {
      var bound := Budget(maxRetries);
      var k := FirstConnect(outcomes, 0, bound);
      if k < bound {
        assert Connects(outcomes[k]);
      }
    }
  }

  /**
   When every attempt fails the loop makes exactly `max(1, max_retries)`
   attempts, sleeps `2^n` seconds after each failed attempt `n` but the last,
   never calls the handler and gives up.
   */
  lemma RetriesExhausted(step: Step, outcomes: seq<AttemptOutcome>, maxRetries: nat)
    requires Budget(maxRetries) <= |outcomes|
    requires forall i :: 0 <= i < Budget(maxRetries) ==> !Connects(outcomes[i])
    ensures Listen(step, true, outcomes, maxRetries)
         == Run(Err(GenericError(GiveUpMessage)), [], Backoffs(1, Budget(maxRetries)), Budget(maxRetries))
  {
    ListenMatchesReference(step, true, outcomes, maxRetries);
    FirstConnectUnique(outcomes, 0, Budget(maxRetries), Budget(maxRetries));
  }

  /**
   Once an attempt connects, nothing after it matters: no further attempt
   and no further sleep. Its stream decides the result (a read error is
   fatal whatever retry budget is left), and the handler calls are the
   deliveries of that stream alone.
   */
  lemma ConnectedAttemptIsLast(step: Step, outcomes: seq<AttemptOutcome>, maxRetries: nat, k: nat)
    requires Budget(maxRetries) <= |outcomes|
    requires k < Budget(maxRetries)
    requires Connects(outcomes[k])
    requires forall i :: 0 <= i < k ==> !Connects(outcomes[i])
    ensures Listen(step, true, outcomes, maxRetries)
         == Run(StreamResult(outcomes[k].end), Deliveries(step, outcomes[k].chunks), Backoffs(1, k + 1), k + 1)
  {
    ListenMatchesReference(step, true, outcomes, maxRetries);
    FirstConnectUnique(outcomes, 0, Budget(maxRetries), k);
  }

  /**
   Only the outcomes of the attempts actually made are ever looked at: two
   scripts that agree on them give the same run.
   */
  lemma ListenIgnoresLaterOutcomes(step: Step, outcomes: seq<AttemptOutcome>, other: seq<AttemptOutcome>, maxRetries: nat)
    requires Budget(maxRetries) <= |outcomes|
    requires Budget(maxRetries) <= |other|
    requires
      var n := Listen(step, true, outcomes, maxRetries).attempts;
      n <= |other| && other[..n] == outcomes[..n]
    ensures Listen(step, true, other, maxRetries) == Listen(step, true, outcomes, maxRetries)
  {
    ListenMatchesReference(step, true, outcomes, maxRetries);
    ListenMatchesReference(step, true, other, maxRetries);
    var bound := Budget(maxRetries);
    var k := FirstConnect(outcomes, 0, bound);
    var n := if k < bound then k + 1 else bound;
    forall i | 0 <= i < n ensures other[i] == outcomes[i] {
      assert other[..n][i] == outcomes[..n][i];
    }
    FirstConnectUnique(other, 0, bound, k);
  }

  /**
   A non-success status is handled exactly like a connection error: the
   response body is never read, so replacing such a response by
   `ConnectErr` leaves the run unchanged.
   */
  lemma NonSuccessIsConnectError(step: Step, outcomes: seq<AttemptOutcome>, maxRetries: nat, j: nat)
    requires Budget(maxRetries) <= |outcomes|
    requires j < |outcomes|
    requires outcomes[j].Response? && !IsSuccess(outcomes[j].status)
    ensures Listen(step, true, outcomes[j := ConnectErr], maxRetries) == Listen(step, true, outcomes, maxRetries)
  {
    var other := outcomes[j := ConnectErr];
    ListenMatchesReference(step, true, outcomes, maxRetries);
    ListenMatchesReference(step, true, other, maxRetries);
    var bound := Budget(maxRetries);
    var k := FirstConnect(outcomes, 0, bound);
    FirstConnectUnique(other, 0, bound, k);
  }

  /** Backoff grows with the attempt number. */
  lemma {:induction false} BackoffMonotone(m: nat, n: nat)
    requires m <= n
    ensures Backoff(m) <= Backoff(n)
    decreases n
  {
    if m < n {
      BackoffMonotone(m, n - 1);
    }
  }

  lemma {:induction false} BackoffAdd(m: nat, n: nat)
    ensures Backoff(m + n) == Backoff(m) * Backoff(n)
    decreases m
  {
    if m > 0 {
      BackoffAdd(m - 1, n);
      assert Backoff(m + n) == 2 * Backoff(m - 1 + n);
      assert 2 * (Backoff(m - 1) * Backoff(n)) == (2 * Backoff(m - 1)) * Backoff(n);
    }
  }

  lemma BackoffOf63()
    ensures Backoff(63) == 0x8000_0000_0000_0000
  {
    assert Backoff(9) == 512;
    BackoffAdd(9, 9);
    assert Backoff(18) == 512 * 512;
    BackoffAdd(18, 18);
    assert Backoff(36) == 0x10_0000_0000;
    BackoffAdd(36, 18);
    assert Backoff(54) == 0x40_0000_0000_0000;
    BackoffAdd(54, 9);
  }

  /**
   With `max_retries <= 64`, every sleep the loop asks for is at least two
   and at most `2^63` seconds, so `BASE_DELAY.pow(attempt)` never leaves `u64`.
   */
  lemma BackoffFitsU64(step: Step, clientBuilt: bool, outcomes: seq<AttemptOutcome>, maxRetries: nat)
    requires clientBuilt ==> Budget(maxRetries) <= |outcomes|
    requires maxRetries <= 64
    ensures forall d :: d in Listen(step, clientBuilt, outcomes, maxRetries).delays ==> 2 <= d < 0x1_0000_0000_0000_0000
  {
    var r := Listen(step, clientBuilt, outcomes, maxRetries);
    BackoffOf63();
    forall d | d in r.delays ensures 2 <= d < 0x1_0000_0000_0000_0000 {
      var i :| 0 <= i < |r.delays| && r.delays[i] == d;
      BackoffMonotone(1, i + 1);
      BackoffMonotone(i + 1, 63);
    }
  }

  /**
   A chunk that yields no configuration (no payload, or a payload that does
   not decode) causes no handler call and does not disturb the calls around it.
   */
  lemma UndecodableChunkIsSkipped(step: Step, xs: seq<Chunk>, c: Chunk, ys: seq<Chunk>)
    requires step(c).None?
    ensures Deliveries(step, xs + [c] + ys) == Deliveries(step, xs) + Deliveries(step, ys)
  {
    DeliveriesSnoc(step, xs, c);
    DeliveriesAppend(step, xs + [c], ys);
  }

  /**
   When every chunk yields a configuration, the handler is called once per
   chunk, in chunk order, with that chunk's configuration.
   */
  lemma {:induction false} DeliveriesInOrder(step: Step, chunks: seq<Chunk>)
    requires forall i :: 0 <= i < |chunks| ==> step(chunks[i]).Some?
    ensures |Deliveries(step, chunks)| == |chunks|
    ensures forall i :: 0 <= i < |chunks| ==> Deliveries(step, chunks)[i] == step(chunks[i]).value
    decreases |chunks|
  {
    if chunks != [] {
      var rest := chunks[1..];
      assert forall i :: 0 <= i < |rest| ==> rest[i] == chunks[i + 1];
      DeliveriesInOrder(step, rest);
    }
  }

  /**
   Past 64 attempts the exact delay no longer fits `u64`: with
   `max_retries >= 65` and every attempt failing, the sleep after attempt 64
   would be `2^64` seconds.
   */
  lemma BackoffLeavesU64(step: Step, outcomes: seq<AttemptOutcome>, maxRetries: nat)
    requires 65 <= maxRetries <= |outcomes|
    requires forall i :: 0 <= i < maxRetries ==> !Connects(outcomes[i])
    ensures |Listen(step, true, outcomes, maxRetries).delays| >= 64
    ensures Listen(step, true, outcomes, maxRetries).delays[63] == 0x1_0000_0000_0000_0000
  {
    RetriesExhausted(step, outcomes, maxRetries);
    BackoffOf63();
    assert Backoff(64) == 2 * Backoff(63);
  }
}

/**
 Concrete cases: the extraction of one frame, a full run in which every
 connect fails, a full run through extractor and decode step with one update,
 and the handler calls of a body mixing a bad and a good payload. The decoder
 is known only by its outcome on the payloads involved.
 */
module Scenarios {
  import opened Wrappers
  import opened Models
  import opened Strings
  import opened Frames
  import opened Listener
  import opened ListenerProperties

  const TimeoutPayload: string := "{\"settings\":{\"timeout\":30}}"
  const EmptyPayload: string := "{\"settings\":{}}"
  const BadPayload: string := "not-json"

  /** A chunk carrying exactly one copy of the prefix and an already trimmed payload. */
  lemma SingleFrame(m: string)
    requires m != [] && !IsWhitespace(m[0]) && !IsWhitespace(m[|m| - 1])
    requires !StartsWith(m, DataPrefix)
    ensures Extract(Valid(DataPrefix + m)) == Some(m)
  {
    assert m == [] + m + [];
    assert Repeat(DataPrefix, 1) == DataPrefix;
    ExtractComplete(DataPrefix + m, 1, [], m, []);
  }

  /**
   Three failed connects with `max_retries = 3`: the give-up error after
   exactly three attempts, sleeps of 2 and 4 seconds in between, and no
   handler call.
   */
  lemma AllConnectsFail(step: Step, outcomes: seq<AttemptOutcome>)
    requires |outcomes| == 3
    requires forall i :: 0 <= i < 3 ==> outcomes[i] == ConnectErr
    ensures Listen(step, true, outcomes, 3) == Run(Err(GenericError(GiveUpMessage)), [], [2, 4], 3)
  {
    RetriesExhausted(step, outcomes, 3);
    assert Backoffs(1, 3) == [2, 4];
  }

  /** One framed payload, then a clean end: one handler call, then `Ok`. */
  lemma OneUpdateThenEnd(decode: string -> Option<ServerConfig>, config: ServerConfig)
    requires decode(TimeoutPayload) == Some(config)
    ensures
      var step := c => ChunkConfig(decode, c);
      Listen(step, true, [Response(200, [Valid("data: " + TimeoutPayload)], CleanEnd)], 1)
      == Run(Ok, [config], [], 1)
  {
    var step := c => ChunkConfig(decode, c);
    var chunk := Valid("data: " + TimeoutPayload);
    SingleFrame(TimeoutPayload);
    assert step(chunk) == Some(config);
    assert Deliveries(step, [chunk]) == [config] by {
      assert [chunk][1..] == [];
    }
  }

  /**
   A payload that does not decode is skipped and the next one on the same
   connection still reaches the handler.
   */
  lemma BadPayloadThenGood(decode: string -> Option<ServerConfig>, config: ServerConfig)
    requires decode(BadPayload) == None
    requires decode(EmptyPayload) == Some(config)
    ensures
      var step := c => ChunkConfig(decode, c);
      Deliveries(step, [Valid("data: " + BadPayload), Valid("data: " + EmptyPayload)]) == [config]
  {
    var step := c => ChunkConfig(decode, c);
    var bad := Valid("data: " + BadPayload);
    var good := Valid("data: " + EmptyPayload);
    SingleFrame(BadPayload);
    SingleFrame(EmptyPayload);
    UndecodableChunkIsSkipped(step, [], bad, [good]);
    assert [] + [bad] + [good] == [bad, good];
    assert Deliveries(step, [good]) == [config] by {
      assert [good][1..] == [];
    }
  }
}

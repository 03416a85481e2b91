# config-sdk listener, modelled in Dafny

`start_listening_for_updates` in `src/listener.rs` is a Server-Sent Events
client. It builds an HTTP client, then repeatedly issues a streaming GET. It
numbers each connection attempt from 1. After a failed attempt it gives up
once `attempt >= max_retries`; otherwise it sleeps `2^attempt` seconds and
tries again, so the attempt that gives up is followed by no sleep. On the first response
with a 2xx status it reads the body chunk by chunk. Every chunk is examined on
its own: invalid UTF-8 becomes the empty string, and only a chunk opening with
`data: ` carries a payload. That payload is the chunk with every leading
`data: ` removed and surrounding whitespace trimmed. It is decoded as a
`ServerConfig` and, when decoding succeeds, handed to the update handler. A
read error in the body ends the call with `ConfigError::Request`; a body that
ends cleanly ends it with `Ok(())`.

The model has seven modules:

- `Wrappers`: `Option`.
- `Models`: `ServerConfig` and the JSON value it holds.
- `Strings`: Rust's `char::is_whitespace`, `starts_with`, `trim_start_matches`
  with a string pattern, and `trim`. The last two each have a lemma saying
  what they return and a lemma saying that result is the only possible one.
- `Frames`: the per-chunk extractor and the decode step.
- `Listener`: the connection loop. It is written twice:
  - as a recursive function `Loop`/`Listen` over a script of attempt outcomes;
  - as a method `StartListening` that keeps the source's mutable counter and
    `loop` with early returns, proved equal to `Listen`.
- `ListenerProperties`: a loop-free reference description of every run,
  proved equal to the loop, and the retry, backoff, error and ordering facts
  derived from it.
- `Scenarios`: concrete cases. One frame's extraction; a full run in which
  every connect fails; a full run with extractor and decode step, one update
  and a clean end; and the handler calls a body with an undecodable payload
  followed by a good one causes.

The network is a parameter, not a capability. `outcomes[i]` is what attempt
`i + 1` gets back: a connection error, or a response with a status, the
chunks its body yields and how the body ends. Only attempts and bodies that
finish are represented (see "## Left out"). The listener returns
traces (handler calls, requested sleeps, attempt count) instead of performing
them.

Three facts about the code shape the model:

- `trim_start_matches("data: ")` removes every leading repetition of the
  prefix, not just one.
- The errors returned are `ConfigError::Request` (client build, mid-stream
  read error) and
  `ConfigError::GenericError("Maximum retries reached, giving up.")`.
- With `max_retries = 0` the loop still makes one attempt, because the
  give-up check runs after the first attempt. So the bound on attempts is
  `max(1, max_retries)`. The doc comment at src/listener.rs:27 calls
  `max_retries` "the maximum number of connection attempts", which the code
  does not honour for 0.

## Model

| member | source | states |
|---|---|---|
| Strings.StripPrefixes | src/listener.rs:75 | `trim_start_matches("data: ")` leaves a string that no longer starts with the pattern |
| Strings.StripPrefixesSound | src/listener.rs:75 | the input is exactly `Copies` back-to-back copies of the pattern followed by the stripped result |
| Strings.StripPrefixesUnique | src/listener.rs:75 | any split of the input into `k` copies of the pattern and a rest not starting with it is the one `trim_start_matches` finds |
| Strings.TrimSound | src/listener.rs:75 | `trim` returns a core with no whitespace at either end, and the input is whitespace, that core, then whitespace |
| Strings.TrimUnique | src/listener.rs:75 | for every split of the input into whitespace, a trimmed core and whitespace, `trim` returns that core |
| Frames.ExtractSound | src/listener.rs:71-75 | a chunk yields a payload exactly when it is valid UTF-8 starting with `data: `; the payload is the trimmed core after one or more leading copies of the prefix |
| Frames.ExtractComplete | src/listener.rs:71-75 | conversely, every such framing of a chunk's text is the payload extracted from it |
| Frames.ChunkConfig | src/listener.rs:71-84 | a chunk reaches the handler only if it is valid UTF-8 opening with `data: `, and then with the decoder's result on its extracted payload |
| Frames.ChunkConfigDelivers | src/listener.rs:74-78 | conversely, a valid chunk framed around payload `m` with `decode(m) == Some(x)` hands exactly `x` to the handler |
| Listener.Backoff | src/listener.rs:112 | `BASE_DELAY.pow(attempt)`: two seconds after the first attempt and at least two after any attempt |
| Listener.Budget | src/listener.rs:106 | the number of attempts when all fail: at least 1, at least `max_retries`, and one of the two, i.e. `max(1, max_retries)` |
| Listener.Deliveries | src/listener.rs:68-84 | the handler calls a body causes: at most one per chunk (their contents are stated by Listener.DeliveriesFromChunks, ListenerProperties.DeliveriesInOrder and ListenerProperties.UndecodableChunkIsSkipped) |
| Listener.DeliveriesFromChunks | src/listener.rs:76-78 | every configuration handed to the handler is what some chunk of the body yields |
| Listener.ReadStream | src/listener.rs:66-95 | the body read loop calls the handler with the deliveries of the chunks in order; the result is `Ok` exactly on a clean end and `Err(Request)` on a read error |
| Listener.DeliveriesAppend | src/listener.rs:68-92 | handler calls for consecutive stretches of chunks concatenate |
| Listener.Loop | src/listener.rs:56-115 | an attempt connects when it gets a response whose status `IsSuccess` (2xx, `status().is_success()` at :64); from attempt `n` on: at most `max(1, max_retries)` attempts; one sleep of `2^j` after each failed attempt `j` before the last; handler calls only if the last attempt connected; the give-up error exactly when it did not |
| Listener.Listen | src/listener.rs:45-118 | a client build error returns `Request` with no attempt; otherwise attempts are numbered from 1, there is one sleep fewer than attempts, and the `i`-th sleep is `2^i` |
| Listener.StartListening | src/listener.rs:49-117 | the imperative loop with its mutable counter and early returns gives exactly the run `Listen` describes |
| ListenerProperties.FirstConnect | src/listener.rs:56-64 | the first attempt in a range whose response has a success status, or the end of the range when none does |
| ListenerProperties.Backoffs | src/listener.rs:111-114 | the sleeps after attempts `from` to `hi - 1` are `2^from`, ..., `2^(hi-1)` |
| ListenerProperties.LoopClosedForm | src/listener.rs:53-115 | the loop from any attempt equals the loop-free description: the first connecting attempt decides result and handler calls, every earlier attempt leaves its sleep |
| ListenerProperties.ListenMatchesReference | src/listener.rs:45-118 | `Listen` equals the loop-free reference description on every script |
| ListenerProperties.ResultClassification | src/listener.rs:50-117 | `Ok` iff the first connecting attempt's body ends cleanly; `Request` iff the client cannot be built or that body fails mid-read; the give-up error iff no attempt within `max(1, max_retries)` connects |
| ListenerProperties.RetriesExhausted | src/listener.rs:53-114 | when every attempt fails: exactly `max(1, max_retries)` attempts, sleeps `2, 4, ..., 2^(n-1)` and none after the last, no handler call, the give-up error |
| ListenerProperties.ConnectedAttemptIsLast | src/listener.rs:64-95 | the first connecting attempt is the last one made and adds no sleep; its body alone decides the handler calls and the result, so a read error is fatal whatever budget is left |
| ListenerProperties.ListenIgnoresLaterOutcomes | src/listener.rs:56-115 | scripts agreeing on the attempts actually made give the same run |
| ListenerProperties.NonSuccessIsConnectError | src/listener.rs:96-106 | replacing a non-success response by a connection error changes nothing: the body is never read |
| ListenerProperties.BackoffFitsU64 | src/listener.rs:106-114 | with `max_retries <= 64` every sleep lies between 2 and `u64::MAX` seconds |
| ListenerProperties.BackoffLeavesU64 | src/listener.rs:106-114 | with `max_retries >= 65` and every attempt failing, the 64th sleep would be `2^64`, which `u64` cannot hold |
| ListenerProperties.UndecodableChunkIsSkipped | src/listener.rs:76-84 | a chunk without a decodable payload causes no handler call and leaves the calls before and after it unchanged |
| ListenerProperties.DeliveriesInOrder | src/listener.rs:68-80 | when every chunk decodes, the handler is called once per chunk, in chunk order |
| Scenarios.SingleFrame | src/listener.rs:74-75 | `data: ` followed by a non-empty, already trimmed payload that does not itself start with `data: ` yields that payload |
| Scenarios.AllConnectsFail | src/listener.rs:53-114 | three failed connects with `max_retries = 3`: three attempts, sleeps 2 and 4, no handler call, the give-up error |
| Scenarios.OneUpdateThenEnd | src/listener.rs:64-95 | one framed configuration then a clean end: one handler call with it, `Ok` |
| Scenarios.BadPayloadThenGood | src/listener.rs:76-84 | for a body of a framed payload that fails to decode then one that decodes, the handler calls are just the second's configuration |

## Left out

- UTF-8 decoding (`String::from_utf8`): a chunk arrives already classified as `Valid(text)` or `InvalidUtf8`.
- `serde_json::from_slice::<ServerConfig>`: a `decode` parameter from payload text to an optional configuration. JSON syntax and serde's mapping are not modelled, and JSON numbers are `real`.
- Logging (`configure_logging`, the `info!`/`warn!` calls, `src/logger.rs`): it has no effect on results.
- The HTTP client (`reqwest`): the URL, the user agent and the `Accept` header have no effect on the model. Each attempt's outcome comes from the script.
- `sleep`: the requested delays are recorded, not waited for. Asynchrony and cancellation of the future are not modelled.
- `ConfigError` is defined in `src/errors.rs`, which is not part of this model. The `?` on the client build is taken to produce `ConfigError::Request`, like the read error. The reqwest error values the variants carry are dropped.
- `src/lib.rs` and `examples/examples.rs`: re-exports and a usage example, with no behaviour of their own.
- Listener.Listen: requires a script entry for each of the at most `max(1, max_retries)` attempts. Entries past the attempts actually made are never looked at (ListenerProperties.ListenIgnoresLaterOutcomes).
- Listener.Listen: runs in which a connect or a response body never finishes are not represented. The client built at src/listener.rs:50-52 sets no timeout, so `send().await` can wait forever, and an event-stream body normally stays open, in which case the call never returns while it keeps calling the handler. Every modelled attempt ends, and every modelled body ends cleanly or with a read error. For a body still open, the handler calls made so far are the `Deliveries` of the chunks read so far: this is the loop invariant of Listener.ReadStream, and Listener.DeliveriesAppend says that later chunks only append to them.
- Listener.Backoff: delays are exact powers of two. The source's `BASE_DELAY.pow(attempt)` on `u64` overflows from attempt 64 on (a panic in debug builds, wrap-around in release builds), and that arithmetic is not modelled. ListenerProperties.BackoffFitsU64 and ListenerProperties.BackoffLeavesU64 state where the two agree and where they part.
- `max_retries` and the attempt counter are `u32` in the source. Both are `nat` here: the counter never passes `max(1, max_retries)`, so it cannot overflow.

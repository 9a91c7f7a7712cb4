# Verified kernels of the gateway

cc-relay accepts requests from LLM clients and forwards them to one of several providers. This
project models the stateful kernels that decide what happens to a request, and proves what they
promise on every input and over every run:

- **Routing.** `WeightedRoundRobin` (exact proportionality of the smooth weighted round-robin),
  `LeastLoaded` (a scan for the minimum, conservation of the in-flight counters, balance) and
  `Shuffle` (every provider once before anyone twice).
- **Keys.** `KeySelectors` and `KeyPool`: the four selection strategies, the priority tiers around
  them, and the search for a key whose rate limiter admits the request.
- **Retries.** `Peek` (the writer that holds back a retryable answer), `RetryProtocol` (the
  three-level retry policy as a function of the environment's answers), `RetryEffort` (that it does
  not give up early) and `RetryLoops` (the buffered and the streaming loop, each proved to run that
  protocol).
- **Streams.** `Sse` (printing and parsing server-sent events), `EventStream` (AWS event-stream
  frames, two decoders), `EventStreamBody` (the chunk-fed reader), `EndToEnd` (frames in, events
  out) and `StreamConverter` (chat-completion chunks to response events).
- **Thinking blocks.** `Signatures`, `Conversation`, `ThinkingBlocks`, `ThinkingRewrite` and
  `ThinkingPasses`: dropping, re-signing and reordering thinking blocks without orphaning tool
  results.
- **Shared state.** `Limiter` (the compare-and-swap concurrency limiter under every interleaving)
  and `AuthCache` (the fingerprinted authenticator cache under every interleaving).

Each component has its behaviour as functions on values, theorems about those functions, and,
where the Go code updates fields or arrays in place, a class or loop proved equal to the functions.
`Options`, `Decimal`, `Lines`, `Randomness` and `Providers` hold what several modules share.

## Conventions

- Go strings and byte slices are sequences of characters; frames carry octets. Go integers are
  unbounded, except where a width matters: big-endian fields, `strconv.Atoi`, the wrapping
  round-robin index.
- CRC-32, Go's `%q` quoting, the truncated SHA-256 of the cache key and the JSON parser are
  function parameters: only that they are functions is used.
- Time is an integer fixed within a call; a cooldown that was never set is -1. A key's rate limiter
  is an oracle on its identifier, asked at most once per call. Capacity scores are exact.
- Random draws are a parameter: for each call any function from a bound to a number below it. What is
  proved holds for every outcome of the draws, and says which outcome leads to which result.
- A backend's answer is the list of header and body writes it makes, possibly none; it may depend
  on the attempt, the provider, the key and the body it was sent.
- The spare capacity of a Go slice is an arbitrary byte sequence behind it, so what is proved holds
  for every way a buffer grows.
- JSON bodies are messages with a role and content blocks. The signature cache is fixed while one
  request is handled.
- Where the code nests three loops, the model has one method per level.

## What the proofs found

- `checkReorderNeeded` (internal/proxy/thinking.go:342-346) compares only the first positions of
  thinking and other blocks, so `[thinking, text, thinking]` is not reordered. `ThinkingFirstIff`
  says exactly when the result has its thinking first.
- The request pass is not idempotent even when every signature is valid: dropping all thinking
  before the first other block can leave a reorder for the next pass. `IdempotentIff` and
  `IdempotentWhenValid` give the exact condition, `NotIdempotent` an instance.
- A prefixed signature parses back exactly when the model group contains no `#`
  (`PrefixRoundTrip`); a group is the whole model name for an unknown family.
- The client receives the same answer from both retry loops in every run with an attempt. (For a
  backend that writes nothing the streaming loop writes nothing either, and net/http sends the 200
  that the buffered loop writes.) Without an attempt they differ in the text of the local error
  (internal/proxy/handler.go:859, internal/proxy/handler.go:1050).
- A complete frame that is refused stops the buffered decoder for good, while the reader loop skips
  it. `DecodersAgree` says for which streams the two emit the same messages. The reader loop takes
  a stream that ends right after a prelude for a clean end (`CutFrame`).
- The frame parser has no check that the header length fits the frame. Such a frame makes it slice
  out of range: always beyond the capacity of its buffer, and within it unless the bytes covered
  fail to read as headers (`ParseMessageIs`). `PanicsIff` and `CrashingFrame` give the frames that
  crash the reader loop; in the buffered decoder it depends on how far the buffer has grown.
- The SSE parser keeps the fields of an event across a blank line without data, unlike section
  9.2.6 of the WHATWG HTML Standard. `LeaksUnlessSetAgain` says exactly when it shows.
- The sentinel -1 of the least-loaded scan is right unless the minimum load is -1 and stands before
  the end (`SentinelExact`); conservation rules that out.
- A chunk of exactly seven bytes passes the length check of `ProcessChunk` and then slices
  backwards (`SlicesBackwardsIff`). After `[DONE]` without a finish reason, function calls get no
  done event (`DoneMatchesAdded`). Arguments that arrive without an id, as all but the first piece
  do, are passed on with an empty item id (`ArgumentsPassThrough`).
- Lowering the concurrency limit binds neither the slots already taken nor an acquire that already
  read the old limit. `CurrentLimitBindsIff` says exactly when the current limit is a bound.

## Model

| member | source | states |
|---|---|---|
| `WeightedRoundRobin.NextBalanced` | internal/router/weighted_round_robin.go:60-82 | a round keeps the current weights summing to zero and each above minus the total weight |
| `WeightedRoundRobin.Ledger` | internal/router/weighted_round_robin.go:63-80 | after k rounds a current weight is its start plus k times its weight minus the total for each pick of that provider |
| `WeightedRoundRobin.Proportional` | internal/router/weighted_round_robin.go:52-82 | after every number of picks from zero weights, each provider's share is at most W-1 above and (n-1)(W-1) below its exact proportion, in units of 1/W |
| `WeightedRoundRobin.PickCountsSum` | internal/router/weighted_round_robin.go:69-80 | every round picks exactly one provider: the pick counts add up to the number of rounds |
| `WeightedRoundRobin.ExactPeriod` | internal/router/weighted_round_robin.go:52-82 | W picks from zero weights choose each provider exactly as often as its weight and bring every current weight back to zero |
| `WeightedRoundRobin.EveryWindow` | internal/router/weighted_round_robin.go:52-82 | the same holds for every window of W consecutive picks, wherever it starts |
| `WeightedRoundRobin.RouterFollowsAlgorithm` | internal/router/weighted_round_robin.go:39-112 | whatever happened before, once the healthy list has another length or another name somewhere, the router's successive answers are the picks of the algorithm from zero weights |
| `WeightedRoundRobin.RouterServesWeights` | internal/router/weighted_round_robin.go:39-112 | once the healthy list has another length or another name somewhere, the next W answers of the router name each provider exactly as often as its configured weight, or once if none is configured |
| `WeightedRoundRobin.RouterCarriesWeights` | internal/router/weighted_round_robin.go:52-126 | while length and names agree the weights are carried on: the first provider with the highest raised weight is the answer and alone pays the total |
| `WeightedRoundRobin.WeightedRoundRobinRouter.Select` | internal/router/weighted_round_robin.go:39-83 | the answer and the new weights and names are those of the algorithm, for empty, all-unhealthy and ordinary lists |
| `WeightedRoundRobin.WeightedRoundRobinRouter.AddWeights` | internal/router/weighted_round_robin.go:64-67 | every current weight grows by the effective weight of its provider |
| `WeightedRoundRobin.WeightedRoundRobinRouter.FindMax` | internal/router/weighted_round_robin.go:69-77 | the index found is the first one that holds the maximum |
| `LeastLoaded.SentinelExact` | internal/router/least_loaded.go:37-49 | the scan finds exactly the positions of the minimum load if and only if the minimum is not -1 or no -1 stands before the end |
| `LeastLoaded.TiesAreBest` | internal/router/least_loaded.go:37-68 | with no negative counter, the providers the random choice is between are exactly the healthy ones of least load and, among those, highest priority |
| `LeastLoaded.Sorts` | internal/router/failover.go:76-83 | the sort is descending in priority, keeps every element, and keeps the order within each priority |
| `LeastLoaded.PriorityTies` | internal/router/least_loaded.go:52-60 | the leading run of a sorted list is every provider of its highest priority |
| `LeastLoaded.LeastLoadedRouter.GetCounter` | internal/router/least_loaded.go:86-96 | an unknown name gets a counter at zero, a known one keeps its value |
| `LeastLoaded.LeastLoadedRouter.Lightest` | internal/router/least_loaded.go:37-49 | the loop over counters, with counters created on the way, gives the positions of the scan and changes no load |
| `LeastLoaded.LeastLoadedRouter.Select` | internal/router/least_loaded.go:27-69 | the answer is the tied provider that the draw names, or the right error, and every counter reads as before |
| `LeastLoaded.LeastLoadedRouter.Acquire` | internal/router/least_loaded.go:77-79 | one counter goes up by one, no other changes |
| `LeastLoaded.LeastLoadedRouter.Release` | internal/router/least_loaded.go:82-84 | one counter goes down by one, no other changes |
| `LeastLoaded.CountersConserved` | internal/router/least_loaded.go:77-96 | over every interleaving of requests each counter equals the number of requests that took the provider and have not let it go |
| `LeastLoaded.HoldsUntilDropped` | internal/router/least_loaded.go:77-84 | each acquisition of a run is a request that holds the provider it named until its own release |
| `LeastLoaded.AlwaysBest` | internal/router/least_loaded.go:27-69 | so in every state such a run reaches the router chooses between exactly the best providers |
| `LeastLoaded.BestAmidOthers` | internal/router/least_loaded.go:37-68 | with each counter read at its own moment of a run, the choice is between exactly the providers of least load as read and, among those, highest priority |
| `LeastLoaded.Balanced` | internal/router/least_loaded.go:27-79 | from rest with all providers healthy, a run of select-then-acquire keeps the loads of any two providers within one of each other |
| `Shuffle.DeckInRange` | internal/router/shuffle.go:69-72 | every entry of a deck is an index into a list of its size |
| `Shuffle.Dealt` | internal/router/shuffle.go:69-72 | the position dealt lies inside the current healthy list, whatever its size was before |
| `Shuffle.AlwaysFits` | internal/router/shuffle.go:45-90 | however the number of healthy providers changes, the order stays a rearrangement of 0 to lastLen-1 and the position inside it, and lastLen is the last number seen |
| `Shuffle.DealsByDeck` | internal/router/shuffle.go:60-72 | after q whole decks and r more deals, the r deals are the start of the deck shuffled last, so every block of n deals is one whole deck |
| `Shuffle.WholeDecks` | internal/router/shuffle.go:60-72 | after q whole decks from a reshuffle every provider was dealt exactly q times |
| `Shuffle.FairDeal` | internal/router/shuffle.go:45-73 | with a constant number of healthy providers the deal counts of any two never differ by more than one |
| `Shuffle.FisherYates` | internal/router/shuffle.go:84-85 | shuffling in place swaps, from the back, each element with the one drawn |
| `Shuffle.EveryDeckOnce` | internal/router/shuffle.go:77-90 | a reshuffle can make every deck, and each by one sequence of draws only, so fair draws make all orders equally likely |
| `Shuffle.EveryOrder` | internal/router/shuffle.go:84-85 | some draws shuffle a list into any given rearrangement of it |
| `Shuffle.OrderTellsDraws` | internal/router/shuffle.go:84-85 | of distinct elements, two sequences of draws that give the same order are the same |
| `Shuffle.ShuffledKeeps` | internal/router/shuffle.go:84-85 | shuffling rearranges the list |
| `Shuffle.ShuffleRouter.Reshuffle` | internal/router/shuffle.go:77-90 | a new deck of the given size, made by the draws, position zero, length remembered |
| `Shuffle.ShuffleRouter.Select` | internal/router/shuffle.go:45-73 | the provider returned and the new state are those of the deal; errors change nothing |
| `Providers.FilterHealthy` | internal/router/router.go:89-93 | exactly the healthy providers of the list |
| `Providers.FilterKeepsOrder` | internal/router/router.go:89-93 | filtering a list piece by piece gives the filtered pieces in order |
| `KeySelectors.KeyIdInjective` | internal/keypool/key.go:50-55 | keys at different positions get different identifiers, even for equal secrets |
| `KeySelectors.KeyMetadata.constructor` | internal/keypool/key.go:50-77 | a new key is healthy, past its cooldown, of priority and weight one, with full limits |
| `KeySelectors.ScoreMeans` | internal/keypool/key.go:82-111 | the capacity score of an available key is never negative, is 0 exactly when both limits are used up, and is at most 1 exactly when the shares that remain allow it, which response headers can break |
| `KeySelectors.ScoreIs` | internal/keypool/key.go:82-111 | the exact score of a key: 0 out of service, otherwise the mean of the remaining request and token shares, a missing limit counting as a whole share |
| `KeySelectors.UnlimitedIsBest` | internal/keypool/key.go:82-111 | no key within its limits scores higher than a key without limits, which scores 1 |
| `KeySelectors.ScoreGrows` | internal/keypool/key.go:82-111 | between keys of the same limits the score grows strictly with whatever remains |
| `KeySelectors.AvailableAt` | internal/keypool/weighted.go:23-25 | the available keys are listed once each and in their order |
| `KeySelectors.SelectLeastLoaded` | internal/keypool/least_loaded.go:18-39 | the first of the available keys of highest capacity score, or the right error |
| `KeySelectors.SelectWeighted` | internal/keypool/weighted.go:18-49 | the available key in whose share of the total weight the roll falls, or the right error |
| `KeySelectors.FindRoll` | internal/keypool/weighted.go:40-46 | the scan that subtracts weights always ends at the key whose share holds the roll |
| `KeySelectors.RollHasOneKey` | internal/keypool/weighted.go:38-48 | no roll belongs to two keys |
| `KeySelectors.RollsPerKey` | internal/keypool/weighted.go:30-48 | over all rolls each available key is chosen exactly as often as its configured weight, or once if it has none, and any other key never |
| `KeySelectors.SelectRandom` | internal/keypool/random.go:18-33 | the available key that the draw names, or the right error |
| `KeySelectors.KeySelector.SelectRoundRobin` | internal/keypool/round_robin.go:19-46 | the first available key in cyclic order from the counter, which advances once per call and wraps at 64 bits |
| `KeySelectors.KeySelector.Select` | internal/keypool/selector.go:36-50 | each strategy keeps its own promise: first of highest score, first in turn, holder of the roll, or the key drawn; only round robin moves the counter |
| `KeyPool.SortDescending` | internal/keypool/priority_tier.go:44-48 | the tier levels strictly descending, none lost |
| `KeyPool.GroupByPriority` | internal/keypool/priority_tier.go:38-47 | one tier per priority that occurs, holding its keys in order |
| `KeyPool.PriorityTierSelector.Select` | internal/keypool/priority_tier.go:33-62 | a key if and only if some key is available, and then one of the highest priority among the available ones, whichever strategy is inside; with the least-loaded strategy it has the highest score of that priority |
| `KeyPool.NewKeys` | internal/keypool/pool.go:87-118 | one key per configuration entry with its limits, priority and weight defaults, and pairwise different identifiers |
| `KeyPool.RemoveOne` | internal/keypool/pool.go:177-180 | removing by identifier removes exactly one key of a pool |
| `KeyPool.Pool.constructor` | internal/keypool/pool.go:66-127 | the pool holds the configured keys, and its index finds each of them under its identifier |
| `KeyPool.Pool.GetKey` | internal/keypool/pool.go:132-189 | a key is returned exactly when some key is healthy, past cooldown and admitted by its limiter; it has the highest priority among those; no limiter is asked twice and every key asked in vain refused |
| `KeyPool.Pool.MarkKeyExhausted` | internal/keypool/pool.go:234-256 | only the cooldown of that key changes; an unknown identifier changes nothing |
| `KeyPool.Pool.MarkKeyUnhealthy` | internal/keypool/pool.go:262-282 | only the health of that key changes, to unhealthy |
| `KeyPool.Pool.MarkKeyHealthy` | internal/keypool/pool.go:285-300 | only the health of that key changes, to healthy |
| `KeyPool.ExhaustThenGet` | internal/keypool/pool.go:132-256 | a key told to wait, with no other to take its place, is returned exactly when its waiting time is over, and before that the pool is exhausted |
| `Peek.PeekWriter.WriteHeader` | internal/proxy/peek_writer.go:44-55 | the writer commits exactly when the first status is neither 429 nor 403, and then sends that status; until then the client sees nothing |
| `Peek.PeekWriter.Write` | internal/proxy/peek_writer.go:57-68 | a first write without a header sends status 200; once committed, bytes reach the client exactly once and in order |
| `Peek.PeekWriter.Commit` | internal/proxy/peek_writer.go:99-121 | the first commit sends one status line and the held bytes, a second one sends nothing |
| `Peek.PeekWriter.FlushBuffered429` | internal/proxy/peek_writer.go:91-96 | a held answer is forwarded whole; an empty one is not forwarded |
| `Peek.PeekWriter.Serve` | internal/proxy/peek_writer.go:44-68 | after any script of writes the writer has committed exactly when the script does something and does not begin with a 429 or 403 |
| `RetryProtocol.AttemptsBounded` | internal/config/config.go:176-222 | no run makes more attempts than the configured total, nor more than the product of the three levels, each read from the configuration with its default |
| `RetryProtocol.RunShape` | internal/proxy/handler.go:688-860 | every attempt but the last was answered 429 or 403, and the client gets the last attempt's answer exactly when an attempt was made |
| `RetryProtocol.DefaultBound` | internal/config/config.go:176-222 | an unset configuration makes at most five attempts |
| `RetryProtocol.RunFaithful` | internal/proxy/handler.go:758-826 | every attempt carries the answer of the backend asked to the body it was sent: the body as it is in the first round, later the stripped original if there is thinking to strip |
| `RetryProtocol.SwitchStrips` | internal/proxy/handler.go:771-778 | over every run, an attempt at any provider but the first is sent the original body stripped of thinking |
| `RetryProtocol.SelectsEligible` | internal/proxy/retry.go:169-219 | a routed provider is a candidate with keys that was not excluded, and one is found exactly when there is one, unless the router refuses |
| `RetryProtocol.RouterChooses` | internal/proxy/retry.go:187-219 | where thinking affinity does not apply, the answer is the router's choice among all eligible candidates in their order |
| `RetryProtocol.FirstUntried` | internal/proxy/retry.go:222-243 | a key slot takes the first of three draws that gives an untried key, and goes without when the pool runs dry before that or all three were tried |
| `RetryProtocol.ThinkingStays` | internal/proxy/handler.go:540-552 | a request with thinking goes to the first candidate that is eligible and healthy, whichever the router would prefer |
| `RetryProtocol.SameKeyAdds` | internal/proxy/handler.go:746-826 | the same-key level tries one key of one provider only, goes on only after 429, and ends the request only with a status that is not retryable |
| `RetryProtocol.KeyAdds` | internal/proxy/handler.go:722-834 | the key level stays with one provider and one round and ends the request only with a status that is not retryable |
| `RetryProtocol.NoProviderTwice` | internal/proxy/retry.go:193-219 | with a router, attempts at the same provider all belong to one round |
| `RetryProtocol.PooledKeyQuota` | internal/proxy/retry.go:222-243 | a key of a pool gets at most one attempt more than the same-key retries, over the whole run |
| `RetryProtocol.StreamingRefinesBuffered` | internal/proxy/handler.go:892-1051 | in every run with an attempt the client receives the same status and body from both loops; without one, the same status, and the same body exactly when the local error texts agree |
| `RetryEffort.NeverGivesUpEarly` | internal/proxy/handler.go:688-860 | a request that ends on 429 or 403, or unanswered, has made the configured number of attempts, or every round went to the selected provider and gave each key slot all its attempts, a 403, or no untried key, and rounds are missing only where selection or the proxy failed; without an attempt the client reads 500 exactly when it was the proxy |
| `RetryEffort.UsesEveryAttempt` | internal/config/config.go:176-222 | when every answer is 429 and providers and new keys never run out, the number of attempts is exactly the smaller of the configured total and the product of the three levels |
| `RetryLoops.RetryContext.RecordAttempt` | internal/proxy/retry.go:60-76 | the attempt is appended and counted, its provider listed once |
| `RetryLoops.RetryContext.SelectKeyFromPoolExcluding` | internal/proxy/retry.go:222-243 | the first of at most three draws that is not excluded, or none |
| `RetryLoops.RetryContext.CanRetryNow` | internal/proxy/retry.go:56-58 | true exactly while fewer attempts than the total were made |
| `RetryLoops.RetryContext.IsTransient429` | internal/proxy/retry.go:113-118 | true whenever no error category was recorded |
| `RetryLoops.BufferedSameKey` | internal/proxy/handler.go:746-826 | the innermost buffered loop runs the same-key level of the protocol and writes only when it ends the request |
| `RetryLoops.BufferedKeys` | internal/proxy/handler.go:722-834 | the middle buffered loop runs the key level |
| `RetryLoops.ServeWithRetry` | internal/proxy/handler.go:663-860 | the buffered loop makes exactly the protocol's attempts and writes exactly one status and body, the last attempt's or a local error |
| `RetryLoops.StreamAttempt` | internal/proxy/handler.go:981-1002 | an attempt ends the request unless its status is retryable; then its answer is held and the client has seen nothing |
| `RetryLoops.StreamingSameKey` | internal/proxy/handler.go:948-1021 | the innermost streaming loop runs the same-key level; nothing is attempted after an answer was forwarded |
| `RetryLoops.StreamingKeys` | internal/proxy/handler.go:927-1028 | the middle streaming loop runs the key level |
| `RetryLoops.ServeStreamingWithRetry` | internal/proxy/handler.go:870-1051 | the streaming loop makes exactly the protocol's attempts and delivers what the streaming policy prescribes |
| `RetryLoops.ServeRequest` | internal/proxy/handler.go:601-624 | whichever loop serves a request, the client receives exactly one status and, once an attempt was made, the answer of the buffered loop |
| `Sse.RoundTripAll` | internal/proxy/sse_stream.go:50-70 | parsing the concatenated text of printable events emits exactly those events |
| `Sse.RoundTripIff` | internal/proxy/sse_stream.go:122-231 | a list of events survives printing and parsing exactly when each of them has data, a retry that is not negative, name and id on one line, and no line ending in a carriage return |
| `Sse.PrintParseAll` | internal/proxy/sse_stream.go:122-231 | events with data and one-line names come back in order, each short of one trailing carriage return per line |
| `Sse.FieldLine` | internal/proxy/sse_stream.go:180-224 | a printed field line sets exactly that field |
| `Sse.TightFieldLine` | internal/proxy/sse_stream.go:195-210 | the space behind the colon is optional |
| `Sse.CommentLine` | internal/proxy/sse_stream.go:180-192 | a comment line changes nothing |
| `Sse.BareFieldLine` | internal/proxy/sse_stream.go:195-224 | a line without a colon is a field with an empty value: it adds an empty data line, clears the event name or the id, and leaves the retry |
| `Sse.UnfinishedCounts` | internal/proxy/sse_stream.go:122-178 | a stream that stops inside a line or before the blank line of its last event emits the same events as if it had been finished |
| `Sse.LineEndingsAgree` | internal/proxy/sse_stream.go:151-154 | a stream with CR LF line endings is parsed like the same stream with LF endings |
| `Sse.PrintedAll` | internal/proxy/sse_stream.go:122-231 | the parser on every list of printed events with one-line names and ids, from any fields it already holds: fields of an event without data pass to the next event that does not set them |
| `Sse.LeaksUnlessSetAgain` | internal/proxy/sse_stream.go:157-166 | an event without data leaves the next one as it would arrive alone exactly when each field it set is empty after trimming or set again |
| `Sse.EventString` | internal/proxy/sse_stream.go:50-70 | the buffer loop writes the wire form of the event |
| `Sse.SseParser.ParseStream` | internal/proxy/sse_stream.go:122-132 | reading line by line to the end, with or without a final newline, emits the events of the text and completes |
| `Sse.SseParser.DoProcessLine` | internal/proxy/sse_stream.go:135-148 | one line is a blank line, a comment or a field |
| `Sse.SseParser.EmitEventIfReady` | internal/proxy/sse_stream.go:157-166 | data lines become one event and the parser starts over; without data nothing changes |
| `Sse.SseParser.DoSetField` | internal/proxy/sse_stream.go:213-231 | the named field is set; unknown fields and unreadable retries change nothing |
| `Decimal.TextRoundTrip` | internal/proxy/sse_stream.go:58-60 | the decimal text of a number reads back as that number |
| `Decimal.AtoiText` | internal/proxy/sse_stream.go:227-231 | a printed retry is read back exactly when it fits 64 bits |
| `Decimal.AtoiSigned` | internal/proxy/sse_stream.go:227-231 | a sign in front is read, and one negative number more fits |
| `Decimal.AtoiRefuses` | internal/proxy/sse_stream.go:227-231 | anything but digits behind at most one sign is refused |
| `Lines.JoinSplit` | internal/proxy/sse_stream.go:61-67 | joining the lines of a text gives the text |
| `EventStream.Be32RoundTrip` | internal/providers/eventstream.go:106-127 | a big-endian length field reads back as written |
| `EventStream.Be32Is` | internal/providers/eventstream.go:106-127 | a length field is read with its most significant byte first |
| `EventStream.ParseEventStreamHeaders` | internal/providers/eventstream.go:147-176 | the offset loop gives the header map of the block, or fails where it fails |
| `EventStream.HeaderIs` | internal/providers/eventstream.go:179-284 | for every header type where its value ends, that only strings have one, and that no other type is known |
| `EventStream.HeaderRoundTrip` | internal/providers/eventstream.go:179-284 | an encoded header of any type is read at its place, ends where it ends, and has a value exactly if it is a string |
| `EventStream.HeadersRoundTrip` | internal/providers/eventstream.go:147-176 | an encoded header block gives back its string headers, later names winning, and skips all other types |
| `EventStream.FrameRoundTrip` | internal/providers/eventstream.go:70-103 | parsing an encoded frame followed by anything returns its string headers and payload and consumes exactly the frame |
| `EventStream.ParsedIff` | internal/providers/eventstream.go:70-141 | the byte sequences that parse are exactly those that begin with an intact frame: consistent lengths, both checksums right, readable headers |
| `EventStream.ParsedIsIntact` | internal/providers/eventstream.go:70-141 | what the parser consumed is, byte for byte, the documented layout of its headers and payload |
| `EventStream.CutFrame` | internal/providers/eventstream.go:363-388 | a stream cut inside a frame ends the reader loop with an error, except right behind the prelude, where it counts as a clean end; the buffered decoder keeps the piece |
| `EventStream.ParseMessageIs` | internal/providers/eventstream.go:70-103 | what a call of the parser does for every capacity of its slice: it returns the verdict on the first frame, unless the header length overruns that frame; then it panics or reports bad headers, exactly as stated, and never returns a message |
| `EventStream.ParseStable` | internal/providers/eventstream.go:70-141 | appending bytes and growing the buffer never change what a call returns, unless it was that bytes are missing or the header length overruns the frame |
| `EventStream.ParseLocal` | internal/providers/eventstream.go:70-141 | the verdict on a complete frame does not look past it |
| `EventStream.DecodeAppend` | internal/proxy/provider_proxy.go:319-328 | greedy decoding of a stream is decoding its first part and then what that leaves over with the rest |
| `EventStream.ReaderExtendsDecoder` | internal/providers/eventstream.go:329-388 | the reader loop emits what the buffered decoder emits and then whatever it finds, an error or a panic included, behind the point where that one stops |
| `EventStream.DecodersAgree` | internal/providers/eventstream.go:329-420 | with the stream cut into frames by its length fields, both decoders emit the same messages exactly when no intact frame stands behind a complete one that is not, unless a frame on which the parser panics comes before it |
| `EventStream.RefusedFrameSplitsDecoders` | internal/providers/eventstream.go:363-388 | a complete frame that is not intact ends the buffered decoder for good; the reader loop carries on behind it, or crashes if the parser panics on it |
| `EventStream.PanicsIff` | internal/providers/eventstream.go:81-97 | exactly which complete frames crash the reader loop: intact checksums, a header length larger than the frame leaves room for, and either past the end of the frame or covering bytes that read as headers |
| `EventStream.CrashingFrame` | internal/providers/eventstream.go:81-97 | for every checksum function, payload and overlong header length there is such a frame |
| `EventStream.FormatSSEEvent` | internal/providers/eventstream.go:452-472 | the line loop writes the event name, one data line per payload line and a blank line |
| `EventStream.ProcessEventStream` | internal/providers/eventstream.go:329-420 | the reader loop writes the rendering of its messages and ends cleanly, with an error or in a panic as specified |
| `EventStreamBody.EventStreamToSseBody.Read` | internal/proxy/provider_proxy.go:277-297 | each read delivers a non-empty piece of the pending output that fits the buffer; end of file only when nothing is pending; no error if the backend only brings data and its end, and no panic without an overrunning frame |
| `EventStreamBody.EventStreamToSseBody.ReadAndBuffer` | internal/proxy/provider_proxy.go:299-317 | one chunk is taken and changes nothing of what is still to be delivered; the error is the one that chunk stands for |
| `EventStreamBody.EventStreamToSseBody.ParseEventStreamBuffer` | internal/proxy/provider_proxy.go:319-328 | every complete frame of the raw buffer is rendered in order and the rest stays; for any capacity of the buffer it panics only on an overrunning frame |
| `EventStreamBody.Drain` | internal/proxy/provider_proxy.go:277-328 | for every backend whose reads bring data or the end, every stream without an overrunning frame, and all non-empty buffer sizes, the caller reaches end of file with exactly the rendering of greedily decoding the whole body |
| `EventStreamBody.IncrementalIsGreedy` | internal/proxy/provider_proxy.go:299-328 | decoding chunk by chunk emits what decoding everything at once emits |
| `EventStreamBody.ChunkingDoesNotMatter` | internal/proxy/provider_proxy.go:277-328 | two ways of cutting the same bytes into chunks emit the same messages, up to an overrunning frame if there is one |
| `EndToEnd.FormatRoundTrip` | internal/providers/eventstream.go:452-472 | for every type and payload, empty ones included, a formatted event parses back exactly when the type is one line and no line ends in a carriage return |
| `EndToEnd.StreamDecodes` | internal/proxy/provider_proxy.go:319-328 | a concatenation of encoded frames decodes to their messages with nothing left, and the reader loop finds the same messages and a clean end |
| `EndToEnd.FrameParses` | internal/providers/eventstream.go:493-518 | a rendered frame parses to its event, an exception to an error event, a frame without a type to nothing |
| `EndToEnd.EventsArriveInOrder` | internal/providers/eventstream.go:493-510 | encoded frames, exceptions and untyped ones included, cut into any chunks, decoded, rendered and parsed as server-sent events, arrive as their events, each once and in order |
| `Signatures.PrefixRoundTrip` | internal/proxy/thinking.go:639-651 | a prefixed signature parses back to itself exactly when the model group contains no `#` |
| `Signatures.GroupsAreStable` | internal/proxy/signature_cache.go:32-44 | a model group is its own group, and lower-casing a model name lower-cases its group |
| `Signatures.GroupIs` | internal/proxy/signature_cache.go:32-44 | a model belongs to the first of claude, gpt and gemini that its name contains in any capitalisation, and to itself otherwise |
| `Signatures.SignatureCache.Get` | internal/proxy/signature_cache.go:70-84 | the cache answers nothing or a signature valid for the model |
| `Signatures.SignatureCache.Set` | internal/proxy/signature_cache.go:88-103 | only a valid signature is stored, under the group and the text |
| `Signatures.SetThenGet` | internal/proxy/signature_cache.go:70-103 | a valid signature comes back to every model of the same group and every text of the same hash; any other question is answered as before |
| `Conversation.OrphanCheckStable` | internal/proxy/thinking.go:429-450 | the orphan check gives the same answer on a body whose assistant messages were already edited |
| `Conversation.OrphanCheckExact` | internal/proxy/thinking.go:429-450 | in an alternating conversation, deleting an assistant message strands tool results or breaks the alternation exactly when the check says so |
| `Conversation.DropMessagesByIndex` | internal/proxy/thinking.go:371-384 | deleting the listed messages from the back leaves exactly the others in order |
| `Conversation.ToolResultsStay` | internal/proxy/thinking.go:429-450 | under any plan that asks the orphan check before each drop, a message with tool results still directly follows its assistant message |
| `Conversation.AlternationStays` | internal/proxy/thinking.go:429-450 | under any such plan an alternating conversation stays alternating |
| `ThinkingBlocks.ReorderSelects` | internal/proxy/thinking.go:529-542 | reordering keeps the order within the thinking blocks and within the others |
| `ThinkingBlocks.ReorderFixed` | internal/proxy/thinking.go:529-542 | reordering puts thinking first and changes nothing exactly when it was first |
| `ThinkingBlocks.ResolvesTo` | internal/proxy/thinking.go:304-339 | a client signature is cut behind its first `#`, taken as it is if it is valid, and otherwise looked up in the cache |
| `ThinkingBlocks.OthersSurvive` | internal/proxy/thinking.go:388-416 | every block that is not a thinking block survives in order, tool uses without their signature; the thinking blocks kept are those with a resolvable signature |
| `ThinkingBlocks.ThinkingFirstIff` | internal/proxy/thinking.go:342-346 | the result has its thinking blocks first exactly when the content begins with another block, or no thinking block with a resolvable signature stands behind another block |
| `ThinkingBlocks.FastPathEqualsSlowPath` | internal/proxy/thinking.go:265-295 | with nothing dropped, editing signatures in place gives the same content as rebuilding it |
| `ThinkingBlocks.UnkeptCounts` | internal/proxy/thinking.go:185-193 | the count of kept blocks is the length of the rebuilt content |
| `ThinkingBlocks.SecondPassIff` | internal/proxy/thinking.go:220-261 | a second pass leaves the content alone exactly when every resolved signature resolves to itself and it is not the case that the content begins with thinking, no signature resolves before the first other block, and one does behind it |
| `ThinkingBlocks.ResponseRoundTrip` | internal/proxy/thinking.go:304-339 | for every cache, a fully signed response sent back gets all its signatures and blocks back exactly when the group has no `#`, and is then only reordered and stripped of tool-use signatures |
| `ThinkingBlocks.ReorderMissesLaterThinking` | internal/proxy/thinking.go:342-346 | a concrete content that is left with thinking after text |
| `ThinkingBlocks.NotIdempotent` | internal/proxy/thinking.go:60-117 | a concrete content that a second pass changes |
| `ThinkingRewrite.RequestKeepsToolResults` | internal/proxy/thinking.go:79-114 | in the request pass every tool-result message that followed an assistant message still directly follows that one |
| `ThinkingRewrite.RequestKeepsAlternation` | internal/proxy/thinking.go:79-114 | a strictly alternating conversation stays strictly alternating |
| `ThinkingRewrite.RequestKeepsOtherBlocks` | internal/proxy/thinking.go:220-261 | every tool use and text of an assistant message survives, in order, in the same message, changed only in that a tool use loses its signature |
| `ThinkingRewrite.RequestDropsEmptied` | internal/proxy/thinking.go:232-247 | a message that keeps no block is dropped, unless the orphan check forbids it; then its content is one empty text |
| `ThinkingRewrite.BlocksConserved` | internal/proxy/thinking.go:388-416 | over any conversation, assistant blocks in equal assistant blocks out without placeholders plus the dropped blocks |
| `ThinkingRewrite.PassIsIdentityIff` | internal/proxy/thinking.go:60-117 | the pass changes nothing exactly when every message is in final form |
| `ThinkingRewrite.IdempotentIff` | internal/proxy/thinking.go:60-117 | a second pass changes nothing exactly when, in every message of the input that keeps a block, both conditions of the single-message result hold |
| `ThinkingRewrite.IdempotentWhenValid` | internal/proxy/thinking.go:304-346 | with all resolved signatures valid and free of `#`, the pass is idempotent exactly when no message of the input begins with thinking none of which resolves before its first other block and has a resolving one behind it |
| `ThinkingRewrite.StripKeepsToolResults` | internal/proxy/thinking.go:754-826 | the provider-switch pass keeps tool results directly behind their assistant message |
| `ThinkingRewrite.StripKeepsAlternation` | internal/proxy/thinking.go:754-826 | it keeps strict alternation |
| `ThinkingRewrite.StripKeepsOtherBlocks` | internal/proxy/thinking.go:754-826 | it leaves exactly the other blocks of each message that has any |
| `ThinkingRewrite.StripDropsOnlyThinking` | internal/proxy/thinking.go:754-826 | a message of nothing but thinking is dropped, unless the orphan check forbids it; then its content is one empty text |
| `ThinkingRewrite.StripIsComplete` | internal/proxy/thinking.go:714-750 | nothing of the old provider's thinking remains, and stripping again changes nothing |
| `ThinkingPasses.AnalyzeContentBlocks` | internal/proxy/thinking.go:142-177 | the scan finds each thinking block with its resolved signature and each signed tool use |
| `ThinkingPasses.CountKeptBlocks` | internal/proxy/thinking.go:185-193 | the count is the number of blocks less the thinking blocks without signature |
| `ThinkingPasses.CollectBlocks` | internal/proxy/thinking.go:388-416 | the loop keeps and re-signs the right blocks and counts each dropped one |
| `ThinkingPasses.ReorderBlocks` | internal/proxy/thinking.go:529-542 | the two loops give the stable partition |
| `ThinkingPasses.SurgicalUpdate` | internal/proxy/thinking.go:265-295 | the in-place edits touch exactly the listed signatures |
| `ThinkingPasses.RebuildContent` | internal/proxy/thinking.go:196-218 | the rebuilt content, its reordering and the counters |
| `ThinkingPasses.ProcessAssistantContent` | internal/proxy/thinking.go:220-261 | whichever path is taken, one message is edited as specified, dropped as specified, and counted |
| `ThinkingPasses.ProcessRequestThinking` | internal/proxy/thinking.go:60-117 | the whole body is the plan carried out, with the counters of the pass |
| `ThinkingPasses.StripThinkingFromMessages` | internal/proxy/thinking.go:754-826 | the loop over the body it is editing yields the stripped messages and the indexes to drop |
| `ThinkingPasses.StripThinkingForProviderSwitch` | internal/proxy/thinking.go:714-750 | the thinking setting goes and the messages are stripped |
| `ThinkingPasses.ProcessNonStreamingResponse` | internal/proxy/thinking.go:655-700 | each signed thinking block of a response is prefixed, nothing else changes, and the cache learns each valid signature under its text |
| `ThinkingPasses.CacheRestores` | internal/proxy/thinking.go:304-339 | a thinking block with text and a valid signature that returns without it, to any model of the same group, gets the original one back from the cache |
| `ThinkingPasses.NothingElseLearnt` | internal/proxy/thinking.go:655-700 | any other text is recalled as before the response, as nothing if the cache did not know it |
| `ThinkingPasses.LastSignatureIs` | internal/proxy/thinking.go:142-177 | the signature tracked after a message is that of its last thinking block whose signature resolves, or the one before it |
| `ThinkingPasses.CurrentSignatureIs` | internal/proxy/thinking.go:66-104 | after any number of messages it is that of the last such block of all assistant messages, and empty before the first |
| `ThinkingPasses.LastReorderedIs` | internal/proxy/thinking.go:196-261 | the reorder flag is that of the last message that had to be rebuilt, told from the types and signatures of its blocks |
| `Limiter.CounterIsHolders` | internal/proxy/middleware.go:574-599 | under every interleaving the counter is the number of slots held, so never negative |
| `Limiter.LimitReadIsKept` | internal/proxy/middleware.go:574-593 | an acquire that read limit L is refused exactly when L or more slots are held at its load, and never succeeds by moving the counter above L |
| `Limiter.ReleaseFrees` | internal/proxy/middleware.go:597-599 | a release leaves one slot less held and one less counted |
| `Limiter.LimitsReadArePositive` | internal/proxy/middleware.go:574-593 | under every interleaving a goroutine in the loop compares against a positive limit |
| `Limiter.NoLimitAdmits` | internal/proxy/middleware.go:574-580 | a goroutine that starts to acquire under a limit of 0 or less has its slot after its next operation, whatever the counter says and the others do in between |
| `Limiter.NeverAboveLargestLimit` | internal/proxy/middleware.go:557-599 | while all limits stored are positive, no more slots are held than the largest limit stored so far |
| `Limiter.FillsUp` | internal/proxy/middleware.go:557-593 | whatever positive limits are stored, some interleaving ends with as many slots held as there are goroutines or as the largest limit allows, so the bound is reached |
| `Limiter.CurrentLimitBindsIff` | internal/proxy/middleware.go:557-593 | every interleaving with these stores ends within the limit then in force exactly when no stored limit was larger than it, or there are no more goroutines than it allows |
| `Limiter.LoweringIsNotRetroactive` | internal/proxy/middleware.go:557-593 | the smallest instance: two slots held under the limit 1, the second taken after it was stored |
| `Limiter.LockFree` | internal/proxy/middleware.go:582-592 | with n goroutines the failed swaps number at most n-1 per slot taken or released: retries are paid for by progress |
| `Limiter.ConcurrencyLimiter.SetLimit` | internal/proxy/middleware.go:557-559 | storing a limit is one step of the machine |
| `Limiter.ConcurrencyLimiter.TrySwap` | internal/proxy/middleware.go:582-592 | one round of the loop, interrupted before each of its two operations, is a run of the machine and fails only if the others ran in between |
| `Limiter.ConcurrencyLimiter.TryAcquire` | internal/proxy/middleware.go:574-593 | an acquire interrupted before each atomic operation is a run of the machine that ends with a slot or a refusal; under a limit of 0 or less it always succeeds, and undisturbed it succeeds exactly if there is no limit or room below it |
| `Limiter.ConcurrencyLimiter.Release` | internal/proxy/middleware.go:597-599 | a release is one step of the machine |
| `AuthCache.FingerprintInjective` | internal/proxy/middleware.go:330-348 | different bearer flags, secrets or keys never share a fingerprint, for all strings |
| `AuthCache.PrefixedDecodes` | internal/proxy/middleware.go:339-346 | a length-prefixed text tells where it ends, whatever it contains |
| `AuthCache.BuiltIsCoherent` | internal/proxy/middleware.go:278-301 | an entry built for one configuration is right for every configuration with its fingerprint |
| `AuthCache.AdmitsIff` | internal/auth/chain.go:27-62 | in terms of the configuration: a request passes exactly when nothing is configured, or bearer tokens are allowed by either flag and its token matches the secret or there is none, or its key matches the configured key, or the legacy key where no other is set |
| `AuthCache.AuthCacheStore.GetOrBuild` | internal/proxy/middleware.go:303-325 | the entry returned is what the current configuration builds, whatever was stored in the meantime; a hit stores nothing |
| `AuthCache.AlwaysCurrent` | internal/proxy/middleware.go:269-325 | over every history of configurations and every interleaving, a served request got the chain its own configuration builds |
| `AuthCache.MutualExclusion` | internal/proxy/middleware.go:313-324 | at most one request is between lock and unlock |
| `AuthCache.OneBuildPerChange` | internal/proxy/middleware.go:317-324 | a fingerprint is stored again only after another one was stored in between |
| `AuthCache.RequestsAreArrivals` | internal/proxy/middleware.go:303-325 | over every interleaving each arrival is one request that keeps the configuration it came under |
| `AuthCache.SomebodyAdvances` | internal/proxy/middleware.go:303-325 | there is no deadlock: while somebody waits for an answer, somebody can take a step towards one |
| `AuthCache.EverybodyCanBeServed` | internal/proxy/middleware.go:303-325 | every state that can be reached can be continued so that everybody is served, in at most four steps for each request |
| `AuthCache.HitNeedsNoLock` | internal/proxy/middleware.go:303-312 | a request whose entry is cached is served at its first step, whoever holds the lock, and stores nothing |
| `StreamConverter.SlicesBackwardsIff` | internal/proxy/responses_sse.go:53-57 | a chunk crashes the converter exactly when it is the data prefix and one more byte |
| `StreamConverter.ReadsFramed` | internal/proxy/responses_sse.go:52-70 | a framed text is the sentinel exactly if it is [DONE], and otherwise what the JSON parser makes of the whole text |
| `StreamConverter.RefusesUnframedIff` | internal/proxy/responses_sse.go:52-55 | exactly the chunks that are too short or do not begin with the data prefix are refused unread |
| `StreamConverter.AlwaysInLanguage` | internal/proxy/responses_sse.go:47-114 | whatever chunks arrive, malformed ones included, the events written belong to the stream language, and the stream is complete exactly when a chunk ended it |
| `StreamConverter.CompletedIsLast` | internal/proxy/responses_sse.go:282-296 | response.completed comes at most once and nothing follows it |
| `StreamConverter.OpensWithPair` | internal/proxy/responses_sse.go:116-138 | every item and delta event comes after one created and one in-progress event, which come nowhere else |
| `StreamConverter.TextDoneIsWhole` | internal/proxy/responses_sse.go:241-247 | the text-done event carries the concatenation of all text deltas |
| `StreamConverter.DeltasFollowMessage` | internal/proxy/responses_sse.go:140-172 | every text delta comes after a message item was added |
| `StreamConverter.AtMostOneMessage` | internal/proxy/responses_sse.go:140-163 | a stream adds at most one message item |
| `StreamConverter.DoneMatchesAdded` | internal/proxy/responses_sse.go:235-343 | the done events match the added items one for one exactly when a finish reason ended the run or there was no function call |
| `StreamConverter.NothingIsLost` | internal/proxy/responses_sse.go:84-112 | the deltas are the content of the chunks and the calls added are those they name, up to the ending chunk |
| `StreamConverter.ArgumentsPassThrough` | internal/proxy/responses_sse.go:213-230 | every piece of call arguments is passed on once, in order, under the id its entry carried |
| `StreamConverter.FinalEvent` | internal/proxy/responses_sse.go:282-343 | the last event reports the first model named, every item added, and an incomplete status exactly for the reason length |
| `StreamConverter.WholeText` | internal/proxy/responses_sse.go:241-247 | what a client reads in the text-done event is everything the model said |
| `StreamConverter.StreamConverter.ProcessChunk` | internal/proxy/responses_sse.go:47-114 | each chunk writes the events of its content, calls and ending; a refused chunk and a chunk after completion change nothing |
| `StreamConverter.StreamConverter.EmitContentDelta` | internal/proxy/responses_sse.go:140-172 | the first text adds the message item, and every text is buffered and written as a delta |
| `StreamConverter.StreamConverter.HandleToolCallsDelta` | internal/proxy/responses_sse.go:174-233 | each entry with an id adds an item, each with arguments a delta, in order |
| `StreamConverter.StreamConverter.EmitFinishEvents` | internal/proxy/responses_sse.go:235-297 | the message is closed, then every function call in order, then the response |
| `StreamConverter.StreamConverter.EmitCompletedEvent` | internal/proxy/responses_sse.go:299-343 | the message is closed, then the response |
| `StreamConverter.HandleStreamingResponse` | internal/proxy/responses_handler.go:232-249 | the converter is told the data lines of the upstream body in order, up to the first one it refuses |
| `StreamConverter.DoneEndsTheStream` | internal/proxy/responses_handler.go:232-249 | if no line before it is refused, a [DONE] line makes response.completed the last event, whatever came before and follows |

## Left out

- The other routers: round robin, failover and its parallel race, weighted failover.
- `LiveRouter` looks the current router up again on release (internal/router/router.go:169-173): the conservation results are about one router.
- Shuffle keeps its deck when the healthy list changes but not its length; the deal results are about positions in the list.
- Health checks, cooldown tables, usage headers (`UpdateKeyFromHeaders`), pool statistics and model listing.
- `NewKeyPool` refuses an empty key list and an unknown strategy before anything is built; the model's pool may be empty and then has no key.
- Input and output token limits enter a key's score and limits as one sum.
- Response headers, Retry-After, `Flush`, backoff sleeps, debug headers, TLS tracing and logging around the retry loops, and failures to read the request body.
- Status codes lie in 100..999; informational responses are not treated apart.
- The OpenAI loops (internal/proxy/openai_retry.go:24-87, internal/proxy/openai_retry.go:159-458) are the same protocol without a default provider and without stripping; they have no separate members.
- The fast textual check that skips bodies without thinking (internal/proxy/thinking.go:44-50) is taken as passed.
- Object-valued content, duplicate JSON keys, number precision and JSON formatting; Unicode case folding of model names (ASCII only).
- The streaming response pass for signatures (internal/proxy/thinking.go:596-636), which handles one delta with the functions modelled here.
- Requests served without a router reuse the default provider in each round; providers without a pool reuse the key "default". Both are in the model, so the exclusion results name the router and the pool.
- Scanning the upstream body into lines and its limit on their length (internal/proxy/responses_handler.go:229-232): the lines are given.
- Failing event writers, `Reset`, response identifiers and timestamps of the stream converter; accumulated arguments and final item texts, which the code never fills in.
- Reading credentials out of headers (scheme, trimming), and the hash and constant-time comparison: credentials arrive as a token and a key, and two texts match when an arbitrary hash agrees on them.
- Event-stream header values other than strings are skipped, as in the code; their contents are not decoded.

# WebSocket load-test client and echo server, modelled in Dafny

The repository is a pair of Go programs. The client opens many WebSocket
connections to one server. Every second it pings and writes one message on
each connection, and it records how long each successful send took. Every
ten seconds it logs the mean, median, 90th and 99th percentile and maximum of
all latencies recorded so far. The server upgrades each request to a
WebSocket, echoes every message back unchanged, and counts active
connections and received messages.

This project models the logic beneath the transport and the scheduler. The
dial results, send results and read/write results are abstract outcome
sequences, so each part becomes a sequential, pure computation:

- `latency.dfy` (module `Latency`) covers `recordLatency` and
  `calculateLatencyStats`. The samples are a `seq<nat>` of nanoseconds. The
  summary sorts them, keeps every sample, and reports "no data" or the five
  statistics. The contracts state more than the indexing: each percentile is
  the sample of its floor-indexed rank (`HasRank`), and that value depends only
  on the multiset of samples.
- `client.dfy` (module `Client`) covers three pieces of client bookkeeping:
  - the dial loop, as a fold over dial results;
  - one send tick, as one batch step over per-connection (ping, write, elapsed) outcomes;
  - the event loop, as a fold over send-tick and report-tick firings.
- `server.dfy` (module `Server`) covers the handler's read-count-echo loop. It
  runs over a script of (read result, write result) turns. The model also
  covers the bracketing of `activeConnections` and several connections served
  one after another.
- `permutations.dfy` (module `Permutations`) holds one shared fact about reordered sequences.

Assumptions:

- **Percentile indices.** At `client/main.go:55-56` the indices are the float
  expressions `int(float64(n)*0.9)` and `int(float64(n)*0.99)`. The model takes
  them as the integer floors `n*9/10` and `n*99/100`. The two agree for every
  realistic sample count: a float64 rounding error large enough to cross an
  integer would need an astronomically large `n`.
- **Mean.** Go's `sum / time.Duration(n)` truncates toward zero. Durations are
  non-negative, so this equals Dafny's `/`.
- **Order of samples within a tick.** The workers of one send tick append their
  samples in whatever order the scheduler lets them finish. The model appends
  them in connection order. `Client.SendTickOrderIrrelevant` and
  `Latency.SummaryOrderIrrelevant` show that no other order changes
  `messagesSent`, the multiset of samples, or any later report.
- **Sorting.** `sort.Slice` sorts in place with an unspecified algorithm. The
  model sorts by insertion. `Latency.SortedPermutationUnique` shows that every
  correct ascending sort gives the same sequence.
- **Open server connections.** The server loop runs until an I/O error. If a
  script runs out first, the session ends in `StillOpen`: the handler has not
  returned yet, and the connection still counts as active.

## Model

| member | source | states |
|---|---|---|
| `Latency.RecordLatency` | client/main.go:27-32 | exactly one sample is appended at the end; earlier samples are unchanged; the multiset grows by that sample |
| `Latency.SortAscending` | client/main.go:38-40 | the sorted store is ascending and a permutation of the recorded samples |
| `Latency.SortedPermutationUnique` | client/main.go:38-40 | two ascending sequences with the same multiset are equal, so any correct sort gives the same store |
| `Latency.SortIdempotent` | client/main.go:38-40 | sorting an already sorted store leaves it unchanged, so repeated reports see the same order |
| `Latency.TotalPermutation` | client/main.go:48-51 | the sum (and every count) over the sorted store equals the one over the samples in recording order |
| `Latency.IndicesInBounds` | client/main.go:54-57 | for n >= 1: n/2 <= floor(0.9n) <= floor(0.99n) <= n-1, so no index is out of range and the indices never decrease |
| `Latency.CalculateLatencyStats` | client/main.go:34-61 | the store comes back ascending and as a permutation (nothing is cleared); the report is "no data" exactly when the store is empty; otherwise mean = sum/n truncated, and median, p90, p99, max are the sorted samples at n/2, floor(0.9n), floor(0.99n), n-1 |
| `Latency.LatencyStatsProperties` | client/main.go:48-57 | on a non-empty store: each percentile is the sample of its floor-indexed rank; max is a sample and bounds every sample; some sample is <= mean <= max; median <= p90 <= p99 <= max |
| `Latency.SortedRank` | client/main.go:54-57 | the element at index k of an ascending sequence has rank k: at most k samples are below it and more than k are at most it |
| `Latency.RankUnique` | client/main.go:54-57 | only one value can have a given rank, so each reported percentile is determined by the samples alone |
| `Latency.SummaryKeepsHistory` | client/main.go:34-46 | a summary keeps every sample, so a later summary covers the whole history, exactly as if no summary had intervened |
| `Latency.SummaryOrderIrrelevant` | client/main.go:27-40 | the summary depends only on the multiset of samples, not on the order in which concurrent recorders appended them |
| `Latency.UniformStore` | client/main.go:48-57 | a store whose samples all equal x reports x for mean, median, p90, p99 and max |
| `Client.DialAll` | client/main.go:73-81 | the pool holds the connections of the successful dials, in attempt order; successfulConnections equals the pool size and is at most the number of attempts |
| `Client.DialFailureSkipped` | client/main.go:74-79 | a failed dial leaves setup as if the attempt had not been made, and later attempts still run |
| `Client.DialSuccessPooled` | client/main.go:74-81 | every successful dial puts its connection into the pool, at its rank among the successes |
| `Client.Start` | client/main.go:18-25 | after setup, the pool and counter are as `DialAll` states, no message has been sent and no latency recorded |
| `Client.SendBatch` | client/main.go:98-113 | running the tick's workers adds one to messagesSent and appends one sample per successful write; nothing else changes |
| `Client.SendTickStep` | client/main.go:97-114 | in one tick, messagesSent and the number of new samples both grow by the number of successful writes, which is at most the pool size; earlier samples are kept |
| `Client.PingIrrelevant` | client/main.go:104-111 | a failed ping changes nothing: two ticks whose writes succeed alike and take the same time leave the client in the same state |
| `Client.DeliveredPermutation` | client/main.go:98-114 | reordering the workers' outcomes reorders the new samples and leaves their multiset unchanged |
| `Client.SendTickOrderIrrelevant` | client/main.go:98-114 | whatever order a tick's workers finish in, messagesSent and the multiset of samples after the tick are the same |
| `Client.Step` | client/main.go:95-118 | a send tick or a report tick leaves the pool and successfulConnections unchanged, grows samples and messagesSent together, and never removes a sample; a send tick appends exactly the durations of its successful writes and counts each one; a report tick sorts the store, keeping the same samples and messagesSent |
| `Client.StepHistory` | client/main.go:97-117 | one firing adds exactly its own delivered samples to the store, up to order, and counts each of them as one message sent |
| `Client.Run` | client/main.go:95-119 | over any sequence of ticks: the pool is unchanged, samples and messagesSent grow by the same amount, no sample is lost, one report is logged per report tick, and successfulConnections = pool size with messagesSent = sample count is preserved |
| `Client.RunRecordsHistory` | client/main.go:95-119 | over any sequence of ticks, the store holds, up to order, the samples it started with plus every sample the send ticks delivered (in firing order, `History`), and messagesSent grows by exactly that many |
| `Client.RunFromStart` | client/main.go:73-119 | from a fresh setup, through any sequence of ticks, successfulConnections equals the pool size (at most the attempts) and messagesSent equals the number of recorded samples |
| `Client.RunEndingInReport` | client/main.go:95-119 | after a report tick the store is sorted, and the logged report equals the summary of the starting samples followed by every sample delivered by any send tick so far |
| `Client.UnreachableHost` | client/main.go:74-81 | five failed dials give an empty pool and a zero counter; the next report says "no data" |
| `Client.ThreeConnectionsOneTick` | client/main.go:97-117 | three connections whose sends all succeed in time d give three sends and three samples of d, and every statistic of the next report is d |
| `Server.EchoLoop` | server/main.go:31-42 | each successful read is written back with the same type and payload, in read order; the writes attempted equal the reads; the loop stops at the first read error (not counted, with every earlier write successful) or at the first failed write (no further read); what was read is a prefix of what the peer sent, and all of it unless a write failed |
| `Server.WebsocketHandler` | server/main.go:19-43 | a failed upgrade changes no counter; otherwise messagesReceived grows by one per successful read, including the read whose echo failed, and activeConnections changes by 0 once the loop has exited (+1 while it runs) |
| `Server.EchoReplies` | server/main.go:31-42 | the replies the peer receives are what it sent, or, if a write failed, what it sent up to but excluding the message whose echo failed |
| `Server.ErrorFreeEchoesAll` | server/main.go:31-42 | without I/O errors every message sent is echoed, in order, with its frame type |
| `Server.Serve` | server/main.go:19-43 | over many connections, each connection's session is the one the handler gives it on its own, activeConnections rises by the number still open, and messagesReceived by the total number of reads |
| `Server.ActiveReturnsToBaseline` | server/main.go:25-30 | once every connection has ended, activeConnections is back at its baseline |
| `Server.ThreeMessagesEchoed` | server/main.go:31-42 | messages "a", "b", "c" come back as "a", "b", "c", and three received messages are counted |

## Left out

- Flag parsing, usage text and URL construction (client/main.go:64-71) are configuration. The number of dial attempts is the length of the dial-result sequence, and a negative `-conn` corresponds to the empty sequence.
- The gorilla/websocket calls (`Dial`, `Upgrade`, `ReadMessage`, `WriteMessage`, `WriteControl`, `Close`) are foreign I/O. They are replaced by abstract outcomes. The ping's five-second deadline and the payload text `Hello from conn i` only affect whether the call succeeds, so they are not modelled.
- Goroutines, `sync.WaitGroup`, `sync.Mutex`, the atomics and the two-ticker `select` are concurrency machinery. A tick is one batch step, and every counter update is a plain increment. The order lemmas above justify this.
- `time.Now` and `time.Since` are wall-clock reads. Durations are given natural numbers.
- The float expressions at client/main.go:55-56 are modelled as integer floors, as stated above.
- int64 overflow of the duration sum and int32 overflow of the four counters are not modelled, because counters and durations are unbounded integers.
- The deferred close-with-sleep teardown (client/main.go:82-86) is timing and I/O only, and the loop it guards never returns.
- The server's logging goroutine (server/main.go:47-52), `HandleFunc` and `ListenAndServe` (server/main.go:46, 53) are I/O only. The permissive `CheckOrigin` (server/main.go:14) is folded into the abstract upgrade outcome.
- The log lines themselves are not modelled. The client's report is the `Report` value; the server's periodic line would only read the two counters.

# Summerrpc, modelled and verified

Summerrpc is a Python 2 RPC framework: clients keep pooled socket connections to servers they find
through a registry, several threads can share one connection, and a server answers requests on an
event loop. This project models the protocol logic and the data structures behind that and proves
what they keep over every run. Code that threads or callbacks interleave is a step system, so that a
result covers every interleaving; sequential code keeps its classes, loops and arrays, each method proved
against a function whose properties are then proved. All files are checked together with
`dafny verify dfyconfig.toml`.

## The parts

**The shared connection** (`SharedConnection*.dfy`, `summerrpc/connection.py`). Any number of client
threads call `write`, `read` and `close` beside one writer thread and one reader thread. The model is a
step system with a program point per thread; a step is one lock acquisition or release, one park or
wake-up, one read of `_closing` or of `_closed`, or one action on the tables the held lock protects.
Futures remember every resolution they receive.
- `SharedConnection` has the steps, `SharedConnectionLocks` mutual exclusion and the closing protocol,
  `SharedConnectionGates` admission at the granularity of single flag reads, `SharedConnectionFutures`
  and `SharedConnectionTables` how often each future is resolved, `SharedConnectionBodies` which bodies
  futures hold, `SharedConnectionParking` who owes a parked thread its wake-up, `SharedConnectionRuns`
  where every response is and the invariant of all runs, and `SharedConnectionTheorems` the results. `SharedConnectionCalls` says what each call comes back with,
  where a response goes and when heartbeats are sent, `SharedConnectionOutcomes` that the outcomes of
  every future are exactly the verdicts of the transport, the peer, a full table and close().
- The guard of `close()` reads `_closed` and then `_closing` while the closer sets the first and then
  clears the second. The model keeps those reads apart. The guard can be passed twice, never three
  times; `SharedConnectionRace` gives a run in which a read then fails twice, and
  `SharedConnectionGuard` shows that this needs a guard whose two reads straddle another thread's close,
  and says exactly when it happens.
- A write of `None` is popped and forgotten, so close() does not resolve it; `SharedConnectionSkips`
  shows that this is the only kind of future left unresolved, and that it is for every id.

**The simple connection** (`SimpleConnection.dfy`) does the same over the record protocol for callers
that write and read in pairs.

**The structures under them.** `LruCache` keeps the ring of linked entries and the map of
`helper/lru_cache.py` and refines `LruSpec`, a sequence ordered by recency; `StaticList` keeps the array
with a used and a free chain of `helper/list.py` and refines a bounded stack. `is_full` compares with
`None` where the end marker is -1, so it is never true; the overflow surfaces as `ListFullError` from
`insert_left`, after an id has been used up.

**The wire formats.** `HttpParser` is the incremental response parser, `HttpWire` the server's packet
and the client's read, `HttpResponses` every answer of that read, `HttpRequests` the client's packet and
the server's read; the accepted subset is that of sections 3.1.1, 3.1.2, 3.2 and 3.3.2 of RFC 7230.
`RecordFraming` is the length-prefixed protocol with its receive and send loops. `PyText` has the string
operations of Python 2 they use.
The server checks its two numbers with `isalnum` and converts them with `int`, so letters raise
`ValueError` in place of the refusal meant; `NumberCheckIsTooWide` says for which values,
`ValueErrorExactly` for which requests, and `RunnerCanDieOnAnOpenStream` what it does to the connection.

**The token buckets.** `TokenBucket` is exact integer arithmetic over a rational rate per millisecond.
At a rate above one that is not whole the bucket hands out any number of tokens in one millisecond;
`LimitsExactly` is the exact condition. `RedisBucket` is the Lua script over two expiring keys; it works
at all exactly when capacity / rate is at least one half, and then expiry changes no decision.

**The pools.** `CyclicIterator` is the list with a cursor of `helper/iterator.py`. `ConnectionPool` is
the dedicated pool under any number of threads, with evictions and `close()`; `ConnectionPoolRuns`,
`ConnectionPoolConservation` and `ConnectionPoolEviction` have its results, `PoolLoops` the retry and
draining loops of both pools, `ConnectionPoolClosing` what close() and a release do. The pool's lock does
not protect its queues: between the moment an evicting thread sees the victim's queue empty and the moment
it stores the new key, a client that has fetched that queue can put a connection into it, which nobody
closes. `ConnectionPoolLeak` says exactly when that is possible, gives a run, and shows that such a
connection stays behind for good. The same holds for a put behind the drain of close().

**The registry.** `UrlText` is URL building, quoting (section 2.1 of RFC 3986) and query parsing,
`UrlParse` what `urlparse` makes of the result, `Registry` registration and discovery.

**The server.** `ServerAdmission` is the event loop's callbacks as a step system: connections accepted
and closed, requests read, responses written, idle connections reaped. `ServerRequests` is what a runner
makes of the bytes of one request; the serializer and the exported methods are its parameters. A runner
catches three exceptions, around the read and the decoding only, so other exceptions end it while its
connection stays open and counted: `DiesExactly` says for which requests.

## Model

| member | source | states |
|---|---|---|
| SharedConnectionTheorems.AtMostOnceExactly | summerrpc/connection.py:304-338 | in every reachable state no client future is resolved twice if and only if close() has swept at most once or nothing is left in the table of pending reads; the guard is passed at most twice, and no future is resolved more often; write futures are never resolved twice |
| SharedConnectionGuard.AtomicGuardMeansOnce | summerrpc/connection.py:304-317 | in every run in which no thread reads `_closing` at the guard after `_closed` was set between its two reads, the guard is passed at most once and every client future is resolved at most once |
| SharedConnectionGuard.OnceExactly | summerrpc/connection.py:304-338 | over any run some client future is resolved twice if and only if some thread sweeps a table of pending reads with something in it when `_closed` is already set; that takes a guard whose reads were straddled |
| SharedConnectionTheorems.SecondPassSeesClosed | summerrpc/connection.py:305-317 | the guard is passed only by a read of `_closing` that finds it unset, and for the second time exactly when `_closed` is already set |
| SharedConnectionRace.ReadFutureFailedTwice | summerrpc/connection.py:305-333 | a reachable state in which two closers got through and one read future has been failed twice |
| SharedConnectionTheorems.EverythingResolvedAfterClose | summerrpc/connection.py:197-240 | once close() has returned and both threads have exited, the queue is empty and a future created for a client is resolved if and only if it is not that of a write of `None` the writer popped |
| SharedConnectionSkips.LeftUnresolvedExactly | summerrpc/connection.py:211-219 | for every id, some run ends with close() done, both threads exited and the write under that id unresolved if and only if the write was given `None` |
| SharedConnectionSkips.SkippedForGood | summerrpc/connection.py:211-219 | a popped write of `None` stays unresolved in every continuation of every run |
| SharedConnectionTheorems.ResponsesReachTheirReaders | summerrpc/connection.py:118-142 | a read future for an id only holds a body that was received with that id, and read() returns a future of its own id |
| SharedConnectionTheorems.ResponsesConserved | summerrpc/connection.py:266-299 | counted as multisets of id and body: what was received is what read futures and heartbeat futures hold, the response in the reader's hand and those refused while closing; heartbeat futures hold what was routed to heartbeats, read futures what was handed to pending reads, taken from the pool, is in it, fell off its end or was cleared with it |
| SharedConnectionTheorems.TablesKeepTheirBounds | summerrpc/connection.py:124-142 | no id is both awaited and pooled, and the queue, the table of pending reads and the pool keep their bounds |
| SharedConnectionTheorems.HeartbeatsNeverEvicted | summerrpc/connection.py:182-191 | at most four heartbeats are outstanding, and a heartbeat leaves its table only when the reader answers it |
| SharedConnectionTheorems.NoLostWakeUp | summerrpc/connection.py:144-204 | a parked thread without a notification has nothing to do, or the owner of its lock, or for a heartbeat the writer, owes it the notification; with the lock free it has nothing to do, and neither stays parked after close() |
| SharedConnectionTheorems.WriterNoticeComes | summerrpc/connection.py:113-122 | the thread that owes the writer its notification can move, and each of its steps gives it or brings it nearer |
| SharedConnectionTheorems.ReaderNoticeComes | summerrpc/connection.py:138-142 | the same for the notification owed to the reader by the owner of the read lock |
| SharedConnectionTheorems.HeartbeatNoticeComes | summerrpc/connection.py:152-162 | the writer brings the notification about a heartbeat to the reader step by step, held up by the read lock at most |
| SharedConnectionTheorems.LockOrder | summerrpc/connection.py:159-190 | whoever owns the write or read lock waits at most for the heartbeat lock, and its owner or the close lock's waits for nothing |
| SharedConnectionTheorems.NoDeadlock | summerrpc/connection.py:245-264 | in every reachable state a thread that is not at rest can move or waits, over at most two locks, for one that can |
| SharedConnectionTheorems.RestMeansDone | summerrpc/connection.py:206-264 | when nobody can move, nothing is queued, pending or outstanding, or the threads have exited |
| SharedConnectionCalls.WriteExactly | summerrpc/connection.py:101-116 | a write that has seen the connection open goes on top of the queue, with an unresolved future under an id no write or heartbeat had before, if and only if fewer than max_pending_writes are queued; else it raises and queues nothing |
| SharedConnectionCalls.RaisesOnlyFor | summerrpc/connection.py:101-142 | over every run a write() or read() raises only if its last step read `_closing` or `_closed` set, or, for a write, found exactly max_pending_writes items queued |
| SharedConnectionCalls.IdsAreUnique | summerrpc/connection.py:94-99 | no two writes or heartbeats of a run have the same id, and later ones have greater ids |
| SharedConnectionCalls.QueueIsStack | summerrpc/connection.py:94-99 | every step leaves the queue alone, puts a new item on top, or takes the top to send, forget or fail it |
| SharedConnectionCalls.LastWrittenFirstSent | summerrpc/connection.py:192-200 | over any run that leaves so many items queued throughout, the lowest of them are untouched |
| SharedConnectionCalls.ReadsExactly | summerrpc/connection.py:118-142 | a read that has seen the connection open hands out the response pooled for its id, else the future awaited for it, else a new one, and pushes the read untouched for longest out of a full table only |
| SharedConnectionCalls.ReceivesExactly | summerrpc/connection.py:266-272 | what comes out of the socket goes on to its future, and a failure takes the reader into close() |
| SharedConnectionCalls.HeartbeatIsAnswered | summerrpc/connection.py:275-282 | a response under the id of a heartbeat takes that heartbeat out of its table, and any other goes on to the reads |
| SharedConnectionCalls.ResponsesExactly | summerrpc/connection.py:285-299 | a response that no heartbeat awaits goes to the read that awaits it or else to the pool, which loses an older response of the same id, or, full, the one untouched for longest, and nothing otherwise |
| SharedConnectionCalls.HeartbeatExactly | summerrpc/connection.py:180-194 | a woken writer with nothing to write sends a heartbeat under a fresh id and lets the reader know, or, with four outstanding, goes into close() within four steps |
| SharedConnectionCalls.HeartbeatIsDue | summerrpc/connection.py:175-182 | it considers one if and only if nothing is queued and heartbeats are configured |
| SharedConnectionCalls.WriterWakesExactly | summerrpc/connection.py:168-174 | the parked writer wakes when notified or when half the heartbeat interval is over |
| SharedConnectionCalls.ServingUntilClose | summerrpc/connection.py:206-338 | until a thread passes the guard of close(), no response is refused or cleared away and neither thread has exited |
| SharedConnectionOutcomes.OutcomesAreVerdicts | summerrpc/connection.py:94-338 | over every run the outcomes of a future are, in order, exactly the verdicts passed on it: by the transport or the clock on the item in the writer's hand, by the response under its id, by a full table, by the drain or by the sweep |
| SharedConnectionOutcomes.WrittenExactly | summerrpc/connection.py:222-236 | over every run a future says that its item was written if and only if the transport's write of it came back |
| SharedConnectionOutcomes.FailedSendCloses | summerrpc/connection.py:228-236 | a socket timeout or error in the transport takes the writer into close(), and a write that comes back does not |
| SharedConnectionOutcomes.GoneForGood | summerrpc/connection.py:228-240 | once the writer is in close() nothing is transmitted any more |
| SharedConnectionLocks.StepKeepsLocks | summerrpc/connection.py:101-142 | every step of every thread keeps mutual exclusion on all four locks |
| SharedConnectionLocks.StepKeepsFlags | summerrpc/connection.py:304-317 | every step keeps the closing protocol: how the two flags, the closer and the counts of passes, drains and sweeps relate |
| SharedConnectionGates.StepKeepsGates | summerrpc/connection.py:105-122 | every step keeps admission: whoever is past both flag reads inside a lock is there before close() first had that lock |
| SharedConnectionRuns.StepKeepsMail | summerrpc/connection.py:266-299 | every step keeps the balance of responses received and placed |
| SharedConnectionBodies.StepKeepsBodies | summerrpc/connection.py:266-299 | every step of every thread keeps the count of the bodies that read and heartbeat futures hold |
| SharedConnectionParking.StepKeepsParking | summerrpc/connection.py:152-175 | every step keeps what is owed to parked threads |
| SharedConnectionRuns.StepKeepsInv | summerrpc/connection.py:206-338 | every step of every thread keeps the whole invariant |
| SharedConnectionRuns.RunKeepsInv | summerrpc/connection.py:206-338 | every run keeps the whole invariant |
| SimpleConnection.PairsStayInStep | summerrpc/connection.py:349-391 | with a peer that answers each request under its id, over short reads and sends and interruptions, every read of every run gets its own body and the connection stays open |
| SimpleConnection.WrongIdCloses | summerrpc/connection.py:373-391 | a response under another id is never handed out, and the connection closes exactly when a read fails |
| SimpleConnection.ClosedForGood | summerrpc/connection.py:393-403 | a closed connection stays closed, sends nothing and answers nothing |
| SimpleConnection.WriteExactly | summerrpc/connection.py:358-371 | write() takes an id; its future holds that id exactly when the peer has been shown the whole packet, a timeout or failure is named as such, and the connection closes exactly on these |
| SimpleConnection.ReadExactly | summerrpc/connection.py:373-391 | read() hands out the body of a record of its id, names a wrong id and a timeout, and closes the connection exactly when it raises |
| SimpleConnection.SimpleBlockingConnection.WriteBuff | summerrpc/connection.py:358-371 | write() does what the specification Write says to the id counter, the closed flag and the socket |
| SimpleConnection.SimpleBlockingConnection.ReadAnswer | summerrpc/connection.py:373-391 | read() does what the specification Read says |
| LruCache.LRUCache.constructor | summerrpc/helper/lru_cache.py:64-70 | an empty ring; the bound defaults to 65535 and is at least 1 |
| LruCache.LRUCache.SetItem | summerrpc/helper/lru_cache.py:88-112 | refines Set on the recency sequence, recycling the last node when full, and keeps ring, map and bound consistent |
| LruCache.LRUCache.ChangePointer | summerrpc/helper/lru_cache.py:80-86 | moves one node to the front of the ring and leaves the order of the others |
| LruCache.LRUCache.Recycle | summerrpc/helper/lru_cache.py:97-104 | the node of the last entry comes to the front under the new key |
| LruCache.LRUCache.GetItem | summerrpc/helper/lru_cache.py:114-118 | returns the value or KeyError, and moves a hit to the front |
| LruCache.LRUCache.DelItem | summerrpc/helper/lru_cache.py:120-123 | takes the entry out of ring and map, or KeyError |
| LruCache.LRUCache.Contains | summerrpc/helper/lru_cache.py:125-126 | whether the key has an entry, without moving it |
| LruCache.LRUCache.Clear | summerrpc/helper/lru_cache.py:128-131 | empties ring and map |
| LruCache.LRUCache.CurrentSize | summerrpc/helper/lru_cache.py:133-135 | the number of entries |
| LruCache.LRUCache.WillBeKickedOut | summerrpc/helper/lru_cache.py:141-144 | names exactly the entry the next store of a new key displaces, or none while there is room |
| LruCache.LRUCache.IterItems | summerrpc/helper/lru_cache.py:146-150 | yields every entry once, least recently used first |
| LruSpec.DisplacedOnlyWhenOld | summerrpc/helper/lru_cache.py:88-131 | over whole runs a store displaces a key only if at least max_size distinct other keys were set or hit since its own last use |
| LruSpec.VictimIsDisplaced | summerrpc/helper/lru_cache.py:97-104 | a store of a new key removes exactly the key will_be_kicked_out names and adds its own |
| LruSpec.DisplacedIsLast | summerrpc/helper/lru_cache.py:97-104 | a store of another key loses an entry if and only if the cache is full, the key is new and the entry is last |
| LruSpec.RunKeeps | summerrpc/helper/lru_cache.py:88-131 | every run keeps the keys distinct and the size within the bound |
| StaticList.StaticList.constructor | summerrpc/helper/list.py:68-77 | all nodes start on the free chain |
| StaticList.StaticList.InsertLeft | summerrpc/helper/list.py:79-91 | pushes, and fails exactly when the size is max_size; used and free chain stay disjoint and cover all nodes |
| StaticList.StaticList.PopLeft | summerrpc/helper/list.py:93-106 | pops the last element pushed and gives its node back, or fails exactly when empty |
| StaticList.StaticList.PeekLeft | summerrpc/helper/list.py:108-112 | the element the next pop returns |
| StaticList.StaticList.IsFull | summerrpc/helper/list.py:128-129 | never true; right exactly while the list is not full; fullness is an ended free chain |
| StaticList.LastInFirstOut | summerrpc/helper/list.py:79-106 | over any run above it, an element pushed is the one popped when the stack is back at its depth |
| StaticList.BottomKept | summerrpc/helper/list.py:79-106 | a run that never goes below a depth leaves everything below it untouched |
| HttpParser.ChunkingIsInvisible | summerrpc/extension/http_transport.py:235-308 | however a byte string is cut, feeding and parsing piece by piece ends in the stage, headers, content, leftover or exception of feeding it whole |
| HttpParser.AutoGetThenFeed | summerrpc/extension/http_transport.py:304-308 | parsing before more bytes come leads where parsing everything at once leads |
| HttpParser.GetDescends | summerrpc/extension/http_transport.py:255-308 | every step that goes on consumes bytes or moves to a later stage, so auto_get ends |
| HttpParser.GetExtends | summerrpc/extension/http_transport.py:255-302 | a step that could be taken is taken alike with more bytes behind |
| HttpParser.HTTPResponseParser.GetNext | summerrpc/extension/http_transport.py:255-302 | get() on the mutable parser is Get on its value |
| HttpParser.HTTPResponseParser.ConsumeLine | summerrpc/extension/http_transport.py:238-248 | takes the first line with its CRLF off the buffer |
| HttpParser.HTTPResponseParser.AutoGetAll | summerrpc/extension/http_transport.py:304-308 | the loop is AutoGet on the parser's value |
| HttpWire.ResponseRoundTrip | summerrpc/extension/http_transport.py:199-204 | whatever the id and the body and however the bytes are cut, the client reads the pair the server sent, as soon as its last byte has come |
| HttpWire.IncompleteResponseBlocks | summerrpc/extension/http_transport.py:321-326 | before that the client neither returns nor raises |
| HttpWire.BlockingRead | summerrpc/extension/http_transport.py:321-333 | the read loop does what the specification ReadResponse says, recv call by recv call |
| HttpResponses.ResponseExactly | summerrpc/extension/http_transport.py:255-333 | from the first line, the header lines and what is behind them: which responses raise InvalidPacketError and which ValueError, when read() waits, and what it returns |
| HttpRequests.RequestRoundTrip | summerrpc/extension/http_transport.py:335-341 | the server reads the pair the client sent, the empty body as none, and leaves the stream behind the packet, if and only if the limits allow for its lines; otherwise it refuses |
| HttpRequests.PipelineRoundTrip | summerrpc/extension/http_transport.py:150-197 | requests written one behind the other are read back as the same list |
| HttpRequests.CutShortWaits | summerrpc/extension/http_transport.py:150-197 | every proper prefix of a packet within the limits leaves the server waiting |
| HttpRequests.RequestExtends | summerrpc/extension/http_transport.py:150-197 | what the server makes of some bytes stays the same with more bytes behind, unless it was waiting |
| HttpRequests.WaitingIsBounded | summerrpc/extension/http_transport.py:150-191 | a read that waits holds no more than the limits allow for its lines, and then no more than the length announced |
| HttpRequests.DefaultsFit | summerrpc/extension/http_transport.py:142-147 | the default limits take every id and body length below 10 to the 1006 |
| HttpRequests.NumberCheckIsTooWide | summerrpc/extension/http_transport.py:176-187 | the number check raises ValueError exactly for values that are alphanumeric and not all digits, and accepts exactly strings of digits |
| HttpRequests.ValueErrorExactly | summerrpc/extension/http_transport.py:150-187 | read() raises ValueError for exactly the requests whose headers are all there and whose id, or whose length behind a good id, is alphanumeric but not all digits |
| HttpRequests.LetteredRaises | summerrpc/extension/http_transport.py:176-180 | a request with the id `ab` is one of them, under any limits that let its lines through |
| HttpRequests.ReadFromStream | summerrpc/extension/http_transport.py:150-197 | HTTPTransport.read does what the specification ReadRequest says, and leaves the rest of the stream |
| HttpRequests.HeaderLoop | summerrpc/extension/http_transport.py:161-173 | the header loop with its for-else is ReadHeaders |
| RecordFraming.RecordsComeBack | summerrpc/transport.py:142-160 | repeated reads of concatenated packets give exactly their records and take exactly their bytes under short reads, interruptions and ignored timeouts |
| RecordFraming.NothingElseIsRead | summerrpc/transport.py:142-160 | on a socket that fails in any way, the reads before the failure gave the records sent |
| RecordFraming.WriteThenRead | summerrpc/transport.py:110-115 | records written with short sends are read with short reads as the same records |
| RecordFraming.EachByteOnceInOrder | summerrpc/transport.py:74-88 | write_data shows the peer a prefix of the data, each byte once and in order, and all of it exactly when it returns |
| RecordFraming.WritesAll | summerrpc/transport.py:74-88 | among enough calls that accept something or are interrupted, everything is written, once and in order |
| RecordFraming.ReadsInOrder | summerrpc/transport.py:47-72 | among calls that only delay, read_bytes returns exactly the next num bytes |
| RecordFraming.OkMeansNextBytes | summerrpc/transport.py:47-72 | whatever happens on the way, a read that returns has taken exactly the next num bytes |
| RecordFraming.ReadFailsFor | summerrpc/transport.py:47-72 | a read that fails does so for its last recv, as a timeout, a closed socket or an error according to what that recv did |
| RecordFraming.WriteFailsFor | summerrpc/transport.py:74-88 | the same for a write and its last send |
| RecordFraming.UnpackPacked | summerrpc/transport.py:102-106 | the two four-byte fields come back for every number below 2^32 |
| RecordFraming.Socket.Receive | summerrpc/transport.py:47-72 | the receive loop over the buffer is ReadBytes |
| RecordFraming.Socket.Send | summerrpc/transport.py:74-88 | the send loop is WriteData |
| RecordFraming.Socket.ReceiveRecord | summerrpc/transport.py:142-160 | the three reads in sequence are ReadRecord |
| TokenBucket.WindowBound | summerrpc/rate_limiter/token_bucket.py:25-44 | over any window of calls at most capacity plus the slope times the time since the first call's refresh time is granted, for whole rates and rates up to one |
| TokenBucket.WindowBoundBetweenCalls | summerrpc/rate_limiter/token_bucket.py:25-44 | for whole rates and whole inverses, less than capacity + rate * time between the calls + 1 |
| TokenBucket.LimitsExactly | summerrpc/rate_limiter/token_bucket.py:29-33 | what is granted up to a time is bounded at all if and only if the rate is whole or at most one |
| TokenBucket.ThreeHalvesDoesNotLimit | summerrpc/rate_limiter/token_bucket.py:29-33 | at three tokens every two milliseconds a thousand are granted in the first millisecond |
| TokenBucket.BurstIsGranted | summerrpc/rate_limiter/token_bucket.py:29-44 | at any rate that does not limit, every call of a burst of any size one millisecond later is granted |
| TokenBucket.NothingLost | summerrpc/rate_limiter/token_bucket.py:27-33 | for every rate and polling schedule at least floor(rate * time) tokens are minted |
| TokenBucket.ConsumedWithinCapacity | summerrpc/rate_limiter/token_bucket.py:36-44 | consumed tokens stay between zero and the capacity in every run |
| TokenBucket.GrantsNeedTokens | summerrpc/rate_limiter/token_bucket.py:38-44 | what a run grants is covered by the room it started with and the tokens minted |
| TokenBucket.GrantedExactly | summerrpc/rate_limiter/token_bucket.py:25-44 | after any run a call is granted if and only if no window that ends with it, the call alone and the whole run included, hands out more than the capacity and what is minted in it after its first call |
| TokenBucket.CapacityIsGranted | summerrpc/rate_limiter/token_bucket.py:36-44 | a fresh bucket grants in full whatever adds up to at most the capacity, at whatever times it is asked |
| TokenBucket.RefusedMeansFull | summerrpc/rate_limiter/token_bucket.py:38-44 | a fresh bucket refuses a call only when it would have handed out more than the capacity in all |
| TokenBucket.TokenBucketRateLimiter.Acquire | summerrpc/rate_limiter/token_bucket.py:25-44 | _acquire decides and updates the two fields as Grants and After say |
| RedisBucket.ExpiryIsInvisible | summerrpc/rate_limiter/redis_token_bucket.py:23-47 | with capacity / rate at least 1/2 every run under expiry gives the replies of a store that never forgets |
| RedisBucket.ExpiredMeansFull | summerrpc/rate_limiter/redis_token_bucket.py:26-37 | a call that finds keys gone after their time to live replies and leaves what it would with them |
| RedisBucket.WorksExactly | summerrpc/rate_limiter/redis_token_bucket.py:23-47 | the script replies if and only if twice the capacity is at least the rate, and otherwise fails and changes nothing |
| RedisBucket.TtlRefills | summerrpc/rate_limiter/redis_token_bucket.py:23-24 | the time to live in whole seconds is at least one and enough to refill to the capacity |
| RedisBucket.AllowedExactly | summerrpc/rate_limiter/redis_token_bucket.py:15-49 | after any run, whatever has expired, a call is allowed if and only if it asks for no more than the capacity and no more than the room left since every earlier call and since the start, at the rate times whole seconds |
| RedisBucket.SpendingIsLimited | summerrpc/rate_limiter/redis_token_bucket.py:29-46 | over every run what is allowed from any call on adds up to at most the capacity and the rate times the whole seconds up to the last call |
| RedisBucket.SameSecond | summerrpc/rate_limiter/redis_token_bucket.py:39-46 | a second call in the same second is answered from what the first one left |
| RedisBucket.Store.Eval | summerrpc/rate_limiter/redis_token_bucket.py:15-49 | the script statement by statement is Script |
| CyclicIterator.TwoTakeTurns | summerrpc/helper/iterator.py:15-59 | any two elements that stay are visited strictly in turn, whatever is appended and removed in between |
| CyclicIterator.VisitedInTime | summerrpc/helper/iterator.py:15-59 | an element that stays is visited once there have been more visits than elements before it and additions |
| CyclicIterator.OneRound | summerrpc/helper/iterator.py:55-59 | undisturbed visits go once round the list in its order from the cursor |
| CyclicIterator.TakeMoves | summerrpc/helper/iterator.py:47-52 | remove_element brings nearer exactly the elements behind the one removed |
| CyclicIterator.CyclicIterator.GetNext | summerrpc/helper/iterator.py:18-22 | next() moves the cursor even when it raises, and a negative cursor counts from the back |
| CyclicIterator.CyclicIterator.RemoveLast | summerrpc/helper/iterator.py:24-28 | remove() takes out the element before the cursor, the last one at cursor 0 |
| CyclicIterator.CyclicIterator.RemoveThis | summerrpc/helper/iterator.py:47-52 | remove_element, or ValueError without a change |
| CyclicIterator.CyclicIterator.CyclicHasNext | summerrpc/helper/iterator.py:55-59 | rewinds at the end and says whether there is an element |
| ConnectionPoolRuns.NeverShared | summerrpc/connection_pool.py:68-127 | in every run with any evictions, failures and close(), a connection is in at most one queue position or one client's hands |
| ConnectionPoolRuns.NoDeadlock | summerrpc/connection_pool.py:101-139 | when no client can go on, all that are not idle wait on empty queues |
| ConnectionPoolRuns.LockHolderSteps | summerrpc/connection_pool.py:102-118 | the thread with the pool's lock is never held up |
| ConnectionPoolConservation.ConnectionsConserved | summerrpc/connection_pool.py:68-127 | with no more keys than room and no failing factory, queued and lent connections of a key add up to connections_per_key in every state, and nothing is evicted |
| ConnectionPoolConservation.WaiterIsOwed | summerrpc/connection_pool.py:68-127 | in such a run, a client that waits on its key's queue is owed a connection by another client, which can go on unless it waits for the pool's lock |
| ConnectionPoolConservation.NeverStuck | summerrpc/connection_pool.py:68-127 | in such a run, as long as some client is busy, a busy client can go on |
| ConnectionPoolEviction.LostKeyLaw | summerrpc/connection_pool.py:106-118 | in every run a key is lost only when the table is full and a new one takes its place, and only the least recently used key; the storing thread saw its queue empty before, and the queue then holds exactly what others have put into it since less what they have taken out, so it is empty if and only if the two are as many |
| ConnectionPoolEviction.QueueIsFifo | summerrpc/connection_pool.py:160-186 | over any run of any clients a queue holds what it held and what was put in, without as many from the front as were taken out |
| ConnectionPoolLeak.LeakExactly | summerrpc/connection_pool.py:112-127 | once a thread has seen the victim's queue empty, the others can bring a connection into it before the key goes if and only if one of them is already on its way to it, having fetched the queue or taken a connection from it |
| ConnectionPoolLeak.ConnectionLeftBehind | summerrpc/connection_pool.py:106-127 | a reachable state of two clients in which the next step loses a key whose queue holds a connection that nobody has closed and nothing refers to |
| ConnectionPoolLeak.ForgottenForGood | summerrpc/connection_pool.py:106-127 | what is left in a queue that no key and no client refers to stays there, unclosed, in every run |
| ConnectionPoolClosing.CloseDrains | summerrpc/connection_pool.py:129-139 | in every run, when close() sets `_closed`, every queue of the table has been seen empty by the closing thread at a step of its own, and holds exactly what has been put into it since less what has been taken out |
| ConnectionPoolClosing.ClosesEverything | summerrpc/connection_pool.py:129-139 | undisturbed, close() ends, leaves every queue of the table empty and all others alone, and has set `_closed` |
| ConnectionPoolClosing.ClosedHandsOutNothing | summerrpc/connection_pool.py:101-107 | on a closed pool a thread that has not got past the test of `_closed` never gets a connection |
| ConnectionPoolClosing.HandsOutOpen | summerrpc/connection_pool.py:77-91 | a connection is handed out only when it has just been found open; a stale one is let go |
| ConnectionPoolClosing.TakesTheFirst | summerrpc/connection_pool.py:175-180 | a thread takes the first connection of its queue, and on an empty one waits until it gives up |
| ConnectionPoolClosing.ReleasesExactly | summerrpc/connection_pool.py:120-127 | a release puts the connection at the end of the queue its key has by then, and drops it if the pool is closed or the key is gone |
| ConnectionPool.StepKeepsExclusive | summerrpc/connection_pool.py:160-186 | every step of every client keeps connections exclusive |
| ConnectionPoolConservation.StepKeepsCalm | summerrpc/connection_pool.py:101-127 | every step of a calm run keeps the count of every key |
| PoolLoops.GetShared | summerrpc/connection_pool.py:77-91 | undisturbed, the retry loop ends; it replaces the stale connections from the cursor on one for one at the end and hands out the open one then at the cursor, or fails with one connection less |
| PoolLoops.ChosenIsOpen | summerrpc/connection_pool.py:82-90 | the connection handed out is not stale and is in the list |
| PoolLoops.GetDedicated | summerrpc/connection_pool.py:77-91 | the stale connections at the head of the queue are replaced one for one at its end and the first open one is taken out, or, when the factory fails, the connection it should have replaced is gone |
| PoolLoops.CloseShared | summerrpc/connection_pool.py:197-202 | closes every connection of the list once, in order, and empties it |
| PoolLoops.CloseDedicated | summerrpc/connection_pool.py:167-173 | closes every queued connection once, in order, and empties the queue |
| UrlText.QuoteRoundTrip | summerrpc/helper/url.py:101-104 | every string of bytes survives quoting and unquoting |
| UrlText.QuotedIsOneName | summerrpc/helper/url.py:101-104 | a quoted URL has no slash, so it is one name below the base node |
| UrlText.LowerQuoteRoundTrip | summerrpc/registry.py:168-168 | percent-encoding with lower-case digits is read alike |
| UrlText.ParseQuery | summerrpc/helper/url.py:9-23 | the loop of parse_query is ParsedQuery |
| UrlText.URLBuilder.BuildUrl | summerrpc/helper/url.py:74-104 | build() with its loops is Build, quoted if asked |
| UrlText.URLBuilder.WithArgument | summerrpc/helper/url.py:61-65 | appends a value behind those its key has |
| UrlParse.QueryRoundTrip | summerrpc/helper/url.py:89-96 | every dictionary of arguments comes back from its query, in whatever order its keys were written |
| UrlParse.UrlRoundTrip | summerrpc/helper/url.py:74-104 | parsing a URL that was built gives its parts back, the scheme in lower case |
| UrlParse.BracketsExactly | summerrpc/registry.py:168-168 | parsing a URL raises exactly when one bracket is there without the other |
| UrlParse.ParamsExactly | summerrpc/registry.py:168-168 | parameters of the last path segment are cut off for the schemes that have them and belong to the path for others |
| Registry.RemotesAreThoseRegistered | summerrpc/registry.py:160-188 | with lower-case transports get_remotes gives exactly the addresses of the services registered with the class, method, transport and serializer asked for |
| Registry.FoundOnlyInLowerCase | summerrpc/registry.py:168-187 | a registered service is found under its own transport name if and only if that is in lower case |
| Registry.TableIsExact | summerrpc/registry.py:166-183 | under every key the table has the addresses registered with it, in the order of the node names |
| Registry.ServiceComesBack | summerrpc/registry.py:168-181 | one node name is read back as the service it was made for, whichever argument came first |
| Registry.NamesDoNotCollide | summerrpc/rpc_server.py:324-336 | different methods get different node names |
| Registry.UrlsAreReadExactly | summerrpc/registry.py:166-183 | what discovery makes of the name of any plain URL: nothing without a serializer or a port, ValueError for a port that is no number, and else its address under its key |
| Registry.PortsExactly | summerrpc/registry.py:175-179 | a port that is no number raises, a location without one is passed over |
| Registry.BrokenNamesRaise | summerrpc/registry.py:168-168 | a name with one bracket of an IPv6 address and not the other raises |
| Registry.DiscoveryFailsExactly | summerrpc/registry.py:166-183 | discovery fails if and only if some name raises |
| Registry.DiscoveryExactly | summerrpc/registry.py:166-183 | else every name counts that gives an address, in order, and no other |
| Registry.RegisterUrl | summerrpc/rpc_server.py:327-334 | the builder calls of the server give the node name |
| Registry.ZookeeperRegistry.RealDiscovery | summerrpc/registry.py:166-183 | the loop builds the table, and the cache is swapped only when no name raised |
| Registry.ZookeeperRegistry.GetRemotes | summerrpc/registry.py:186-188 | looks the key up, or gives the empty list |
| ServerAdmission.CountersAgree | summerrpc/rpc_server.py:249-296 | in every reachable state the counter is the number of live connections and the size of the table, which holds exactly these, and at most max_connections |
| ServerAdmission.AcceptEvictsNobody | summerrpc/rpc_server.py:260-287 | a new connection displaces no other from the table |
| ServerAdmission.AcceptsExactly | summerrpc/rpc_server.py:260-287 | the server takes a connection if and only if fewer than max_connections are live |
| ServerAdmission.CloseAlwaysFindsItsConnection | summerrpc/rpc_server.py:249-258 | the close callback never raises KeyError and takes exactly its connection off the counter and the table |
| ServerAdmission.ConcurrencyIsExact | summerrpc/rpc_server.py:557-586 | concurrency is within its limit and, until the connection is flagged, the number of unfinished requests; the clamps at zero never act |
| ServerAdmission.ParkedRunnerIsWoken | summerrpc/rpc_server.py:477-488 | a parked runner without a notification has as many responses outstanding as the limit, and each of them, and the close callback, notifies it |
| ServerRequests.DiesExactly | summerrpc/rpc_server.py:490-556 | a request ends its runner by an exception if and only if its number field is the bad kind or, once read, its body makes the decoding raise something other than DeserializationError or gives a call whose arguments or names cannot be used |
| ServerRequests.FateExactly | summerrpc/rpc_server.py:490-559 | a request gets its call made if and only if it can be read and loads to a call that is not exported, or a coroutine or pooled function whose arguments can be passed, or bound for the process pool, or without a pool; its stream is closed exactly when the read refuses or the body does not load to a Request; the runner waits exactly when the request is not all there |
| ServerRequests.GoodCallInPacket | summerrpc/rpc_server.py:490-559 | a client's HTTP packet within the limits with such a call gets it made |
| ServerRequests.GoodCallInRecord | summerrpc/rpc_server.py:490-559 | so does a record |
| ServerRequests.CutPacketWaits | summerrpc/rpc_server.py:490-493 | a packet cut short leaves the runner waiting |
| ServerRequests.CutRecordWaits | summerrpc/transport.py:121-134 | so does a record |
| ServerRequests.RecordComesBack | summerrpc/transport.py:121-134 | the server reads a record back from its packet whatever follows it |
| ServerRequests.BadCallInPacket | summerrpc/rpc_server.py:513-544 | a client's packet with a body of that kind ends the runner |
| ServerAdmission.RunnerEndsWithItsStream | summerrpc/rpc_server.py:490-513 | on an open stream a runner has ended if and only if a request of the kind DiesExactly describes has arrived; the connection is then still counted |
| ServerAdmission.OneRequestIsEnough | summerrpc/rpc_server.py:490-513 | any one such request over a new connection leaves it open and counted with nobody reading |
| ServerAdmission.RunnerCanDieOnAnOpenStream | summerrpc/rpc_server.py:490-513 | the request with the id `ab` does that |
| ServerAdmission.BadCallEndsTheRunner | summerrpc/rpc_server.py:513-544 | so does every well-formed client packet whose body loads to a call that cannot be made |
| ServerAdmission.GoodRequestIsTaken | summerrpc/rpc_server.py:513-559 | a request whose call can be made is one more pending, its connection stays open and its runner reads on or, at the limit, parks |
| ServerAdmission.FirstCallIsTaken | summerrpc/rpc_server.py:260-559 | for one, any client's packet with such a call over a new connection |
| ServerAdmission.BadRequestCloses | summerrpc/rpc_server.py:505-525 | a request that is refused closes its stream and ends its runner |
| ServerAdmission.ResponsesExactly | summerrpc/rpc_server.py:561-587 | a call that is done is being answered, unless its connection is gone or its result cannot be written |
| ServerAdmission.WritesEndExactly | summerrpc/rpc_server.py:577-587 | a response that is written is one less, and nothing else changes |
| ServerAdmission.ResumesExactly | summerrpc/rpc_server.py:490-500 | a woken runner on an open stream reads again if and only if there is room for a request |
| ServerAdmission.RunnerLeavesAfterClose | summerrpc/rpc_server.py:490-520 | once its stream is closed a runner ends: its read fails, or it is woken, by the close callback if by nothing else, and sees it |
| ServerAdmission.ClosesOnce | summerrpc/rpc_server.py:249-258 | a stream that closes schedules the close callback of its connection once |
| ServerAdmission.ReapsTheOldest | summerrpc/rpc_server.py:298-315 | reaping n connections closes exactly the n live ones that were accepted first |
| ServerAdmission.RunKeeps | summerrpc/rpc_server.py:249-587 | every run of callbacks keeps the invariant and never misses a connection in the table |

## Left out

- Sockets, the Tornado loop and its streams, thread and process pools, ZooKeeper and the Redis client:
  they appear as choices at a step, as byte streams or as lists of what calls return.
- Hash collisions in `LRUCache`: the map is indexed by `hash(k)`, and keys stand for their hash codes.
- The order of evaluation inside one held lock of the shared connection: draining, sweeping and clearing
  its tables are few steps, since all accesses to them hold the lock. In the pool, whose queues are used
  without its lock, every put, every take and every look at the size of a queue is a step of its own.
- Ids beyond 2^32: the counter is unbounded in the shared connection and `struct.pack` refuses in the
  record protocol.
- Heartbeat futures are resolved by the writer and again by the reader; `AtMostOnceExactly` bounds them
  by two and speaks of once for client futures only.
- Cancellation of futures and exceptions other than socket errors out of `transport.write`.
- SharedConnectionTheorems.AtMostOnceExactly: does not claim that every future is resolved at most once, because the guard of
  `close()` can be passed twice; it gives the exact condition.
- HttpParser.ChunkingIsInvisible: a parser that has raised only collects further bytes, because the read
  that owns it passes the exception on and drops it.
- HttpResponses.ResponseExactly: takes the response in one piece; that pieces make no difference is
  ChunkingIsInvisible.
- HttpWire.ResponseRoundTrip: bytes behind the response are discarded with the parser, as the code does,
  so only one response at a time is claimed per read.
- An end of file inside `SimpleBlockingHTTPTransport.read`: `recv` then returns the empty string for
  ever and the loop does not end; the model's list of received pieces ends as waiting.
- HttpWire.BlockingRead: a `recv` that raises is not among its inputs; the exception passes through.
- `consume_by_delimiter` with a count above one, which nothing calls.
- White space between a sign and the digits of a number, which `int` of Python 2 accepts.
- HttpRequests.ReadFromStream: says nothing about what is left on the stream after a refusal, because
  the connection is then closed.
- Floating-point rounding in both buckets: rates and reals are exact, the local clock is in whole
  milliseconds.
- A clock that goes back, in the results over whole runs of the buckets; GrantedExactly needs no order.
- A capacity that is changed between two calls, in the results over runs; `Acquire` itself covers it.
- ConnectionPoolConservation.ConnectionsConserved: does not cover failing factories, `close()` or evictions, where the code does
  not keep the count either: a released connection goes into the queue its key has by then, or nowhere.
- Liveness of a client that waits on the queue of an evicted key: connections released later go to the
  queue the key has by then.
- An exact count for the shared pool under several threads: two of them can each replace the same stale
  connection. `GetShared` is about one thread undisturbed.
- IPv6 literals as hosts and the rest of `urlparse` that no URL of the registry reaches; percent signs
  and other reserved characters in names are covered where they come back.
- The znode paths, watches and ephemeral nodes around the table; what a failed discovery leaves is the
  old table.
- ServerRequests.DiesExactly: says which requests raise, given what `loads` and the exported methods do
  and that `submit` of the thread pool names its own parameters `self` and `fn`; how each serializer
  decodes is a parameter. Each arrival carries the bytes of its request from its first byte on; bytes left
  over from the one before are not carried along.
- Timestamps and the completeness of the idle reaper: it stops at the first active entry in an order
  its timestamps do not follow, so a step may reap any number of the oldest.
- Starting and stopping the server, decorators, filters, exporter reflection, serializers, retry
  policies, the configuration centre and logging: they would add only easy members.

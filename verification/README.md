# FreeFlow: a verified model of its stream sockets and their helpers

FreeFlow routes RDMA traffic of containers. This project models the parts of it
whose correctness is hardest to see by reading, and proves what they promise.

**The rsocket byte stream.** Two endpoints turn an in-order, reliable queue pair
into a TCP-like stream. `Wire` holds the message words and work requests,
`EndpointOps` the state of one endpoint and each of its operations as a function.
`Protocol` puts two endpoints, their posted requests and the notifications on the
way into one step system: a step is one transfer, one credit update, one executed
request, one polled completion, one pass of the copy loop, and so on, and a run is
any sequence of possible steps of both sides. A request is fetched from the
sender's memory only when it is executed, so overwriting a buffer too early would
show. `SendQueue` (budgets, copy ring, control buffers), `Channel` and
`ChannelSteps` (one direction of the stream) and `ProtocolInv` prove the invariant
of every step; `Runs` ties it to what an observer of a run sees, and `Theorems`,
`MappedWrites`, `Shutdown`, `Disconnect`, `ShutdownRuns` and `Liveness` state the
results for all runs, all sizes and both sides. `SizeLimits` shows which sizes they need.
Positions modulo a buffer and 16-bit remainders are counted down in `Arith`, which
proves them equal to the remainders of division.

The steps keep a history beside the state (`Hist`, and the `intent` of a request):
the bytes sent and returned, message lengths, halves granted, limits announced. No
step reads it. `Runs.RunRecords` proves that it is what was observed.

**The calls.** `Calls` composes the same operations into whole calls of a
non-blocking socket, and `SendHalf`, `RecvHalf` and `Rsocket` are the code that
updates `struct rsocket` in place, proved to do what `Calls` says. Its fields are
grouped by direction into two objects. `CallRuns` proves that a call made anywhere
in a run is again a run, so that the results for runs hold for what the calls take
and return. While a call waits, the peer, the adapters and other threads of the same
socket may do anything but what its lock forbids: sending during rsend, reading
during rrecv.

**The helpers.** `Datagram` (the pools of a datagram socket, over the bytes of its
send buffer in `SendPool`), `Fastlock` (any number of threads), `Indexer` (the
two-level table), `TokenBucket` (one caller, then racing threads), `Relocation` (the
router's rewriting of posted requests, with its wait at the bucket in `Pacing`) and
`Select` (select on top of rpoll). `FreeLists` is the list threaded through its own
cells that `Datagram` and `Indexer` share.

## How the environment is modelled

- Posting succeeds, delivery is in order and reliable, send completions come in
  order and with success. Each update of the shared counters is atomic.
- The network, the peer and the scheduler are the choice of the next step. For a
  single call, what happens while it waits is a parameter (`Item`), as are clock
  values, allocation results and registered keys.
- `ValidConfig` gives the sizes the stream results hold for: an even `rbuf_size`,
  `rq_size` from 1 to 0xFFFE, at least four send entries. `SizeLimits.GrantsFit` and
  `SizeLimits.QueueSizeBoundTight` show why the first two bounds are needed.
- rshutdown is three steps with anything in between: its start up to the first look
  for a control entry, the end of its wait with the closing credit update of
  rs_process_cq, and the last test with the post.
- 16-, 32- and 64-bit wrap-around is written out wherever the code relies on it.

## Where the code does less than it seems to promise

- An `rbuf_size` that is odd and above 3, which the configuration file can set,
  makes grants reach past the end of the buffer (`SizeLimits.GrantsFit`). With an
  `rbuf_size` of 1 every grant lies in the buffer, but none has a byte
  (`SizeLimits.GrantsUseful`), so no data can ever be sent.
- Iomap messages never give their credit back (`Theorems.IomapBound`).
- SHUT_WR on both sides can leave one side connected, in three ways: the peer's
  SHUTDOWN is polled while rshutdown waits for a control entry; the credit update
  that ends the wait takes the entry (`Shutdown.CreditsTakeEntry`); or another thread
  takes it between rshutdown's look and its last test (`Shutdown.OthersTakeEntry`). In
  the last two the call returns 0 with the socket connected and nothing posted.
  `Shutdown.BothShutWrite` is the exact condition, and `ShutdownRuns` has a run for
  each.
- A failed exchange in `TokenBucket::consume` forgets the burst: the rate bound
  holds exactly when the value it finds is within a burst of the clock
  (`TokenBucket.RetryExact`; among racing threads `TokenBucket.RaceExact`), and a clock below the length of a burst inverts which
  requests pass (`TokenBucket.EarlyClock`).
- `dsend` does not look at the length of a datagram. With its header it must fit the
  2048 bytes of a slot; a longer one overwrites the next slot, whether that is free
  and holds the rest of the list or is being sent (`SendPool.FitExact`,
  `SendPool.LongDatagram`). `udp_svc_forward` copies in the same way.
- Over the socket, the router waits at the queue pair's token bucket for every entry
  of a send, holding the lock of its key table. An entry that costs more than a burst
  never gets past it (`Pacing.PacedExact`, `Relocation.LongEntryStuck`); the
  shared-memory path does not wait and builds the list (`Relocation.PathsAgree`).
- `rpoll_to_select` reports results for the wrong descriptor after a `dup2`
  (`Select.AttributionExact`, `Select.DuplicateMisattributed`), and reports in
  exceptfds descriptors that were not asked for there (`Select.ExceptWithin`).

## Model

| member | source | states |
|---|---|---|
| `Theorems.StreamPrefix` | libraries-router/librdmacm-1.1.0mlnx/src/rsocket.c:2696-2742 | in every run, what rrecv returned to one side is a prefix of what rsend accepted on the other, whatever the chunking, partial reads and ring wraps |
| `Theorems.StreamComplete` | libraries-router/librdmacm-1.1.0mlnx/src/rsocket.c:2419-2461 | nothing is lost: once nothing of a direction is on the way or queued, what was returned is exactly what was sent |
| `Theorems.EndOfStream` | libraries-router/librdmacm-1.1.0mlnx/src/rsocket.c:2285-2288 | without a local read shutdown, a socket that is no longer readable and has nothing queued has a peer that posted a close message, and has returned every byte sent before it |
| `Theorems.CounterTests` | libraries-router/librdmacm-1.1.0mlnx/src/rsocket.c:1861-1872 | in every reachable state the signed-short test on rseq_no - rseq_comp is the comparison of the unbounded counters, and sseq_no != sseq_comp holds exactly when a credit remains |
| `Theorems.WrappedTests` | libraries-router/librdmacm-1.1.0mlnx/src/rsocket.c:1864-1865 | the two 16-bit tests decide the comparison of any counters close enough, across every wrap |
| `SizeLimits.QueueSizeBoundTight` | libraries-router/librdmacm-1.1.0mlnx/src/rsocket.c:63-63 | an endpoint that has given credits owes an update exactly when half of them are used, for every number of messages read, if and only if rq_size is at most RS_QP_MAX_SIZE |
| `Theorems.MessageRoom` | libraries-router/librdmacm-1.1.0mlnx/src/rsocket.c:1922-1927 | messages and iomaps sent minus messages fully read never exceed rq_size, and a polled data message always finds a free entry of the rq_size + 1 ring |
| `Theorems.IomapBound` | libraries-router/librdmacm-1.1.0mlnx/src/rsocket.c:1777-1791 | iomap messages use credits that never come back: at most rq_size of them per connection, and after that many rs_can_send is false for good |
| `Theorems.NoDeadlock` | libraries-router/librdmacm-1.1.0mlnx/src/rsocket.c:2247-2258 | when nothing is in flight, all is polled and read and rs_give_credits is false, rs_can_send holds exactly when the sender's sizes allow a transfer and fewer iomap messages were sent than credits remain |
| `Theorems.NoDeadlockFewIomaps` | libraries-router/librdmacm-1.1.0mlnx/src/rsocket.c:1861-1872 | so a run with no iomap messages, or at most half a queue of them, never deadlocks |
| `Theorems.GrantSafe` | libraries-router/librdmacm-1.1.0mlnx/src/rsocket.c:1806-1844 | a granted half lies in the buffer and holds neither an unread byte nor space granted before and not yet written |
| `SizeLimits.GrantsFit` | libraries-router/librdmacm-1.1.0mlnx/src/rsocket.c:1799-1848 | every grant that rs_send_credits makes lies in the buffer if and only if rbuf_size is even or at most 3 |
| `SizeLimits.GrantedAt` | libraries-router/librdmacm-1.1.0mlnx/src/rsocket.c:1811-1841 | where each grant of an endpoint of any size starts and how long it is, when its reader makes room for it by reading |
| `SizeLimits.OddGrant` | libraries-router/librdmacm-1.1.0mlnx/src/rsocket.c:1838-1841 | the second grant of an odd buffer above 3 starts at its last byte |
| `SizeLimits.GrantsUseful` | libraries-router/librdmacm-1.1.0mlnx/src/rsocket.c:1811-1836 | a grant has a byte exactly when rbuf_size is at least 2 |
| `Theorems.SlotUsedUp` | libraries-router/librdmacm-1.1.0mlnx/src/rsocket.c:1834-1844 | a grant always lands in a target_sgl slot the sender has used up |
| `Theorems.WriteSafe` | libraries-router/librdmacm-1.1.0mlnx/src/rsocket.c:1749-1761 | every data write carries its bytes of the stream, lands within one half of the peer's buffer and covers no unread byte |
| `Theorems.WrapOnlyAtEnd` | libraries-router/librdmacm-1.1.0mlnx/src/rsocket.c:2443-2451 | rrecv's wrap branch is only taken with end_size 0 |
| `Theorems.SendQueueBound` | libraries-router/librdmacm-1.1.0mlnx/src/rsocket.c:2290-2295 | outstanding data and control entries never exceed their shares of sq_size, and a connected socket has all sends done exactly when nothing is outstanding |
| `Theorems.PayloadsIntact` | libraries-router/librdmacm-1.1.0mlnx/src/rsocket.c:2716-2742 | sbuf_bytes_avail plus what outstanding requests are charged is sbuf_size, and each of them still finds in memory exactly what it was posted with |
| `Theorems.CtrlBuffersApart` | libraries-router/librdmacm-1.1.0mlnx/src/rsocket.c:1623-1627 | two outstanding requests never share a control buffer |
| `MappedWrites.MappedIntact` | libraries-router/librdmacm-1.1.0mlnx/src/rsocket.c:1764-1791 | in every run, what the adapter has written into memory the peer mapped, read from the sender's memory at the time, followed by what is still posted, is exactly what riowrite and the iomap messages were given: each once, in order, and each mapping in its own slot |
| `MappedWrites.StepWrites` | libraries-router/librdmacm-1.1.0mlnx/src/rsocket.c:1764-1791 | every step keeps that, and moves nothing of the other side |
| `Liveness.Unblocks` | libraries-router/librdmacm-1.1.0mlnx/src/rsocket.c:2005-2035 | however the application reads and the adapters work from a reachable state on, in runs free of errors, once nothing is left for them to do every byte sent has been returned, and the sender can send again, with the same exact exceptions as above |
| `Liveness.Settles` | libraries-router/librdmacm-1.1.0mlnx/src/rsocket.c:2005-2035 | and from every reachable state that point can be reached |
| `Liveness.RestExact` | libraries-router/librdmacm-1.1.0mlnx/src/rsocket.c:2005-2035 | nothing is left to do exactly when nothing is on the way, unread or due |
| `Liveness.SettlingLess` | libraries-router/librdmacm-1.1.0mlnx/src/rsocket.c:2005-2035 | every step of such a continuation brings the connection closer to rest, so it cannot go on for ever |
| `Liveness.BothEnd` | libraries-router/librdmacm-1.1.0mlnx/src/rsocket.c:3218-3245 | once both sides have posted a close message, all those error-free continuations leave both disconnected with everything returned that the other sent |
| `Shutdown.BothClose` | libraries-router/librdmacm-1.1.0mlnx/src/rsocket.c:3218-3240 | once both sides have posted a close message, crossing or not and with any mix of rshutdown calls, a settled connection is disconnected on both sides |
| `Shutdown.BothShutWrite` | libraries-router/librdmacm-1.1.0mlnx/src/rsocket.c:3222-3240 | with SHUT_WR the only shutdown used, a settled connection is disconnected on both sides if and only if on each side the last test of a call found the socket connected and a control entry free, whatever other threads did since it looked before |
| `Shutdown.ServedCloses` | libraries-router/librdmacm-1.1.0mlnx/src/rsocket.c:3238-3240 | that test decides, in every run, whether a close message was posted |
| `Shutdown.EntryLeftCounts` | libraries-router/librdmacm-1.1.0mlnx/src/rsocket.c:3238-3238 | in numbers: fewer than four control entries are in use |
| `Shutdown.StillConnected` | libraries-router/librdmacm-1.1.0mlnx/src/rsocket.c:1906-1918 | a side that never shut down reading and whose peer never posted a close message is still connected and readable |
| `Shutdown.ShutdownModes` | libraries-router/librdmacm-1.1.0mlnx/src/rsocket.c:3218-3231 | in each of its three modes rshutdown takes away the directions it is asked to and no more; it has a message to send exactly when the socket no longer writes, a DISCONNECT exactly when it no longer reads either |
| `Shutdown.ShutdownMessage` | libraries-router/librdmacm-1.1.0mlnx/src/rsocket.c:3218-3241 | an rshutdown that finds a control entry free and loses it to no one puts that message, and nothing else, behind what is posted |
| `Shutdown.ShutdownPosts` | libraries-router/librdmacm-1.1.0mlnx/src/rsocket.c:3218-3241 | so in every run and mode its side has then posted a close message |
| `Disconnect.ShutBothEnds` | libraries-router/librdmacm-1.1.0mlnx/src/rsocket.c:3219-3241 | SHUT_RDWR on one side disconnects both, in every settled run, if at its end it found the socket connected and a control entry free, whatever the peer did |
| `Disconnect.SecondShutEnds` | libraries-router/librdmacm-1.1.0mlnx/src/rsocket.c:3222-3241 | so does whichever of SHUT_RD and SHUT_WR comes second |
| `Disconnect.DisconnectEnds` | libraries-router/librdmacm-1.1.0mlnx/src/rsocket.c:1906-1918 | once a DISCONNECT is posted a settled connection is disconnected on both sides |
| `Disconnect.CallDisconnects` | libraries-router/librdmacm-1.1.0mlnx/src/rsocket.c:3218-3241 | a call that leaves the socket neither reading nor writing posts a DISCONNECT if it finds its entry, whatever happens during the call |
| `Disconnect.OwnStep` | libraries-router/librdmacm-1.1.0mlnx/src/rsocket.c:1929-1948 | a posted DISCONNECT is outstanding until it disconnects its own side, and on the way until it disconnects the other: every step of the side that posted it keeps this |
| `Disconnect.PeerStep` | libraries-router/librdmacm-1.1.0mlnx/src/rsocket.c:1906-1918 | and every step of the other side |
| `Shutdown.WaitingCloseDropped` | libraries-router/librdmacm-1.1.0mlnx/src/rsocket.c:1910-1917 | an rshutdown that waits for a control entry loses its message when the peer's SHUTDOWN is polled meanwhile |
| `Shutdown.CreditsTakeEntry` | libraries-router/librdmacm-1.1.0mlnx/src/rsocket.c:2005-2035 | or, connected as it is, when the credit update that ends the wait takes the entry that came free: exactly when the entries in use and those of the update are all four |
| `Shutdown.OthersTakeEntry` | libraries-router/librdmacm-1.1.0mlnx/src/rsocket.c:3232-3240 | or when a keepalive or credit update of another thread takes the last entry after rshutdown has looked, waited or not |
| `Shutdown.ClosePosts` | libraries-router/librdmacm-1.1.0mlnx/src/rsocket.c:3238-3240 | the end of an rshutdown posts the message decided on exactly when an entry is left, and otherwise changes nothing |
| `ShutdownRuns.ShutWriteLost` | libraries-router/librdmacm-1.1.0mlnx/src/rsocket.c:3232-3240 | SHUT_WR on both sides can leave one side connected: a run that does, for all sizes, and in every continuation in which that side does not shut down reading it stays connected |
| `ShutdownRuns.CallLost` | libraries-router/librdmacm-1.1.0mlnx/src/rsocket.c:3232-3240 | the second loss, for all sizes and both modes: one side's rshutdown returns without posting although its socket is connected and the peer did nothing |
| `ShutdownRuns.CallLostToThread` | libraries-router/librdmacm-1.1.0mlnx/src/rsocket.c:3232-3240 | the third, likewise: it did not even have to wait |
| `ShutdownRuns.ShutWriteLostToCredits` | libraries-router/librdmacm-1.1.0mlnx/src/rsocket.c:3232-3240 | so SHUT_WR on both sides can leave one connected without crossing |
| `ShutdownRuns.LostForGood` | libraries-router/librdmacm-1.1.0mlnx/src/rsocket.c:3218-3245 | a side disconnected before it posted a close message never posts one, and its peer stays connected in every error-free continuation in which it does not shut down reading itself |
| `Shutdown.StepShut` | libraries-router/librdmacm-1.1.0mlnx/src/rsocket.c:1906-1918 | every step keeps the invariant that ties the socket states, the close messages on the way and rshutdown's progress |
| `Runs.RunInv` | libraries-router/librdmacm-1.1.0mlnx/src/rsocket.c:1880-1948 | every state of every run satisfies the connection invariant |
| `Runs.RunRecords` | libraries-router/librdmacm-1.1.0mlnx/src/rsocket.c:2696-2742 | the history kept by the steps is what an observer of the calls sees: bytes sent and returned, iomap messages, bytes before the first close message |
| `Protocol.InitInv` | libraries-router/librdmacm-1.1.0mlnx/src/rsocket.c:678-733 | two endpoints that have exchanged connection data satisfy the invariant |
| `ProtocolInv.StepInv` | libraries-router/librdmacm-1.1.0mlnx/src/rsocket.c:1880-1948 | whatever an endpoint or its adapter does next keeps the invariant of both directions |
| `ProtocolInv.SendInv` | libraries-router/librdmacm-1.1.0mlnx/src/rsocket.c:2696-2742 | one transfer of rsend or rsendv keeps it |
| `ProtocolInv.IomapInv` | libraries-router/librdmacm-1.1.0mlnx/src/rsocket.c:2545-2567 | one iomap message keeps it |
| `ProtocolInv.DirectInv` | libraries-router/librdmacm-1.1.0mlnx/src/rsocket.c:3885-3907 | one direct write keeps it |
| `ProtocolInv.CreditsInv` | libraries-router/librdmacm-1.1.0mlnx/src/rsocket.c:1799-1848 | a credit update, with or without a grant, keeps it |
| `ProtocolInv.KeepaliveInv` | libraries-router/librdmacm-1.1.0mlnx/src/rsocket.c:4266-4275 | a keepalive keeps it |
| `ProtocolInv.ShutdownInv` | libraries-router/librdmacm-1.1.0mlnx/src/rsocket.c:3218-3232 | the start of an rshutdown keeps it, to wait or not |
| `ProtocolInv.ResumeInv` | libraries-router/librdmacm-1.1.0mlnx/src/rsocket.c:3232-3236 | the end of its wait keeps it: credits are given once more |
| `ProtocolInv.CloseStepInv` | libraries-router/librdmacm-1.1.0mlnx/src/rsocket.c:3238-3240 | the end of an rshutdown keeps it, its message posted or dropped |
| `ProtocolInv.CompleteInv` | libraries-router/librdmacm-1.1.0mlnx/src/rsocket.c:1930-1948 | polling a send completion keeps it |
| `ProtocolInv.PollInv` | libraries-router/librdmacm-1.1.0mlnx/src/rsocket.c:1885-1928 | polling a notification keeps it |
| `ProtocolInv.RecvInv` | libraries-router/librdmacm-1.1.0mlnx/src/rsocket.c:2432-2458 | one pass of rrecv's copy loop keeps it |
| `ChannelSteps.SendStep` | libraries-router/librdmacm-1.1.0mlnx/src/rsocket.c:1736-1762 | a transfer extends the stream by its bytes, uses one credit and moves on to the next granted half exactly when one is full |
| `ChannelSteps.CreditsStep` | libraries-router/librdmacm-1.1.0mlnx/src/rsocket.c:1799-1848 | a credit update announces what was read plus rq_size and grants the next half exactly when half the buffer is free |
| `ChannelSteps.DeliverFwd` | libraries-router/librdmacm-1.1.0mlnx/src/rsocket.c:1674-1711 | a landing data write keeps every unread byte in place |
| `ChannelSteps.GrantVisible` | libraries-router/librdmacm-1.1.0mlnx/src/rsocket.c:1834-1844 | a grant becomes visible in the slot whose previous grant is used up |
| `ChannelSteps.PollFwd` | libraries-router/librdmacm-1.1.0mlnx/src/rsocket.c:1922-1927 | a polled message is queued behind the others in the ring |
| `ChannelSteps.PollBwd` | libraries-router/librdmacm-1.1.0mlnx/src/rsocket.c:1900-1902 | a polled limit only ever raises the limit the sender goes by, stale or not |
| `ChannelSteps.RoomToPoll` | libraries-router/librdmacm-1.1.0mlnx/src/rsocket.c:2247-2258 | at most rq_size messages are sent beyond those fully read |
| `ChannelSteps.RecvStep` | libraries-router/librdmacm-1.1.0mlnx/src/rsocket.c:2432-2458 | a pass of the copy loop returns the next bytes of the stream |
| `SendQueue.TransferKeeps` | libraries-router/librdmacm-1.1.0mlnx/src/rsocket.c:2716-2742 | a transfer stays within the budgets and leaves the bytes of uncompleted transfers alone, inline, in one piece or wrapped |
| `SendQueue.IomapKeeps` | libraries-router/librdmacm-1.1.0mlnx/src/rsocket.c:2545-2567 | so does an iomap message |
| `SendQueue.DirectKeeps` | libraries-router/librdmacm-1.1.0mlnx/src/rsocket.c:3885-3907 | and a direct write |
| `SendQueue.CtrlTests` | libraries-router/librdmacm-1.1.0mlnx/src/rsocket.c:1850-1859 | rs_ctrl_avail and rs_2ctrl_avail hold exactly when at most three, or two, of the four control entries are in use, across the wrap of the 32-bit counters |
| `SendQueue.SlotIsFree` | libraries-router/librdmacm-1.1.0mlnx/src/rsocket.c:1623-1627 | the control buffer the next grant is staged in is not in use |
| `SendQueue.CreditsKeep` | libraries-router/librdmacm-1.1.0mlnx/src/rsocket.c:1799-1848 | a credit update stays within the control entries and overwrites no staged grant |
| `SendQueue.CompletionKeeps` | libraries-router/librdmacm-1.1.0mlnx/src/rsocket.c:1930-1948 | a completion returns exactly what its request held, in both immediate and MSG_SEND mode |
| `SendQueue.RingPutKeeps` | libraries-router/librdmacm-1.1.0mlnx/src/rsocket.c:2727-2741 | storing what fits in the free space of the copy ring leaves every occupied region unchanged |
| `SendQueue.RingPutReads` | libraries-router/librdmacm-1.1.0mlnx/src/rsocket.c:2727-2741 | and the gather list of the new request reads back what was stored |
| `SendQueue.QueueFacts` | libraries-router/librdmacm-1.1.0mlnx/src/rsocket.c:2290-2295 | the queue never holds more than sq_size requests, and rs_conn_all_sends_done recognises the empty queue |
| `Calls.NextFits` | libraries-router/librdmacm-1.1.0mlnx/src/rsocket.c:2709-2719 | once rs_can_send holds, the next transfer has at least one byte and stays within the ring, the budget and the target |
| `Calls.NextIsLongest` | libraries-router/librdmacm-1.1.0mlnx/src/rsocket.c:2709-2719 | and is as long as the first of its limits allows |
| `Calls.TransferIsStep` | libraries-router/librdmacm-1.1.0mlnx/src/rsocket.c:2709-2742 | so what rsend posts is always a possible step of the connection |
| `Calls.SendLoopPayload` | libraries-router/librdmacm-1.1.0mlnx/src/rsocket.c:2696-2750 | the loop of rsend posts, in order, exactly the bytes it reports as accepted, however they are cut into transfers and wherever it stops |
| `Calls.SendCallPayload` | libraries-router/librdmacm-1.1.0mlnx/src/rsocket.c:2690-2750 | so does the whole call, whatever iomap messages go first |
| `Calls.ReadyExact` | libraries-router/librdmacm-1.1.0mlnx/src/rsocket.c:2697-2707 | having waited, rsend goes on exactly when the socket then can send and still writes; it fails with EWOULDBLOCK exactly when it writes and cannot send, with ECONNRESET exactly when it no longer writes |
| `Calls.IomapLoopExact` | libraries-router/librdmacm-1.1.0mlnx/src/rsocket.c:2512-2578 | mappings are left waiting only if the socket as left cannot send or no longer writes, with the error that says which |
| `Calls.SendLoopExact` | libraries-router/librdmacm-1.1.0mlnx/src/rsocket.c:2696-2750 | so with bytes: a partial send means that the socket as left cannot send or no longer writes |
| `Calls.SendCallExact` | libraries-router/librdmacm-1.1.0mlnx/src/rsocket.c:2690-2750 | the whole call leaves nothing over exactly when it has no error, and otherwise its error is that of the socket it leaves |
| `Calls.IomapLoopMappings` | libraries-router/librdmacm-1.1.0mlnx/src/rsocket.c:2521-2573 | mappings posted and mappings waiting are, in order, those there were |
| `Calls.SendCallMappings` | libraries-router/librdmacm-1.1.0mlnx/src/rsocket.c:2512-2578 | so a call loses no mapping, changes none and writes each to the slot it announces; one without error has posted them all |
| `Calls.VectoredIsPlain` | libraries-router/librdmacm-1.1.0mlnx/src/rsocket.c:2834-2887 | the loop of rsendv does to the peer exactly what that of rsend on the concatenated buffers does: the same transfers, places, bytes and result, though it uses the copy ring differently |
| `Calls.VectoredCall` | libraries-router/librdmacm-1.1.0mlnx/src/rsocket.c:2829-2887 | and so the whole call, whatever iomap messages go first |
| `Calls.RecvTakes` | libraries-router/librdmacm-1.1.0mlnx/src/rsocket.c:2432-2458 | rrecv's copy loop returns as many bytes as it has room for, or else all that is queued |
| `Calls.EndExact` | libraries-router/librdmacm-1.1.0mlnx/src/rsocket.c:2418-2462 | rrecv with room for a byte returns none and no error if and only if what it sees after at most one wait is an empty queue on a socket that is not readable, with or without MSG_PEEK and MSG_WAITALL |
| `Calls.RecvStops` | libraries-router/librdmacm-1.1.0mlnx/src/rsocket.c:2418-2462 | rrecv fails only on an empty queue of a readable socket, and returns less than asked only with an empty queue; with MSG_WAITALL, unless it failed, only when the socket is no longer readable |
| `Calls.RecvAmount` | libraries-router/librdmacm-1.1.0mlnx/src/rsocket.c:2418-2462 | without MSG_WAITALL it returns, of what is queued after at most one wait, as much as it has room for, and takes that much, or nothing with MSG_PEEK |
| `Calls.ScanStops` | libraries-router/librdmacm-1.1.0mlnx/src/rsocket.c:1886-1949 | rs_poll_cq takes every completion there is, or all up to the first message that is the peer's last word: a DISCONNECT, or a SHUTDOWN when this side no longer writes; that disconnects |
| `CallRuns.SendInRun` | libraries-router/librdmacm-1.1.0mlnx/src/rsocket.c:2665-2750 | an rsend or rsendv made anywhere in a run goes on as a run in which its side has sent exactly the accepted bytes more, whatever the peer, the adapters and other threads of the socket do while it waits, but for sending, which slock forbids |
| `CallRuns.RecvInRun` | libraries-router/librdmacm-1.1.0mlnx/src/rsocket.c:2395-2462 | an rrecv made anywhere in a run goes on as a run, whatever happens while it waits but for reading, which rlock forbids; what it returns comes next in what the peer sent, is taken unless peeked at, and an end of stream means that every byte sent before the peer's close message was returned |
| `CallRuns.FollowsInv` | libraries-router/librdmacm-1.1.0mlnx/src/rsocket.c:678-733 | the socket of every reachable state satisfies what the calls ask for |
| `CallRuns.SeenApplies` | libraries-router/librdmacm-1.1.0mlnx/src/rsocket.c:1880-1948 | what the peer, the adapters and other threads do during a wait is, for the socket, exactly the item it sees, and within what a call assumes of it |
| `Calls.UpdateInv` | libraries-router/librdmacm-1.1.0mlnx/src/rsocket.c:1874-1878 | a credit update never changes whether data can be sent |
| `SendHalves.SendHalf.WriteData` | libraries-router/librdmacm-1.1.0mlnx/src/rsocket.c:1736-1762 | the in-place update of credits, budgets and target is the specified one, and the request is posted to the old target address |
| `SendHalves.SendHalf.StoreRing` | libraries-router/librdmacm-1.1.0mlnx/src/rsocket.c:2727-2741 | the bytes are in the ring behind the cursor, in one piece or two, and nothing else changed |
| `SendHalves.SendHalf.SendChunk` | libraries-router/librdmacm-1.1.0mlnx/src/rsocket.c:2721-2742 | one iteration of rsend: inline, through the ring in one piece or in two |
| `SendHalves.SendHalf.SendIomap` | libraries-router/librdmacm-1.1.0mlnx/src/rsocket.c:2545-2567 | one iteration of rs_send_iomaps, likewise |
| `SendHalves.SendHalf.CopyIov` | libraries-router/librdmacm-1.1.0mlnx/src/rsocket.c:2785-2803 | the next len bytes of the buffers are copied, and the position moves by exactly that many, across empty buffers and split ones |
| `SendHalves.SendHalf.SendChunkv` | libraries-router/librdmacm-1.1.0mlnx/src/rsocket.c:2852-2876 | one iteration of rsendv sends the next bytes of the buffers |
| `SendHalves.SendHalf.PostGrant` | libraries-router/librdmacm-1.1.0mlnx/src/rsocket.c:1807-1836 | the grant is staged in the control buffer of its sequence number, or goes inline |
| `SendHalves.SendHalf.Complete` | libraries-router/librdmacm-1.1.0mlnx/src/rsocket.c:1930-1948 | a completed request gives back its control entry, or its data entry and bytes, and a DISCONNECT is recognised |
| `RecvHalves.RecvHalf.TakeHead` | libraries-router/librdmacm-1.1.0mlnx/src/rsocket.c:2433-2441 | the message at the head is shortened, or taken off and counted |
| `RecvHalves.RecvHalf.CopyRing` | libraries-router/librdmacm-1.1.0mlnx/src/rsocket.c:2443-2457 | the bytes from the offset on, wrapping at the end, reach the caller's buffer |
| `RecvHalves.RecvHalf.CopyChunk` | libraries-router/librdmacm-1.1.0mlnx/src/rsocket.c:2433-2457 | one pass of the copy loop, in place |
| `RecvHalves.RecvHalf.Copy` | libraries-router/librdmacm-1.1.0mlnx/src/rsocket.c:2432-2458 | the copy loop fills the caller's buffer with the specified bytes and nothing else |
| `RecvHalves.RecvHalf.Peek` | libraries-router/librdmacm-1.1.0mlnx/src/rsocket.c:2358-2390 | rs_peek returns what the copy loop would return, and changes nothing |
| `Rsockets.Rsocket.constructor` | libraries-router/librdmacm-1.1.0mlnx/src/rsocket.c:678-733 | a new socket is the specified initial state with its peer's first grant and credits and all its receives posted, and satisfies the queue invariant |
| `Rsockets.Rsocket.SendCredits` | libraries-router/librdmacm-1.1.0mlnx/src/rsocket.c:1799-1848 | the in-place credit update is the specified one, with a half granted exactly when half the buffer is free |
| `Rsockets.Rsocket.UpdateCredits` | libraries-router/librdmacm-1.1.0mlnx/src/rsocket.c:1874-1878 | credits are sent exactly when they are to be given, within the budgets |
| `Rsockets.Rsocket.PollReceipt` | libraries-router/librdmacm-1.1.0mlnx/src/rsocket.c:1885-1928 | what a receive completion does to the state, the limit or the message ring |
| `Rsockets.Rsocket.PollDone` | libraries-router/librdmacm-1.1.0mlnx/src/rsocket.c:1929-1948 | what a send completion does to the budgets and the state |
| `Rsockets.Rsocket.ScanCq` | libraries-router/librdmacm-1.1.0mlnx/src/rsocket.c:1886-1949 | rs_poll_cq takes every completion there is, unless a message of the peer disconnects |
| `Rsockets.Rsocket.PollCq` | libraries-router/librdmacm-1.1.0mlnx/src/rsocket.c:1880-1962 | and then posts as many receives as were used up if the socket is still connected, so that all of them are posted again |
| `Rsockets.Rsocket.MakeReady` | libraries-router/librdmacm-1.1.0mlnx/src/rsocket.c:2697-2707 | the wait at the head of an iteration, and exactly which socket it leaves in each of the three ways it ends |
| `Rsockets.Rsocket.QueueIomap` | libraries-router/librdmacm-1.1.0mlnx/src/rsocket.c:3782-3785 | riomap puts its mapping at the end of those that the next rsend sends |
| `Rsockets.Rsocket.SendIomaps` | libraries-router/librdmacm-1.1.0mlnx/src/rsocket.c:2512-2578 | the pending iomap messages, in place: all sent in order, or stopped on a socket that cannot send or no longer writes, with the error that says which |
| `Rsockets.Rsocket.Rsend` | libraries-router/librdmacm-1.1.0mlnx/src/rsocket.c:2665-2750 | the whole call, in place, is the specified one: pending iomap messages, then the loop, with its final state, bytes accepted and error; no error means that all was sent, EWOULDBLOCK that the socket cannot send, ECONNRESET that it no longer writes |
| `Rsockets.Rsocket.Rsendv` | libraries-router/librdmacm-1.1.0mlnx/src/rsocket.c:2805-2887 | the same of rsendv, on the concatenation of its buffers |
| `Rsockets.TotalLength` | libraries-router/librdmacm-1.1.0mlnx/src/rsocket.c:2823-2827 | the sum of the buffer lengths |
| `Rsockets.Rsocket.Await` | libraries-router/librdmacm-1.1.0mlnx/src/rsocket.c:2420-2425 | the wait at the head of rrecv's loop, and the ways it ends |
| `Rsockets.Rsocket.Rrecv` | libraries-router/librdmacm-1.1.0mlnx/src/rsocket.c:2395-2462 | the whole call, in place, with MSG_PEEK and MSG_WAITALL, is the specified one: the caller's buffer, the state, the bytes returned and the error |
| `Wire.MsgRoundTrip` | libraries-router/librdmacm-1.1.0mlnx/src/rsocket.c:144-146 | rs_msg_op and rs_msg_data take apart what rs_msg_set put together |
| `FreeLists.TakeHead` | libraries-router/librdmacm-1.1.0mlnx/src/rsocket.c:2646-2649 | taking the head of a list threaded through its cells leaves an acyclic list of exactly the others |
| `FreeLists.PutHead` | libraries-router/librdmacm-1.1.0mlnx/src/rsocket.c:2112-2117 | putting a cell in use at the head leaves an acyclic list of exactly one more |
| `SendPool.FitExact` | libraries-router/librdmacm-1.1.0mlnx/src/rsocket.c:2646-2653 | dsend leaves the free list and every message in flight intact, whatever the datagram contains, if and only if header and datagram together fit a slot of RS_SNDLOWAT bytes, for all pools, slots and lengths |
| `SendPool.ShortKeeps` | libraries-router/librdmacm-1.1.0mlnx/src/rsocket.c:2650-2651 | a message that fits its slot leaves every link and every message in flight in memory as it was |
| `SendPool.LongBreaks` | libraries-router/librdmacm-1.1.0mlnx/src/rsocket.c:2650-2651 | for every longer one some contents destroy the next slot, its link or its message, or leave the buffer |
| `SendPool.LongDatagram` | libraries-router/librdmacm-1.1.0mlnx/src/rsocket.c:2650-2651 | 2041 bytes behind an IPv4 header turn the end of a two-slot list into address 1 |
| `SendPool.AddressFits` | libraries-router/librdmacm-1.1.0mlnx/src/rsocket.c:176-178 | the link stored in the first bytes of a slot reads back as the address it was |
| `SendPool.WriteHolds` | libraries-router/librdmacm-1.1.0mlnx/src/rsocket.c:2113-2115 | writing within one slot leaves what all others hold in memory |
| `Datagram.AllFree` | libraries-router/librdmacm-1.1.0mlnx/src/rsocket.c:1088-1097 | the list built at the start holds every send slot once and ends |
| `Datagram.TakeKeeps` | libraries-router/librdmacm-1.1.0mlnx/src/rsocket.c:2646-2651 | dsend's slot was not in flight; when its message fits, sqe_avail stays the length of an acyclic list of the other free slots, and memory holds their links and all messages in flight |
| `Datagram.ReturnKeeps` | libraries-router/librdmacm-1.1.0mlnx/src/rsocket.c:2112-2117 | a send completion puts its slot back, never twice, in memory too |
| `Datagram.ReceiveKeeps` | libraries-router/librdmacm-1.1.0mlnx/src/rsocket.c:2099-2107 | a received message moves its slot from the adapter to the ring; rqe_avail plus queued messages stays rq_size |
| `Datagram.RepostKeeps` | libraries-router/librdmacm-1.1.0mlnx/src/rsocket.c:2347-2353 | reading a message moves its slot back |
| `Datagram.RingPush` | libraries-router/librdmacm-1.1.0mlnx/src/rsocket.c:2101-2107 | the ring of rq_size + 1 entries has room for every message |
| `Datagram.NewPairKeeps` | libraries-router/librdmacm-1.1.0mlnx/src/rsocket.c:1523-1527 | a new queue pair adds all its receive slots |
| `Datagram.Dsocket.constructor` | libraries-router/librdmacm-1.1.0mlnx/src/rsocket.c:1073-1105 | all send slots are free, all receive entries available, and nothing is in flight |
| `Datagram.Dsocket.LinkSlots` | libraries-router/librdmacm-1.1.0mlnx/src/rsocket.c:1091-1097 | memory holds the list of all slots in order |
| `Datagram.Dsocket.Take` | libraries-router/librdmacm-1.1.0mlnx/src/rsocket.c:2646-2653 | the slot at the head is taken, header and datagram are copied there as far as they reach, and the pool is intact if they fit |
| `Datagram.Dsocket.Send` | libraries-router/librdmacm-1.1.0mlnx/src/rsocket.c:2631-2657 | a non-blocking dsend uses a free slot, polling once if there is none, and fails exactly when no slot was free and no send completion was waiting; if header and datagram fit a slot the pool stays intact and no other message in flight changes; messages that the poll brings are queued behind those there were, in the order of their pair, and without a poll the queue stays as it is |
| `Datagram.Dsocket.AddQp` | libraries-router/librdmacm-1.1.0mlnx/src/rsocket.c:407-415 | a new queue pair posts all its receive slots, goes behind the pair that qp_list points to, and becomes the one it points to |
| `Datagram.Dsocket.PollSend` | libraries-router/librdmacm-1.1.0mlnx/src/rsocket.c:2112-2117 | the slot of a completed send is free again, and no other slot changes |
| `Datagram.Dsocket.PollRecv` | libraries-router/librdmacm-1.1.0mlnx/src/rsocket.c:2097-2111 | a valid message is queued when there is room, and its slot is posted again otherwise |
| `Datagram.Dsocket.RecvFrom` | libraries-router/librdmacm-1.1.0mlnx/src/rsocket.c:2322-2356 | a non-blocking ds_recvfrom returns the oldest message, or after one poll the first that its queue pair announced, and fails exactly when none came; its slot is posted again unless peeking; every other message polled stays queued in the order of its pair, none is lost while a receive entry is free, and no message in flight changes |
| `Datagram.Dsocket.PollCqs` | libraries-router/librdmacm-1.1.0mlnx/src/rsocket.c:2079-2127 | over any number of queue pairs the round-robin poll ends, with every completion taken or with no room to receive and a slot to send from; in flight stays what was, but for the sends whose completion was polled, and no message still in flight changes; of each pair the messages are queued in the order announced, all of them while there is room; each pair has been polled once for every round that passed it, and the next call goes on behind the pair polled last |
| `Datagram.FairlyPolled` | libraries-router/librdmacm-1.1.0mlnx/src/rsocket.c:2085-2121 | so no queue pair with completions left is two behind another |
| `Datagram.PollStep` | libraries-router/librdmacm-1.1.0mlnx/src/rsocket.c:2097-2111 | one more completion polled keeps each pair's order |
| `Datagram.FirstAnnounced` | libraries-router/librdmacm-1.1.0mlnx/src/rsocket.c:2097-2111 | the first message queued is the first that its pair announced |
| `Fastlock.ReachableInv` | libraries-router/librdmacm-1.1.0mlnx/src/cma.h:119-137 | holders plus pending releases plus the semaphore is 1 while the counter is positive and 0 otherwise, in every run of any number of threads |
| `Fastlock.MutualExclusion` | libraries-router/librdmacm-1.1.0mlnx/src/cma.h:128-137 | two threads never hold the lock at once |
| `Fastlock.NoLostWakeup` | libraries-router/librdmacm-1.1.0mlnx/src/cma.h:128-137 | unless every thread is outside, one that has started can go on |
| `Fastlock.AllDrain` | libraries-router/librdmacm-1.1.0mlnx/src/cma.h:128-137 | however the threads that have started go on from a reachable state, they make a bounded number of steps, and when none can go on every thread is outside and the lock is at rest: none is stranded |
| `Fastlock.Drains` | libraries-router/librdmacm-1.1.0mlnx/src/cma.h:128-137 | and that point can be reached |
| `Indexer.GrowKeeps` | libraries-router/librdmacm-1.1.0mlnx/src/indexer.c:57-84 | a new block becomes an acyclic list of exactly its indices except 0 |
| `Indexer.InsertKeeps` | libraries-router/librdmacm-1.1.0mlnx/src/indexer.c:91-105 | the index taken was free, and the list and the live items stay exact |
| `Indexer.RemoveKeeps` | libraries-router/librdmacm-1.1.0mlnx/src/indexer.c:107-117 | a removed index is at the head of the list, the rest is unchanged |
| `Indexer.FullWhen` | libraries-router/librdmacm-1.1.0mlnx/src/indexer.c:62-63 | with no free index and every block in use, exactly 1..65535 are live |
| `Indexer.Table.Grow` | libraries-router/librdmacm-1.1.0mlnx/src/indexer.c:57-89 | fails exactly when all blocks are in use or memory is short |
| `Indexer.Table.Insert` | libraries-router/librdmacm-1.1.0mlnx/src/indexer.c:91-105 | returns a fresh index in 1..65535 that leads to the item and leaves every other live index alone, and fails exactly when every index is live or memory is short |
| `Indexer.Table.Remove` | libraries-router/librdmacm-1.1.0mlnx/src/indexer.c:107-117 | returns the item and frees only its index |
| `Indexer.Table.At` | libraries-router/librdmacm-1.1.0mlnx/src/indexer.h:74-77 | a live index leads to its item |
| `TokenBucket.Bucket.constructor` | ffrouter/tokenbucket.h:34-38 | a new bucket starts at time 0 with the cost of a token and of a burst |
| `TokenBucket.Bucket.Consume` | ffrouter/tokenbucket.h:51-81 | the loop, with its exchanges failing any number of times |
| `TokenBucket.NoRetry` | ffrouter/tokenbucket.h:60-73 | without failed exchanges the loop is one comparison |
| `TokenBucket.SucceedsWhen` | ffrouter/tokenbucket.h:60-73 | a request succeeds exactly when it costs at most a burst and at most the time since the stored time |
| `TokenBucket.EarlyClock` | ffrouter/tokenbucket.h:58-66 | before the clock reaches the length of a burst the subtraction wraps, and only requests costing at least the missing time get through |
| `TokenBucket.ServeMoves` | ffrouter/tokenbucket.h:60-78 | a call moves the stored time by at least what it grants and never past the clock; one whose last attempt started within a burst of the clock leaves it within a burst less its cost |
| `TokenBucket.RateBound` | ffrouter/tokenbucket.h:51-81 | one caller: consecutive calls, failed exchanges included, are granted at most the elapsed time plus one burst as long as every retry started within a burst of the clock |
| `TokenBucket.WindowBound` | ffrouter/tokenbucket.h:51-81 | so for every window of every run of a new bucket, whatever the calls before it found |
| `TokenBucket.RaceWindow` | ffrouter/tokenbucket.h:51-81 | all threads together: in every window of every interleaving the requests granted cost at most the time since the earliest clock reading in use plus one burst, as long as every exchange that succeeds started within a burst of its clock reading |
| `TokenBucket.RaceRate` | ffrouter/tokenbucket.h:51-81 | so from every point of every run at which no call is under way: elapsed time plus one burst |
| `TokenBucket.RaceExact` | ffrouter/tokenbucket.h:68-78 | a thread alone in the loop keeps the bound from its clock reading on, for all that can follow, if and only if it is granted from a value within a burst of that reading or others have read a clock ahead of it by at least its cost |
| `TokenBucket.StaleBreaks` | ffrouter/tokenbucket.h:77-77 | otherwise its next call for a burst breaks it |
| `TokenBucket.StaleRun` | ffrouter/tokenbucket.h:68-78 | a run of two threads that gets there |
| `TokenBucket.RetryExact` | ffrouter/tokenbucket.h:68-78 | a call with failed exchanges keeps the rate bound for all calls that can follow if and only if the value the last of them found was within a burst of the clock |
| `TokenBucket.RetryBase` | ffrouter/tokenbucket.h:68-78 | where the loop ends up after failed exchanges |
| `TokenBucket.RetryBreaksBound` | ffrouter/tokenbucket.h:77-77 | otherwise, whatever the rates, one more call less than a token's time later breaks it |
| `TokenBucket.RaceStep` | ffrouter/tokenbucket.h:60-78 | under any interleaving the stored time never goes back, moves by at least the cost of each grant and never passes the latest clock value |
| `TokenBucket.TotalBound` | ffrouter/tokenbucket.h:60-78 | so the cost of everything ever granted is at most the latest clock value |
| `Relocation.ChainInOrder` | ffrouter/ffrouter.cpp:410-416 | following next visits every request in order and ends |
| `Relocation.WalkFrom` | ffrouter/ffrouter.cpp:410-416 | and from any request the rest of them |
| `Relocation.SlicesPartition` | ffrouter/ffrouter.cpp:417-445 | every scatter/gather entry belongs to exactly one request |
| `Relocation.SliceInside` | ffrouter/ffrouter.cpp:417-445 | and no request reaches outside the entries |
| `Relocation.SlicesInOrder` | ffrouter/ffrouter.cpp:417-445 | the entries of an earlier request come before those of a later one |
| `Relocation.InsideRegion` | ffrouter/ffrouter.cpp:387-404 | an RDMA address inside the client's region goes to the same offset inside the router's |
| `Relocation.RelocatedPlaces` | ffrouter/ffrouter.cpp:1516-1524 | the remote address of an RDMA write, write with immediate or read whose key is known keeps its distance from the start of its region, modulo 2^64; every other keeps its value, and nothing but the list pointers changes besides |
| `Relocation.DonePlaces` | ffrouter/ffrouter.cpp:434-439 | an entry in use lies as far behind the base of its key, or behind zero, as its address said; its length and key stay, and no other entry changes |
| `Relocation.SleepsExact` | ffrouter/ffrouter.cpp:383-407 | a request with an unknown key sleeps until it is registered, but only until there have been five sleeps in all requests together, and then goes by the table at hand |
| `Relocation.KeyFound` | ffrouter/ffrouter.cpp:383-407 | so a key registered within the five sleeps, and not taken away again, is found, and no other is |
| `Relocation.PathsAgree` | ffrouter/ffrouter.cpp:1516-1560 | when every remote key needed is registered, the socket path builds the list of the shared-memory path on every clock that moves on far enough if and only if no entry costs more than a burst of its token bucket; otherwise it builds none on any clock |
| `Relocation.RegionsAgree` | ffrouter/ffrouter.cpp:1516-1524 | with those keys both paths find the same remote regions |
| `Relocation.LongEntryStuck` | ffrouter/ffrouter.cpp:1538-1548 | with the default rates an entry of 4000001 bytes keeps the socket path waiting for ever, while the shared-memory path builds its list |
| `Pacing.PacedExact` | ffrouter/ffrouter.cpp:1537-1548 | the loop that calls consume until it succeeds, entry after entry, ends on every clock that moves on by a burst as often as there are entries if and only if no entry costs more than a burst, and otherwise on none |
| `Pacing.NeverPaced` | ffrouter/ffrouter.cpp:1538-1548 | with one entry above a burst no clock gets it to its end |
| `Pacing.PacedInTime` | ffrouter/ffrouter.cpp:1538-1548 | with none, each entry takes at most one burst of clock time |
| `Pacing.Refused` | ffrouter/tokenbucket.h:51-81 | an amount above a burst is refused at every clock value, early or late |
| `Relocation.Router.FixSges` | ffrouter/ffrouter.cpp:422-439 | each entry's base is added once, a missing key counting as a null base |
| `Relocation.Router.FixPointers` | ffrouter/ffrouter.cpp:411-420 | next and sg_list of one request |
| `Relocation.Router.FixLists` | ffrouter/ffrouter.cpp:410-448 | the pointers of one request, and its entries |
| `Relocation.Router.WaitFor` | ffrouter/ffrouter.cpp:1538-1548 | the loop at the bucket, for any clock readings |
| `Relocation.Router.PaceSges` | ffrouter/ffrouter.cpp:1537-1554 | each entry's base is added once, after its wait at the bucket |
| `Relocation.Router.LookUp` | ffrouter/ffrouter.cpp:387-407 | the lookup that sleeps and tries again |
| `Relocation.Router.SendShm` | ffrouter/ffrouter.cpp:381-454 | the shared-memory loop relocates every request and every entry, and no entry beyond them, exactly when the requests claim no more entries than came with them; each address keeps its distance from the start of its region, and each entry from the base of its key |
| `Relocation.Router.SendSocket` | ffrouter/ffrouter.cpp:1512-1571 | the socket loop comes to its end exactly when the requests claim no more entries than came with them and every entry gets past the bucket, for any clock readings; then it has built the specified list and relocated every address and entry likewise, by the table as it is |
| `Relocation.Router.Recv` | ffrouter/ffrouter.cpp:503-526 | the same of receive requests, on both paths, whose remote addresses stay |
| `Select.SelectToRpoll` | libraries-router/librdmacm-1.1.0mlnx/src/preload.c:924-942 | the array holds the descriptors asked for, in order; each asks for input exactly when it is in readfds and for output exactly when it is in writefds |
| `Select.EntriesAsk` | libraries-router/librdmacm-1.1.0mlnx/src/preload.c:926-937 | and none but those below nfds asked for in one of the three sets has an entry |
| `Select.RpollToSelect` | libraries-router/librdmacm-1.1.0mlnx/src/preload.c:944-971 | the scan ends on every such array, and reports each result for the descriptor it matches, counting each once |
| `Select.ScanDefined` | libraries-router/librdmacm-1.1.0mlnx/src/preload.c:949-953 | what select_to_rpoll built can be scanned, with the descriptor map unchanged |
| `Select.AttributionExact` | libraries-router/librdmacm-1.1.0mlnx/src/preload.c:949-953 | every result is attributed to the descriptor it came from if and only if no other descriptor in between shares its target |
| `Select.AttributionWhenInjective` | libraries-router/librdmacm-1.1.0mlnx/src/preload.c:317-323 | so always when fd_getd is injective on the descriptors scanned |
| `Select.DuplicateMisattributed` | libraries-router/librdmacm-1.1.0mlnx/src/preload.c:949-953 | and otherwise not: a result for a descriptor is reported for the first one that shares its target |
| `Select.Select` | libraries-router/librdmacm-1.1.0mlnx/src/preload.c:978-1002 | select through rpoll, for any readiness of the descriptors behind it: it reports what its scan matches, returns how many that are, and reports exactly the descriptors of readfds and writefds that are ready when no descriptor in between shares the target of one asked for |
| `Select.ReportedIsDue` | libraries-router/librdmacm-1.1.0mlnx/src/preload.c:924-971 | the sets it then returns: those asked for that are ready, and in exceptfds every descriptor asked for in any set that is ready in another way |
| `Select.ExceptWithin` | libraries-router/librdmacm-1.1.0mlnx/src/preload.c:965-968 | so exceptfds stays within what was asked of it if and only if no descriptor asked for only in the other sets is ready in another way |
| `Select.ExceptUnasked` | libraries-router/librdmacm-1.1.0mlnx/src/preload.c:965-968 | a caller that asks only whether a descriptor can be read finds it in exceptfds when it has hung up |

## Left out

- rs_save_conn_data's handling of hosts of different byte order, and the loss of the MSG_SEND option it causes there.
- Error completions, failed posts, rs_error and the messages lost in them.
- The buffer indices of the receives behind MSG_SEND notifications (rbuf_msg_index); receives are counted.
- Blocking waits: a call waits at most once at a time, for a given list of events; rs_get_comp's polling time and rs_process_cq's arming of the completion queue are not modelled.
- rreadv and rrecvmsg, which only pass their first buffer on.
- Rsockets.Rsocket.Rsend: its methods are one thread's; other threads (`Beside`) are in `Calls` and `CallRuns`, as a socket they leave behind.
- Calls.SendCall: writes of the peer that land while a call is not waiting are seen at its next wait; the step system has them anywhere.
- rshutdown, riowrite and keepalives as methods: they are steps of `Protocol` on values, so their update in place and rshutdown's final wait for all sends are not captured. A direct write has at least one byte, and its offset within the mapped memory is not modelled. riomap's registration and choice of an index.
- Calls of rshutdown on one socket from two threads at once.
- Calls.ItemOk: a single call assumes that its peer's messages have bytes and fit the buffer and that its grants have a length; `CallRuns.SeenApplies` proves it of two such endpoints.
- Relocation.Router.SendShm: stops where the requests claim more entries than came with them, where the code, which takes the client's word, runs on; address handles of UD queue pairs and shared receive queues are not modelled.
- Liveness.Settles: for rq_size of at least 2 (the code never goes below 16), as `Liveness.SettlingLess` and `ShutdownRuns.ShutWriteLostToCredits`; a scheduler's fairness is not modelled.
- ShutdownRuns.LostForGood: leaves out that the side which ended calls ucma_shutdown, after which its peer may see error completions.
- Liveness.BothEnd: leaves out the same, so that what the peer had not yet been delivered may be lost in the code.
- Liveness.Unblocks: leaves out the same.
- TokenBucket.RaceExact: for a thread that is alone in the loop; with others under way `TokenBucket.RaceWindow` gives the bound for fresh grants.
- Pacing.Waited: the exchanges of the one thread that uses a queue pair's bucket do not fail.
- TokenBucket.WindowBound: for a steady clock past the first burst, no overflow and stored times not ahead of the clock.
- Datagram.Dsocket.RecvFrom: returns the message; its header, the copy out of its slot and the truncation to the caller's length are not modelled.
- Fastlock.ReachableInv: does not model the counter's 32-bit wrap-around at 2^31 threads, nor fairness among waiters.
- Indexer.Table.Remove: requires a live index, as the code does without checking.
- The index map (idm_set, idm_clear, idm_lookup), ds_valid_recv's header checks, and the dlist helpers, which would only add easy members.
- Select.Select: what rpoll answers is a parameter; its timeout, its errors and a failed allocation are not modelled.
- The verbs, rdma_cm and acm plumbing, rpoll itself, the router's completion queue sweep and memory-region mapping, and all example programs.

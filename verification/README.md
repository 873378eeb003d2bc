# Transfer protocols of the RDMA/TCP benchmark

ConnectionExperiments compares RDMA and TCP by moving the same data between a client and a server.
The two programs are written separately and share no framing and no message tags: they stay together
only because both count the same messages, chunks and rounds. This project models those protocols in
Dafny and proves what they keep, for every data size, every list of chunk sizes, every loop count and
every interleaving.

`dafny verify dfyconfig.toml` checks everything.

| file | what it holds |
|---|---|
| `Sequences.dfy`, `Positions.dfy` | facts about concatenation, and where the rounds of a program lie in it |
| `Chunks.dfy` | the chunk arithmetic all loops share, with 64-bit offsets and int counts |
| `Experiment.dfy` | the metric and the declared sizes |
| `RdmaMachine.dfy` | two RDMA peers as a step machine, sessions as plans, the invariant of every run |
| `RdmaTheorems.dfy` | exclusion, alignment, data, termination and maximal runs of any plan |
| `RdmaOneSided.dfy`, `RdmaTwoSided.dfy`, `RdmaLatency.dfy` | the sessions: both programs, their plan, what every run does |
| `RdmaActions.dfy` | the RDMA programs action by action and position by position |
| `RdmaMeetings.dfy` | the messages of the two-sided latency session, position by position in the log |
| `RdmaRun.dfy`, `RdmaRunData.dfy`, `RdmaRunLatency.dfy` | a whole run for a metric: when it completes, what it does to the data, its latency part, how many meetings it has |
| `RdmaPeers.dfy`, `RdmaEndpoints.dfy` | the loops of `RdmaClient` and `RdmaServer` on arrays, proved to issue exactly those programs |
| `TcpMachine.dfy` | two TCP peers over an adversarial byte stream, and what every run of them does |
| `TcpSessions.dfy` | the TCP rounds: end to end data, boundaries, quiescence |
| `TcpCuts.dfy` | any segmentation is a run of the machine |
| `TcpActions.dfy` | the TCP programs action by action and position by position |
| `TcpRoom.dfy` | the buffers the peers receive into: exactly when no receive leaves one, and so when a run completes |
| `TcpQuiet.dfy` | when the shared socket is empty between rounds: exactly when every round sends a byte |
| `TcpLoops.dfy`, `TcpPeers.dfy` | the retry, chunk and round loops of `TcpClient` and `TcpServer`, proved to make exactly the calls of those programs |

## How it fits together

An RDMA session is written once as a *plan*: blocks of buffer operations that each end in a meeting of
the two peers (a message or the connection handshake), and then what each peer has left if the two
never meet again. `ClientPart` and `ServerPart` project it to two programs. The step machine runs two
such programs in any order: an action is started, happens, and is returned from in separate steps; a
send completes only once the peer has posted a receive; while a buffer operation is outstanding the bytes
it writes may hold anything that the operation will still overwrite (`Torn`). The theorems of
`RdmaTheorems.dfy` hold of every run of every plan in which, between two meetings, only one side
touches the server's region. For each session the program of each side is defined from its own loops,
the loops are proved to issue it, and it is proved to be the projection of one plan. The data theorems
depend on the exclusion theorem: with a refill under way during a read, a torn byte would get through.

A TCP session is a list of messages, each with the room of the buffer it is received into; each
side's program sends its own and receives the others by length. A run is any sequence of possible
calls with any positive byte counts and any capacity; a byte stored behind the end of a buffer raises
a fault flag that stays up, and what the program does after that is not promised.
`Socket` is the same stream seen from one side; `Made` says that the calls a loop made are the
program's, with the partial counts the stream chose.

## Assumptions

* Verbs library (infinity, not part of this model): messages are neither lost nor reordered, a send
  completes only once the peer has posted a receive that takes it, a one-sided read or write has
  happened when its wait returns, connecting and accepting complete together.
* TCP: a reliable in-order byte stream (section 1.5 of RFC 793); `send` and `recv` return positive
  counts, at most `Socket.most` bytes a call (any positive number).
* Random data, uninitialised buffers and the bytes in control messages are parameters, arbitrary but
  of the right length (one control byte value per session).

## Findings

* The two-sided throughput session finishes exactly when no chunk size divides the data size. The
  sender always issues a last message of `n % b` bytes, the receiver stops after `ceil(n / b)`. With
  the declared sizes a run with a throughput part completes exactly when 1024 does not divide the
  data size (`DeclaredRunStalls` gives a run at 1024 bytes that stalls); the default 780000000 is not
  a multiple of it.
* The receiver's index `x += buffer_size` may pass `n`; the loop keeps its meaning exactly when
  `ceil(n / b) * b` fits in 64 bits. At n = 2^64 - 1 and b = 1024 the index comes back to 0 and the
  loop never ends. `main` reads the data size as an int: a size it accepts as such is below 2^31 and
  never gets there, and a negative one, which becomes at least 2^64 - 2^31 as a size_t, would need
  buffers of that size in the sessions before. Every other index stays within `n`. The byte
  accumulators keep their meaning exactly while every count a call can report fits in an int.
* The TCP socket is empty between rounds in every run if and only if every round sends a byte: a
  server whose round brings none (no data, no loops or empty messages) can acknowledge it before the
  client has begun it, and the acknowledgement is then in flight across the boundary.
* `TcpClient::throughput_test` stores the acknowledgement over the first byte of its data, and empty
  data, which `-datasize 0` asks for, has none. No receive of any TCP run leaves its buffer if and
  only if the run has no throughput round or its data is not empty, and no latency size is zero; a
  run that cannot go on is complete under exactly that condition.

## Model

| member | source | states |
|---|---|---|
| Chunks.SpansTile | ConnectionExperiments/RdmaClient.cpp:98-121 | the stretches a chunk loop transfers tile [0, n) in order, without gap or overlap |
| Chunks.SpansInBounds | ConnectionExperiments/TcpServer.cpp:83-93 | no stretch of a chunk loop reaches outside the buffer |
| Chunks.SpansClosedForm | ConnectionExperiments/RdmaServer.cpp:108-123 | the stretches are n / b full chunks at multiples of b and the n % b bytes from `last_index` |
| Chunks.SplitClosedForm | ConnectionExperiments/TcpClient.cpp:90-95 | message i of a round is data[i*b .. (i+1)*b], the last one the remainder |
| Chunks.SplitJoin | ConnectionExperiments/TcpServer.cpp:83-93 | putting the chunks of any data back together gives the data, for every size |
| Chunks.MessageCounts | ConnectionExperiments/RdmaServer.cpp:103-124 | the sender issues n/b + 1 messages, the receiver takes ceil(n/b); they differ by one exactly when b divides n |
| Chunks.ChunkGuard | ConnectionExperiments/RdmaClient.cpp:98-114 | the 64-bit loop guard holds exactly while a whole chunk is left, and the wrapping sum is the true sum |
| Chunks.ReceiverLoopWraps | ConnectionExperiments/RdmaClient.cpp:213-219 | the wrapping receive loop ends after ceil(n/b) rounds if and only if ceil(n/b) * b fits in 64 bits |
| Chunks.ReceiverLoopNeverEnds | ConnectionExperiments/RdmaClient.cpp:213-219 | for 2^64 - 1 bytes in chunks of 1024 the wrapping receive loop stays inside for ever |
| Chunks.AddCountExact | ConnectionExperiments/TcpServer.cpp:119-129 | an accumulator fed through an int has its true value if and only if the count is below 2^31 |
| RdmaMachine.TornRead | ConnectionExperiments/RdmaClient.cpp:106-113 | while a read is outstanding the bytes it is to fill may hold anything, and nothing else changes |
| RdmaMachine.TornWrite | ConnectionExperiments/RdmaClient.cpp:167-174 | while a write is outstanding the bytes it is to fill in the region may hold anything, and nothing else changes |
| RdmaMachine.ClientStepsWhen | ConnectionExperiments/RdmaClient.cpp:31-43 | the client can step by itself exactly if it has something to do and does not wait for the server |
| RdmaMachine.RunKeepsInv | ConnectionExperiments/RdmaServer.cpp:19-31 | every reachable state of two matching programs is a stage of one block, with the buffers that stage must have |
| RdmaTheorems.EveryStateSafe | ConnectionExperiments/RdmaServer.cpp:50-55 | no race on the region, meetings in the planned order with the planned payload, no access out of bounds, in every reachable state |
| RdmaTheorems.MessagesMatch | ConnectionExperiments/RdmaClient.cpp:31-43 | every untyped message is taken by the receive written for it and fits it |
| RdmaTheorems.LocalAtMeeting | ConnectionExperiments/RdmaClient.cpp:115-125 | a client on its way into a meeting holds in its local buffer what the block order puts there |
| RdmaTheorems.RegionAfterMeeting | ConnectionExperiments/RdmaServer.cpp:69-74 | a server returning from a wait finds the region as the block order left it, if the client's next block keeps off the region |
| RdmaTheorems.RunsAreBounded | ConnectionExperiments/RdmaClient.cpp:105-125 | no run takes more than three steps an action |
| RdmaTheorems.MaximalRunsEnd | ConnectionExperiments/RdmaServer.cpp:95-128 | every run that cannot go on has completed every block and stands exactly at the two rests |
| RdmaTheorems.FinishedRunPairs | ConnectionExperiments/RdmaServer.cpp:19-31 | a finished run's meetings are all those of the two programs, the u-th of one side with the u-th of the other |
| RdmaTheorems.FinishedRunLength | ConnectionExperiments/RdmaClient.cpp:31-36 | a finished run takes three steps for every action of either side, less one for every meeting |
| RdmaTheorems.RunsCanBeCompleted | ConnectionExperiments/RdmaServer.cpp:19-31 | every run can be carried on to one that cannot go on |
| RdmaActions.ReadClientActions | ConnectionExperiments/RdmaClient.cpp:93-130 | round r of the read client at its position: a new buffer, the wait, n/b reads of that round's b bytes at multiples of b, one of n % b at n - n % b, the end message |
| RdmaActions.ReadClientEnds | ConnectionExperiments/RdmaClient.cpp:74-91 | the read client begins with the connection, ends with one last message, and has no action besides |
| RdmaActions.ReadServerActions | ConnectionExperiments/RdmaServer.cpp:40-60 | the whole read server: buffer, connection, refill, Ready and wait in every round, one last wait |
| RdmaActions.WriteClientActions | ConnectionExperiments/RdmaClient.cpp:142-190 | round r of the write client at its position: the wait, n/b writes of that round's b bytes, one of n % b, the end message, the refill |
| RdmaActions.WriteClientEnds | ConnectionExperiments/RdmaClient.cpp:132-152 | the write client begins with its data and the connection, ends with one last message, and has no action besides |
| RdmaActions.WriteServerActions | ConnectionExperiments/RdmaServer.cpp:62-77 | the whole write server: buffer, connection, n zero bytes, Ready and wait in every round, one last wait |
| RdmaActions.TwoClientActions | ConnectionExperiments/RdmaClient.cpp:206-226 | round r of the two-sided client: Ready, ceil(n/b) receives of b bytes, the end message |
| RdmaActions.TwoClientEnds | ConnectionExperiments/RdmaClient.cpp:192-204 | the two-sided client begins with the connection and has no action besides its rounds |
| RdmaActions.TwoServerActions | ConnectionExperiments/RdmaServer.cpp:95-128 | round r of the two-sided server: the wait, n/b messages of b bytes, one of n % b, the wait for the end |
| RdmaActions.TwoServerEnds | ConnectionExperiments/RdmaServer.cpp:79-93 | the two-sided server begins with its buffer and the connection and has no action besides its rounds |
| RdmaActions.OneSidedLatencyActions | ConnectionExperiments/RdmaClient.cpp:303-318 | round r of a one-sided latency client: a new buffer and L reads (or writes) of that round's size at offset 0 |
| RdmaActions.OneSidedLatencyEnds | ConnectionExperiments/RdmaClient.cpp:250-265 | a one-sided latency session has those rounds for every size, a connection and one last message; its server registers, accepts and waits |
| RdmaActions.TwoLatencyClientActions | ConnectionExperiments/RdmaClient.cpp:341-360 | round r of the two-sided latency client: Ready, L messages of the round's buffer, the end message |
| RdmaActions.TwoLatencyServerActions | ConnectionExperiments/RdmaServer.cpp:176-193 | round r of its server: the wait, L receives of the round's size, the wait for the end |
| RdmaActions.TwoLatencyEnds | ConnectionExperiments/RdmaServer.cpp:161-174 | both sides of the two-sided latency session begin with the connection and have no action besides their rounds |
| RdmaOneSided.ReadsCopy | ConnectionExperiments/RdmaClient.cpp:105-122 | the chunked reads copy the whole region into the local buffer |
| RdmaOneSided.WritesCopy | ConnectionExperiments/RdmaClient.cpp:166-183 | the chunked writes copy the whole local buffer into the region |
| RdmaOneSided.ReadTp.Projects | ConnectionExperiments/RdmaServer.cpp:40-60 | the client's and the server's read session are the two sides of one plan |
| RdmaOneSided.WriteTp.Projects | ConnectionExperiments/RdmaServer.cpp:62-77 | the client's and the server's write session are the two sides of one plan |
| RdmaOneSided.ReadSessionSafe | ConnectionExperiments/RdmaClient.cpp:93-130 | the refill never overlaps an outstanding read, at every Ready the region and at every end-of-round message the local buffer is that round's data |
| RdmaOneSided.ReadSessionFinishes | ConnectionExperiments/RdmaClient.cpp:74-91 | no run of the read session deadlocks, and every message sent has been received at the end |
| RdmaOneSided.WriteSessionSafe | ConnectionExperiments/RdmaClient.cpp:142-190 | the memset never overlaps an outstanding write, at every Ready the region is all zero, and when the server's wait for round r returns its buffer is the client's round-r source |
| RdmaOneSided.WriteSessionFinishes | ConnectionExperiments/RdmaClient.cpp:132-152 | no run of the write session deadlocks, and every message sent has been received at the end |
| RdmaOneSided.ReadControlCounts | ConnectionExperiments/RdmaServer.cpp:50-57 | with k rounds the server sends k control messages and waits for k + 1; the client mirrors it |
| RdmaOneSided.WriteControlCounts | ConnectionExperiments/RdmaServer.cpp:69-76 | the same for the write session |
| RdmaTwoSided.ReceiverMeets | ConnectionExperiments/RdmaClient.cpp:213-219 | the client's receive loop is the receiving side of the data messages |
| RdmaTwoSided.SenderMeets | ConnectionExperiments/RdmaServer.cpp:108-124 | the server's sends are the sending side, plus a zero-length send exactly when b divides n |
| RdmaTwoSided.TwoTp.Projects | ConnectionExperiments/RdmaServer.cpp:79-93 | the two-sided programs are the two sides of the plan, also when it gets stuck |
| RdmaTwoSided.TwoSidedEndsExactly | ConnectionExperiments/RdmaServer.cpp:95-128 | every maximal run finishes if no size divides n, and otherwise stops in the first dividing round, both peers in a send |
| RdmaTwoSided.TwoSidedChunks | ConnectionExperiments/RdmaServer.cpp:110-124 | every data message carries its own stretch of the data and fits the posted buffer |
| RdmaTwoSided.TwoSidedDelivers | ConnectionExperiments/RdmaClient.cpp:206-226 | when the client reports the end of a round the messages it took in that round make up the whole data |
| RdmaLatency.OneSidedLatencySafe | ConnectionExperiments/RdmaClient.cpp:303-318 | no race and no access out of bounds in the one-sided latency sessions; at the end of the session the client's last buffer and the server's region hold what the rounds leave there |
| RdmaLatency.LastTransfer | ConnectionExperiments/RdmaClient.cpp:267-279 | the last read leaves the region's first bytes in the local buffer, the last write its buffer in front of the region's earlier bytes |
| RdmaLatency.OneSidedLatencyFinishes | ConnectionExperiments/RdmaServer.cpp:136-165 | no run of a one-sided latency session deadlocks |
| RdmaLatency.TwoLatencyAligned | ConnectionExperiments/RdmaServer.cpp:176-193 | start, L data messages and finish are each taken by their own receive, at full length |
| RdmaMeetings.TwoLatencyMessages | ConnectionExperiments/RdmaClient.cpp:341-360 | by position in the log of any run: in every round the start control, the L messages with the round's payload and the finish control, each with its receive; no run ends before the last |
| RdmaLatency.TwoLatencyFinishes | ConnectionExperiments/RdmaClient.cpp:341-360 | no run of the two-sided latency session deadlocks |
| RdmaRun.Bench.Projects | ConnectionExperiments/main.cpp:147-181 | for every metric the phases of the two sides pair up one to one |
| RdmaRun.WholeRunSafe | ConnectionExperiments/main.cpp:151-180 | exclusion, bounds and alignment across all sessions of a run |
| RdmaRunData.WholeRunData | ConnectionExperiments/RdmaClient.cpp:57-72 | across a whole run the three throughput sessions deliver their data: the read rounds to the client, the write rounds to the server, the two-sided rounds to the client |
| RdmaRunLatency.WholeRunLatency | ConnectionExperiments/RdmaClient.cpp:233-248 | across a whole run the read, write and two-sided latency sessions follow one another, each with its promises |
| RdmaRunLatency.FinishedRunMeetings | ConnectionExperiments/main.cpp:147-181 | a finished run has exactly 3 handshakes, or 6 for both parts, and exactly the meetings the sizes and loop count give |
| RdmaRunLatency.WholeProgramLengths | ConnectionExperiments/main.cpp:147-181 | the number of actions of either side of a whole run, from the sizes and loop counts alone |
| RdmaRun.WholeRunCompletesExactly | ConnectionExperiments/RdmaClient.cpp:57-72 | a run completes if and only if its metric is latency or no size divides n, and where it stands otherwise |
| Experiment.DeclaredSizes | ConnectionExperiments/utils.h:25-58 | the declared sizes are 1024 << k for k < 16 and 8 << k for k < 17 |
| Experiment.DeclaredLatencySizesFit | ConnectionExperiments/RdmaServer.cpp:136-165 | every declared latency size is positive and within the region registered for the latency sessions |
| RdmaRun.DeclaredSizesDivide | ConnectionExperiments/utils.h:43-58 | a declared size divides n if and only if 1024 does |
| RdmaRun.DeclaredRunCompletesExactly | ConnectionExperiments/utils.h:43-58 | with the declared sizes a throughput run completes if and only if 1024 does not divide n |
| RdmaRun.DeclaredRunStalls | ConnectionExperiments/utils.h:43-58 | with 1024 bytes and the declared sizes there is a run that cannot go on and is not finished |
| RdmaPeers.ReadChunks | ConnectionExperiments/RdmaClient.cpp:105-122 | the read loop issues the session's reads in order and leaves the local buffer equal to the region |
| RdmaPeers.WriteChunks | ConnectionExperiments/RdmaClient.cpp:166-183 | the write loop issues the session's writes in order and leaves the region equal to the local buffer |
| RdmaPeers.SendChunks | ConnectionExperiments/RdmaServer.cpp:108-124 | the send loop issues the session's data messages, the unconditional last one included |
| RdmaPeers.ReceiveChunks | ConnectionExperiments/RdmaClient.cpp:213-219 | the receive loop posts the session's receives and finds in its buffer each message that arrives |
| RdmaEndpoints.RdmaClient.ReadTpTest | ConnectionExperiments/RdmaClient.cpp:93-130 | one read round, as the session has it |
| RdmaEndpoints.RdmaClient.RunWriteTpTests | ConnectionExperiments/RdmaClient.cpp:132-152 | the write rounds with the refill of the aliased source; the last round's source is what the region ends up holding |
| RdmaEndpoints.RdmaClient.TwoSidedTpTest | ConnectionExperiments/RdmaClient.cpp:206-226 | one two-sided round on the client; the chunks it takes make up the data |
| RdmaEndpoints.RdmaClient.OneSidedLatencyTest | ConnectionExperiments/RdmaClient.cpp:303-318 | one latency round of reads or writes, and what it leaves in both buffers |
| RdmaEndpoints.RdmaClient.TwoSidedLatencyTest | ConnectionExperiments/RdmaClient.cpp:341-354 | one two-sided latency round on the client |
| RdmaEndpoints.RdmaClient.Run | ConnectionExperiments/main.cpp:169-180 | the client's half of main issues the client's program of the whole run |
| RdmaEndpoints.RdmaServer.RunReadTpTests | ConnectionExperiments/RdmaServer.cpp:40-60 | the refills in place and the control messages of the read session |
| RdmaEndpoints.RdmaServer.RunWriteTpTests | ConnectionExperiments/RdmaServer.cpp:62-77 | the memsets in place, to zero in every byte, and the control messages of the write session |
| RdmaEndpoints.RdmaServer.TwoSidedTpTest | ConnectionExperiments/RdmaServer.cpp:95-128 | one two-sided round on the server, from a copy of the data |
| RdmaEndpoints.RdmaServer.TwoSidedLatencyTest | ConnectionExperiments/RdmaServer.cpp:176-193 | one two-sided latency round on the server; the short-message warning is printed exactly if an arriving message does not fill the buffer |
| RdmaEndpoints.RdmaServer.Run | ConnectionExperiments/main.cpp:151-162 | the server's half of main issues the server's program of the whole run |
| TcpCuts.AnyCutIsSent | ConnectionExperiments/TcpClient.cpp:134-144 | any way of cutting a message into positive pieces is a run of its sender, with room in flight |
| TcpCuts.AnyCutIsReceived | ConnectionExperiments/TcpClient.cpp:146-158 | bytes in flight may be handed over in any positive pieces |
| TcpActions.TcpClientThroughput | ConnectionExperiments/TcpClient.cpp:87-100 | throughput round r of the client at its position: n/b chunks of that round's data, the rest, one byte back into a buffer of n |
| TcpActions.TcpServerThroughput | ConnectionExperiments/TcpServer.cpp:82-97 | the same round of the server: n/b receives of b bytes and one of n % b into a buffer of b, then "y" |
| TcpActions.TcpClientLatency | ConnectionExperiments/TcpClient.cpp:112-132 | latency round q of the client: L messages, buffer i mod 40 the i-th, one byte back |
| TcpActions.TcpServerLatency | ConnectionExperiments/TcpServer.cpp:107-117 | the same round of the server: L receives of the round's size, then "y" |
| TcpActions.TcpProgramLengths | ConnectionExperiments/main.cpp:147-181 | for every metric both TCP programs have exactly the actions of those rounds |
| TcpMachine.RunKeeps | ConnectionExperiments/TcpClient.cpp:134-158 | in every reachable state the bytes between the two peers' positions all go one way and are what is in flight |
| TcpMachine.BoundariesKept | ConnectionExperiments/TcpServer.cpp:119-143 | however the bytes are cut up, completed receives are the messages sent, in order, within the capacity |
| TcpMachine.RunsAreBounded | ConnectionExperiments/TcpServer.cpp:119-143 | every call lowers a weight, so every run is finite |
| TcpMachine.StuckIsDone | ConnectionExperiments/TcpServer.cpp:82-97 | with room for one byte, a state in which nobody can move is one in which both are done |
| TcpMachine.MaximalRunsFinish | ConnectionExperiments/TcpClient.cpp:87-100 | a run that cannot go on has finished both programs, with every message received and nothing in flight |
| TcpMachine.FaultsKept | ConnectionExperiments/TcpServer.cpp:119-131 | in every reachable state a peer is at fault exactly if a message it has received, or is receiving, has outgrown its buffer |
| TcpMachine.MaximalRunsOverrun | ConnectionExperiments/TcpServer.cpp:82-97 | a run that cannot go on has stored behind a buffer exactly if some message does not fit its own |
| TcpMachine.RunsCanBeCompleted | ConnectionExperiments/TcpClient.cpp:134-158 | such runs exist from any state |
| TcpSessions.SessionProjects | ConnectionExperiments/TcpClient.cpp:75-85 | client and server rounds are the two sides of one list of messages |
| TcpSessions.TcpBench.SidesAgree | ConnectionExperiments/TcpServer.cpp:76-93 | the lengths the server expects from the sizes alone are those of the messages the client sends |
| TcpSessions.ThroughputEndToEnd | ConnectionExperiments/TcpServer.cpp:82-97 | when the server acknowledges round r, the chunks it received in it make up the client's data of round r |
| TcpSessions.LatencyBoundaries | ConnectionExperiments/TcpClient.cpp:112-132 | the i-th completed receive of a latency round is buffer i mod 40 |
| TcpSessions.TcpQuietBetweenRounds | ConnectionExperiments/main.cpp:176-179 | when every round sends a byte: between rounds, and between the two tests, both directions are empty and the server has exactly the rounds before |
| TcpQuiet.RoundIsReached | ConnectionExperiments/TcpServer.cpp:76-80 | over any capacity some run brings both peers to the start of any round, with the socket empty |
| TcpQuiet.QuietExactly | ConnectionExperiments/main.cpp:158-161 | in every run the socket is empty whenever the client stands between rounds, if and only if every round sends a byte |
| TcpQuiet.EmptyDataIsNotQuiet | ConnectionExperiments/TcpServer.cpp:90-96 | with no data the server's acknowledgement is in flight before the client begins the round |
| TcpRoom.InRoomExactly | ConnectionExperiments/TcpClient.cpp:95-96 | no receive of any run leaves its buffer if and only if every acknowledgement has a byte to go to |
| TcpRoom.EmptyDataOverruns | ConnectionExperiments/TcpClient.cpp:96 | with no data the acknowledgement is stored behind the end of the client's empty vector |
| TcpRoom.TcpRunsFinish | ConnectionExperiments/TcpServer.cpp:76-117 | every run is finite, and one that cannot go on is complete if and only if every acknowledgement has a byte to go to |
| TcpLoops.RunsFollowPrograms | ConnectionExperiments/TcpClient.cpp:134-158 | each side of a run makes the calls its program allows, in order |
| TcpLoops.Socket.CountableExactly | ConnectionExperiments/TcpClient.cpp:134-144 | every count a call can report fits an int if and only if the message or a call's share of it is below 2^31 |
| TcpLoops.SendTcpMessage | ConnectionExperiments/TcpClient.cpp:134-144 | the retry loop puts out the whole message for any partial counts, with exactly its calls |
| TcpLoops.ReceiveMessage | ConnectionExperiments/TcpServer.cpp:119-131 | the retry loop stores exactly the next bytes of the stream for any partial counts, and leaves the buffer exactly if they are more than it has room for |
| TcpPeers.TcpClient.ThroughputTest | ConnectionExperiments/TcpClient.cpp:87-100 | the data goes out whole, the acknowledgement spoils only the copy, and leaves it exactly if it is empty |
| TcpPeers.TcpClient.LatencyTest | ConnectionExperiments/TcpClient.cpp:112-132 | the buffers go out in turn, and one acknowledgement comes in |
| TcpPeers.TcpClient.RunThroughputTests | ConnectionExperiments/TcpClient.cpp:75-85 | every round sends what the vector holds after the refill before it |
| TcpPeers.TcpClient.Run | ConnectionExperiments/main.cpp:169-180 | the client's half of main makes the client's calls and puts out its messages in order; an acknowledgement leaves its buffer exactly under the condition of the machine |
| TcpPeers.TcpServer.ThroughputTest | ConnectionExperiments/TcpServer.cpp:82-97 | the stream is rebuilt through one reused chunk buffer, and acknowledged |
| TcpPeers.TcpServer.LatencyTest | ConnectionExperiments/TcpServer.cpp:107-117 | the receives cut the stream into messages of the buffer's size |
| TcpPeers.TcpServer.Run | ConnectionExperiments/main.cpp:151-162 | the server's half of main makes the server's calls, cuts the stream into every round's data and messages, and puts out one acknowledgement a round |
| TcpPeers.LoopsAgree | ConnectionExperiments/TcpServer.cpp:76-80 | what the client's loops put out, fed to the server's loops, is rebuilt as the client's data of every throughput round and its messages of every latency round |

## Left out

* Socket setup, address lookup, network-card discovery, connection teardown: calls into foreign code; only the handshake of an RDMA connection is a step.
* The error branch of `send_tcp_message` and the `exit(-1)` paths: counts are assumed positive.
* Retry and error completions of the verbs library, and receives posted ahead of need: not shown by the sources.
* Timing, throughput and latency figures, printing and result files.
* The source of random data; a refill is an arbitrary new content of the same length.
* `RunClient.cpp`, `RunServer.cpp` (not in the build) and QueueExperiments (its queues are not part of this model).
* Command-line parsing beyond the metric.
* Data sizes that main's `int` would make negative.
- RdmaPeers.ReadChunks: sees the server's region as an array at rest; that it is at rest is a theorem about the machine, not about the method.
- RdmaEndpoints.RdmaServer.RunWriteTpTests: says what this side puts into its buffer; that the client's bytes are in it when a round ends is `WriteSessionSafe`.
- TcpLoops.ReceiveMessage: asks that the bytes are on their way, because the call would otherwise not return; that they are is the machine's progress theorem.

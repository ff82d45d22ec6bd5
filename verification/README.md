# Remotty: verified models of its stateful core

This project models the parts of Remotty whose correctness spans several functions: the
signaling server and the session tables of the host daemons it serves, the per-IP rate
limiter, chunked file transfer, the screen pipeline, the ICE-restart loop, the translation of
touches into mouse events, and backups. `dafny verify dfyconfig.toml` checks everything.

Each part has a model on values (`...Model.dfy` and the files named below), on which whole runs
are defined and the laws are proved. Where the program changes state in place there is also a
class or a method in the program's own form, and each of its methods is proved to be the step
of the value model, so the laws hold of it.

| files | part |
|---|---|
| `SignalModel`, `SignalServerObjects` | the server's handlers, as functions and as methods of a server with peer, room and host tables |
| `SignalInvariants`, `SignalPairing` | what every run of the server keeps, and what runs that pair two peers at a time keep |
| `SignalAnswers` | what each request does, in terms of the server's tables alone |
| `HostModel`, `HostDaemonObjects` | the daemon's session table |
| `SessionSystem`, `Departures`, `StaleSessions` | the server composed with any number of daemons, each reading its own queue, and what a departure does to their sessions |
| `RateLimitModel`, `RateLimitExact`, `RateLimiterObjects` | the token bucket with eviction, and its decisions described without buckets |
| `TransferModel`, `TransferObjects` | chunks, files with holes, transfer state |
| `ScaleModel`, `QualityModel`, `StreamerObjects` | picture geometry, bilinear sampling, adaptive quality |
| `ReconnectModel`, `ReconnectObjects` | all interleavings of reconnect loops, handlers and closers; one loop as a method |
| `TouchModel`, `TouchGestures`, `TouchObjects` | touches to mouse events, and what whole gestures send |
| `BackupModel`, `RetentionModel`, `BackupObjects` | archive and restore, listing and cleanup |
| `Options`, `Numbers` | shared definitions |

Where the code and its own comments or names disagree, the model follows the code:

- A transfer's progress is described as 0.0 to 1.0. It counts deliveries, so repeated chunks take
  it above 1.0 (`TransferModel.ProgressWithinOne` gives the exact condition).
- A chunk with a negative index is rejected, but only after the file was opened for writing, which
  creates it if it was missing (`TransferModel.RejectedChunk`).
- The first reconnect wait is not capped by the maximum (`ReconnectModel.CappedFromTheStart`).
- The reconnect loop is said to exit when the engine is closed or has recovered. The stop reaches a loop
  that is parked in its wait at that moment, and is lost if there is none. Every other loop that has not
  yet succeeded can go on to report a failure, and after a recovery to close the recovered engine
  (`ReconnectModel.RecoveryEndsOnlyTheReceiver`, `ReconnectModel.CloseEndsOnlyTheReceiver`,
  `ReconnectModel.StopsExactlyTheParked`).
- The flag that keeps a second reconnect loop out is cleared under a loop at work by a recovery or a
  close; `ReconnectModel.StepGuardedIff` says exactly when, and `ReconnectModel.SecondLoopCanStart`
  what follows.
- Reading its queue, a daemon forgets a session when the client leaves only if the client is, at that
  moment, in a room with the daemon's current connection (`Departures.SessionSurvivesIff`). It is not when
  it has moved on to another host, when the daemon has dialled again, or when an earlier host of the
  client has left since and so cleared its room id. And a daemon that reads a Connect after the client
  has left opens a session for it. `StaleSessions` has a run for each.
- Two fingers click the right button exactly if they land in separate events, and end with a left click
  exactly if they lift in separate events; the first also holds the left button if it strays before the
  second lands. So a gesture is one right click and no more exactly if they land in separate events, the
  first without straying, and lift in one (`TouchGestures.TwoFingerGesture`). A two-finger scroll whose
  fingers land in separate events clicks the right button too.
- A finger that rests while the other scrolls has its last reported movement counted again at every event
  (`TouchGestures.OneMovesIff`).
- A peer that connects to itself leaves its room behind in the table when it leaves, while the room
  counter still drops (`SignalInvariants.RoomsThatOutliveALeaver`, `SignalInvariants.Counters`).

## Model

| member | source | states |
|---|---|---|
| SignalServerObjects.Server.OpenPeer | internal/signal/server.go:213-235 | a new connection adds one peer record to the table and one to the counter, and changes nothing else |
| SignalServerObjects.Server.HandleRegister | internal/signal/server.go:298-354 | registering, with all its refusals, is the model's step: only a new peer with an acceptable name becomes an indexed host |
| SignalServerObjects.Server.HandleUpdate | internal/signal/server.go:362-372 | an update replaces the feature list, if there is one, and nothing else |
| SignalServerObjects.Server.HandleListHosts | internal/signal/server.go:374-392 | listing makes a peer without a role a client, puts it in state registered, and sends it the filtered list |
| SignalServerObjects.Server.HandleListHostsAPI | internal/signal/server.go:558-571 | the HTTP list is exactly the infos of all indexed peers |
| SignalServerObjects.Server.HandleConnect | internal/signal/server.go:394-460 | a connect request finds its host by id, then by name, and opens a room, or answers with the right error |
| SignalServerObjects.Server.RelayToRoom | internal/signal/server.go:462-485 | a message goes to the other recorded member, stamped with the room, or an error comes back |
| SignalServerObjects.Server.DropFromIndex | internal/signal/server.go:511-516 | the loop that stops at the first match removes every entry of the peer and no other |
| SignalServerObjects.Server.CleanupPeer | internal/signal/server.go:487-537 | leaving clears and tells the other member, drops the room by the leaver's room id as it then is, the index entry and the peer |
| SignalInvariants.EveryRun | internal/signal/server.go:182-537 | in every run: room ids are keys of rooms the peer belongs to, index entries name live hosts by their own names, and the peer counter is the number of peers |
| SignalAnswers.ConnectsById | internal/signal/server.go:405-458 | a target that is a connected peer's id reaches that peer, even if a host bears it as a name: the new room joins the two and both are told |
| SignalAnswers.ConnectsByName | internal/signal/server.go:408-413 | a target that is no such id but a registered host's name reaches that host |
| SignalAnswers.ConnectsToNobody | internal/signal/server.go:416-419 | any other target opens no room and is answered with host_not_found alone |
| SignalAnswers.DisconnectedIsNotReached | internal/signal/server.go:416-419 | nor is a peer reached that is marked disconnected |
| SignalAnswers.UnparsedConnect | internal/signal/server.go:395-399 | a request that does not parse is answered with invalid_payload and changes nothing else |
| SignalAnswers.TrimSpaceMeaning | internal/signal/server.go:311 | trimming removes white space, all of it and nothing else, from both ends of a name |
| SignalAnswers.RegisterMeaning | internal/signal/server.go:298-354 | which registrations are accepted, with the limits written out, and exactly what an accepted and a refused one leave |
| SignalAnswers.UnparsedRegister | internal/signal/server.go:299-308 | a registration that does not parse, or comes too late, is answered with the right error and changes nothing else |
| SignalAnswers.RegisteredNameConnects | internal/signal/server.go:298-430 | a host that has just registered is reached under its trimmed name |
| SignalAnswers.NewPeerCanRegister | internal/signal/server.go:213-229 | a new connection has no role, room or message, and can register |
| SignalAnswers.UpdateMeaning | internal/signal/server.go:362-372 | an update replaces the sender's features, if it gives any, and nothing else |
| SignalAnswers.ListShowsEveryHost | internal/signal/server.go:374-392 | in every reachable state a list shows the info of every registered host and no other, and makes the reader a registered client |
| SignalInvariants.OneIndexEntryPerPeer | internal/signal/server.go:298-339 | in every run a host owns at most one index entry, under its own name, and is connected |
| SignalInvariants.HostListsAgree | internal/signal/server.go:374-392 | in every run the state-filtered list and the unfiltered HTTP list show the same hosts |
| SignalInvariants.LeaveDropsOneEntry | internal/signal/server.go:511-519 | leaving removes the entries of the leaver from the host index and keeps all others as they are |
| SignalInvariants.RelayReachesTheOtherMember | internal/signal/server.go:462-485 | in every run a relayed message reaches the other recorded member with that room's id, and nobody else |
| SignalInvariants.RoomsThatOutliveALeaver | internal/signal/server.go:490-509 | exactly which rooms outlive a leaving member: the ones it has moved on from, and the one it shares with itself |
| SignalInvariants.Counters | internal/signal/server.go:437-507 | in every run the peer counter is the number of peers, and the room counter is the number of rooms exactly when no peer has left a room it shared with itself |
| SignalPairing.ConnectMatched | internal/signal/server.go:394-437 | a connect request keeps rooms a perfect matching if and only if it reaches nobody or joins two distinct peers without a room |
| SignalPairing.TwoPerRoom | internal/signal/server.go:430-437 | any set of rooms of a matching has exactly twice as many members |
| SignalPairing.PerfectMatching | internal/signal/server.go:394-520 | in every pairing run both members of every room are connected and point back to it, peers with a room number twice the rooms, and both counters are exact |
| SignalPairing.RelayIsSymmetric | internal/signal/server.go:462-485 | in every pairing run, if a peer's messages reach another in a room, the other's reach it in the same room |
| HostDaemonObjects.Daemon.constructor | internal/host/daemon.go:66-115 | a session limit of 0 becomes 10; the table starts empty |
| HostDaemonObjects.Daemon.Allowed | internal/host/daemon.go:324-337 | the loop over the allow list admits a client exactly if the list is empty or some entry is the wildcard or that client |
| HostDaemonObjects.Daemon.HandleConnectRequest | internal/host/daemon.go:302-385 | a session is added exactly when the limit, the allow list and the engine permit it; otherwise the table is unchanged |
| HostDaemonObjects.Daemon.HandlePeerDisconnect | internal/host/daemon.go:995-1013 | deleting while iterating removes exactly the sessions of the departed client |
| HostDaemonObjects.Daemon.CleanupSession | internal/host/daemon.go:1016-1039 | cleaning up a room removes that session alone, and closes it |
| HostDaemonObjects.Daemon.GetSession | internal/host/daemon.go:1047-1051 | the session of a room, or none |
| HostModel.HandleBound | internal/host/daemon.go:310-320 | with a positive limit no message takes the table above it |
| HostModel.OpensIff | internal/host/daemon.go:310-385 | a Connect opens its room for its client if and only if the table is below the limit or there is none, the engine works, and the allow list is empty or names everyone or that client |
| HostModel.EndsIff | internal/host/daemon.go:995-1013 | the news that a peer has left ends exactly that peer's sessions |
| SessionSystem.EveryRunSound | internal/host/daemon.go:302-385 | in every run of server and daemons, queued messages and sessions speak only of rooms issued to their reader and client |
| SessionSystem.SessionLimit | internal/host/daemon.go:310-320 | in every run a daemon with a positive limit holds at most that many sessions |
| SessionSystem.OnlyNamedClients | internal/host/daemon.go:324-337 | in every run a daemon whose allow list is not empty and does not let everyone in holds only sessions of clients it names |
| SessionSystem.RelayedToItsOwnSession | internal/host/daemon.go:282-300 | in every run a relayed message is handed to its room's session if the daemon has one, and that is the session of the client that sent it |
| SessionSystem.SessionsAccountedFor | internal/signal/server.go:394-520 | in every disciplined run each session of the current connection is a live room with that host and client, or has its client's departure queued |
| SessionSystem.DrainedDaemonHoldsNoDepartedClient | internal/host/daemon.go:995-1013 | so a connected daemon with an empty queue holds, of that connection, no session of a departed client |
| SessionSystem.ConnectingOnceIsDisciplined | internal/signal/server.go:394-460 | runs in which each client connects successfully at most once, and only to hosts, are disciplined |
| SessionSystem.Draining | internal/host/daemon.go:233-280 | a connected daemon can always be drained, and then its sessions on that connection are live rooms |
| Departures.SessionSurvivesIff | internal/signal/server.go:490-507 | in every run, when a client leaves and a daemon reads all that is queued for it, the daemon holds a session of that client if and only if the client was not in a room with the daemon's current connection and the session was there before or a Connect still queued opens it |
| Departures.HeldOrOpened | internal/host/daemon.go:302-385 | what a daemon holds for a connected client once it has read its queue: the sessions it held, and those a Connect opens under the limit, the allow list and a working engine |
| Departures.NobodyIsSaidToHaveLeft | internal/signal/server.go:500-503 | in every run, nobody has a departure queued of a peer that is connected |
| Departures.ServesAfterReading | internal/host/daemon.go:255-280 | after reading messages none of which announces a client's departure or gives its room away, the room's session is that client's if and only if it was before or one of them opens it |
| Departures.StaleUntilItExpires | internal/host/daemon.go:995-1039 | in every run, a session of a departed client that a drained daemon holds stays in its table whatever follows, until it expires there |
| StaleSessions.MovedClientStaysInTheTable | internal/signal/server.go:432-436 | a concrete run from the start in which a client moves on to a second host and stays in the first daemon's table |
| StaleSessions.RedialKeepsTheSession | internal/host/daemon.go:119-213 | a concrete run in which a daemon dials again and keeps the session of a client that then leaves |
| StaleSessions.ClearedClientStaysInTheTable | internal/signal/server.go:498-500 | a concrete run in which an earlier host clears the room id of a client now in the daemon's room, who then leaves unnoticed |
| StaleSessions.SessionOpensForADepartedClient | internal/host/daemon.go:302-385 | a concrete run in which a client moves on and leaves before the daemon reads, and the daemon then opens a session for it |
| RateLimiterObjects.RateLimiter.Allow | internal/signal/ratelimit.go:40-71 | the decision and the new buckets are those of the model |
| RateLimiterObjects.RateLimiter.Cleanup | internal/signal/ratelimit.go:77-86 | deleting while iterating removes exactly the buckets idle for more than five minutes |
| RateLimitModel.EvictionInvisible | internal/signal/ratelimit.go:40-87 | for every run of requests and cleanups the evicting limiter decides as one that never forgets, if and only if the rate is at least 1 |
| RateLimitModel.EvictionInvisibleFrom | internal/signal/ratelimit.go:73-87 | the same from any two states that agree on the seconds every IP has saved |
| RateLimitModel.ForgetsIff | internal/signal/ratelimit.go:77-86 | a cleanup forgets exactly the IPs idle for more than five minutes |
| RateLimitModel.RequestIsActivity | internal/signal/ratelimit.go:46-58 | every request, allowed or not, counts as activity of its IP and of no other |
| RateLimitModel.DeniedRequestIsFree | internal/signal/ratelimit.go:57-66 | erasing a denied request from a run leaves every other decision as it was |
| RateLimitModel.IpsDoNotInterfere | internal/signal/ratelimit.go:46-55 | erasing all requests of other IPs leaves an IP's decisions as they were |
| RateLimitModel.TokensStayInRange | internal/signal/ratelimit.go:46-70 | in every run tokens stay within 0 and burst and no bucket is ahead of the clock |
| RateLimitModel.WindowBound | internal/signal/ratelimit.go:40-71 | after any history, the requests of one IP allowed in a window are at most burst plus rate/60 per second of the window |
| RateLimitModel.SpacedRequestsNeverDenied | internal/signal/ratelimit.go:57-69 | requests of one IP that are 60/rate seconds apart are never denied |
| RateLimitExact.AllowedIff | internal/signal/ratelimit.go:40-71 | after any run with cleanups, a request is allowed if and only if no window ending with it would then hold more allowed requests of its IP than burst plus rate/60 per second |
| TransferObjects.FileTransfer.WriteChunk | internal/transfer/transfer.go:124-159 | transfer, file and answer after a write are the model's; other files are untouched |
| TransferObjects.FileTransfer.ReadChunk | internal/transfer/transfer.go:162-190 | a read gives the chunk at its offset with its checksum, from the start for a negative index |
| TransferObjects.FileTransfer.Progress | internal/transfer/transfer.go:208-215 | progress is received over total, 1.0 when they agree and 0.0 for an empty transfer |
| TransferObjects.FileTransfer.MarkComplete | internal/transfer/transfer.go:193-198 | completing changes the state alone, from any state |
| TransferObjects.FileTransfer.MarkCancelled | internal/transfer/transfer.go:201-205 | cancelling changes the state alone, from any state |
| TransferObjects.Manager.InitiateSend | internal/transfer/transfer.go:71-94 | a file that exists becomes a pending transfer with the default chunk size; otherwise nothing changes |
| TransferObjects.Manager.InitiateReceive | internal/transfer/transfer.go:97-121 | a request becomes an active transfer with the sender's chunk size |
| TransferModel.FileRoundTrip | internal/transfer/transfer.go:124-190 | feeding every chunk of a non-empty source, in any order with repeats, leaves the source followed by whatever the destination held beyond it |
| TransferModel.RoundTripIff | internal/transfer/transfer.go:139-149 | so the destination equals the source if and only if it was no longer than the source |
| TransferModel.ChunksCover | internal/transfer/transfer.go:84-110 | for a non-empty file exactly the indices below the total begin inside it |
| TransferModel.CountersCountAccepted | internal/transfer/transfer.go:154-156 | in every run the two counters are the number and the total length of the accepted chunks |
| TransferModel.EachChunkOnce | internal/transfer/transfer.go:84-156 | feeding each chunk once, in any order, counts exactly the total chunks and exactly the size, and progress 1.0 |
| TransferModel.ProgressWithinOne | internal/transfer/transfer.go:207-215 | progress stays within 1.0 if and only if no more chunks are delivered than there are |
| TransferModel.RejectedChunk | internal/transfer/transfer.go:128-150 | a rejected chunk changes nothing, except that a missing file is created in exactly one case |
| TransferModel.AcceptedIff | internal/transfer/transfer.go:128-150 | a chunk is accepted if and only if the transfer is active, the checksum absent or right, the file opens and the index is not negative |
| TransferModel.ReadMeaning | internal/transfer/transfer.go:162-190 | a chunk is read unless the transfer is cancelled or the file missing, and is exactly the file's bytes at its place, with their checksum |
| TransferModel.NegativeReadsTheStart | internal/transfer/transfer.go:176-180 | a negative index reads the start of the file |
| TransferModel.ProgressMeaning | internal/transfer/transfer.go:208-215 | progress times the total is what was received, and 0.0 without chunks |
| TransferModel.LastCallDecides | internal/transfer/transfer.go:193-205 | completing and cancelling take effect from any state, the later over the earlier |
| Numbers.QuotientMeaning | internal/transfer/transfer.go:107-110 | the chunk count's division truncates toward zero |
| TransferModel.InactiveStaysPut | internal/transfer/transfer.go:128-130 | once a transfer is not active, no run changes its file or counters or makes it active again |
| TransferModel.CheckedChunksAgree | internal/transfer/transfer.go:132-138 | with collision-free checksums, in every run and whatever data arrives, the file agrees with the source on every accepted chunk |
| TransferModel.AcceptedBytesAreTheSources | internal/transfer/transfer.go:132-149 | whatever the destination held, every byte of every accepted chunk is in the file and is the source's, and the file is no longer than the longer of the two |
| StreamerObjects.ScaleBilinear | internal/screen/stream.go:418-475 | the nested loops fill every pixel with the sample of the source that the model defines |
| StreamerObjects.Streamer.Downscale | internal/screen/stream.go:370-415 | the result has the fitted size, and is the source itself exactly when that size is its own |
| ScaleModel.Geometry | internal/screen/stream.go:387-407 | a picture over a bound is shrunk to one with no empty side, within source and bounds, meeting a set bound exactly, its shape off by less than one row or column of the source |
| ScaleModel.FittedSize | internal/screen/stream.go:379-407 | the same in numbers alone: a picture within both set bounds keeps its size, and any other comes within them |
| ScaleModel.FittingIsIdempotent | internal/screen/stream.go:379-382 | fitting a fitted picture leaves it as it is |
| ScaleModel.ReadsInRange | internal/screen/stream.go:429-449 | every coordinate read lies in the source and every fraction in [0, 1) |
| ScaleModel.BlendBetween | internal/screen/stream.go:457-487 | a channel is a nearest integer to the exact interpolation and lies between its least and greatest sample, so the clamp never acts |
| ScaleModel.SampleMeaning | internal/screen/stream.go:423-471 | a sample of any picture is the mean of the four pixels around the source coordinate, each weighted by nearness, the last column or row standing in for the next, rounded to the nearest |
| ScaleModel.WeightsAreAreas | internal/screen/stream.go:457-479 | the nested interpolation weights its samples by areas that add up to 1 |
| ScaleModel.SampledWithin | internal/screen/stream.go:429-471 | scaling keeps every channel within any range the source keeps it in |
| ScaleModel.ConstantStaysConstant | internal/screen/stream.go:429-471 | a picture of one colour scales to that colour |
| ScaleModel.SameSizeIsIdentity | internal/screen/stream.go:429-471 | scaling to the same size changes no pixel |
| ScaleModel.GradientIsReproduced | internal/screen/stream.go:423-462 | away from the last column and row a linear gradient is sampled exactly where it is at the source coordinate, so the weights are those of the position |
| ScaleModel.ScalingKeepsOrder | internal/screen/stream.go:457-479 | a picture nowhere darker in a channel scales to one nowhere darker in it |
| StreamerObjects.Streamer.constructor | internal/screen/stream.go:67-101 | defaults and clamps leave a positive rate and a quality between its bounds |
| StreamerObjects.Streamer.ComputeAdaptiveQuality | internal/screen/stream.go:324-366 | one evaluation of the window is the model's, summing the frame times in a loop |
| StreamerObjects.Streamer.CaptureAndSend | internal/screen/stream.go:261-319 | one tick, with a failed capture, a failed encoding or a sent frame, is the model's step, and the frame sent has the fitted size |
| StreamerObjects.Streamer.CurrentQuality | internal/screen/stream.go:209-222 | asking for statistics evaluates the quality and changes nothing else |
| QualityModel.QualityStaysInBounds | internal/screen/stream.go:355-365 | in every run the quality stays within its bounds, and is fixed unless adaptive |
| QualityModel.EvaluationMeaning | internal/screen/stream.go:324-366 | for any window: with a the whole average of its frame times and b the frame budget, the step is -5, +5, +2 or 0 by a against 85, 40 and 60 percent of b, then clamped |
| QualityModel.SumIsATotal | internal/screen/stream.go:329-334 | summing the frame times is a total in that sense |
| QualityModel.OrderDoesNotMatter | internal/screen/stream.go:329-334 | windows with the same frame times in any order give the same quality |
| QualityModel.NoEvaluation | internal/screen/stream.go:325-327 | without adaptive quality, before the first frame and on a failed capture the quality stays |
| QualityModel.NormalizeMeaning | internal/screen/stream.go:71-92 | which given values a new streamer keeps, and the defaults of the others |
| QualityModel.WindowHoldsThirty | internal/screen/stream.go:310-314 | after a run from the start the window holds the latest frame times, at most thirty |
| QualityModel.WindowIsTheLastFrames | internal/screen/stream.go:310-314 | in every run the window is the last min(n, 30) frame times |
| QualityModel.SlowFramesLowerQuality | internal/screen/stream.go:329-365 | while every frame in the window takes over 85% of its budget, n evaluations give max(minimum, q - 5n) |
| QualityModel.FastFramesRaiseQuality | internal/screen/stream.go:329-365 | while every frame in the window takes under 40% of it, n evaluations give min(maximum, q + 5n) |
| QualityModel.ModerateFramesRaiseQualitySlowly | internal/screen/stream.go:329-365 | while every frame in it takes from 40% to under 60%, n evaluations give min(maximum, q + 2n) |
| QualityModel.SteadyFramesKeepQuality | internal/screen/stream.go:344-353 | while every frame in it takes from 60% to 85%, the quality stays as it is |
| QualityModel.SlowFramesTakeOver | internal/screen/stream.go:302-366 | after thirty slow frames the first of these holds whatever the history |
| ReconnectObjects.ReconnectEngine.ReconnectLoop | internal/webrtc/engine.go:404-476 | a cycle ends at the first attempt that works, the first wait stopped by the handler or by a close, or the last attempt; only then is a failure reported, once; the engine ends closed exactly if somebody closed it or the loop gave up |
| ReconnectObjects.ReconnectEngine.Attempt | internal/webrtc/engine.go:417-432 | an attempt is announced by its number and works exactly when the offer goes out and nobody has closed the engine |
| ReconnectObjects.ReconnectEngine.Close | internal/webrtc/engine.go:516-536 | closing is idempotent and ends the reconnecting state the first time |
| ReconnectModel.EveryLoopBacksOff | internal/webrtc/engine.go:413-468 | in every interleaving each loop announces attempts 1, 2, .. up to at most the maximum and waits the capped doublings, which add up to the stated total |
| ReconnectModel.FailureIsReportedOnce | internal/webrtc/engine.go:436-451 | in every interleaving the failure callback is made once by each loop that failed all its attempts unstopped, and by no other, and the engine ends closed |
| ReconnectModel.EveryLoopTerminates | internal/webrtc/engine.go:417-476 | in every interleaving a loop takes at most 4 * maximum + 2 steps |
| ReconnectModel.NeverStuck | internal/webrtc/engine.go:417-476 | and until it is done it always has a step to take |
| ReconnectModel.ClosedNeverRecovers | internal/webrtc/engine.go:484-486 | once the engine is closed it stays closed and no further loop recovers |
| ReconnectModel.CappedFromTheStart | internal/webrtc/engine.go:413-466 | every wait is the capped doubling if and only if the initial wait is within the cap |
| ReconnectModel.TotalInClosedForm | internal/webrtc/engine.go:460-466 | n waits, of which the first j are below the cap, add up to initial * (2^j - 1) + (n - j) * cap |
| ReconnectModel.StepGuardedIff | internal/webrtc/engine.go:215-228 | with at most one loop active under the flag, a step keeps it so if and only if it does not clear the flag while a loop is active |
| ReconnectModel.AlwaysGuardedIff | internal/webrtc/engine.go:405-411 | along a run it stays so if and only if no step of the run clears the flag while a loop is active |
| ReconnectModel.StepExclusiveIff | internal/webrtc/engine.go:405-411 | two loops become active at once if and only if one enters while another is active and the flag is clear |
| ReconnectModel.SecondLoopCanStart | internal/webrtc/engine.go:405-411 | and whenever the flag is clear under an active loop, a second loop can start beside it |
| ReconnectModel.NextLoopCanWork | internal/webrtc/engine.go:405-411 | in every run, when no loop is active the flag is clear, so the next loop to enter goes to work |
| ReconnectModel.RecoveryEndsOnlyTheReceiver | internal/webrtc/engine.go:215-228 | after a recovery, a loop can still come to report a failure if and only if it could before and is not the parked loop that hears the stop |
| ReconnectModel.CloseEndsOnlyTheReceiver | internal/webrtc/engine.go:516-536 | the same after a call that closes the engine |
| ReconnectModel.StopsExactlyTheParked | internal/webrtc/engine.go:453-459 | while at most one loop is active, a recovery or a close keeps a loop from reporting a failure if and only if it is parked in its wait |
| ReconnectModel.StopsTheOnlyParked | internal/webrtc/engine.go:453-459 | with several active, it always stops the only one parked |
| ReconnectModel.ConnectedLetsASecondLoopIn | internal/webrtc/engine.go:215-228 | a concrete run in which the connected handler clears the flag and two loops are active |
| ReconnectModel.RecoveredEngineCanBeClosed | internal/webrtc/engine.go:215-228 | for any positive maximum, a run from the start in which a recovery is announced and the loop then reports a failure and closes the engine |
| ReconnectModel.ClosedEngineCanReportAFailure | internal/webrtc/engine.go:516-536 | for any positive maximum, a run in which the owner closes the engine and the loop reports a failure afterwards |
| TouchObjects.TouchHandler.TouchesBegan | ios/remotty/TouchHandler.swift:56-93 | state and events after new touches are the model's |
| TouchObjects.TouchHandler.TouchesMoved | ios/remotty/TouchHandler.swift:96-134 | state and events after moves are the model's, with the three-point threshold |
| TouchObjects.TouchHandler.TouchesEnded | ios/remotty/TouchHandler.swift:137-175 | state and events after touches end are the model's |
| TouchObjects.TouchHandler.TouchesCancelled | ios/remotty/TouchHandler.swift:178-190 | state and events after touches are cancelled are the model's |
| TouchObjects.TouchHandler.HandleTwoFingerScroll | ios/remotty/TouchHandler.swift:202-227 | a scroll is three times the movement of the midpoint, past the threshold or once scrolling |
| TouchObjects.TouchHandler.SendMouseMove | ios/remotty/TouchHandler.swift:251-261 | a move is sent and remembered unless within a pixel of the last one |
| TouchModel.ButtonsBalance | ios/remotty/TouchHandler.swift:56-190 | in every run the left button alternates down and up and ends as the handler believes, the right button only taps, and no tracked touch means the left button is up |
| TouchModel.EveryPositionIsOnScreen | ios/remotty/TouchHandler.swift:232-241 | while the remote screen keeps its size every position sent lies on it |
| TouchModel.MovesAreDebounced | ios/remotty/TouchHandler.swift:251-261 | in every run each move differs by a pixel or more from the one before |
| TouchModel.SendsMoveIff | ios/remotty/TouchHandler.swift:251-261 | a move is sent if and only if none was before or the position differs by a pixel or more in some of the four directions |
| TouchModel.LengthMeaning | ios/remotty/TouchHandler.swift:110-117 | the drag and scroll thresholds are on the length of the way |
| TouchModel.EndedMeaning | ios/remotty/TouchHandler.swift:137-175 | what ending touches sends and leaves, by the number of fingers left |
| TouchModel.CancelledMeaning | ios/remotty/TouchHandler.swift:178-190 | cancelling never clicks: it releases a pressed button when the last finger goes, and else sends nothing |
| TouchModel.OtherMovesSendNothing | ios/remotty/TouchHandler.swift:104-134 | moves with no finger tracked, or more than two, send nothing |
| TouchModel.ResizesTakeEffect | ios/remotty/TouchHandler.swift:232-241 | a resize sends nothing and later events are handled with the new size |
| TouchGestures.BeganClicks | ios/remotty/TouchHandler.swift:68-93 | touches that begin click nothing, except a second finger that comes alone, and report the first of them |
| TouchGestures.PointerFollowsTheFinger | ios/remotty/TouchHandler.swift:251-261 | after one finger lands and moves along any path, the last move sent is within a pixel, on both sides, of where it last was |
| TouchGestures.OneFingerIsOneClick | ios/remotty/TouchHandler.swift:56-175 | one finger down, along any path and up presses and releases the left button once: a tap where it lifted if it never strayed three points, else a drag from where it first strayed to within a pixel of its last move |
| TouchModel.PointsKeepTheirProportions | ios/remotty/TouchHandler.swift:232-241 | a point of the view is to the view as its position is to the screen |
| TouchModel.PointsOutsideAreOnTheEdge | ios/remotty/TouchHandler.swift:232-241 | a point beyond an edge of the view is on that edge of the screen |
| TouchGestures.ScrollsAddUp | ios/remotty/TouchHandler.swift:202-227 | when both fingers move in every event, in whatever order they are listed, the scrolls of a whole path add up to three times the way of their midpoint from where scrolling starts: at once when scrolling already, else before the first step of more than two points |
| TouchGestures.OneMovesIff | ios/remotty/TouchHandler.swift:96-102 | once scrolling, when an event reports one finger alone, the scroll is three times the way of the midpoint if and only if the other finger's last reported movement was nil |
| TouchGestures.TwoFingerGesture | ios/remotty/TouchHandler.swift:56-175 | two fingers land in one event or two, move in any way, and lift in one event or two, either first: every button event of the gesture, and that it is one right click if and only if they land in two events, the first without straying, and lift in one |
| TouchGestures.TwoFingerTap | ios/remotty/TouchHandler.swift:56-175 | where the clicks are when no finger strays alone: right where the finger listed first is, left where the last finger lifts |
| BackupObjects.Create | internal/backup/backup.go:38-139 | the archive's entries in order; nothing is made exactly when there is neither configuration nor data, and any restore of it gives the stated result |
| BackupObjects.Directory.Restore | internal/backup/backup.go:159-207 | the loop overwrites each entry's target in order, up to the first target the path check refuses or to where the archive is readable, and succeeds exactly if neither stops it |
| BackupModel.RestoreAfterCreate | internal/backup/backup.go:62-207 | restoring a backup into any directory lays over it exactly the data directory without backups, and under that at most one extra remotty.yaml |
| BackupModel.RestoreIsExact | internal/backup/backup.go:62-207 | into an empty directory the result is exactly the data directory without backups if and only if it has a remotty.yaml or there is no configuration to add |
| BackupModel.RestoredAt | internal/backup/backup.go:62-207 | path by path, what a restore leaves in an empty directory: every file not under backups/, and what remotty.yaml is when there is none |
| BackupModel.ArchiveNames | internal/backup/backup.go:62-131 | the archive's first entry is the configuration as config.yaml, and each kept file stands under data/ |
| BackupModel.CommonFile | internal/backup/backup.go:73-91 | the one common file that the archive holds beside it |
| BackupModel.SecondRoundTripIsExact | internal/backup/backup.go:62-207 | backing up and restoring what was restored, with the same configuration, changes nothing more |
| BackupModel.NothingToBackUp | internal/backup/backup.go:133-136 | there are no entries exactly when there is no configuration file and no file outside the backups |
| BackupObjects.BackupDir.List | internal/backup/backup.go:213-249 | the listing names each backup once, newest first, and nothing else |
| BackupObjects.BackupDir.Cleanup | internal/backup/backup.go:253-281 | the files removed and the number returned are those of the model, some removals failing; what is older than maxAge before now goes unless stuck, and as many are left as maxKeep and age allow, with the defaults written out |
| RetentionModel.SurvivorsAreAPrefix | internal/backup/backup.go:267-278 | with removals succeeding the backups left are the longest prefix of the listing within limit and cutoff, each at least as new as every removed one, and removed plus kept is the total |
| RetentionModel.CleanupMeaning | internal/backup/backup.go:253-281 | what a cleanup leaves in terms of maxKeep, maxAge and now, with the defaults written out: what goes, what stays and how many are left |
| RetentionModel.BackupNames | internal/backup/backup.go:225-228 | a backup is a file whose name is the prefix, anything and the suffix |
| RetentionModel.SurvivesIff | internal/backup/backup.go:267-278 | a backup survives if and only if it is in that prefix or its removal failed |
| RetentionModel.OnlyCondemnedBackupsGo | internal/backup/backup.go:226-278 | a file that goes is a backup, and is older than the cutoff or outnumbered by as many backups at least as new as the limit allows |
| RetentionModel.CleanupIsIdempotent | internal/backup/backup.go:253-281 | after a cleanup whose removals all succeeded, another with the same limit and cutoff, over any listing of what is left, removes nothing |

## Left out

- Interleaving inside one handler of the server or daemon: each handler is one atomic step, although the code takes its locks several times. Ids are fresh numbers; the code prints clock readings.
- WebSocket, HTTP, TLS, logging, audit, heartbeats, pings, and failures to send: a message sent is appended to its reader's queue.
- The wire format: payloads that do not parse are a `None`. Platform, architecture and version of a host, and session fields other than ids and the closed flag, are not modelled. Lengths count characters where the code counts bytes, and trimming knows the ASCII spaces only.
- SessionSystem.SessionsAccountedFor: speaks of sessions opened on the daemon's current connection, because a daemon keeps its table when it dials again; `StaleSessions.RedialKeepsTheSession` shows that the others are not accounted for.
- The daemon takes the first message after dialling for the answer to its registration, whatever it is; in the model every message is handled by its kind.
- The daemon's terminal, screen, file and clipboard channels; the file channel decodes its chunks a second time, so no delivery claim is made for it, only the checksum claims.
- Floating point: tokens, coordinates, interpolation weights and time ratios are exact reals or compared as exact fractions. Overflow of 64-bit sizes, offsets and durations is not modelled.
- Durations of the reconnect loop are not negative, as their defaults are; unlimited retries (a maximum of 0) are not modelled, since that loop need not end.
- ICE, SDP and the peer connection: an attempt to send an offer succeeds or fails as the world decides, and always fails on a closed engine.
- Partial writes and short reads of regular files, and a chunk size of 0, on which the code stops with a division by zero.
- SHA-256 is any function; where it matters it is assumed to be injective with non-empty results.
- `Streamer.UpdateConfig`, which does not bring the quality back between its bounds; the ticker; JPEG encoding, of which only success and length are seen.
- `TouchHandler.reset`, which forgets a pressed button without releasing it, and the keyboard. The order in which the dictionary of touches lists its entries is a parameter.
- Directories, links and permissions in backups, and how the path check decides: which targets it refuses is a parameter of a restore. Files that cannot be read or disappear meanwhile. The library sort is an insertion sort; the retention laws hold for any order of equally old backups.
- RetentionModel.OnlyCondemnedBackupsGo: says what may go when some removals fail; the exact survivors are in RetentionModel.SurvivesIff.
- Authentication, key handling, configuration, the terminal multiplexer and all user interfaces: input and output, or easy members.

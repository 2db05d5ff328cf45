# covibe: relay, session lifecycle, wire formats and queues, verified

covibe is a dashboard and relay for shared terminal sessions. This project models the parts
of it whose correctness rests on state that several parties change, and proves what every
run keeps.

- **Collab relay** (`RelayProtocol`, `RelayLogs`, `RelayInvariants`, `RelayTheorems`,
  `RelayPeerIds`, `RelayExits`, `RelayForwarding`, `RelayQueues`, `RelayProgress`, `RelayHub`).
  One goroutine per WebSocket, each with a program counter; every critical section of the relay's and the room's lock is
  one step, and so is every send made outside a lock. The theorems hold for all finite
  interleavings of any number of hosts, guests and rooms, panics on closed channels
  included. `RelayHub` is the same hub as shared objects that point at each other and are
  updated in place; an abstraction function maps them to the protocol's state, and each
  method is proved to do exactly its step.
- **Session lifecycle** (`Spool`, `Clocks`, `Tombstones`, `Access`, `Lifecycle`, `Answers`,
  `Wrappers`, `Halves`, `HalvesKills`, `HalvesLimit`, `HalvesHosts`, `HalvesRuns`, `Dashboard`). Record
  store, kill tombstones, directory and access lists; the handlers as steps over them; remote
  wrappers that heartbeat and register over a network that loses requests and replies.
  `Answers` says who is answered what, and how long a claim lasts, without the handlers'
  helpers.
  `Halves` takes the handlers apart: register, heartbeat, kill, list and the terminal host's
  upgrade go one store access at a time and interleave freely, and the modules after it say
  exactly what of the atomic picture is left. `Dashboard.Server` runs the handlers over the
  stores.
- **Wire formats** (`Bytes`, `Termwire`, `ControlMode`, `SgrRows`). Length-prefixed framing
  over a chunked stream, the tmux control-mode loop, the SGR run splitter: each is shown to
  invert a printer, and the loops are shown to compute the reference functions.
- **Fan-out and bounded queues** (`Channels`, `Fanout`, `HostSocket`, `HostRegistry`).
  A channel is its queue plus the history of what was offered and taken.
- **Failure limiter** (`FailLimiter`). A mutable table with lazy expiry against an event log.

Shape: a value `State` and a `Step` or `Run` say what happens; lemmas state what every run
keeps; a class with the source's fields is proved, method by method, to do that step.
`offered`, `taken`, `overflowed`, `joined`, `drained`, `withdrew`, `payloads`, `since`,
`until`, `written`, `log` and everything declared ghost are history: no branch of a step depends on them.

Assumptions, stated as `requires` where they are used: the hash from room to record id is
injective and never empty, a minted id is fresh; the clock is monotone; one HTTP handler is
one step (except in the `Halves` modules); at most 2^32 - 1 guests join any one room, which is exactly
as long as peer ids tell guests apart (`RelayPeerIds.IdsTellApartExactly`).

Where code and documentation disagree, or the code does not do what it seems meant to, the
model follows the code and says exactly when:

- `internal/dashboard/remote.go:52-54` and `internal/session/remote.go:171-173` speak of a
  fresh id after a re-registration; the id is derived from the room and stays the same
  (`Lifecycle.RoomsKeepTheirId`).
- `internal/tmuxctl/tmuxctl.go:9-11` says replies are matched on the command number, so that
  a forged guard line does no harm; the loop looks at line prefixes only. A reply goes
  unnoticed exactly if its body is quiet (`ControlMode.QuietExactly`,
  `ControlMode.ForgedGuardIsBelieved`).
- `internal/access/access.go:77-78` says an opaque sub is left alone apart from surrounding
  space; `Key` lower-cases it, so an invitation spelled as a mixed-case sub is lost
  (`Access.InviteBySubIsExact`).
- `internal/dashboard/create.go:147-148` says a failed launch leaves an orphan list for Prune;
  the handler drops it itself.
- `internal/termwire/termwire.go:66-69` reports a stream that ends right after a header as a
  clean end of stream (`Termwire.DecodePartial`, `Termwire.Truncated`).
- With handlers as steps a kill always sticks (`Lifecycle.KillSticks`). Taken apart, it sticks
  in every run exactly if, when it is done, neither a heartbeat on that session nor a
  registration of its room stands between its check and its save
  (`HalvesKills.KillSticksExactly`, `HalvesRuns.KillCanBeUndone`).
- With handlers as steps the session limit holds (`Lifecycle.LimitHolds`). Taken apart, a step
  breaks it exactly if it saves an absent record into a full store; n handlers at a time
  exceed it by at most n - 1 records, and can (`HalvesLimit.WithinThroughoutExactly`,
  `HalvesLimit.OvershootIsBounded`, `HalvesRuns.OvershootIsReached`).
- A killed session's terminal host stays away exactly if none was between its checks and its
  registration when the kill dropped the host (`HalvesHosts.HostStaysDownExactly`).
- Claiming a session again does not renew the thirty days of its access list: a list that is
  older goes with the first listing after the session went stale, however recent the claim
  (`Answers.ReclaimDoesNotRenew`; `Answers.ClaimLasts` for a new list).
- A session that returns while a listing is under way can lose its owner and members to it
  (`HalvesHosts.TaskSparesExactly`, `HalvesRuns.ReturnCanLoseSharing`).
- `internal/dashboard/ratelimit.go:44` and `internal/dashboard/ratelimit.go:56` disagree on the
  instant at which a window ends: a client is neither blocked nor given a new window then, and
  any number of failures gets through (`FailLimiter.EdgeIsUnlimited`). But for those, it gets
  at most twice the limit in the length of a window (`FailLimiter.FailuresAreCapped`).
- A teardown that reaches a guest which has left in the meantime sends on its closed channel
  and panics: the guests after it are never told that the room is closed, and the host's
  channel is never closed (`RelayExits.TeardownPanicsExactly`, `RelayExits.AllToldExactly`,
  `RelayExits.TeardownCanCrash`). A guest's own sends panic exactly after the host's teardown
  has finished (`RelayExits.GuestSendPanicsExactly`).
- `internal/dashboard/termhost.go:83-87` looks a host up and checks it under two locks in
  turn, so a session that is live throughout a reconnect can get a no
  (`HostRegistry.LiveMayMissASuccessor`).

## Model

| member | source | states |
|---|---|---|
| RelayTheorems.RunKeeps | internal/dashboard/relay.go:159-260 | every reachable state of the relay satisfies the invariant: peer ids are the joining order, guest channels are open, one host in service per room, one exit per guest, one visit per peer in the host's log |
| RelayTheorems.StepKeeps | internal/dashboard/relay.go:159-260 | each of the seventeen kinds of step keeps that invariant |
| RelayTheorems.HostHearsVisits | internal/dashboard/relay.go:221-259 | in every interleaving, what the host is offered about peer N is peer-joined, then stamped frames, then at most one peer-left; nothing about an id not given out |
| RelayLogs.PhaseMeansVisit | internal/dashboard/relay.go:26-27 | the automaton used by the invariant accepts a log exactly when its frames about N form such a visit |
| RelayTheorems.PayloadsConserved | internal/dashboard/relay.go:244-259 | the payloads the host was offered from a guest are a prefix of what the guest sent, unchanged and in order, and all of them when the guest is back at its read |
| RelayTheorems.PeerIdsAreForever | internal/dashboard/relay.go:221-225 | a peer id is never reissued in a room: connections that hold the same id of the same room at any two moments of a run are the same connection |
| RelayTheorems.HistoryGrows | internal/dashboard/relay.go:221-225 | a room's joining order only grows and its id and host never change |
| RelayTheorems.RunGoesOn | internal/dashboard/relay.go:159-260 | over any run a connection keeps its role and id, a closed channel stays closed and an ended goroutine stays where it ended |
| RelayPeerIds.RunNumbers | internal/dashboard/relay.go:221-225 | in every run, however long, the k-th guest of a room holds k + 1 modulo 2^32 and the counter is one further on |
| RelayPeerIds.IdsTellApartExactly | internal/dashboard/relay.go:221-225 | ids are non-zero and pairwise distinct if and only if at most 2^32 - 1 guests joined |
| RelayPeerIds.CounterIsAheadExactly | internal/dashboard/relay.go:221-225 | the ids given out lie in [1, next) if and only if fewer than 2^32 - 1 guests joined |
| RelayTheorems.GuestsAreOpen | internal/dashboard/relay.go:200-209 | a guest key is never 0, equals the connection's peer id, lies below the counter exactly until that wraps, and the channel behind it is open: the host's loop never sends on a closed channel |
| RelayTheorems.OneHostPerRoom | internal/dashboard/relay.go:160-168 | two hosts in service for the same room id are the same connection |
| RelayTheorems.LiveMeansInService | internal/dashboard/relay.go:262-268 | a room is live if and only if some host is in service for it |
| RelayTheorems.TeardownRemovesItsOwn | internal/dashboard/relay.go:172-177 | the teardown's guard always holds and takes exactly its own room off the list |
| RelayExits.ExitsByOneRoute | internal/dashboard/relay.go:178-242 | each guest is in the room, or withdrew, or was drained, exactly one of them; a drained one has been told exactly if the teardown is past its turn; one that withdrew has been reported exactly if it is past its notice and did not die of it, and only a finished teardown makes it die |
| RelayExits.TeardownPanicsExactly | internal/dashboard/relay.go:185-188 | a teardown's turn for a guest panics if and only if that guest is gone |
| RelayExits.GuestSendPanicsExactly | internal/dashboard/relay.go:231-257 | a guest's send to its host, at each of the three places, is lost if and only if the host's teardown has finished; where the goroutine goes then; otherwise exactly that frame is offered |
| RelayExits.AllToldExactly | internal/dashboard/relay.go:185-189 | when a teardown is over, all drained guests were told one room-closed, and the host's channel is closed, if and only if it did not crash; a crash has a gone guest in its list |
| RelayExits.CrashIsForEver | internal/dashboard/relay.go:185-189 | after a crash the guests still in the list are never told, in any continuation |
| RelayExits.TeardownCanCrash | internal/dashboard/relay.go:185-189 | a reachable state with a crashed teardown and a guest that is still connected and was not told |
| RelayExits.PanicsAreCaused | internal/dashboard/relay.go:185-240 | in every run a crashed host has a closed guest in its list and a dead guest a closed host |
| RelayTheorems.HostFrameIsRouted | internal/dashboard/relay.go:192-211 | id 0 is offered to exactly the current guests, id N to guest N only, byte for byte; a short frame changes nothing |
| RelayForwarding.GuestFrameIsStamped | internal/dashboard/relay.go:244-258 | whatever others do between a guest's read and its send, the next thing the host is told about it is this frame, with the id as big-endian header and every later byte unchanged, or the send panics, exactly if the host's teardown has finished |
| RelayForwarding.FrameWaits | internal/dashboard/relay.go:252-257 | over any run without its own send a guest keeps the stamped frame and the host is told nothing about it |
| RelayTheorems.QueuesAreOrdered | internal/dashboard/relay.go:68-89 | each queue holds at most 256 frames; taken then queued is an in-order selection of what was offered, all of it if it never overflowed |
| RelayQueues.OverflowsExactly | internal/dashboard/relay.go:68-78 | in every run a connection has lost a frame if and only if some step offered it one while 256 were queued |
| RelayQueues.OffersJoinBelow256 | internal/dashboard/relay.go:68-78 | any step of any run offers a queue at most one frame, which joins a backlog below 256 and is lost to one of 256, and takes nothing from it but what the writer takes |
| RelayQueues.WriterTakesOldest | internal/dashboard/relay.go:80-89 | the writer takes the oldest frame and nothing else changes |
| RelayProgress.NobodyIsStuck | internal/dashboard/relay.go:159-260 | in every run each goroutine that has not ended has a next step, and it can be taken whatever the others have done |
| RelayProgress.HostIsRefusedExactly | internal/dashboard/relay.go:160-168 | a host is turned away if and only if another is in service for its room; otherwise it gets a new, empty one |
| RelayProgress.GuestIsRefusedExactly | internal/dashboard/relay.go:213-220 | a guest is turned away if and only if no host is in service for its room; otherwise it finds that host's |
| RelayProgress.OtherReadsAreSkipped | internal/dashboard/relay.go:193-199 | text and short frames are skipped on both sides, and a failed read only starts the exit |
| RelayProgress.ExitsGoOn | internal/dashboard/relay.go:172-242 | each stage of a teardown and of a guest's exit leads to the next, to the close of its own queue |
| RelayPeerIds.CrowdJoins | internal/dashboard/relay.go:221-225 | for every k there is a run in which k guests join one room |
| RelayPeerIds.TooManyJoinsReuseZero | internal/dashboard/relay.go:221-225 | so the bound is reached: a run of 2^32 joins gives the last guest the broadcast id 0 |
| RelayInvariants.HostOpenKeeps | internal/dashboard/relay.go:160-168 | opening a room keeps the invariant |
| RelayInvariants.HostReadKeeps | internal/dashboard/relay.go:192-211 | routing a host frame keeps the invariant |
| RelayInvariants.HostUnlistKeeps | internal/dashboard/relay.go:173-177 | the first section of the teardown keeps the invariant |
| RelayInvariants.HostDrainKeeps | internal/dashboard/relay.go:178-184 | the second section of the teardown keeps the invariant |
| RelayInvariants.HostNotifyKeeps | internal/dashboard/relay.go:185-188 | telling one drained guest keeps the invariant, also when the send panics |
| RelayInvariants.GuestRegisterKeeps | internal/dashboard/relay.go:221-227 | registering a guest keeps the invariant, even when its room was drained since the lookup |
| RelayInvariants.TellKeeps | internal/dashboard/relay.go:231-257 | a guest's unlocked send to its host keeps the invariant, also when it panics |
| RelayInvariants.GuestReadKeeps | internal/dashboard/relay.go:244-252 | reading and stamping a guest frame keeps the invariant |
| RelayInvariants.GuestLeaveKeeps | internal/dashboard/relay.go:232-237 | a guest's own exit keeps the invariant |
| RelayInvariants.GuestFinishKeeps | internal/dashboard/relay.go:241 | closing a guest's channel keeps the invariant |
| RelayHub.Relay.Accept | internal/dashboard/relay.go:150-156 | a new connection starts as its role says, with an empty queue |
| RelayHub.Relay.Offer | internal/dashboard/relay.go:72-78 | offers one frame to one queue and touches nothing else |
| RelayHub.Relay.HostOpens | internal/dashboard/relay.go:159-168 | does the protocol's opening step: refuse a second host or list a fresh room |
| RelayHub.Relay.Broadcast | internal/dashboard/relay.go:202-205 | whatever the map order, exactly the room's guests are offered the frame, each once |
| RelayHub.Relay.Route | internal/dashboard/relay.go:200-209 | offers the frame to exactly its addressees: everyone, one guest, or nobody |
| RelayHub.Relay.Address | internal/dashboard/relay.go:206-208 | exactly the addressed guest is offered the frame |
| RelayHub.Relay.HostReads | internal/dashboard/relay.go:192-211 | does the protocol's routing step for errors, text, short, broadcast and addressed frames |
| RelayHub.Relay.HostUnlists | internal/dashboard/relay.go:173-177 | does the protocol's unlisting step |
| RelayHub.Relay.TakeOut | internal/dashboard/relay.go:178-184 | returns exactly the connections in the guest map and leaves it empty |
| RelayHub.Relay.HostDrains | internal/dashboard/relay.go:178-184 | does the protocol's draining step; the list returned is what the teardown has to tell |
| RelayHub.Relay.HostNotifies | internal/dashboard/relay.go:185-188 | does the protocol's step for one drained guest |
| RelayHub.Relay.HostFinishes | internal/dashboard/relay.go:189 | closes the host's own channel, once |
| RelayHub.Relay.GuestLooksUp | internal/dashboard/relay.go:213-220 | does the protocol's lookup step |
| RelayHub.Relay.Enter | internal/dashboard/relay.go:221-226 | gives out the counter's id, advances it in 32 bits and enters the connection under it |
| RelayHub.Relay.GuestRegisters | internal/dashboard/relay.go:221-227 | does the protocol's registration step |
| RelayHub.Relay.GuestAnnounces | internal/dashboard/relay.go:231 | does the protocol's announcing step |
| RelayHub.Relay.GuestReads | internal/dashboard/relay.go:249-252 | overwrites the first four bytes of the buffer in place and does the protocol's reading step |
| RelayHub.Relay.GuestReadFails | internal/dashboard/relay.go:245-248 | a read error starts the guest's exit |
| RelayHub.Relay.GuestForwards | internal/dashboard/relay.go:253-258 | does the protocol's forwarding step |
| RelayHub.Relay.Send | internal/dashboard/relay.go:185-257 | a send made outside every lock: the frame is offered, or the goroutine goes where the panic takes it |
| RelayHub.Relay.Withdraw | internal/dashboard/relay.go:233-237 | takes the guest out of the map and says whether it was still there |
| RelayHub.Relay.GuestLeaves | internal/dashboard/relay.go:233-237 | does the protocol's leaving step |
| RelayHub.Relay.GuestNotifies | internal/dashboard/relay.go:238-240 | does the protocol's parting step |
| RelayHub.Relay.GuestFinishes | internal/dashboard/relay.go:241 | closes the guest's own channel, once |
| RelayHub.Relay.WriterTakes | internal/dashboard/relay.go:80-89 | takes the oldest queued frame |
| RelayHub.Relay.RoomLive | internal/dashboard/relay.go:263-268 | answers whether the room is listed |
| Bytes.GetPut | internal/dashboard/relay.go:252 | a big-endian 32-bit header reads back as the number written, whatever follows |
| Bytes.BigEndian | internal/termwire/termwire.go:59 | the first of the four bytes weighs most |
| Bytes.PutGet | internal/dashboard/relay.go:200 | writing the number read gives the same four bytes |
| Bytes.PutU32At | internal/termwire/termwire.go:87 | overwrites four bytes of a buffer in place and no others |
| Tombstones.HasAgreesWithLog | internal/dashboard/killed.go:36-69 | under a monotone clock, after any run, `has` says yes if and only if the key is non-empty and was remembered at most ten minutes ago |
| Tombstones.HoldsOnlyRecent | internal/dashboard/killed.go:41-45 | nothing is kept for ever: after a kill the registry holds exactly the keys killed within the last ten minutes |
| Tombstones.MarkSets | internal/dashboard/killed.go:46-50 | after `remember`, exactly the non-empty keys given carry the new time |
| Tombstones.KillRegistry.Remember | internal/dashboard/killed.go:37-51 | sweeps what has expired, then marks the keys |
| Tombstones.KillRegistry.Has | internal/dashboard/killed.go:54-69 | answers, forgetting an expired entry on the way |
| FailLimiter.RunTracks | internal/dashboard/ratelimit.go:31-61 | after any run a client's entry counts its failures since its open window began, in the pruned and in the never-pruned table |
| FailLimiter.BlockedMeansThrottled | internal/dashboard/ratelimit.go:31-45 | blocked if and only if the client's own failures fill the open window: the exact meaning over the log |
| FailLimiter.PruningIsInvisible | internal/dashboard/ratelimit.go:38-42 | pruning never changes a later answer |
| FailLimiter.HoldsOnlyOpen | internal/dashboard/ratelimit.go:38-42 | nothing is kept for ever: after a query the table holds exactly the clients whose open window is not over |
| FailLimiter.ClientsAreIsolated | internal/dashboard/ratelimit.go:48-61 | a client's answer is the same as if no other client had called |
| FailLimiter.BlockedIsSound | internal/dashboard/ratelimit.go:31-45 | a blocked client failed at least max times within the last window |
| FailLimiter.EnoughFailuresMayNotBlock | internal/dashboard/ratelimit.go:48-61 | the converse fails, with a concrete run of three failures |
| FailLimiter.FailuresAreCapped | internal/dashboard/ratelimit.go:31-61 | a client that is asked about before each failure fails at most twice the limit in any stretch as long as a window, not counting failures at the instant a window ends |
| FailLimiter.LetThroughIsCapped | internal/dashboard/ratelimit.go:44-60 | each window on its own holds at most the limit of such failures, and so does a stretch of its length before it |
| FailLimiter.EdgeIsUnlimited | internal/dashboard/ratelimit.go:44-56 | at the instant a window ends any number of failures is let through |
| FailLimiter.Limiter.Blocked | internal/dashboard/ratelimit.go:31-45 | prunes exactly the expired entries and answers for this client |
| FailLimiter.Limiter.Fail | internal/dashboard/ratelimit.go:48-61 | opens a window or counts in the open one |
| Termwire.RoundTrip | internal/termwire/termwire.go:55-91 | reading back any list of messages gives the same kinds and payloads, then the end of stream |
| Termwire.WireFormat | internal/termwire/termwire.go:75-91 | a message is its kind, its length in four bytes, most significant first, and its payload; exactly those of up to 4194304 bytes are allowed |
| Termwire.TooLargeExactly | internal/termwire/termwire.go:59-62 | a stream is refused as too large if and only if its header announces more than 4194304 bytes |
| Termwire.DecodePartial | internal/termwire/termwire.go:55-71 | what a single message cut at any byte reads as |
| Termwire.Truncated | internal/termwire/termwire.go:55-71 | a stream cut anywhere yields exactly the messages whole by then and an error, clean-looking only at a message boundary or right after a header |
| Termwire.WireIsEncoding | internal/termwire/termwire.go:73-91 | the wire of any calls is the encoding of the accepted messages |
| Termwire.AcceptedInOrder | internal/termwire/termwire.go:73-91 | each writer's accepted messages keep their order |
| Termwire.ReaderGetsMerge | internal/termwire/termwire.go:38-41 | several writers give the reader a merge of their lists, nothing torn or lost |
| Termwire.Stream.ReadFull | internal/termwire/termwire.go:56-67 | fills the buffer with the next bytes however the stream is chunked, or with what is left |
| Termwire.Conn.ReadMsg | internal/termwire/termwire.go:55-71 | returns what the reference decoder returns, in a freshly allocated payload; consumes exactly the message, the header when it is too large, or a truncated stream to its end |
| Termwire.Conn.WriteMsg | internal/termwire/termwire.go:75-91 | appends exactly the message's encoding to the wire whatever the reused buffer held, or refuses an oversized payload and writes nothing |
| ControlMode.UnescapeInverts | internal/tmuxctl/tmuxctl.go:372-387 | unescaping any way of writing the bytes gives the bytes back |
| ControlMode.EscapeWrites | internal/tmuxctl/tmuxctl.go:372-387 | tmux's own escaping of arbitrary bytes is such a way of writing |
| ControlMode.ScanInvertsPrint | internal/tmuxctl/tmuxctl.go:309-313 | the line scanner gives back the printed lines, up to the first overlong one |
| ControlMode.EventEmits | internal/tmuxctl/tmuxctl.go:312-340 | one event's lines make the loop emit exactly its payload, whatever follows |
| ControlMode.LoopInvertsLines | internal/tmuxctl/tmuxctl.go:303-341 | over any events the loop emits exactly the output payloads before the first exit, in order |
| ControlMode.LoopInvertsPrinter | internal/tmuxctl/tmuxctl.go:303-341 | from the bytes of any printed events, of any length, the loop emits exactly the output payloads before the first exit or the first line that overflows the scanner |
| ControlMode.AllPayloadsFit | internal/tmuxctl/tmuxctl.go:309-310 | which are all payloads before the first exit when every line fits |
| ControlMode.GuardSplits | internal/tmuxctl/tmuxctl.go:315-320 | any lines up to a guard line emit what they emit alone, and what follows is read as from the start unless they made the loop exit |
| ControlMode.QuietExactly | internal/tmuxctl/tmuxctl.go:315-334 | a reply goes unnoticed, whatever follows it, if and only if no line of its body that stands outside a block exits or carries data |
| ControlMode.ReplyEmitsNothing | internal/tmuxctl/tmuxctl.go:315-320 | a whole reply block with a quiet body emits nothing |
| ControlMode.ForgedGuardIsBelieved | internal/tmuxctl/tmuxctl.go:315-324 | a body that is not quiet: after any guard line inside a block, an output line in the same block is emitted |
| ControlMode.UnescapeBytes | internal/tmuxctl/tmuxctl.go:374-387 | the index loop computes the reference unescape |
| ControlMode.ParseOutputLine | internal/tmuxctl/tmuxctl.go:353-360 | data after the first blank, or none |
| ControlMode.ParseExtendedLine | internal/tmuxctl/tmuxctl.go:363-370 | data after the first " : ", or none |
| ControlMode.OutputParses | internal/tmuxctl/tmuxctl.go:353-360 | a printed output line parses to its own text, whatever the text holds |
| ControlMode.ExtendedParses | internal/tmuxctl/tmuxctl.go:363-370 | a printed extended line parses to its own text, even if that holds " : " |
| ControlMode.Client.Emit | internal/tmuxctl/tmuxctl.go:345-350 | offers one chunk without blocking to the queue of 256, as the consumer has left it |
| ControlMode.Client.HandleLine | internal/tmuxctl/tmuxctl.go:312-339 | one turn of the loop: what it emits, the block flag, the resume command, the exit |
| ControlMode.Client.ReadLoop | internal/tmuxctl/tmuxctl.go:307-341 | over any stream and any pace of the consumer the loop offers exactly what the line-by-line reference emits, tells tmux to go on as often as it says, and closes the channel; what is queued or taken is an in-order selection, and something is missing if and only if an emission found 256 queued |
| ControlMode.ResumesEachPause | internal/tmuxctl/tmuxctl.go:329-338 | from the bytes of any printed events tmux is told to go on once for each pause before the first exit or overlong line, and never for a session change or for what a reply shows |
| ControlMode.PauseParses | internal/tmuxctl/tmuxctl.go:329-338 | what a pause and a session change are told by |
| ControlMode.UnescapeKeepsTheRest | internal/tmuxctl/tmuxctl.go:372-387 | text without a backslash before three octal digits stands for itself, lone backslashes included |
| ControlMode.ScanIsLenient | internal/tmuxctl/tmuxctl.go:309-313 | a carriage return before the line break is dropped, and the last line needs no line break |
| ControlMode.MalformedIsDropped | internal/tmuxctl/tmuxctl.go:353-370 | output without the blank after its pane, or without the " : " before its data, is dropped |
| SgrRows.RowsKeepText | internal/dashboard/terminal.go:114-134 | for any screen each row's joined text is its line without SGR sequences and no run is empty |
| SgrRows.RowInverts | internal/dashboard/terminal.go:117-132 | splitting a printed row gives the row back |
| SgrRows.SplitterInverts | internal/dashboard/terminal.go:114-134 | splitting printed rows gives them back up to trailing empty rows |
| SgrRows.ExactWhenLastRowIsSolid | internal/dashboard/terminal.go:115 | nothing is lost if and only if there is one row or the last row is not empty |
| SgrRows.ParseInvertsJoin | internal/dashboard/terminal.go:138-147 | non-zero numeric parameters joined by semicolons parse back to themselves |
| SgrRows.MatchesExactly | internal/dashboard/terminal.go:112 | exactly ESC [ digits and semicolons m is taken for a sequence, in its whole length |
| SgrRows.KeptOf | internal/dashboard/terminal.go:138-147 | empty and zero parameters are dropped, all others kept in order |
| SgrRows.ResetClears | internal/dashboard/terminal.go:117-147 | text after ESC[0m or ESC[m is a run without parameters, whatever came before |
| SgrRows.SplitInvertsJoin | internal/dashboard/terminal.go:115 | splitting joined parts gives the parts back |
| SgrRows.KeepParams | internal/dashboard/terminal.go:138-147 | the loop keeps exactly the parameters that are neither empty nor zero, in order |
| SgrRows.NextRun | internal/dashboard/terminal.go:120-127 | jumping from match to match gives the runs of the character-by-character reference |
| SgrRows.SplitLine | internal/dashboard/terminal.go:118-130 | the loop over matches computes the reference row |
| SgrRows.Rows | internal/dashboard/terminal.go:114-134 | the outer loop computes the reference rows |
| Channels.Chan.OfferSound | internal/dashboard/relay.go:72-78 | a non-blocking send keeps the queue a bounded in-order selection of what was offered |
| Channels.Chan.TakeSound | internal/dashboard/relay.go:80-82 | so does a receive |
| Channels.FedLosesExactly | internal/tmuxctl/tmuxctl.go:345-350 | a queue of 256 that is offered any items at any pace has lost one if and only if one found 256 queued, counted without the queue |
| Channels.FedCounts | internal/tmuxctl/tmuxctl.go:345-350 | its backlog is what the count says |
| Fanout.SubscribersSeeTheStream | internal/session/termhost.go:456-502 | received then queued chunks are an in-order selection of the chunks written while subscribed, all of them if the queue never filled, at most 256 queued; open if and only if subscribed |
| Fanout.OverflowsExactly | internal/session/termhost.go:468-486 | in every run a subscriber has lost a chunk if and only if some write found 256 queued for it while it was subscribed |
| Fanout.StepsTakeEffect | internal/session/termhost.go:468-502 | a subscription opens an empty queue of 256, an unsubscription closes it, a write joins a queue below 256, a receive takes the oldest |
| Fanout.RunKeeps | internal/session/termhost.go:456-502 | every reachable state of the tee satisfies its invariant |
| Fanout.Tee.Write | internal/session/termhost.go:468-483 | whatever the map order, every subscriber is offered one copy, never on a closed channel |
| Fanout.Tee.Subscribe | internal/session/termhost.go:485-491 | adds a fresh channel |
| Fanout.Tee.Unsubscribe | internal/session/termhost.go:495-502 | closes a channel only while it is still in the map |
| HostSocket.NoGaps | internal/session/termhost.go:181-226 | what is on the wire is always a prefix of all enqueue attempts, even after an overflow; while not cancelled the rest is in flight or queued |
| HostSocket.OverflowCancelsExactly | internal/session/termhost.go:181-190 | a frame joins a queue of fewer than 256; exactly one that finds 256 cancels the connection |
| HostSocket.WriterGoesOn | internal/session/termhost.go:193-209 | the writer writes what it took, and stops when a write fails or the connection is cancelled |
| HostSocket.StreakCounts | internal/session/termhost.go:113-124 | what the backoff doubles by: the quick ends since the last connection that held for half a minute |
| HostSocket.RunKeeps | internal/session/termhost.go:181-226 | every reachable state of one connection satisfies its invariant |
| HostSocket.OfferedAreAttempts | internal/session/termhost.go:184-190 | the queue was offered exactly the attempts of the pump and the snapshot replies |
| HostSocket.Socket.Enqueue | internal/session/termhost.go:184-190 | queues the frame or cancels the connection |
| HostSocket.Socket.ReplySnapshot | internal/session/termhost.go:270-272 | enqueues clear-screen, home, then the screen |
| HostSocket.Socket.WriteOne | internal/session/termhost.go:199-206 | takes the oldest frame and writes it, or cancels and stops |
| HostSocket.Reconnect | internal/session/termhost.go:110-134 | gives up on a fatal end only; each wait is one second doubled by every quick failure since the last stable connection, at most thirty |
| HostRegistry.RunKeeps | internal/dashboard/termhost.go:54-140 | every reachable state satisfies the viewers' and hosts' invariant |
| HostRegistry.OpenHostsServe | internal/dashboard/termhost.go:120-173 | an open host takes every viewer and every snapshot request, a closed one none |
| HostRegistry.LeavingClosesExactly | internal/dashboard/termhost.go:109-140 | a viewer's leaving or its host's close closes its channel, whichever comes first, and then neither does anything |
| HostRegistry.ClosesAreOwed | internal/dashboard/termhost.go:57-108 | an addition makes exactly its predecessor owe a close, a removal the host; an owed close takes the viewers of an open host out |
| HostRegistry.ViewersCloseOnce | internal/dashboard/termhost.go:95-140 | a viewer's channel is closed at most once, is open exactly while attached or due, and is closed once its host's close has finished |
| HostRegistry.ClosedIsFinal | internal/dashboard/termhost.go:120-131 | a closed host has no viewers, accepts none and stays closed |
| HostRegistry.RegistryAgreesWithLog | internal/dashboard/termhost.go:57-81 | in every run a session maps to the last host added for it that has not been removed, and to nothing otherwise |
| HostRegistry.LateRemoveIsHarmless | internal/dashboard/termhost.go:67-74 | a displaced host's late remove does not evict its successor |
| HostRegistry.DisplacedHostsGetClosed | internal/dashboard/termhost.go:57-74 | a host once added is registered, closed, or owed a close by somebody |
| HostRegistry.TermHosts.Add | internal/dashboard/termhost.go:57-65 | replaces the session's host and names the one to close |
| HostRegistry.TermHosts.Remove | internal/dashboard/termhost.go:67-74 | removes the host only if it is still the session's |
| HostRegistry.TermHosts.CloseHost | internal/dashboard/termhost.go:95-108 | the first close takes every viewer out, later ones do nothing |
| HostRegistry.TermHosts.CloseTaken | internal/dashboard/termhost.go:109-111 | closes each viewer taken out exactly once and no other |
| HostRegistry.TermHosts.Attach | internal/dashboard/termhost.go:120-128 | the locked half: adds a fresh viewer, or refuses on a closed host |
| HostRegistry.TermHosts.RequestSnapshot | internal/dashboard/termhost.go:129-173 | the rest, a step of its own: the host is asked for one snapshot unless it has been closed by then |
| HostRegistry.TermHosts.Detach | internal/dashboard/termhost.go:133-140 | closes the viewer's channel only while it is attached |
| HostRegistry.LiveAnswersExactly | internal/dashboard/termhost.go:83-93 | with any run between lookup and check, a yes means live at the lookup; for a session live at both, the answer is no if and only if the host found is closed in that run by somebody who owed it, and then another was added for the session in it |
| HostRegistry.LiveThroughout | internal/dashboard/termhost.go:57-65 | if the session was live all the while, the other host was added before the close |
| HostRegistry.ClosedExactly | internal/dashboard/termhost.go:95-108 | an open host is closed at the end of a run if and only if somebody who owed it closes it in the run |
| HostRegistry.LiveMayMissASuccessor | internal/dashboard/termhost.go:83-93 | there is a run in which the session is live at every moment and the answer is no |
| HostRegistry.TermHosts.Get | internal/dashboard/termhost.go:76-81 | the host registered for the session, if any |
| HostRegistry.TermHosts.IsClosed | internal/dashboard/termhost.go:89-93 | whether the host is closed |
| HostRegistry.TermHosts.IsLive | internal/dashboard/termhost.go:84-87 | with nothing between its two critical sections, whether the session is live |
| HostRegistry.TermHosts.Drop | internal/dashboard/termhost.go:353-360 | takes exactly the session's host off the registry, leaves it closed and closes each of its viewers once |
| Access.Principals | internal/access/access.go:83-95 | exactly the non-empty normalized handles, without duplicates |
| Access.PrincipalsInOrder | internal/access/access.go:83-95 | an identity is tried by mail address, then sub, then username, each once |
| Access.TrimExactly | internal/access/access.go:77-81 | trimming takes the blanks off both ends and nothing else |
| Access.LowerExactly | internal/access/access.go:77-81 | lower-casing changes exactly the capital letters |
| Access.KeyTwice | internal/access/access.go:77-81 | normalizing a handle twice is normalizing it once |
| Access.RunKeeps | internal/access/access.go:185-363 | over any run from an empty store entries sit under their own key, member lists have no duplicates and every member has an entry |
| Access.LoginReusesEntry | internal/access/access.go:185-212 | a login under any known handle adds no entry, a stranger adds one, other entries and all lists stay |
| Access.LoginAdopts | internal/access/access.go:185-212 | a login takes over the entry of the first handle that has one, brings it up to date and keeps the time of the first visit |
| Access.ClaimExactly | internal/access/access.go:250-263 | a claim names the owner, keeps the members, dates an undated list, and touches no other |
| Access.InvitationExactly | internal/access/access.go:268-294 | an invitation adds the key once unless it is the owner's, dates an undated list, and enters a stranger by mail address or username |
| Access.PruneKeepsExactly | internal/access/access.go:338-352 | a prune keeps a list, as it is, if and only if its session is live or the list is younger than the grace |
| Access.RemovalTouchesOne | internal/access/access.go:298-315 | a removal leaves every other list, and this one's owner and date |
| Access.WithoutKeepsOrder | internal/access/access.go:298-315 | removal keeps the others, in order, and only the others |
| Access.HarmlessIsExact | internal/access/access.go:250-363 | an operation takes a key's access to a session away if and only if it is one of the named harmful ones |
| Access.BelongsStays | internal/access/access.go:250-363 | access lasts over any run of harmless operations |
| Access.InvitationLasts | internal/access/access.go:268-294 | an invitation under a handle among an identity's principals still passes Allows after any run of harmless operations |
| Access.InviteBySubIsExact | internal/access/access.go:77-95 | an invitation to any session spelled as a sub lets its owner in if and only if they were in before, or the sub is lower case, or equals their mail address or username |
| Access.UpperCaseSubIsLost | internal/access/access.go:77-95 | a concrete sub whose invitation is not honoured |
| Access.RevokedIsOut | internal/access/access.go:298-315 | after a removal an identity gets in exactly as the owner or as another member |
| Access.FilterInPlace | internal/access/access.go:298-315 | the in-place filter leaves the kept members, in order, in front and the array behind them as it was |
| Access.Store.Seen | internal/access/access.go:185-212 | the login step, returning the entry that is now stored |
| Access.Store.SetOwner | internal/access/access.go:250-263 | the ownership step, refused without an id |
| Access.Store.AddMember | internal/access/access.go:268-294 | the invitation step, refused without an id or a handle |
| Access.Store.RemoveMember | internal/access/access.go:298-315 | the removal step through the in-place filter, refused for an unknown session |
| Access.Store.Prune | internal/access/access.go:338-352 | drops exactly the lists neither live nor within their grace, in any map order |
| Access.Store.Drop | internal/access/access.go:355-363 | drops one list |
| Access.Store.Members | internal/access/access.go:319-332 | resolves each member in order, each a directory entry under the invariant |
| Spool.PruneTwice | internal/spool/spool.go:281-299 | pruning now and again later is pruning later |
| Spool.StaysExactly | internal/spool/spool.go:74-94 | a record is kept if and only if it is remote and was heard of in the last thirty seconds, or local with a process, and has not been ended too long |
| Spool.SaveExactly | internal/spool/spool.go:197-224 | a save dates the record and touches no other |
| Spool.ListingSize | internal/spool/spool.go:250-277 | a listing has as many records as the store |
| Spool.StayingLists | internal/spool/spool.go:281-299 | filtering a listing lists exactly the records that stay |
| Spool.SweptIsLive | internal/spool/spool.go:281-299 | once every listed record was looked at, the store holds exactly those that stay |
| Spool.Store.Save | internal/spool/spool.go:197-224 | stores the record under its id with the clock bumped, refused without an id |
| Spool.Store.Load | internal/spool/spool.go:227-237 | the record under an id or none |
| Spool.Store.Remove | internal/spool/spool.go:240-246 | removes one record and no other |
| Spool.Store.List | internal/spool/spool.go:250-277 | every record once, newest first, in any directory order |
| Spool.Store.LiveRecords | internal/spool/spool.go:279-299 | returns exactly the records alive and not ended too long ago, newest first, and leaves exactly those in the store |
| Lifecycle.RunKeeps | internal/dashboard/remote.go:46-129 | in every run records sit under their id and a remote record with a room under the room's hash |
| Answers.KillIsAnsweredExactly | internal/dashboard/server.go:259-296 | a kill of a live session is granted if and only if the caller is an admin or its owner, refused if and only if they are a mere member, and not found otherwise; only a granted one ends the record |
| Answers.SharingIsAnsweredExactly | internal/dashboard/users.go:177-247 | so are changes of its member list, which are carried out if valid |
| Answers.RegistrationIsAnsweredExactly | internal/dashboard/remote.go:46-129 | which of its five answers a registration gets, and the record and owner an accepted one leaves |
| Answers.HeartbeatIsAnsweredExactly | internal/dashboard/remote.go:136-166 | which of its four answers a heartbeat gets, and when it dates the record |
| Answers.HeardIsListed | internal/spool/spool.go:74-94 | a session stays listed for thirty seconds from its last accepted heartbeat and no longer |
| Answers.CreationIsAnsweredExactly | internal/dashboard/create.go:145-160 | a created session is its creator's if and only if the launch succeeds |
| Answers.ListingKeepsExactly | internal/dashboard/server.go:301-310 | a listing keeps an access list if and only if its session is live or it is younger than thirty days |
| Answers.OwnerLasts | internal/access/access.go:334-352 | for thirty days from the date of its list a session keeps its owner in every run that names no other, whatever is listed |
| Answers.ClaimLasts | internal/dashboard/users.go:13-21 | so it does after a claim, by registration or creation, of a session without a list |
| Answers.ReclaimDoesNotRenew | internal/access/access.go:250-263 | another claim does not renew the thirty days: an older list goes exactly when the session has been silent for thirty seconds |
| Answers.RestIsServed | internal/dashboard/server.go:337-348 | looking a session up prunes records and nothing else; logins and local saves take effect |
| Lifecycle.RoomsKeepTheirId | internal/dashboard/remote.go:76-93 | over any run the same room is answered with the same id and different rooms with different ids, no two remote records share a room, and a registration takes over whatever record of its room the run left, start time included |
| Lifecycle.KillMarks | internal/dashboard/server.go:289-295 | an accepted kill leaves tombstones under id and room and an ended record |
| Lifecycle.DeadStays | internal/dashboard/remote.go:46-166 | no request of any kind revives a killed session within the TTL |
| Lifecycle.DeadOverRun | internal/dashboard/server.go:289-295 | nor does any run |
| Lifecycle.DeadIsRefused | internal/dashboard/remote.go:52-58 | its room cannot be registered and its heartbeats are told to stop |
| Lifecycle.KillSticks | internal/dashboard/server.go:259-296 | in every run up to T + TTL after a kill the record is absent or ended, the room is refused and every heartbeat on the id is told to stop |
| Lifecycle.KillWearsOff | internal/dashboard/killed.go:54-69 | without a session limit a killed room is accepted again exactly when more than the TTL has passed |
| Halves.HalvesMakeAWhole | internal/dashboard/remote.go:46-166 | for every request, its parts with nothing in between are the atomic step and give its reply |
| Halves.RunOk | internal/dashboard/remote.go:46-166 | in every interleaving records sit under their ids, a held record is what it was when it was loaded, and a kill that has left its tombstones still has them within the TTL |
| HalvesKills.DeadExactly | internal/dashboard/remote.go:55-161 | within the TTL a step of any interleaving keeps a killed session dead if and only if it is not the save of a heartbeat or of a registration that holds a record of that id |
| HalvesKills.DeadThroughoutExactly | internal/dashboard/remote.go:55-161 | in every run a killed session is dead throughout if and only if no such save happens |
| HalvesKills.UnthreatenedStaysDead | internal/dashboard/server.go:289-294 | with no heartbeat and no registration of it under way, a killed session stays dead in every run, and none gets under way |
| HalvesKills.KillSticksExactly | internal/dashboard/server.go:289-294 | a kill sticks in every run if and only if, when it is done, neither a heartbeat on the session nor a registration of its room is between its check and its save; one that has yet to count needs half a minute of the TTL |
| HalvesKills.DeadIsToldSo | internal/dashboard/remote.go:52-58 | a dead session's registration is refused and its heartbeat told to stop, at its first access or its second |
| HalvesKills.RevivedIsServed | internal/dashboard/remote.go:150-165 | after a save that revives it, heartbeats are told to go on, while the room stays refused |
| HalvesRuns.Whole | internal/dashboard/remote.go:46-166 | runs of whole requests are interleavings, also while other handlers wait |
| HalvesRuns.KillCanBeUndone | internal/dashboard/remote.go:55-161 | from an empty dashboard, two handlers at a time, both ways to undo a kill: a heartbeat and a registration begun before it |
| HalvesHosts.HostStaysDownExactly | internal/dashboard/termhost.go:205-257 | after a kill has dropped a session's terminal host, none is registered in any run while tombstones last, if and only if none was past its checks and not yet registered |
| HalvesHosts.OfferIsAnsweredExactly | internal/dashboard/termhost.go:199-225 | a terminal host passes its checks if and only if its session is live, remote, not ended, not killed lately, and exists to the key it comes with |
| HalvesHosts.HostsComeAndGo | internal/dashboard/termhost.go:256-257 | a registration and a hang-up take effect |
| HalvesHosts.TaskSparesExactly | internal/access/access.go:338-352 | a handler's next access leaves a session's owner and members if and only if it does not set another owner, or prune by a list of live sessions without it when its grace is over |
| HalvesHosts.SharingSurvivesHalves | internal/dashboard/server.go:301-310 | over any interleaving of sparing steps a session keeps its owner and members |
| HalvesRuns.ReturnCanLoseSharing | internal/dashboard/server.go:301-310 | from an empty dashboard, a session that returns during a listing is left without its owner, live as it is |
| HalvesLimit.WithinExactly | internal/dashboard/remote.go:94-161 | a step of any interleaving keeps the store within its limit if and only if it does not save an absent record into a full store |
| HalvesLimit.WithinThroughoutExactly | internal/dashboard/remote.go:94-161 | in every run the limit holds throughout if and only if no such save happens |
| HalvesLimit.OvershootIsBounded | internal/dashboard/remote.go:94-116 | from an empty dashboard, with records made by registrations only and at most n handlers at a time, the store never holds more than n - 1 records beyond the limit; one at a time keep to it |
| HalvesRuns.OvershootIsReached | internal/dashboard/remote.go:94-116 | for every n there is such a run that reaches the bound: n registrations that all counted before the first saved |
| HalvesRuns.LateSaveOverfills | internal/dashboard/server.go:261-294 | from an empty dashboard, the two other ways: a heartbeat, or a kill, saves a record that went stale and was replaced in its hands |
| Lifecycle.StepLeavesACL | internal/dashboard/server.go:301-310 | a request outside the named ones leaves a session's owner and members as they are |
| Lifecycle.SharingSurvives | internal/access/access.go:338-352 | over any run of such requests, pruned records and re-registrations included, owner and members stay |
| Lifecycle.StepLimits | internal/dashboard/remote.go:89-99 | no request takes the store over the limit, although a returning session is not counted |
| Lifecycle.LimitHolds | internal/dashboard/remote.go:89-119 | with a limit and registrations only, the store never holds more records than the limit |
| Wrappers.WrappersKeepTheirId | internal/session/remote.go:145-186 | over any run of lost and answered messages a wrapper with a room holds the one id of its room |
| Wrappers.ForgottenReturns | internal/session/remote.go:166-176 | in every run a watching wrapper whose record is gone, and which was not killed lately, is back under its room's id after one answered heartbeat and one answered announcement, if there is room |
| Wrappers.FirstAnnouncement | internal/session/remote.go:89-143 | a started wrapper watches under its room's id once its first announcement is accepted |
| Wrappers.AnswersTakeEffect | internal/session/remote.go:166-211 | what each answer makes of a wrapper |
| Wrappers.LossesTakeEffect | internal/session/remote.go:190-200 | a lost request changes nothing at the dashboard, a lost reply leaves it served; a wrapper gives up only if its first announcement is lost |
| Wrappers.RunStaysDead | internal/session/remote.go:145-186 | no run of wrappers and requests revives a killed session within the TTL |
| Wrappers.KillReachesWrapper | internal/session/remote.go:166-181 | after a kill the wrapper's first answered heartbeat stops it and no registration of its room succeeds |
| Wrappers.StoppedForEver | internal/session/remote.go:178-181 | a wrapper told to stop never heartbeats or registers again |
| Wrappers.RemoteSink.Watch | internal/session/remote.go:147-186 | the k-th heartbeat goes out under the id held at tick k and records what tick k answered; a registration follows every 404 and nothing else; nothing follows the first stop, and without one there is a heartbeat for every tick |
| Wrappers.RemoteSink.Beat | internal/session/remote.go:159-181 | one tick: a heartbeat, and a registration if it is answered with a 404 |
| Dashboard.Server.HandleRegister | internal/dashboard/remote.go:46-129 | over the three stores, does exactly the registration step and gives its reply |
| Dashboard.Server.AtLimit | internal/dashboard/remote.go:94-99 | prunes and says whether the live records reach the limit |
| Dashboard.Server.Write | internal/dashboard/remote.go:87-127 | saves the record with the start time it reclaims and sets the key's owner |
| Dashboard.Server.HandleRemotePane | internal/dashboard/remote.go:136-166 | does exactly the heartbeat step |
| Dashboard.Server.LiveRecord | internal/dashboard/server.go:337-348 | prunes, then finds the record if and only if it is left |
| Dashboard.Server.HandleKill | internal/dashboard/server.go:259-296 | does exactly the kill step, with its three refusals; an accepted kill also ends a local session's process and tmux session, and takes the terminal host down with all its viewers |
| Dashboard.Server.Views | internal/dashboard/server.go:301-319 | prunes records, then lists of sessions gone, and returns, newest first, exactly what an admin, the owner or a member may see |

## Left out

- RelayHub.Relay.Send: the sends a guest makes to its host outside the lock are not claimed to find an open channel; `RelayExits.GuestSendPanicsExactly` says when they do not.
- RelayTheorems.RunKeeps: only for rooms with at most 2^32 - 1 joins, beyond which peer ids repeat (`RelayPeerIds.IdsTellApartExactly`).
- RelayHub.Relay.HostReads: a frame's bytes are a value, so that several queues share one slice is not modelled. Subscribers, viewers and terminal hosts are still named by index instead of by pointer.
- RelayTheorems.QueuesAreOrdered: an overflow's close of the socket is only a read error that may come at any time, not tied to the overflow; the same for pings, timeouts and close codes.
- Lifecycle.KillSticks: handlers are atomic (`HalvesKills` takes them apart) and tombstones live in memory, so the claim covers one dashboard lifetime.
- Lifecycle.LimitHolds: records written by local wrappers are not counted, because creating a session checks the limit before its record exists.
- Lifecycle.RoomsKeepTheirId: the truncated SHA-256 is taken as injective and random ids as fresh.
- Access.Principals: trimming and lower-casing are ASCII only; no Unicode spaces or case mapping.
- Access.InvitationLasts: making the invited person owner and then making somebody else owner is a harmful operation unless they are also a member.
- SgrRows.SplitLine: keeps the rest of the line instead of the index `pos`; strings.Split, strings.TrimRight and the regular expression are functions of the model, not library calls.
- ControlMode.Client.ReadLoop: the scanner, strings.Index and strings.IndexByte are functions of the model; the writer of the resume command is a counter.
- Termwire.Stream.ReadFull: network failures other than the end of the stream are not modelled, nor is Close.
- Spool.Store.Save: files that cannot be written, read or parsed are not modelled; the store is a map.
- HostSocket.Reconnect: the end of the parent context, which may end the loop at any wait, is the end of the list of outcomes.
- Wrappers.RemoteSink.Watch: the pane hash and its `sent` flag, because the server discards the body.
- HalvesHosts.HostStaysDownExactly: a kill's lookup and removal of the host are one step, and which host object is meant is left to `HostRegistry`; a wrapper that hangs up is an event of its own.
- Halves.HalvesMakeAWhole: a listing and its prunings are one step, except that a pruning under way may remove any record later; adding and removing members and creating a session stay whole.
- Request decoding, name and model validation are inputs (`decodes`, `valid`); a create request's own pruning is a `Visit` before it.
- `broadcast` in internal/dashboard/termhost.go sends outside the lock; no claim is made about it.
- A limiter that is nil, `clientIP`, and the HTTP status texts.
- Persistence of the access file, OIDC, API keys, HMAC, JSON, templates and static files.
- tmux commands, pty resizing and input to terminals; of the signal and the tmux kill of a local session only that they are made.
- `p2p/src/main.rs` and the Nix patch: they rest on libraries that are not part of this model.
- Easy members such as argv builders, link formatting, `Label`, `Users` and `Lookup`.

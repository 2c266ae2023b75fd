# Verification of the codesight core

This project models the parts of codesight whose behaviour is hardest to see by
reading, and proves properties of the model with Dafny 4.11. `dafny verify
dfyconfig.toml` checks all of it.

What is modelled, by component:

* **The daemon multiplexer** (`Mux`, `MuxRouting`, `MuxStreams`, `MuxHandshake`,
  `MuxOrderly`, `MuxForwarding`, `MuxConnections`, `Daemon`). One language server
  serves clients that come and go.
  The daemon is a transition system with one step per lock section, atomic store
  or write; the server, the clients and the outcome of every write are free. The
  theorems are about all runs: routed responses reach only the client that asked
  and no request is answered twice; each client's stream is the one it would get
  alone; the server is told what the clients said, all of it and in order; what the
  initialize cache and the phase do. The class `DaemonRuntime` is
  the object itself, each method tied to steps of the transition system.
* **The JSON-RPC client** (`RpcClient`, `RpcCalls`, `JsonRpc`, `Framing`). Calls,
  timeouts and the reader loop interleave freely, one step per lock section, channel
  operation or select; every call ends for a cause of its own; framing is read back
  exactly.
* **The caller traversal** (`Callers`, `CallerTree`, `CallerDepth`, `CallerServer`): a
  depth-bounded depth-first walk with reservation, its soundness and its completeness
  as graph theorems and against the server's raw answers, and exactly when a bounded
  walk misses nothing.
* **The daemon lifecycle** (`EnvOverrides`, `Lifecycle`, `LifecycleEnsure`,
  `LifecycleRuns`): state files by key while pids are used again, over whole
  histories of operations.
* **The index pipeline** (`Ignore`, `IgnorePaths`, `Walker`, `Version`, `Indexer`,
  `IndexerOutcomes`): ignore rules and their fingerprint, the pruned walk, staleness,
  crash consistency.
* **Embedding and splitting** (`Embedding`, `EmbeddingRounds`, `Splitter`,
  `SplitterChunks`) and **reference grouping** (`References`).
* `Text`, `Order`, `Sequences` and `Wrappers` hold the string functions of Go's
  standard library that the sources call, sorting, and helpers.

What the outside world answers is a parameter of each operation: the outcome of
every write, the operating system's process table at each check, the clock, the
embedding server, the language server's replies, the syntax tree, the file tree.

## Where the code does less than its comments or tests suggest

Each of these is kept as the code has it, with a run or an input that shows it and
the condition under which the wanted property holds.

* `initPhase` can fall from 2 to 1: a handler may store 2 while the read loop is
  between filling the cache and storing 1 (`PhaseCanFall`). It never falls in a
  run exactly when that does not happen (`PhaseNeverFallsIff`), and not in an
  orderly run (`ExactlyOneInitialize`).
* `initialized` can reach the server twice, even when every client keeps the
  order of LSP (`InitializedTwice`), and so can `initialize` when a second client
  asks before the first answer (`InitializeTwice`). How often each message is
  forwarded is counted exactly, and at most once exactly when at most one was taken
  up (`ForwardedConserved`, `ForwardedOnceIff`).
* `handleClient` looks at the method before it looks for an id, so a request named
  `initialized` is forwarded under the id its client gave it, which another request
  can have too (`InitializedKeepsItsID`). Every other request gets a daemon id of its
  own, and everything else goes as it came (`ToldAsSaid`).
* An `initialized` that is stored before a response was cached wedges the daemon:
  the phase says that replies come from the cache, the cache stays empty, and
  every later client is disconnected, for good (`WedgedIff`, `WedgeIsForever`).
* callers.go:402 says that the shallowest occurrence of a caller wins. Only within
  one level: a deep branch that is walked first claims callers that a later
  sibling calls directly, and with a depth bound the callers below those are lost
  (`DeepBranchOnAServer` and `BoundedWalkOnAServer`, for servers that show such
  calls). For every bound, a walk lists all that reach the root within the bound,
  and each at no more than its distance, exactly when no listed caller of a line
  was claimed more than one level further down (`NothingMissedIff`). A call graph
  in which all ways from a caller to the root are equally long has no such claims,
  at any bound (`RankedMissesNothing`).
* The printed key that removes duplicate references is not injective when a path
  contains a colon (`ColonInPathLosesALine`); what is lost is characterised for
  every input (`KeyCollisions`, `GroupingIsLossless`).
* The identity of a caller is printed in the same way, so two functions at different
  places can share one when a path contains a colon (`ColonInPathConfuses`); without
  colons an identity tells them apart (`IdentityTellsIff`).
* A state file without a start id is taken over by `refreshProcessStartID` from
  whatever process has the pid now, and a later stop signals that process
  (`AdoptedStrangerIsSignalled`, for every such file). No history signals a process
  that is not the lifecycle's own exactly when every file without a start id is of
  a pid that is never signalled (`OnlyOwnProcesses`). The check before a signal
  does not bind the signal: over a history, every stop signal hits the process on
  record exactly when no pid that is signalled changes hands in between
  (`EverySignalHitsIff`, `SignalCanStray`).
* `DropCollection` drops the data first and the metadata second (milvus.go:137-144).
  It ignores a failed drop of the metadata, and returns before it when dropping the
  data reports an error after taking effect. In both cases an emptied collection
  can later pass for an up-to-date index (`KeptMetadataAcceptsEmptyIndex`,
  `LostDataAcceptsEmptyIndex`), and so can one filled with the documents of another
  commit, as many as before or not (`RefusedMetadataAcceptsOtherDocuments`). Exactly
  which runs break crash consistency is `RunKeepsConsistentIff` and, over all runs,
  `AlwaysConsistentIff`.
* A glob that matches a directory but not the files in it makes the pruned walk
  drop files that a filter would keep (`GlobPruningIsNotFiltering`). Pruning is
  filtering on every tree exactly when whatever lies below an ignored path is
  ignored (`PruningIsFilteringIff`).
* The fingerprint's separator can occur in a pattern: two pattern lists with a NUL
  in them can share a pre-image (`NulInPatternCollides`); they do exactly when the
  NUL-separated fields of their patterns, in order, agree (`SamePreImageIff`).
* `normalizeEnvOverrides` keeps an entry with a space before its `=` with its name
  twice: `FOO =bar` becomes `FOO=FOO =bar` (`SpacedNameIsDoubled`). An entry is kept
  as it stands exactly when its name stands right before the `=` (`KeptAsGivenIff`,
  `SpacedEntryIsDoubled`). This does not break idempotence.
* A Content-Length beyond what a slice can hold makes `make` panic instead of
  returning an error (`OversizedLengthPanics`). On a header block the reader panics
  exactly when no line is bad and the last Content-Length is that large
  (`PanicsIff`).
* Nothing compares the number of vectors with the number of texts (ollama.go:190-198).
  A request that is answered with too few vectors can make `EmbedBatch` panic
  (`MissingVectorPanics`), and one that is answered with too many gives later texts
  the vectors of others (`ExtraVectorShifts`). With vectors of one dimension, putting
  the texts together panics exactly when a span is out of range
  (`ReassemblePanicsIff`), every text gets the mean over its span exactly when there
  are vectors for all pieces (`SpansGiveMeansIff`), and these are the vectors of its
  own pieces exactly when the requests were answered in step (`AlignedIff`).

## Model

| member | source | states |
|---|---|---|
| MuxRouting.AnswersReachTheirClient | pkg/lsp/daemon_unix.go:598-664 | in every run, whatever the server does: each routed response in a client's inbox answers a request this client sent, with the id the client gave it, no method, and the body of a response of the server; no request of a client is answered twice |
| MuxRouting.PendingKeysAreFresh | pkg/lsp/daemon_unix.go:598-611 | in every run pending ids are at most `nextReqID`, the next id is fresh, below 2,000,000,000 requests none is the shutdown request's id, and no entry names a client that has left |
| MuxRouting.PendingIsInjective | pkg/lsp/daemon_unix.go:39-44 | each pending entry is the one request of the one client its id was given to; two entries are two requests |
| MuxRouting.StepKeepsRouting | pkg/lsp/daemon_unix.go:598-757 | every step keeps the routing invariant: ids numbered from one and each given to another request, pending and answered ids apart, inboxes holding only a client's own answers |
| MuxRouting.StepDelivers | pkg/lsp/daemon_unix.go:695-703 | a step adds to a client's stream exactly the message written to it, and nothing when the write fails or the connection is closed |
| MuxStreams.EachClientServedAlone | pkg/lsp/daemon_unix.go:394-406 | as long as no write to a client failed and it has not left, its stream without cached replies, with what is in flight, is exactly the stream of a machine that sees only this client's steps and the server's messages; otherwise a first part of it |
| MuxStreams.OthersDoNotShow | pkg/lsp/daemon_unix.go:643-693 | in two runs that differ only in other clients' handler steps, a connected client is sent the same stream |
| MuxStreams.ForwardAdds | pkg/lsp/daemon_unix.go:617-693 | a server message adds to a client's stream exactly what the read loop then has to write to it: the response to its own live request, the request routed to it, or a broadcast while it is connected |
| MuxStreams.StepKeepsLive | pkg/lsp/daemon_unix.go:649-654 | the live requests of the client's own machine are the entries of the shared pending table that name the client, after every step |
| MuxStreams.StepKeepsStream | pkg/lsp/daemon_unix.go:643-703 | every step keeps the stream of a client equal to that of its own machine |
| MuxHandshake.CachedOnce | pkg/lsp/daemon_unix.go:554-561 | the cached initialize response is written at most once: in no continuation of a run does it change again |
| MuxHandshake.PhaseNeverFallsIff | pkg/lsp/daemon_unix.go:372 | the phase never falls in a run exactly when no handler stores phase 2 while the read loop is between filling the cache and storing phase 1 |
| MuxHandshake.PhaseCanFall | pkg/lsp/daemon_unix.go:561 | a run in which it does fall, from 2 to 1 |
| MuxHandshake.WedgedIff | pkg/lsp/daemon_unix.go:363-373 | there is a phase above zero without a cached response exactly when an `initialized` was stored before a response was cached |
| MuxHandshake.WedgeIsForever | pkg/lsp/daemon_unix.go:341-348 | from then on, in every continuation, the cache stays empty, every initialize is sent to the cache, and its client is made to leave without an answer |
| MuxHandshake.WedgeHappens | pkg/lsp/daemon_unix.go:363-373 | one client that sends `initialized` first is enough |
| MuxHandshake.CachedRepliesCarryOwnID | pkg/lsp/daemon_unix.go:564-593 | in every run, whatever a client is sent from the cache has the body of the one cached response and the id of an initialize request that this client sent |
| MuxHandshake.ForwardedConserved | pkg/lsp/daemon_unix.go:325-391 | for every method but the daemon's own: the messages read under a phase that sends them to the server (initialize under 0, `initialized` below 2, others always) are the ones forwarded, plus those in a handler's hands, plus those lost in failed writes |
| MuxHandshake.ForwardedOnceIff | pkg/lsp/daemon_unix.go:350-372 | without failed writes, a message of a method is forwarded or about to be at most once exactly when at most one was taken up: an initialize under phase 0, an `initialized` below phase 2 |
| MuxHandshake.InitializeTwice | pkg/lsp/daemon_unix.go:350-362 | a run in which two clients ask before the first answer and the server is told initialize twice |
| MuxOrderly.ExactlyOneInitialize | pkg/lsp/daemon_unix.go:350-362 | in a run where clients keep LSP order, the server echoes ids and no second initialize overlaps the first: the server sees at most one initialize, exactly one once the phase has left 0, the phase never fell and the daemon is not wedged |
| MuxOrderly.AnswerIsCached | pkg/lsp/daemon_unix.go:528-562 | in such a run, once the read loop is past the answer to initialize it is cached, whether or not the client that asked is still there |
| MuxOrderly.LaterClientsAreGreeted | pkg/lsp/daemon_unix.go:564-593 | in such a run no later initialize is turned away for want of a response: a client whose connection holds gets the cached one under its own id |
| MuxOrderly.InitializedTwice | pkg/lsp/daemon_unix.go:363-373 | such a run in which two greeted clients race and the server is told `initialized` twice |
| MuxOrderly.StepKeepsOnce | pkg/lsp/daemon_unix.go:350-362 | every orderly step keeps: one initialize in hand at most, its id stored before it is sent, nothing cached before it is sent |
| MuxOrderly.StepKeepsServed | pkg/lsp/daemon_unix.go:528-593 | every orderly step keeps: nobody is greeted and no `initialized` taken up before the answer is cached |
| MuxForwarding.ToldAsSaid | pkg/lsp/daemon_unix.go:350-391 | in every run each message the server is told comes from one message of one client, with the same method and body, and with its id unless it is a request, which has the daemon id issued for exactly that message (one named `initialized` keeps its own); or is a rejection under the id of one request of the server; or the one shutdown; what one side says is told in its order and no message twice |
| MuxForwarding.AllIsTold | pkg/lsp/daemon_unix.go:325-391 | and every message of a client that was read under a phase that sends it to the server has been told, in order, but for at most the last, which is in hand or was lost in a failed write, after which the handler reads no more |
| MuxForwarding.HeardAsSaid | pkg/lsp/daemon_unix.go:617-703 | in every run, whatever a client is told but for replies from the cache is one message of the server, requests and notifications as they came and responses with their body, in its order and none twice |
| MuxForwarding.InitializedKeepsItsID | pkg/lsp/daemon_unix.go:363-373 | a run in which a request named `initialized` and a later one reach the server under one id |
| MuxConnections.LeavesForACause | pkg/lsp/daemon_unix.go:325-391 | in every run a handler has left exactly when its client hung up, a write to the server failed, or an initialize could not be answered from the cache |
| MuxConnections.ListedUntilUnlisted | pkg/lsp/daemon_unix.go:728-745 | a client is listed exactly from when it is accepted until its handler takes it off |
| MuxConnections.ClosedForACause | pkg/lsp/daemon_unix.go:695-747 | a connection is closed only at the end of its handler or by a failed write to it |
| Daemon.DaemonRuntime.AddClient | pkg/lsp/daemon_unix.go:728-740 | connects a client under a new id: one accept step |
| Daemon.DaemonRuntime.RemoveClient | pkg/lsp/daemon_unix.go:742-757 | unlists the client, then closes its connection, then removes from the pending table exactly its entries: the three last steps of a handler, between which others may act |
| Daemon.DaemonRuntime.PurgePending | pkg/lsp/daemon_unix.go:750-755 | the loop over the pending table leaves exactly the entries of other clients |
| Daemon.DaemonRuntime.RemapRequest | pkg/lsp/daemon_unix.go:598-611 | gives a request the next daemon id, records who asked under which id, and returns the request under the new id |
| Daemon.DaemonRuntime.TakeRequest | pkg/lsp/daemon_unix.go:350-378 | returns the request under the next daemon id with its method and body, and, for an initialize, stores that id for the cache before anything is written |
| Daemon.DaemonRuntime.SendMessage | pkg/lsp/daemon_unix.go:363-390 | tells the server exactly this message, or nothing when the write fails, which makes the handler leave; stores phase 2 after an `initialized` that was written |
| Daemon.DaemonRuntime.ReplyInitializeFromCache | pkg/lsp/daemon_unix.go:564-593 | answers initialize from the cache under the client's id; without an id, a response or a working connection the handler leaves |
| Daemon.DaemonRuntime.HandleMessage | pkg/lsp/daemon_unix.go:325-392 | one iteration of handleClient is a run of the transition system by this handler alone; the server is told the message, a request under the next daemon id, exactly when the phase sends it there and the write succeeds, and the handler stays or has left as the write went |
| Daemon.DaemonRuntime.CacheInitializeResponse | pkg/lsp/daemon_unix.go:528-562 | fills the cache and stores phase 1 only for the tracked id under phase 0, as steps of the read loop |
| Daemon.DaemonRuntime.RouteResponse | pkg/lsp/daemon_unix.go:643-664 | takes the pending entry a response names and turns the id back; responses nobody waits for are dropped |
| Daemon.DaemonRuntime.ForwardToClient | pkg/lsp/daemon_unix.go:617-641 | a response goes by the pending table, a request to one connected client or is rejected, anything else to everybody |
| Daemon.DaemonRuntime.WriteToClients | pkg/lsp/daemon_unix.go:682-703 | the writes to a snapshot of clients reach exactly those that are open and whose write succeeds, and close the others |
| Daemon.DaemonRuntime.ServerReadOnce | pkg/lsp/daemon_unix.go:394-406 | one iteration of serverReadLoop is a run of the transition system that begins with this message, forwards it and ends idle |
| Daemon.WriteAllIsARun | pkg/lsp/daemon_unix.go:690-692 | writing a delivery to all its targets in any order is a run of single writes |
| RpcClient.ChannelDiscipline | pkg/lsp/client.go:343-373 | under every interleaving each response channel is sent on at most once and closed at most once; a send finds its channel open and empty, a close finds it open |
| RpcClient.BlockedIsUnanswered | pkg/lsp/client.go:241-273 | a call is blocked exactly when it waits on an open, empty channel and done is open; and then it is still pending or the reader holds its channel |
| RpcClient.FailureEndsEveryCall | pkg/lsp/client.go:362-373 | after a transport failure the calls already made and the reader can take only so many steps, and when none is left every call has returned and done is closed, also for one registered between the swap of the map and the close |
| RpcClient.StepLowersRank | pkg/lsp/client.go:323-373 | after a failure every step but a new call brings all calls and the reader nearer their end |
| RpcClient.StepKeepsInvariant | pkg/lsp/client.go:216-373 | every step keeps the invariant over calls, pending map, channels and reader |
| RpcClient.ReaderHolds | pkg/lsp/client.go:356-359 | what the reader is about to send on is fresh and what it is about to close is open |
| RpcClient.Client.StartCall | pkg/lsp/client.go:233-234 | a fresh id and a fresh channel |
| RpcClient.Client.RegisterPending | pkg/lsp/client.go:323-335 | registers the channel unless done is closed (the transport error) or the id is taken |
| RpcClient.Client.RemovePendingID | pkg/lsp/client.go:337-341 | forgets the call and nothing else |
| RpcClient.Client.RouteResponse | pkg/lsp/client.go:343-360 | takes the pending call a response answers, puts the response on its channel and closes it; other responses change nothing |
| RpcClient.Client.SetReadErr | pkg/lsp/client.go:375-385 | keeps the first error |
| RpcClient.Client.FailPending | pkg/lsp/client.go:362-373 | records the error, empties the pending map and closes the channel of every call that was pending, once each, and no other |
| RpcClient.Client.ReadLoop | pkg/lsp/client.go:427-469 | the reader loop is a run of the transition system; it closes done exactly when some message fails, and then nothing is pending and there is an error to report; the responses it reads are those before that message, in order |
| RpcClient.RoutedIsARun | pkg/lsp/client.go:343-360 | routeResponse without interference is the run of its single steps |
| RpcClient.FailedIsARun | pkg/lsp/client.go:362-373 | failPending without interference is the run of its single steps |
| RpcCalls.EndsForACause | pkg/lsp/client.go:241-273 | in every run, and exactly: a call has timed out when Timeout happened to it, failed to be sent when its write failed, seen the transport fail when it saw done or received from a channel closed with nothing sent on it, taken an answer when it received from a channel with one, and been turned away when it came after done was closed; and it waits exactly when it was written and none of these has happened |
| RpcCalls.AnswerIsTaken | pkg/lsp/client.go:241-273 | a call that was written and has not ended, and for which an answer was read: the answer is next to be sent on its channel or was sent, and then the call can receive it and returns exactly the first one read |
| RpcCalls.ReturnsItsOwnAnswer | pkg/lsp/client.go:241-273 | what a call returns, each with what has to have happened to it: a result is the first answer to its own id read after it was registered, received from its channel; a transport error is the one that ended the reader; a timeout and a failed write are its own; a duplicate id never occurs |
| Framing.FrameWriter.WriteLSPMessage | pkg/lsp/client.go:498-510 | the whole frame goes out behind what is there, or, when the connection fails, the part of it that was taken, and the write reports an error |
| Framing.FrameReader.ReadLSPMessage | pkg/lsp/client.go:512-555 | reads one message as the header block says, with every error of the source and the panic of make for a length no slice can have |
| Framing.ReadOfFrames | pkg/lsp/client.go:498-555 | any number of written frames followed by anything is read back as exactly the payloads, and the rest is left, whatever the payloads contain |
| Framing.ReadOfFrame | pkg/lsp/client.go:512-555 | one frame is read back exactly, whatever follows |
| Framing.FramesInjective | pkg/lsp/client.go:498-510 | no two message sequences are written as the same bytes |
| Framing.TruncatedFrameIsAnError | pkg/lsp/client.go:551-553 | a frame cut short anywhere, as a failed write leaves it, reads as the end of the input, never as a message |
| Framing.UnknownHeaderSkipped | pkg/lsp/client.go:530-534 | a header other than Content-Length is skipped |
| Framing.BlockIsRead | pkg/lsp/client.go:512-555 | on any header lines closed by an empty line: a bad line is an error, the last Content-Length wins, none is an error, and the message is that many bytes of what follows, or the end of the input if there are not so many |
| Framing.PanicsIff | pkg/lsp/client.go:512-550 | on any header lines closed by an empty line, whatever follows, the reader panics exactly when no line is bad and the last Content-Length is more than make allocates |
| Framing.OversizedLengthPanics | pkg/lsp/client.go:550 | a header with such a length, which is in range for Atoi, makes the reader panic whatever follows |
| Callers.IncomingNodes | pkg/lsp/callers.go:445-482 | fails exactly on a URI that cannot be read; else every caller reported and not ignored is in the list, as the first item there is for its identity, once, and the list is ordered by path, line, character and name |
| Callers.IncomingNodesExactly | pkg/lsp/callers.go:445-482 | the same of the specification that the walk is built on, in terms of the calls and their nodes alone |
| Callers.FirstPerIdentityNodes | pkg/lsp/callers.go:453-466 | the nodes kept have distinct, non-empty identities |
| Callers.ServerGraphWellFormed | pkg/lsp/callers.go:445-482 | whatever the server answers, each level of callers has distinct identities and each node is the node of its own item |
| Callers.CallersWalk.Reserve | pkg/lsp/callers.go:393-406 | reserves exactly the nodes not seen before, all of them before any is followed |
| Callers.CallersWalk.WalkIncoming | pkg/lsp/callers.go:368-443 | the walk appends the lines of the specification, counts them, extends `seen` as it does, and restores `ancestors` |
| Callers.CallersWalk.FollowLevel | pkg/lsp/callers.go:408-442 | the nodes of a level are listed in order, each followed by its own callers; a failed request fails the walk |
| Callers.CallersWalk.FollowNode | pkg/lsp/callers.go:410-439 | one node is listed and followed unless the bound is reached |
| CallerTree.CallerTreeSound | pkg/lsp/callers.go:368-443 | lines are distinct, never the root, within the bound; each is a direct caller of the nearest earlier line one level up, or of the root; none sits deeper than one level under a line it directly calls; all reach the root |
| CallerTree.CallerTreeComplete | pkg/lsp/callers.go:368-443 | with a bound above the number of distinct reachable callers and no failed request, the identities listed are exactly those that reach the root, without the root |
| CallerTree.WalkSeesAbove | pkg/lsp/callers.go:393-442 | whatever the bound, every line above it has all its callers in `seen` on return, and so has the item walked from |
| CallerTree.WalkForest | pkg/lsp/callers.go:408-440 | depths start at the level of the call and rise by at most one per line, each line under one it calls |
| CallerTree.WalkNoDeepCallers | pkg/lsp/callers.go:402-406 | no line is deeper than one level below an earlier line on its branch that it directly calls |
| CallerTree.FindCallers | pkg/lsp/callers.go:113-135 | the walk from the root item: an error for a bound below one, a bad root URI or a failed request, else the lines of the whole walk |
| CallerDepth.NothingMissedIff | pkg/lsp/callers.go:402-442 | for every bound: whatever reaches the root in n calls, n within the bound, is listed at depth n or less, exactly when no listed caller of a line stands more than one level under it |
| CallerDepth.RankedMissesNothing | pkg/lsp/callers.go:402-442 | in a call graph where a rank grows by one with every call up from the root, no walk misses anything within its bound and every line stands at its rank |
| CallerDepth.DeepBranchClaimsFirst | pkg/lsp/callers.go:402-405 | a deep branch walked first claims at depth 3 a caller that calls a depth-1 line directly |
| CallerDepth.BoundedTreeMissesCaller | pkg/lsp/callers.go:418-420 | the same with a depth bound: a caller three calls away is not listed |
| CallerDepth.DeepBranchOnAServer | pkg/lsp/callers.go:368-443 | servers, with their workspace, on which the first of these happens, for every bound above 3 |
| CallerDepth.BoundedWalkOnAServer | pkg/lsp/callers.go:418-420 | servers on which a walk of depth 3 misses a caller three calls away |
| CallerServer.ListsExactlyTheCallers | pkg/lsp/callers.go:355-482 | when every request along the calls is answered and items of one identity have the same callers, a walk with a bound above their number succeeds and lists exactly the identities from which a chain of calls that the server reports, through files that are not ignored, leads to the root, without the root |
| CallerServer.ReachesIffCalls | pkg/lsp/callers.go:355-482 | then what reaches the root in the graph of the walk is what calls it by the raw answers |
| CallerServer.IdentityTellsIff | pkg/lsp/callers.go:525-527 | with colon-free paths two identities are equal exactly when path, line, character and name are |
| CallerServer.ColonInPathConfuses | pkg/lsp/callers.go:525-527 | with a colon in a path they can be equal for different places |
| EnvOverrides.NormalizeEnvOverrides | pkg/lsp/daemon_state.go:133-162 | trims, names, keeps the last entry of each name and sorts by name |
| EnvOverrides.NormalizedExactly | pkg/lsp/daemon_state.go:133-162 | exactly the last entry of every name is kept |
| EnvOverrides.NormalizedInOrder | pkg/lsp/daemon_state.go:151-161 | the entries ascend by name, each name once |
| EnvOverrides.NormalizedIsFixed | pkg/lsp/daemon_state.go:133-162 | normalising twice is normalising once, so what is written is what is read back |
| EnvOverrides.KeptIsFixed | pkg/lsp/daemon_state.go:140-145 | a kept entry is read back as it is under the same name |
| EnvOverrides.KeptAsGivenIff | pkg/lsp/daemon_state.go:140-145 | an entry is kept as it stands, trimmed, exactly when its name stands right before the `=` |
| EnvOverrides.SpacedEntryIsDoubled | pkg/lsp/daemon_state.go:140-145 | otherwise its name and an `=` are put in front of it |
| EnvOverrides.SpacedNameIsDoubled | pkg/lsp/daemon_state.go:140-145 | as happens to `FOO =bar` |
| EnvOverrides.SortedNamesOf | pkg/lsp/daemon_state.go:151-155 | the order of the names does not depend on the order in which the map gave them |
| EnvOverrides.MergeEnvOverrides | pkg/lsp/daemon_state.go:164-190 | the base without the overridden names, then the overrides |
| EnvOverrides.MergedExactly | pkg/lsp/daemon_state.go:164-190 | all overrides and exactly those base entries that no override names; merging again changes nothing |
| Lifecycle.NormalIsFixed | pkg/lsp/daemon_state.go:47-72 | a state that was written is read back as it was written |
| Lifecycle.NormalIsStrong | pkg/lsp/process_identity.go:10-12 | writing and reading neither gives a state an identity nor takes it away |
| Lifecycle.LifecycleManager.ReadStateFile | pkg/lsp/daemon_state.go:47-65 | the normalised state, a missing file or a corrupt one |
| Lifecycle.LifecycleManager.WriteStateFile | pkg/lsp/daemon_state.go:67-106 | the file holds the normalised state, or is unchanged when the write fails |
| Lifecycle.LifecycleManager.StopStateProcess | pkg/lsp/lifecycle.go:648-665 | signals the process group only when the recorded identity is there, alive and current, and removes the state file |
| Lifecycle.LifecycleManager.StopByKey | pkg/lsp/lifecycle.go:407-427 | nothing for a missing file, removal for a corrupt one, else a stop |
| Lifecycle.LifecycleManager.ShutdownIdle | pkg/lsp/lifecycle.go:512-546 | each listed file is read again and stopped if idle, removed if it cannot be read |
| Lifecycle.LifecycleManager.Adopt | pkg/lsp/lifecycle.go:302-309 | a state without a start id takes that of the process that has the pid now |
| Lifecycle.LifecycleManager.TryReuse | pkg/lsp/lifecycle.go:271-318 | reuse, stop, remove or give up, as environment, arguments, idleness, identity and socket decide; which of these when, without that decision, is said by the lemmas of LifecycleEnsure |
| Lifecycle.LifecycleManager.StartDaemon | pkg/lsp/lifecycle.go:320-372 | starts a daemon and records it without the jdtls data directory; a failed write ends the process again |
| Lifecycle.LifecycleManager.Ensure | pkg/lsp/lifecycle.go:235-373 | the whole operation: its lease or error and everything it changes |
| LifecycleEnsure.EnsureSignalsExactly | pkg/lsp/lifecycle.go:271-318 | an Ensure signals the pid on record exactly when the file is readable and has a start id, its environment or arguments differ or it is long unused, or its process is there and its socket does not answer; and the process is alive and has that start id at the stop, and is neither init nor the caller nor its group; it signals the process it has just started exactly when that cannot be recorded; and nothing else |
| LifecycleEnsure.EnsureLaunchesExactly | pkg/lsp/lifecycle.go:320-372 | it starts a daemon exactly when it finds none that it may use and nothing stands in the way, with the binary and arguments of the request, the data directory for jdtls and the environment asked for; the lease names the root, language, binary, arguments and new pid |
| LifecycleEnsure.ReusedLeaseIsOfRecord | pkg/lsp/lifecycle.go:286-309 | the lease of a daemon it found says what is on record of it |
| LifecycleEnsure.EnsureFailsExactly | pkg/lsp/lifecycle.go:235-373 | when it fails, with which error, and what is then on record |
| LifecycleRuns.SignalsAreSafe | pkg/lsp/lifecycle.go:648-665 | in every history, whatever the environment does: every stop signals a pid that may be signalled and whose start id at the check was the non-empty one on record, and that record came from a launch, an adoption or a file there at the start |
| LifecycleRuns.OnlyOwnProcesses | pkg/lsp/process_identity.go:14-25 | no history from these state files, whose launches come with start ids, signals a process that was neither launched by the lifecycle nor on record from the start, exactly when every file without a start id is of a pid that is never signalled |
| LifecycleRuns.NothingIsAdopted | pkg/lsp/process_identity.go:27-41 | while every state file and every launch carries a start id none is ever adopted |
| LifecycleRuns.AdoptedStrangerIsSignalled | pkg/lsp/lifecycle.go:297-309 | for every file without a start id whose pid may be signalled, and every start id, a history that adopts the process with that id and signals it, though nobody launched it |
| LifecycleRuns.EverySignalHitsIff | pkg/lsp/lifecycle.go:648-665 | over a whole history every stop signal hits the process on record exactly when none of the pids signalled changes hands between the check of its stop and the signal |
| LifecycleRuns.SignalsAreOfStops | pkg/lsp/lifecycle.go:648-665 | the stop signals of a history are, in order, those of the stops its operations make that pass the check |
| LifecycleRuns.SignalCanStray | pkg/lsp/lifecycle.go:656-657 | for every state that may be signalled, answers with which the signal hits a process that was never on record |
| LifecycleRuns.EnsureRecords | pkg/lsp/lifecycle.go:286-372 | after a successful Ensure the state file says what the lease says, with the arguments and environment asked for and the time of use |
| LifecycleRuns.ReusesIff | pkg/lsp/lifecycle.go:273-318 | Ensure returns a reused lease exactly when the state on file has the wanted arguments and environment, is within the idle timeout, its process still runs, its socket is healthy and it can be written; and then of that process |
| LifecycleRuns.ReuseIsStable | pkg/lsp/lifecycle.go:271-372 | after a successful Ensure and any history that neither stops this daemon by name or as idle nor replaces it, an Ensure for the same spec and environment returns the same lease as reused exactly when the process still runs, its socket is healthy, the state can be written and the last use is within the timeout |
| LifecycleRuns.StaysOnRecord | pkg/lsp/lifecycle.go:271-372 | over such a history the state of the key stays on record as it was, but for the time of its last use |
| LifecycleRuns.OtherKeysUntouched | pkg/lsp/lifecycle.go:587-601 | no operation changes the state file of a key it is not about |
| LifecycleRuns.ShutdownIdleExactly | pkg/lsp/lifecycle.go:512-565 | of the keys given, exactly the ones in use are left, as they were |
| Ignore.NormalizePatterns | pkg/ignore/matcher.go:147-164 | the normalised patterns, each once, in order of first occurrence |
| Ignore.NormalizedExactly | pkg/ignore/matcher.go:147-180 | exactly the patterns some line normalises to, each once, none empty |
| Ignore.FingerprintCanonical | pkg/ignore/matcher.go:182-187 | for NUL-free patterns the hashed strings are equal exactly when the pattern sets are |
| Ignore.SamePreImageIff | pkg/ignore/matcher.go:182-187 | whatever the patterns contain, the hashed strings are equal exactly when the NUL-separated fields of the sorted patterns are |
| Ignore.NulInPatternCollides | pkg/ignore/matcher.go:182-187 | with a NUL in a pattern they can collide |
| Ignore.Matches | pkg/ignore/matcher.go:189-249 | the loop over patterns and segments computes the disjunction of the pattern rules |
| IgnorePaths.MatchesIff | pkg/ignore/matcher.go:189-249 | a pattern matches a path of names exactly when it is the last name; or, without glob characters, is one of the names or with slashes spells a run of them, from the root if it starts with a slash; or as a glob matches the last name or the rest of the path from some name on, from the root if it starts with a slash |
| Ignore.SameFingerprintSameVerdict | pkg/ignore/matcher.go:182-249 | matchers with the same hashed string give the same verdict on every path |
| Ignore.PlainMatchReachesBelow | pkg/ignore/matcher.go:229-245 | a pattern without glob characters that matches a path matches everything below it |
| Ignore.IgnoredReachesBelow | pkg/ignore/matcher.go:189-249 | so ignoring is closed under descendants for such pattern lists |
| Walker.FileWalker.VisitFile | pkg/walker.go:62-76 | a file is listed if it is not ignored, has an accepted extension and is not too large |
| Walker.FileWalker.Walk | pkg/walker.go:47-77 | the walk lists exactly the files no ignored directory stands above, in order |
| Walker.WalkFiles | pkg/walker.go:42-80 | exactly the files of an accepted extension and within the size limit, if there is one, that are not ignored and have no ignored or unreadable directory above them |
| Walker.ListedIff | pkg/walker.go:47-77 | the same of the walk from any entry |
| Walker.ExtIsFromLastDot | pkg/walker.go:66 | the extension is what follows the last dot of a name, with the dot, and empty without one |
| Walker.PruningIsFilteringIff | pkg/walker.go:55-64 | skipping ignored directories returns on every tree what walking everything and filtering returns, exactly when whatever lies below an ignored path is ignored |
| Walker.PruningIsFiltering | pkg/walker.go:55-64 | for patterns without glob characters, on every tree, skipping matched directories returns exactly what walking everything and filtering returns |
| Walker.GlobPruningIsNotFiltering | pkg/walker.go:55-64 | with a glob that matches a directory's name only, the two differ |
| Version.FreshMeansSameCommitAndRules | pkg/version.go:28-49 | barring a hash collision, an index is accepted exactly when it was built at the same known commit under the same set of patterns |
| Version.FreshMeansSameVerdicts | pkg/version.go:28-49 | and then it ignored exactly the paths that are ignored now |
| Indexer.Indexer.InsertAll | pkg/indexer.go:129-179 | the batches are embedded and inserted in order up to the first failure |
| Indexer.Indexer.Index | pkg/indexer.go:37-202 | one run: the shortcut, the drop and recreate, the batches, and the metadata last |
| Indexer.InsertFromExact | pkg/indexer.go:130-179 | a loop that inserts every batch has inserted every chunk once, in order |
| Indexer.DocumentsAreOf | pkg/vectorstore/milvus.go:171-182 | what is stored of a chunk has its file, lines, language and node type, and its content up to 65535 bytes |
| Indexer.DocumentIdTellsIff | pkg/vectorstore/milvus.go:323-327 | two documents have one id string exactly when they are of the same lines of the same file |
| IndexerOutcomes.OutcomeExactly | pkg/indexer.go:37-202 | a run leaves everything alone exactly when there is an index of the same commit and rules; else it succeeds exactly when nothing it does fails, and has then stored every chunk in order under metadata that names branch, commit, rules and counts |
| IndexerOutcomes.StopsWithFirstChunks | pkg/indexer.go:130-179 | wherever a run stops after it has made its collection, what is stored is of its first chunks, in order |
| Indexer.IndexIsCrashConsistent | pkg/indexer.go:83-192 | over any runs, wherever each stops, of which none empties a collection, leaves its metadata and does not write its own: a collection with metadata holds exactly the chunks of one run that inserted them all, and the metadata is that run's |
| Indexer.RunKeepsConsistentIff | pkg/vectorstore/milvus.go:137-144 | a run keeps crash consistency exactly when it does not take existing data, leave existing metadata and store none of its own, unless what it left behind is exactly the documents of some complete run with that metadata |
| Indexer.AlwaysConsistentIff | pkg/indexer.go:83-192 | over any runs, a collection with metadata is after each of them the complete index of one run, whose metadata it is, exactly when no run on the way does that |
| Indexer.ShortcutAcceptsOnlyCompleteIndexes | pkg/indexer.go:50-65 | after runs that do not break consistency, what the shortcut accepts holds a document of every chunk of one complete run at the same commit and rules, with its lines, language and content, and its chunk count is the number of documents |
| Indexer.IndexedThenUpToDate | pkg/indexer.go:50-65 | after a successful run the next one at the same commit and rules is skipped and changes nothing |
| Indexer.RunTouchesOneCollection | pkg/indexer.go:43 | a run leaves other collections alone |
| Indexer.KeptMetadataAcceptsEmptyIndex | pkg/vectorstore/milvus.go:137-144 | a drop that leaves metadata behind makes the shortcut accept an emptied collection |
| Indexer.LostDataAcceptsEmptyIndex | pkg/vectorstore/milvus.go:137-140 | so does a drop that takes the data and reports an error, after a further run that makes the collection anew and fails to embed |
| Indexer.RefusedMetadataAcceptsOtherDocuments | pkg/vectorstore/milvus.go:141-143 | a forced run whose drop leaves metadata, and whose own metadata is refused after all its documents are stored, makes the shortcut accept them for those of the earlier commit |
| Embedding.SplitTextAtLines | pkg/embedding/ollama.go:308-336 | cuts a text at the last line end that fits, or at the limit |
| Embedding.PiecesPartition | pkg/embedding/ollama.go:305-336 | the pieces concatenate to the text, are within the limit, and are not empty unless the text is |
| Embedding.CutsAtLineEnds | pkg/embedding/ollama.go:305-307 | a cut is at the last line end of its window, and inside a line only when the window has none; and only what is over the limit is cut |
| Embedding.OllamaClient.EmbedFlat | pkg/embedding/ollama.go:206-238 | the texts are sent in order in requests of bounded size, and the vectors come back in order, up to the first refusal |
| Embedding.BatchesPartition | pkg/embedding/ollama.go:215-235 | the requests concatenate to the texts, none is empty and none exceeds the limit |
| Embedding.BatchesAreFull | pkg/embedding/ollama.go:215-224 | no request is cut short: the first text of the next one would have taken it over the limit |
| Embedding.FlattenTexts | pkg/embedding/ollama.go:153-166 | the flat list of all pieces and the span of each text in it |
| Embedding.FlatTextsTile | pkg/embedding/ollama.go:155-166 | the spans tile the flat list in order and each holds its text's pieces |
| Embedding.AverageVectors | pkg/embedding/ollama.go:339-355 | the component sums scaled by the number of vectors, or an index panic when a vector is longer than the first |
| Embedding.AverageIsMean | pkg/embedding/ollama.go:339-355 | for vectors of one dimension it is the component-wise mean |
| Embedding.Reassemble | pkg/embedding/ollama.go:190-198 | one vector per text, from its span: a single piece by index, more by a slice that may reach beyond the end of the list into its spare room, with the panics of both |
| Embedding.ReassembleMeans | pkg/embedding/ollama.go:190-198 | with vectors enough, every text gets the mean over its own span and nothing panics |
| Embedding.OllamaClient.EmbedOnce | pkg/embedding/ollama.go:153-198 | one round under one limit: its requests up to the first refusal; it asks for another round exactly when its last request was answered with a context overflow, fails with any other error as it came, and does not fail when that request was answered |
| Embedding.OllamaClient.EmbedBatch | pkg/embedding/ollama.go:142-202 | rounds under ever lower limits: the result, the stored limit and all requests |
| EmbeddingRounds.EmbedBatchRounds | pkg/embedding/ollama.go:150-202 | whatever the server answers: each round but the first is made because the last request of the one before came back with a context overflow, under half its limit but no less than 512; the requests of a round carry the pieces in order, as many each as fit, up to the first refusal; any other error of the last request is the result, with the limit of its round kept and nothing sent after it; an overflow is the result only when the limit cannot fall or the attempts are used up |
| EmbeddingRounds.EmbedBatchIsMeanOfPieces | pkg/embedding/ollama.go:142-238 | whatever the server answers in other rounds: if each request of the last round came back with one vector of one dimension for every input, the call succeeds, and every text has the mean of the vectors its own pieces were answered with under the last limit tried |
| Embedding.ReassemblePanicsIff | pkg/embedding/ollama.go:190-198 | with vectors of one dimension, however many, putting the texts together panics exactly when a single piece is past the end of the list or a slice past its capacity |
| Embedding.SpansGiveMeansIff | pkg/embedding/ollama.go:190-198 | every text gets the mean over its own span exactly when there are at least as many vectors as pieces |
| Embedding.AlignedIff | pkg/embedding/ollama.go:206-238 | the vectors stand where the inputs they answer stand exactly when every request but the last is answered with one vector for every input and the last with no fewer |
| Embedding.ExtraVectorShifts | pkg/embedding/ollama.go:190-198 | two texts in two requests, the first answered with a vector too many: the second text gets that one |
| Embedding.MissingVectorPanics | pkg/embedding/ollama.go:190-198 | the first answered with none: the call panics |
| Embedding.LimitsDecrease | pkg/embedding/ollama.go:176-185 | the limits tried strictly decrease, and the stored limit never falls below 512 unless it started there |
| Embedding.OverflowAttempts | pkg/embedding/ollama.go:150-201 | against a server that always overflows the attempts number min(5, k + 1) |
| Embedding.HalvingsIsLeast | pkg/embedding/ollama.go:176-179 | k is the least number of halvings that brings the limit to 512 or below |
| Splitter.FallbackSplitter.constructor | pkg/splitter/fallback.go:12-23 | 80 lines when no size is given, no overlap below zero, a quarter of the size when the overlap is no smaller: whatever is asked for, the window advances |
| Splitter.FallbackSplitter.Split | pkg/splitter/fallback.go:29-67 | overlapping line windows without blank ones, up to the one that reaches the end |
| Splitter.FallbackSplitter.CollectWindows | pkg/splitter/fallback.go:35-66 | the loop that advances by the step collects exactly the windows of the specification |
| Splitter.WindowsFaithful | pkg/splitter/fallback.go:41-64 | each window's content is the lines it says it is, and no longer than the window |
| Splitter.WindowsCover | pkg/splitter/fallback.go:41-64 | every line that is not blank is in some window |
| SplitterChunks.WindowsExactly | pkg/splitter/fallback.go:35-66 | a chunk is a window exactly when it starts some number of steps down, no window before it reaches the end, it takes in as many lines as fit and not all of them are blank |
| SplitterChunks.WindowsInOrder | pkg/splitter/fallback.go:35-66 | the windows come in the order of their lines |
| Splitter.WalkNode | pkg/splitter/treesitter.go:114-137 | appends the chunks of exactly the topmost matched nodes, in source order |
| SplitterChunks.TopmostIff | pkg/splitter/treesitter.go:114-137 | the nodes that make chunks are exactly the matched ones with only unmatched ones above them |
| SplitterChunks.TreeChunksExactly | pkg/splitter/treesitter.go:62-101 | the chunks of a tree are exactly those of its topmost matched nodes, whole with at most 200 lines and the given number of characters, otherwise as the windows of their own lines, renumbered |
| Splitter.TreeSitterSplitter.CutChunk | pkg/splitter/treesitter.go:86-98 | an oversized chunk is cut by line windows and renumbered; the parts lie in it, are faithful to the file and cover its non-blank lines |
| Splitter.TreeSitterSplitter.Split | pkg/splitter/treesitter.go:56-102 | every chunk is faithful to the file, within its node and no longer than 200 lines, every non-blank line of a matched node is in a chunk, and the chunks are those of the topmost matched nodes with the oversized ones cut |
| Splitter.TreeSitterSplitter.FallbackSplit | pkg/splitter/treesitter.go:57-60 | for a language without a grammar, line windows that cover the file |
| Splitter.ShiftedWindowsReplace | pkg/splitter/treesitter.go:89-95 | windows over a chunk's own text, renumbered, are faithful to the file and cover the chunk |
| References.DedupeAndSortReferences | pkg/lsp/formatter.go:78-106 | the sorted lines, the first of each printed key |
| References.DedupedKeepsLeastPerKey | pkg/lsp/formatter.go:94-105 | exactly the least of all given lines with one key is kept |
| References.KeyCollisions | pkg/lsp/formatter.go:97 | two different lines share a printed key exactly when one shadows the other |
| References.CompactReferences | pkg/lsp/formatter.go:117-139 | groups of consecutive paths that flatten to the listed lines, paths strictly increasing and the lines of each group ascending, and the total their number |
| References.GroupsAscend | pkg/lsp/formatter.go:84-92 | within a group lines ascend by number, and by snippet within one line |
| References.ListedExactly | pkg/lsp/formatter.go:117-139 | a line is listed exactly when it was given, is no import and is shadowed by no other given line |
| References.GroupingIsLossless | pkg/lsp/formatter.go:117-139 | no line that is not an import is lost exactly when none is shadowed |
| References.ColonFreeGroupingIsLossless | pkg/lsp/formatter.go:117-139 | with colon-free paths exactly the distinct lines that are not imports are listed |
| References.ColonInPathLosesALine | pkg/lsp/formatter.go:97-99 | a colon in a path can make a line disappear |
| References.GroupingUnique | pkg/lsp/formatter.go:122-136 | there is only one such grouping |
| References.OutputDependsOnlyOnTheLinesGiven | pkg/lsp/formatter.go:78-139 | order and repetition of the input do not matter |
| References.FlattenSize | pkg/lsp/formatter.go:126 | the total is the sum of the group sizes |

## Left out

* JSON text: a message is an id, a method and a body that nobody looks into. The
  cached initialize response is taken to decode as a response, so re-encoding it
  changes only its id.
* Wrap-around of the 64-bit request counters.
* Which client is asked when the server sends a request: any connected one.
* The daemon's accept loop, idle timeout and process start; the shutdown request
  is one step, and the wait for its answer, the exit notification and the kill
  after a failed write to the server are not modelled.
* Sockets, pipes, HTTP, Milvus, TOML, tree-sitter, `/proc` and signals themselves;
  their outcomes are parameters. Syntax nodes are taken to lie inside the file, so
  the clamping in `extractLines` is not needed.
* SHA-256 and `path.Match` are uninterpreted, and a document's id is the string that is hashed; fingerprint results are about the
  string that is hashed, and assume no collision where they say so.
* Unicode: strings are sequences of characters that stand for bytes where the
  source counts bytes, and lower-casing is ASCII only. In message headers white
  space is that of the bytes.
* Rounding of 32-bit floats in `averageVectors`: vectors are real numbers.
* The per-key locks of the lifecycle: operations on one key follow each other, and
  other processes act through the answers each operation gets.
* State keys that are not plain file names, and the log and Gradle baseline files
  beside a state file; `Status` and `Cleanup`, which only read or only remove.
* Symbol lookup, candidate filtering and output formatting around the caller tree.
* Document synchronisation, diagnostics timing, configuration layers and command
  line handling.
* Concurrent index runs over one collection.
- RpcClient.FailureEndsEveryCall: bounds the steps after a failure and says that when none is left every call has returned; that steps which can be taken are taken is the scheduler's part and not modelled.
- Mux.Apply: the allocation of a daemon id and its entry in the pending table are one step, because no other part of the daemon can tell them apart.
- MuxOrderly.ExactlyOneInitialize: assumes the order and the ids that LSP and JSON-RPC ask for, that the first handshake is not overlapped by a second initialize, and fewer than 2,000,000,000 requests.
- Indexer.IndexIsCrashConsistent: assumes that no run empties a collection, leaves its metadata and writes none of its own; exactly which runs break consistency is RunKeepsConsistentIff.
- LifecycleRuns.ReuseIsStable: a history may reuse the daemon by Ensure only when its state carries a start id, because one without a start id gets another state by being reused.
- Framing.FrameReader.ReadLSPMessage: a length that a slice could have but the machine has no memory for ends the process; the model goes on to read.

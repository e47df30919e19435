# Verified models of jwm's stateful cores

This project models, in Dafny 4.11, the parts of jwm that keep state, count,
fingerprint or gate, and proves what they promise for every input, run or
schedule. `dafny verify dfyconfig.toml` checks all of it.

- **Two window-manager stores** (`WmViews`, `OldWm`, `NewWm`, `WmRefinement`,
  `WmLockstep`, `WmTable`). `OldWm.OldWM` is the linked-list store as a heap of nodes;
  `NewWm.NewWM` is the slot-map store with its order vector, key lists and
  reverse indexes. A store is seen as a `View`: monitors in walk order, each with
  its clients in walk order. The slot-map store read backwards is the linked-list
  store, and on every run without the two calls that tell the stores apart by
  design both give the same answers: those of a plain dictionary from window ids to
  clients.
- **The scrolling strip** (`ScrollingStrip`, `ScrollingCommands`, `ScrollingPlaces`): the
  columns of the scrolling layout, with widths and focuses in parallel vectors that are
  compacted in place, the commands that move, merge, expel, drop in and resize columns,
  and where each of them leaves every column.
- **The TCP fault proxy** (`ProxyForward`, `ProxySession`, `ProxyServer`).
  `Forward` is one pump run to its end over a transport that may cut reads at
  will. The other two modules interleave pumps, session tasks, done-callbacks and
  `close()` at every await, with failures and cancellation anywhere. `eof()` is
  the half-close of section 3.6.1 of RFC 9293.
- **Acceptance evidence** (`Text`, `Fingerprint`, `Dependencies`, `Ambiguity`,
  `Evidence`, `ReleaseGate`). The directory fingerprint as a text that must be read back
  uniquely, the audit of a record, and the release gate with its waivers.
- **The file collector** (`Collector`): overlapping scans and a file list that
  share one set of files already seen.
- **GTK scroll phases** (`Scroll`), **the bounded CPU model parser** (`CpuModel`)
  and **the MIME-default merge** (`MimeDefaults`).

Where a promise is false of the code, the code is modelled as it is, a lemma
shows the failure, and the exact condition is proved:

- Adding an id that is present, and swapping a present window with itself, make
  the two stores differ; no other call does (`AgreeIffAdmissible`).
- The documentation of the fingerprint says that adding or removing code always
  invalidates evidence. Three pairs of trees show that it does not: a file whose
  name spells out the record of another one (`MarkedNameHides`), a directory
  replaced by a file that holds its listing (`FileMasquerades`), and a checkout
  below a directory named `target` (`ExcludedRootHides`). A hash stays the same iff
  the source did or a file masquerades, for all trees whose names hold no colon,
  digest and line feed in a row (`HashIffSource`). Over all names the condition is
  on the directory itself (`MistakableIff`): every directory of two files or more,
  however plain its names, shares its fingerprint with a directory of one file; a
  directory of one file shares it with another iff that file's name splits into the
  record of one file and the name of a later one; an empty one with none.
- A session closes its upstream socket unless it is cancelled while its clean-up
  waits for the pumps; a second cancellation before that is absorbed
  (`SocketsLeftOpen`, shown by `LateCancelLeavesUpstreamOpen`). The wait always
  happens when a pump raised and the other still runs. When both have ended it
  happens up to Python 3.11, whose `gather` suspends even over finished tasks
  (`LateCancelAfterInterrupt`); the field `eager` says which behaviour is meant.
- After an expulsion a column may remember a client that it no longer holds: iff it
  remembered the expelled one (`StepKeeps`, shown by `ExpelLeavesStale`), and only
  until the next compaction or synchronisation (`EveryRunSound`).
- Re-running the MIME merge is quiet only if no MIME type is claimed under two
  file names (`RerunQuietIffConsistent`, `ConsistentIffNames`).

## Model

| member | source | states |
|---|---|---|
| OldWm.OldWM.AddMonitor | benches/wm_benchmark.rs:77-85 | a monitor is prepended; every chain stays acyclic, disjoint and back-linked |
| OldWm.OldWM.FindMonitor | benches/wm_benchmark.rs:108-117 | the first monitor with the number in walk order, null iff there is none |
| OldWm.OldWM.AddClient | benches/wm_benchmark.rs:88-106 | a client is prepended to the first such monitor and nothing else changes; false iff there is none |
| OldWm.OldWM.FindClient | benches/wm_benchmark.rs:120-133 | the first client with the id in walk order, with its own monitor behind `mon` |
| OldWm.OldWM.RemoveClient | benches/wm_benchmark.rs:136-158 | exactly the first match leaves the sequence, the rest keep their order, the heap stays well shaped |
| OldWm.OldWM.UpdateClientGeometry | benches/wm_benchmark.rs:161-168 | the first match gets the geometry, nothing else changes |
| OldWm.OldWM.SwapAdjacentClients | benches/wm_benchmark.rs:171-181 | the two first matches exchange geometries; true iff both exist, also for one window twice |
| OldWm.OldWM.TraverseAllClients | benches/wm_benchmark.rs:184-197 | the sum of all client widths, over chains of any length |
| OldWm.OldWM.ChainsDisjoint | benches/wm_benchmark.rs:88-106 | no node lies on two chains or twice on one, and each points back at the monitor that lists it |
| WmViews.Find | benches/wm_benchmark.rs:120-133 | the walk stops at the first match, and finds nothing iff the id is absent |
| WmViews.AddPutsFirst | benches/wm_benchmark.rs:88-106 | a new client stands first on the first monitor with the number, unplaced, as wide as its id and normal; nothing else changes |
| WmViews.RemoveTakesFirst | benches/wm_benchmark.rs:136-158 | exactly the first match goes, the others keep their order |
| WmViews.UpdateSetsFirst | benches/wm_benchmark.rs:161-168 | the first match then has the geometry that was given; every id, state and other client stays |
| WmViews.SwapExchanges | benches/wm_benchmark.rs:171-181 | each first match then has the geometry the other one had; every id, state and other client stays |
| WmViews.TotalPush | benches/wm_benchmark.rs:184-197 | adding a client raises the total by its width |
| WmViews.TotalRemove | benches/wm_benchmark.rs:184-197 | removing a client lowers the total by its width |
| WmViews.TotalSwap | benches/wm_benchmark.rs:171-181 | a swap conserves the total, also of one position with itself |
| WmViews.TotalFitsU64 | benches/wm_benchmark.rs:184-197 | the 64-bit accumulator cannot overflow below 2^32 + 1 clients |
| NewWm.NewWM.AddMonitor | benches/wm_benchmark.rs:253-264 | the new state under a fresh key; the index invariant is kept |
| NewWm.NewWM.AddClient | benches/wm_benchmark.rs:267-285 | the new state under a fresh key; the list lookup cannot fail |
| NewWm.NewWM.FindClient | benches/wm_benchmark.rs:288-292 | the client the index names, which has that id; None iff the id is not indexed |
| NewWm.NewWM.RemoveClient | benches/wm_benchmark.rs:295-308 | client, list entry and index entry go together; true iff the id was indexed |
| NewWm.NewWM.UpdateClientGeometry | benches/wm_benchmark.rs:311-319 | the indexed client gets the geometry, nothing else changes |
| NewWm.NewWM.SwapAdjacentClients | benches/wm_benchmark.rs:323-345 | result and state of the swap; neither unwrap can fail |
| NewWm.NewWM.SwapAdjacentClientsSafe | benches/wm_benchmark.rs:348-371 | the same result and state as the other swap |
| NewWm.NewWM.TraverseAllClients | benches/wm_benchmark.rs:374-384 | the sum over the lists in order; no client lookup can fail |
| NewWm.AddMonitorKeepsInv | benches/wm_benchmark.rs:253-264 | the index invariant survives, also with a repeated monitor number |
| NewWm.AddClientKeepsInv | benches/wm_benchmark.rs:267-285 | the index invariant survives, also with a repeated id; ids stay unique if the id was absent |
| NewWm.RemoveKeepsInv | benches/wm_benchmark.rs:295-308 | the index invariant survives a removal |
| NewWm.SwapKeepsInv | benches/wm_benchmark.rs:323-371 | the index invariant survives a swap |
| NewWm.ListedOnce | benches/wm_benchmark.rs:279-280 | a live key stands at exactly one place, in the list of its own monitor |
| NewWm.SwapTwice | benches/wm_benchmark.rs:323-371 | swapping twice restores the whole state |
| NewWm.UpdateSetsIndexed | benches/wm_benchmark.rs:311-319 | the indexed client then has the geometry that was given and is otherwise as it was, like all others |
| NewWm.SwapExchangesIndexed | benches/wm_benchmark.rs:323-371 | each of the two clients then has the geometry the other one had, and all else stays |
| WmRefinement.EveryRunIndexed | benches/wm_benchmark.rs:253-384 | after any run, duplicate ids included, listed keys and index entries name exactly the live clients they should |
| WmRefinement.FindAgrees | benches/wm_benchmark.rs:120-133 | with unique ids the index leads to the position where the walk stops |
| WmRefinement.FindMonitorAgrees | benches/wm_benchmark.rs:108-117 | the number index leads to the monitor the walk finds, numbers repeated or not |
| WmRefinement.TotalsAgree | benches/wm_benchmark.rs:374-384 | both traversals give the same total |
| WmRefinement.TotalAfterAdd | benches/wm_benchmark.rs:267-285 | an addition raises the slot-map total by the window id iff the monitor exists |
| WmRefinement.TotalAfterRemove | benches/wm_benchmark.rs:295-308 | a removal lowers it by the removed client's width |
| WmRefinement.TotalAfterSwap | benches/wm_benchmark.rs:323-345 | a swap leaves it unchanged |
| WmRefinement.StepAgrees | benches/wm_benchmark.rs:71-385 | one admissible call: same answer, and the new lists are again the reverse of the old ones |
| WmRefinement.RunsAgreeFromStart | benches/wm_benchmark.rs:71-385 | every admissible run from the empty stores gets the same answers, call by call, and ends with the new lists the reverse of the old ones |
| WmRefinement.RunsAgree | benches/wm_benchmark.rs:71-385 | the same from any related states |
| WmRefinement.AgreeIffAdmissible | benches/wm_benchmark.rs:171-181 | from related states the stores agree on all admissible continuations of a call iff it neither adds a present id nor swaps a present window with itself |
| WmLockstep.BothCall | benches/wm_benchmark.rs:71-385 | the two objects, driven by the same admissible call, answer alike and stay paired |
| WmLockstep.BothRun | benches/wm_benchmark.rs:71-385 | the two objects, driven from empty through any admissible run, give the answers of the run and stay paired |
| WmTable.StepIsTable | benches/wm_benchmark.rs:253-384 | every call on the slot maps, lists and indexes is one assignment in a dictionary from ids to clients |
| WmTable.EveryRunIsTable | benches/wm_benchmark.rs:253-384 | on every run, repeated ids included, the slot-map store answers every call but a traversal like the dictionary |
| WmTable.AdmissibleRunIsTable | benches/wm_benchmark.rs:71-385 | on every admissible run both stores answer every call like the dictionary, and a traversal gives the sum of its widths |
| WmTable.TotalAfterUpdate | benches/wm_benchmark.rs:311-319 | an update changes the total by the difference of the widths |
| ScrollingStrip.ScrollingState.RememberFocus | src/core/models.rs:55-65 | the first column that holds the client is focused on it, nothing else changes |
| ScrollingStrip.ScrollingState.InsertNewClient | src/core/models.rs:130-155 | the new strip: unchanged for a present client, else appended to the focused column or as a column of its own |
| ScrollingStrip.ScrollingState.RetainNonEmptyColumns | src/core/models.rs:85-128 | the in-place compaction gives the declared strip, whatever the lengths of the vectors were |
| ScrollingStrip.RetainMoves | src/core/models.rs:85-128 | a column that is not empty keeps its clients and width, stands after exactly the non-empty columns that were before it, remembers its focus while it holds that client and else its first client, and stays focused if it was |
| ScrollingStrip.RetainRefocuses | src/core/models.rs:121-127 | when the focused column is empty or gone the first column is focused, if there is one |
| ScrollingStrip.KeptIs | src/core/models.rs:99-117 | the kept columns are exactly the non-empty ones, in their old order |
| ScrollingStrip.ScrollingState.SyncScrollingColumns | src/jwm/layout/implementations.rs:278-306 | the strip after filtering, compaction and insertion, and the clients that were added |
| ScrollingStrip.RetainSettles | src/core/models.rs:85-128 | compaction keeps every client in order, and settles any strip without repetitions |
| ScrollingStrip.RetainIdle | src/core/models.rs:85-128 | a settled strip is left exactly as it is |
| ScrollingStrip.InsertAdds | src/core/models.rs:130-155 | an insertion adds exactly the client, once, and nothing if it is there |
| ScrollingStrip.InsertKeeps | src/core/models.rs:130-155 | an insertion keeps a sound strip sound and a settled one settled |
| ScrollingStrip.RememberKeeps | src/core/models.rs:55-65 | remembering does so too, leaves columns and widths alone and focuses the column of a present client |
| ScrollingStrip.SyncHoldsVisible | src/jwm/layout/implementations.rs:278-306 | afterwards the strip is settled and holds exactly the visible clients, each once |
| ScrollingStrip.OncePlaces | src/core/models.rs:130-155 | in such a strip two places with the same client are the same place |
| ScrollingCommands.ScrollingMoveColumn | src/jwm/layout/scrolling.rs:127-150 | column, width and focus change places with the neighbour together |
| ScrollingCommands.ScrollingConsume | src/jwm/layout/scrolling.rs:269-299 | the client goes to the end of the neighbouring column, and the strip is compacted |
| ScrollingCommands.ScrollingExpel | src/jwm/layout/scrolling.rs:337-367 | a client that shares its column gets one of its own beside it, with the same width |
| ScrollingCommands.AttachScrolling | src/jwm/layout/drag_attach.rs:657-667 | a dropped client leaves its column and opens one at the given place |
| ScrollingCommands.MoveKeepsClients | src/jwm/layout/scrolling.rs:127-150 | moving a column neither loses nor doubles a client |
| ScrollingCommands.ConsumeKeepsClients | src/jwm/layout/scrolling.rs:269-299 | nor does merging |
| ScrollingCommands.ExpelKeepsClients | src/jwm/layout/scrolling.rs:337-367 | nor does expelling |
| ScrollingCommands.DropInCounts | src/jwm/layout/drag_attach.rs:657-667 | after a drop the client is there once and every other one as often as before |
| ScrollingCommands.ExpelSteps | src/jwm/layout/scrolling.rs:337-367 | an expulsion from a settled strip leaves it settled iff the column did not remember the expelled client |
| ScrollingCommands.DropInSettles | src/jwm/layout/drag_attach.rs:657-667 | a drop settles any strip without repetitions |
| ScrollingCommands.StepKeeps | src/jwm/layout/scrolling.rs:104-373 | every call of the strip or command on it keeps it sound, and keeps it settled unless a remembered client is expelled |
| ScrollingCommands.EveryRunSound | src/jwm/layout/scrolling.rs:104-373 | after any run of insert, remember, focus, compaction, synchronisation, attach mode, move, consume, expel, drop and resize the strip is sound, and the next compaction or synchronisation settles it |
| ScrollingCommands.ExpelLeavesStale | src/jwm/layout/scrolling.rs:337-367 | an expulsion after which a column remembers a client it lost |
| ScrollingPlaces.MoveExchanges | src/jwm/layout/scrolling.rs:127-150 | a move to the right exchanges the client's column, width and focus with those of the right neighbour and focuses it there, a move to the left with the left one; at the end of the strip nothing happens |
| ScrollingPlaces.ConsumeMerges | src/jwm/layout/scrolling.rs:269-299 | the named neighbour gets the client at its end, remembered and focused; its old column keeps the others in order and its width, or goes; all other columns stay; without a neighbour the client is only remembered |
| ScrollingPlaces.ExpelPlaces | src/jwm/layout/scrolling.rs:337-367 | the new column stands just right or left of the old one with its width and is focused; the old one keeps the others in order, its width and its memory; all other columns stay |
| ScrollingPlaces.DropInPlaces | src/jwm/layout/drag_attach.rs:657-667 | the dropped client's column has the given width and place, or the last one; every column with other clients keeps them in order, its width and its rank |
| ScrollingPlaces.InsertPlaces | src/core/models.rs:130-155 | in attach mode at the end of the focused column, else in a column of the default width at the end of the strip; all other columns stay |
| ScrollingPlaces.RememberSets | src/core/models.rs:55-65 | only the first column that holds the client changes: it remembers it and is focused |
| ScrollingPlaces.SetWidthSets | src/jwm/layout/scrolling.rs:159-205 | only the width of the client's column changes |
| ScrollingPlaces.StrangerMovesNothing | src/jwm/layout/scrolling.rs:104-373 | a command for a client that is nowhere in the strip moves nothing |
| ScrollingPlaces.OnlyKeepsOrder | src/jwm/layout/implementations.rs:284-287 | filtering leaves out the invisible clients and keeps the rest in order |
| ScrollingPlaces.StrangersKeepOrder | src/jwm/layout/implementations.rs:293-298 | the new clients are those not in the strip, in the order in which they are listed |
| ScrollingPlaces.SyncReads | src/jwm/layout/implementations.rs:278-306 | without attach mode a synchronised strip reads: the old visible clients in their order, then the new ones in theirs |
| ScrollingPlaces.SyncPlaces | src/jwm/layout/implementations.rs:278-306 | a column with a visible client keeps its visible clients in front, its width and its rank |
| ProxyForward.Forward | scripts/remote-fault-proxy.py:35-62 | bytes delivered, ending and pauses are functions of stream and policy, never of chunk size or read sizes; every read asks for 1 to chunk-size bytes; time asleep is chunks times latency plus bytes over bandwidth plus the pause if reached |
| ProxyForward.EndsIff | scripts/remote-fault-proxy.py:39-53 | parked exactly at a pause without duration before any cut, cut exactly at its boundary, and else the whole stream passed on; one pause, at its boundary, iff that comes before any cut |
| ProxyForward.DeliveryExtends | scripts/remote-fault-proxy.py:39-47 | a longer source only extends the delivery; a cut or parked pump ignores it |
| ProxySession.StepKeepsInv | scripts/remote-fault-proxy.py:39-62 | every await-to-await step keeps the byte boundaries and never takes back a delivered byte |
| ProxySession.RestIsPromised | scripts/remote-fault-proxy.py:35-62 | under any schedule a pump at rest has delivered, ended and paused as stream and policy say |
| ProxySession.EveryScheduleMeetsPromise | scripts/remote-fault-proxy.py:35-62 | every undisturbed schedule ends within 5n + 3 steps, with the promise met |
| ProxySession.SessionStepKeepsInv | scripts/remote-fault-proxy.py:115-155 | every step of a session keeps both directions and both sockets consistent |
| ProxySession.EverySessionSafe | scripts/remote-fault-proxy.py:115-155 | at any moment each direction delivered a prefix with at most one chunk in flight, half-closes only after its whole stream, and at rest has kept the promise of its policy |
| ProxySession.BothEofMeansAllDelivered | scripts/remote-fault-proxy.py:132-152 | a session whose pumps both reach end of stream delivered both streams in full |
| ProxySession.GatherEndsIff | scripts/remote-fault-proxy.py:145-146 | the gather of the pumps ends as soon as either of them raised or both passed on the end of their stream, and not before |
| ProxySession.EverySessionRests | scripts/remote-fault-proxy.py:115-155 | in every schedule a session that only a failure, a time-out or a cancellation could still move is finished, or both directions delivered what their policies promise, neither is cut and one is parked or starved; so it is finished whenever a policy cuts or both streams end |
| ProxySession.StoppedSessionCloses | scripts/remote-fault-proxy.py:145-155 | from a raised pump on either side, and from an interruption, the session can finish by itself with both sockets closed |
| ProxySession.SocketsLeftOpen | scripts/remote-fault-proxy.py:145-155 | a finished session leaves its upstream open iff it was cancelled in the wait of its clean-up, its client open iff so or never started; with eager gathers that needs a pump that raised |
| ProxySession.LateCancelLeavesUpstreamOpen | scripts/remote-fault-proxy.py:149-155 | it happens: a pump cuts the session, and the task is cancelled while its clean-up waits for the other one |
| ProxySession.LateCancelAfterInterrupt | scripts/remote-fault-proxy.py:145-155 | without eager gathers it happens after an interrupt too |
| ProxyServer.StepKeepsProxyInv | scripts/remote-fault-proxy.py:102-167 | what every event keeps of the session set, the tasks and their callbacks |
| ProxyServer.EveryProxyRunSafe | scripts/remote-fault-proxy.py:102-113 | the session set never exceeds the limit, with no callback pending it is exactly the unfinished tasks, and all sessions are safe |
| ProxyServer.EveryArrivalAccounted | scripts/remote-fault-proxy.py:102-113 | every accepted connection got a task of its own or was refused, but for at most one lost as close() cancels the accept task; refusal happens exactly when the session set is full |
| ProxyServer.ArrivalServed | scripts/remote-fault-proxy.py:102-113 | with room a connection becomes a new registered session with its own streams under the policies of their directions, without room it is refused; nothing else changes |
| ProxyServer.EveryTaskServesItsClient | scripts/remote-fault-proxy.py:102-148 | every task serves a connection that arrived: upstream gets a prefix of what that client sent, the client a prefix of what upstream answered, each within its policy |
| ProxyServer.EveryProxyRests | scripts/remote-fault-proxy.py:102-167 | in every run a proxy that nothing moves by itself has run all callbacks, each task is over with its client closed or waits for a reason of streams and policies, and close() has returned if it was called |
| ProxyServer.FinishedClientsClose | scripts/remote-fault-proxy.py:110-113 | a client socket is closed once its task's callbacks have run, however the task ended |
| ProxyServer.OwnCleanUpIsPartial | scripts/remote-fault-proxy.py:110-155 | a task leaves its client open iff it never took a first step or was cancelled in the wait of its clean-up, and its upstream open iff it was so cancelled |
| ProxyServer.EveryShutdownIsFinal | scripts/remote-fault-proxy.py:157-167 | after close() no session is registered, none starts and none moves; with callbacks run every client is closed |
| Text.SplitJoin | scripts/acceptance_evidence.py:53-53 | splitting undoes joining, so a path is recovered from its text |
| Fingerprint.ContentInjective | scripts/acceptance_evidence.py:53-54 | a listing of plainly named files is recovered from its text |
| Fingerprint.NewlineFreeIsPlain | scripts/acceptance_evidence.py:53-54 | every path without a line feed is plainly named |
| Fingerprint.UnambiguousIffPlain | scripts/acceptance_evidence.py:53-54 | as a text, the listing of one file has a second reading by some strings iff its path holds a colon, a digest and a line feed in a row |
| Fingerprint.SortedUnique | scripts/acceptance_evidence.py:47-52 | a set of files has one sorted listing |
| Dependencies.DependencyHashes | scripts/acceptance_evidence.py:36-55 | one entry per item: None for a missing one, the digest of a file, the digest of the listing of a directory |
| Dependencies.WatchedIsTree | scripts/acceptance_evidence.py:47-52 | exactly the files below the item are watched whose path from the file system root on has no part named target, .git or node_modules; under such a root none |
| Dependencies.PreimageIffWatched | scripts/acceptance_evidence.py:36-55 | two trees give the same text iff the watched files and their contents are the same, whatever the walk order |
| Dependencies.HashIffSource | scripts/acceptance_evidence.py:36-55 | a dependency keeps its hash iff what it stands for is unchanged or a file masquerades as the directory |
| Dependencies.MarkedNameCollides | scripts/acceptance_evidence.py:53-54 | a file whose name spells out the record of one file and the name of a later one has the directory text of those two, for every digest function |
| Dependencies.MarkedNameExists | scripts/acceptance_evidence.py:53-54 | such a name is a valid, visible path |
| Dependencies.MarkedNameHides | scripts/acceptance_evidence.py:36-55 | for every digest function, two different directories with one fingerprint |
| Dependencies.FileMasquerades | scripts/acceptance_evidence.py:44-54 | a directory and a file with one fingerprint |
| Dependencies.ExcludedRootHides | scripts/acceptance_evidence.py:49-51 | under a root named target any two texts of a file give one fingerprint |
| Ambiguity.MistakableIff | scripts/acceptance_evidence.py:36-55 | another directory with other file names has the same text iff the directory has two files or more, or one whose name splits into a record and the name of a later file not below the first |
| Ambiguity.MistakableSharesHash | scripts/acceptance_evidence.py:36-55 | such directories have the same fingerprint though their files differ |
| Ambiguity.MergedTree | scripts/acceptance_evidence.py:36-55 | builds the one-file directory that shares the fingerprint of a larger one |
| Ambiguity.ReadsAsOne | scripts/acceptance_evidence.py:53-54 | any listing reads as the record of one listable file |
| Evidence.Audit | scripts/acceptance_evidence.py:78-121 | the findings in order and exactly the justified ones, with the case and status of the record, which is current iff it is unchanged in every respect |
| Evidence.FindingsAreJustified | scripts/acceptance_evidence.py:78-121 | exactly the justified findings are listed, and none iff the record is current |
| Evidence.NothingJustifiedIffCurrent | scripts/acceptance_evidence.py:78-121 | no finding is justified iff format, fingerprints, artifacts, status, level and evidence are all in order |
| Evidence.CurrentIff | scripts/acceptance_evidence.py:78-121 | current iff format 2, a known status and level, some fingerprints, each recorded, among the dependencies and still the same, each artifact present with its digest, and for a pass raw evidence and executables |
| Evidence.ChangedArtifactIsFound | scripts/acceptance_evidence.py:100-107 | an executable, log or configuration that is gone or has another digest makes the record stale and is reported by its path |
| Evidence.ChangedSourceIsFound | scripts/acceptance_evidence.py:88-99 | so does a dependency that is missing, unlisted or has another fingerprint |
| Evidence.StaysCurrentIff | scripts/acceptance_evidence.py:78-121 | a current record stays current in a changed world iff every artifact still has the same text and every source is unchanged |
| ReleaseGate.ReleaseGate | scripts/acceptance_evidence.py:124-205 | the loops compute the declarative verdict and the report of every record |
| ReleaseGate.ReleaseReadyIff | scripts/acceptance_evidence.py:143-195 | ready iff two vendors, five lifecycle cases and a finished soak are covered by qualified records and none is failed or stale |
| ReleaseGate.CandidateReadyIff | scripts/acceptance_evidence.py:182-196 | the same, with only the vendor and the soak gate waivable, and only for a stated reason |
| ReleaseGate.QualifiedIff | scripts/acceptance_evidence.py:126-141 | a record counts iff it is current, passing and physical, made by intel, amd or nvidia hardware with outputs and a driver and without software rendering |
| ReleaseGate.LowerIs | scripts/acceptance_evidence.py:136-137 | vendor names are compared without regard to case |
| ReleaseGate.TwoVendorsIff | scripts/acceptance_evidence.py:142-147 | the vendor gate passes iff two counting records differ in their vendor |
| ReleaseGate.SoakIff | scripts/acceptance_evidence.py:161-175 | the soak gate passes iff some counting soak record is over and its two aware times lie seven days apart |
| ReleaseGate.ReleaseRestsOn | scripts/acceptance_evidence.py:124-195 | a ready release names two such records of different vendors and a finished seven-day soak, field by field |
| ReleaseGate.CandidateRestsOn | scripts/acceptance_evidence.py:148-159 | under every set of waivers a ready candidate has such a record for each of the five named cases |
| ReleaseGate.OrderDoesNotMatter | scripts/acceptance_evidence.py:124-205 | the verdict depends on the set of records only |
| ReleaseGate.PermutationDoesNotMatter | scripts/acceptance_evidence.py:124-205 | every permutation of the records gets the same verdict and reasons |
| ReleaseGate.GoodEvidenceKeepsVerdict | scripts/acceptance_evidence.py:124-205 | more current records that are not failures, and later times, never lose a verdict |
| ReleaseGate.BadEvidenceBlocks | scripts/acceptance_evidence.py:177-192 | one failed or stale record blocks the candidate under every set of waivers |
| ReleaseGate.WaiversDoNotInterfere | scripts/acceptance_evidence.py:182-204 | waivers change neither the certified verdict nor its reasons; certified implies ready; more waivers never lose a candidate; blank and unknown ones do nothing |
| ReleaseGate.WaivedAre | scripts/acceptance_evidence.py:182-204 | the waivers reported are the two known ones that state a reason |
| Collector.SeenFiles.CollectFromDirectory | collect_files.py:49-103 | kept items with labels and texts in order, files seen and errors are those of counting the scan's mentions one by one |
| Collector.SeenFiles.CollectFromFileList | collect_files.py:106-194 | the same for a list of names |
| Collector.GatherIs | collect_files.py:71-103 | counting keeps the first mention of every wanted file not seen before, in order, and counts every failing mention |
| Collector.FirstsAre | collect_files.py:86-97 | the first mentions name exactly the wanted files not seen before, each once |
| Collector.FirstsExtend | collect_files.py:71-103 | later mentions only add to what was kept, at the end |
| Collector.ItemShows | collect_files.py:30-46 | every item kept shows the text of its file, labelled by a path that led to it: relative to a single source above it, else in full |
| Collector.SourcesExtend | collect_files.py:236-257 | sources stand in the order of their first mention |
| Collector.NormalizeSources | collect_files.py:236-257 | the usable directories, each once, in order of first mention, and the number of unusable ones |
| Collector.CollectFiles | collect_files.py:197-332 | the first mention of every wanted file, in order with label and text; file count, error count and success as declared; every way to fail |
| Collector.CleanIff | collect_files.py:197-332 | a run counts no error iff every source is a directory, every listed path is a directory, excluded, the output or readable, and every name leads to a file that is excluded, the output or readable |
| Collector.WantedIff | collect_files.py:71-103 | wanted: readable, not the output, and met by a scan under a non-excluded path or named and not excluded |
| Collector.OrderDoesNotMatter | collect_files.py:275-306 | files collected and errors counted do not depend on the order of sources and names |
| Scroll.GtkScrollState.GtkScrollInput | bars/tao_scroll.rs:62-107 | the packet and the new state for one event |
| Scroll.PulsesStart | bars/tao_scroll.rs:9-51 | on Linux a pulse by whole notches that is marked as ended starts a gesture; zero and fractional deltas so marked, and all on other systems, end one |
| Scroll.PacketIs | bars/tao_scroll.rs:62-107 | in a whole trace a packet is decided by its event and the packet before it |
| Scroll.SegmentStartsOnce | bars/tao_scroll.rs:77-93 | a segment starts at most once, at its first packet and iff that is not a stop; after a stop it only moves or ends |
| Scroll.SegmentOf | bars/tao_scroll.rs:77-93 | every smooth event lies in a segment |
| Scroll.SegmentsDisjoint | bars/tao_scroll.rs:77-93 | segments that share an event share their opening |
| Scroll.StartsAre | bars/tao_scroll.rs:72-93 | the starts of a trace are its notches and the segment openings that are not stops |
| Scroll.NeverMovesIffNoIdle | bars/tao_scroll.rs:120-124 | packets never move, in any trace, iff the idle time is zero |
| Scroll.GapDecides | bars/tao_scroll.rs:77-89 | behind the bridge the later of two smooth packets in a row starts a gesture iff it comes at least the idle time of the policy, or the default one, after the first |
| Scroll.FreshSmoothStarts | bars/tao_scroll.rs:77-89 | a smooth packet that is no stop starts a gesture when it is the first of all or follows a notch |
| Scroll.BridgeKeepsGesture | bars/tao_scroll.rs:120-124 | behind the bridge a smooth packet that follows another without delay never restarts the gesture, whatever the policy |
| CpuModel.CpuModel | scripts/remote-benchmark-metadata.py:38-52 | the value of the first deciding complete line if it is 1 to 160 printable bytes, else None |
| CpuModel.ReportedIsFirst | scripts/remote-benchmark-metadata.py:43-51 | a reported model is the value of the first deciding line, printable and of bounded length |
| CpuModel.DecidingIff | scripts/remote-benchmark-metadata.py:43-45 | a line decides iff it is one of the two keys, with white space around it or not, a colon and anything |
| CpuModel.ReportedLine | scripts/remote-benchmark-metadata.py:43-51 | the line a model is read from, spelled out; the model is 1 to 160 printable bytes and neither begins nor ends with a space; no earlier line has such a key |
| CpuModel.TruncationIsSafe | scripts/remote-benchmark-metadata.py:19-52 | on any prefix the answer is that of the whole file if a complete deciding line was read, else None |
| CpuModel.ReadsNeverDisagree | scripts/remote-benchmark-metadata.py:38-52 | two bounded reads of one file never report different models |
| CpuModel.StripIs | scripts/remote-benchmark-metadata.py:45-46 | stripping removes exactly the surrounding white space |
| MimeDefaults.Merge | scripts/set-jwm-defaults.py:28-43 | the configuration after all claims in order, and whether any claim found another value; None iff an entry lacks its MIME types |
| MimeDefaults.MergeOverlays | scripts/set-jwm-defaults.py:34-43 | the defaults are the old ones overlaid by the last claim per MIME type, with or without a fallback section |
| MimeDefaults.MergeKeepsRest | scripts/set-jwm-defaults.py:34-43 | unclaimed entries and the fallback section stay as they were |
| MimeDefaults.OverlayIsLast | scripts/set-jwm-defaults.py:37-43 | the overlay holds the last claim for each claimed MIME type |
| MimeDefaults.LastListerWins | scripts/set-jwm-defaults.py:34-43 | the default for a MIME type is afterwards the last entry on the command line that lists it, and unchanged if none does |
| MimeDefaults.UnchangedIffSatisfied | scripts/set-jwm-defaults.py:41-45 | nothing changes iff every claim already holds |
| MimeDefaults.RerunKeepsDefaults | scripts/set-jwm-defaults.py:28-45 | a second run gives the same defaults |
| MimeDefaults.RerunQuietIffConsistent | scripts/set-jwm-defaults.py:28-45 | a second run reports no change iff the claims are consistent |
| MimeDefaults.ConsistentIffNames | scripts/set-jwm-defaults.py:34-43 | claims are consistent iff no MIME type is listed under two file names |

## Left out

- Monitor geometry, the `sel` field and reference counts: no modelled operation reads them.
- Slot-map internals: keys are fresh numbers that are never reused.
- The benchmark drivers: they only time the calls.
- The overview geometry and `ordered_visible_clients` of the scrolling strip and its viewport: they only read the strip. Which client is selected and how a width factor is clamped: parameters.
- Sockets, name resolution and clocks: reads, failures, time-outs and cancellations are arbitrary steps; times are parameters.
- Floating point: delays, bandwidths, widths and scroll deltas are reals, so rounding, infinities and NaN are not modelled.
- A cancelled or repeated `close()`, and whether a schedule is fair: runs are arbitrary; what is claimed is the step bound of a pump and what holds once nothing can move by itself (`EverySessionRests`, `EveryProxyRests`).
- SHA-256: a function to 64 hexadecimal digits that does not collide on the strings at hand.
- Symbolic links in fingerprinted trees, and dependency items that are absolute or use `..`: items are paths below the root.
- Records whose JSON shape makes the audit raise: fields have their types, optional ones may be missing.
- Lower-casing and white space: letters outside ASCII are not lower-cased, which no vendor name needs.
- Reading files, the default exclusions and the printed reports of the collector: file contents and exclusions are given, and the output is the returned list.
- `gpu_ids`, labels and display sizes of the benchmark metadata: each is one regular expression over a bounded read, with no state.
- The argument parsers and command lines of the scripts: the modelled functions take their values as parameters.
- The text format of the MIME defaults file and its atomic replacement: a parsed configuration goes in and comes out.
- Rendering, display and installer code, and the wallpaper selection: not part of this model.

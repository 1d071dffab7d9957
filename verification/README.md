# Verified models of execenv

This project models the hard logic of execenv, a host that hands out isolated environments, and
proves properties of it for all inputs, all interleavings or all runs.

Six cores are modelled, each in the form the Go code has. Objects whose methods update fields are
classes, and every method is proved to compute a named function of the old state (or, for disk
work, a relation to the old disk). Lemmas then prove what the system promises about those functions,
most of them about whole runs of a transition system in which any number of participants interleave.

- **Projection and disk** (`Paths`, `FileSystem`, `Disks`, `Tree`, `Home`, `Projection`, `Rewrite`,
  `AgentServer`, `Undoing`, `Failures`). The snapshot algebra of `tree.Replace` and `tree.Apply`, a file system
  as a map from segment lists to entries with the rules of Go's `os` package, the agent's stash,
  undo list and staging directory, and the agreement of disk and projection. Every disk call may
  fail at any time, except those of the undo calls, which meet no outside faults.
- **Replay log and resume** (`WatchLog`, `MemoryEnv`, `WatchRuns`). The bounded window over an
  unbounded history, printed cursors, the in-memory environment with its streams and terminals, and
  exactly-once delivery over any number of reconnects.
- **Ensure and Revoke** (`Ensure`). Coalesced launches with the lock dropped around verification
  and launch.
- **Dispatch** (`Dispatch`). The chain of done channels per grant under a counting semaphore.
- **Framing and calls** (`Mux`, `PendingCalls`). The frame codec, the stream with short writes, and
  the table of pending calls.
- **Diff and cached verification** (`Diff`, `Catalog`). Scans turned into events, polling into the
  log, and stat-stamped hashes.

Where a promise does not hold of the code, the exact condition under which it does is proved as an
equivalence, and a concrete case that breaks it is proved beside it:

| promise | exactly when | broken by |
|---|---|---|
| undoing one mutation restores the disk | `Home.StepUndone` | `Failures.ParentLeftBehind`, `Failures.GuestFileLost` |
| rolling a batch back restores the first disk | `Undoing.RollbackReadable`, on the disk before the call, for batches that name no nested paths | the same; `Failures.NestedRestored` shows why nested paths are set apart |
| disk and projection agree | `Projection.StepAgree`, `Projection.BatchAgree` | `Failures.DirectoryCarriesItsTree` |
| an undisturbed disk commits an accepted batch | `Projection.AcceptedCommits` | `Failures.GuestInTheWay` |
| they still agree once the stashes are dropped | `Projection.BatchCommits` | `Failures.StashTakesFile` |
| replaying a diff gives the new scan | `Diff.ReplayGivesNextIff` | `Diff.KindChangeUnseen` |
| a watch resumed after a failed send misses nothing | `Diff.CutShort`, `Diff.Poller.StartWatch` | the same: any event left over |
| one grant's operations run one at a time, in order, none skipped | `Dispatch.SerialIff` | `Dispatch.OverlapAfterCancel` |
| a cached verdict equals hashing again | `Catalog.FreshIff` | `Catalog.ZeroStampFools` |
| decoding gives back the frame | `Mux.DecodeAfterEncode` | the same lemma: names of 65536 bytes and more are refused |

Inputs the code takes from outside are parameters or nondeterministic choices: whether a disk call,
a write, a send, an attach or a launch succeeds, the random part of temporary names, fresh log
epochs, the order of ranging over a map, the digest function, and every scheduling decision.

`dafny verify dfyconfig.toml` checks the whole project.

## Model

| member | source | states |
|---|---|---|
| `Paths.ResolveStaysInside` | tree.go:188-199 | Under a clean root, resolving succeeds exactly on valid paths, lands strictly inside the root at the path's own segments, and so the escape check never fires |
| `Paths.ResolveInjective` | tree.go:156-199 | Two valid paths resolve to the same place only if they are the same path |
| `Paths.ValidPathIff` | tree.go:156-185 | Valid paths are exactly UTF-8 of 1 to 1024 bytes without backslash or control byte, in at most 16 segments of 1 to 255 bytes, none of them a dot or two |
| `Paths.Utf8Iff` | tree.go:156-159 | Valid UTF-8 is exactly the encodings of Unicode scalar values, one after the other |
| `FileSystem.RenameBack` | agent/tree.go:151-154 | A rename onto a free name can always be reversed, and the reverse restores every path and byte, subtrees included |
| `Tree.ReplaceLoop` | internal/tree/tree.go:25-61 | The loop with its seen set and running total computes the specification of Replace, error kind included |
| `Tree.ReplaceAccepts` | internal/tree/tree.go:32-71 | Replace accepts exactly the trees whose entries are each acceptable (a file without a body only at the stored version), pairwise distinct and within the byte cap, whatever the order of scanning |
| `Tree.ReplaceRefuses` | internal/tree/tree.go:25-71 | Too many entries are too large; otherwise the first that cannot be taken decides the error: too large if only its size is wrong, invalid if anything else is |
| `Tree.BodyKept` | internal/tree/tree.go:63-71 | A file listed without a body keeps the stored node, of exactly the listed version; one listed with a body stores that |
| `Tree.ReplaceIgnoresOrder` | internal/tree/tree.go:25-61 | A permuted tree is accepted or refused alike, with the same snapshot |
| `Tree.SkeletonRestores` | internal/tree/tree.go:63-71 | Sending a snapshot back without bodies, in any order, restores it if and only if every file has a version and the caps hold |
| `Tree.ReplaceBuildsWellFormed` | internal/tree/tree.go:25-61 | The keys of a replaced snapshot are valid paths, directories are bare, files are within the file cap |
| `Tree.ApplyLoop` | internal/tree/tree.go:75-90 | The loop over a private copy computes the specification of Apply, first error included |
| `Tree.ApplyOneIff` | internal/tree/tree.go:92-171 | When a mutation is accepted: valid paths, what it addresses is there and at the expected version, its destination free, its body in order |
| `Tree.ApplyOneErrors` | internal/tree/tree.go:92-171 | With which error it is refused otherwise |
| `Tree.FirstError` | internal/tree/tree.go:75-90 | Too many mutations are too large; otherwise the first one that fails gives the batch its error |
| `Tree.FenceHolds` | internal/tree/tree.go:102-137 | On a stored file an accepted Replace, Delete or Move expects nothing or the stored version, a stale one is a conflict, a current one is refused for no other version's sake |
| `Tree.LastWord` | internal/tree/tree.go:75-171 | In an accepted batch the last mutation that names a path decides what is stored there: its own version and body, nothing, or what was moved |
| `Tree.StaleRefused` | internal/tree/tree.go:102-137 | A mutation fenced at a version that is not the stored one fails its whole batch, unless an earlier mutation names the path; with a conflict if it is the first to fail |
| `Tree.SecondWriterLoses` | internal/tree/tree.go:75-137 | Of two writers who started from one version the second is refused |
| `Tree.SplitBatch` | internal/tree/tree.go:75-90 | A batch gives a snapshot if and only if its two parts do in sequence and the joint entry and byte caps hold |
| `Tree.ApplyFrame` | internal/tree/tree.go:92-141 | A path no mutation names keeps its node, or stays absent |
| `Tree.ApplyLedger` | internal/tree/tree.go:92-171 | Bytes after plus bytes freed equal bytes before plus bytes put; moves alone conserve the total |
| `Tree.ApplyGrowth` | internal/tree/tree.go:143-171 | One batch adds at most MaxTreeBytes to what is stored |
| `Tree.ApplyKeeps` | internal/tree/tree.go:92-171 | Valid keys, bare directories and the file cap survive every accepted batch |
| `Home.Stash` | agent/tree.go:162-183 | On success the old entry, with all below it, is at the temporary sibling and the right undo is returned; on failure the disk is unchanged, unless removing the empty temporary directory failed, which then stays |
| `Home.StepUndone` | agent/tree.go:105-158 | The undo of one committed mutation restores the whole disk if and only if its parent directory existed and a move's destination was free |
| `Home.CommitIff` | agent/tree.go:105-183 | Every call finds what it needs exactly when the mutation is ready, written out per operation: a free temporary name for what is moved aside, no file in the way, and for a move its source and a destination it can take |
| `Home.ApplyDisk` | agent/tree.go:105-158 | One mutation, all operations, bad paths and failures: full effect with its undo and stash, or no trace; undisturbed, it succeeds exactly when the mutation is ready |
| `Home.ApplyHome` | agent/tree.go:80-103 | A whole batch: success keeps all the run did, up to what is left of the stashes, which are gone too if their removal did not fail; undisturbed, it succeeds exactly when each mutation is ready in its turn; failure after safe steps leaves the disk as it was, or with one empty directory if stash could not remove it |
| `Undoing.RollbackIff` | agent/tree.go:81-97 | For a batch that names no nested paths, running the undo list backwards from any point of a run restores the very first disk if and only if every step so far was safe |
| `Undoing.RollbackReadable` | agent/tree.go:81-97 | The same, if and only if every step so far would be safe on the disk as it was before the call |
| `Home.RollbackLeaf` | agent/tree.go:83-87 | From a state with one empty directory too many, a safe run rolls back to the first disk, up to one such directory |
| `Projection.StepAgree` | agent/tree.go:105-158 | A mutation accepted by Apply and committed to disk keeps the two in agreement if and only if nothing projected lies below the path it creates, deletes or moves away |
| `Projection.BatchAgree` | internal/tree/tree.go:84-88 | Agreement holds after every prefix of a batch if and only if each of its mutations was clear |
| `Projection.BatchFrame` | agent/tree.go:88-98 | What a batch neither names nor has below a named path keeps its entry; only new parents and stashes appear besides |
| `Projection.BatchCommits` | agent/tree.go:80-103 | When Apply and applyHome both succeed on clear mutations, unnamed entries are untouched, and disk shows the new projection if no stash is or lies above a projected path, whether or not the stashes could be dropped; once they are, only if; temporary names apart from the batch's paths suffice |
| `Projection.BatchCleans` | agent/tree.go:99-101 | Once the stashes are dropped nothing of them remains, and only new parents appear outside what the batch names |
| `Projection.BatchOpens` | agent/server.go:192-224 | Open finds a regular file at a path the batch reaches if and only if the new projection has a file there or the last mutation that reaches it moved a directory that brought one; a path that a dropped stash covers holds none |
| `Projection.FilesBatchOpens` | agent/server.go:192-224 | After a batch that moves files only, Open finds a regular file at a path the batch named exactly where the new projection has one |
| `Projection.SafeBatchIsSafe` | agent/tree.go:88-98 | A guard readable off the disk before the call makes every step of the batch safe to undo |
| `Projection.AcceptedCommits` | agent/tree.go:80-158 | A clear batch that Apply accepts is committed by an agreeing, undisturbed disk exactly when each mutation fits in turn: nothing a guest or an earlier batch left is in the way |
| `Projection.SafeBatchCommits` | agent/tree.go:80-158 | It is if, on the disk before the call, the parents are there and moves go to free names, and the drawn names are new and apart |
| `Failures.ParentLeftBehind` | agent/tree.go:124-132 | Creating a/b in an empty Home: the undo leaves the made parent behind |
| `Failures.GuestFileLost` | agent/tree.go:148-154 | Moving a onto a guest's b overwrites it and the undo cannot bring it back |
| `Failures.GuestInTheWay` | agent/tree.go:112-132 | A guest's file a: Apply accepts creating a/b, and the undisturbed, agreeing disk cannot commit it |
| `Failures.NestedRestored` | agent/tree.go:83-87 | Making a and then a/b/a: an unsafe second step, and yet the rollback is exact |
| `Failures.DirectoryCarriesItsTree` | agent/tree.go:133-142 | Deleting a projected directory takes a projected file off the disk but leaves it projected |
| `Failures.StashTakesFile` | agent/tree.go:99-101 | Replacing a draws .a-7 for the old file, creating .a-7 puts a file there, and the final drops remove that file although it is projected |
| `Rewrite.NodeFits` | agent/tree.go:58-73 | A node can be written exactly when no file is, or becomes, an ancestor of a projected path |
| `Rewrite.WriteNodes` | agent/tree.go:56-76 | For every map order, undisturbed it succeeds if and only if files are leaves, and then the directory shows exactly the snapshot; nothing outside is touched |
| `Rewrite.StageAndSwap` | agent/tree.go:22-37 | Until clearing begins only the staging directory is touched; success leaves Home equal to the snapshot |
| `Rewrite.RewriteHome` | agent/tree.go:13-38 | Success leaves Home the snapshot with its ancestor directories; a failure while staging leaves everything untouched, a later one everything outside Home, new directories on the way to Home excepted; all up to what is left of the staging directory, which is gone if its removal did not fail; undisturbed, success is exactly files being leaves |
| `AgentServer.Server.Apply` | agent/server.go:166-190 | Snapshot, disk, then projection: errors leave the projection, refused batches also the disk; success adopts exactly Apply's snapshot and carries agreement over exactly when no stash covers a projected path; undisturbed, it succeeds exactly when not frozen, accepted by Apply and ready on disk |
| `AgentServer.Server.Replace` | agent/server.go:138-164 | Same order for a full snapshot; success makes Home exactly the new projection, a failure touches nothing outside Home but makes directories on the way to it; undisturbed, success is exactly acceptance with files being leaves; whether or not the staging directory could be removed |
| `WatchLog.CursorRoundTrip` | internal/watchlog/watchlog.go:84-95 | Parsing a printed cursor gives back its epoch and number, over the whole 64-bit range |
| `WatchLog.ParseIff` | internal/watchlog/watchlog.go:88-95 | A text is a cursor exactly if it is an epoch, a colon, and the digits of a 64-bit number |
| `WatchLog.CursorFits` | tree.go:123-126 | Every issued cursor is non-empty, within 128 bytes and UTF-8 |
| `WatchLog.StampIsValid` | tree.go:123-143 | A change that names valid paths passes ValidateEvent once the log has stamped it |
| `WatchLog.NewEpochOk` | internal/watchlog/watchlog.go:97-105 | Both ways of making an epoch give one without a colon and short enough |
| `WatchLog.AppendWindow` | internal/watchlog/watchlog.go:43-52 | After an append the log is still the last capacity events of the whole numbered history |
| `WatchLog.SinceExact` | internal/watchlog/watchlog.go:60-82 | A cursor of this generation resumes if and only if at most capacity events followed it, and then gives exactly those |
| `WatchLog.SinceForeign` | internal/watchlog/watchlog.go:60-82 | A cursor of any other generation lags |
| `WatchLog.SinceSound` | internal/watchlog/watchlog.go:60-82 | Whatever text is passed, what is replayed is a complete end of the history |
| `WatchLog.Log.AppendEvent` | internal/watchlog/watchlog.go:43-52 | The stamped event is recorded at the end of the history and the window slides as specified |
| `WatchLog.Log.Replay` | internal/watchlog/watchlog.go:60-82 | The object answers as the specification of Since does |
| `MemoryEnv.Environment.GuestChange` | memory/tree.go:174-225 | Guest write, remove and move with their guards and errors: the files, the logged event and the send follow the specification |
| `MemoryEnv.GuestTakesHold` | memory/tree.go:174-225 | A guest's change takes effect exactly when the environment runs and what it addresses is there; the named paths then hold what it says, all others what they held, and the event tells the same |
| `MemoryEnv.HostCheckIff` | memory/tree.go:116-160 | The host lets it through exactly when its paths are valid and its body is within the cap |
| `MemoryEnv.ApplyTakesHold` | memory/tree.go:50-63 | A batch takes effect exactly when the environment runs and Apply accepts it, and then the last mutation of a path has the last word |
| `MemoryEnv.Environment.Open` | memory/tree.go:93-111 | Open answers as specified |
| `MemoryEnv.OpensWhatWasPut` | memory/tree.go:93-111 | Open reads what was last put at a path, by guest or caller, and finds nothing where it was taken away |
| `MemoryEnv.StreamsAnswer` | memory/tree.go:237-255 | The open stream gets an event exactly while its buffer has room; full, it is failed as lagged; Close ends the open stream only |
| `MemoryEnv.NextAnswers` | memory/tree.go:263-293 | Next hands out a buffered event exactly on a stream that has not failed |
| `MemoryEnv.ReadsInOrder` | memory/memory.go:257-272 | Read hands out what was written first and not yet handed out, as much as fits, and nothing else moves |
| `MemoryEnv.WritesInOrder` | memory/memory.go:274-286 | A write is taken as a whole exactly while the terminal is unfinished |
| `MemoryEnv.CloseEnds` | memory/memory.go:257-320 | A closed terminal takes nothing more and, unless killed, hands out the rest and then ends; nobody waits on it |
| `MemoryEnv.AttachIff` | memory/memory.go:161-179 | Attach succeeds exactly when the environment runs and every terminal ever made is finished |
| `MemoryEnv.StopsTellWhy` | memory/memory.go:181-230 | Freeze and Revoke reach the live terminal and the open stream, each with its own reason, and no other |
| `MemoryEnv.Environment.Send` | memory/tree.go:237-255 | The event is logged; the open stream gets it if there is room, and is failed as lagged if not |
| `MemoryEnv.Environment.ReplaceAll` | memory/tree.go:30-46 | A replaced tree fails the watch and starts a new generation; an error changes nothing |
| `MemoryEnv.Environment.ApplyBatch` | memory/tree.go:50-63 | A batch changes the files only as a whole and logs nothing |
| `MemoryEnv.Environment.Watch` | memory/tree.go:65-91 | Guard, busy and lag errors, else a stream already holding the whole replay with room for it |
| `MemoryEnv.Environment.Receive` | memory/tree.go:270-279 | A receive takes the oldest buffered event, also after the channel was closed |
| `MemoryEnv.Environment.EndNext` | memory/tree.go:279-292 | A failed stream answers its error and keeps its cursor; a live one advances its cursor to the event handed out |
| `MemoryEnv.Environment.CloseWatch` | memory/tree.go:304-311 | Close fails the stream only while it is the live one |
| `MemoryEnv.Environment.FreezeNow` | memory/memory.go:181-197 | Freeze kills the terminal and fails the watch, unless revoked |
| `MemoryEnv.Environment.ThawNow` | memory/memory.go:199-210 | Thaw clears the flag, unless revoked |
| `MemoryEnv.Environment.RevokeNow` | memory/memory.go:219-230 | Revoke is permanent and kills both |
| `MemoryEnv.Environment.AttachNow` | memory/memory.go:161-179 | A terminal is opened unless frozen, revoked or busy with an unfinished one |
| `MemoryEnv.Environment.ReadFrom` | memory/memory.go:257-272 | Dead, waiting, end of file or a prefix of the buffer, removed from it |
| `MemoryEnv.Environment.WriteTo` | memory/memory.go:274-286 | Bytes go to the buffer unless dead or closed |
| `MemoryEnv.Environment.CloseTerminal` | memory/memory.go:310-320 | Close is final and changes nothing else |
| `WatchRuns.ExactlyOnce` | memory/tree.go:263-293 | Over any run from a new grant, the consumer has received one contiguous, consecutively numbered slice of one generation, over any number of overflows, closes, freezes and reconnects |
| `WatchRuns.RunExtends` | memory/tree.go:257-293 | Unless it starts over, the consumer's position, epoch and everything received only extend; history is never rewritten |
| `WatchRuns.ReconnectIff` | memory/tree.go:65-91 | A Watch from the last cursor succeeds exactly when not revoked, frozen or busy, the generation is unchanged and the window covers the gap; otherwise it gives that error, and on success the buffer holds everything not yet received |
| `WatchRuns.DrainedMissesNothing` | memory/tree.go:237-247 | An open stream with an empty buffer has delivered every event so far |
| `WatchRuns.SameGeneration` | memory/tree.go:30-46 | Without ReplaceTree no run changes the generation, so only overflow can make a consumer lag |
| `WatchRuns.HistoryTellsPaths` | memory/tree.go:174-247 | While only the guest writes, applying the recorded events to the paths of any moment gives the paths of any later one |
| `WatchRuns.StepKeeps` | memory/memory.go:161-320 | Every step of guest, callers, watchers and terminals keeps the whole invariant |
| `WatchRuns.StoppedIsStill` | memory/tree.go:227-235 | Over any run, a frozen environment until a Thaw, and a revoked one for good: no file changes, nothing is recorded, no stream or terminal is opened |
| `WatchRuns.StopIsStill` | memory/memory.go:181-230 | So from any Freeze until a Thaw, and from any Revoke on: files and log stay as they were at that moment |
| `WatchRuns.ReceivedValid` | memory/tree.go:116-158 | Over any run every event the consumer receives passes ValidateEvent |
| `WatchRuns.Lifecycle` | memory/memory.go:161-320 | At every moment at most one terminal is unfinished and one stream open, neither while frozen or revoked; sends go to an open channel; bytes read are a prefix of bytes written |
| `WatchRuns.TrafficInOrder` | memory/memory.go:257-286 | Over any run, the bytes the Reads of a terminal answered are the beginning of the bytes its accepted Writes were given, in order and without gap; the rest is what the terminal still holds |
| `WatchRuns.RunSettles` | memory/memory.go:181-230 | Over any run revoked is permanent across Thaw, a closed stream keeps its error and is never sent on again, a finished terminal stays finished and takes no more bytes |
| `Ensure.IsolatedHost.Look` | isolated/isolated.go:153-171 | A live grant, a shared launch, a conflict, or nothing |
| `Ensure.IsolatedHost.Reserve` | isolated/isolated.go:181-219 | The second section: the look again, network and capacity errors, a failed directory, or a reservation |
| `Ensure.AdmissionIff` | isolated/isolated.go:181-219 | Over every interleaving, a verified caller becomes the launcher exactly when its id is free, its network permitted, a slot free and its directory made; the first of these that fails gives the error |
| `Ensure.NoNetworkWithoutAllowlist` | isolated/isolated.go:200-203 | Over every interleaving, on a host without an allowlist no launch, grant or answer has a network |
| `Ensure.SameSpecSameMachine` | isolated/isolated.go:153-180 | Over every interleaving, an Ensure gets the live machine or the shared launch of its own spec, a conflict for another spec of that id, and goes on if the id is free |
| `Ensure.LaunchInstalls` | isolated/isolated.go:267-277 | A launch that ends is out of the table and holds its id exactly if it went well, with its own machine |
| `Ensure.RevokeEndsIff` | isolated/isolated.go:290-308 | A turn of Revoke ends exactly when no launch of its id is open; otherwise it cancels that one; no other id is touched |
| `Ensure.IsolatedHost.Complete` | isolated/isolated.go:267-277 | Completion settles the call, closes done once, and installs the grant on success |
| `Ensure.IsolatedHost.RevokeTurn` | isolated/isolated.go:290-308 | One turn of the loop: cancel a launch in progress, or take the grant out |
| `Ensure.NextKeeps` | isolated/isolated.go:143-317 | Every step keeps: the tables disjoint and within the slots, pending exactly the open calls, each done closed exactly once, one launcher for each open call, revoked ids revoked |
| `Ensure.AlwaysInv` | isolated/isolated.go:143-317 | So in every state of every interleaving of Ensure and Revoke calls |
| `Ensure.CoalescedAgree` | isolated/isolated.go:258-282 | Callers that shared a launch report the same outcome, whenever each returns |
| `Ensure.RevokeIsFinal` | isolated/isolated.go:285-308 | From its last section on the id is in neither table, and only a reservation made later can install a grant again |
| `Ensure.OneLaunchPerId` | isolated/isolated.go:192-210 | No id has two launches open, and each open launch has exactly one launching caller |
| `Ensure.WaitersAreServed` | isolated/isolated.go:258-265 | Every waiter can wake, or the launch it waits for can still complete |
| `Dispatch.Connection.AdmitFrame` | remote/server.go:120-139 | Non-operations are ignored, a full connection refuses, anything else takes a slot and gets its key |
| `Dispatch.Connection.QueueFrame` | remote/server.go:141-149 | A closed connection gives the slot back; otherwise the operation becomes its key's tail and gets the old tail to wait for |
| `Dispatch.Connection.Drop` | remote/server.go:154-158 | The tail is dropped only by the operation that still is it |
| `Dispatch.KeysAreGrants` | remote/server.go:136-146 | Over every run, operations share a key exactly when their frames name the same grant, no grant and $host being the same, and an operation waits only for one of its own grant |
| `Dispatch.WakeIff` | remote/server.go:160-166 | Behind no operation that gave up, a waiting one may start if and only if every earlier operation of its own grant is done, whatever other grants do |
| `Dispatch.SerialIff` | remote/server.go:150-172 | In every run, cancelled or not, the begin and end marks of a grant's operations are those of running them one after another in arrival order if and only if no handler of the grant was entered behind an operation that gave up |
| `Dispatch.GrantsIndependent` | remote/server.go:150-172 | A step of one grant's operation never changes what another grant's operation may do |
| `Dispatch.OneAtATime` | remote/server.go:117-173 | So until a cancel every grant is served one at a time, in arrival order, none skipped |
| `Dispatch.SlotsBounded` | remote/server.go:124-135 | At most 128 operations are unreleased at any moment of any run, cancelled or not |
| `Dispatch.Refusal` | remote/server.go:124-135 | A frame is refused exactly when 128 operations are unreleased; requests are answered busy, terminal input closes the session |
| `Dispatch.QueuesUnlessClosed` | remote/server.go:141-149 | An open connection queues the frame for its grant; a closed one gives the slot back instead |
| `Dispatch.ClosedForGood` | remote/server.go:141-145 | Over any run a closed connection takes no operation |
| `Dispatch.NeverStuck` | remote/server.go:150-172 | While any operation is left, one not newer than it can move: the wait chain has no deadlock |
| `Dispatch.RunsEnd` | remote/server.go:150-172 | With nothing arriving, operations take only finitely many steps |
| `Dispatch.Drained` | remote/server.go:150-159 | Where no step is left every operation is gone, every slot released and no tail remains |
| `Dispatch.OverlapAfterCancel` | remote/server.go:160-165 | After a cancel two operations of one grant can run at once: a reachable state shows it |
| `Mux.HeaderFields` | internal/mux/mux.go:167-175 | The wire layout: which bytes hold which big-endian field |
| `Mux.EncodeFrame` | internal/mux/mux.go:162-182 | Filling the buffer at a moving offset gives exactly the header and the four variable parts |
| `Mux.DecodeIff` | internal/mux/mux.go:184-217 | A payload decodes to a frame if and only if its numbers say so and its body is the frame's parts |
| `Mux.DecodeRefuses` | internal/mux/mux.go:184-217 | Anything else is refused, as too large exactly if the announced extra part is beyond the cap |
| `Mux.DecodeAfterEncode` | internal/mux/mux.go:162-217 | Decoding an encoded frame gives it back if and only if the names fit sixteen-bit lengths, and is refused otherwise |
| `Mux.EncodeAfterDecode` | internal/mux/mux.go:162-217 | Encoding what was decoded gives back the very payload |
| `Mux.WriteAll` | internal/mux/mux.go:235-247 | Whatever each write takes, success means all bytes in order and failure a prefix |
| `Mux.SendableIff` | internal/mux/mux.go:219-233 | Which frames a Send accepts: one of four kinds, three UTF-8 names of at most 64 bytes, terminal data of at most 64 KiB, 72 MiB in all; and which error the others get |
| `Mux.Send` | internal/mux/mux.go:72-95 | A refused frame sends nothing; success puts its whole wire form on the connection; an error a prefix of it |
| `Mux.Receive` | internal/mux/mux.go:97-121 | Reading header and payload from the connection follows the specification of Recv |
| `Mux.RecvAfterSend` | internal/mux/mux.go:97-121 | Recv takes exactly one sent frame off the stream and leaves everything after it |
| `Mux.SendAfterRecv` | internal/mux/mux.go:97-121 | Whatever Recv accepts is byte for byte what a Send of that frame writes |
| `Mux.BrokenIff` | internal/mux/mux.go:97-109 | A broken connection is reported exactly for a stream that ends before its announced length; no length and too long a length are refused at once |
| `Mux.VerdictStays` | internal/mux/mux.go:97-121 | Any other verdict, frame or error, stays as it is whatever arrives later |
| `Mux.StreamRoundTrip` | internal/mux/mux.go:72-121 | Over the concatenated output of any Sends, the receiver gets exactly those frames in order, whatever follows |
| `Mux.LostInTheMiddle` | internal/mux/mux.go:72-121 | A connection lost inside a frame delivers exactly the frames before it |
| `Mux.SendsAfterFailure` | internal/mux/mux.go:85-94 | Frames sent after a Send that failed part way arrive as sent if it wrote nothing or everything; in between the receiver takes as many bytes as the first four announce for one frame, or stops: from four bytes on, the broken frame's own length |
| `Mux.AnnouncedShort` | internal/mux/mux.go:85-108 | With up to four bytes out, the announced length is the high bytes of the broken frame's length followed by the high bytes of the next frame's |
| `PendingCalls.Client.Enter` | agent/client.go:161-167 | A call gets into the table unless closed |
| `PendingCalls.Client.Match` | agent/client.go:76-79 | A response takes its own entry out, if there is one |
| `PendingCalls.Client.Leave` | agent/client.go:189-191 | A call that gives up takes its entry out |
| `PendingCalls.Client.WakeAll` | agent/client.go:91-98 | The loop of failAll and Hangup, for every map order, closes the table and puts one reply with its own number into each pending channel |
| `PendingCalls.StepKeeps` | agent/client.go:67-107 | Every step keeps one token per call: its entry, or the reply in the reader's hands, or the reply in its channel |
| `PendingCalls.NoSendBlocks` | agent/client.go:75-98 | Every channel about to be filled, by the reader or by a drain under the lock, is empty; no call gets a second reply |
| `PendingCalls.ReachesItsCall` | agent/client.go:67-86 | A response belongs to a call exactly if that one is live and unanswered; it is then delivered to this call, which can return it, and to no other |
| `PendingCalls.EntersIff` | agent/client.go:161-167 | A call gets into the table exactly if nothing has closed it before |
| `PendingCalls.OwnReply` | agent/client.go:155-199 | A call returns only a reply with its own number: one read from the connection, or a drain's status |
| `PendingCalls.DrainedForGood` | agent/client.go:44-58 | After failAll or Hangup the table stays closed and empty over any run |
| `PendingCalls.DrainedWakes` | agent/client.go:187-198 | And every call that was in it has its reply, is about to be handed it, or is withdrawing |
| `Diff.DiffSnap` | agent/watch.go:152-182 | For every order of ranging over both scans the events are those of the specification |
| `Diff.ReportsExactly` | agent/watch.go:152-182 | Exactly these events: a replacement for each file that holds something else, one move if all that came and went is one file under a new name, a deletion and a creation for each other path |
| `Diff.ReplayFollows` | agent/watch.go:152-182 | Replaying the events over the old scan gives the new one, also through the collapse into a move, except that a path that changed kind stays |
| `Diff.ReplayGivesNextIff` | agent/watch.go:155-164 | Replay gives exactly the new scan if and only if no path changed kind, so a complete tick keeps a watcher in step exactly then |
| `Diff.KindChangeUnseen` | agent/watch.go:161-163 | A directory that became a file of the same name: no event, and the replay stays behind |
| `Diff.DiffUnique` | agent/watch.go:152-182 | Different map orders give the same events, as many of them |
| `Diff.OneEventAPath` | agent/watch.go:152-182 | No path is the target of two events |
| `Diff.EmptyIff` | agent/watch.go:152-182 | Nothing is reported exactly when nothing differs but kinds |
| `Diff.DiffPaths` | agent/watch.go:152-182 | The events carry the old set of paths to the new one |
| `Diff.DiffValid` | agent/watch.go:152-182 | Events of scans whose paths are valid pass the part of ValidateEvent that is not about the cursor |
| `Diff.CutShort` | agent/watch.go:85-100 | After a tick that stopped part way, a watcher who followed what was logged knows the new scan if and only if no event was left over |
| `Diff.Poller.StartWatch` | agent/server.go:246-253 | Polling starts from a scan of its own only if it was not running; a watcher that resumes then misses nothing if and only if that scan is what it already knows |
| `Diff.Poller.DiffOnce` | agent/watch.go:71-101 | One tick logs the events of the difference in order and takes the scan over, or stops at a failed send, or starts a new generation above 64 events; while polling, the history since the last reset accounts for every path that came or went |
| `Catalog.ImageRecord.Verified` | isolated/catalog.go:84-98 | A call answers from the cache or hashes afresh, and remembers, as specified |
| `Catalog.MatchesIff` | isolated/catalog.go:60-74 | With 32-byte sums, an image matches if and only if both files are there and the sum of kernel then root filesystem is the decoded catalog hash, in either letter case |
| `Catalog.HexDecodeIff` | isolated/catalog.go:60-74 | A text decodes to these bytes exactly if in lower case it is what printing them gives |
| `Catalog.VerdictIsFresh` | isolated/catalog.go:60-98 | Over any file edits and calls the verdict equals hashing again, if stamps tell contents apart and none is the zero stamp |
| `Catalog.FreshIff` | isolated/catalog.go:84-98 | After any calls the verdict agrees with hashing again, for every catalog hash and digest function, if and only if a hit finds both files and the bytes that were hashed last still in place |
| `Catalog.ZeroStampFools` | isolated/catalog.go:119-125 | A real file with the zero stamp is taken for the one that was missing |

## Left out

- Home.ApplyHome: when removing the fresh temporary directory inside stash fails, the `leak` result marks it, and the rollback is exact up to that one empty directory, provided its random name is not a segment of a path the batch names.
- Undoing.RollbackIff: says nothing of batches that name a path and another one below it, or whose drawn temporary names are or lie above a path the batch names; for those only the equivalence for each single undo is proved, and that safe steps suffice.
- Undoing.RollbackReadable: the same.
- Rewrite.RewriteHome: a failure after Home has been cleared leaves it partly moved in, as the code does; nothing is stated of what is then inside Home.
- Home.RollbackLeaf: undo calls meet no outside faults; their errors are ignored by the code.
- AgentServer.Server.Replace: the watch invalidation, log reset and new scan that follow the commit are modelled in `Diff`, not here.
- WatchRuns.ExactlyOnce: one consumer that calls Next one at a time; other watchers are modelled but not followed.
- WatchLog.AppendWindow: the 64-bit event counter does not wrap around.
- Diff.Poller.DiffOnce: a scan is one moment; files that appear while it runs, and the walk's skipping of symlinks and unreadable files, are part of the scan that is passed in.
- Catalog.VerdictIsFresh: the stat and the hashing of one call see the same files.
- Ensure.NextKeeps: validation and the platform probe before the first section, machines still running after their slot was freed, and removal of grant directories are not modelled; neither are launch and dial beyond their outcome.
- File modes, symlinks, and renames or temporary directories that fail half way.
- Scans compare hashes as values: that equal hashes mean equal contents is a property of SHA-256, which is a function passed in.
- Setting an observation's error and closing its channel is one step; in between, Next can only report that error.
- Terminal window sizes, blocking of Read and Next beyond their enabled steps, real terminals, sockets, TLS, deadlines and timeouts as durations.
- JSON encoding of method payloads, the status name table, authentication, and the handlers behind the dispatcher.
- Client-side streams and terminals (agent and remote); the in-memory ones are modelled instead.
- Shared heap objects (calls, channels, observations) are numbered and kept in sequences of the object that owns them, so aliasing between them is by number.

# nilbox: verified models of its protocols, filters and stores

nilbox runs agents in a Linux virtual machine. A guest agent (`vm-agent`) and a desktop
host (`crates/nilbox-core`) talk over one byte pipe; the host keeps allow and block lists,
token accounts and downloaded images. This project models the parts in which something has
to hold over every input or every run, and proves that it does.

| module | models | main results |
|---|---|---|
| `Runs` | runs of a step relation | invariants and relations along every run |
| `Framing` | buffering readers in general | `ChunkingIrrelevant`, `AnyChunkingDeliversAll`, `AnyChunkingIsUnderstood` |
| `VsockProtocol` | frames, the read loop, the batching write loop | `LinkDeliversFrames`, `DecodingDependsOnBytesOnly`, `ReaderStallsIffBadType` |
| `Multiplexer`, `MuxReceive`, `MuxSend`, `MuxRuns` | the guest's and the host's multiplexer as one machine with two sides, its tasks interleaving at every await | `StreamsReceiveInOrder`, `StreamsMissNothing`, `StreamsSendProperly`, `EndsAreTold`, `LocalIdsAreFresh`, `EveryExitCleansUp` |
| `MuxLink`, `MuxEndToEnd`, `MuxWitness` | the two joined by a pipe each way | `GuestStreamsEndToEnd`, `HostStreamsEndToEnd`, `NothingIsLostBetweenEnds`, `IdsNeverClash`, `RoundTripHappens` |
| `ConnectionSlot` | the accept loop with its token check, and its clean-up tasks | `OneConnectionAtATime`, `ConstantTimeEq` |
| `FuseProtocol` | the file protocol: both encoders, both decoders, the reader | `HostReadsGuest`, `GuestReadsHost`, `EncodeRequestPrefixFree`, `ReaderHandlesAll` |
| `FuseDispatcher` | requests, replies, timeouts and write failures in any order | `ReturnedCallsAreSettled`, `WaitingCallsMissNothing`, `OkMeansOwnResponse`, `OutcomesSayWhatHappened`, `OutcomeIsFinal` |
| `FuseFilesystem` | inode map, handle table, cache and handlers | `ReachableIsSafe`, `ChangesLeaveNothingStale`, `ChangesMoveInodes`, `ParentInvertsBuild` |
| `FuseTasks` | the handlers as tasks that interleave | `InterleavingsAreSound`, `NumbersAreNotReused`, `WriteUncaches`, `CarefulRunsAgree`, `ConflictBreaksAgreement` |
| `Bloom`, `BlocklistFormat`, `Blocklist` | the filter, its file, build and load, from the texts of the lists | `BuildLoadAndAsk`, `NormalizeDecides`, `FilterIsUnique`, `FileRoundTrip`, `AcceptedFileKept` |
| `JsonText`, `CanonicalJson` | JSON texts, the guest's printer and the host's sorted value | `ReadInvertsPrint`, `CanonicalJsonDecides`, `CanonicalTextReads`, `GuestAgreesWithHost`, `ManifestCheckDecides` |
| `ClientHello` | the server name walker | `HostNameIsFound`, `SniOfWellFormed`, `NamesAreReal` |
| `TokenUsage`, `Calendar` | roll-up of logs into daily, weekly and monthly rows, and deletion | `DailyRowsSurvive`, `NothingLostWhenPunctual`, `MonthIsExactIff`, `RowIffInReach`, `CalendarRepeats` |
| `Download` | resumable download with a running hash | `HashMatchesFile`, `SucceedsIffComplete`, `HonestServerDelivers`, `ResumedDownloadIsWhole` |
| `Allowlist` | allowlist rows and the bypass set in memory | `ExactUnlessDemoted`, `SeededAt`, `ParentsAreSuffixes` |
| `AllowlistRaces` | the same when calls overlap | `RightIffUnchangedSinceSelect`, `OrderlyCallsCover`, `MissedRowsWereOvertaken`, `OverlappingCallsLoseARow` |

## How the models are made

- Concurrent code (`Multiplexer`, `ConnectionSlot`, `FuseDispatcher`, `FuseTasks`,
  `AllowlistRaces`) is a state and a set of steps, and its runs are those of `Runs`. A step is
  what one task does between two points where it awaits or takes a lock. An invariant is
  proved for every step; the theorems then speak of every state of every run. Code that changes objects in place is a class whose methods
  state the new value through a function on the old one, and the theorems are about that
  function. Loops of the source are loops.
- SHA-256, SipHash, Ed25519 and "is valid UTF-8" are function parameters, so the results
  hold for any choice of them. The network, the host's answers, clocks, timeouts and the
  expiry of cached entries are arguments or free choices of a step.
- Integers are unbounded except where the source writes or counts in a fixed width: lengths
  are cut to their field as `as u32` and `as u16` do, and stream ids wrap at 2^32.

## Where the code does not give what one might expect

These are results, with the exact condition proved.

- `VsockProtocol.DecodeInvertsEncode`: a frame reads back if and only if its payload is
  below 2^32 bytes.
- `VsockProtocol.ReaderStallsIffBadType`: the read loop never delivers anything again if and
  only if the type byte at the front of its buffer is there and unknown.
- `MuxRuns.IdsRunOut`: 2^31 - 1 ids of the guest and 2^31 of the host are fresh; the next one
  is zero on the guest and 1 again on the host, and a run gets there.
- `MuxRuns.EveryExitCleansUp`: the table is empty after the I/O task has finished if and only
  if no stream was registered since it was cleared; `MuxRuns.BothEndsAreReached` gives a run
  for each.
- `MuxEndToEnd.GuestConnectIsIgnored`: the guest can open a stream with Connect, and the host
  registers none for it.
- `FuseProtocol.HostReadsGuest`, `FuseProtocol.GuestReadsHost`: the other side reads a
  message back if and only if its paths and names are under 2^16 bytes, its data and lists
  under 2^32, and its payload at most 16 MB; the encoders check none of this and cut lengths.
- `FuseFilesystem.ParentInvertsBuild`: true if and only if the parent path is not empty.
- `FuseFilesystem.InodeMap.Rename`: a path renamed to itself loses its inode.
- `FuseFilesystem.DirectoryIsShownIffSmall`: a directory is listed completely if and only if
  it has at most 100 entries, since the host ignores the offset.
- `FuseTasks.CarefulRunsAgree`, `FuseTasks.ConflictBreaksAgreement`: handlers that overlap keep
  every cached inode right as long as none is begun that stores an attribute of a path another
  is to drop or move, or the other way round; and any two calls that do conflict in this way
  have an interleaving that leaves a wrong inode in the cache.
- `AllowlistRaces.RightIffUnchangedSinceSelect`, `AllowlistRaces.OverlappingCallsLoseARow`:
  overlapping calls can lose a bypass row from the set; the set is right if and only if the
  bypass rows are those the last publisher selected.
- `Allowlist.ExactUnlessDemoted`: even one call at a time leaves the set too large after an
  Inspect insert over a user's Bypass row, and after nothing else.
- `TokenUsage.RowIffInReach`: a day's logs reach the daily table if and only if the day has
  a row already or maintenance comes within 60 days; later than that they are deleted
  without having been summed, as `TokenUsage.LateMaintenanceLosesADay` does.
- `TokenUsage.MonthIsExactIff`: when maintenance is punctual, the row of a logged month is the
  exact sum of its logs if and only if maintenance ran in one of the two months after it or
  the logs' total is request plus response anyway. `TokenUsage.SixtyDaysCanSkipAMonth` is a
  punctual run in which it did not.
- `TokenUsage.MonthRowsAreKnown`: in every run, punctual or not, what a month's row holds is
  known; late maintenance replaces a complete row by an incomplete one, as
  `TokenUsage.LateMaintenanceShrinksAMonth` does.
- `Download.HonestServerDelivers`: a success status other than 200 and 206 makes the whole
  body follow the resumed part; the hash still matches the file, and the file is not the
  content.

## Model

| member | source | states |
|---|---|---|
| `VsockProtocol.DecodeInvertsEncode` | vm-agent/src/vsock/protocol.rs:148-178 | decoding the encoding of a frame, with anything after it, gives the frame back if and only if its payload is below 2^32 bytes |
| `VsockProtocol.DecodeNeverFails` | vm-agent/src/vsock/stream.rs:314-389 | the checks before the decode call make its error return unreachable, for every buffer |
| `VsockProtocol.NextFrameIncremental` | vm-agent/src/vsock/stream.rs:314-396 | taking a frame off the buffer consumes at least one byte, stays in the buffer, and is not changed by bytes that arrive later |
| `VsockProtocol.NextFrameRecognises` | vm-agent/src/vsock/stream.rs:314-396 | the read loop takes an encoded frame off the buffer whole, whatever follows |
| `VsockProtocol.StallsIffBadType` | vm-agent/src/vsock/stream.rs:314-396 | a buffer without a complete frame stays so whatever arrives if and only if its fifth byte is there and no known type |
| `VsockProtocol.ReaderStallsIffBadType` | vm-agent/src/vsock/stream.rs:308-397 | the reader loop never delivers again, whatever it reads, if and only if that byte is bad, and then it keeps every byte |
| `VsockProtocol.ReadFrames` | vm-agent/src/vsock/stream.rs:308-397 | one read delivers exactly the frames that draining pending and new bytes yields, leaves exactly the rest, and never fails |
| `VsockProtocol.FillBatch` | vm-agent/src/vsock/stream.rs:407-416 | for any cap, a batch is a nonempty front of the queue, encoded in order; without its last frame it is under the cap; and it stops only at an empty queue or at the cap |
| `VsockProtocol.BatchingKeepsBytes` | vm-agent/src/vsock/stream.rs:406-420 | however frames are batched, the bytes on the wire are those of the frames one by one |
| `VsockProtocol.LinkDeliversFrames` | vm-agent/src/vsock/stream.rs:303-420 | for every batching and every cut into chunks the reader decodes exactly the frames sent, in order, with nothing left over |
| `VsockProtocol.LinkDeliversPrefix` | vm-agent/src/vsock/stream.rs:303-420 | from any front part of the bytes the reader decodes a prefix of the frames sent |
| `VsockProtocol.DecodingDependsOnBytesOnly` | vm-agent/src/vsock/stream.rs:308-397 | for arbitrary bytes, frames decoded and bytes left depend only on the concatenation of the chunks |
| `Bytes.BeDigit` | vm-agent/src/vsock/protocol.rs:148-178 | a number is written with its highest byte first |
| `Bytes.LeDigit` | crates/nilbox-blocklist/src/format.rs:33-74 | a number is written with its lowest byte first |
| `Framing.DrainAppend` | vm-agent/src/vsock/stream.rs:308-397 | draining a buffer, appending and draining again equals draining the whole |
| `Framing.ChunkingIrrelevant` | vm-agent/src/vsock/stream.rs:303-397 | a reader loop fed chunk by chunk ends where one drain of the concatenation ends |
| `Framing.DrainEncoded` | vm-agent/src/vsock/stream.rs:308-397 | encoded messages drain to exactly those messages, then whatever follows drains |
| `Framing.AnyChunkingDeliversAll` | vm-agent/src/vsock/stream.rs:303-397 | any list of good messages, cut anywhere, is handled exactly with nothing left |
| `Framing.AnyChunkingIsUnderstood` | vm-agent/src/fuse/dispatcher.rs:147-178 | the same for a reader that maps what was written to what it understands |
| `Multiplexer.DataFrames` | crates/nilbox-core/src/vsock/stream.rs:112-135 | the frames one write becomes are data frames of the stream, at most 32 KB each on macOS, and carry exactly the bytes written |
| `MuxReceive.StepKeepsRouting` | vm-agent/src/vsock/stream.rs:327-383 | every step keeps: what each stream was given, plus what the I/O task holds for it, is a prefix of what it is owed, and the table points at the right stream |
| `MuxReceive.StepKeepsBytes` | vm-agent/src/vsock/stream.rs:303-326 | every step keeps: frames decoded plus what the buffer still yields is what all bytes read yield |
| `MuxReceive.StepKeepsPeers` | vm-agent/src/vsock/stream.rs:346-378 | every step keeps: each stream the peer opened was opened by a frame of its own, in the order of the frames |
| `MuxReceive.StepKeepsExit` | vm-agent/src/vsock/stream.rs:424-438 | every step keeps: after the clean-up the table holds only streams registered later, the last of them among these, and they get nothing |
| `MuxReceive.StepKeepsPresent` | vm-agent/src/vsock/stream.rs:327-383 | every step keeps: while the I/O task runs a stream has its table entry, unless its receiver is gone, the host gave it up, it has had its Fin or Rst, or another stream has its id |
| `MuxReceive.NothingMovesAfterExit` | vm-agent/src/vsock/stream.rs:424-438 | once the channel is shut no step queues, moves or loses a frame |
| `MuxSend.StepKeepsIds` | vm-agent/src/vsock/stream.rs:155-293 | every step keeps: ids handed out have the parity of the side and, until they run out, are distinct and below the counter |
| `MuxSend.StepKeepsLog` | vm-agent/src/vsock/stream.rs:406-421 | every step keeps: frames queued are, in order, those sent, lost, in the batch and waiting, each with the id of a registered stream; a batch keeps to its cap |
| `MuxSend.StepKeepsEmits` | vm-agent/src/vsock/stream.rs:41-138 | every step keeps each stream's account: opening frame first and once, data as written, one Fin at most and none when refused; a closed stream has queued its Fin, is about to, or lost it for want of room, and a refused or given-up one likewise its Rst |
| `MuxRuns.ReachedIsSafe` | vm-agent/src/vsock/stream.rs:147-439 | all eight invariants hold in every state of every run, on either side |
| `MuxRuns.StreamsReceiveInOrder` | vm-agent/src/vsock/stream.rs:327-383 | in every run a stream is given a prefix of the decoded frames with its id since registration, window updates apart on the host, in order; at most one Fin or Rst, as the last; a peer-opened stream first sees its opening frame |
| `MuxRuns.StreamsMissNothing` | vm-agent/src/vsock/stream.rs:327-383 | in every run, while the I/O task runs, a stream with a receiver and an id of its own that was not given up has been given every decoded frame with its id since registration, but for one on its way, unless it has had its Fin or Rst |
| `MuxRuns.EveryExitCleansUp` | vm-agent/src/vsock/stream.rs:314-438 | in every run the decode-error return is not taken; after exit the channel is shut, no step sends anything, no stream opened before remains in the table, later ones receive nothing, and the table is empty if and only if there are none |
| `MuxRuns.LateStreamStays` | vm-agent/src/vsock/stream.rs:178-203 | from every finished state a late call reaches one with its entry in the table |
| `MuxRuns.LateEntriesStay` | vm-agent/src/vsock/stream.rs:424-438 | between any two states of a run: once finished the task stays finished, and no entry is removed from the table any more |
| `MuxRuns.BothEndsAreReached` | vm-agent/src/vsock/stream.rs:424-438 | on either side both kinds of end are reached, with an empty table and with a late entry in it |
| `MuxRuns.LocalIdsAreFresh` | vm-agent/src/vsock/stream.rs:155-293 | until the ids run out, local ids have the parity of the side, are nonzero and distinct, and with a peer that opens the other parity neither registering nor admitting a stream overwrites an entry |
| `MuxRuns.IdsRunOut` | crates/nilbox-core/src/vsock/stream.rs:228-252 | the bound is exact and is reached: after all fresh ids the next is zero on the guest, 1 on the host |
| `MuxRuns.StreamsSendProperly` | vm-agent/src/vsock/stream.rs:41-138 | in every run every frame queued belongs to a stream registered before, resets apart a stream sends its opening frame first and once and then data and one Fin at most, the data are the bytes written, a refused stream sends none of them, and a batch without its last frame stays under the cap |
| `MuxRuns.EndsAreTold` | vm-agent/src/vsock/stream.rs:50-60 | in every run a stream closed by itself, a writer or its drop has queued its Fin, is about to, or has on record that it could not; a refused or given-up one likewise its Rst |
| `MuxRuns.FramesAreLostOnlyWithoutRoom` | vm-agent/src/vsock/stream.rs:120-138 | a Fin is lost only to a shut channel or to a drop that finds it full, an Rst only to a full or shut one; only the host gives up, on a full stream channel; a receiver goes only with a drop, a failed opening or a refusal; a close sets the flag, and flags stay |
| `MuxLink.PeerStreamIsTheirs` | crates/nilbox-core/src/vsock/stream.rs:348-379 | a stream registered for the peer was opened by the peer with an id of the other parity |
| `MuxLink.NothingHeardYet` | vm-agent/src/vsock/stream.rs:178-203 | nothing has been heard for an id that is not registered yet |
| `MuxLink.JoinedIsLinked` | crates/nilbox-core/src/vsock/stream.rs:275-471 | in every run of the two joined machines each has decoded a front of what the other queued, nothing is heard for a stream before it is registered, and a stream's opening frame is the first it queues |
| `MuxLink.EachSideRuns` | crates/nilbox-core/src/vsock/stream.rs:275-471 | each half of a joined run is a run of that side alone |
| `MuxLink.IdsNeverClash` | crates/nilbox-core/src/vsock/stream.rs:228-252 | in every joined run each side opens ids of its own parity only, so until they run out no registration overwrites an entry |
| `MuxEndToEnd.RequestsArrive` | vm-agent/src/vsock/stream.rs:112-420 | the side that did not open a stream holds a prefix of the frames the opener queued, and a prefix of the bytes it wrote |
| `MuxEndToEnd.RepliesArrive` | crates/nilbox-core/src/vsock/stream.rs:183-192 | the opener holds a prefix of the frames the other side's stream queued, and a prefix of the bytes it wrote |
| `MuxEndToEnd.GuestStreamsEndToEnd` | crates/nilbox-core/src/vsock/stream.rs:348-379 | in every joined run both hold for every stream the guest opened, be it a reverse request, a DNS query or a connection to the host |
| `MuxEndToEnd.HostStreamsEndToEnd` | crates/nilbox-core/src/vsock/stream.rs:249-273 | in every joined run both hold for every stream the host opened |
| `MuxEndToEnd.NothingIsLostBetweenEnds` | vm-agent/src/vsock/stream.rs:303-420 | in every joined run, for a stream either side opened and either end of it: once that side has read all the other has queued, the end holds exactly the frames and bytes the other end sent, unless its receiver is gone, the host gave it up, or it has had its Fin or Rst |
| `MuxEndToEnd.GuestConnectIsIgnored` | crates/nilbox-core/src/vsock/stream.rs:348-382 | a guest stream that has an end on the host was not opened with Connect |
| `MuxWitness.RoundTripHappens` | crates/nilbox-core/src/vsock/stream.rs:275-471 | whichever side opens, and with any of its opening frames, for any data and reply there is a joined run in which all of it has arrived and the close of the accepting end is the last frame the opener was given, so the statements above speak of something |
| `ConnectionSlot.StepKeepsSafe` | vm-agent/src/main.rs:323-391 | every step keeps: the slot, the accept loop and the clean-up tasks agree on which connection is live, and every connection sent the expected token first |
| `ConnectionSlot.ReachableIsSafe` | vm-agent/src/main.rs:323-391 | that invariant in every reachable state |
| `ConnectionSlot.OneConnectionAtATime` | vm-agent/src/main.rs:323-391 | in every run at most one connection is live, at most one I/O loop runs, whatever is in the slot or runs has sent the 32 expected bytes first, and a clean-up about to clear the slot finds its own, finished connection there |
| `ConnectionSlot.ConstantTimeEq` | vm-agent/src/main.rs:192-201 | the loop over all bytes says yes exactly when the two are equal |
| `ConnectionSlot.TokenOpensSlot` | vm-agent/src/main.rs:335-377 | the right token, in whatever pieces it comes, gets its connection into the slot |
| `FuseProtocol.TakeAllInvertsPutAll` | vm-agent/src/fuse/protocol.rs:287-377 | payload fields written one after another read back as the same fields, leaving what follows |
| `FuseProtocol.UnwrapInvertsWrap` | vm-agent/src/fuse/protocol.rs:379-414 | an envelope of any size reads back if and only if its payload is at most 16 MB, and up to 2^32 bytes a larger one is rejected |
| `FuseProtocol.WrapPrefixFree` | vm-agent/src/fuse/protocol.rs:379-385 | no envelope's bytes are a proper front of another's, up to 2^32 bytes of payload |
| `FuseProtocol.HostReadsGuest` | crates/nilbox-core/src/file_proxy/protocol.rs:199-310 | the host's decoder gives back a request the guest encodes, of any size, if and only if its paths are under 2^16 bytes, its data under 2^32 and its payload at most 16 MB |
| `FuseProtocol.EncodeRequestPrefixFree` | vm-agent/src/fuse/protocol.rs:287-385 | two streams that start with encoded requests are equal only if the requests and the rests are: injective and prefix-free |
| `FuseProtocol.GuestReadsHost` | vm-agent/src/fuse/protocol.rs:388-522 | the guest's decoder gives back a message the host encodes, of any size (an unknown file type as "other"), if and only if texts and lists are within their length fields and the payload is at most 16 MB |
| `FuseProtocol.GuestDecoderIncremental` | vm-agent/src/fuse/protocol.rs:388-414 | a decision of the guest's decoder is not changed by later bytes |
| `FuseProtocol.ReadMessages` | vm-agent/src/fuse/dispatcher.rs:147-178 | one read handles exactly the messages that draining yields and reports failure exactly when draining meets a bad one |
| `FuseProtocol.ReaderIgnoresCuts` | vm-agent/src/fuse/dispatcher.rs:147-178 | for arbitrary bytes the messages handled do not depend on where the stream is cut |
| `FuseProtocol.ReaderHandlesAll` | vm-agent/src/fuse/dispatcher.rs:147-178 | every sequence of host messages, cut anywhere, is handled completely, in order, with nothing left |
| `FuseDispatcher.StepKeepsSafe` | vm-agent/src/fuse/dispatcher.rs:84-144 | every step keeps: each call's phase, mailbox and pending entry agree with the messages heard |
| `FuseDispatcher.ReachableIsSafe` | vm-agent/src/fuse/dispatcher.rs:72-144 | that invariant in every reachable state |
| `FuseDispatcher.OutcomeIsFinal` | vm-agent/src/fuse/dispatcher.rs:84-144 | once a call has returned nothing changes its outcome: one outcome per request |
| `FuseDispatcher.ReturnedCallsAreSettled` | vm-agent/src/fuse/dispatcher.rs:84-144 | a returned call's id is not pending; an answer is the first reply bearing its id heard after it was entered; the closed-channel error never occurs |
| `FuseDispatcher.WaitingCallsMissNothing` | vm-agent/src/fuse/dispatcher.rs:84-144 | a waiting call holds the first reply heard for it, and is pending exactly when there was none |
| `FuseDispatcher.OkMeansOwnResponse` | vm-agent/src/fuse/dispatcher.rs:182-278 | a typed operation succeeds if and only if the first reply bearing its id is of its kind with status Ok, or a pong; another status is its error, another kind a protocol error, and no answer a failure |
| `FuseDispatcher.OutcomesSayWhatHappened` | vm-agent/src/fuse/dispatcher.rs:84-144 | in every run a call ends with a transport error if and only if its request could not be written, with a timeout if and only if it was and no answer was taken, and with an answer if and only if one was |
| `FuseFilesystem.ParentInvertsBuild` | vm-agent/src/fuse/cache.rs:90-101 | for kernel names, the parent of a built path is the directory it was built from if and only if that is not empty |
| `FuseFilesystem.InodeMap.constructor` | vm-agent/src/fuse/filesystem.rs:33-42 | the map starts as a bijection with inode 1 naming "/" |
| `FuseFilesystem.InodeMap.GetOrCreate` | vm-agent/src/fuse/filesystem.rs:44-52 | returns the path's inode, a never used one if it had none, and keeps the two maps inverse |
| `FuseFilesystem.InodeMap.Remove` | vm-agent/src/fuse/filesystem.rs:58-63 | drops the path and its inode and nothing else; the root stays unless "/" was removed |
| `FuseFilesystem.InodeMap.Rename` | vm-agent/src/fuse/filesystem.rs:66-75 | the inode moves to the new path, the one that was there is dropped, and the maps stay inverse |
| `FuseFilesystem.HandleManager.Allocate` | vm-agent/src/fuse/filesystem.rs:91-95 | the new handle is the counter, maps to the host's descriptor, and the counter moves on |
| `FuseFilesystem.HandleManager.Release` | vm-agent/src/fuse/filesystem.rs:101-103 | removes the handle and returns its descriptor if it had one |
| `FuseFilesystem.CacheManager.InvalidateWithParent` | vm-agent/src/fuse/cache.rs:71-76 | drops attribute and listing of the path and the listing of its parent, nothing else |
| `FuseFilesystem.HostFilesystem.Lookup` | vm-agent/src/fuse/filesystem.rs:176-219 | the reply is the cached attribute while it is good, else what the host sent, and there is none exactly without both or under an unknown parent; its inode names the path asked for; all invariants are kept |
| `FuseFilesystem.HostFilesystem.Getattr` | vm-agent/src/fuse/filesystem.rs:221-256 | the reply is the cached attribute while it is good, else what the host sent; it carries the inode asked about; all invariants are kept |
| `FuseFilesystem.HostFilesystem.Setattr` | vm-agent/src/fuse/filesystem.rs:711-755 | the reply is the fresh attribute, and there is none exactly for an unknown inode, a failed truncation or a failed stat |
| `FuseFilesystem.HostFilesystem.Open` | vm-agent/src/fuse/filesystem.rs:258-281 | a handle is returned exactly when the inode is known and the host opened it; it was not live and now maps to the host's descriptor |
| `FuseFilesystem.HostFilesystem.Release` | vm-agent/src/fuse/filesystem.rs:346-371 | the handle is gone afterwards, and a descriptor is closed exactly when it was known |
| `FuseFilesystem.HostFilesystem.Write` | vm-agent/src/fuse/filesystem.rs:306-344 | after a successful write on a live handle and inode neither attribute nor listing of the file is cached |
| `FuseFilesystem.HostFilesystem.Readdir` | vm-agent/src/fuse/filesystem.rs:373-452 | the reply is the listing from the offset on as far as it fits, each entry with an inode that names it in that directory; the entry that did not fit has an inode too; all invariants are kept |
| `FuseFilesystem.DirectoryIsShownIffSmall` | crates/nilbox-core/src/file_proxy/handler.rs:351-391 | a sequence of readdir calls over a directory that does not change, with any of them served from the cache or fetched anew and any room in the replies, shows all of it if and only if it has at most 100 entries |
| `FuseFilesystem.HostFilesystem.Mkdir` | vm-agent/src/fuse/filesystem.rs:495-536 | a reply comes exactly when the directory was made and its stat arrived; its inode names the new directory, and all invariants are kept |
| `FuseFilesystem.HostFilesystem.Create` | vm-agent/src/fuse/filesystem.rs:538-596 | a reply comes exactly when the host opened the file; inode and handle in it are those of the new file, the handle with the host's descriptor, and all invariants are kept |
| `FuseFilesystem.HostFilesystem.Remove` | vm-agent/src/fuse/filesystem.rs:598-664 | the entry's inode and cached data go, and all invariants are kept |
| `FuseFilesystem.HostFilesystem.Rename` | vm-agent/src/fuse/filesystem.rs:666-709 | both paths and both parents lose cached data, the inode moves, and all invariants are kept |
| `FuseFilesystem.HandleKeepsSafe` | vm-agent/src/fuse/filesystem.rs:176-755 | every handler keeps: the maps are inverse, inode 1 is "/", numbers lie below their counters, cached attributes carry current inodes; and no dead number revives |
| `FuseFilesystem.ReachableIsSafe` | vm-agent/src/fuse/filesystem.rs:26-104 | that invariant in every serial run of handlers |
| `FuseFilesystem.ChangesLeaveNothingStale` | vm-agent/src/fuse/filesystem.rs:328-755 | after a successful mkdir, create, unlink, rmdir or rename nothing is cached for a changed path and no listing of an affected parent; after a successful write nothing for the file; after a truncation nothing but the attributes sent since; after a clear nothing |
| `FuseFilesystem.LookupNamesPath` | vm-agent/src/fuse/filesystem.rs:176-219 | a lookup the cache does not answer gives its path an inode, a new one exactly when it had none, and caches the attributes sent; other paths are untouched, and one the cache answers changes nothing |
| `FuseFilesystem.AttributesAreCached` | vm-agent/src/fuse/filesystem.rs:221-256 | a getattr the cache does not answer, and a setattr, cache the attributes sent and touch no other path |
| `FuseFilesystem.ChangesMoveInodes` | vm-agent/src/fuse/filesystem.rs:495-709 | mkdir and create give the path an inode, unlink and rmdir take it, rename hands it to the new path, and other paths keep theirs |
| `FuseTasks.AloneIsSerial` | vm-agent/src/fuse/filesystem.rs:176-755 | a handler task with nothing in between does exactly what the serial handler does, for every call |
| `FuseTasks.InterleavingsAreSound` | vm-agent/src/fuse/filesystem.rs:176-755 | in every interleaving of handler tasks the inode maps are inverse, inode 1 is "/", and no live or cached number is still to be issued |
| `FuseTasks.NumbersAreNotReused` | vm-agent/src/fuse/filesystem.rs:26-104 | in every interleaving no dropped inode number and no released handle is issued again |
| `FuseTasks.WriteUncaches` | vm-agent/src/fuse/filesystem.rs:328-338 | whatever other tasks do before, between and after its two actions: a successful write reads the path its inode has by then, and when it ends nothing is cached for that path |
| `FuseTasks.AgreementKeptIff` | vm-agent/src/fuse/filesystem.rs:176-755 | the step of the next result: an action keeps the agreement if and only if the inode it stores is still its path's, or the path it drops or moves is not cached |
| `FuseTasks.CarefulRunsAgree` | vm-agent/src/fuse/filesystem.rs:176-755 | in every interleaving in which no call begins that stores an attribute of a path an unfinished one is to drop or move, or the other way round, every cached attribute carries the inode its path has now |
| `FuseTasks.ConflictBreaksAgreement` | vm-agent/src/fuse/filesystem.rs:176-755 | that condition is needed: from every quiet state any two calls that conflict in this way have an interleaving that ends with a wrong inode cached and no task left |
| `FuseTasks.GetattrCanOutliveUnlink` | vm-agent/src/fuse/filesystem.rs:221-256 | in particular, for every known file, a getattr overlapping an unlink can leave the dead inode cached |
| `FuseTasks.StaleAttributeIsReachable` | vm-agent/src/fuse/filesystem.rs:221-256 | such a state is reached |
| `Bloom.NormalizeIdempotent` | crates/nilbox-blocklist/src/bloom.rs:82-84 | normalising twice is normalising once |
| `Bloom.NormalizeDecides` | crates/nilbox-blocklist/src/bloom.rs:82-84 | two names with dots after them have one normal form if and only if they are the same letter by letter, capitals aside |
| `Bloom.SetBitSets` | crates/nilbox-blocklist/src/bloom.rs:44-53 | setting a bit of a byte sets that bit and leaves every other |
| `Bloom.BloomFilter.Insert` | crates/nilbox-blocklist/src/bloom.rs:44-52 | afterwards a bit is set exactly when it was, or some hash of the domain falls on it |
| `Bloom.BloomFilter.Contains` | crates/nilbox-blocklist/src/bloom.rs:56-65 | true exactly when every hash position of the domain is set |
| `Bloom.BloomFilter.CheckWithParents` | crates/nilbox-blocklist/src/bloom.rs:88-100 | true exactly when some suffix of the normalised name that starts at a label is in the filter |
| `Bloom.FilterIsUnique` | crates/nilbox-blocklist/src/bloom.rs:44-53 | two filters of one size for one set are byte for byte equal, so insertion order does not matter |
| `Bloom.MembersAreFound` | crates/nilbox-blocklist/src/bloom.rs:56-66 | every inserted name is found |
| `Bloom.MemberIff` | crates/nilbox-blocklist/src/bloom.rs:56-66 | a name is found if and only if each of its hash positions is one of some inserted name |
| `Bloom.MixedSteps` | crates/nilbox-blocklist/src/bloom.rs:72-78 | the i-th hash in wrapping arithmetic is the first with the second added i times |
| `Bloom.NoFalseNegatives` | crates/nilbox-blocklist/src/bloom.rs:88-100 | every member and every subdomain of it, with any of its letters in either case and with trailing dots, is reported |
| `BlocklistFormat.HeaderRoundTrip` | crates/nilbox-blocklist/src/format.rs:33-74 | a header reads back if and only if magic and version are the current ones |
| `BlocklistFormat.HeaderBytesKept` | crates/nilbox-blocklist/src/format.rs:33-74 | any accepted header bytes are written back unchanged |
| `BlocklistFormat.FileRoundTrip` | crates/nilbox-blocklist/src/format.rs:77-117 | a file reads back if and only if header, bits, digest and signature length are consistent |
| `BlocklistFormat.AcceptedFileKept` | crates/nilbox-blocklist/src/format.rs:87-129 | an accepted file is written back unchanged, and the signed bytes are exactly the file without its last 64 |
| `Blocklist.CollectNames` | crates/nilbox-blocklist/src/builder.rs:47-78 | the set built is all source names, less the normalised allowed, plus the normalised denied |
| `Blocklist.FillFilter` | crates/nilbox-blocklist/src/builder.rs:83-89 | whatever order the set yields its names in, a bit is set exactly when some name hashes to it |
| `Blocklist.BuildBlocklist` | crates/nilbox-blocklist/src/builder.rs:46-129 | the file holds the filter of exactly the kept names, their number and the given settings, and is consistent exactly when the bits are under 2^32 bytes and the signature has 64 |
| `Blocklist.LoadSources` | crates/nilbox-blocklist/src/builder.rs:165-187 | fails exactly on an unknown list or a missing text, and else yields exactly the names that stand on some line of the lists |
| `Blocklist.LinesSplit` | crates/nilbox-blocklist/src/sources/oisd.rs:20 | a text is cut at its line feeds |
| `Blocklist.OisdLine` | crates/nilbox-blocklist/src/sources/oisd.rs:19-36 | white space around a name and a leading `*.` do not count, and a comment names nothing |
| `Blocklist.UrlhausLine` | crates/nilbox-blocklist/src/sources/urlhaus.rs:20-39 | what follows the address and white space is the name, and a comment names nothing |
| `Blocklist.NamedDecides` | crates/nilbox-blocklist/src/sources/oisd.rs:29-33 | a name, trailing dots aside, is taken in lower case if and only if it has a dot |
| `Blocklist.ListedNamesAreNormal` | crates/nilbox-blocklist/src/sources/oisd.rs:19-36 | a name that stands on a line of either list is in normal form, not empty and has a dot |
| `Blocklist.KeptNamesAreNormal` | crates/nilbox-blocklist/src/builder.rs:58-78 | every kept name is nonempty and in normal form |
| `Blocklist.LoadedListReportsAll` | crates/nilbox-blocklist/src/lib.rs:41-59 | end to end: the list loaded from the written file reports every kept name and every subdomain of it, with any letters in either case and with trailing dots |
| `Blocklist.LoadAccepts` | crates/nilbox-blocklist/src/lib.rs:41-57 | a list loads if and only if the file reads and, where that is asked for, its last 64 bytes are a signature of the rest; bits and hash count are those of the file |
| `Blocklist.WhatIsKept` | crates/nilbox-blocklist/src/builder.rs:58-78 | a name is kept if and only if it is listed and no line of the allow list names it, or a line of the deny list names it |
| `Blocklist.BuildLoadAndAsk` | crates/nilbox-blocklist/src/lib.rs:41-59 | from the texts of the lists through build, write, load and query: every name listed and not allowed, or denied, and everything under it is reported, in either letter case; and a query is reported if and only if all bits of it or of a parent are bits of such names |
| `CanonicalJson.SortSorts` | vm-agent/src/app_install.rs:250-267 | sorting an object's distinct keys gives keys that go up: of any two the later has the larger character where they first differ, or goes on where the earlier ends |
| `CanonicalJson.CollectSorts` | crates/nilbox-core/src/vm_install.rs:650-662 | collecting into the host's ordered map gives keys that go up in that sense, and exactly the same entries |
| `CanonicalJson.LessIsBefore` | vm-agent/src/app_install.rs:254 | the comparison of keys is lexicographic order by its definition |
| `CanonicalJson.CollectIsSort` | crates/nilbox-core/src/vm_install.rs:650-662 | the host's ordered map and the guest's sort agree on every object |
| `CanonicalJson.GuestAgreesWithHost` | vm-agent/src/app_install.rs:250-267 | the guest's canonical text is the compact printing of the host's canonical value, for every value |
| `JsonText.ReadInvertsPrint` | vm-agent/src/app_install.rs:250-267 | a reader of JSON texts (RFC 8259) with all its escapes gives back every value from its compact text |
| `JsonText.PrintReads` | vm-agent/src/app_install.rs:250-267 | the same for a value in front of anything that may follow one, which is left as it is |
| `JsonText.PrintCancels` | vm-agent/src/app_install.rs:250-267 | so two printed values in front of delimiters are equal if and only if values and rests are |
| `CanonicalJson.CanonicalValueDecides` | crates/nilbox-core/src/vm_install.rs:650-662 | canonical values are equal if and only if the values are equal up to key order at every depth |
| `CanonicalJson.CanonicalJsonDecides` | vm-agent/src/app_install.rs:250-267 | canonical texts are equal if and only if the values are equal up to key order at every depth |
| `CanonicalJson.CanonicalTextReads` | vm-agent/src/app_install.rs:250-267 | the canonical text is a JSON text that reads as a value equal up to key order, with its keys going up at every depth |
| `CanonicalJson.ManifestCheckDecides` | vm-agent/src/app_install.rs:224-247 | if the digest does not collide on the two texts, a manifest passes with another's digest exactly when each entry of either, `taskfile_content` apart, has its equal in the other up to key order |
| `ClientHello.ExtractSni` | vm-agent/src/outbound/proxy.rs:225-285 | indexes in bounds and ends on every byte string, with the result of the recursive definition |
| `ClientHello.SearchHello` | vm-agent/src/outbound/proxy.rs:239-264 | skips the three vectors as defined, or gives up where one is cut short |
| `ClientHello.WalkExtensions` | vm-agent/src/outbound/proxy.rs:262-285 | the loop over extensions computes the recursive walk |
| `ClientHello.NamesAreReal` | vm-agent/src/outbound/proxy.rs:225-285 | on arbitrary bytes a returned name is valid UTF-8 and stands in the data behind its own type and length |
| `ClientHello.WalkReachesFirst` | vm-agent/src/outbound/proxy.rs:262-285 | the walk answers from the first server_name extension, at any position, and with nothing if there is none |
| `ClientHello.SniOfWellFormed` | vm-agent/src/outbound/proxy.rs:225-285 | on every well-formed single-record ClientHello the answer is that of its first server_name extension |
| `ClientHello.HostNameIsFound` | vm-agent/src/outbound/proxy.rs:225-285 | with the host_name entry first in it, that answer is exactly the name if it is valid UTF-8 and nothing if it is not (section 3 of RFC 6066, section 4.1.2 of RFC 8446) |
| `ClientHello.PartOfARecordHasNoName` | vm-agent/src/outbound/proxy.rs:225-232 | a well-formed record that is cut short anywhere gives no name |
| `TokenUsage.UsageStore.Record` | crates/nilbox-core/src/token_monitor/mod.rs:22-57 | the log is kept and its month grows by it at once, request and response taken as its total |
| `TokenUsage.UsageStore.DeleteOld` | crates/nilbox-core/src/config_store.rs:2743-2750 | exactly the logs before the cut-off go, the others keep their order |
| `TokenUsage.UsageStore.CatchUpDaily` | crates/nilbox-core/src/service.rs:149-166 | every day of the span with logs and no row gets its rows, all other rows stay |
| `TokenUsage.UsageStore.CatchUpWeekly` | crates/nilbox-core/src/service.rs:168-184 | every Sunday of the span is summed over its seven days |
| `TokenUsage.UsageStore.FinalizeTwoMonths` | crates/nilbox-core/src/service.rs:186-200 | the two months before are rewritten from their daily rows, across the turn of the year |
| `TokenUsage.UsageStore.RunMaintenance` | crates/nilbox-core/src/service.rs:142-207 | the new tables are the four stages in order |
| `TokenUsage.CaughtUpAt` | crates/nilbox-core/src/config_store.rs:2754-2769 | which daily rows exist after the catch-up and what each holds, row by row |
| `TokenUsage.WeeksAt` | crates/nilbox-core/src/config_store.rs:2772-2787 | which weekly rows exist after the loop and what each holds, row by row |
| `TokenUsage.MaintenanceKeepsDaily` | crates/nilbox-core/src/service.rs:149-166 | maintenance keeps: each daily row is the sum of all logs ever recorded for it |
| `TokenUsage.MaintenanceKeepsWeekly` | crates/nilbox-core/src/service.rs:168-184 | maintenance keeps: each weekly row is the sum of its seven daily rows |
| `TokenUsage.FinalisedAt` | crates/nilbox-core/src/config_store.rs:2791-2806 | which monthly rows a maintenance writes and what each holds, row by row |
| `TokenUsage.MaintenanceKeepsMonthly` | crates/nilbox-core/src/service.rs:186-200 | maintenance keeps: a month has a row exactly when it was logged, which is the sum of its daily rows if maintenance ran in one of the two months after and found any, and else what recording added up |
| `TokenUsage.ReachedIsSafe` | crates/nilbox-core/src/service.rs:142-207 | all three, in every state of every run of recording, time and maintenance |
| `TokenUsage.LogsAreKept` | crates/nilbox-core/src/config_store.rs:2743-2750 | in every run the log table holds exactly the recorded logs from the last cut-off on, each as often as recorded, and a job's cut-off is 60 days before its delete |
| `TokenUsage.DailyRowsSurvive` | crates/nilbox-core/src/config_store.rs:2743-2769 | in every run each daily row is for a finished day and equals the sum of all logs ever recorded for it, deleted ones included |
| `TokenUsage.WeeklyRowsSum` | crates/nilbox-core/src/config_store.rs:2772-2787 | each weekly row starts on a Sunday, covers finished days only, sums its daily rows, and weeks do not overlap |
| `TokenUsage.NothingLostWhenPunctual` | crates/nilbox-core/src/service.rs:142-207 | if maintenance comes at least every 60 days, every finished logged day has its row and every finished week's row is the sum of all logs of its seven days |
| `TokenUsage.MonthRowsAreKnown` | crates/nilbox-core/src/config_store.rs:2276-2298 | that, in every run, with maintenance on time or late |
| `TokenUsage.MonthIsExactIff` | crates/nilbox-core/src/config_store.rs:2791-2806 | in every punctual run the row of a logged month has the request tokens, response tokens and number of all its logs, and is their exact sum if and only if maintenance ran in one of the two months after, or their total is request plus response |
| `TokenUsage.FinalisedMonthsAreExact` | crates/nilbox-core/src/config_store.rs:2791-2806 | right after a punctual maintenance the rows of the two months before are the exact sums of all their logs |
| `TokenUsage.RowIffInReach` | crates/nilbox-core/src/config_store.rs:2889-2905 | after maintenance a logged day has a row if and only if it had one or lies within 60 days; older logs are gone |
| `TokenUsage.LateMaintenanceLosesADay` | crates/nilbox-core/src/service.rs:142-207 | for every log there is a run, with maintenance 61 days later, that never gives it a row |
| `TokenUsage.LateMaintenanceShrinksAMonth` | crates/nilbox-core/src/service.rs:186-200 | for any two logs of a month there is a run, with maintenance too late for the first only, that replaces a row counting both by one counting the second |
| `TokenUsage.SixtyDaysCanSkipAMonth` | crates/nilbox-core/src/service.rs:186-200 | a maintenance on the last day of a month and the next 60 days later, in the third month after it, never finalise that month |
| `TokenUsage.DecemberCanBeSkipped` | crates/nilbox-core/src/service.rs:186-200 | every December before a common year is such a month |
| `Calendar.CalendarRepeats` | crates/nilbox-core/src/service.rs:168-184 | 4800 months are 146097 days and end on the weekday they began on |
| `Calendar.FirstGregorianDay` | crates/nilbox-core/src/service.rs:168-184 | the weekday that week starts are counted from is that of the calendar: 15 October 1582 is a Friday |
| `Calendar.YearsStart` | crates/nilbox-core/src/service.rs:186-200 | counting month by month, the day a year starts on is given by the closed formula, before 1970 and after |
| `Download.Disk.HashPart` | crates/nilbox-core/src/vm_install.rs:893-917 | hashing the partial file block by block takes in exactly its bytes |
| `Download.Disk.Stream` | crates/nilbox-core/src/vm_install.rs:974-1019 | file and hasher grow by the same bytes for every chunking, and the file is renamed only after a complete body |
| `Download.Disk.Fetch` | crates/nilbox-core/src/vm_install.rs:881-971 | for every partial file and every answer, a hash is returned exactly when an accepted body arrived whole, and covers exactly the bytes of the destination file |
| `Download.HashMatchesFile` | crates/nilbox-core/src/vm_install.rs:881-1019 | success leaves the hashed bytes as destination and no partial file; failure leaves the destination alone |
| `Download.SucceedsIffComplete` | crates/nilbox-core/src/vm_install.rs:920-971 | a call succeeds if and only if a success, or after 416 a success of the second request, arrives whole; else what arrived stays in the partial file behind what was resumed, and a stale part is dropped |
| `Download.HonestServerDelivers` | crates/nilbox-core/src/vm_install.rs:881-1019 | from a server that sends what it says, the destination is the content, except exactly when a partial file meets another success status |
| `Download.ResumedDownloadIsWhole` | crates/nilbox-core/src/vm_install.rs:881-1019 | over any number of interrupted attempts the partial file is always a prefix of the content and the destination the content |
| `Download.WholeBodyFinishes` | crates/nilbox-core/src/vm_install.rs:881-1019 | after whatever interruptions, one whole body from such a server leaves the content as destination and returns its hash |
| `Allowlist.ParentDomains` | crates/nilbox-core/src/config_store.rs:168-178 | the loop lists the recursive definition |
| `Allowlist.ParentsAreSuffixes` | crates/nilbox-core/src/config_store.rs:168-178 | the parents are exactly the proper suffixes that follow a dot and contain one |
| `Allowlist.ParentsShrink` | crates/nilbox-core/src/config_store.rs:168-178 | they come longest first, without repeats |
| `Allowlist.ConfigStore.Insert` | crates/nilbox-core/src/config_store.rs:1210-1236 | a call that runs alone adds or re-modes a user row, leaves a system row, and refreshes the set on Bypass only |
| `Allowlist.ConfigStore.Delete` | crates/nilbox-core/src/config_store.rs:1238-1256 | a call that runs alone refuses exactly the system rows; otherwise the row goes and the set is refreshed |
| `Allowlist.ConfigStore.Seed` | crates/nilbox-core/src/config_store.rs:1144-1198 | the three seeding loops have the effect of their lists, then the set is refreshed |
| `Allowlist.SeededAt` | crates/nilbox-core/src/config_store.rs:1144-1198 | name by name: which rows there are after seeding, which are system rows, and which are Bypass |
| `Allowlist.TableAt` | crates/nilbox-core/src/config_store.rs:1210-1256 | name by name: an insert or delete changes the row named unless it is a system row, and no other |
| `Allowlist.ConfigStore.IsBypass` | crates/nilbox-core/src/config_store.rs:423-436 | true exactly when the domain or a dotted suffix of it is in the set |
| `Allowlist.ConfigStore.GetEntry` | crates/nilbox-core/src/config_store.rs:1331-1359 | returns the row of the longest stored name among the domain and its dotted suffixes, and nothing only if none is stored |
| `Allowlist.SetCoversRows` | crates/nilbox-core/src/config_store.rs:404-420 | for calls made one after another the set holds every bypass row after each |
| `Allowlist.RefreshingCallsAreExact` | crates/nilbox-core/src/config_store.rs:1168-1256 | whatever the set was, a seed, an accepted delete or a Bypass insert that runs alone leaves it equal to the bypass rows |
| `Allowlist.ExactUnlessDemoted` | crates/nilbox-core/src/config_store.rs:1210-1236 | an exact set stays exact if and only if the operation is not an Inspect insert over a user's Bypass row |
| `AllowlistRaces.ReachableIsSound` | crates/nilbox-core/src/config_store.rs:404-420 | with any number of calls in flight the set is always the bypass rows of some version of the table, the one its last publisher selected |
| `AllowlistRaces.CommitsAreCalls` | crates/nilbox-core/src/config_store.rs:1202-1256 | what a call commits to the table is what the call that runs alone does to it |
| `AllowlistRaces.RightIffUnchangedSinceSelect` | crates/nilbox-core/src/config_store.rs:404-420 | in every interleaving the set holds every bypass row if and only if none became one since that SELECT, and equals them if and only if besides none ceased to be one |
| `AllowlistRaces.OrderlyCallsCover` | crates/nilbox-core/src/config_store.rs:1202-1256 | where no refreshing call committed after that SELECT the set holds every bypass row, and is exact if and only if no Inspect insert demoted one since |
| `AllowlistRaces.MissedRowsWereOvertaken` | crates/nilbox-core/src/config_store.rs:1202-1256 | a bypass row the set misses was made by a Bypass insert or a seeding that committed after that SELECT |
| `AllowlistRaces.SerialCallsCover` | crates/nilbox-core/src/config_store.rs:1202-1256 | when each call starts only after the one before has returned, the set holds every bypass row between them |
| `AllowlistRaces.OverlappingCallsLoseARow` | crates/nilbox-core/src/config_store.rs:1238-1256 | from every quiet state a delete and a Bypass insert that overlap end, both returned, with the inserted row missing from the set |
| `AllowlistRaces.RaceIsReachable` | crates/nilbox-core/src/config_store.rs:404-420 | such a state is reached from the empty table |
| `AllowlistRaces.NextCallHeals` | crates/nilbox-core/src/config_store.rs:404-420 | from every quiet state the next refreshing call that runs alone makes the set exact |
| `AllowlistRaces.SystemRowsStay` | crates/nilbox-core/src/config_store.rs:1202-1256 | in every interleaving a system row is never deleted, and only seeding can change its mode |

## Left out

- `MuxRuns.StreamsSendProperly`: says nothing about data after a Fin, because `write` does not look at the closed flag.
- `MuxEndToEnd.NothingIsLostBetweenEnds`: that a side does get to read everything would need fairness and a pipe that stays up. The multiplexer is a step machine over values rather than a class, because its fields are shared by tasks that interleave.
- `Multiplexer.DataFrames`: a write is its frames one by one; on macOS the pieces of two writers of one stream may interleave, and `written` is what was queued in that order. Raw frames are the DNS answers that are their only use.
- `FuseDispatcher.ReachableIsSafe`: request ids are followed up to 2^64 - 1, before the counter wraps.
- `FuseFilesystem.ReachableIsSafe`: handlers run one after another; `FuseTasks` says what holds and what fails when they interleave. Inode and handle counters are unbounded, paths are sequences of characters, and a directory rename does not move the paths below it, as in the source.
- `FuseTasks.InterleavingsAreSound`: the host's answers are given when a task begins, and a readdir does not hold the cache lock while it serves a cached listing, which allows more interleavings than the source has; `read` changes no state and is not modelled.
- `FuseProtocol.GuestReadsHost`: a payload getter that panics on a short payload is the same failure as a decode error, and the guest's Shutdown message, which the host has no encoder for, has only a decoder.
- `Blocklist.BuildBlocklist`: sizing in floating point becomes any byte length and any hash count of at least one; fetching the lists and the signing key are not modelled: their texts and what is appended as signature are given.
- `JsonText.PrintReads`: a number is the text printed for it, and keys compare by code point, which for valid UTF-8 is the order of their bytes. Objects may list their entries in any order, where `serde_json` keeps them sorted.
- `TokenUsage.NothingLostWhenPunctual`: one day clock, although the source takes local days for maintenance and UTC days in SQL. Statements are atomic and succeed, recording a log and adding it to its month are one step, and one maintenance takes less than 60 days.
- `Download.ResumedDownloadIsWhole`: one content behind the address; file system errors and progress events are not modelled.
- `Allowlist.SetCoversRows`: calls do not overlap; `AllowlistRaces` treats those that do.
- `Allowlist.ConfigStore.GetEntry`: the token accounts attached to a row are not modelled.
- `ConnectionSlot.OneConnectionAtATime`: the token is given; bytes that arrive with it in one chunk are dropped, as in the source, and the multiplexer's wire begins after them.
- Transports (vsock, virtio serial, the Swift VMM): the wire is a sequence of bytes cut into arbitrary chunks.
- Encryption of app manifests, OAuth, SSH, control commands, MCP bridge and proxies, host proxy and domain gate, VM life cycle, the React application and build scripts: user interface, plumbing or easier than what is here.

# DartSync in Dafny

DartSync keeps a shared directory equal on several machines. A tracker holds a table of all
files, with the time of each file's newest version and the peers that have it; clients report
their directories to the tracker, follow the tables it broadcasts, and fetch files from each
other in pieces. This project models that program and proves what its design relies on.

**Downloads** (`Files`, `Partition`, `TempName`, `Merge`, `Download`, `DownloadSafety`,
`DownloadContents`, `DownloadTermination`, `DownloadOutcome`, `DownloadResume`, `BadNames`, `Calls`,
`Net`, `Transfer`, `WorkerRefinement`). A file is cut into pieces; each piece goes to a worker that
appends blocks from one peer to a temporary file whose name holds file, offset, length and
version; incomplete pieces are handed to other peers; at the end the pieces are put together.
`Download` is a transition system over every interleaving of coordinator, workers, broken
connections, failing peers, failing local writes, crashes before the merge, and new calls
afterwards with any number of peers and any piece count. A worker that is handed an old piece
knows it only by parsing the piece's file name, so the steps go through printed and parsed names,
and what bytes a peer sends is part of the step that receives them: `DownloadSafety` holds for any
bytes, `DownloadContents` says what peers that send the right ones lead to, and `DownloadResume` that
bytes that have come stay and are not asked for again. `DownloadOutcome` says when a call ends, given what its peers do, `BadNames` what a name that does not survive parsing
does to it, and `Calls` what a fresh call leaves whose owners refuse, are silent, or send from
whatever file they have under the name. `Transfer` has the two transfer loops on a byte stream
that recv cuts as it likes, and `WorkerRefinement` ties the receiving loop to the steps of the
system.

**The file table** (`Tables`, `FileTables`, `Tracker`, `Reconcile`, `Fetching`, `Convergence`,
`Delivery`). `FileTables` is the tracker's linked list with its owner arrays, changed in place;
each operation is proved against a function on lists in `Tables`, and these against maps from
names to entries. `Tracker` is the system of tracker and clients over those maps, with
connections, reports and disconnects in any order; its class `Server` keeps the linked list and
the system together. `Reconcile` is a client that makes its directory follow a table, by the list
of its last scan, which may lag behind the directory. `Fetching` takes what its downloads bring
from runs of `Calls` with the directories of the listed owners, and `Convergence` puts both sides
together. `Delivery` has the reports and tables that are on their way.

**Watching and staying alive** (`Detector`, `Wire`, `PeerTables`): the scan by which a client
notices local changes, the messages between client and tracker, and the table of live peers.

A path is the list of its components below the shared directory. `Wrappers`, `CTypes` and `Sets`
hold an option type, the ranges of the C types, and two facts about finite sets.

Assumptions, which are those of the program:

- `compress` and `uncompress` are a pair of functions that undo each other on blocks of at most
  1024 bytes.
- `long` has 64 bits; reads and writes of a flag are atomic; a call or a message is one step
  where several threads share a table.
- A client has one connection, reports each name once, and lists itself as the one owner.
- A change of a file sets its modification time to the clock, and creating or deleting an entry
  sets that of its directory.
- An int that is sent whole comes out of one `recv` whole; fewer bytes come only when the
  connection ends behind them.
- A write takes as many bytes as there is room for at that moment.
- In `Calls` and `Fetching`: a client that can be reached and has something under the name sends
  from it, does not change it and does not fail meanwhile; something is done whenever the owners
  allow it; local writes do not fail; the target of the download can be opened and has room. The
  table's owners fit their array of 200.
- In `Convergence`: no two copies of a file with the same time differ, and a client applies a
  table while its list is up to date. `Reconcile` and `Delivery` do without the latter.

What the proofs found, each stated exactly:

- A temporary name gives back the file name if and only if that has no `__` and does not end in
  `_` (`TempName.RoundTrip`). For any other name the worker that is handed a piece again works on
  the file of no piece (`BadNames.HandedOutWrongly`). So a fresh call for such a file ends if and
  only if every first worker whose piece has bytes completes it (`BadNames.FreshEndsExactly`), and
  a resumed call with an incomplete piece never ends (`BadNames.ResumeNeverEnds`).
- If the peers send what they should, the merged file is the source file if and only if each piece
  fits the room on the disk; a write that does not fit is not noticed, and the piece is removed all
  the same (`DownloadContents.DownloadCorrect`, `Merge.MergeExactly`).
- A temporary file keeps its bytes in every run, through crashes and new calls, until it is merged
  or swept away (`DownloadResume.BytesSurvive`), and a call asks for exactly what they lack
  (`DownloadResume.ResumeAsksRest`).
- A download in which one peer never fails and only finitely many local writes do ends if and
  only if it is never left with nothing happening (`DownloadTermination.DownloadTerminates`), and,
  given a coordinator that goes on, if and only if every running worker sooner or later takes a
  step of its own (`DownloadOutcome.EndsIfServed`). An uploader that cannot open the file sends
  nothing and never closes its socket (utils/peer2peer.c:528-530, 570-573), and so keeps the whole
  call, whatever the other peers do (`DownloadOutcome.SilentOwnerBlocks`).
- An uploader opens the file by its name alone, whatever version it has. If all owners with a piece
  to send can be reached, a fresh call ends if and only if each of them has something under the
  name, and leaves what each sends for its own piece (`Calls.CallExactly`). That is the listed
  version if and only if each owner agrees with it on that owner's piece (`Calls.MixExactly`): a
  copy that was only touched does no harm, an older one that differs spoils the file.
- `sync_with_server` ends and leaves the newer version of every file if and only if each file it
  must fetch has an owner and its download brings the version (`Reconcile.ReconciledExactly`), and
  that, for owners that can be reached, if and only if each owner with a piece to send has
  something that agrees with the version on its piece (`Fetching.FollowsExactly`). Otherwise an
  older local copy is deleted first, and then either there is no owner and the file is missing, or
  an owner has nothing, or is the client itself, and the call never ends and scans stay switched
  off, or an owner has something else and its bytes come with the listed time.
- All this is while the client's list is up to date. In general what is deleted and fetched is
  decided by the list: a file that was saved since the last scan stays, unless the table has it or a
  folder above it is deleted; one that was deleted since is fetched again only for a newer version
  than the listed one, and one that was changed since is then replaced
  (`Reconcile.LaggingList`, `Reconcile.UpToDateApplied`).
- While no client takes a time back and all have what they last reported, the listed owners do
  have the version (`Convergence.OwnersHold`), and a round of all clients converges
  (`Convergence.QuietRound`). Short runs of the tracker show the failures: a file without an owner
  (`Convergence.OwnerlessFileIsLost`; when exactly that comes about is
  `Tracker.OwnerlessExactly`), a client that asks itself (`Convergence.OwnFileHangs`), and a
  client that has put back an older copy (`Convergence.OldCopyHangsOrSpoils`).
- A file that has been saved stays until its report is merged if and only if its client applies no
  table while it lists the file, or a folder above it that the table lacks
  (`Delivery.UnheardRun`). When the table that its own report has caused arrives, it is still there
  if and only if that is so and no older table was on its way then. If not, an older table has
  deleted the file, and the client then asks itself for it and waits for ever
  (`Delivery.SavedFileSurvives`). A short run shows a table without the file applied before the
  next scan, which leaves the file alone (`Delivery.SavedInTime`).
- Applying the same table again finds nothing to do if and only if each file to be fetched was put
  in place, rightly or not; else the list is rebuilt and the time of the last scan reset each time
  (`Reconcile.AppliedAgain`).
- An owner of a file stays listed until it disconnects, the entry is deleted, or somebody else
  reports a newer version (`Tracker.OwnerStaysInRun`).
- The tracker's owner lists stay accurate under a report if and only if it gives no file the
  client owns with an older time than the tracker's; a client that restores an old copy stays
  listed (`Tracker.AccurateExactly`, `Tracker.OldCopyStaysListed`).
- Once every time in the directory is before the last scan, no scan finds anything until something
  changes (`Detector.NoFalseAlarm`).
- A local change is lost if and only if it changes the time of a visible entry that is neither
  file nor folder while nothing else is to be noticed and no synchronisation resets the time of
  the last scan (`Detector.LostExactly`); a short run leads there (`Detector.LinkChangeIsLost`),
  and scanning again does not help (`Detector.StaysLost`).
- If a client's connection ends inside a file update, behind its signal, the tracker's handler
  waits for ever if and only if the end is in order, some bytes of the count of nodes have come,
  and what it reads as the count is positive; else it follows a null table. For the missing bytes
  of an int it takes what is in memory: behind an earlier message part of a signal counts as the
  signal, in a first message it may count as anything (`Wire.CutStream`).
- `is_all_zero` in fact asks only that no flag is 1 (`Download.IsAllZero`); the coordinator needs
  just that.

## Model

| member | source | states |
|---|---|---|
| TempName.ParseTempFileName | utils/peer2peer.c:580-619 | the cursor loop returns the fields between successive first separators, or nothing where the C code would follow a null pointer |
| TempName.StrStr | utils/peer2peer.c:586-601 | the search loop finds the first occurrence at or behind a position, or none |
| TempName.AtoiSigned | utils/peer2peer.c:592-614 | every printed int, negative ones too, is read back unchanged |
| TempName.AtoiReads | utils/peer2peer.c:592-617 | a number is read behind blanks and a sign, and ends at the first character that is no digit |
| TempName.DigitsRead | utils/peer2peer.c:592-617 | each further digit counts once, those before it ten times |
| TempName.SamplePrinted | utils/peer2peer.c:374 | file name, start, length and time stand in this order, with two underscores between them and a tilde at the end |
| TempName.ParsesAlways | utils/peer2peer.c:580-619 | no printed name, whatever the file is called, makes the parser follow a null pointer |
| TempName.StampWraps | utils/peer2peer.c:610-617 | whatever stands in the three fields, the first two are taken as ints and the last modulo 2^32 |
| TempName.RoundTrip | utils/peer2peer.c:580-619 | for all ints and 32-bit times, parsing a printed name gives the piece back if and only if the file name has no double underscore and no underscore at its end; otherwise a shorter name comes back |
| TempName.SameFileDistinct | utils/peer2peer.c:278 | two temporary names of one file version are equal only for the same range, whatever the file is called |
| TempName.AllDistinct | utils/peer2peer.c:374 | over all file names, good or not, a temporary name fixes file, range and version |
| Partition.CFits | utils/peer2peer.c:275-277 | for any int length and piece count the product fits 64 bits and the offset an int |
| Partition.OffsetEnds | utils/peer2peer.c:275-276 | the first piece starts at 0 and the last ends at the file's length |
| Partition.OffsetIsFloor | utils/peer2peer.c:275-276 | the offset of piece i of n is the one number x with n x <= length i < n (x + 1) |
| Partition.Balanced | utils/peer2peer.c:275-277 | every piece has the rounded-down or rounded-up share of the file |
| Partition.Tiles | utils/peer2peer.c:244-246 | every byte of the file lies in exactly one piece |
| Partition.SamePiece | utils/peer2peer.c:275-278 | pieces with equal start and length are the same piece or empty |
| Files.TempsOkUpdate | utils/peer2peer.c:374-382 | writing a prefix of its range to one temporary file keeps the files of all versions prefixes of their ranges |
| Files.SizesOkUpdate | utils/peer2peer.c:374-382 | writing no more than its length to one temporary file keeps every temporary file within the length in its name, good file names or not |
| Files.ReadByte | utils/peer2peer.c:538-541 | what is read from a file is its bytes, and zeros behind its end |
| Merge.SamePieceName | utils/peer2peer.c:309-315 | only empty pieces of a file share a temporary name |
| Merge.TempDir.Copy | utils/peer2peer.c:326-335 | the block-wise copy appends as much of the temporary file as there is room for |
| Merge.TempDir.Merge | utils/peer2peer.c:303-342 | the merge loop writes and removes what the specification of merging says, for a target that cannot be opened and for any room on the disk |
| Merge.MergeExactly | utils/peer2peer.c:309-341 | if every piece is on disk, merging gives the source bytes if and only if each piece fits the room there is, also when several empty pieces share one file that the first removes |
| Merge.OnePieceMerged | utils/peer2peer.c:303-342 | of a file of one piece that does not fit, what fits is written; the piece is gone in any case |
| Merge.MergeRemoves | utils/peer2peer.c:336-341 | merging leaves exactly the temporary files that are not the pieces', also when bytes did not fit |
| Download.GetAvailablePeerIdx | utils/peer2peer.c:625-633 | the first peer whose flag is 0, or -1 if there is none |
| Download.IsAllZero | utils/peer2peer.c:639-647 | true exactly if no flag is 1 |
| DownloadSafety.ReparsedPiece | utils/peer2peer.c:278-288 | the name the coordinator prints for a piece is parsed back into this piece |
| DownloadSafety.DispatchesPiece | utils/peer2peer.c:282-292 | the worker started for a waiting piece gets that piece, through the text of its file name |
| DownloadSafety.WaitingIsFree | utils/peer2peer.c:272-293 | no running worker and no finished one counts for a piece that is handed out again |
| DownloadSafety.StepKeeps | utils/peer2peer.c:189-476 | every step of coordinator, worker, failure, crash and new call keeps the invariant, whatever bytes the peers send |
| DownloadSafety.MutualExclusion | utils/peer2peer.c:252-299 | in every run a flag is 1 exactly while one single worker uses the peer, no two workers write one file unless it is empty, and after the merge none is left |
| DownloadContents.AppendPrefix | utils/peer2peer.c:374-382 | appending any part of what the worker asked for leaves a prefix of its piece |
| DownloadContents.AllReady | utils/peer2peer.c:272-297 | a scan that hands nothing out means that every piece is there in full |
| DownloadContents.SaveGood | utils/peer2peer.c:295-345 | the merge that follows such a scan ends right: with the source file if and only if it fits the disk |
| DownloadContents.StepGood | utils/peer2peer.c:355-476 | every step in which the right bytes arrive, if any do, keeps all temporary files prefixes and the merged file right, good file names or not |
| DownloadContents.DownloadCorrect | utils/peer2peer.c:189-345 | in every run in which the peers send the right bytes, with any interleaving, failures, crashes and piece counts, a merged file equals the source if and only if each piece fits the disk |
| DownloadContents.TempFilesArePrefixes | utils/peer2peer.c:355-476 | in every such run, at every moment, each temporary file holds a prefix of the range in its name |
| DownloadResume.BytesStay | utils/peer2peer.c:189-476 | in every step a temporary file goes if and only if it is swept away or merged, and else keeps its bytes, behind which others may come |
| DownloadResume.BytesSurvive | utils/peer2peer.c:222-262 | so it keeps them in every run, through crashes and new calls |
| DownloadResume.AsksRest | utils/peer2peer.c:374-393 | a worker asks for the bytes behind those that are in its file, up to the end of its piece; the file is there from then on |
| DownloadResume.ResumeAsksRest | utils/peer2peer.c:254-293 | after any history, in every run of a call, the bytes that were there when it began are there whenever a worker opens their piece, and it asks for exactly what is lacking |
| DownloadResume.CrashAndResume | utils/peer2peer.c:201-262 | at every moment of a call the program may crash and start again, with all files, no workers and all peers free |
| DownloadResume.CallAfterCall | utils/peer2peer.c:189-262 | when a call is over another may begin with the files there are, or exactly those that are not kept are deleted |
| DownloadResume.WorkerMayFail | utils/peer2peer.c:355-476 | exactly when a worker may be refused, ask, get a block, lose its connection, fail to write, or end |
| DownloadResume.FailureFlags | utils/peer2peer.c:364-476 | a lost connection flags the peer with 2, a failed write and an end with 0, and no other flag or file changes |
| DownloadResume.SweptIsFresh | utils/file_monitor.c:307-325 | when all temporary files are deleted, the next call for any version is a fresh one |
| DownloadTermination.BoundedWork | utils/peer2peer.c:236-300 | in every run a call has started at most one worker per piece, one more per dead peer and one more per failed local write |
| DownloadTermination.StepDecreases | utils/peer2peer.c:266-300 | every step inside a call lowers a measure, a failed local write excepted, which may add one worker's cost to it |
| DownloadTermination.CallIsShort | utils/peer2peer.c:189-345 | a call takes at most an explicit number of steps, given its peers, pieces, file length and failed local writes |
| DownloadTermination.NeverStuck | utils/peer2peer.c:282-284 | while one peer is alive some step is possible until the file is merged |
| DownloadTermination.RunStops | utils/peer2peer.c:266-300 | in every run of a call in which only finitely many local writes fail, only finitely many steps are taken, whatever the peers do |
| DownloadTermination.DownloadTerminates | utils/peer2peer.c:266-345 | in every run in which one peer never fails and finitely many local writes do, the call ends if and only if the run is fair |
| DownloadTermination.SilentPeerBlocks | utils/peer2peer.c:266-284 | while one running worker takes no step, no steps of the others and of the coordinator lead to the merge |
| DownloadOutcome.EndsIfServed | utils/peer2peer.c:266-345 | in a run whose coordinator goes on the call ends if and only if every running worker sooner or later takes a step of its own |
| DownloadOutcome.SilentOwnerBlocks | utils/peer2peer.c:236-300 | after any history, a fresh call that asks a silent owner for a piece that is not empty never ends, whatever the others do |
| DownloadOutcome.NobodyServesBlocks | utils/peer2peer.c:282-284 | after any history, a call with an incomplete piece and no owner that serves never ends |
| DownloadOutcome.DoomedNeverEnds | utils/peer2peer.c:528-573 | a call for a version without leftover pieces never ends if an owner with a piece to send is silent or none serves |
| DownloadOutcome.ServedCallEnds | utils/peer2peer.c:189-345 | a call with an owner that serves, whatever it serves, ends if and only if all its workers are served |
| DownloadOutcome.EndsRightly | utils/peer2peer.c:295-345 | after any history in which the peers sent what they should, a call of which that is true too leaves the source when it ends, as far as it can be written |
| BadNames.HandedOutWrongly | utils/peer2peer.c:286-292 | for a name the parser loses, the piece can always be handed out again, negative numbers in the parsed name included, and the worker then works on the file of no piece |
| BadNames.BadNameNeverEnds | utils/peer2peer.c:266-300 | once nobody writes an incomplete piece of such a file, no steps complete it or end the call |
| BadNames.FreshEndsExactly | utils/peer2peer.c:232-300 | a fresh call for such a file ends in a fair run if and only if every first worker whose piece has bytes completes it |
| BadNames.ResumeNeverEnds | utils/peer2peer.c:254-300 | after any history, a resumed call for such a file with an incomplete piece never ends |
| Calls.AnyBytes | utils/peer2peer.c:201-293 | of the version a call is for, only the length matters to it |
| Calls.SendersLeave | utils/peer2peer.c:232-345 | if every owner with a piece sends, a fresh call ends and leaves the pieces as their owners send them, good file name or not |
| Calls.MixExactly | utils/peer2peer.c:526-541 | that is the source if and only if each owner agrees with it on its own piece |
| Calls.SilentLeaveNothing | utils/peer2peer.c:528-573 | a silent owner with a piece to send keeps every fresh call for ever |
| Calls.CallExactly | utils/peer2peer.c:189-345 | if no owner with a piece refuses, what a fresh call leaves is exactly that, or nothing if one of them is silent |
| Calls.HoldersLeave | utils/peer2peer.c:266-345 | if some owner sends the source and all others send it or refuse, every fresh call ends with the source |
| Calls.NobodyLeavesNothing | utils/peer2peer.c:282-284 | if nobody sends, a fresh call for a file with bytes never ends |
| Calls.SomeCall | utils/peer2peer.c:189-345 | whatever the owners are, there is such a call |
| Calls.OneOutcome | utils/peer2peer.c:189-345 | every such call leaves one thing, or nothing for ever |
| Net.BytesRoundTrip | utils/peer2peer.c:412-418 | a number sent as bytes is read back if it fits them |
| Net.Socket.RecvAll | utils/peer2peer.c:411-437 | the receive loops get exactly the bytes asked for, in whatever portions, or find the connection over |
| Net.ArrivedByte | utils/file_monitor.c:166-171 | when fewer bytes than an int come, the others are those that were there before |
| Transfer.DownloadPiece | utils/peer2peer.c:398-465 | the receiving loop appends and answers what the specification says, for any stream, any portions and any room on the disk |
| Transfer.UploadPiece | utils/peer2peer.c:532-567 | the sending loop produces the encoding of the requested range, zeros behind the end of the file |
| Transfer.FrameBytes | utils/peer2peer.c:545-560 | a block travels as its packed length in eight bytes and the packed bytes |
| Transfer.LongBlockKept | utils/peer2peer.c:447-465 | a block with more bytes than are still wanted is appended whole |
| Transfer.TransferCorrect | utils/peer2peer.c:401-465 | wherever the stream breaks off or the disk is full, the receiver has a prefix, never more than asked for, of whole blocks unless the disk was full; it says complete if and only if all arrived and fitted, and then has all |
| WorkerRefinement.WorkerRefines | utils/peer2peer.c:401-474 | for every stream and any room on the disk the receiving loop's effect is that of a sequence of the worker's steps in the transition system |
| Tables.SyncedPoint | utils/file_monitor.c:339-441 | merging a report acts on each name by itself: inserted, deleted, kept, replaced or given one more owner |
| Tables.SyncedExactly | utils/file_monitor.c:339-441 | after the list merge a name is there if and only if it is reported, or was there and was not the client's; its state and its owners are exactly as the newer, the same or the older version asks for |
| Tables.SyncRefinesMerge | utils/file_monitor.c:339-441 | the two-phase list merge is the merge of maps and keeps names unique |
| Tables.OrderIrrelevant | utils/file_monitor.c:383-440 | as a map the result does not depend on the order of the report or of the tracker's list |
| Tables.UpdatedOwners | utils/file_monitor.c:411-437 | with a newer version the client becomes the only owner; else every owner stays, in order and once, and the client is one more if and only if it has the same version |
| Tables.SwapRemoveExact | utils/file_monitor.c:447-458 | swap-remove removes a peer completely if and only if it was listed at most once, and keeps the others |
| Tables.SwapRemoveMoves | utils/file_monitor.c:451-455 | the last owner takes the place of the peer's first entry, the others keep theirs |
| Tables.DropRefines | utils/file_monitor.c:444-461 | removing a peer on the list is removing it on the map |
| Tables.RoomFor | utils/file_monitor.c:433-436 | an entry the client does not own has fewer owners than there are connected peers |
| FileTables.FileNode.FindPeer | utils/file_monitor.c:425-432 | the loop finds the first position of a peer among the owners, or that it is none |
| FileTables.FileNode.MergeReport | utils/file_monitor.c:411-437 | the three branches make of a node what the specification of the merge says; if the report is not newer all owners stay, in order |
| FileTables.FileNode.DropPeer | utils/file_monitor.c:447-458 | one node loses a peer by swap-remove |
| FileTables.FileTable.FindBefore | utils/file_monitor.c:387-395 | the loop stops before the first node with a name, or there is none |
| FileTables.FileTable.UnlinkAfter | utils/file_monitor.c:369-372 | one entry is gone, the list stays well linked |
| FileTables.FileTable.AddReported | utils/file_monitor.c:400-410 | a new entry with the client as only owner stands first |
| FileTables.FileTable.PurgeFor | utils/file_monitor.c:345-380 | exactly the entries the client owned and does not report are unlinked |
| FileTables.FileTable.MergeNext | utils/file_monitor.c:384-440 | one reported entry is inserted or merged in place |
| FileTables.FileTable.SyncFromClient | utils/file_monitor.c:339-441 | the linked list ends as the specified merge, every write to an owner array is inside it, owners stay connected peers |
| FileTables.FileTable.DeleteDisconnPeer | utils/file_monitor.c:444-461 | every entry of the linked list loses the peer |
| FileTables.FileTable.SendFileTable | utils/file_monitor.c:146-164 | the number of nodes is sent, and then the head and every entry in list order |
| FileTables.InReport | utils/file_monitor.c:346-354 | the loop tells whether the report has a name |
| Tracker.StepKeeps | utils/file_monitor.c:339-461 | every event keeps owners duplicate-free, connected, and in their latest report |
| Tracker.NoSpuriousDeletion | utils/file_monitor.c:345-380 | in every run a report deletes a name if and only if the client owned it and does not report it; then its previous report had it |
| Tracker.OwnerStays | utils/file_monitor.c:345-461 | in one event an owner stops being listed if and only if it disconnects, an owner does not report the name, or somebody else reports a newer version |
| Tracker.OwnerStaysInRun | utils/file_monitor.c:345-461 | in every run without that it stays listed |
| Tracker.ReporterOwns | utils/file_monitor.c:396-437 | a client that reports a name is an owner afterwards if and only if it was one, the name is new, or its version is not older; the entry has the newer state |
| Tracker.WhoMay | src/server.c:19-103 | up to 200 clients may be connected; connected ones report and leave |
| Tracker.ArrayBound | utils/file_monitor.c:427-436 | in every run with at most 200 clients no entry has more than 200 owners, and none that can still grow has 200 |
| Tracker.DisconnectForgets | src/server.c:144-148 | in every run a disconnected peer is left in no entry, and the other owners stay |
| Tracker.AccurateExactly | utils/file_monitor.c:411-436 | a report keeps every owner's last reported time equal to the entry's if and only if it gives no owned file with an older time |
| Tracker.OwnersHaveNewest | utils/file_monitor.h:31-33 | in every run in which no client takes a time back, every owner last reported the file with exactly the entry's time |
| Tracker.OldCopyStaysListed | utils/file_monitor.c:412-414 | without that a concrete run leaves a client listed that has only an older copy |
| Tracker.OwnerlessExactly | utils/file_monitor.c:411-461 | an entry is left without an owner exactly if its last one disconnects, or it had none and nobody reports this or a newer version |
| Tracker.Server.HandleFileUpdate | src/server.c:129-137 | the linked list follows the system through a report, and what is broadcast is the count of nodes, the head, and the new table |
| Tracker.Server.HandleDisconnect | src/server.c:144-148 | the linked list follows the system through a disconnect |
| Reconcile.PruneEnd | utils/file_monitor.c:248-265 | what is left is what was there but for the subtrees of listed names that the table does not have |
| Reconcile.BelowFile | utils/file_monitor.c:294-300 | nothing lies below a file of the table, so deleting it takes nothing else with it |
| Reconcile.RoundResult | utils/file_monitor.c:268-305 | one round of the second loop gives its name the final state for every outcome of its download and spoils no other, folders made on the way included, for any list of the last scan |
| Reconcile.Client.PruneLoop | utils/file_monitor.c:248-265 | for any list the first loop deletes the subtrees of the listed names that the table lacks and nothing else, and answers whether there were any |
| Reconcile.Client.InstallLoop | utils/file_monitor.c:267-305 | for any list the second loop ends if and only if no download it starts goes on for ever; it gives the names it has looked at their final state, and answers whether some name of the table was not listed or listed as older |
| Reconcile.Client.Rescan | utils/file_monitor.c:327-331 | the recursive scan gives a list with each name once that as a table is the report of the directory |
| Reconcile.Client.SyncWithServer | utils/file_monitor.c:241-336 | for any list of the last scan the call ends if and only if no download it starts goes on for ever; the table is then applied name by name as `AppliedAt` says; if there was anything to do by the list, the list is the directory's report and the time of the last scan is reset, else all stays; scans are on again. If it does not end, scans stay off, and the file whose download goes on is gone if it was listed |
| Reconcile.AppliedOk | utils/file_monitor.c:520-540 | after it every entry's ancestors are folders and no type is other than the table's |
| Reconcile.UpToDateApplied | utils/file_monitor.c:241-336 | if the list is up to date, exactly the table's names are left, each with its own result, and the call ends and finds something to do as the directory itself says |
| Reconcile.LaggingList | utils/file_monitor.c:248-305 | what becomes of a file that was saved, deleted or changed since the last scan |
| Reconcile.ReconciledExactly | utils/file_monitor.c:248-305 | the call ends with the table's names and the newer time of each file if and only if every file to fetch has an owner and its download brings the version; what was not delivered is missing |
| Reconcile.AppliedAgain | utils/file_monitor.c:241-336 | applying the same table again finds nothing to do if and only if every file to fetch was put in place |
| Reconcile.ScanReports | utils/file_monitor.c:110-142 | the list made from scanned items has each name once, and as a table is the report the other results speak of |
| Fetching.SomeAnswer | utils/peer2peer.c:189-345 | whatever the listed owners have, a download has an answer |
| Fetching.NamesDistinct | utils/peer2peer.c:374 | different paths have different names in messages and temporary files |
| Fetching.VersionsDistinct | utils/peer2peer.c:374 | different files, and different times of one, are different versions, and so have different temporary files |
| Fetching.AnswerExactly | utils/peer2peer.c:189-345 | if the owners with a piece to send can be reached, given bytes come if and only if each of these owners has something under the name that is, byte for byte, equal to them on its piece, and the call never ends if and only if one of them has nothing |
| Fetching.SureComes | utils/peer2peer.c:364-369 | the bytes also come if some listed owner has them and each of the others has them or is another client that cannot be reached |
| Fetching.NobodyThere | utils/peer2peer.c:282-284 | if no listed owner can be reached and has anything under the name, the call for a file with bytes never ends |
| Fetching.HeldIsFetched | utils/file_monitor.c:267-305 | if what is needed can be had from its owners in one of these ways, the call ends with the newer version of every file |
| Fetching.FollowsExactly | utils/file_monitor.c:241-336 | for reachable owners the call ends with the newer version of every file if and only if each needed file has owners and each owner with a piece to send has something that agrees with the version on that piece |
| Fetching.LackingHangs | utils/peer2peer.c:528-573 | a listed owner without the file, the client itself included, keeps the call for ever if there is a piece to ask it for |
| Convergence.SyncThenReportJoins | utils/file_monitor.c:384-440 | a client whose downloads brought what they should and that reports deletes and adds nothing, raises each file to the newer time, and owns what it has in the newest version |
| Convergence.SyncThenReportOwns | utils/file_monitor.c:423-437 | right after such an application of the tracker's table, its report makes it an owner of every entry |
| Convergence.OwnersHold | utils/file_monitor.h:31-33 | while owner lists are accurate and all have what they last reported, what a client must fetch is held by all listed owners, and it is none of them |
| Convergence.RunSizes | utils/file_monitor.c:400-437 | if all reports give the versions' sizes, so does the table after every run |
| Convergence.MaySettle | src/server.c:129-137 | after every run in which no client takes a time back such a round may start |
| Convergence.QuietRound | src/server.c:129-137 | if all clients apply the table, report in any order and apply the result, each fetching from what the others have, there are answers, all calls end whatever they are, and tracker and clients agree on names and times, which are the newest there were anywhere, and each file has the bytes of its time |
| Convergence.QuietForever | src/server.c:129-137 | after such a round, whatever reports of the settled directories, connections and disconnects follow, no name or state changes at the tracker and no client finds anything to do |
| Convergence.OwnerlessFileIsLost | utils/file_monitor.c:294-303 | a run of two clients gives one of them a table in which a file has no owner, and it loses its older copy |
| Convergence.OwnFileHangs | utils/file_monitor.c:279-283 | a run leads to a table for which a client that has deleted its file asks itself for ever |
| Convergence.OldCopyHangsOrSpoils | utils/file_monitor.c:291-302 | after a run in which a client puts back an older copy, it asks itself for ever, and another client gets the older bytes with the newer time |
| Delivery.TrackerRuns | src/server.c:117-148 | in every run the tracker does a run of `Tracker`, of the reports in the order in which they come out of the queues, and the clients are those connected to it |
| Delivery.Queues | src/server.c:129-137 | a merge puts the new table behind the queue of every client, whoever reported, and no step changes any other queue, list or directory than its own |
| Delivery.Newcomer | src/client.c:154-172 | a client that joins has scanned nothing and been sent nothing |
| Delivery.FollowedList | utils/file_monitor.c:327-331 | after a table was applied the list is up to date, or as it was, with the directory, if there was nothing to do by it |
| Delivery.UnheardRun | utils/file_monitor.c:248-265 | until its report is merged, a new file survives any run if and only if its client applies no table while it lists the file or a folder above it that the table lacks |
| Delivery.SavedFileSurvives | utils/file_monitor.c:248-283 | a saved and reported file is there when its own table arrives if and only if no such table was applied and no older one was on its way; if it is there it stays, if it is gone the call for its own table never ends |
| Delivery.SavedInTime | utils/file_monitor.c:248-265 | a run in which a table without the file is applied after it was saved and before it is scanned, and the file is still there when its own table arrives |
| Detector.ScanFolder | utils/file_monitor.c:90-144 | for every order of the directory the scan lists the visible entries once each, and finds a change if and only if the folder's time, or that of a file or folder seen below it, is not before the last scan |
| Detector.Monitor.FileTableUpdate | utils/file_monitor.c:45-69 | when switched on it rebuilds the table, answers true if and only if the root's time or that of a visible file or folder is not before the last scan, and sets the time; when off it changes nothing |
| Detector.StepKeepsExactly | utils/file_monitor.c:45-69 | a local change, a scan or a synchronisation step keeps unreported changes noticeable if and only if it is no change that only an entry of unknown type shows |
| Detector.NoLostChange | utils/file_monitor.c:90-144 | in every run of such steps, whenever scans are on and the present table is unreported, the next scan finds a change and reports exactly that table |
| Detector.NoFalseAlarm | utils/file_monitor.c:45-69 | once every time is before the last scan, in every run of ticks, scans and synchronisations that change nothing no scan finds a change and nothing is reported |
| Detector.ScanSettles | utils/file_monitor.c:56-64 | a scan at a clock behind every time leads there |
| Detector.SyncSwitches | utils/file_monitor.c:241-336 | from its start to its end a synchronisation keeps scans off; it resets the time of the last scan if and only if it has changed something |
| Detector.HiddenNames | utils/file_monitor.c:112 | temporary files and names with a leading dot are in no scan, all other names of visible folders are |
| Detector.UserChanges | utils/file_monitor.c:90-138 | the user's changes set the time of what is changed, creating and deleting also that of the folder around it, and change nothing else |
| Detector.LostExactly | utils/file_monitor.c:123-138 | after every such run, one more step loses a change if and only if it is a change of the excluded kind |
| Detector.StaysLost | utils/file_monitor.c:45-69 | a lost change stays unreported however often the directory is scanned |
| Detector.LinkChangeIsLost | utils/file_monitor.c:123-138 | a run from the start of a client loses the change of an entry that is neither file nor folder |
| Wire.RecvNodes | utils/file_monitor.c:179-234 | the node loop gets the nodes whatever the portions, with the sender's address in peers[0] of the head and all else as sent, or never returns |
| Wire.RecvFileTable | utils/file_monitor.c:166-239 | a table is read, or null, or waited for, as the stream, its end and the count say |
| Wire.HandleStream | src/server.c:117-141 | the receive loop computes the specified events for every way the node bodies arrive and every end of the stream |
| Wire.StreamUnderstood | src/server.c:117-141 | any sequence of whole messages is understood one for one, each table as it was sent but for the sender's address in peers[0] of its head |
| Wire.MessageBytes | utils/file_monitor.c:146-164 | where the bytes of signal, count and nodes stand in a message |
| Wire.UnknownSkipped | src/server.c:117-141 | an int that is no signal is passed over |
| Wire.BadCountIsNull | utils/file_monitor.c:166-178 | a table that counts no nodes, or a negative number, is null |
| Wire.CutStream | utils/file_monitor.c:166-194 | for every point inside a message at which the connection may end: the messages before are understood, and the handler waits for ever, follows a null table or ends, exactly as the bytes that came decide |
| PeerTables.PeerTable.Add | utils/tracker_peer_table.c:10-18 | a new peer stands first |
| PeerTables.PeerTable.UpdateTimestamp | utils/tracker_peer_table.c:20-28 | the peer's first entry gets the time; an unlisted peer is not added |
| PeerTables.PeerTable.Delete | utils/tracker_peer_table.c:30-40 | the peer's first entry is gone |
| PeerTables.PeerTable.LiveCheck | utils/tracker_peer_table.c:68-82 | the loop is exactly a filter for peers heard of in the last 11 seconds |
| PeerTables.NeverReadded | utils/tracker_peer_table.c:20-28 | an evicted peer is not brought back by heartbeats |
| PeerTables.EntryAfter | utils/tracker_peer_table.c:10-82 | what becomes of every entry: a heartbeat sets the peer's own time and nothing else, a leaving peer takes its own entry along, a check those not heard of for more than 11 seconds, and only a joining peer comes in |
| PeerTables.EvictedExactly | utils/tracker_peer_table.c:68-82 | in every run a connected peer is still listed if and only if no check found its last heartbeat more than 11 seconds old |

## Left out

- Sockets, host names, port search, authentication, signals and printing (utils/network.c, most of src/client.c, src/server.c:19-103): plumbing without a hard property.
- A resumed download in `Fetching`, which may do without asking an owner whose piece is already there; the answers are those of calls without leftover pieces.
- Calls.CallExactly: owners that refuse a piece, while others are silent or send something else. The piece then goes to the first free peer, so that what is left depends on who is free first; `Calls.HoldersLeave` and `Calls.NobodyLeavesNothing` have the cases in which it does not, for names that survive parsing (for others see `BadNames`).
- The inside of zlib (utils/compression.c), and failures to compress.
- A crash during the merge: the target is then truncated and pieces are removed one by one, so a crash step is allowed only before it.
- DownloadTermination.DownloadTerminates: runs in which local writes fail again and again, as on a disk that stays full; the piece is then handed out again for ever.
- Unlocked races on the shared tables and on a client's socket. The buffering of writes, which decides when a full disk is noticed.
- The fixed 256-byte and 20-byte character buffers of names; strings here have no limit.
- The number of files that `find` counts (utils/peer2peer.c:225-260) is any positive number, and a call may start afresh with temporary files present: more runs than the program has.
- The time zone shift of `set_mtime`, and the commented-out single-peer transfer (utils/peer2peer.c:17-155).
- Wire.HandleStream: an int that was sent whole and yet comes out of recv in parts; the handler would take the first part for the number.
- Changes between file and folder under one name, tables with entries that are neither (the program makes folders of them elsewhere, and may later replace the entry itself by a folder), and tables in which an entry's parent is missing: excluded in `Reconcile`, where the order of the list then decides what is left. Tables with hidden names, which no scan reports, are excluded there too.
- The report a client sends is passed to `SyncFromClient` as a sequence, since that procedure only reads it; the in-memory list of a client is a sequence that is replaced as a whole.
- Creating a missing shared directory at the first scan (utils/file_monitor.c:99-109).
- Reconcile.Client.SyncWithServer: the times of folders are given to it instead of following from its commands, and the deletion of leftover temporary files is not part of it, but the step Sweep of `Download`.

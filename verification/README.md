# A model of the sporevm guest agent, with proofs

sporevm boots a small guest whose init process is an agent written in C
(`guest/minimal-initrd`). A host talks to it over vsock: it starts commands,
streams their output, resumes streams after a disconnect, copies files in and
out, and carries out the COPY and RUN steps of image builds. This project models
that agent's logic in Dafny 4.11 and proves what it promises, together with the
sharder of the build conformance suite (`scripts/spore_build_conformance_contract.py`).

`dafny verify dfyconfig.toml` checks all of it. No part of the original program is run.

## What is modelled, and what is proved

**Session streaming** (`Bytes`, `Spio`, `Replay`, `Wire`, `Clients`, `Sessions`,
`Agents`). One event loop serves a captured session, one client and at most one
exec op. The objects are classes with the fields of the C structures. Ghost
fields hold the streams, what each connection was sent, and what it sent. What the
world does is left open: what each poll finds, in what pieces bytes arrive, how
many frames a connection takes before a write to it fails, whether a command
starts and whether processes can be killed. For every run:

- what a connection was sent of a stream is a contiguous slice from the offset it
  asked for, and connections that each resume where the last stopped concatenate
  to the stream (`ServedSlices`, `ResumableOutput`);
- a client that is still connected has everything so far (`ConnectedIsUpToDate`);
- a connection that was told an exit status was told the right one, as its last
  frame, and had by then all that the command ever wrote (`ToldHadEverything`);
- an open client has an exec op or a live session behind it, no request displaces
  an exec op, and a replaced client's hangup leaves its successor alone
  (`PollAgent`, `Run`);
- a start request gets its command exactly when what it needs is there, owns the input
  it asked for, and can send from offset 0; what is refused is refused with the code of
  its cause, at the offsets the client asked for (`AcceptRequest`, `StartSession`,
  `AttachSession`);
- a session's output and exit are a function of what was read and waited for,
  whoever is connected, and a client that takes what it is sent and neither hangs up, is
  lost nor offends stays until it is told an exit status (`PollAgent`);
- the status of a RUN step is told only with its descendants gone and its mounts
  down, without an exec op and without poison no mount is up, and a poisoned agent
  refuses every later request (`StepBuildExec`, `Run`, `AcceptRequest`). The agent
  holds the two mount states and the set of mounts that are up (`MountTables`), and
  any mount, remount, unmount or close may fail;
- no connection was sent more than one exit status, or anything after it (`ExitIsLast`);
- what a client sends is taken in whole frames and accepted in order, accepted input is
  written in order, with nothing lost at a clean close, and however the bytes of frames
  are cut up, the frames handled are those frames (`PollAgent`, `InputIsFifo`,
  `DrainStdin`, `HandleFrame`, `PumpClient`, `HandledIsSent`).

**Rootfs transactions** (`Tree`, `PathText`, `ConfinedWalk`, `WalkedLinks`, `Rootfs`, `LinkLayer`,
`LinkCopy`, `TargetDirectories`, `MountTargets`, `RunMounts`, `MountTables`,
`TargetLists`). A file system is a map from paths to nodes with inode numbers.

- COPY with the LINK policy is stacking a layer that does not depend on the root,
  so applying it twice is applying it once: every file arrives with its data, bits and
  owner, every link with its target, all else stays, and hard links are kept exactly
  (`Apply`, `LayerIsIndependent`, `LinksPreserved`);
- the mounts of a RUN step are a transaction: they are all up or none is and the
  rootfs is as it was, or the agent is poisoned; a cleanup that returns 0 leaves none of
  them up, and the rootfs is then as it was but for what the step added (`SetupRun`,
  `CleanupRun`, `RunTransaction`);
- the confined symlink walk ends, computes the recursive in-root resolution, and
  what it opens without following links is what it resolved (`Walk`, `ConfinedOpen`); a
  path through a link leads where the characters of its target say, and never out of
  the root (`AbsoluteLink`, `RelativeLink`).

**Requests** (`Utf8`, `Json`, `JsonText`, `JsonValues`, `JsonMoves`, `MemberNames`, `MemberValues`,
`MemberMoves`, `MemberReader`, `MemberTexts`, `RequestRules`, `Requests`, `RequestLayout`,
`RunRequests`, `RequestTexts`, `Generation`, `GenerationTexts`).

- The readers agree with recursive grammars, and strings decode to well-formed UTF-8
  (`ParseString`, `SkipValue`, `ReadValue`);
- every value is read as itself from the text that writes it (`ValueTextReads`,
  `StringReads`, `NumberReads`, `FlagReads`), every JSON value is skipped to its end
  (`ValueReads`), and of any JSON object the generation params are the members the agent
  knows (`ParamsTaken`);
- what every reader makes of a value depends on that value's own bytes (`ValueMoves`), so
  a request's outcome depends on its set of members only, not on their order, on white
  space or on how its names are escaped (`ParseRequest`, `LayoutIsNothing`);
- what can be accepted is exactly the members of a kind, each of its form, that keep the
  kind's rules (`AcceptedExactly`), and the targets of an accepted RUN request are an
  antichain, as the mount setup needs them (`RunTargets`).

**Copies in and out** (`Archive`, `GuestPaths`, `CopyTransfer`, `CopyTarget`, `CopyFiles`).
The guest's tree is found through the kernel's path resolution, links included.

- What is copied in is the in-order payload of the frames up to their close; an existing
  path is never replaced, the temporary directory is gone in every outcome, and unless the
  copy succeeds the tree is as it was (`Receive`, `CopyIn`);
- the extractor accepts exactly the archives that hold a tree (`ExtractInto`), and whatever
  can be copied out arrives and is made as the same tree, file by file with its data, and
  nothing else (`CopyOutAndIn`). Directories are
  made with `mkdir`, so the process's umask, a parameter here, applies to them.

**Filter programs** (`Filters`) and the **sharder** (`Sharder`): each filter program against
its policy, and the partition with its load bounds, among them what placing the heaviest
cases first is for (`LightestCaseBounds`). Case names are unique, since a case is named by
its directory and selecting cases removes repeats.

## Where a promise does not hold as it stands

- The walk lets dot and dot-dot step out of a regular file, which the kernel refuses
  (`DotDotLeavesFile`), and reads at most 512 characters of a link target
  (`LongTargetIsCut`). Where it reads the targets it meets whole, it agrees with the kernel
  exactly when each step is taken from a directory or it says not a directory itself
  (`WalkIsKernelResolution`).
- A mount setup that fails does not always restore the rootfs. When a missing directory
  of a target can be made and a later directory of that target has a name of more than
  255 characters, what was made cannot be found again, and the agent is poisoned
  (`LongNamePoisons`). As long as unmounting and closing work, the only other case is a
  bind's source that was lost while it was opened (`SetupRun`, `FittingNamesNeverPoison`).
  For a bind the last component is no directory, so its length does not matter here.
- A file with a name of 236 to 255 characters can be copied out but never in: its temporary
  sibling's name is at least 20 characters longer and the kernel refuses it. With a longer
  process id shorter names are hit too; the exact condition is `NoPlace`
  (`LongNameIsAccepted`, `LongNamesHaveNoPlace`, `ReserveTmpDir`).
- `stdin_close_pending` is never set: a frame is handled only while nothing is pending, so a
  close finds nothing pending (`InputIsFifo`).
- The comment above `close_client_input_lost` says that an owner's disconnect closes the
  session's input (session_io.c:305-309). A client that hangs up is closed with
  `close_client`, which leaves it open (`OwnerHangsUp`). Open standard input ends with its
  owner's hangup exactly when the client was readable in that poll, not in a RUN step, with
  nothing pending, and its bytes then came to a loss, to an offending frame or to the end
  of the input (`ClientEvent`).

## Model

| member | source | states |
|---|---|---|
| `PathText.ValidEntryPath` | guest/minimal-initrd/build_copy.c:96-114 | the scan accepts a text exactly when it is an absolute path of at most 512 characters spelled with plain components only; the same scan serves mount targets |
| `PathText.SplitJoin` | guest/minimal-initrd/build_copy.c:116-137 | joining components and splitting the text again gives the components back |
| `PathText.SplitSpelled` | guest/minimal-initrd/build_copy.c:96-114 | the same for the absolute spelling |
| `PathText.EntryPathIsShort` | guest/minimal-initrd/build_copy.h:18-21 | an accepted path has between 1 and 256 components |
| `PathText.ValidSourcePath` | guest/minimal-initrd/build_copy.c:1237-1256 | the scan accepts a text exactly when it is a dot, or a relative path of at most 512 characters spelled with plain components only |
| `ConfinedWalk.PopPending` | guest/minimal-initrd/build_copy.c:139-159 | takes the first component off the pending text: the components of the text are that one followed by those of the rest, and the text shrinks; refused only when the text is past the buffer |
| `ConfinedWalk.AppendComponent` | guest/minimal-initrd/build_copy.c:116-128 | the text that results is the spelling of the path with one more component and splits into just those components; refused exactly when that spelling does not fit the buffer |
| `ConfinedWalk.PopComponent` | guest/minimal-initrd/build_copy.c:130-137 | cutting at the last slash removes the last component, and the empty path stays empty |
| `ConfinedWalk.Prepend` | guest/minimal-initrd/build_copy.c:161-178 | the components of a link target go before those still pending; an empty target is invalid, and only text past the buffer is refused as too long |
| `ConfinedWalk.WalkStep` | guest/minimal-initrd/build_copy.c:246-284 | each turn lowers the pair of link budget and pending length, and leaves the answer of the recursive resolution unchanged |
| `ConfinedWalk.Walk` | guest/minimal-initrd/build_copy.c:228-285 | the loop terminates and computes the recursive in-root resolution with a budget of 40 links, unless a text outgrew its buffer, which a bound on the texts met rules out |
| `ConfinedWalk.ResolvedIsReal` | guest/minimal-initrd/build_copy.c:228-287 | a resolved path is a node of the tree, is no link, and has only real directories above it, whatever dot-dot components and absolute targets were met |
| `ConfinedWalk.NoFollowReachesReal` | guest/minimal-initrd/build_copy.c:180-226 | such a path opened component by component without following links is the same node |
| `ConfinedWalk.OpenNoFollow` | guest/minimal-initrd/build_copy.c:180-226 | the no-follow open of a text is the no-follow open of its components |
| `ConfinedWalk.ConfinedOpen` | guest/minimal-initrd/build_copy.c:228-287 | what is opened is the node the resolution names; every other failure is the failure of the resolution |
| `ConfinedWalk.ResolveSource` | guest/minimal-initrd/build_copy.c:309-362 | the second walker answers with the text of the same resolution, and fails as it fails |
| `ConfinedWalk.WalkIsKernelResolution` | guest/minimal-initrd/build_copy.c:228-303 | when the link targets it meets are at most 512 characters, the walk gives the kernel's answer exactly when each step is taken from a directory or the walk itself says not a directory |
| `ConfinedWalk.KernelNeedsDirectories` | guest/minimal-initrd/build_copy.c:228-303 | the kernel says not a directory exactly where a step is not taken from one, and otherwise what the walk says |
| `ConfinedWalk.DotDotLeavesFile` | guest/minimal-initrd/build_copy.c:251-255 | counterexample: dot-dot out of a regular file is allowed by the walk and refused by the kernel |
| `ConfinedWalk.LongTargetIsCut` | guest/minimal-initrd/build_copy.c:274-279 | counterexample: a link target of 513 characters is cut short and resolves to another node than the kernel says |
| `WalkedLinks.LinkLeads` | guest/minimal-initrd/build_copy.c:270-284 | at a link whose target is at most 512 characters, an absolute target goes on from the root and any other from the directory of the link, for the walk and for the kernel; said of the target's own characters |
| `WalkedLinks.AbsoluteLink` | guest/minimal-initrd/build_copy.c:270-284 | a path through a link to an absolute path leads to that path and what is below it, wherever the link stands |
| `WalkedLinks.RelativeLink` | guest/minimal-initrd/build_copy.c:251-284 | a path through a link to some dot-dots and a path leads there from the directory of the link, and dot-dots past the root stay at the root |
| `Rootfs.EnsureParentDirs` | guest/minimal-initrd/build_copy.c:392-434 | below real directories exactly the missing ones are made, with mode 0755, and nothing else changes; at anything else that is no link it fails and nothing has changed |
| `Rootfs.EnsureConfinedDirectory` | guest/minimal-initrd/build_copy.c:1267-1285 | an existing directory is left alone, a missing one below real directories is made with those above it, with mode 0755, and nothing else changes; where something that is no directory and no link is in the way it fails and nothing has changed |
| `Tree.OverlayTwice` | guest/minimal-initrd/build_copy.c:442-604 | stacking two layers one after the other is stacking their union, when the second hides nothing of the first |
| `Tree.OverlayIdempotent` | guest/minimal-initrd/build_copy.c:442-604 | stacking a layer twice is stacking it once |
| `LinkCopy.RemoveTree` | guest/minimal-initrd/build_copy.c:442-485 | everything at or below the path goes and nothing else, in whatever order directories are listed, and is counted once each; failure means more than the limit of entries or of depth |
| `LinkCopy.RemoveChildren` | guest/minimal-initrd/build_copy.c:456-484 | the same for the entries of a directory |
| `LinkCopy.RemoveChild` | guest/minimal-initrd/build_copy.c:464-476 | one turn of that loop removes one more child and its subtree |
| `LinkCopy.Clear` | guest/minimal-initrd/build_copy.c:487-522 | nothing is left at or below the destination, the rest of the root stays, and what was removed of a directory counts in full against the limit |
| `LinkCopy.EnsureLinkDirectory` | guest/minimal-initrd/build_copy.c:524-577 | the path becomes a directory with the given metadata; a directory keeps its contents, anything else is replaced, no link is followed |
| `LinkCopy.EnsureLinkDirectories` | guest/minimal-initrd/build_copy.c:579-604 | the root afterwards is the root before with the layer of those directories stacked on it, and each of their names fits 255 characters; a longer one fails |
| `LinkCopy.EnsureNextDirectory` | guest/minimal-initrd/build_copy.c:585-602 | one turn of that loop adds one more directory to the layer, and fails at a name of more than 255 characters |
| `LinkCopy.FindLink` | guest/minimal-initrd/build_copy.c:765-786 | finds an entry of the table for the inode if and only if there is one |
| `LinkCopy.Record` | guest/minimal-initrd/build_copy.c:788-810 | appends one entry, growing the table, and refuses exactly at 65536 entries |
| `LinkCopy.CopyFile` | guest/minimal-initrd/build_copy.c:983-1103 | the destination becomes the layer's image of its source file, the one its source inode became before if it was copied before, and the link table stays exact |
| `LinkLayer.LayerArrives` | guest/minimal-initrd/build_copy.c:965-1128 | in a root with the copy layer on it, every file below the source is there with the same data, mode and owner, every link with the same target and owner, every directory with its mode and owner, and the top directory as the builder makes it |
| `LinkLayer.LayerRestStays` | guest/minimal-initrd/build_copy.c:442-604 | and everything else: the directories above the destination are the builder's, what was below a replaced directory is gone, and all other entries are as they were |
| `LinkCopy.CopyLink` | guest/minimal-initrd/build_copy.c:1105-1128 | the destination becomes a link with the same target and ownership |
| `LinkCopy.StampDestination` | guest/minimal-initrd/build_copy.c:892-963 | the destination directory of a copied directory is stamped as the builder makes it, and its contents stay |
| `LinkCopy.CopyChildren` | guest/minimal-initrd/build_copy.c:1174-1207 | after the loop the destination holds the image of every child, in whatever order they are listed |
| `LinkCopy.CopyTree` | guest/minimal-initrd/build_copy.c:1149-1218 | copying a subtree stacks its image at the destination and changes nothing elsewhere; failure has one of the listed causes, and success means that every name fits and nothing is a device, a FIFO or a socket |
| `LinkCopy.CopyLinked` | guest/minimal-initrd/build_copy.c:2059-2080 | the whole copy stacks the copy layer on the root, or fails for a listed cause: a limit, a name of more than 255 characters at the destination or below the source, or a device, FIFO or socket in the source; with one of the last two it never succeeds |
| `LinkCopy.Apply` | guest/minimal-initrd/build_copy.c:1932-2099 | a successful COPY with the LINK policy leaves the old root with the copy layer stacked on it: entry by entry, files with the same data, permission bits and owner, links with the same target and owner, directories likewise, the top one as the builder makes it, and all else as it was; it goes to the destination, or into it under what follows the last slash of the source; it has counted exactly the source entries, preserves hard links, and had only names that fit and entries that can be copied; each refusal has its exact or stated cause, and refusals before the copy leave the root alone |
| `LinkCopy.Destination` | guest/minimal-initrd/build_copy.c:2035-2048 | the text of the destination: a directory goes to the destination itself, anything else into a directory under its own name; refused exactly past 512 characters |
| `LinkCopy.ApplyFrom` | guest/minimal-initrd/build_copy.c:2035-2058 | the same once the source is resolved: which destination path is meant, and when there is none |
| `LinkCopy.ApplyResolved` | guest/minimal-initrd/build_copy.c:2050-2088 | the same once the destination is known: the layer, the links, and the entry count the request announced |
| `LinkCopy.LinksPreserved` | guest/minimal-initrd/build_copy.c:743-810 | two copied files share a destination inode if and only if their sources share one, and none is an inode that was there before |
| `LinkCopy.DirectoriesThenImage` | guest/minimal-initrd/build_copy.c:2059-2075 | stacking the directories first and the image then is stacking the one copy layer |
| `LinkCopy.LayerIsIndependent` | guest/minimal-initrd/build_copy.c:2059-2068 | building the layer on an empty root first and stacking that gives the same root, and applying it twice is applying it once |
| `TargetDirectories.OpenRealSteps` | guest/minimal-initrd/build_copy.c:1304-1332 | opening without symlinks succeeds exactly on a chain of real directories with names that fit |
| `TargetDirectories.PrepareDirectories` | guest/minimal-initrd/build_copy.c:1334-1434 | the component loop opens the real directories there are and makes exactly the missing ones, recording each, and stops at a name that is too long or an entry that is no directory |
| `TargetDirectories.RemoveCreated` | guest/minimal-initrd/build_copy.c:1459-1571 | the removal loop takes away just those recorded directories, still the same inodes, that hold nothing else, deepest first, and says whether it had to stop as its caller demands |
| `MountTargets.EntryPathIsTarget` | guest/minimal-initrd/build_copy.h:18-21 | an accepted target path never has more components than the record table has slots |
| `MountTargets.PrepareCache` | guest/minimal-initrd/build_copy.c:1334-1434 | succeeds exactly when the target can be had, adds exactly the missing prefixes, at most 256, and records them; a failure leaves something behind exactly in the stranding case |
| `MountTargets.PrepareBind` | guest/minimal-initrd/build_copy.c:1685-1828 | the same for a bind, whose own rollback restores the root exactly unless it stranded directories |
| `MountTargets.RollbackRestores` | guest/minimal-initrd/build_copy.c:1628-1683 | rolling back all directories made gives the tree before |
| `MountTargets.CleanupCache` | guest/minimal-initrd/build_copy.c:1459-1571 | when the target and what was made for it are as recorded, exactly the made paths that hold nothing else go; it is a success exactly when nothing was put under a target it made |
| `MountTargets.CleanupBind` | guest/minimal-initrd/build_copy.c:1830-1905 | the same for a bind, always a success |
| `RunMounts.RestoredTwice` | guest/minimal-initrd/build_run.c:409-415 | cleaning newer mounts and then older ones is cleaning both at once |
| `RunMounts.CleanupMounts` | guest/minimal-initrd/build_run.c:231-242 | all targets are cleaned, last first, whether or not one fails; the result is the tree without what only the mounts needed, and success is exact |
| `RunMounts.UnmountAll` | guest/minimal-initrd/build_run.c:211-219 | every bound target is unmounted, last first, whether or not another fails; success exactly when none was stuck |
| `RunMounts.CleanupState` | guest/minimal-initrd/build_run.c:209-339 | the state is cleared whatever happens; returning 0 means that nothing it recorded is still mounted; where the targets are as recorded, the tree and the result are exact |
| `RunMounts.PreparableInTurn` | guest/minimal-initrd/build_run.c:245-307 | whether a target can be had does not depend on the earlier targets |
| `RunMounts.StrandsInTurn` | guest/minimal-initrd/build_run.c:245-307 | nor does whether it would strand directories, once the earlier targets are accounted for |
| `RunMounts.UndoneIsBase` | guest/minimal-initrd/build_run.c:409-415 | cleaning up everything that was built gives exactly the tree it was built on |
| `RunMounts.SetupMounts` | guest/minimal-initrd/build_run.c:245-407 | with any failing source, mount, remount, unmount or close: success exactly when every target can be had and mounted, and then just those are mounted and recorded; failing leaves nothing mounted and the tree as it was; where unmounting works it is uncertain, which poisons the agent, in the stranding case and for a source lost while it was opened, and in no other |
| `RunMounts.SetupNext` | guest/minimal-initrd/build_run.c:356-391 | one target: source, prepare, mount and for a bind the remount, each of which may fail with what is up by then recorded |
| `RunMounts.UndoSetup` | guest/minimal-initrd/build_run.c:394-407 | the fail path: returning -1 means that the tree is as before the setup and nothing of it is mounted; otherwise -2 |
| `RunMounts.SetupRun` | guest/minimal-initrd/agent.c:201-224 | caches and then binds, and the caches taken down when the binds fail: success, failure with nothing mounted and nothing changed, and poison, each with its condition |
| `RunMounts.CleanupRun` | guest/minimal-initrd/build_run.c:409-415 | binds and then caches: both states are cleared, returning 0 means nothing recorded is still mounted, and the tree is that of cleaning all mounts at once |
| `RunMounts.SiblingsStay` | guest/minimal-initrd/build_run.c:409-415 | after a step that only added to the tree the cleanup leaves the original, what was added, and just the made directories that what was added needs |
| `RunMounts.RunTransaction` | guest/minimal-initrd/build_run.c:245-415 | setup, any step, cleanup: nothing stays mounted after a failed setup or a cleanup that returned 0; a step that changes nothing leaves the original tree exactly, one that only adds leaves what it added; cleanup succeeds exactly when nothing was left under a cache target that had been missing |
| `RunMounts.LongNamePoisons` | guest/minimal-initrd/build_run.c:245-307 | counterexample: on a bare root, a cache target with a name of 256 characters below a missing directory cannot be undone and poisons the agent |
| `RunMounts.FittingNamesNeverPoison` | guest/minimal-initrd/build_run.c:245-407 | no set of targets whose names fit 255 characters does that, unless a source was lost while it was opened |
| `MountTables.MountTable.SetUp` | guest/minimal-initrd/agent.c:201-224 | the agent's own mount states: once set up, just the request's mounts are up and recorded; after a plain failure none is up, none is recorded and the rootfs is unchanged; unless the outcome is uncertain, what is up is what is recorded |
| `MountTables.MountTable.TearDown` | guest/minimal-initrd/build_run.c:409-415 | nothing stays recorded, and returning 0 means that none of the recorded mounts is up |
| `TargetLists.OverlapIsPrefix` | guest/minimal-initrd/request.c:310-317 | the text comparison finds exactly the pairs of targets where one is a component prefix of the other |
| `TargetLists.TargetsApart` | guest/minimal-initrd/request.c:873-878 | no two overlap as texts exactly when the targets are an antichain of paths |
| `TargetLists.AcceptTarget` | guest/minimal-initrd/request.c:404-411 | a target is taken exactly when it is a valid path and, for a bind, overlaps none of the agent's own paths |
| `TargetLists.AcceptBeside` | guest/minimal-initrd/request.c:370-373 | exactly when it overlaps none before it |
| `TargetLists.AcceptAcross` | guest/minimal-initrd/request.c:873-878 | exactly when no bind overlaps a cache mount |
| `TargetLists.ListsApart` | guest/minimal-initrd/request.c:863-880 | the checks of both lists and across them hold exactly when all targets together are an antichain |
| `Bytes.ReadWriteLe` | guest/minimal-initrd/util.c:144-176 | reading the little-endian form of a number that fits gives the number |
| `Bytes.WriteReadLe` | guest/minimal-initrd/util.c:144-176 | and writing what was read gives the bytes |
| `Spio.PutFrame` | guest/minimal-initrd/spio.c:14-24 | the bytes of the frame are put at their place and the rest of the buffer stays |
| `Spio.SendData` | guest/minimal-initrd/spio.c:31-44 | each write is a batch of at most 15 whole frames that fits the buffer; the batches are the frames of the data in order, and success means all of them |
| `Spio.ParsesHeader` | guest/minimal-initrd/session_io.c:234-246 | a header that was written is parsed as what was written |
| `Spio.DecodesFrame` | guest/minimal-initrd/spio.c:160-172 | a frame that was encoded is decoded, whatever follows it |
| `Spio.DecodesAll` | guest/minimal-initrd/spio.c:160-172 | the same for any sequence of frames |
| `Spio.ChunksCarryAll` | guest/minimal-initrd/spio.c:31-44 | the payloads of the frames put together are the data |
| `Spio.SentIsRead` | guest/minimal-initrd/spio.c:31-44 | what a reader decodes from the writes that went through are frames of at most 4096 bytes at consecutive offsets that carry the data from its start |
| `Spio.DecodeMore` | guest/minimal-initrd/session_io.c:318-373 | decoding in two parts is decoding at once: what was left over is read with what comes next |
| `Spio.DecodeOne` | guest/minimal-initrd/session_io.c:318-373 | a header and the payload it announces are one frame, and less is none yet |
| `Replay.ReplayBuffer.Append` | guest/minimal-initrd/session_io.c:8-20 | the ring, which held the end of the stream, holds the end of the longer stream: each byte at its offset modulo the capacity, the base at the end less the capacity |
| `Replay.ReplayBuffer.Piece` | guest/minimal-initrd/session_io.c:44-54 | the contiguous piece of the ring at an offset is that part of the stream |
| `Replay.LagSurvives` | guest/minimal-initrd/agent.h:51-58 | an offset that lagged can be resumed after more output if and only if lag and output together fit the ring |
| `Replay.SavedLagSurvives` | guest/minimal-initrd/agent.h:51-58 | the lag of 124 KiB of a save survives 132 KiB of output, and no more |
| `Wire.ChunksContinue` | guest/minimal-initrd/spio.c:31-44 | frames sent at the offset a connection has reached continue its stream in order |
| `Wire.WholeContinues` | guest/minimal-initrd/spio.c:100-110 | a connection that has all of a stream has a contiguous part of the longer stream after some of the frames, and all of it after all of them |
| `Wire.ChainIsStream` | guest/minimal-initrd/session_io.c:44-70 | connections that each resume where the last one stopped together got the stream from the first offset on, with no gap and no repeat |
| `Clients.HandledIsSent` | guest/minimal-initrd/session_io.c:318-373 | however the bytes of a sequence of frames are cut up, the frames handled are that sequence and no frame is begun |
| `Clients.PiecesDoNotMatter` | guest/minimal-initrd/session_io.c:318-373 | two readers that took the same bytes, cut up in whatever way, handled the same frames and stand at the same place in the next |
| `Clients.HeaderDone` | guest/minimal-initrd/session_io.c:323-336 | completing a header completes a frame without payload or begins one with, as a one-shot decoder would |
| `Clients.PayloadGrows` | guest/minimal-initrd/session_io.c:348-366 | the same for payload bytes |
| `Clients.HeaderBreaks` | guest/minimal-initrd/session_io.c:326-331 | a header that does not parse is where a one-shot decoder breaks off |
| `Clients.SentStaysProper` | guest/minimal-initrd/spio.c:100-110 | frames of one stream leave the other stream of the connection as it was |
| `Clients.FarewellIsProper` | guest/minimal-initrd/spio.c:154-158 | a goodbye leaves an exit status as the last frame exactly when both of its frames went out |
| `Clients.RefusedIsProper` | guest/minimal-initrd/spio.c:133-143 | a refusal ends in its exit status if all of it went out, and never has two |
| `Clients.RefusedInPlace` | guest/minimal-initrd/spio.c:133-143 | a refusal stands in its stream at the offset the connection has come to |
| `Clients.ExitSays` | guest/minimal-initrd/spio.c:50-54 | the frame of an exit status carries it: its four bytes are the status in two's complement |
| `Clients.Client.Close` | guest/minimal-initrd/spio.c:80-98 | the connection is closed and remembered, and offsets, ownership and parser are reset |
| `Clients.Client.Connect` | guest/minimal-initrd/agent.c:132-142 | the new connection starts with the offsets and the ownership its request asked for |
| `Clients.Client.SendData` | guest/minimal-initrd/spio.c:31-44 | the bytes go out in the batches of `Spio.SendData`; the connection's log grows by the whole frames it took, no fewer than the full batches that went out, and success means the writes carry all the data |
| `Clients.Client.SendExit` | guest/minimal-initrd/spio.c:154-158 | the timing frame and then the exit status go out, as far as the connection takes them |
| `Clients.Client.SendErrorExit` | guest/minimal-initrd/spio.c:133-143 | the message on standard error, the timing frame and then the status go out, as far as the connection takes them |
| `Sessions.Session.CloseStdin` | guest/minimal-initrd/session_io.c:203-212 | standard input is closed and nothing is pending |
| `Sessions.Session.DrainStdin` | guest/minimal-initrd/session_io.c:214-232 | as many pending bytes are written as the pipe has room for, in order; a pending close happens exactly when all are written, and a broken pipe cuts the input off |
| `Sessions.Session.InputLost` | guest/minimal-initrd/session_io.c:310-316 | the client is closed, and standard input is cut off exactly when the client owned it and it was open |
| `Sessions.Session.SendOutput` | guest/minimal-initrd/spio.c:100-110 | a client at the stream offset gets all frames or is closed because it took no more; a client at another offset is left alone |
| `Sessions.Session.Deliver` | guest/minimal-initrd/session_io.c:88-96 | what was read is in the stream, in the ring, and with the client, which is given up only when it takes no more |
| `Sessions.Session.PumpStream` | guest/minimal-initrd/session_io.c:72-108 | the stream grows by exactly what the reads returned, and the pipe closes exactly when it ended |
| `Sessions.Session.SendReplay` | guest/minimal-initrd/session_io.c:44-54 | the client gets the stream from its offset to the end exactly when the ring still has it |
| `Sessions.Session.CatchUp` | guest/minimal-initrd/session_io.c:56-62 | both streams from the offsets asked for, exactly when both rings have them and the connection takes it all |
| `Sessions.Session.Attach` | guest/minimal-initrd/session_io.c:56-70 | a client whose offsets are available follows the session from them; another is told 125; a finished session tells its status and closes |
| `Sessions.Session.SayGoodbye` | guest/minimal-initrd/session_io.c:429-434 | the connection ends with the exit status of the session, as far as it takes it |
| `Sessions.Session.MaybeSendExit` | guest/minimal-initrd/session_io.c:429-434 | exactly a finished session says goodbye to a client that is there |
| `Sessions.Session.TellEvent` | guest/minimal-initrd/session_io.c:436-452 | the event is sent, or the connection closed |
| `Sessions.Session.HandleFrame` | guest/minimal-initrd/session_io.c:248-303 | accepts exactly the acceptable frames; accepted input is appended at the offset the client has reached, and a clean close loses no accepted byte |
| `Sessions.Session.FeedHeader` | guest/minimal-initrd/session_io.c:323-346 | header bytes make progress, a frame, or nonsense, as the one-shot decoder says |
| `Sessions.Session.FeedPayload` | guest/minimal-initrd/session_io.c:348-366 | the same for payload bytes |
| `Sessions.Session.TakeBytes` | guest/minimal-initrd/session_io.c:322-372 | one receive and what it completes |
| `Sessions.Session.PumpClient` | guest/minimal-initrd/session_io.c:318-373 | what was received and what is left are what came, cut up in whatever way; accepted input is the payloads of the accepted frames; the client is given up only when lost, or for nonsense, or for an unacceptable frame, and then the standard input it owned is closed; while it stays, its input closes only by its own close frame or a broken pipe |
| `Sessions.Session.SendTerminal` | guest/minimal-initrd/spio.c:112-121 | terminal output goes out at the offset the client has reached, or the client is closed |
| `Sessions.Session.PumpTerminal` | guest/minimal-initrd/session_io.c:110-138 | the client gets all that was read from the terminal while it takes it, and the terminal closes exactly when it ended |
| `Sessions.Session.PumpOutput` | guest/minimal-initrd/session_io.c:194-201 | the session takes the output of the pipe that was ready, as a function of what it had, and the client of a terminal is sent all of it |
| `Sessions.Session.PollExit` | guest/minimal-initrd/session_io.c:375-427 | once the child is gone its status is kept, what its pipes or its terminal held is taken, and they are closed; otherwise nothing changes |
| `Sessions.Session.Reset` | guest/minimal-initrd/session_io.c:26-38 | the session is as new |
| `Sessions.Session.Start` | guest/minimal-initrd/session.c:297-549 | a new session with empty streams and open pipes, or none |
| `Agents.Agent.PumpSession` | guest/minimal-initrd/agent.c:525-526 | the session takes its output whoever is connected, and an exec op's client hears nothing of it |
| `Agents.Agent.PumpOp` | guest/minimal-initrd/agent.c:536-537 | the output of the exec op goes to its client |
| `Agents.Agent.ClientEvent` | guest/minimal-initrd/agent.c:516-524 | events of a connection that was replaced since the poll leave its successor alone; a hangup closes the polled client; open standard input that the client owns ends up closed exactly when the client was readable, for no RUN step, with nothing pending, and was then given up for a loss or an offence or ended its input, and in no other case |
| `Agents.Agent.OwnerHangsUp` | guest/minimal-initrd/agent.c:522-524 | counterexample: an owner that hangs up without another byte leaves a live session with its standard input open and nobody to close it |
| `Agents.Agent.Hear` | guest/minimal-initrd/agent.c:519-521 | the client's bytes go to whom it belongs to, and none is lost; it is given up only for a loss or an offence; its open input closes exactly when it is given up or ended it |
| `Agents.Agent.TellPressure` | guest/minimal-initrd/session_io.c:436-452 | only a client of a running session is told, and not while an exec op holds it |
| `Agents.Agent.SessionExit` | guest/minimal-initrd/agent.c:545-546 | the session notices its child and tells its client, which is closed then or because it took no more |
| `Agents.Agent.CleanUpRun` | guest/minimal-initrd/build_run.c:464-482 | the descendants go and then the mounts; halted exactly when the descendants cannot be killed, with the client told so |
| `Agents.Agent.StepBuildExec` | guest/minimal-initrd/build_run.c:464-482 | the status of a RUN step is told only with its descendants gone and none of its mounts up or recorded; the agent halts exactly when the command ended and its processes cannot be killed |
| `Agents.Agent.StepTransient` | guest/minimal-initrd/agent.c:549-551 | the status of a transient exec is told in the poll it comes |
| `Agents.Agent.AbandonRun` | guest/minimal-initrd/build_run.c:486-500 | a RUN step whose client went first leaves no process and no mount recorded, or the agent halts, exactly when its processes cannot be killed |
| `Agents.Agent.FinishOp` | guest/minimal-initrd/session_io.c:489-496 | the exec op is over, its client closed, and the session's own connections are remembered as they were |
| `Agents.Agent.StartTransient` | guest/minimal-initrd/session_io.c:463-485 | an exec beside a running session has its client, from the start and with the input it asked for, exactly when it wants neither a terminal nor memory pressure and its command starts; otherwise it is told the code of the cause |
| `Agents.Agent.StartBuild` | guest/minimal-initrd/agent.c:187-228 | a RUN step starts with just its mounts up, its client following it from the start and no input; it is refused with the code of the cause when the rootfs is not ready, its command does not arrive, its mounts cannot be had, or it does not start |
| `Agents.Agent.SetUpRun` | guest/minimal-initrd/agent.c:201-224 | mounts that cannot be had leave the rootfs as it was and nothing mounted, or poison the agent |
| `Agents.Agent.StartRun` | guest/minimal-initrd/build_run.c:420-460 | a command that starts has its mounts as they were set up; one that cannot takes them down again |
| `Agents.Agent.GiveUpRun` | guest/minimal-initrd/build_run.c:443-455 | taking them down leaves no mount up, or poisons the agent and tells 125 |
| `Agents.Agent.StartSession` | guest/minimal-initrd/agent.c:350-378 | exactly when a start request gets its command: the session of that name is resumed if its rings have the offsets asked for, a command runs beside another session, or a free slot becomes the new session; each refusal has the code of its cause |
| `Agents.Agent.ResumeSession` | guest/minimal-initrd/agent.c:350-354 | the client follows the session from the offsets it asked for, exactly when the rings have them and it takes what it is sent; a finished session tells its status |
| `Agents.Agent.NewSession` | guest/minimal-initrd/agent.c:358-378 | the new session, there exactly when its command starts, has the name, terminal and input asked for, and its client follows it from the start |
| `Agents.Agent.AttachSession` | guest/minimal-initrd/agent.c:381-435 | only the session named is attached to, only with the input or terminal it has, and from offsets its rings have; otherwise the client is told the code of the cause, at the offsets it asked for |
| `Agents.Agent.AcceptRequest` | guest/minimal-initrd/agent.c:101-436 | a request that does not parse leaves the client alone; a poisoned agent refuses every parsed request; a live session is never replaced and an untouched one never changed; the client is with the session it named, owns standard input and the terminal as its request says, and standard input at offset 0 is then acceptable exactly if a new command was started with it; a refused attach stands at the offsets it asked for; every request that is not taken is told the exit code of its own cause, and none is taken without what it needs |
| `Agents.Agent.Serve` | guest/minimal-initrd/agent.c:171-436 | a client that stays after its request has all it asked for, and any other is told the exit code of its own cause |
| `Agents.Agent.Reject` | guest/minimal-initrd/agent.c:119-130 | a request that does not parse is told status 2 on its own connection, and the agent is as it was |
| `Agents.Agent.Replace` | guest/minimal-initrd/agent.c:132-142 | the old connection is closed whole, and the new one has another descriptor, the offsets an attach asked for, and the input its request says it owns |
| `Agents.Agent.Events` | guest/minimal-initrd/agent.c:456-524 | with an exec op in progress no request is looked at; without a request the client stays unless it hangs up, its connection is lost or it offends |
| `Agents.Agent.PumpReady` | guest/minimal-initrd/agent.c:525-541 | both sessions take what their pipes had, and a client of a running session is told of memory pressure once for each event and not otherwise |
| `Agents.Agent.StepOp` | guest/minimal-initrd/agent.c:547-562 | an exec op ends exactly when its command or its client is gone, and its client was then told its status, or 125 for poison, or took no more |
| `Agents.Agent.PollAgent` | guest/minimal-initrd/agent.c:444-562 | one pass: the invariant holds again; the session is what the reads and the wait make of it; an exec op is never displaced; what is taken from a readable client is a start of what it sent, in whole frames, and the standard input accepted grows by just those frames; a hangup ends its connection and a new request takes its place; a client that takes what it is sent and neither hangs up, is lost nor offends stays until it is told an exit status |
| `Agents.Agent.Run` | guest/minimal-initrd/agent.c:444-562 | any number of passes, whatever each finds: an open client has an exec op or a live session, and without exec op and poison no mount is up |
| `Agents.Agent.ServedSlices` | guest/minimal-initrd/session_io.c:56-108 | in every run, what a served connection was sent of a stream is a contiguous slice from the offset it asked for, with an exit status only at the end |
| `Agents.Agent.ResumableOutput` | guest/minimal-initrd/session_io.c:8-108 | in every run, connections that each resume where the last stopped concatenate to the stream |
| `Agents.Agent.ConnectedIsUpToDate` | guest/minimal-initrd/session_io.c:72-108 | in every run, a client that is still connected has all output since the offset it asked for |
| `Agents.Agent.ToldHadEverything` | guest/minimal-initrd/session_io.c:429-434 | in every run, a connection that was told an exit status was told the session's own, as its last frame, and had by then all the command ever wrote since the offset it asked for |
| `Agents.Agent.ExitIsLast` | guest/minimal-initrd/spio.c:133-158 | in every run, each connection, served or refused, was sent at most one exit status and nothing after it |
| `Agents.Agent.InputIsFifo` | guest/minimal-initrd/session_io.c:203-232 | in every run, what was accepted for standard input has been written or is pending, in order, and an end the client asked for lost none of it |
| `Utf8.RawLen` | guest/minimal-initrd/request.c:64-91 | no byte past the terminator is read |
| `Utf8.RawIsEncoded` | guest/minimal-initrd/request.c:64-91 | a raw sequence that is let through is the UTF-8 encoding of a scalar value (section 4 of RFC 3629) |
| `Utf8.EncodedIsRaw` | guest/minimal-initrd/request.c:64-91 | and the encoding of every scalar value past ASCII is let through |
| `Json.ReadQuad` | guest/minimal-initrd/request.c:21-33 | four hexadecimal digits, or nothing |
| `Json.ReadUnicodeEscape` | guest/minimal-initrd/request.c:122-137 | one code point from an escape or a surrogate pair (section 7 of RFC 8259), as UTF-8; lone surrogates and NUL are refused |
| `Json.ReadChar` | guest/minimal-initrd/request.c:98-152 | one character of a string, as UTF-8 |
| `Json.ParseString` | guest/minimal-initrd/request.c:93-158 | the UTF-8 of the string that stands there, exactly when there is one and it fits |
| `Json.StringShrinks` | guest/minimal-initrd/request.c:93-158 | a decoded string is shorter than its text |
| `Json.NoNulInside` | guest/minimal-initrd/request.c:93-158 | a decoded string holds no NUL |
| `Json.PlainReads` | guest/minimal-initrd/request.c:93-158 | text without escapes decodes to itself |
| `JsonText.EscapesRead` | guest/minimal-initrd/request.c:100-139 | what each of the eight short escapes stands for, and that every other one is refused |
| `JsonText.QuadReads` | guest/minimal-initrd/request.c:21-33 | four characters are read as a value exactly when they are its hexadecimal digits, in either case |
| `JsonText.UnicodeReads` | guest/minimal-initrd/request.c:122-152 | an escape of four digits is the code point its digits write, unless that is NUL or a low surrogate |
| `JsonText.PairReads` | guest/minimal-initrd/request.c:122-152 | two escapes that are the surrogates of a code point past the basic plane are that code point |
| `JsonText.StringReads` | guest/minimal-initrd/request.c:93-158 | any string, written with escapes where it must be, is read as its characters |
| `Json.ParseU64` | guest/minimal-initrd/request.c:166-180 | the number that stands there, exactly when it has no leading zero and fits 64 bits |
| `JsonText.NumberReads` | guest/minimal-initrd/request.c:166-180 | the decimal digits of a number, with no digit after them, are read as that number if 64 bits hold it and refused otherwise |
| `JsonText.ReadIsNumber` | guest/minimal-initrd/request.c:166-180 | and nothing else is read as a number |
| `Json.ParseKey` | guest/minimal-initrd/request.c:488-494 | a member name and its colon, and where the value starts |
| `Json.SkipNumber` | guest/minimal-initrd/request.c:496-520 | a number by the grammar (section 6 of RFC 8259) that a delimiter follows, and its end |
| `Json.SkipScalar` | guest/minimal-initrd/request.c:525-569 | any value but a container, and its end |
| `Json.NextEntry` | guest/minimal-initrd/request.c:525-569 | where the next value of a container starts |
| `Json.Opens` | guest/minimal-initrd/request.c:525-569 | opening a container on the stack is what the recursive grammar expects |
| `Json.Goes` | guest/minimal-initrd/request.c:525-569 | so is what follows a value inside the open containers |
| `Json.FitsScratch` | guest/minimal-initrd/request.c:593-608 | no string of a text shorter than the scratch buffer fills it |
| `Json.SkipValue` | guest/minimal-initrd/request.c:525-569 | the explicit-stack reader accepts only values of the recursive grammar and stops at their end; on texts shorter than 3841 bytes it accepts every one, and neither stack nor scratch fills |
| `JsonText.SkippedIsWs` | guest/minimal-initrd/request.c:16-19 | what is skipped is just the four characters of white space |
| `JsonValues.NumberIsRead` | guest/minimal-initrd/request.c:496-520 | any number with sign, fraction and exponent is one number to its end |
| `JsonValues.ValueReads` | guest/minimal-initrd/request.c:525-569 | the text of every JSON value, of any depth, is one value to its end |
| `JsonMoves.StringMoves` | guest/minimal-initrd/request.c:93-158 | a string is the same string wherever its bytes stand, in any text |
| `JsonMoves.KeyMoves` | guest/minimal-initrd/request.c:488-494 | so is a name with its colon, up to where the value starts |
| `JsonMoves.NumberMoves` | guest/minimal-initrd/request.c:166-180 | so is a number that no digit follows |
| `MemberMoves.ListMoves` | guest/minimal-initrd/request.c:220-285 | so is a list of strings or of objects |
| `MemberMoves.ValueMoves` | guest/minimal-initrd/request.c:743-850 | the value of every member depends on its own bytes only: wherever they stand, with a delimiter after them, they read as the same value |
| `MemberReader.ReadStrings` | guest/minimal-initrd/request.c:220-285 | the arguments or the environment, exactly when the text is a list of strings that fit their arrays, and the first argument is not empty |
| `MemberReader.ReadNextString` | guest/minimal-initrd/request.c:233-236 | the next string, refused exactly when the strings so far and it would not fit |
| `MemberReader.AcceptOther` | guest/minimal-initrd/request.c:389-402 | accepts exactly keys of 64 lower-case hexadecimal digits, and sources that are relative plain paths |
| `MemberReader.ReadField` | guest/minimal-initrd/request.c:334-357 | one field of a mount object is taken exactly when its name is known and new and its own check holds |
| `MemberReader.ReadMount` | guest/minimal-initrd/request.c:330-369 | one object is a mount exactly when its fields come to one |
| `MemberReader.ReadMounts` | guest/minimal-initrd/request.c:319-387 | the list of mounts that stands there, exactly when there is one: at most 8 objects, each a mount, no target on the way to another |
| `MemberReader.ReadTime` | guest/minimal-initrd/request.c:197-218 | null or a number that a signed 64-bit integer holds, and its value |
| `MemberReader.ReadValue` | guest/minimal-initrd/request.c:743-850 | each member is read by the reader of its form, with its bounds and allowed texts |
| `MemberReader.AcceptText` | guest/minimal-initrd/request.c:743-845 | accepts a text exactly when it is what its member asks for: not empty, from the root, or one of the listed words |
| `MemberTexts.FlagReads` | guest/minimal-initrd/request.c:182-195 | the word true is a flag that is set, the word false one that is not, each with a delimiter after it, and no other text is a flag; a flag that must be set takes the first only |
| `MemberTexts.TimeReads` | guest/minimal-initrd/request.c:197-218 | null is no time, digits are that time, digits after a minus sign its negative, exactly within 64 bits |
| `MemberTexts.ReadIsTime` | guest/minimal-initrd/request.c:197-218 | and nothing else is a time |
| `MemberTexts.ValueTextReads` | guest/minimal-initrd/request.c:743-850 | every value of every form is read as itself from the text that writes it |
| `MemberNames.FindIn` | guest/minimal-initrd/request.c:931-934 | the first name of a table that the key says, or none |
| `MemberNames.NameIsFound` | guest/minimal-initrd/request.c:666-704 | a key is found as a member if and only if it says that member's name |
| `RunRequests.MountIsTwoFields` | guest/minimal-initrd/request.c:329-369 | an object is a mount exactly when it has the two fields of its kind, in either order, and nothing else |
| `RunRequests.MountsAreFormed` | guest/minimal-initrd/request.c:328-384 | a list that is read is short enough, each object is a mount, and no two targets overlap |
| `RunRequests.FormedIsRead` | guest/minimal-initrd/request.c:328-384 | and every such list is read |
| `RequestRules.ValidateRun` | guest/minimal-initrd/request.c:863-880 | accepts exactly what the rules of a RUN request allow |
| `RequestRules.ValidateStart` | guest/minimal-initrd/request.c:894-899 | the same for a start request |
| `RequestRules.ValidateAttach` | guest/minimal-initrd/request.c:900-903 | the same for an attach request |
| `RequestRules.ValidateCopy` | guest/minimal-initrd/request.c:882-890 | the same for a COPY request |
| `RequestRules.Validate` | guest/minimal-initrd/request.c:892-913 | the same for every kind |
| `Requests.ReadMember` | guest/minimal-initrd/request.c:925-937 | one member is taken, or refused for its name, its value or because it was there before |
| `Requests.ReadMembers` | guest/minimal-initrd/request.c:925-942 | the members of the object as a map, exactly when they read and are distinct |
| `Requests.JudgeMembers` | guest/minimal-initrd/request.c:945-951 | the first known type that matches decides: exactly its members, and its rules |
| `Requests.JudgedExactly` | guest/minimal-initrd/request.c:945-951 | members are accepted as a request of a kind if and only if they name its type, are just its members, and keep its rules |
| `Requests.ParseRequest` | guest/minimal-initrd/request.c:915-952 | the outcome is a function of the members the bytes hold; an empty request and one with a NUL inside are refused |
| `Requests.OrderIsNothing` | guest/minimal-initrd/request.c:915-952 | permuting the members changes neither acceptance nor result |
| `Requests.AcceptedIsExact` | guest/minimal-initrd/request.c:707-734 | an accepted request has each member of its type once and no other, and its values are theirs |
| `RunRequests.AcceptedIsFormed` | guest/minimal-initrd/request.c:743-952 | every member of an accepted request holds what its form asks for, and the rules of its kind hold |
| `RunRequests.RunTargets` | guest/minimal-initrd/request.c:863-880 | in every accepted RUN request the targets are valid and an antichain, none of the binds the agent's own: what the mount setup asks for |
| `RequestTexts.StartRules` | guest/minimal-initrd/request.c:894-899 | on members that are all there: what the rules of a start request allow, member by member |
| `RequestTexts.AttachRules` | guest/minimal-initrd/request.c:900-903 | the same for an attach request |
| `RequestTexts.CopyRules` | guest/minimal-initrd/request.c:882-890 | the same for a COPY request |
| `RequestTexts.RunRules` | guest/minimal-initrd/request.c:863-880 | the same for a RUN request |
| `RequestTexts.WrittenIsAnswered` | guest/minimal-initrd/request.c:915-952 | a request written out from members, in whatever order, is judged by just those members |
| `RequestTexts.AllowedIsAccepted` | guest/minimal-initrd/request.c:915-952 | every request the rules allow is accepted as what it says |
| `RequestTexts.AcceptedExactly` | guest/minimal-initrd/request.c:743-952 | what some request is accepted as, exactly: the members of a kind, each of its form and in UTF-8, that name the kind and keep its rules |
| `RequestLayout.ValueReads` | guest/minimal-initrd/request.c:743-850 | a value is read for what it is wherever it stands |
| `RequestLayout.NameReads` | guest/minimal-initrd/request.c:925-929 | a name, with any escapes, is read as that name, and its value starts after the white space |
| `RequestLayout.SlotReads` | guest/minimal-initrd/request.c:925-942 | a member is read as itself wherever it stands, with any white space around its tokens |
| `RequestLayout.WrittenIsClean` | guest/minimal-initrd/request.c:916-916 | what is written out of members holds no NUL |
| `RequestLayout.WrittenIsRead` | guest/minimal-initrd/request.c:915-952 | a request written out from members, with any white space, is read as those members |
| `RequestLayout.LayoutIsNothing` | guest/minimal-initrd/request.c:915-952 | two texts with the same members come to the same outcome, in whatever order, with whatever white space and however escaped they are written |
| `Generation.ReadEntry` | guest/minimal-initrd/request.c:601-616 | one member is taken, skipped whole, or refused |
| `Generation.ReadEntries` | guest/minimal-initrd/request.c:601-621 | the known top-level members as a map, exactly when all members read and no known one is repeated |
| `Generation.ParseParams` | guest/minimal-initrd/request.c:593-623 | the outcome is a function of the known top-level members |
| `Generation.ParamsAnyOrder` | guest/minimal-initrd/request.c:571-623 | and not of their order |
| `Generation.ParamIsFound` | guest/minimal-initrd/request.c:571-587 | a key is found as a param if and only if it says that param's name |
| `GenerationTexts.ParamsTaken` | guest/minimal-initrd/request.c:593-623 | of any JSON object the agent takes just the members it knows, whole numbers of 64 bits and texts shorter than 128 bytes, skips every other one whatever its value, and refuses the object when a known one has another value |
| `GenerationTexts.ParamsAnswered` | guest/minimal-initrd/request.c:593-623 | the params are then the map of those members, when none is repeated |
| `Archive.ValidArchivePath` | guest/minimal-initrd/copy.c:65-82 | the scan accepts exactly relative paths of plain components, and the root |
| `Archive.RecordRoundTrip` | guest/minimal-initrd/copy.c:175-193 | a record that was sent is read back, whatever follows it |
| `Archive.UnpackAll` | guest/minimal-initrd/copy.c:232-283 | unpacking packed entries makes all of them in turn and ends where they end |
| `Archive.EmitEntry` | guest/minimal-initrd/copy.c:306-372 | the emitter fails exactly when an entry is neither file nor directory or a path is too long; what it emits are the entries of the tree, each once and after its parent |
| `Archive.CopyOut` | guest/minimal-initrd/copy.c:422-436 | the archive is the magic number, those entries and the end record |
| `Archive.RecordReadIsSent` | guest/minimal-initrd/copy.c:175-193 | a record that is read is one that could have been sent, and its bytes are those that would have been sent |
| `Archive.UnpackedIsHeld` | guest/minimal-initrd/copy.c:232-283 | whatever unpacks is packed entries and an end record |
| `Archive.YieldsOne` | guest/minimal-initrd/copy.c:232-283 | an archive holds one tree at most |
| `Archive.RoundTrip` | guest/minimal-initrd/copy.c:232-372 | what was emitted yields the same tree: a file for each file, with the same data and its low nine mode bits, a directory for each directory, with those bits and its owner's access less the umask, and nothing else; below any target path of up to 1024 characters |
| `Archive.BuildMakes` | guest/minimal-initrd/copy.c:206-230 | entries made in turn are each there afterwards with their data and bits, beside what was there before and nothing else |
| `Archive.DirectoryMode` | guest/minimal-initrd/copy.c:228-230 | bit by bit, the mode a directory is made with |
| `CopyFiles.BuildCopyPath` | guest/minimal-initrd/copy.c:25-30 | the path below the root, which always fits |
| `CopyFiles.BuildTmpPath` | guest/minimal-initrd/copy.c:32-43 | the temporary sibling for an attempt, refused exactly when it does not fit |
| `CopyFiles.TmpFits` | guest/minimal-initrd/copy.c:32-43 | it is at most 30 characters longer than the path |
| `CopyFiles.SiblingsDiffer` | guest/minimal-initrd/copy.c:32-53 | no two of the sixteen siblings are one |
| `CopyFiles.ReserveTmpDir` | guest/minimal-initrd/copy.c:45-53 | the first of sixteen siblings that is not there is made; none exactly when the path has no directory, all sixteen are there, or the first that is not has a name of more than 255 characters |
| `CopyFiles.LongNamesHaveNoPlace` | guest/minimal-initrd/copy.c:32-53 | no file of 236 or more characters can be copied in, whatever the tree: its sibling's name is too long |
| `CopyFiles.LongNameIsAccepted` | guest/minimal-initrd/copy.c:8-53 | counterexample: such a path is accepted, its name is one the kernel takes, and there is never a place for it |
| `GuestPaths.ResolveGrows` | guest/minimal-initrd/copy.c:374-420 | what a path leads to stays when other files are added |
| `GuestPaths.WhereInside` | guest/minimal-initrd/copy.c:84-89 | a path below a place that was found names what it says, exactly when there is a directory for it and the name fits |
| `GuestPaths.NamesItself` | guest/minimal-initrd/copy.c:84-89 | below a directory a plain name of at most 255 characters is the place it says, a link there included; otherwise it is none |
| `GuestPaths.NamesThroughLink` | guest/minimal-initrd/copy.c:84-89 | in a directory reached through a link it is the place in the directory the link leads to |
| `CopyTransfer.Receive` | guest/minimal-initrd/copy.c:131-173 | succeeds exactly when the connection sends data frames of standard input, each at the offset reached, and then a close there, and the archive is their payloads |
| `CopyTransfer.TransfersOnce` | guest/minimal-initrd/copy.c:139-167 | what is sent is one transfer at most |
| `CopyTransfer.TransferArrives` | guest/minimal-initrd/copy.c:131-173 | the frames and the close that carry an archive arrive as that archive |
| `CopyFiles.ReceiveInto` | guest/minimal-initrd/copy.c:131-173 | the archive is in a file of the temporary directory, or nothing is left of it |
| `CopyTarget.MakesThere` | guest/minimal-initrd/copy.c:218-230 | a call on an entry's path works exactly when nothing is there, a directory is above it and its name fits |
| `CopyTarget.MakeEntry` | guest/minimal-initrd/copy.c:218-230 | one record makes its entry, or nothing is left of it; each failure has its exact cause |
| `CopyTarget.ExtractInto` | guest/minimal-initrd/copy.c:232-283 | on every archive: it succeeds exactly when the archive is the magic number, packed entries that each can be made in turn and have room, and the end record; what lies at the target is the tree of those entries, each file with the data of its record, or part of one when it fails, and all else is as it was |
| `CopyTarget.ExtractRecords` | guest/minimal-initrd/copy.c:247-278 | its loop makes in the tree what unpacking says |
| `CopyTarget.RemoveTree` | guest/minimal-initrd/copy.c:91-115 | everything at or below the path goes and nothing else, in whatever order directories are listed; below the temporary directory no path is too long for it |
| `CopyTarget.Publish` | guest/minimal-initrd/copy.c:411-418 | a file is linked, a directory renamed, and neither replaces anything |
| `CopyTarget.LinkedIsLaid` | guest/minimal-initrd/copy.c:411-420 | once the temporary directory is gone, a linked file is at the path and nothing else is new |
| `CopyTarget.RenamedIsLaid` | guest/minimal-initrd/copy.c:411-420 | the same for a renamed directory and all it holds |
| `CopyFiles.Complete` | guest/minimal-initrd/copy.c:396-420 | with a temporary directory made, in every outcome it is gone again, and nothing has changed unless the copy is there |
| `CopyFiles.CopyIn` | guest/minimal-initrd/copy.c:374-420 | each outcome with its exact condition: bad path, no place for a temporary directory, no transfer, no tree in the archive, something there already, or copied; the temporary directory is gone in every outcome, nothing that was there changes, and what a copy adds is the tree that arrived, at a path that had nothing |
| `CopyFiles.CopyOutFile` | guest/minimal-initrd/copy.c:422-436 | a bad path, nothing at it or something in it that cannot be sent, each with its exact condition, or an archive that is made again as the tree at the path: the same files with the same data, the same directories and nothing else |
| `CopyFiles.CopyOutAndIn` | guest/minimal-initrd/copy.c:292-436 | whatever can be copied out of one guest arrives in another and is made there at any path that has a place beside it and nothing at it: each file with the same data and its low nine mode bits, each directory, nothing else, and all that was there as it was |
| `Filters.DeviceProgramForward` | guest/minimal-initrd/build_run_sandbox.c:47-139 | every jump of the device program goes forward and stays inside |
| `Filters.DeviceProgramIsPolicy` | guest/minimal-initrd/build_run_sandbox.c:97-139 | on every device access it returns 1 if and only if the policy allows it: any mknod, and the listed character devices |
| `Filters.SyscallProgramForward` | guest/minimal-initrd/build_run_sandbox.c:377-444 | every jump of the system call program goes forward, stays inside and fits a byte |
| `Filters.SyscallProgramIsPolicy` | guest/minimal-initrd/build_run_sandbox.c:403-444 | on every call it returns the verdict of the ordered rules, said of the 64-bit argument itself |
| `Sharder.SortsByKey` | scripts/spore_build_conformance_contract.py:620-623 | the cases by falling number of transitions, and among cases with the same number by the characters of their names; none lost or added |
| `Sharder.LoadCounts` | scripts/spore_build_conformance_contract.py:618-629 | a load counts each case once and each of its transitions once |
| `Sharder.Lightest` | scripts/spore_build_conformance_contract.py:624-627 | the shard with the least load, then fewest cases, then least index |
| `Sharder.Balanced` | scripts/spore_build_conformance_contract.py:618-629 | no two shards differ by more than the heaviest case |
| `Sharder.LoadBound` | scripts/spore_build_conformance_contract.py:618-629 | m times any load is at most the whole load and m - 1 times the heaviest case |
| `Sharder.HeaviestFirst` | scripts/spore_build_conformance_contract.py:618-629 | placed in that order, no shard is ahead of another by more than any one of its own cases |
| `Sharder.ShardIsPlaced` | scripts/spore_build_conformance_contract.py:630-631 | a shard selects exactly the cases placed in it, each once |
| `Sharder.KeepNamed` | scripts/spore_build_conformance_contract.py:630-631 | the named cases, in the original order |
| `Sharder.Partition` | scripts/spore_build_conformance_contract.py:603-636 | every case is in exactly one shard |
| `Sharder.ShardLoads` | scripts/spore_build_conformance_contract.py:603-636 | both bounds hold of the loads the shards run |
| `Sharder.LightestCaseBounds` | scripts/spore_build_conformance_contract.py:603-636 | a shard that runs is ahead of any other by no more than the lightest of its own cases, and past its share by no more than that case's part |
| `Sharder.EmptyShard` | scripts/spore_build_conformance_contract.py:632-635 | a shard is empty exactly when its index is at least the number of cases |
| `Sharder.ShardCases` | scripts/spore_build_conformance_contract.py:603-636 | an error exactly for options that make no sense and for an empty shard, and the selected cases otherwise |

## Left out

- Which file descriptor a mount is made through, and the mount namespace: what is mounted is a set of places, and a fault says which call fails.
- Faults of system calls other than those the tree itself causes and those of the mount calls (no space, permissions, I/O errors, concurrent changes, a kernel without `renameat2`).
- fork, exec, cgroups, terminals, signals, killing descendants and reaping: a command writes, ends, or cannot be started.
- Update in place of the file system: trees and the state of a copy are values that each step takes and returns.
- Extended attributes, modification times, the FOLLOW destination policy, and creating a file through the confined open.
- A terminal's own pending input and its output offsets across attaches (there is no replay for terminals).
- The texts of errors, timing and events; the console mirror.
- How `read_build_command_from_spio` reads a command (whether it arrives whole is an input), and the requests that are answered at once (ready, initial output, copies, workdir, growth, freezing, detached starts): one kind stands for them all in the event loop.
- Why a rootfs, a network, a context or a generation device is not there: whether what a request needs is ready is an input.
- `load_cases` and `select_cases`.
- `network.c`, `generation.c`, `boot.c`, `rootfs.c`, `detached.c`: mounts, device registers and short loops.
- Wrap-around of 64-bit stream offsets: offsets are unbounded, and the encoding theorems ask that they fit 64 bits.
- ConfinedWalk.Walk: gives a bound that rules a too-long failure out, and not when exactly it comes, which depends on how many slashes the texts spell between components.
- ConfinedWalk.ConfinedOpen: the same for a too-long failure; opening to create is left out, because only the FOLLOW policy does it.
- Rootfs.EnsureParentDirs: says nothing of links on the way, because the LINK policy calls it only below real directories.
- Rootfs.EnsureConfinedDirectory: the same.
- LinkCopy.Apply: when several causes of failure hold, does not say which one is reported; of the two limits on what is removed it says what a failure means, and not that every success kept them.
- RunMounts.SetupMounts: when unmounting or closing fails too, says that the outcome is not a plain failure unless all is undone, and not which of the two it is.
- Sessions.Session.InputLost: the end-of-input byte that a terminal gets is left out with the terminal's pending input.
- Sessions.Session.HandleFrame: terminal input is taken at its offset and then not followed, so a terminal that is slow to read never holds its client back.
- Agents.Agent.AnswerOnce: does not say what is answered, since one kind stands for many requests.

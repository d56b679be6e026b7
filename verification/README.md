# Verification of the agent runtime's self-contained cores

This project models, in Dafny, the parts of the repository whose correctness is hard to see from any one function, and
proves what their callers rely on. `dafny verify dfyconfig.toml` checks all of it.

## What is modelled

- **Seed media** (`SeedLayout`, `SeedImage`, `SeedWriter`, `FatReader`, `SeedDirectory`, `SeedReadBack`, `Utf16`,
  `Bytes`): the FAT16 image of cloud-init files. The writer works in place on one buffer and is proved against the bytes
  of the image, region by region. An independent reader, written after "FAT: General Overview of On-Disk Format" 1.03
  (sections "FAT Type Determination" and "FAT Long Directory Entries"), parses the boot sector, walks the root directory
  and follows the chains. The main theorem says for which files it gets everything back.
- **Base64** (`Base64Spec`, `Base64`, `Base64Decode`, `Groups`, `Buffers`): the encoder's and decoder's fast loops over
  caller-owned buffers, against section 4 of RFC 4648.
- **Random numbers** (`Words`, `Rng`, `Shuffle`): SplitMix64, its rejection sampler, the bytes it fills
  buffers with, and the shuffle.
- **Streams** (`Utf8`, `Utf8Stream`, `JsonLines`): decoding that does not depend on how input is cut into chunks.
- **Shell quoting** (`ShellQuoting`, `Texts`): against a reader of shell words after sections 2.2.2, 2.2.3 and 2.3 of
  the POSIX.1-2017 Shell Command Language.
- **Dataplane** (`Readiness`, `WriteQueues`, `Peers`, `Drive`, `DriveRuns`, `Guest`, `Fifo`, `EventLoop`): one bounded
  turn, its budget and its report; write queues, guest frames, component queues, and the timeout the loop then asks for.
  Sockets and sessions are objects that answer from a script of which nothing is known except the contract of the calls.
- **Bootstrap** (`BootstrapStates`, `BootstrapOrder`, `BootstrapSchedulers`, `BootstrapEvents`, `Bootstrap`): the order
  of a plan's steps, and runs of the plan from and to a state that is stored after every change. A crash is a store or a
  send that does not happen, or the end of what tasks report. The theorem about histories is over a log of every
  state stored, and that about runs ties each of them to what its tasks reported.

## What the proofs found

- The size of the root directory is never checked. Entries beyond 512 are written over the data clusters, inside the
  image, and the files are not read back. `SeedReadBack.SeedFilesReadBack` gives the exact condition.
- A short name that starts with 0x05 is read back with 0xE5 there, as the FAT description defines; one that starts with
  0x00 or 0xE5 hides its file. A long name that holds a NUL is cut there.
- The decoder of Base64 does not test the unused bits of a padded last group, so it accepts more than one text for some
  byte strings (section 3.5 of RFC 4648). `Base64Spec.EncodeInvertsDecode` says exactly when it does not matter.
- The comment at `src/libs/agentdp-network/src/event_loop.rs:563-565` says that what handlers append to the queue being
  worked on is seen in the next turn. The code stores the rest of the old queue over it, so such appends are lost; the
  model follows the code. Bounded pushes do not reach this case, because the taken queue has no capacity and they are
  refused, and no present handler appends to its own queue.
- After a crash with several steps running, one run marks only the first of them failed; the others keep their status
  until a retry resets them all.
- `src/libs/agentdp-platform/src/fs.rs:196-197` synchronises the directory after the new file is in place, so a write
  can be reported as failed although it took effect. A retry request can then be answered with an error and still have
  raised the epoch; repeating it is answered as already done. Histories hold all the same.

## Model

| member | source | states |
|---|---|---|
| Base64Spec.DecodeInvertsEncode | src/libs/agentdp-base64/src/lib.rs:84-187 | for every byte string, the section 4 RFC 4648 text is legal and decoding it gives the bytes back |
| Base64Spec.EncodeInvertsDecode | src/libs/agentdp-base64/src/lib.rs:202-272 | re-encoding what was decoded from a legal text gives that text if and only if the unused bits of its padded last group are zero |
| Base64Spec.UnusedBitsAreNotTested | src/libs/agentdp-base64/src/lib.rs:247-264 | a concrete text with other unused bits is legal and decodes to bytes whose encoding differs |
| Base64Spec.AlphabetIsSpelled | src/libs/agentdp-base64/src/lib.rs:5 | the ranges of the alphabet spell the 64 symbols in the published order, letters, digits, then + and / |
| Base64.Encode | src/libs/agentdp-base64/src/lib.rs:84-187 | refused, with the buffer untouched, exactly when it is too small; otherwise the buffer starts with the specified text, its tail is unchanged, and the length is returned: the three strategies refine one three-byte specification |
| Base64.EncodeFast | src/libs/agentdp-base64/src/lib.rs:93-142 | the unrolled loop of four windows encodes whole groups only, reads inside the input and leaves the rest of the buffer |
| Base64.EncodeWindow | src/libs/agentdp-base64/src/lib.rs:96-107 | an eight-byte window writes the symbols of its first six bytes, whatever the other two are |
| Base64.WindowEncodesSixBytes | src/libs/agentdp-base64/src/lib.rs:99-107 | the eight shifts of the big-endian word are the indices of two groups |
| Base64.EncodeThreeBytes | src/libs/agentdp-base64/src/lib.rs:146-160 | two pair-table lookups write the four symbols of three bytes |
| Base64.EncodeRest | src/libs/agentdp-base64/src/lib.rs:144-161 | after the pair-table loop all whole groups are encoded |
| Base64.LastSymbols | src/libs/agentdp-base64/src/lib.rs:163-184 | one or two bytes left give the padded symbols of the specification |
| Base64.EncodedLength | src/libs/agentdp-base64/src/lib.rs:54-56 | the length formula is the length of the specified text |
| Base64Decode.BuildDecodeTable | src/libs/agentdp-base64/src/lib.rs:21-42 | the table filled by the two loops maps every symbol to its index, padding to one mark and everything else to another |
| Base64Decode.TableTellsSymbols | src/libs/agentdp-base64/src/lib.rs:21-42 | entries below 64 are exactly the alphabet |
| Base64Decode.OrTest | src/libs/agentdp-base64/src/lib.rs:285-287 | or-ing eight entries reaches 64 exactly when one of them does |
| Base64Decode.TwoGroupsByTable | src/libs/agentdp-base64/src/lib.rs:275-298 | the gathered word is accepted exactly when all eight symbols are in the alphabet, and its first six bytes are the two groups decoded one by one |
| Base64Decode.DecodeChunk8 | src/libs/agentdp-base64/src/lib.rs:275-299 | eight symbols are refused with nothing written, or decoded behind what was decoded before |
| Base64Decode.DecodeChunk4 | src/libs/agentdp-base64/src/lib.rs:302-316 | four symbols likewise |
| Base64Decode.DecodeChunk32 | src/libs/agentdp-base64/src/lib.rs:220-225 | four words in a row; on refusal, the word that is not in the alphabet |
| Base64Decode.DecodeBeforeFinal | src/libs/agentdp-base64/src/lib.rs:211-235 | both loops together accept exactly when all symbols before the last group are in the alphabet, and touch nothing behind |
| Base64Decode.DecodeFinal | src/libs/agentdp-base64/src/lib.rs:237-272 | the last group is accepted exactly in the legal padding shapes; which bytes are written in each case, also when refused |
| Base64Decode.WholeGroups | src/libs/agentdp-base64/src/lib.rs:64-77 | the length implied by padding is the length of the decoded bytes of a legal text |
| Base64Decode.Decode | src/libs/agentdp-base64/src/lib.rs:202-272 | accepts exactly legal texts whose bytes fit, returns their number, writes them and nothing else; a refused text leaves everything behind its implied length unchanged |
| Rng.MixIsBijection | src/libs/agentdp-rand/src/lib.rs:141-145 | the mixing function has an inverse on 64-bit words |
| Rng.StateClosedForm | src/libs/agentdp-rand/src/lib.rs:85-88 | the state after n draws |
| Rng.FullPeriod | src/libs/agentdp-rand/src/lib.rs:85-88 | from every state each word is drawn exactly once in 2^64 draws, at a known place |
| Rng.FirstAcceptedIsFirst | src/libs/agentdp-rand/src/lib.rs:95-101 | the sampler stops at the first draw below its zone, which exists from every state |
| Rng.SamplesAreUniform | src/libs/agentdp-rand/src/lib.rs:91-102 | over one full period the accepted draws give every value below the bound equally often |
| Rng.SampleIsFirstAccepted | src/libs/agentdp-rand/src/lib.rs:95-101 | the sample is the first draw below the zone, reduced by the bound, and the state moves on to just after it |
| Rng.StatesSampleUniformly | src/libs/agentdp-rand/src/lib.rs:91-102 | of all 2^64 states, equally many sample each value below the bound with their first draw |
| Rng.DeterministicRng.NextU64 | src/libs/agentdp-rand/src/lib.rs:85-88 | advances the state by one increment and returns the draw |
| Rng.DeterministicRng.Below | src/libs/agentdp-rand/src/lib.rs:91-102 | terminates for every state and bound; zero gives None and leaves the state; otherwise some draw is below the zone, all before it are not, that draw reduced by the bound is returned, and the state is the one after it |
| Rng.DeterministicRng.FillBytes | src/libs/agentdp-rand/src/lib.rs:115-120 | the buffer holds the bytes of successive draws, lowest first, the last draw possibly in part |
| Rng.FromLeBytesInverts | src/libs/agentdp-rand/src/lib.rs:117 | the bytes of a word determine it |
| Rng.FillsInParts | src/libs/agentdp-rand/src/lib.rs:115-120 | filled in parts of whole words, a buffer gets the same bytes |
| Shuffle.ShuffledIsPermutation | src/libs/agentdp-rand/src/lib.rs:122-130 | the result holds the same items |
| Shuffle.DrawsAreRecoverable | src/libs/agentdp-rand/src/lib.rs:122-130 | different draws give different orders of distinct items |
| Shuffle.EveryOrderIsReached | src/libs/agentdp-rand/src/lib.rs:122-130 | every order comes from some draws, so exactly one draw sequence gives each order |
| Shuffle.ShuffleInPlace | src/libs/agentdp-rand/src/lib.rs:122-130 | the loop in place computes the specified shuffle of the draws and never skips a position |
| Utf8.EncodingsAreWellFormed | src/libs/agentdp-platform/src/text.rs:17 | the well-formed sequences of section 4 of RFC 3629 are exactly the encodings of characters |
| Utf8.IncompleteIsProperPrefix | src/libs/agentdp-platform/src/text.rs:31-34 | an unfinished sequence is exactly a proper prefix of a well-formed one |
| Utf8.BrokenIsMaximalSubpart | src/libs/agentdp-platform/src/text.rs:28-30 | what is replaced is the maximal subpart of section 3.9 of the Unicode Standard |
| Utf8Stream.SettledInSteps | src/libs/agentdp-platform/src/text.rs:12-44 | text once given out is never revised, and later text depends only on the held bytes |
| Utf8Stream.LeftoverIsShort | src/libs/agentdp-platform/src/text.rs:38-42 | at most three bytes are held, a proper prefix of one encoding |
| Utf8Stream.TakeTurn | src/libs/agentdp-platform/src/text.rs:17-36 | one turn of the loop: the bytes it uses settle as the text it adds, and when it ends the loop the rest is unfinished |
| Utf8Stream.ReadStream | src/libs/agentdp-platform/src/text.rs:12-51 | for every cutting into chunks, a stream given all of them and then finished returns the one-shot lossy reading of the whole input |
| Utf8Stream.ReadText | src/libs/agentdp-platform/src/text.rs:12-51 | encoded text survives every chunking |
| Utf8.DecodeTextThenEncode | src/libs/agentdp-platform/src/text.rs:17 | text read from well-formed bytes encodes to them |
| Utf8Stream.Utf8Stream.Push | src/libs/agentdp-platform/src/text.rs:12-44 | the cursor loop returns exactly the settled text and keeps exactly the unfinished bytes |
| Utf8Stream.Utf8Stream.Finish | src/libs/agentdp-platform/src/text.rs:46-51 | what is held becomes its lossy reading |
| JsonLines.FramesAreFrames | src/core/agentdp-protocol/src/jsonl.rs:46-105 | the frames of an input are its pieces up to each newline, and joined they are the input |
| JsonLines.JsonLineReader.ReadLine | src/core/agentdp-protocol/src/jsonl.rs:46-69 | whatever the deliveries: a line is the first frame of all unread bytes, end of file means none are left, and a frame too long is refused; a failed read is reported exactly when the last delivery taken was one, none before it was, and until then the frame had neither ended nor become too long; no byte is lost |
| JsonLines.JsonLineReader.TakeLine | src/core/agentdp-protocol/src/jsonl.rs:90-96 | takes through the first newline, or nothing |
| JsonLines.JsonLineReader.TakeEof | src/core/agentdp-protocol/src/jsonl.rs:98-105 | takes the whole unterminated tail |
| JsonLines.JsonLineReader.TakeBuffered | src/core/agentdp-protocol/src/jsonl.rs:51-54 | accepts or refuses by the length of the frame alone, even before its end has been read |
| JsonLines.RunReturnsFrames | src/core/agentdp-protocol/src/jsonl.rs:46-69 | a run returns the frames in order up to the first over the limit, and fails there |
| JsonLines.ReadAll | src/core/agentdp-protocol/src/jsonl.rs:46-105 | two sources with the same bytes give the same lines and the same ending, however they are cut |
| ShellQuoting.ShellJoinRoundTrips | src/libs/agentdp-platform/src/ssh.rs:321-327 | a POSIX shell reads a joined list back exactly if and only if no argument holds a NUL |
| ShellQuoting.ReadQuoted | src/libs/agentdp-platform/src/ssh.rs:382-384 | a quoted value is one piece of a word, whatever follows |
| ShellQuoting.RemoteCommandIsOneWord | src/libs/agentdp-platform/src/ssh.rs:303-311 | the remote command is read as sh -lc, or sudo -n sh -lc, with the original command as one word, if and only if it is NUL-free |
| SeedLayout.LayoutFor | src/backends/agentdp-qemu/src/seed_media.rs:113-143 | terminates for every count; the size returned is the smallest of those tried that settles with room for the clusters, and it is refused exactly when none is |
| SeedLayout.LayoutsAreConsistent | src/backends/agentdp-qemu/src/seed_media.rs:113-143 | the regions tile the image, each table has an entry for every cluster, and the cluster count is in the FAT16 range |
| SeedLayout.RefusedIffNoSizeFits | src/backends/agentdp-qemu/src/seed_media.rs:138-141 | refused exactly above 32731 clusters, and then no size of the doubling series fits |
| SeedLayout.NotEverySizeSettles | src/backends/agentdp-qemu/src/seed_media.rs:116-136 | at 2054 sectors the inner loop would alternate for ever |
| SeedWriter.WriteBootSector | src/backends/agentdp-qemu/src/seed_media.rs:145-167 | the boot sector is exactly the specified bytes and nothing else changes |
| SeedWriter.WriteChunks | src/backends/agentdp-qemu/src/seed_media.rs:174-180 | one file is stored in consecutive clusters |
| SeedWriter.WriteFileData | src/backends/agentdp-qemu/src/seed_media.rs:169-184 | all contents are stored one after the other, padded to clusters, in disjoint contiguous chains |
| SeedWriter.WriteFat | src/backends/agentdp-qemu/src/seed_media.rs:191-198 | one table holds the two reserved entries, then each chain linked and ended |
| SeedWriter.WriteFats | src/backends/agentdp-qemu/src/seed_media.rs:186-200 | both tables are equal and complete |
| SeedWriter.LfnChecksum | src/backends/agentdp-qemu/src/seed_media.rs:299-303 | the checksum is the fold of rotate right and add |
| SeedWriter.WriteLfnEntry | src/backends/agentdp-qemu/src/seed_media.rs:260-269 | thirteen units at their three places with order, attribute and checksum |
| SeedWriter.CollectUnits | src/backends/agentdp-qemu/src/seed_media.rs:233-237 | UTF-16, one zero, filling to whole entries |
| SeedWriter.LfnEntries | src/backends/agentdp-qemu/src/seed_media.rs:232-253 | the entries of a name, last part first, refused exactly above twenty |
| SeedWriter.WriteRootDirectory | src/backends/agentdp-qemu/src/seed_media.rs:202-230 | label, then long and short entries of every file in order; refused exactly when some name or size is too large |
| SeedWriter.BuildImage | src/backends/agentdp-qemu/src/seed_media.rs:98-111 | accepted exactly when the clusters the contents fill, and one more for each empty file, are at most 32731, and all names and sizes fit; the image is then the specified bytes, and every write was in bounds |
| SeedWriter.ClustersSuffice | src/backends/agentdp-qemu/src/seed_media.rs:295-297 | the clusters asked for are those the contents fill and one for each empty file |
| FatReader.Parse | src/backends/agentdp-qemu/src/seed_media.rs:145-167 | a volume is accepted only if all its regions lie in the image and its table begins with the media byte and an end mark |
| SeedReadBack.BootParses | src/backends/agentdp-qemu/src/seed_media.rs:145-167 | a reader of the boot sector finds each region where the writer put it |
| SeedDirectory.WalkLongName | src/backends/agentdp-qemu/src/seed_media.rs:232-253 | a reader reassembles all units of a name from its entries |
| SeedDirectory.SeenNames | src/backends/agentdp-qemu/src/seed_media.rs:214-227 | both names of a file are read back exactly if the long one is NUL-free and the short one starts with none of 0x00, 0x05 and 0xE5 |
| SeedDirectory.WalkFiles | src/backends/agentdp-qemu/src/seed_media.rs:202-230 | a reader that passes over labels and directories reports every file with its names, attribute, first cluster and size, in order |
| SeedDirectory.TooFewReported | src/backends/agentdp-qemu/src/seed_media.rs:202-230 | with a marked first byte or too many entries, some file is not reported |
| SeedReadBack.FollowChain | src/backends/agentdp-qemu/src/seed_media.rs:186-200 | following a chain gives the bytes of its clusters |
| SeedReadBack.ContentsRead | src/backends/agentdp-qemu/src/seed_media.rs:169-200 | the chain of a file cut to its size is its contents |
| SeedReadBack.SeedFilesReadBack | src/backends/agentdp-qemu/src/seed_media.rs:98-311 | from either table, an independent FAT16 reader gets exactly the files written, as ordinary files, names and contents in order, if and only if the entries fit 512 and the names are as above |
| SeedReadBack.LabelReadsBack | src/backends/agentdp-qemu/src/seed_media.rs:145-167 | the root directory and the boot sector both name the volume CIDATA, by which cloud-init finds it |
| SeedReadBack.DirectoryOverflowIsAccepted | src/backends/agentdp-qemu/src/seed_media.rs:202-230 | 256 empty files meet every condition of acceptance although their entries do not fit |
| SeedReadBack.BuildOverflow | src/backends/agentdp-qemu/src/seed_media.rs:98-111 | the image of those files is built, and from neither table are they all read back |
| SeedReadBack.CloudInitReadsBack | src/backends/agentdp-qemu/src/seed_media.rs:69-95 | the three cloud-init files alone always read back, whatever their contents |
| Utf16.DecodeInvertsEncode | src/backends/agentdp-qemu/src/seed_media.rs:233 | UTF-16 decoding undoes encoding |
| Readiness.IoSlotState.Registered | src/libs/agentdp-network/src/readiness.rs:31-38 | writable at once if watched, not readable |
| Readiness.IoSlotState.RegisteredWithReadProbe | src/libs/agentdp-network/src/readiness.rs:40-47 | both watched directions may be tried at once |
| Readiness.IoSlotState.MarkReactorReady | src/libs/agentdp-network/src/readiness.rs:69-71 | readiness is only added |
| Readiness.IoSlotState.ClearReadAfterWouldBlock | src/libs/agentdp-network/src/readiness.rs:73-76 | closes reading only |
| Readiness.IoSlotState.ClearWriteAfterWouldBlock | src/libs/agentdp-network/src/readiness.rs:78-81 | closes writing only |
| Readiness.IoSlotState.ClearForDropOrReset | src/libs/agentdp-network/src/readiness.rs:83-88 | closes both directions |
| Readiness.IoSlotState.SetRegisteredInterest | src/libs/agentdp-network/src/readiness.rs:90-106 | a newly watched direction may be tried, one watched all along keeps its state, one no longer watched is closed |
| WriteQueues.WriteQueue.Push | src/libs/agentdp-network/src/buffers/write_queue.rs:19-29 | bytes are appended; empty buffers leave no trace |
| WriteQueues.WriteQueue.PushFront | src/libs/agentdp-network/src/buffers/write_queue.rs:31-38 | what remains of a write is put in front |
| WriteQueues.WriteQueue.PopFront | src/libs/agentdp-network/src/buffers/write_queue.rs:40-44 | takes the front write off; its rest and the queue are what was queued |
| WriteQueues.WriteQueue.AdvanceFront | src/libs/agentdp-network/src/buffers/write_queue.rs:50-61 | drops written bytes from the front buffer and never from the next |
| WriteQueues.WriteQueue.PendingBytes | src/libs/agentdp-network/src/buffers/write_queue.rs:72-78 | the sum over buffers is the number of queued bytes |
| Drive.ChargesAdvance | src/libs/agentdp-network/src/drive.rs:264-1219 | every charge an operation makes keeps the rules of a turn: budgets shrink, reports only grow, bytes counted are paid for, a continuation is explained by a wait |
| Drive.AdvancesIsTransitive | src/libs/agentdp-network/src/drive.rs:177-240 | what every operation keeps, any sequence keeps |
| Drive.TurnIsBounded | src/libs/agentdp-network/src/drive.rs:1116-1219 | from a fresh report, the bytes read, written, enqueued and dequeued are within the bytes spent, and a continuation is explained by a wait |
| Drive.ChangeIsProgress | src/libs/agentdp-network/src/event_loop.rs:316-330 | two different looks at the counters mean progress at the end |
| Drive.DriveTurn.PushEvent | src/libs/agentdp-network/src/drive.rs:289-306 | needs an event and a step, and counts one event |
| Drive.DriveTurn.SpendBytes | src/libs/agentdp-network/src/drive.rs:1214-1219 | a budget with bytes left strictly falls, by one for an empty spend and by the amount otherwise; the report becomes exhausted exactly when the budget cannot go on, and nothing else in it changes |
| Drive.DriveTurn.TryApplyStateChange | src/libs/agentdp-network/src/drive.rs:394-405 | deferred without budget; counted only when it succeeds |
| Drive.DriveTurn.ApplyComponentOutput | src/libs/agentdp-network/src/drive.rs:407-414 | one step for one output, else it is given back |
| Drive.DriveTurn.PushComponentOutput | src/libs/agentdp-network/src/drive.rs:416-427 | one step for one counted output; a full queue is a wait and costs nothing |
| Drive.DriveTurn.ProtocolChunk | src/libs/agentdp-network/src/drive.rs:439-449 | the chunk offered is the smaller of what is available and what is left |
| Drive.DriveTurn.DriveProtocolOp | src/libs/agentdp-network/src/drive.rs:451-470 | progress of the callback is paid for and counted as one change |
| Drive.DriveTurn.QueueProtocolOutput | src/libs/agentdp-network/src/drive.rs:498-533 | bytes move from output to queue in order, none lost on any path |
| Drive.DriveTurn.TransportReadReady | src/libs/agentdp-network/src/drive.rs:657-670 | not tried unless readable; would-block closes reading and records the wait |
| Drive.DriveTurn.TransportWriteReady | src/libs/agentdp-network/src/drive.rs:672-685 | the same for writing |
| Drive.DriveTurn.ReadStreamReady | src/libs/agentdp-network/src/drive.rs:535-581 | bytes read are the next of the stream, within buffer and budget; when blocked the stream is not touched |
| Drive.DriveTurn.WriteStreamQueueReady | src/libs/agentdp-network/src/drive.rs:583-608 | bytes accepted followed by the queue are the original queue on success and on error, all paid for and counted; each write costs one step and takes the next answer of the stream; failed exactly if the last answer taken was an error or took nothing, waiting for the reactor exactly if it would block, drained exactly when empty, and pending on budget only when exhausted; without readiness the stream is not touched |
| Drive.DriveTurn.WriteUntilStopped | src/libs/agentdp-network/src/drive.rs:617-646 | the loop goes on exactly as long as the stream takes something and budget and queue last, and says which of them ended it |
| Drive.DriveTurn.WriteFront | src/libs/agentdp-network/src/drive.rs:617-655 | offers as much of the front buffer as the budget allows, and tells apart a write, a stream that would block and one that broke |
| Drive.DriveTurn.ReceiveDatagramReady | src/libs/agentdp-network/src/drive.rs:784-835 | received only when the budget covers the whole buffer; otherwise the socket is not touched |
| Drive.DriveTurn.SendDatagramReady | src/libs/agentdp-network/src/drive.rs:888-928 | sent whole or not at all; refused for budget without touching the socket |
| Drive.DriveTurn.EnqueueGuestFrame | src/libs/agentdp-network/src/drive.rs:974-990 | reserved exactly when there is a place and the budget covers the frame |
| Drive.DriveTurn.WriteGuestFrame | src/libs/agentdp-network/src/drive.rs:992-1010 | refused for budget before the session is asked; once the session has the frame it is counted |
| Drive.DriveTurn.ReadGuestFrame | src/libs/agentdp-network/src/drive.rs:1012-1048 | blocked before the session is asked; once a frame is read it is returned |
| DriveRuns.Flow.RunOps | src/libs/agentdp-network/src/drive.rs:264-1056 | any sequence of operations keeps the bounds, and no outgoing byte is lost, doubled or reordered, nor taken back once accepted |
| DriveRuns.Flow.RunTurn | src/libs/agentdp-network/src/drive.rs:264-1056 | a whole turn moves at most its byte budget and ends with a report the event loop accepts; outgoing bytes are kept as above |
| Guest.GuestIo.EnqueueFrame | src/libs/agentdp-network/src/guest.rs:162-175 | queued in order or handed back; queued also when the reactor then fails |
| Guest.GuestIo.FlushOutbound | src/libs/agentdp-network/src/guest.rs:177-213 | delivered frames followed by the queue stay the same on every path; the flush goes on until the queue is empty, the budget does not cover the next frame, or the session would block or failed, and says which |
| Guest.GuestIo.DrainReadyReads | src/libs/agentdp-network/src/guest.rs:246-281 | what was taken from the session is, in order, the events appended; reading goes on until the session would block, is closed or failed, or there is no budget or buffer, and says which |
| Guest.GuestIo.DriveReady | src/libs/agentdp-network/src/guest.rs:215-244 | without readiness for the guest nothing happens; with it delivered frames only grow and are kept as in the flush, every read becomes an event, and why frames are left or reading stops is told |
| Fifo.ApplyOutputs | src/libs/agentdp-network/src/event_loop.rs:844-900 | outputs applied followed by those left are the queue, no more than there were steps, and some left mean exhausted budget |
| Fifo.EventQueue.ProcessPass | src/libs/agentdp-network/src/event_loop.rs:562-599 | handles events in order up to the one put back, which stays first; appends of handlers to the same queue are lost |
| Fifo.LostIffReentrant | src/libs/agentdp-network/src/event_loop.rs:562-599 | a pass loses something exactly when a handler it calls appends to the queue it works on |
| Fifo.EventQueue.Run | src/libs/agentdp-network/src/event_loop.rs:562-599 | over any run of appends and passes what was handled stays handled, and without reentrant appends handled followed by queued is what it was before the run followed by exactly the items appended; in general it is all that was appended if and only if nothing was lost |
| EventLoop.SendFrames | src/libs/agentdp-network/src/event_loop.rs:820-841 | frames queued with the session followed by those left are unchanged, those queued before stay in front, also when the session fails |
| EventLoop.EventLoop.SendGuestFrames | src/libs/agentdp-network/src/event_loop.rs:816-842 | without a session all frames are dropped; with one none is |
| EventLoop.EventLoop.HandleGuestEvents | src/libs/agentdp-network/src/event_loop.rs:562-574 | queued guest events are handled in order up to the first frame refused, which stays first; a disconnect of this session is noticed exactly when it is handled |
| EventLoop.EventLoop.ReadGuest | src/libs/agentdp-network/src/event_loop.rs:331-335 | every read of the session becomes an event behind those queued, and reading stops only where the session ends it or the budget or the buffers do |
| EventLoop.EventLoop.ProcessComponentOutputs | src/libs/agentdp-network/src/event_loop.rs:544-556 | every frame, output and guest event ever queued is passed on or still queued, in order, and what was passed on only grows; outputs left mean exhausted budget |
| EventLoop.RetryNeedsProgress | src/libs/agentdp-network/src/event_loop.rs:1133-1142 | a retry implies progress |
| EventLoop.RetryIffGoesAgain | src/libs/agentdp-network/src/event_loop.rs:1133-1142 | a retry is due exactly if progress was made and the budget ran out, work is pending or a read waits for a buffer, or if a buffer is waited for and following up on queued work did something |
| EventLoop.ZeroTimeoutIff | src/libs/agentdp-network/src/event_loop.rs:1144-1160 | exactly when the timeout is zero; an expired timer alone does not make it so |
| EventLoop.EventLoop.QueuedPhase | src/libs/agentdp-network/src/event_loop.rs:303-354 | unless the session ends, the timeout asked for is zero exactly when the loop should go again, and else the one of the caller, the idle delay after an expired timer, or the time of the next timer; the guest events queued are handled, frames flushed and reads taken up to what stops them; the turn stays within its byte budget; exactly what the phase appends is added to what was ever queued, and frames, outputs and events are passed on or kept in order |
| EventLoop.EventLoop.ReadyPhase | src/libs/agentdp-network/src/event_loop.rs:361-386 | the phase after the reactor appends exactly its work to what was ever queued, passed on things only grow, and it stays within a byte budget of its own |
| EventLoop.EventLoop.DriveOnce | src/libs/agentdp-network/src/event_loop.rs:303-396 | a turn is the phase on queued work and, unless the session ends or the reactor fails, the phase on what is ready |
| EventLoop.EventLoop.RunTurns | src/libs/agentdp-network/src/event_loop.rs:303-396 | over any run of whole turns with one session, outputs applied followed by those queued are all outputs ever appended, in order, and so for frames; every phase keeps to its byte budget; the run ends early only with the session |
| BootstrapStates.BootstrapState.PrepareRetry | src/apps/agentdp-guest/src/system/bootstrap.rs:503-520 | running and failed steps become pending and keep their attempts; without one nothing changes |
| BootstrapStates.BootstrapState.StartStep | src/apps/agentdp-guest/src/system/bootstrap.rs:522-536 | the attempt number rises by one |
| BootstrapStates.BootstrapState.FindFirst | src/apps/agentdp-guest/src/system/bootstrap.rs:491-501 | the first record with a status, in map order |
| BootstrapStates.EvolvesIsTransitive | src/apps/agentdp-guest/src/system/bootstrap.rs:438-592 | attempts count starts, passed stays passed, and a second start takes a new epoch, over any sequence of stored changes |
| BootstrapStates.StartEvolves | src/apps/agentdp-guest/src/system/bootstrap.rs:522-536 | storing a start of a step that is pending or new keeps this |
| BootstrapStates.MarkEvolves | src/apps/agentdp-guest/src/system/bootstrap.rs:538-583 | storing an outcome keeps it |
| BootstrapStates.RetryEvolves | src/apps/agentdp-guest/src/system/bootstrap.rs:503-520 | storing a retry keeps it |
| BootstrapStates.StartedOncePerEpoch | src/apps/agentdp-guest/src/system/bootstrap.rs:160-170 | between two stored states of one epoch no step is started twice, nor one that was already started in it |
| BootstrapStates.ChangeEvolves | src/apps/agentdp-guest/src/system/bootstrap.rs:503-583 | every allowed change, a start, an outcome or a retry, keeps this |
| BootstrapStates.ChainGrows | src/apps/agentdp-guest/src/system/bootstrap.rs:466-471 | a log in which each stored state is one allowed change from the one before, and any two are related, stays one when an allowed change is stored |
| BootstrapStates.EpochCountsRetries | src/apps/agentdp-guest/src/system/bootstrap.rs:54-73 | between two stored states the epoch rises by one for each retry stored in between, and by nothing else |
| BootstrapSchedulers.Scheduler.NextReady | src/apps/agentdp-guest/src/system/bootstrap/scheduler.rs:34-45 | the first step in order that has not passed, is not running and whose phase, dependencies and resources allow it |
| BootstrapSchedulers.Scheduler.DrainedFindsAStep | src/apps/agentdp-guest/src/system/bootstrap/scheduler.rs:34-91 | with nothing running and work left, some step of an ordered plan may start |
| BootstrapSchedulers.Scheduler.ReadyIffMayStart | src/apps/agentdp-guest/src/system/bootstrap/scheduler.rs:34-91 | the scheduler offers exactly what the stored records allow: new or pending steps of the plan with their dependencies passed, user steps after all system steps, resources free, fewer running than may, and none failed |
| BootstrapOrder.CollectDependents | src/apps/agentdp-guest/src/system/bootstrap/scheduler.rs:101-120 | succeeds exactly if all dependencies are known and no system step depends on a user step; each step is then listed under a dependency as often as it names it |
| BootstrapOrder.PopNextReady | src/apps/agentdp-guest/src/system/bootstrap/scheduler.rs:173-183 | the least ready identifier, of a system step as long as one is ready |
| BootstrapOrder.Release | src/apps/agentdp-guest/src/system/bootstrap/scheduler.rs:137-151 | after a step, the numbers kept are again those of the dependencies not placed yet, and the ready sets those at zero |
| BootstrapOrder.PlaceStep | src/apps/agentdp-guest/src/system/bootstrap/scheduler.rs:131-151 | one turn of the loop keeps the placed steps in dependency order, with system steps first |
| BootstrapOrder.StuckMeansCycle | src/apps/agentdp-guest/src/system/bootstrap/scheduler.rs:154-158 | when nothing is ready and steps are left, no order of the plan puts dependencies first |
| BootstrapOrder.OrderedSteps | src/apps/agentdp-guest/src/system/bootstrap/scheduler.rs:93-160 | succeeds exactly if identifiers are distinct, dependencies known, no system step depends on a user step, and some order puts dependencies first, and else says which of these fails; the result has the same steps, dependencies first and system steps before user steps, and at each place the first step, by phase and identifier, that could stand there |
| BootstrapOrder.OrderIsUnique | src/apps/agentdp-guest/src/system/bootstrap/scheduler.rs:93-160 | however a plan lists its steps, their order is the same |
| BootstrapEvents.SelectSplits | src/apps/agentdp-guest/src/system/bootstrap.rs:327-343 | each status splits the plan into completed and pending steps |
| BootstrapEvents.GoesOn | src/apps/agentdp-guest/src/system/bootstrap.rs:148-218 | one after the other, two parts of a run are a part of a run: what is stored has its cause, output is forwarded, starts are told, and only a bad answer makes it fail |
| BootstrapEvents.HandledNext | src/apps/agentdp-guest/src/system/bootstrap.rs:220-247 | acting on one more task event keeps the account of which event led to which stored outcome |
| Bootstrap.Executor.PrepareRetry | src/apps/agentdp-guest/src/system/bootstrap.rs:54-73 | a repeated epoch changes nothing; the next one takes effect exactly if something is unfinished and the file is replaced, and is reported so exactly if the write also succeeds; any other is refused |
| Bootstrap.Executor.MarkInterruptedStep | src/apps/agentdp-guest/src/system/bootstrap.rs:128-146 | of several running steps only the first becomes failed, with exit status -1, and the run ends saying so |
| Bootstrap.Executor.ReportExistingFailure | src/apps/agentdp-guest/src/system/bootstrap.rs:111-126 | a stored failure ends the run at once, with its own exit status |
| Bootstrap.Executor.StartStep | src/apps/agentdp-guest/src/system/bootstrap.rs:164-186 | only a step that may start is started; it is stored and reported before it runs |
| Bootstrap.Executor.FinishPassedStep | src/apps/agentdp-guest/src/system/bootstrap.rs:249-272 | the status after a passed step still says failed when another has failed |
| Bootstrap.Executor.FinishFailedStep | src/apps/agentdp-guest/src/system/bootstrap.rs:274-301 | nothing starts after a failure, and the first failure is kept |
| Bootstrap.Executor.HandleTaskEvent | src/apps/agentdp-guest/src/system/bootstrap.rs:220-247 | a step that ended with exit status zero, in time, becomes passed, any other end makes it failed with its exit status, and a step that broke ends the run; output is forwarded and changes nothing else |
| Bootstrap.Executor.StartReadySteps | src/apps/agentdp-guest/src/system/bootstrap.rs:160-186 | starts steps until the records allow none; it never stops short with nothing running and work left, so the error for that case cannot occur |
| Bootstrap.Store.Save | src/libs/agentdp-platform/src/fs.rs:173-199 | the file is replaced as a whole or not at all; an error can also mean that it was replaced |
| Bootstrap.Executor.DrainMessages | src/apps/agentdp-guest/src/system/bootstrap.rs:370-380 | output still waiting when the steps have ended is forwarded, in order, and nothing else, up to the first event the sink refuses |
| Bootstrap.Executor.RunSteps | src/apps/agentdp-guest/src/system/bootstrap.rs:148-218 | completed only with all steps of the plan passed, failed only with a failed record, and then all output was forwarded and no record says running; every start was allowed and every outcome stored is the one a task reported, in order; without a bad answer it stops early only with all that was reported acted on and a step still running, or on a step that broke |
| Bootstrap.Executor.Run | src/apps/agentdp-guest/src/system/bootstrap.rs:48-109 | a plan is refused exactly when it has no order, before anything is loaded; any other run says first what it found, and if it returns normally ends with the one terminal event, finished only if all steps of the plan have passed, failed only with a record that says so; what it stores is a repeated failure, the first interrupted step, or starts that were allowed and outcomes that tasks reported; it is cut off only by a bad answer, a broken step, or with a step still running and all that was reported acted on; no running or passed step is started |
| Bootstrap.Executor.History | src/apps/agentdp-guest/src/system/bootstrap.rs:48-73 | over any runs, crashes and retries, each stored state is one allowed change from the one before, so the epoch moves only by one, with a stored retry of a state with a running or failed step, and at most once for each retry request; between any two states, each start is one more attempt, a step that has passed stays passed and is not started again, and no step is started twice in an epoch; whenever a step was started, none had failed, its dependencies had passed, and the steps running beside it were few enough and shared no resource |

## Left out

- Base64.Encode: the encode and decode loop bodies are separate methods here, and the tables are functions of the index; `Base64Decode.BuildDecodeTable` shows how the decode table comes about.
- Rng.DeterministicRng.Below: `choice` indexes a slice with one sample and `chance` compares one with a numerator, so both say nothing beyond the sample; the parsing, printing and naming of seeds turns text into the one word a generator starts from, and the theorems hold for every such word.
- Utf8Stream.Utf8Stream.Push: the standard library's check of UTF-8 is modelled by its documented result.
- JsonLines.ReadAll: the client's loop over `read_line` is not part of the source file; it states what whole runs give. The wording of errors is left out.
- ShellQuoting.RemoteCommandIsOneWord: options of the ssh client before the remote command are carried along as text, the port included; operators and expansions of the shell outside quotes are outside the reader's scope, as no quoted text contains them bare.
- SeedWriter.BuildImage: writing the image to a file is left out; machine-word overflow of sizes is not modelled, and cannot occur for images of at most 32768 sectors.
- SeedWriter.WriteBootSector: takes a layout whose sector counts fit their fields, which `layout_for` ensures; the conversions that would fail otherwise are not repeated.
- Drive.DriveTurn.DriveProtocolOp: the value a callback returns beside its byte count is not carried; callbacks are required to report no more than the chunk they were offered, as the source asserts.
- Drive.DriveTurn.ReceiveDatagramReady: the variants with a peer address, the smoltcp socket operations, `take_protocol_output`, `poll_gateway` and the variant of output pushes after progress follow the same pattern and are not repeated.
- Drive.DriveTurn.ReadStreamReady: whether a buffer is available, and how large it is, are parameters; the buffer pool is not modelled.
- DriveRuns.Flow.RunOps: sequences of operations are over one flow at a time; callbacks' answers are cut to their chunk.
- EventLoop.EventLoop.QueuedPhase: what host ports, proxies, the gateway and timers do in a phase is any sequence of drive operations and appends; commands, connecting and reconnecting are left out, so the session is fixed for a run of turns; the reactor's answer is a parameter, and telemetry and status are left out. Of the event queues that handlers work on, the guest queue is part of the phase; those of host ports and of UDP are drained by the same pass (`Fifo.EventQueue.ProcessPass`) and come in as work.
- Fifo.EventQueue.Run: what handlers do beside handling or putting back an event is their verdict and what they append; the handlers themselves are not modelled.
- BootstrapStates.BootstrapState.StartStep: attempts and epochs are unbounded numbers here, so wrap-around after 2^32 attempts and the saturated epoch are not modelled; durations, messages and output tails of records are left out.
- BootstrapSchedulers.Scheduler.NextReady: how many steps the machine runs in parallel is a parameter, at least 1 as in the source.
- BootstrapOrder.OrderedSteps: which step, dependency or identifier an error names is left out; errors that cannot occur (a step that disappears while being ordered) have no case.
- Bootstrap.Executor.Run: JSON, the hash of a plan (an equality token here), the executor of a step and the queue of task events are left out; identifiers are numbers in the order of the record map; the order in which output of parallel tasks arrives is a parameter, and a report for a step that is not running, which no task sends, is passed over; a state file that cannot be read or parsed is not modelled.
- Command line, install and doctor code, server start and platform bindings pass arguments to other programs and system calls, whose behaviour is outside the repository; the editor extension draws a user interface.
- Telemetry and event text count and describe what happened and are read by nothing modelled here. Egress policy allows or refuses traffic by its rules; either decision is covered, because what components append is arbitrary. What expired timers do is likewise arbitrary work, and the time until the next one is a parameter of `EventLoop.QueuedPhaseTimeout`.

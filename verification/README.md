# dockerdless in Dafny

A model of the parts of the dockerdless daemon whose correctness spans several functions, with proofs about them:

- **Logs and streams.** Container output becomes CRI log lines, a tailing and following reader reads them back, and
  Docker's 8-byte framing ("Stream format" of "Attach to a container", Docker Engine API v1.44) carries them to the
  client. Proved: both parser/printer pairs are inverse, the block-wise tail scan finds the one right offset, follow
  mode is exactly-once over every append-only history, and the whole pipeline returns every stream's writes.
- **Host ports.** The allocator never holds two conflicting reservations over any run, batches are all-or-nothing even
  when other callers interleave, and over whole runs of create, start, stop, remove, network connect and inspect the
  reserved set is the disjoint union of the registered containers' bindings. The steps that break this are
  characterized exactly: a step is one of them if and only if some otherwise smooth run after it ends with a port
  reserved for nobody or registered without being reserved.
- **Registry and startup.** The two indexes refine a single map, and reconciliation partitions containers and tasks.
- **Build progress, subnets and API versions.** Safety and completeness of the progress translator over all status
  batches, disjointness of automatic subnets over runs, the version order, and where the two version parsers agree.

Each stateful object is a class whose methods are proved against specification functions; the theorems are lemmas about
those functions. Every module is in the file of the same or a similar name:

| modules | subject |
|---|---|
| `Bytes`, `Text`, `Ordering`, `Sinks` | bytes, Go string operations, identifier order, destinations with arbitrary failures |
| `Stdcopy`, `Demultiplexing` | framing and demultiplexing |
| `LogTail`, `LogLines`, `LogFollow`, `LogReading`, `CriLog`, `LogPipeline`, `LogSelection` | the log reader and writer, end to end, under every option |
| `PortMap`, `PortBatch`, `PortAllocators` | host-port reservations |
| `Domain`, `ContainerRegistry`, `Reconciliation`, `Startup` | the registry and its recovery |
| `Lifecycle`, `Ownership`, `Records`, `Service` | the lifecycle protocol, its ownership theorems, what it records, and the objects that run it |
| `BuildProgress`, `BuildReports`, `BuildRun` | the build progress translator |
| `Subnets`, `ApiVersion` | automatic subnets, version negotiation |

## What is a parameter

- Timestamps are a `Codec` with `parse(format(t)) = t` whose text holds no space and no newline; the zero time is 0.
- The log file is what each open of it shows: its size, the bytes a tail scan finds and the bytes the read reaches. A
  poll schedule says which opens fail, when the context is cancelled, and what the final flush finds.
- A destination (`Sinks.Sink`) has an arbitrary plan of short and failing writes.
- Probe answers, the wildcard test on host addresses, CNI and runtime outcomes, reported states and context liveness are
  arguments of each operation. A removal is also told which networks still resolve when it disconnects (none once its
  context has ended), apart from whether the context is live at the registry's call. The runtime is only assumed to give
  a new container an unused ID and to report no state "running" for a container without a live task.
- Other callers of the allocator run any operations between the lock regions of a batch.
- `render` stands for the size and percentage texts of build progress.

## Where code and comments differ

- `ReadFrame` says a truncated frame gives `io.ErrUnexpectedEOF`; cut right after its header it gives `io.EOF`. The model
  follows the code (`Demultiplexing.ShortRead`), and `Demux` treats both as the end.
- `ContainerCreate` returns without releasing ports if its labels cannot be encoded (internal/app/containers.go:58-61).
  The labels are strings, booleans and lists of strings, which JSON always encodes, so no request reaches that branch; it
  is kept in the model as the flag `labelsOk` because the code has it.
- The comment on `attachNetwork` says the create-time reservations are released and taken again; with the CNI adapter
  they are adopted in place, and a failed join changes nothing (`Ownership.RestoreIsNoop`).

## Model

| member | source | states |
|---|---|---|
| `Stdcopy.Writer.Write` | internal/streams/stdcopy.go:66-91 | Whatever the destination does, it receives a prefix of the payload's wire form; the count is the number of payload bytes in that prefix; without an error all of it arrived. A nil payload sends nothing, an empty one a single empty frame. The error says whether the destination failed, fell short, or is missing. |
| `Stdcopy.Writer.WriteChunks` | internal/streams/stdcopy.go:77-90 | The chunk loop: the remaining payload decreases, and at every stop the count matches what reached the destination. |
| `Stdcopy.Writer.WriteNext` | internal/streams/stdcopy.go:79-85 | One turn of the loop sends the next chunk of at most 1 MiB and moves the count and the remainder together. |
| `Stdcopy.Writer.WriteChunk` | internal/streams/stdcopy.go:93-116 | One frame: a prefix of it arrives, and the count is the payload part of that prefix, in each of the short-write and error cases. |
| `Stdcopy.Writer.FrameBuffer` | internal/streams/stdcopy.go:94-98 | The buffer filled in place is the frame's wire form: stream, three zero bytes, big-endian size, payload. |
| `Stdcopy.PartialMessage` | internal/streams/stdcopy.go:77-116 | The first k bytes of a message are whole frames followed by a prefix of the next frame, and carry exactly the first Carried(k) payload bytes. |
| `Stdcopy.CarriedStep` | internal/streams/stdcopy.go:83-85 | Payload counts add up over whole frames plus a partial one. |
| `Stdcopy.ChunksKeepPayload` | internal/streams/stdcopy.go:78-82 | Cutting a payload into chunks loses and reorders nothing. |
| `Stdcopy.FrameLayout` | internal/streams/stdcopy.go:93-98 | A frame byte by byte: the stream, three zeros, the length with its most significant byte first, the payload. |
| `Stdcopy.EmptyMessage` | internal/streams/stdcopy.go:73-76 | An empty payload is eight header bytes. |
| `Demultiplexing.BigEndianRoundTrip` | internal/streams/stdcopy.go:97-142 | The size field reads back as written, for every 32-bit size. |
| `Demultiplexing.ParseEncoded` | internal/streams/stdcopy.go:93-151 | Reading a frame undoes writing it, whatever follows it on the wire. |
| `Demultiplexing.DecodeFrames` | internal/streams/stdcopy.go:157-184 | Ordinary frames decode to themselves, followed by what the rest of the wire decodes to. |
| `Demultiplexing.WireIsFrames` | internal/streams/stdcopy.go:66-91 | Any sequence of writes puts whole frames on the wire, none over 1048576 bytes, so the 32 MiB cap never fires. |
| `Demultiplexing.MuxRoundTrip` | internal/streams/stdcopy.go:28-184 | For writes of any length on any mix of streams sharing one destination, demultiplexing meets no error, gives each stream its exact concatenation, and counts the total payload. |
| `Demultiplexing.CutFrame` | internal/streams/stdcopy.go:132-151 | A frame cut in its header, right after it, or in its payload delivers nothing and is not an error. |
| `Demultiplexing.TruncationTolerance` | internal/streams/stdcopy.go:132-184 | Every prefix of a wire of ordinary frames decodes without error to the frames wholly inside it. |
| `Demultiplexing.DaemonErrorEnds` | internal/streams/stdcopy.go:168-170 | A Systemerr frame after ordinary frames ends the stream with the daemon's message, after those frames were delivered, whatever follows. |
| `Demultiplexing.UnknownStreamEnds` | internal/streams/stdcopy.go:136-141 | A header with a stream other than 0 to 3 ends it with that stream's number. |
| `Demultiplexing.TooLargeEnds` | internal/streams/stdcopy.go:142-145 | A header that announces more than 33554432 bytes ends it with that size. |
| `Demultiplexing.SourceFailureEnds` | internal/streams/stdcopy.go:161-166 | A source that fails inside or before a frame ends it with that failure, after the whole frames. |
| `Demultiplexing.CutEnd` | internal/streams/stdcopy.go:132-151 | Reading a cut frame gives EOF with nothing of the header or of the payload, and UnexpectedEOF inside either. |
| `Demultiplexing.FramesWithinIsLargest` | internal/streams/stdcopy.go:157-184 | The frames wholly inside a prefix are the largest number of leading frames that fit. |
| `Demultiplexing.Source.ReadFull` | internal/streams/stdcopy.go:133-147 | A full read fills the buffer or reports how the source ended: EOF only when nothing was left. |
| `Demultiplexing.Reader.ReadFrame` | internal/streams/stdcopy.go:132-151 | The next frame, or an unknown stream, an oversized frame, or the way the source ended; the source moves past exactly the frame read. |
| `Demultiplexing.Reader.NextFrame` | internal/streams/stdcopy.go:160-170 | One turn of the loop peels the first frame off the decoding, or yields its end: truncation is none, Systemerr is the daemon's error. |
| `Demultiplexing.Deliver` | internal/streams/stdcopy.go:171-182 | A frame goes to its own destination only; failures and short writes are reported with the bytes taken. |
| `Demultiplexing.DeliverNext` | internal/streams/stdcopy.go:160-182 | One turn of the loop: the next frame reaches its destination, or the stream or a destination ends it, with the bytes taken. |
| `Demultiplexing.Demux` | internal/streams/stdcopy.go:157-184 | Destinations, which may be one object, hold prefixes of their streams and the count is the bytes they took; if neither fails, they hold all of it and the stream's own end is returned. A failing destination and one that falls short are told apart. |
| `LogTail.TailStartMeaning` | internal/streams/logs.go:107-144 | The tail offset is the unique line boundary after which exactly min(n, number of complete lines) complete lines remain. |
| `LogTail.FindTailStart` | internal/streams/logs.go:110-144 | For every file, every n and every block size of at least 1, the backward block scan returns that offset, and 0 for n ≤ 0. |
| `LogLines.ParseRendered` | internal/streams/logs.go:71-105 | Parsing a rendered CRI line gives back its time, stream and content with the newline, spaces in the content included. |
| `LogLines.CutAfter` | internal/streams/logs.go:99-105 | A token without a space is cut off exactly, whatever follows. |
| `LogLines.PassBoundary` | internal/streams/logs.go:268-301 | A follow pass ends on a line boundary, whatever Since and Until are. |
| `LogLines.PassExtends` | internal/streams/logs.go:268-301 | Reading a file and later, after it grew, on from the saved offset equals one read of the grown file; a read that Until ended is not changed by growth. |
| `LogLines.PassIsLinewise` | internal/streams/logs.go:268-301 | A pass writes the complete lines from its offset, each once and in order, up to the first line newer than Until. |
| `LogLines.LineEndExtends` | internal/streams/logs.go:274-279 | A complete line stays the same line when the file grows. |
| `LogLines.LawfulCodecExists` | internal/streams/logs.go:76-79 | The assumptions on timestamps can be met. |
| `LogFollow.Continue` | internal/streams/logs.go:223-236 | Appended bytes never trigger the rotation reset, and reading on from the saved offset continues the one pass. |
| `LogFollow.PollContinues` | internal/streams/logs.go:176-206 | One poll, cancelled or not, extends the total output to one pass over the file as now seen. |
| `LogFollow.RunContinues` | internal/streams/logs.go:157-171 | Any number of polls does the same. |
| `LogFollow.UpToDateBoundary` | internal/streams/logs.go:193-195 | The offset saved after a poll is a line boundary. |
| `LogFollow.FirstOpen` | internal/streams/logs.go:223-230 | The first open starts at the tail offset, a line boundary. |
| `LogFollow.ExactlyOnce` | internal/streams/logs.go:157-301 | For every append-only growth and every schedule of polls, missed opens and cancellation, the output is the complete lines of the final file from the first tail offset: none lost, repeated or reordered; nothing if the file was never opened. |
| `LogFollow.SingleRead` | internal/streams/logs.go:199-201 | Without follow the first open is read once from its tail. |
| `LogReading.LogOutput.Write` | internal/api/handlers_containers.go:161-166 | A write reaches the response framed, or bare for a TTY, whole or as a prefix when it fails. |
| `LogReading.LogOutput.WriteEntry` | internal/streams/logs.go:326-340 | The timestamp, if asked for and present, and then the content, to the entry's stream. |
| `LogReading.EmitLine` | internal/streams/logs.go:280-290 | One line is decoded and filtered as the format and Since say; what that means is in `LogSelection.LineSelected` and `LogSelection.BareLine`. |
| `LogReading.EmitLogLines` | internal/streams/logs.go:268-301 | The response gains a prefix of the pass's output, all of it unless a write fails, with the pass's offset and stop. |
| `LogReading.EmitNext` | internal/streams/logs.go:274-298 | One turn of the loop: an incomplete line in follow mode and a line newer than Until end it, any other moves the offset with what was written. |
| `LogReading.LogReadState.Track` | internal/streams/logs.go:223-236 | Tail on the first open, reset to 0 on a new file identity or a truncation, else unchanged. |
| `LogReading.LogReadState.Flush` | internal/streams/logs.go:240-266 | The final flush continues from the saved offset, or from 0 if the file shrank; nothing before the first open. |
| `LogReading.LogReadState.ReadOpened` | internal/streams/logs.go:184-205 | An iteration that opened the file. |
| `LogReading.LogReadState.ReadLogsOnce` | internal/streams/logs.go:176-219 | One iteration has the output, state and status of the poll step; a missing file is an error only without follow. |
| `LogReading.ReadLogs` | internal/streams/logs.go:157-171 | The response holds a prefix of the run's output, and all of it unless a write failed. |
| `CriLog.RenderStep` | internal/app/logs.go:117-130 | The CRI lines of a write start with the line up to its first newline. |
| `CriLog.SplitAppend` | internal/app/logs.go:117-130 | Cutting a write at the end of one of its lines splits its lines there. |
| `CriLog.CriLogWriter.Write` | internal/app/logs.go:113-133 | The file gains the CRI lines of the write, a prefix if a write fails; on a failure it holds the CRI lines of exactly the bytes counted, which end a line of the input, followed by a prefix of the next CRI line. |
| `CriLog.CriLogWriter.Advance` | internal/app/logs.go:117-130 | One turn of the loop keeps the lines so far, the file and the rest of the write in step. |
| `CriLog.CriLogWriter.WriteFirst` | internal/app/logs.go:118-130 | One turn writes the first line and takes its newline too. |
| `CriLog.CriLogWriter.WriteLine` | internal/app/logs.go:135-138 | One formatted line is one write. |
| `LogPipeline.TextOfSplit` | internal/app/logs.go:113-133 | The lines of a write, each with its newline, are the write, which gains exactly one newline if it is non-empty and lacks a final one. |
| `LogPipeline.WriteExtendsFile` | internal/app/logs.go:113-138 | A successful write extends the file by that write's lines and nothing else. |
| `LogPipeline.FileLines` | internal/app/logs.go:135-138 | The complete lines of a log file are the rendered lines, one each. |
| `LogPipeline.ReadBack` | internal/streams/logs.go:268-340 | Reading rendered lines with the CRI format and no filters writes each content once, to its own stream. |
| `LogPipeline.ReadIsFaithful` | internal/streams/logs.go:157-206 | For any interleaving of stdout and stderr writes, encoding, reading, framing and demultiplexing return each stream's writes in order, each non-empty write without a final newline gaining one. |
| `LogPipeline.FollowIsFaithful` | internal/streams/logs.go:157-301 | The same for follow mode, whatever the polls saw of the growing file. |
| `LogPipeline.FetchLogs` | internal/api/handlers_containers.go:161-171 | The reader, the framed writers and the demultiplexer, run together, deliver what those theorems and the ones on selection say. |
| `LogSelection.CutMeaning` | internal/streams/logs.go:99-105 | A token is cut off exactly at the first space. |
| `LogSelection.PartialMeaning` | internal/streams/logs.go:94-94 | A line is partial exactly if its tag is P or starts with P and a colon. |
| `LogSelection.CriMeaning` | internal/streams/logs.go:71-97 | Three space-free tokens and a rest parse to the entry they spell, unless the time does not parse or the stream is neither stdout nor stderr. |
| `LogSelection.ParsedShape` | internal/streams/logs.go:71-97 | Nothing else parses. |
| `LogSelection.FormatMeaning` | internal/streams/logs.go:303-316 | Raw takes every line as it stands; the CRI format skips lines that do not parse; auto takes those as they stand. |
| `LogSelection.BareLine` | internal/streams/logs.go:318-324 | A line without a timestamp passes Since and Until and goes to stdout unstamped. |
| `LogSelection.LineSelected` | internal/streams/logs.go:280-290 | A CRI line ends the read if its time is later than Until, is dropped if earlier than Since, and is otherwise written to its stream, after its time and a space if asked for; a zero time or limit never filters. |
| `LogSelection.ReadSelected` | internal/streams/logs.go:268-340 | Reading the writer's lines returns exactly the lines Since and Until select, in order, under every option. |
| `LogSelection.TailOfFile` | internal/streams/logs.go:110-144 | The tail of a log file starts where its last n lines do. |
| `LogSelection.ReadReturnsSelected` | internal/streams/logs.go:157-206 | A single read, framed and demultiplexed, returns on each stream exactly that stream's lines among the last n that Since and Until select, stamped if asked for. |
| `LogSelection.FollowReturnsSelected` | internal/streams/logs.go:157-301 | Following returns the same for the lines after the first open's tail, whatever the polls saw. |
| `LogSelection.RawReturnsAll` | internal/streams/logs.go:303-306 | The raw format returns the complete lines as they stand, on stdout. |
| `LogSelection.RotationRestarts` | internal/streams/logs.go:231-233 | After a replacement or truncation of the file the next poll reads it from its beginning. |
| `LogSelection.TruncationFlushes` | internal/streams/logs.go:260-262 | So does the final flush after a truncation. |
| `LogSelection.SameFileContinues` | internal/streams/logs.go:231-264 | Otherwise both read on from the saved offset. |
| `LogSelection.PollOutcome` | internal/streams/logs.go:176-219 | A missing file is an error without follow and awaited with it; an opened one ends the read without follow, on cancellation and beyond Until. |
| `LogSelection.DoneMeaning` | internal/streams/logs.go:282-284 | Until ends a read exactly if one of the lines reached is newer. |
| `LogSelection.RenderedBytes` | internal/app/logs.go:135-138 | The bytes of a log line: time, space, stream name, F between spaces, content, newline. |
| `PortMap.NormalizeProtocolTwice` | internal/adapters/cni/portmap.go:259-268 | Normalizing a protocol again changes nothing. |
| `PortMap.NormalizeHostIPTwice` | internal/adapters/cni/portmap.go:270-276 | Normalizing a host address again changes nothing. |
| `PortMap.ProtocolMeaning` | internal/adapters/cni/portmap.go:259-268 | tcp and udp are recognized in any case and within white space, no protocol means tcp, and any other is refused. |
| `PortMap.HostIPMeaning` | internal/adapters/cni/portmap.go:270-276 | An address counts without the white space around it; none means 0.0.0.0. |
| `PortMap.ConflictsMeaning` | internal/adapters/cni/portmap.go:222-232 | A port is in use exactly if a reservation of the same protocol and port has the same address or either address is a wildcard. |
| `PortMap.SafeMeaning` | internal/adapters/cni/portmap.go:222-232 | In a safe allocator two reservations of one protocol and port have different addresses, neither a wildcard. |
| `PortMap.FixedMeaning` | internal/adapters/cni/portmap.go:124-140 | A fixed request is in use exactly if such a reservation exists or the system says so, and granted exactly if it is free and the system binds that port. |
| `PortMap.NamedKeyStable` | internal/adapters/cni/portmap.go:160-170 | Releasing by a stored allocation names the key that was reserved. |
| `PortMap.DynamicTakesFirst` | internal/adapters/cni/portmap.go:142-156 | A dynamic request succeeds exactly when a free port is offered within the attempts and only reserved ones before it, and takes that port. |
| `PortMap.DynamicFailure` | internal/adapters/cni/portmap.go:142-156 | Why it fails: the first answer that offers no port, or only reserved ports in all attempts. |
| `PortMap.AllocateSafe` | internal/adapters/cni/portmap.go:114-157 | Whatever the probe returns, a granted port is normalized, nonzero, the requested one if fixed, and differs in address, without wildcards, from every reservation of its protocol and port; the allocator stays safe. |
| `PortMap.AdoptMeaning` | internal/adapters/cni/portmap.go:172-188 | Adoption succeeds exactly when every binding names a reserved key, and returns the allocations whose release frees the bindings' keys. |
| `PortMap.AdoptedInOrder` | internal/adapters/cni/portmap.go:172-188 | Adopted allocations are the bindings, normalized and in order; a refusal names a binding's problem. |
| `PortMap.ReleasedMeaning` | internal/adapters/cni/portmap.go:160-170 | Releasing frees exactly the keys the allocations name after normalization. |
| `PortBatch.RivalsKeepMine` | internal/adapters/cni/portmap.go:203-220 | Other callers between two lock regions cannot take or release the batch's keys. |
| `PortBatch.BatchFromOutcome` | internal/adapters/cni/portmap.go:203-220 | From any point of the loop: all filled, or none of the batch's keys left. |
| `PortBatch.OnlyOwnKeysUndone` | internal/adapters/cni/portmap.go:208-211 | A failing batch takes away exactly its own keys from what was reserved when it stopped. |
| `PortBatch.BatchAllOrNothing` | internal/adapters/cni/portmap.go:203-220 | With interleaving callers: failure removes exactly the batch's own keys; success keeps length, order, container ports and fixed host ports, with nonzero host ports that differ in address, without wildcards, where protocol and port agree. |
| `PortBatch.UndisturbedBatch` | internal/adapters/cni/portmap.go:203-220 | Alone, a batch leaves the other reservations as they were. |
| `PortBatch.FilledMappings` | internal/adapters/cni/portmap.go:236-257 | Bindings filled by a batch are refused exactly when one has container port 0. |
| `PortBatch.MappingsMeaning` | internal/adapters/cni/portmap.go:236-257 | Mappings carry every binding's ports, protocol and address, in order; they are refused exactly for a zero port or an unsupported protocol. |
| `PortBatch.BatchErrorIsReal` | internal/adapters/cni/portmap.go:206-211 | A failing batch returns the error of one of its allocations. |
| `PortAllocators.PortAllocator.ConflictsLocked` | internal/adapters/cni/portmap.go:222-232 | The scan finds a conflict exactly when a reservation of the same protocol and port has an equal or wildcard address. |
| `PortAllocators.PortAllocator.Allocate` | internal/adapters/cni/portmap.go:114-157 | The fixed and dynamic requests as specified, reserving exactly the key granted; a fixed one is in use exactly if an equal or wildcard reservation exists or the system says so. |
| `PortAllocators.PortAllocator.Release` | internal/adapters/cni/portmap.go:160-170 | Exactly the named keys are freed; unsupported protocols are skipped. |
| `PortAllocators.PortAllocator.AdoptBindings` | internal/adapters/cni/portmap.go:172-188 | Adoption changes no reservation and stops at the first unsupported or unreserved binding. |
| `PortAllocators.PortAllocator.IsUsed` | internal/adapters/cni/portmap.go:191-199 | True exactly when a reservation of the same protocol and port has the same address or either is a wildcard. |
| `PortAllocators.PortAllocator.AllocateBindings` | internal/adapters/cni/portmap.go:203-220 | The loop, with other callers before each lock region, has the batch's outcome. |
| `PortAllocators.RunSafe` | internal/adapters/cni/portmap.go:114-232 | After any sequence of allocate, batch, adopt and release, two reservations of one protocol and port have different addresses, neither a wildcard. |
| `ContainerRegistry.ApplyWellKept` | internal/domain/registry.go:84-158 | Each operation keeps records under their own non-empty ID and names unique. |
| `ContainerRegistry.RunsAreWellKept` | internal/domain/registry.go:84-158 | So does every run. |
| `ContainerRegistry.FailuresChangeNothing` | internal/domain/registry.go:84-158 | A failing operation changes nothing. |
| `ContainerRegistry.ReindexedAgrees` | internal/domain/registry.go:126-136 | Filing a record whose name is free keeps the two indexes in agreement. |
| `ContainerRegistry.NameIndex` | internal/domain/registry.go:96-128 | The name index decides conflicts as a search of all records would. |
| `ContainerRegistry.Registry.Get` | internal/domain/registry.go:42-54 | The record under the ID; a finished context and a missing record are told apart. |
| `ContainerRegistry.Registry.GetByName` | internal/domain/registry.go:57-66 | What a linear search by non-empty name finds. |
| `ContainerRegistry.Registry.List` | internal/domain/registry.go:69-81 | Exactly the records, in strictly ascending order of ID. |
| `ContainerRegistry.Registry.Rename` | internal/domain/registry.go:84-106 | The record bears the new name and nothing else changed, or one of three refusals, each exactly in its case; the indexes still agree. |
| `ContainerRegistry.Registry.Save` | internal/domain/registry.go:109-138 | The record is stored with missing image names filled in, or one of three refusals, each exactly in its case; the indexes still agree. |
| `ContainerRegistry.Registry.Remove` | internal/domain/registry.go:141-158 | The record is gone and no other changed, or it is missing or the context is done; the indexes still agree. |
| `ContainerRegistry.Registry.Run` | internal/domain/registry.go:84-158 | Any run on the two indexes is the same run on one map. |
| `Ordering.SortedUnique` | internal/domain/reconcile.go:117-120 | A set has only one strictly sorted enumeration. |
| `Ordering.LessMeaning` | internal/domain/registry.go:77-79 | The order of IDs is decided at the first difference, a prefix coming first. |
| `Ordering.Sorted` | internal/domain/registry.go:71-80 | The strictly sorted enumeration of a set. |
| `Reconciliation.TaskForMeaning` | internal/domain/reconcile.go:124-135 | A container's task is one of the snapshots with its identity; none exactly if no snapshot has it. |
| `Reconciliation.IdentityMeaning` | internal/domain/reconcile.go:124-135 | A task belongs to a container if each of its IDs is that container's or empty, and not both are empty. |
| `Reconciliation.MergedMeaning` | internal/domain/reconcile.go:137-164 | A merged container takes over exit code, flags, error and times from its task, is running, paused and so on exactly if the task is, and keeps the rest; only an unsupported status fails. |
| `Reconciliation.StaleFields` | internal/domain/reconcile.go:99-114 | A container without a task is exited and not dead, and keeps the rest. |
| `Reconciliation.CheckMetadata` | internal/domain/reconcile.go:68-77 | Refused exactly when an ID is empty or repeated. |
| `Reconciliation.IndexTasks` | internal/domain/reconcile.go:79-90 | Refused exactly when an identity is invalid or repeated; otherwise every task is filed under its identity. |
| `Reconciliation.MergeAll` | internal/domain/reconcile.go:92-121 | The merging loop, which deletes tasks as it uses them, ends in a reconciliation or fails exactly on an unsupported status. |
| `Reconciliation.Reconcile` | internal/domain/reconcile.go:67-122 | Succeeds exactly when metadata and tasks are distinct and valid and statuses supported, with a reconciliation as result; a refusal names a problem the inputs have. |
| `Reconciliation.ReconciliationUnique` | internal/domain/reconcile.go:67-122 | The inputs determine the result, cleanup order included. |
| `Reconciliation.PermutationInvariant` | internal/domain/reconcile.go:79-121 | Permuting the task list changes neither success nor the result. |
| `Reconciliation.ReconcilePartitions` | internal/domain/reconcile.go:97-121 | Containers keep order and IDs; each is stale exactly when it has no task and otherwise takes over what its task reports; every task belongs to one container or to cleanup, never both. |
| `Startup.RecoveryOutcome` | cmd/dockerdless/reconciliation.go:36-39 | Saving recovered containers into an empty registry succeeds exactly when no two share a non-empty name, and then it holds exactly them. |
| `Startup.ReconciledIsRecoverable` | internal/domain/reconcile.go:97-116 | Reconciled containers have distinct non-empty IDs, complete image names and the metadata's names. |
| `Startup.SaveRecovered` | cmd/dockerdless/reconciliation.go:36-39 | The saving loop stops at the first refusal. |
| `Startup.ReconcileAtStartup` | cmd/dockerdless/reconciliation.go:27-53 | The registry ends up holding exactly the reconciled containers if and only if the snapshots reconcile and names are distinct. |
| `Records.FillImagesMeaning` | internal/domain/registry.go:116-121 | Either image name stands in for a missing one; nothing else is touched. |
| `Records.CreateRecords` | internal/app/containers.go:34-106 | A create succeeds exactly under its conditions, and the record then has the request's name, image, network and filled ports in the created state; otherwise no record changes. The default network is made on demand. |
| `Records.JoinMeaning` | internal/app/containers.go:491-536 | A container joins a network exactly if its first one is neither empty nor host nor none, and the join fails exactly without PID, network, CNI or with a zero container port. |
| `Records.StartRecords` | internal/app/containers.go:250-354 | A start that joins leaves the task running, the record saying so with the joined network, and an attachment holding its ports; a task that exited is recorded as reported. |
| `Records.FailedStartRecords` | internal/app/containers.go:299-337 | A failed join changes nothing, leaves the task, or records the exit and frees the ports, as the task is stopped, stays or exited. |
| `Records.StopRecords` | internal/app/containers.go:357-383 | Stopping past the created state ends the task and records it as exited, and nothing else. |
| `Records.RemoveRecords` | internal/app/containers.go:386-422 | A removal is refused without force for a live container; otherwise exactly the reached attachments go, and the record if both last calls succeed. |
| `Records.ConnectRecords` | internal/app/networks.go:90-141 | Connecting a running container appends the network once and tracks an attachment without ports; otherwise nothing changes. |
| `Records.InspectRecordsState` | internal/app/containers.go:614-648 | A live task is recorded as running, any other state as reported, and created stays created. |
| `Records.NetworkRecords` | internal/adapters/cni/networkconfig.go:84-104 | A network is added unless its name is empty or, in any case, host or none; it is removed unless an attachment is on it. |
| `Ownership.StepKeepsOwnership` | internal/app/containers.go:34-422 | From an owned state, a step keeps ports owned and releasable if and only if it is not one of the disrupting steps. |
| `Ownership.DisruptsExactly` | internal/app/containers.go:34-422 | A step disrupts if and only if some run after it, in which nothing else goes wrong, ends with a port reserved for nobody or registered and not reserved: the condition is exact for ownership itself. |
| `Ownership.SmoothKeeps` | internal/app/containers.go:34-422 | A step in which every call succeeds, and which connects to new networks only, never disrupts an owned state. |
| `Ownership.StrandedLeaks` | internal/app/containers.go:386-422 | A running container whose ports no attachment holds loses them for good: inspected, exited and removed without any failure, its ports stay reserved. |
| `Ownership.RunsKeepOwnership` | internal/app/containers.go:34-422 | Over every undisrupted run the reserved set is exactly the disjoint union of the registered containers' bindings, without conflicts. |
| `Ownership.InitialOwnership` | cmd/dockerdless/reconciliation.go:27-53 | A daemon that just started, with containers recovered without ports, is in an owned state. |
| `Ownership.BatchEffect` | internal/app/containers.go:590-595 | A batch under the service's lock adds exactly the filled bindings' keys, or nothing. |
| `Ownership.CreateKeeps` | internal/app/containers.go:53-105 | Create, successful or failing at any point but the labels, keeps ownership. |
| `Ownership.CreateLeaks` | internal/app/containers.go:58-61 | If labels could not be encoded after ports were reserved, a port would stay reserved for nobody; the labels the daemon encodes are all encodable, so no request gets there. |
| `Ownership.RestoreIsNoop` | internal/app/containers.go:560-571 | Re-reserving ports that are still reserved fails at once and changes nothing. |
| `Ownership.StartJoined` | internal/app/containers.go:264-271 | A start that joins keeps ownership, whether or not the task exits afterwards. |
| `Ownership.StartFailed` | internal/app/containers.go:299-314 | A start whose join fails keeps ownership unless it disrupts. |
| `Ownership.FailedJoin` | internal/app/containers.go:299-314 | A failed join leaves the daemon as it was but for the task, and for the ports the early-exit branch frees. |
| `Ownership.StartLoses` | internal/app/containers.go:304-312 | A failed join of an exited task frees ports the record still lists; one whose task cannot be stopped leaves a running container whose ports no attachment holds. |
| `Ownership.UnstoppableLeaks` | internal/app/containers.go:311-313 | After the latter, inspecting, exiting and removing the container, all without failure, leaves its ports reserved for nobody. |
| `Ownership.EarlyExitExample` | internal/app/containers.go:304-309 | A concrete owned state and start after which ownership is lost. |
| `Ownership.FailedRemoveExample` | internal/app/containers.go:411-416 | A concrete owned state and removal after which ownership is lost. |
| `Ownership.ReconnectExample` | internal/adapters/cni/adapter.go:523-527 | A concrete owned state, a connect onto the network the container is on, and the run after it that leaks its port. |
| `Ownership.StopStepKeeps` | internal/app/containers.go:357-383 | Stopping keeps ownership. |
| `Ownership.FreedIsOwn` | internal/adapters/cni/adapter.go:613-639 | Disconnecting a container frees all of its own ports if it reaches an attachment that holds them, and nothing otherwise. |
| `Ownership.CoveredIsReached` | internal/adapters/cni/adapter.go:613-639 | Where every network resolves, an attachment that holds the ports is reached. |
| `Ownership.RemovalShape` | internal/app/containers.go:386-422 | A removal that goes ahead drops the attachments on the networks that still resolve under its context, and frees exactly the container's ports or none: always in the created state, otherwise if such an attachment holds them. |
| `Ownership.RemoveKeeps` | internal/app/containers.go:386-422 | Removal keeps ownership unless it disrupts. |
| `Ownership.RemoveLoses` | internal/app/containers.go:406-419 | A removal that frees the ports and then fails leaves a registered port unreserved; one that drops the record and reached no attachment holding them leaves a port reserved for nobody. |
| `Ownership.ConnectKeeps` | internal/app/networks.go:90-120 | Connecting a further network keeps ownership unless it replaces the attachment that holds the ports. |
| `Ownership.ConnectForgets` | internal/adapters/cni/adapter.go:523-527 | Replacing that attachment leaves a running container whose ports no attachment holds. |
| `Ownership.OverwriteLeaks` | internal/adapters/cni/adapter.go:523-527 | After it, inspecting, exiting and removing the container, all without failure, leaves its ports reserved for nobody. |
| `Ownership.RemoveNetworkKeeps` | internal/adapters/cni/adapter.go:335-383 | A network in use is not removed, so attachments keep resolving. |
| `Service.Adapter.ConnectReserved` | internal/adapters/cni/adapter.go:392-459 | Tracks an attachment holding the adopted ports exactly when adoption, resolution, mapping and CNI succeed; a failure changes nothing. |
| `Service.Adapter.Disconnect` | internal/adapters/cni/adapter.go:539-591 | Forgets the attachment and releases what it holds, whatever CNI DEL says; a network that does not resolve, or not under the context, changes nothing. |
| `Service.Adapter.DisconnectAll` | internal/adapters/cni/adapter.go:613-639 | The loop frees exactly the ports of the container's attachments on resolvable networks. |
| `Service.ReservationKeys` | internal/app/service.go:205-215 | Releasing the reservations of bindings frees the bindings' keys. |
| `Service.ContainerService.ReleaseBindings` | internal/app/service.go:217-224 | Exactly the bindings' keys are freed. |
| `Service.ContainerService.ContainerCreate` | internal/app/containers.go:34-106 | Succeeds exactly under its conditions; the container then is on record as requested and owns exactly the ports newly reserved for it, and nothing else changed; a refused request leaves no record and no reservation; ownership is kept exactly unless the step disrupts. |
| `Service.ContainerService.PrepareBindings` | internal/app/containers.go:170-187 | A host port for each requested binding, disjoint from all reserved, or none; publishing without a network is refused. |
| `Service.ContainerService.Register` | internal/app/containers.go:58-105 | From the reserved ports on: every failure but the labels' releases them. |
| `Service.ContainerService.ContainerStart` | internal/app/containers.go:250-273 | A start that joins ends with the container recorded as running, its task live and an attachment holding its ports; one whose task exited with the reported state recorded and no task; a failed join whose task is stopped leaves no trace. Ownership is kept exactly unless the step disrupts. |
| `Service.ContainerService.JoinNetwork` | internal/app/containers.go:491-515 | Joining, and restoring reservations after a failed connect. |
| `Service.ContainerService.FinishStart` | internal/app/containers.go:322-354 | What a start persists is running, or the reported state of a task that is gone, and keeps an owned state owned, with the same ports and the same network to join next. |
| `Service.ContainerService.ContainerStop` | internal/app/containers.go:357-383 | Stopping keeps every container's ports, every other record and an owned state owned; a container past the created state ends up recorded as exited without a task. |
| `Service.ContainerService.ContainerRemove` | internal/app/containers.go:386-422 | A live container is refused without force; a removal in which nothing goes wrong takes exactly the container and its ports; ownership is kept exactly unless the step disrupts. |
| `Service.ContainerService.ConnectNetwork` | internal/app/networks.go:90-120 | Connecting adds the network to the record and changes no other record and no container's ports; ownership is kept exactly unless it replaces the attachment that holds them. |
| `Service.ContainerService.ContainerInspect` | internal/app/containers.go:616-648 | The record follows the runtime's state, except that created stays created without a task; no other record and no ports change, and an owned state stays owned. |
| `Service.ContainerService.RemoveNetwork` | internal/adapters/cni/adapter.go:335-383 | Networks with tracked attachments stay, so an owned state stays owned. |
| `Service.ContainerService.Run` | internal/app/containers.go:34-422 | Any sequence of calls on the objects is the protocol's run, so an undisrupted one ends with ports owned. |
| `BuildProgress.TranslationIsSafe` | internal/adapters/buildkit/progress.go:145-243 | Over all batch sequences steps are numbered 1..k in first-seen order, every message is allowed where it stands, and the translator's state says what was written. |
| `BuildProgress.WellFormedMeaning` | internal/adapters/buildkit/progress.go:186-211 | No vertex is announced twice or ended twice, and every DONE follows the announcement of its number. |
| `BuildProgress.StatusesDiffer` | internal/adapters/buildkit/progress.go:225-243 | Consecutive messages of one status differ in progress text, and the first is not empty. |
| `BuildProgress.NumbersAreStable` | internal/adapters/buildkit/progress.go:172-184 | A step's number and name never change. |
| `BuildReports.EventsHaveSource` | internal/adapters/buildkit/progress.go:145-268 | Every message reports an item of the input: what was announced had started or completed uncached, and texts, progress and errors are the item's own. |
| `BuildReports.AnnouncedNames` | internal/adapters/buildkit/progress.go:173-184 | Every announcement carries the name of the first vertex with its digest, or the short digest if that has none. |
| `BuildReports.BatchOrder` | internal/adapters/buildkit/progress.go:149-168 | A batch is translated vertexes first, then statuses, logs and warnings, each in order. |
| `BuildProgress.ShorthandMeaning` | internal/adapters/buildkit/progress.go:291-299 | The short digest is the first 12 characters after the algorithm. |
| `BuildReports.NothingIsDropped` | internal/adapters/buildkit/progress.go:145-268 | Every vertex that starts or ends is reported, the last shown text of a status is its last update, and logs and warnings come through in order. |
| `BuildRun.Translator.Translate` | internal/adapters/buildkit/progress.go:145-170 | The batch's messages are written in order until a write fails, with the state after them; the error flag is set exactly by the errors tried, the one that failed to be written included. |
| `BuildRun.Translator.TranslateVertex` | internal/adapters/buildkit/progress.go:172-214 | A vertex's messages and state; a failing write has noted the error it was about to report. |
| `BuildRun.SawErrorMeaning` | internal/adapters/buildkit/progress.go:270-273 | EmittedError holds exactly when the translator wrote an errorDetail. |
| `BuildRun.FailedBuildIsReported` | internal/adapters/buildkit/build.go:157-178 | A build whose solve fails has at least one errorDetail in its stream, and exactly one when at most one vertex reports an error. |
| `BuildRun.OneErrorAtMost` | internal/adapters/buildkit/progress.go:193-200 | If all reported errors are about one vertex, one errorDetail is written for it. |
| `BuildRun.SolveBuild` | internal/adapters/buildkit/build.go:144-178 | The translating loop, which skips the rest after a failed write, and the final error: a failed solve is always reported as failed, and with a working writer exactly the build's stream is written. |
| `Subnets.AddIPv4Steps` | internal/adapters/cni/networkconfig.go:281-288 | Adding 1 or 256 moves the last or third octet, with the carry into the second. |
| `Subnets.SubnetNamesDiffer` | internal/adapters/cni/networkconfig.go:241-242 | Different candidates are written differently, so looking up the text is looking up the subnet. |
| `Subnets.NameText` | internal/adapters/cni/networkconfig.go:241-245 | The i-th subnet is written 10.88.i.0/24, in decimal notation. |
| `Text.DecimalMeaning` | internal/adapters/cni/networkconfig.go:281-292 | Decimal notation is digits that read back as the number, without leading zeros. |
| `Subnets.RequestMeaning` | internal/adapters/cni/adapter.go:223-239 | A request is refused exactly for a malformed name, host or none in any case, a driver other than bridge, or IPv6, in this order. |
| `Subnets.LeastUnused` | internal/adapters/cni/networkconfig.go:230-247 | The subnet taken is named in no file, other tools' included, and every smaller one is. |
| `Subnets.FirstFreeMeaning` | internal/adapters/cni/networkconfig.go:240-247 | The search yields the least free candidate, and none exactly when all 256 are taken. |
| `Subnets.AllocateSubnet` | internal/adapters/cni/networkconfig.go:230-248 | The address walk ends after at most 256 steps with the least free /24 of 10.88.0.0/16 and its gateway. |
| `Subnets.PoolSubnetShape` | internal/adapters/cni/networkconfig.go:290-292 | A pool subnet is aligned, inside the pool, and its gateway is base+1. |
| `Subnets.CreateKeepsDisjoint` | internal/adapters/cni/adapter.go:243-258 | A create, refused or not, keeps live subnets pairwise disjoint. |
| `Subnets.RunsStayDisjoint` | internal/adapters/cni/adapter.go:219-362 | Every sequential run of automatic creates and removals keeps live subnets pairwise disjoint. |
| `Subnets.NetworkStore.CreateNetwork` | internal/adapters/cni/adapter.go:219-259 | The refusals in order, and otherwise a new network under the trimmed name, on the least subnet named in no file; disjointness is kept. |
| `Subnets.NetworkStore.RemoveNetwork` | internal/adapters/cni/adapter.go:335-362 | A network goes exactly when it exists, is not in use, and its bridge and file can be removed; otherwise nothing changes and the reason is returned; disjointness is kept. |
| `ApiVersion.ParseAPIVersion` | internal/api/version.go:115-133 | The components, or nothing if one is empty, negative, out of range or no number. |
| `ApiVersion.SplitMeaning` | internal/api/version.go:116-116 | Splitting cuts at every dot and nowhere else. |
| `ApiVersion.ComponentMeaning` | internal/api/version.go:122-131 | A component of digits is its value within 64 bits; an empty one is refused. |
| `ApiVersion.ComponentRefused` | internal/api/version.go:122-131 | Anything else than digits after an optional sign, and a negative number, is refused. |
| `ApiVersion.ComponentsMeaning` | internal/api/version.go:121-132 | A version parses exactly if every component does, and to their values. |
| `ApiVersion.ParsePrinted` | internal/api/version.go:115-133 | Parsing undoes printing, for versions of any length. |
| `ApiVersion.CompareAPIVersions` | internal/api/version.go:135-163 | The comparing loop, with an error exactly when a side does not parse. |
| `ApiVersion.CompareMeaning` | internal/api/version.go:145-162 | The comparison is the zero-extended lexicographic order, in all three outcomes. |
| `ApiVersion.CompareIsPreorder` | internal/api/version.go:135-163 | It is reflexive, antisymmetric in sign, total and transitive. |
| `ApiVersion.PathRoundTrip` | internal/api/version.go:86-176 | For every valid version and every rest that is empty or starts with a slash, the version is found and stripping it gives the rest, or "/". |
| `ApiVersion.PathSegment` | internal/api/version.go:91-96 | Every path under /v has a segment that ends at the next slash. |
| `ApiVersion.SegmentMeaning` | internal/api/version.go:86-104 | A segment that is empty or not of digits and dots is no version, and the path is forwarded as it is; one of digits and dots that does not parse is refused; any other is the version, and is stripped. |
| `ApiVersion.PlainPath` | internal/api/version.go:86-89 | Any other path is forwarded as it is. |
| `ApiVersion.PlainPathExamples` | internal/api/version.go:86-104 | /version and /containers/json are forwarded as they are. |
| `ApiVersion.Negotiate` | internal/api/version.go:41-84 | The middleware's decision for every path. |
| `ApiVersion.GateMeaning` | internal/api/version.go:52-82 | A versioned request is forwarded exactly when its version lies between 1.24 and 1.44 in that order, refused as too old exactly below, and as too new exactly above. |
| `ApiVersion.SupportedRange` | internal/api/version.go:15-18 | The two bounds parse, to 1.24 and 1.44. |
| `ApiVersion.MajorMinorOf` | internal/streams/hijack.go:92-107 | The stream package's parser reads two-component versions like the other one, and no others. |
| `ApiVersion.AtLeastMeaning` | internal/streams/hijack.go:80-90 | On two-component versions the majors decide, then the minors. |
| `ApiVersion.OddVersions` | internal/streams/hijack.go:81-107 | No version counts as new enough, one that is no pair of numbers as too old, and a leading v is ignored. |
| `ApiVersion.ParsersAgree` | internal/streams/hijack.go:80-107 | On versions the first parser accepts, the two tests agree exactly when the version has two components or is below the minimum. |
| `ApiVersion.ParsersDisagreeExample` | internal/streams/hijack.go:80-90 | 1.42.0 equals 1.42 in the order and is still refused. |

## Left out

- Log rotation in the exactly-once and fidelity theorems, which are about append-only files; the rotation reset itself is in `LogReading.LogReadState.Track`.
- Faults of stat, seek and read on log files, and a final flush whose open fails for another reason than a missing file.
- Interleaving of two streams inside one log line: each formatted line is one append.
- The RFC 3339 grammar of timestamps (a parameter) and the text of error messages.
- The connect path without reserved ports (`Connect` allocating by itself), which the service uses only with adapters that lack `ConnectReserved`.
- Ports across a daemon restart: recovered containers have none, and reservations start empty.
- Service calls that overlap in time; only the allocator's batches are interleaved with other callers.
- Log sinks, container timestamps, exit codes on refresh, labels, mounts and health: not related to ports or identity.
- Service.ContainerService.ContainerInspect: persists state changes only, not refreshed exit codes or times.
- Resolving containers by ID prefix and networks by ID; names are given resolved.
- Digests without an algorithm, on which shortening a digest panics.
- The aux and success lines of a finished build, JSON encoding and the rendering of sizes.
- Requested subnets and gateways, unreadable configuration files, and networks of other tools beyond the subnet texts they use.
- Which host addresses count as wildcards (parsing IP text), and the bind probe itself.
- Hijacking, proxying and resizing of connections, HTTP handlers, routing and request decoding.
- containerd and BuildKit clients, image store, registry credentials, OCI specs, netlink; configuration, observability and the socket gate.

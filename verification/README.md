# PoDorel verification

This project models the protocols, caches and bounded buffers that PoDorel
writes by hand, and proves what they promise. `dafny verify dfyconfig.toml`
checks all of it.

| module | what it models |
|---|---|
| `FrameCodec`, `Connection`, `WriterProtocol` | the WebSocket wire format of `internal/websocket`, a connection with its ping-answering read loop, the exec relay, and several goroutines writing to one connection |
| `Template` | placeholder substitution in pod templates |
| `LogSelection`, `Retention` | which log lines a request gets; which log files stay |
| `Throttle` | the sliding-window login throttle and its check-then-act gap |
| `ContainerLookup`, `SnapshotCache` | the container index, the refresh of the snapshot tables from an agent, and the pod listing read back from them |
| `Csrf` | CSRF token rotation between browser tabs and the server, with the retry of a rejected call |
| `Settings` | settings updates on the running configuration against their replay at start-up |
| `ProtocolMux` | TLS and plain HTTP on one port |
| `CpuTracker`, `PodStats` | CPU rates from successive stat batches; container stats summed per pod |
| `Base64Url`, `Passkeys` | the passkey page's codec, and single-use passkey flows on the server |
| `ImageBuilds` | the image-build record, its one driver and its observers |
| `AsciiText`, `Decimals`, `Wrappers` | trimming and lower-casing, decimal numbers, optional values |

Code that updates state is modelled as classes and methods with loops and is
proved against specification functions; code shared by goroutines, tabs or
observers is also modelled as a state machine whose every step is one critical
section or one message, and its theorems range over every run.

Conventions. Time is an integer and, within a run, never goes back. Tokens are
fresh and hashes injective, so a stored hash stands for its token. SQL tables
are maps and sequences. Text is a sequence of bytes seen as characters. What
the outside world answers (the agent, the file system, the random source, a
failing store) is a parameter. A Go map's iteration order is an arbitrary
choice in the methods, so their contracts hold for every order.

Where the code does less than one may expect of it, that is stated with an
input, and the condition under which it does is proved exact:

- A ping of more than 65535 bytes is read but never answered; all pings are
  answered exactly when none is longer (`Connection.EveryPingAnswered`,
  `Connection.OversizedPing`, `Connection.SmallestOversizedPing`).
- After a write that stopped part-way, whole later frames can be lost on the
  peer (`WriterProtocol.TornFrameHidesLaterText`). The wire is whole frames
  throughout a run exactly when no write of it stops part-way
  (`WriterProtocol.WholeThroughoutExactly`).
- Template substitution depends on the map's order, or reads a value again, if
  stray opening braces stand in the text or come in with a value, and only then
  (`Template.StrayBraceDependsOnOrder`, `Template.BraceInValueIsReadAgain`,
  `Template.BraceConditionIsExact`).
- A log limit between 1001 and 5000, which the server's handler accepts
  (`server/internal/app/observability.go:33-39`), makes the agent send 100
  lines only; all pods are answered completely exactly up to 1000
  (`LogSelection.HonouredLimitsExactly`, `LogSelection.LargeLimitFallsShort`,
  `LogSelection.LongLogFallsShort`).
- The throttle's limit is exceeded by up to k - 1 with k logins in flight, and
  no more (`Throttle.WindowBound`, `Throttle.BoundIsReached`). A success starts
  the count again, so over a run each one adds one failure less than that to
  what a window may hold, and no more (`Throttle.WholeRunBound`,
  `Throttle.WholeRunBoundIsReached`).
- The container index skips containers that report their id in the alternative
  field only, while the tables accept them. A stat that uses nothing but such an
  id stays without a pod; it finds it exactly if the id is in the first field
  (`ContainerLookup.PodFoundExactly`, `ContainerLookup.AlternativeIdIsNotIndexed`).
- A pod row stamped exactly at the start of a refresh that no longer reports it
  is still listed, and a sample stamped then is still shown; older ones never
  are (`SnapshotCache.FreshRowStaysListed`, `SnapshotCache.ViewsShowReported`,
  `SnapshotCache.FreshSampleStaysShown`, `SnapshotCache.SamplesSeen`).
- A retried call loses exactly if another rotation or the session's end falls
  between its refresh and its resend (`Csrf.ResendAdmittedExactly`,
  `Csrf.RetryCanLose`).
- Over defaults of an hour or more, supplied hours are lost again if and only if
  they wrap to a duration under one hour; in general a retention is lost exactly
  if it is under an hour and does not write back to the default in whole hours.
  One that is not whole hours is rounded by the next update of its section that
  leaves it alone (`Settings.WholeHoursStay`, `Settings.HoursConditionIsExact`,
  `Settings.HoursExact`, `Settings.DefaultsConditionIsExact`,
  `Settings.OneHourTooMany`, `Settings.HalfHourIsLost`).
- A build observer misses the last log entry exactly if it polls between the
  final status and that entry (`ImageBuilds.LastRecordIsWholeExactly`,
  `ImageBuilds.GapIsReachable`).

## Model

| member | source | states |
|---|---|---|
| `FrameCodec.RoundTrip` | internal/websocket/websocket.go:172-244 | Reading what was written gives back exactly the opcode and payload and leaves the following bytes untouched, for every 4-bit opcode, every payload up to 65535 bytes, every mask key and any continuation (RFC 6455 sections 5.2, 5.3) |
| `FrameCodec.MaskIsInvolutive` | internal/websocket/websocket.go:208-212 | Masking twice with one key is the identity, so reader and writer share one XOR loop |
| `FrameCodec.LongForms` | internal/websocket/websocket.go:172-215 | The reader also takes every payload in the 2-byte or 8-byte length form, minimal or not, and refuses exactly those over 262144 bytes, before it reads the mask key |
| `FrameCodec.ParseIsStable` | internal/websocket/websocket.go:172-215 | A frame that is complete is read the same whatever bytes follow it |
| `FrameCodec.PrefixFree` | internal/websocket/websocket.go:217-244 | No written frame is a proper prefix of another one, and equal frames carry equal messages |
| `FrameCodec.CutFrameFails` | internal/websocket/websocket.go:172-215 | No strict initial part of a written frame is read as a frame |
| `FrameCodec.FinalFrame` | internal/websocket/websocket.go:217-231 | Every written frame has FIN set, no reserved bit, and the mask bit exactly when it is masked |
| `FrameCodec.MinimalEncoding` | internal/websocket/websocket.go:217-244 | Among all encodings the reader accepts for an opcode, payload and mask bit, the written one is the shortest |
| `FrameCodec.ReaderBound` | internal/websocket/websocket.go:194-196 | No accepted payload exceeds 262144 bytes, for any input |
| `FrameCodec.OneFrame` | internal/websocket/websocket.go:172-244 | One written frame parses to that one message with nothing left over |
| `FrameCodec.WholeAppend` | internal/websocket/websocket.go:172-215 | Bytes that are whole frames followed by any bytes parse to the messages of the first followed by those of the second, with the same rest |
| `FrameCodec.AppendFrame` | internal/websocket/websocket.go:172-244 | Writing one more frame to a wire of whole frames adds exactly that message at the end |
| `FrameCodec.AppendCutFrame` | internal/websocket/websocket.go:172-244 | A frame cut short adds no message to a wire of whole frames; what was written of it is exactly what is left over |
| `FrameCodec.EncodedLength` | internal/websocket/websocket.go:217-244 | Length of a written frame by payload size and masking |
| `FrameCodec.WireHeader` | internal/websocket/websocket.go:217-231 | The header byte for byte: FIN and opcode, mask bit, and the length in 7 bits below 126 and else 126 and two bytes with the high one first (RFC 6455 section 5.2) |
| `FrameCodec.WirePayload` | internal/websocket/websocket.go:231-241 | Behind it the key, if any, and byte i of the payload under byte i mod 4 of the key, or the payload as it is (RFC 6455 section 5.3) |
| `FrameCodec.MaskOfZeros` | internal/websocket/websocket.go:236-238 | Zero bytes masked are the key, repeated |
| `FrameCodec.MaskDifference` | internal/websocket/websocket.go:236-238 | Two texts masked with one key differ in what the texts differ in |
| `FrameCodec.ExampleFrames` | internal/websocket/websocket.go:217-244 | The text, ping and masked frames of RFC 6455 section 5.7 and an empty close, as bytes |
| `FrameCodec.LengthIsRead` | internal/websocket/websocket.go:179-193 | The reader takes a length of two or eight bytes with the highest first |
| `FrameCodec.TextWritersAgree` | server/internal/app/observability.go:616-629 | The server's second text writer emits the same bytes as an unmasked text frame of the first |
| `Connection.Conn.WriteFrame` | internal/websocket/websocket.go:217-244 | Outcome and whole effect of a write: which of the four outcomes occurs is decided by payload size, entropy left and bytes the transport takes; on success the frame (masked exactly when the connection masks), on a transport error a strict initial part, otherwise nothing; the parsed wire grows by the message exactly on success, and a failure is recorded exactly when a write broke |
| `Connection.Conn.WriteText` | internal/websocket/websocket.go:133-137 | The same for one text message; exactly the payloads over 65535 bytes are refused with the wire left alone |
| `Connection.Conn.WriteClose` | internal/websocket/websocket.go:139-143 | The same for an empty close message |
| `Connection.Conn.WriteControl` | internal/websocket/websocket.go:166-170 | The same for a control message with its payload |
| `Connection.EnoughSnoc` | internal/websocket/websocket.go:133-170 | One more payload goes out if and only if what the earlier ones left of transport and entropy suffices for it |
| `Connection.EnoughAppend` | internal/websocket/websocket.go:133-170 | The same for one run of payloads after another |
| `Connection.Conn.ReadFrame` | internal/websocket/websocket.go:172-215 | The byte-by-byte reader succeeds exactly when the grammar accepts, returns that frame, and leaves exactly the unread bytes, on errors too |
| `Connection.Conn.ReadBody` | internal/websocket/websocket.go:194-214 | The part after the length: limit before key, key before payload, unmasking in place |
| `Connection.XorWith` | internal/websocket/websocket.go:208-212 | The in-place XOR loop over the payload buffer leaves byte i under byte i mod 4 of the key: the masking of section 5.3 |
| `Connection.MaskedFrame` | internal/websocket/websocket.go:217-241 | The header and buffer the masked branch builds are the encoded frame: the key and then byte i of the payload under byte i mod 4 of it, and byte for byte the masked example of RFC 6455 section 5.7 |
| `Connection.Conn.ReadText` | internal/websocket/websocket.go:145-164 | The loop returns what the first non-ping, non-pong frame says (text, end of file on close, unsupported opcode, read error) and consumes exactly up to it; the pings before it are answered in order, and a failure is recorded if and only if transport or entropy did not suffice for these pongs |
| `Connection.ReadTextsMeaning` | internal/websocket/websocket.go:145-164 | Calling ReadText until it errs yields exactly the text messages on the stream up to the first close, unknown opcode or broken frame |
| `Connection.ReadByOpcode` | internal/websocket/websocket.go:145-164 | The low four bits of the first byte decide: 1 is a text, 8 the end, 9 a ping to answer, 10 is skipped, anything else is unsupported |
| `Connection.EveryPingAnswered` | internal/websocket/websocket.go:157-158 | Every ping is answered by one pong with the same payload, in order, exactly when no ping exceeds 65535 bytes; a longer ping is read but cannot be answered |
| `Connection.OversizedPing` | internal/websocket/websocket.go:157-158 | Every ping from 65536 to 262144 bytes is read whole and gets no pong |
| `Connection.SmallestOversizedPing` | internal/websocket/websocket.go:157-158 | The concrete one: 65536 zero bytes |
| `Connection.Bridge` | server/internal/app/observability.go:420-432 | The relay delivers an initial part of its source's texts in order; it delivers all up to the first end of the source or oversized text if and only if the destination's transport and entropy suffice for them; the destination's parsed wire grew by exactly the delivered texts, also after a broken write; the source answered exactly the pings of the texts read, and broke exactly if it could not |
| `Connection.RelayableIs` | server/internal/app/observability.go:420-432 | Any initial part of fitting texts that stops at the end or at a text that does not fit is the relayed part: there is only one |
| `Connection.RelaysWritable` | server/internal/app/observability.go:420-432 | Fitting texts at the front of the source are always among the relayed ones |
| `Connection.StoppedShort` | server/internal/app/observability.go:420-432 | A relay that broke off at a text that fits had too little transport or entropy for what it wanted to relay |
| `WriterProtocol.WireInvStep` | internal/websocket/websocket.go:133-170 | Every step of every writer keeps: the clean part of the wire parses to the logged frames, the rest is the holder's partial frame |
| `WriterProtocol.OrderInvStep` | internal/websocket/websocket.go:133-170 | Every step keeps: each writer's completed, held and pending frames together are its own calls in its own order |
| `WriterProtocol.WireIsWholeFrames` | internal/websocket/websocket.go:133-170 | In every interleaving, while no write was torn, the wire parses to the completed frames in order plus the frame being written once all of it is out; what is left over is a strict initial part of that one frame |
| `WriterProtocol.GivingUpExactly` | internal/websocket/websocket.go:217-244 | A writer that gives up on an untorn wire leaves whole frames if and only if none of its frame had been taken |
| `WriterProtocol.WholeThroughoutExactly` | internal/websocket/websocket.go:133-170 | Every state of a run has whole frames on the wire if and only if no writer of the run gives up with part of its frame taken |
| `WriterProtocol.PeerReadsMerge` | internal/websocket/websocket.go:133-170 | Without transport errors the peer's ReadText results are a merge of the writers' texts up to the first close: every frame is some writer's, each writer's order is kept, oversized calls are left out |
| `WriterProtocol.OneWriterIsRead` | internal/websocket/websocket.go:133-170 | A writer alone whose calls fit and have all been made: the log is exactly its calls, and the peer reads its texts up to its first close |
| `WriterProtocol.FailsByGivingUp` | internal/websocket/websocket.go:217-244 | A run has failed exactly if some writer of it gave up; a refused call is no failure |
| `WriterProtocol.CleanPrefixIsRead` | internal/websocket/websocket.go:133-170 | Whatever happens later, all frames completed before the first torn write are read by the peer, first and in order |
| `WriterProtocol.TornFrameHidesLaterText` | internal/websocket/websocket.go:217-244 | The concrete run: a writer gives up after one byte of its frame, and a later, complete text of another writer is never read |
| `Template.CopyStretch` | server/internal/app/resources.go:832-839 | ReplaceAll copies any stretch in which no occurrence starts |
| `Template.NoneAtLiteral` | server/internal/app/resources.go:832-839 | Adjacency cannot create a placeholder: none starts at a plain character of a clean text |
| `Template.NoneInsideHole` | server/internal/app/resources.go:832-839 | Placeholders do not overlap: inside one no other starts, nor a different one at its front |
| `Template.ReplaceIsFill` | server/internal/app/resources.go:835-836 | On a clean text one ReplaceAll fills exactly the placeholders of that style and key |
| `Template.SubstituteOneMore` | server/internal/app/resources.go:832-839 | Filling one more key after a simultaneous substitution is substituting the larger map: filled-in values are never looked at again |
| `Template.AnyOrderIsSimultaneous` | server/internal/app/resources.go:832-839 | Replacing all keys one after another, in any order, equals one simultaneous substitution, for every text whose every opening brace belongs to a well-formed placeholder and all values without an opening brace |
| `Template.ReplacedIsSimultaneous` | server/internal/app/resources.go:832-839 | On such texts and values the possible results of the replace closure are exactly one: the simultaneous substitution |
| `Template.OnlyUnvaluedRemain` | server/internal/app/resources.go:832-839 | After substitution exactly the placeholders whose key has no value remain, verbatim |
| `Template.Replace` | server/internal/app/resources.go:832-839 | The loop over the map returns the keys' replacements in some order, each key once |
| `Template.ReplaceEach` | server/internal/app/resources.go:857-862 | The loops over environment and labels keep the keys and replace in every value |
| `Template.ApplyTemplateValues` | server/internal/app/resources.go:819-864 | Fails on an invalid value exactly when some key is invalid or some value longer than 512, naming such a key, before anything changes; fails on the first port whose value is no number from 0 to 65535, after overriding the ports before it in the caller's own slice; otherwise overrides every port and replaces in the image, every command word, both paths of every volume and every environment and label value; without values it returns the template as it is |
| `Template.OverridePorts` | server/internal/app/resources.go:848-856 | The loop over the ports changes exactly the hosts of the ports before the first bad one |
| `Template.TemplatePortValue` | server/internal/app/resources.go:880-900 | The loop over a port's keys makes the choice of the first key that has a value |
| `Template.FirstKeyDecides` | server/internal/app/resources.go:880-900 | A port is left alone if and only if none of its keys has a value; otherwise the first one that has decides |
| `Template.OwnKeyOnly` | server/internal/app/resources.go:880-900 | Giving host_port_<container> a number in range overrides that container's port with it and no other port |
| `Template.PortNamesDecide` | server/internal/app/resources.go:880-900 | The eight names of a port's value, by their texts: the first one present decides, the last four only for a single port |
| `Template.NoPortName` | server/internal/app/resources.go:880-900 | Without any of them the port is left alone |
| `Template.PortRange` | server/internal/app/resources.go:893-896 | A value is a port exactly if it is the text of a number from 0 to 65535, white space around it aside; any other is an error that names its key |
| `Template.AcceptedIs` | server/internal/app/resources.go:825-829 | A key and value are accepted exactly if the key is not empty, has letters, digits, underscores, hyphens and dots only, by their codes, and the value at most 512 bytes |
| `Template.StrayBraceDependsOnOrder` | server/internal/app/resources.go:832-839 | With a stray double brace in front of a placeholder two map orders give different results |
| `Template.BraceInValueDependsOnOrder` | server/internal/app/resources.go:832-839 | So they do when a value brings a placeholder |
| `Template.BraceInValueIsReadAgain` | server/internal/app/resources.go:832-839 | Even with one key a value with an opening brace can be read again as part of a placeholder |
| `Template.BraceConditionIsExact` | server/internal/app/resources.go:832-839 | For every set of literal characters and every set of value characters (containing those of the two order examples other than the brace): all texts are substituted simultaneously in every order, and equally no result depends on the order, if and only if neither set has the opening brace |
| `LogSelection.SortIsStable` | server/internal/app/observability.go:178-180 | The sort used by the model orders by time and keeps the order of equal times |
| `LogSelection.StableSortIsUnique` | server/internal/app/observability.go:178-180 | Two time-ordered sequences that agree per timestamp are equal: stable sorting has one result |
| `LogSelection.SortMeetsReference` | server/internal/app/observability.go:178-180 | So whatever sort.SliceStable returns is the model's result |
| `LogSelection.OneMoreLine` | server/internal/app/observability.go:148-185 | One more input line is one more output line, in front of at least every later-or-equal line that followed it in the input |
| `LogSelection.DropOldLine` | server/internal/app/observability.go:148-185 | A line followed by limit or more lines that are not earlier cannot be among the last limit of the merge |
| `LogSelection.PartialFetchSuffices` | server/internal/app/observability.go:148-185 | Merging only the last e lines of every container, e at least the limit, and keeping the last limit gives what merging the complete logs gives, if each log is in time order |
| `LogSelection.PodLogsAreComplete` | server/internal/app/observability.go:148-185 | The same with the number of lines the agent really sends, for every limit from 1 to 1000 |
| `LogSelection.PodLogsEndToEnd` | server/internal/app/observability.go:148-185 | The same for container rows whose answers are in time order, through labelling and zero-timestamp filling, skipped containers and failed calls |
| `LogSelection.PartialFetchExact` | server/internal/app/observability.go:148-185 | For any limit, when no withheld line equals a sent one: the answer is the complete one if and only if no withheld line belongs to it |
| `LogSelection.LargeLimitFallsShort` | agent/internal/ipc/server.go:377-383 | Above 1000 the agent falls back to 100 lines: as long as its answers together hold fewer lines than asked for, they are complete if and only if no container has more than 100 lines, for any number of containers |
| `LogSelection.HonouredLimitsExactly` | server/internal/app/observability.go:33-39 | All pods with logs in time order are answered completely if and only if the limit is at most 1000, while the server's handler accepts up to 5000 |
| `LogSelection.LongLogFallsShort` | agent/internal/ipc/server.go:377-383 | The concrete pod: one container with 101 lines is answered short for every limit above 1000 |
| `LogSelection.HandleLogs` | agent/internal/ipc/server.go:377-403 | The bounded loop takes exactly the first lines the runtime delivers, as many as the honoured limit, however many there are |
| `LogSelection.AgentSendsTail` | agent/internal/ipc/server.go:377-403 | With a runtime that delivers the last lines asked for, and possibly more after them, that is exactly the container's last lines |
| `LogSelection.ReadAgentContainerLogs` | server/internal/app/observability.go:148-185 | Collecting, labelling, stable sorting and trimming as one equation; the result is in the order of the lines' own times, every line of it is some container's answer, without a limit every answer is in it, and the error comes exactly when no container with an id answered a line |
| `LogSelection.LabelReplies` | server/internal/app/observability.go:155-174 | One container's lines in order, each with its text, its own time or else the current one, and its source, for which the container's name stands if it is one of the container's ids; none without an id or after a failed call |
| `LogSelection.LabelShowsName` | server/internal/app/observability.go:168-172 | A container with a name of its own is never shown under its id, and its unlabelled lines show the name |
| `LogSelection.MergeDelivers` | server/internal/app/observability.go:155-174 | Every merged line is some container's answer with its own text and, if it has one, its own time; every answered line of a container with an id is in the merge |
| `LogSelection.NothingMerged` | server/internal/app/observability.go:175-177 | The merge is empty if and only if no container with an id answered a line |
| `LogSelection.EarlierFirst` | server/internal/app/observability.go:178-180 | Of two containers with one timed line each the earlier line comes first, each with its own time and text |
| `LogSelection.ReadLogFile` | server/internal/app/observability.go:224-238 | The early-trimming scan returns exactly the last limit lines of the file that are not before the cutoff |
| `LogSelection.FreshIs` | server/internal/app/observability.go:230-233 | Exactly the lines not before the cutoff count, in their order |
| `LogSelection.AllFreshIs` | server/internal/app/observability.go:77-99 | The request fails if and only if the walk gets to a file it cannot read; otherwise it has the fresh lines of exactly the files the walk gets to, which ends at a file that has vanished |
| `LogSelection.TailOfTail` | server/internal/app/observability.go:234-236 | Trimming early and trimming at the end come to the same |
| `LogSelection.TrimmedStep` | server/internal/app/observability.go:84-96 | The nested bounded buffers lose nothing: one turn of the walk on the trimmed buffers is the trimmed turn on unbounded ones |
| `LogSelection.ReadHistoricalLogs` | server/internal/app/observability.go:71-104 | After a successful retention pass the walk returns exactly the last limit of all fresh lines of all files in walk order, the one placeholder line when there are none, an error exactly when a file cannot be opened or scanned; a vanished file ends the walk quietly; a failed retention pass is an error |
| `Retention.SortByAge` | server/internal/logs/rotation.go:52-54 | Some arrangement of the same files with the oldest first |
| `Retention.PruneToTotalLimit` | server/internal/logs/rotation.go:44-67 | On success the rest fits the limit; the removed files are an initial part of the oldest-first order and no shorter one would do; it succeeds if and only if all files of that part can be removed, and otherwise stops at the first that cannot with the rest still too large; a non-positive limit touches nothing |
| `Retention.PruneConserves` | server/internal/logs/rotation.go:44-67 | Removed and remaining files, and their bytes, add up to what was there, and nothing kept is older than anything removed |
| `Retention.RemoveExpired` | server/internal/logs/rotation.go:69-89 | Succeeds if and only if every expired file can be removed: then exactly the files older than the cutoff are gone and named, in byte order; a failed removal stops there, having removed exactly the expired files before it; a non-positive retention touches nothing |
| `Retention.SortStrings` | server/internal/logs/rotation.go:87-87 | The same names in byte order |
| `Retention.NotAfterIs` | server/internal/logs/rotation.go:87-87 | Byte order: the first difference decides, and a text comes before what it starts |
| `Retention.ExpirySplits` | server/internal/logs/rotation.go:69-89 | Expired and unexpired files, and their bytes, add up to all files |
| `Retention.UnexpiredMembers` | server/internal/logs/rotation.go:77-85 | A file survives if and only if it was there and is not older than the cutoff |
| `Retention.EnforceLogStorageLimits` | server/internal/app/observability.go:106-116 | When both passes succeed every survivor is young enough and the survivors fit the limit; the young files dropped are the shortest oldest-first part that makes the rest fit, none if all fit; it succeeds if and only if the retention is positive and every expired file and every file of that part can be removed |
| `Retention.LimitIs` | server/internal/app/observability.go:110-113 | The limit is the configured megabytes in bytes, wrapped to 64 bits and so exact wherever it fits, and five gigabytes if that is not positive |
| `Throttle.CompactInPlace` | server/internal/app/helpers.go:158-166 | The filter into the front of its own backing array leaves exactly the failures after the window start, in order, and does not touch what lies behind the slice |
| `Throttle.CompactCounts` | server/internal/app/helpers.go:158-166 | As many failures are kept as lie after the start of the window |
| `Throttle.CompactMembers` | server/internal/app/helpers.go:158-166 | And they are those, as often as they occur |
| `Throttle.CompactTwice` | server/internal/app/helpers.go:134-150 | Pruning for a later window never needs what an earlier pruning dropped |
| `Throttle.LoginThrottle.Throttled` | server/internal/app/helpers.go:134-141 | Blocks exactly when the number of stored failures after the start of the window reaches the limit, and stores the pruned list |
| `Throttle.LoginThrottle.RecordFailure` | server/internal/app/helpers.go:143-150 | The stored list becomes the pruned list plus this failure |
| `Throttle.LoginThrottle.ClearFailures` | server/internal/app/helpers.go:152-156 | Forgets this key and no other |
| `Throttle.HandlePasswordLogin` | server/internal/app/app.go:220-238 | A blocked key is refused without its password being looked at, a wrong password is recorded, a right one forgets all failures; other keys are untouched |
| `Throttle.AnswersLikeHistory` | server/internal/app/helpers.go:134-166 | In every run the pruned list blocks exactly when the full history since the last success would |
| `Throttle.BoundInvStep` | server/internal/app/app.go:220-238 | Every step keeps: failures in the window plus handlers between check and record stay within limit + k - 1 |
| `Throttle.OneMoreFailure` | server/internal/app/helpers.go:143-150 | One more failure, not earlier than the rest, overflows no window if the current one had room |
| `Throttle.WindowBound` | server/internal/app/app.go:220-238 | With at most k handlers between check and record, no window ever holds more than limit + k - 1 failures since the last success, counted one by one |
| `Throttle.WholeRunBound` | server/internal/app/app.go:220-238 | Over a whole run any window holds at most that bound, and one failure less than it again for every success: a success forgets the failures before it but spends the handler that could have recorded one more |
| `Throttle.BoundIsReached` | server/internal/app/app.go:220-238 | For every limit and every k some run fills a window to exactly limit + k - 1: the check-then-act gap is real and the bound tight |
| `Throttle.WholeRunBoundIsReached` | server/internal/app/app.go:220-238 | For every limit, every k and every number of successes some run fills one window to exactly the whole-run bound |
| `Throttle.ForgottenHistory` | server/internal/app/helpers.go:152-156 | The history a success forgets is at least one failure under the bound in every window the run can still reach |
| `ContainerLookup.ContainerIndex.Add` | server/internal/app/agent_proxy.go:309-320 | Maps the normalized key to the container and, if known, the pod; a blank key changes nothing, no other key is affected |
| `ContainerLookup.ContainerIndex.AddContainer` | server/internal/app/agent_proxy.go:295-305 | One more container extends the index exactly as it extends the list that is scanned |
| `ContainerLookup.NewContainerIndex` | server/internal/app/agent_proxy.go:290-307 | The index answers every key as a last-match linear scan of the list does |
| `ContainerLookup.ContainerIndex.ResolveStat` | server/internal/app/agent_proxy.go:322-338 | For every list and every stat: the same answer as the linear scan over full id, 12-character id and name |
| `ContainerLookup.UniqueMatch` | server/internal/app/agent_proxy.go:290-338 | Without key collisions any key of a container finds that container and its pod |
| `ContainerLookup.AnyFormResolves` | server/internal/app/agent_proxy.go:290-338 | Without key collisions a stat using any of a container's three forms as id resolves to its full id if and only if its name does not belong to another container; its pod is the one it carries, or else that container's, if and only if one of the two is known or the name leads to no pod either |
| `ContainerLookup.NameAloneResolves` | server/internal/app/agent_proxy.go:290-338 | A stat whose id is unknown resolves by its name |
| `ContainerLookup.TwelveCharacters` | server/internal/app/agent_proxy.go:299-301 | Of the initial parts of a hexadecimal id exactly the one of 12 characters finds its container |
| `ContainerLookup.LaterReportCounts` | server/internal/app/agent_proxy.go:309-342 | Ids and names are compared without white space around them and without case, and of two reports that answer the later one counts |
| `AsciiText.TrimIs` | server/internal/app/agent_proxy.go:340-342 | Trimming takes exactly the white space off both ends |
| `AsciiText.LowerIs` | server/internal/app/agent_proxy.go:340-342 | Lower-casing moves the 26 capital letters up by 32 and keeps every other character |
| `ContainerLookup.PodFoundExactly` | server/internal/app/agent_proxy.go:295-299 | A stat naming a container by the id the tables know it under, and by nothing else, finds its known pod if and only if the container reports the id, not blank, in its first field; one reported under the alternative field only leaves the stat without a pod |
| `ContainerLookup.AlternativeIdIsNotIndexed` | server/internal/app/agent_proxy.go:295-299 | The concrete report: the tables take it, no key finds it |
| `SnapshotCache.AggregatePodHealth` | server/internal/app/agent_proxy.go:207-230 | The early-returning loop computes the worst health, by a definition over sets that has no order: unhealthy before starting before healthy, an unhealthy or starting pod report before its containers, and else unknown |
| `SnapshotCache.Store.InsertPod` | server/internal/db/store.go:752-771 | Replaces the row of that id, with the defaults for an absent id, agent and time, or changes nothing and reports the failure |
| `SnapshotCache.Store.InsertContainer` | server/internal/db/store.go:830-849 | The same for a container |
| `SnapshotCache.Store.InsertResourceSample` | server/internal/db/store.go:851-860 | Appends one sample, at its own time or now, or nothing and reports the failure |
| `SnapshotCache.InsertPods` | server/internal/app/agent_proxy.go:152-157 | The loop writes as many records as the database takes; every pod so written has the row of its last report among them, with health aggregated from this refresh's containers; no other row changed |
| `SnapshotCache.InsertContainers` | server/internal/app/agent_proxy.go:158-162 | The same for the containers |
| `SnapshotCache.ContainerRowIs` | server/internal/app/agent_proxy.go:118-162 | The stored row of a container is its last report, field by field, its health one of three words or unknown |
| `SnapshotCache.InsertStats` | server/internal/app/agent_proxy.go:163-196 | One new sample per stat the database takes, resolved through the index, nothing else appended |
| `SnapshotCache.SampleIs` | server/internal/app/agent_proxy.go:163-196 | Each sample has its stat's memory, the agent, and the container and pod the lookup leads to |
| `SnapshotCache.Refresh` | server/internal/app/agent_proxy.go:81-198 | Succeeds if and only if all agent calls do and the database takes every write; pods and containers are written as soon as both lists arrived, samples only with the stats; a failing write ends it with exactly everything before it in place |
| `SnapshotCache.ListPods` | server/internal/db/store.go:697-719 | Exactly the agent's rows, or all without an agent, each once |
| `SnapshotCache.ListContainers` | server/internal/db/store.go:773-805 | Exactly the rows of the pod and agent, each once |
| `SnapshotCache.Select` | server/internal/db/store.go:697-719 | Exactly the selected rows of a table, each key once |
| `SnapshotCache.CurrentStats` | server/internal/db/store.go:862-878 | Exactly the agent's samples, with their multiplicity, for which no newer one measures the same container, or pod if they name none, or agent; when all name a container, those with no newer one of that container |
| `SnapshotCache.NewestOfOneKind` | server/internal/db/store.go:862-878 | When all samples name a container the newest of each container count, and likewise for pods alone and agents alone |
| `SnapshotCache.EveryContainerShown` | server/internal/app/resources.go:324-336 | When all samples name a container, a view shows exactly its pod's samples of this refresh that are their container's newest |
| `SnapshotCache.FreshStatsOnly` | server/internal/app/resources.go:324-336 | Exactly the samples not before freshAfter, and none after a failed refresh |
| `SnapshotCache.BuildViews` | server/internal/app/resources.go:57-81 | One view per row that is no placeholder and, after a refresh, not stale; each with exactly its pod's samples and exactly its pod's container rows, stale or not |
| `SnapshotCache.ViewsShowReported` | server/internal/app/resources.go:29-83 | After a refresh the listing shows exactly the reported pods (non-empty id, last duplicate wins, placeholder excluded) if and only if no row the agent no longer reports carries a time at or after freshAfter |
| `SnapshotCache.ReportedViewIs` | server/internal/app/agent_proxy.go:95-157 | Field by field every view of such a listing is some pod's last report: id or alternative id, agent or primary, name or id, state or status or unknown, and the worst health the report and its containers say |
| `SnapshotCache.ReportedPodIsShown` | server/internal/app/resources.go:57-66 | And every last report has its view, unless it is the agent's own placeholder pod |
| `SnapshotCache.FreshRowStaysListed` | server/internal/app/resources.go:63-65 | The concrete listing: the agent reports nothing and a pod stamped exactly at freshAfter is still shown |
| `SnapshotCache.NewSamplesOnly` | server/internal/app/resources.go:324-336 | If earlier samples are older than freshAfter, exactly this refresh's samples pass the filter |
| `SnapshotCache.SamplesSeen` | server/internal/app/resources.go:324-336 | The shown samples are exactly this refresh's if and only if no earlier sample of a shown pod is still its target's newest and stamped at or after freshAfter |
| `SnapshotCache.FreshSampleStaysShown` | server/internal/app/resources.go:324-336 | The concrete answer: no stats are reported and a sample stamped exactly at freshAfter is still shown |
| `SnapshotCache.HandleListPods` | server/internal/app/resources.go:29-83 | The whole handler: live exactly when the refresh succeeds; both if-and-only-ifs above, for the pods and for their samples; cached rows without stats after a failed refresh where fallback is allowed, an error otherwise; an error exactly when the pods cannot be read; unreadable stats or containers leave those lists empty |
| `Csrf.SessionStore.CreateSession` | server/internal/db/store.go:454-481 | Stores a fresh token with the session |
| `Csrf.SessionStore.ValidateCsrf` | server/internal/db/store.go:483-515 | Accepts exactly the stored token of a live session |
| `Csrf.SessionStore.RotateSessionCsrf` | server/internal/db/store.go:517-530 | On a live session stores and returns a token never issued before; otherwise changes nothing |
| `Csrf.SessionStore.DeleteSession` | server/internal/db/store.go:532-535 | Removes that session and no other |
| `Csrf.SessionStore.Admit` | server/internal/app/helpers.go:57-71 | A state-changing request is admitted exactly with the stored token of a live session; each refusal has its own exact cause |
| `Csrf.ApiService.Me` | ui/src/app/core/api.service.ts:146-153 | On success the tab holds exactly the token the server now accepts, on failure nothing changed |
| `Csrf.ApiService.Mutate` | ui/src/app/core/api.service.ts:362-378 | Alone, a call is accepted exactly when the session lives, within two sends, whatever stale token the tab held, and in one send exactly when it held none or the current one |
| `Csrf.InvStep` | ui/src/app/core/api.service.ts:362-402 | Every step of any number of tabs and calls keeps the send and application counts of every call |
| `Csrf.AppliedAtMostOnce` | ui/src/app/core/api.service.ts:362-402 | In every run each call sends at most twice and is applied at most once; one that ends in a CSRF error was applied zero times, one that succeeds exactly once |
| `Csrf.Terminates` | ui/src/app/core/api.service.ts:362-402 | Every call finishes within eight steps of its own, however others interleave |
| `Csrf.NeverStuck` | ui/src/app/core/api.service.ts:362-402 | Until it is done, a call always has a step to take |
| `Csrf.IssuedCountsRotations` | server/internal/db/store.go:517-530 | The stored token is always the most recently stored one, and only a rotation changes it |
| `Csrf.ResendAdmittedExactly` | ui/src/app/core/api.service.ts:362-378 | The resend after a refresh is applied if and only if no other rotation and no session end fell in between; otherwise a live session rejects it unapplied |
| `Csrf.AloneSucceeds` | ui/src/app/core/api.service.ts:362-378 | In every reachable state of a live session an undisturbed mutation is applied once, with one send if its tab holds the stored token or none and with two otherwise, and leaves the stored token in the tab |
| `Csrf.MeAlone` | ui/src/app/core/api.service.ts:146-153 | An undisturbed me() leaves the stored token in its tab; one whose answer is lost, or finds no session, leaves the tab as it was |
| `Csrf.MutationServed` | server/internal/app/helpers.go:57-71 | A mutation on its way is applied exactly if it gets to a live session with the stored token; only an answer that gets back tells the call, and a CSRF error only if it was not applied |
| `Csrf.RetryCanLose` | ui/src/app/core/api.service.ts:362-378 | From every reachable state with a refreshed call, a me() of any tab can make it end in a CSRF error |
| `Settings.SuppliedNumbers` | server/internal/app/settings_status.go:279-296 | Every 64-bit integer supplied as a number or as its decimal text, padded or not, yields itself if positive and the fallback otherwise; flags and other values yield the fallback |
| `Settings.SuppliedTexts` | server/internal/app/settings_status.go:298-303 | A text that is not blank yields itself without surrounding space |
| `Settings.OtherValuesYieldNothing` | server/internal/app/settings_status.go:298-303 | A blank text or any other value yields the fallback |
| `Decimals.AtoiOfItoa` | server/internal/app/settings_status.go:286-290 | Reading a 64-bit integer's decimal text gives the integer back |
| `Decimals.ItoaIs` | server/internal/app/resources.go:881-884 | The decimal text of a number is that of the number without its last digit, and that digit |
| `Decimals.AtoiTakes` | server/internal/app/settings_status.go:286-290 | Zeros and one sign in front of a number's text are read as well, within 64 bits and no further |
| `Decimals.AtoiRefuses` | server/internal/app/settings_status.go:286-290 | A text without a digit or with any other character is refused |
| `Settings.HoursFit` | server/internal/app/settings_status.go:210-210 | Positive hours times time.Hour fit an int64 exactly up to 2562047, and then convert back unchanged |
| `Settings.SettingsApp.ApplySettingsPayload` | server/internal/app/settings_status.go:187-246 | The update with upserts failing anywhere is the section-by-section update up to the first failure: field by field a section it gets to is stored and running with what the payload supplies, or as it was, and every other section is as it was; success and the reported sections are exact |
| `Settings.SettingsApp.ApplyPersisted` | server/internal/app/settings_status.go:21-85 | The loop over the rows in map order is the replay in some order of all rows |
| `Settings.OrderDoesNotMatter` | server/internal/app/settings_status.go:21-85 | Replaying the rows in any order gives every section what its row alone gives over the defaults |
| `Settings.SectionAllOrNothing` | server/internal/app/settings_status.go:187-246 | Per section an update is all or nothing, in the row and in the running configuration alike, as if the section were alone |
| `Settings.UpdateIs` | server/internal/app/settings_status.go:187-246 | Field by field for all nine fields: a supplied usable value is the stored and the running one afterwards, an absent or unusable one leaves the field as it was, retentions in whole hours |
| `Settings.WholeHoursStay` | server/internal/app/settings_status.go:202-224 | A retention without a supplied number stays if and only if it is whole hours |
| `Settings.RestartIs` | server/internal/app/settings_status.go:21-85 | Field by field a restart takes what is stored wherever it is positive or not blank, and the defaults everywhere else |
| `Settings.SectionStep` | server/internal/app/settings_status.go:187-246 | Each section's update whose hours are kept keeps: running configuration equals defaults plus rows, retentions that write back, limits positive, names not blank |
| `Settings.LiveIsRestart` | server/internal/app/settings_status.go:187-246 | After any run of updates whose hours are kept, failing upserts included, the running configuration is what a restart rebuilds, in any key order; kept are hours whose duration, wrapped to 64 bits, is an hour or more or writes back to the default |
| `Settings.DefaultsConditionIsExact` | server/internal/app/settings_status.go:187-246 | This holds for all such runs if and only if both default retentions are at least an hour or write back unchanged in whole hours |
| `Settings.HoursConditionIsExact` | server/internal/app/settings_status.go:202-224 | From every state in which both agree: an update can be followed by any updates whose hours are kept, without running configuration and restart ever parting, if and only if the hours it comes to store are kept |
| `Settings.HoursExact` | server/internal/app/settings_status.go:202-224 | For logs and for metrics and defaults of an hour or more: setting a number of hours and leaving the section alone afterwards keeps both together if and only if the wrapped duration is an hour or more |
| `Settings.BoundedIsKept` | server/internal/app/settings_status.go:202-224 | Hours up to 2562047 are always kept |
| `Settings.WrappedHoursCanBeKept` | server/internal/app/settings_status.go:210-210 | The bound is not the condition: 6000000 hours do not fit and are kept |
| `Settings.ShippedDefaultsAreSafe` | server/internal/config/config.go:150-170 | Over the shipped defaults and for hours up to 2562047 it holds, and retentions stay positive whole hours, limits positive, names not blank |
| `Settings.DefaultsAreStored` | server/internal/config/config.go:150-170 | A first update that brings nothing stores them: 168 hours of logs and metrics, 100 and 5120 megabytes, daily scans with trivy, everything else off |
| `Settings.SuppliedHoursTakeEffect` | server/internal/app/settings_status.go:202-224 | Any supplied number of hours is, wrapped to 64 bits, the log or metrics retention that takes effect, and exactly that many hours within the bound |
| `Settings.OneHourTooMany` | server/internal/app/settings_status.go:202-224 | The concrete input: at 2562048 hours the retention wraps to a negative duration and, after one more update, a restart disagrees |
| `Settings.HalfHourIsLost` | server/internal/app/settings_status.go:202-224 | The concrete default: half an hour is lost on the first update that leaves it alone |
| `ProtocolMux.InvStep` | server/cmd/podorel-web/https_redirect.go:56-126 | Every step of the routing goroutines, Accept and Close calls keeps queues, logs, places and results in agreement |
| `ProtocolMux.QueuesAreExact` | server/cmd/podorel-web/https_redirect.go:56-126 | In every reachable state a queue holds exactly the connections queued there, each once, at most 128, in the TLS queue only first byte 0x16 and in the HTTP queue only others |
| `ProtocolMux.QueuesAreFifo` | server/cmd/podorel-web/https_redirect.go:93-126 | What Accept calls took is an initial part of what entered, in order, and the queue is the rest |
| `ProtocolMux.QueueFills` | server/cmd/podorel-web/https_redirect.go:93-126 | Either queue takes every number of connections up to 128 |
| `ProtocolMux.AcceptDelivers` | server/cmd/podorel-web/https_redirect.go:99-117 | On an open listener with a connection in its queue a call of Accept can get the one that entered first |
| `ProtocolMux.AcceptAfterCloseFails` | server/cmd/podorel-web/https_redirect.go:93-117 | An Accept that began after Close returns no connection; one that returns got its connection alone and from its own side |
| `ProtocolMux.QueuedAfterClose` | server/cmd/podorel-web/https_redirect.go:119-125 | A connection can still enter the queue of a closed listener |
| `ProtocolMux.CloseReleases` | server/cmd/podorel-web/https_redirect.go:78-126 | On a closed listener a new call of Accept is refused, one that waits can be, and a connection that waits to be delivered is closed |
| `ProtocolMux.PrefixedConn.Read` | server/cmd/podorel-web/https_redirect.go:132-139 | What is read plus what remains is what remained before: the first byte is put back exactly |
| `ProtocolMux.PrefixedConn.ReadMany` | server/cmd/podorel-web/https_redirect.go:132-139 | Any sequence of reads with any buffer sizes yields the original byte stream |
| `ProtocolMux.Route` | server/cmd/podorel-web/https_redirect.go:56-76 | A routed connection still delivers its whole stream, and it is on the TLS side exactly if its first byte is 0x16 |
| `CpuTracker.CPUTracker.Apply` | agent/internal/podman/cpu_tracker.go:20-64 | In place, every entry becomes its rate against an earlier entry of the batch or the previous batch, an entry without id and name, CPU time or moment is left alone, and the memory becomes the old one overwritten by the batch and cut down to its keys |
| `CpuTracker.CPUTracker.DropUnseen` | agent/internal/podman/cpu_tracker.go:57-61 | The deleting loop keeps exactly the seen keys |
| `CpuTracker.RememberedIsTracked` | agent/internal/podman/cpu_tracker.go:49-61 | What that leaves is exactly the batch's own samples, whatever was remembered before |
| `CpuTracker.TrackedKeys` | agent/internal/podman/cpu_tracker.go:30-61 | A key is remembered if and only if the batch has a usable entry for it |
| `CpuTracker.TrackedIsLast` | agent/internal/podman/cpu_tracker.go:49-52 | It is remembered with its last usable entry |
| `CpuTracker.OnlyLastBatchMatters` | agent/internal/podman/cpu_tracker.go:20-64 | After any run of batches, each overwriting and cutting down the memory, it is that of the last one alone |
| `CpuTracker.ZeroRate` | agent/internal/podman/cpu_tracker.go:36-47 | The rate is zero if and only if the key was not there, its CPU time did not grow, or the clock did not advance |
| `CpuTracker.OneInterval` | agent/internal/podman/cpu_tracker.go:36-54 | The rate of a key's first entry, times the time since the batch before, over 100, is the CPU time used since its last entry there |
| `CpuTracker.RepeatedEntryIsZero` | agent/internal/podman/cpu_tracker.go:36-54 | A further entry for the key in the same batch always shows zero |
| `CpuTracker.KeyedByContainer` | agent/internal/podman/cpu_tracker.go:66-71 | Entries belong together if they carry the same container id, and without one if they carry the same name; otherwise the rate is zero |
| `CpuTracker.RatesTelescope` | agent/internal/podman/cpu_tracker.go:20-64 | Over any run with the key always present, CPU time not falling from batch to batch and the clock advancing, the rates account for exactly last minus first CPU time, less what moves between two entries of one batch |
| `CpuTracker.AgreeingEntries` | agent/internal/podman/cpu_tracker.go:20-64 | With one entry a batch, or repeated ones that agree, nothing is left out |
| `PodStats.AggregatePodStats` | agent/internal/podman/stats.go:151-166 | One entry per pod that has a container, holding its containers' ids in order and the sums of their stats, memory wrapping at 64 bits |
| `PodStats.EntryIs` | agent/internal/podman/stats.go:151-166 | A pod has an entry if and only if some container carries its id, and it holds the ids and sums of exactly these in order; those without a pod id are under _unassigned, together with any reported under that id |
| `PodStats.AcrossAllPods` | agent/internal/podman/stats.go:151-166 | Summed over any listing of all pods, exact per-pod totals are the containers' totals: every container counts in exactly one pod |
| `PodStats.AggregationConserves` | agent/internal/podman/stats.go:151-166 | Over all entries of the answer CPU and container counts add up exactly to the containers', memory modulo 64 bits, and exactly when the total fits |
| `Base64Url.BufferToBase64Url` | ui/src/app/core/passkeys.ts:158-165 | The building loop computes the specified encoding |
| `Base64Url.Base64UrlToBuffer` | ui/src/app/core/passkeys.ts:147-156 | The filling loop computes the specified decoding and fails exactly when atob does |
| `Base64Url.GroupValue` | ui/src/app/core/passkeys.ts:164-164 | The digits of a group read in base 64 are its bytes read in base 256 with zero bits appended (RFC 4648 section 4) |
| `Base64Url.BtoaShape` | ui/src/app/core/passkeys.ts:164-164 | An encoding is digits only, then just enough padding to fill the last group |
| `Base64Url.AtobOfBtoa` | ui/src/app/core/passkeys.ts:147-165 | atob undoes btoa on every byte sequence |
| `Base64Url.SwapsInvert` | ui/src/app/core/passkeys.ts:148-148 | The URL alphabet swap is undone by the reverse swap |
| `Base64Url.SwapsInvertBack` | ui/src/app/core/passkeys.ts:148-148 | And the other way round |
| `Base64Url.PaddingRestored` | ui/src/app/core/passkeys.ts:147-165 | Stripping and re-padding to the next multiple of four restores exactly the plain base64 text |
| `Base64Url.RoundTrip` | ui/src/app/core/passkeys.ts:147-165 | Decoding an encoding gives back every byte sequence |
| `Base64Url.UrlSafe` | ui/src/app/core/passkeys.ts:158-165 | The text has no plus, slash or equals sign and the least possible length (RFC 4648 section 5) |
| `Base64Url.UrlText` | ui/src/app/core/passkeys.ts:158-165 | Character i of an encoding is the one RFC 4648 section 5 gives for the six bits i |
| `Base64Url.ExampleTexts` | ui/src/app/core/passkeys.ts:158-165 | The vectors of RFC 4648 section 10 for up to three bytes |
| `Base64Url.PlainIsRead` | ui/src/app/core/passkeys.ts:147-156 | Plain base64 with its padding is read as well |
| `Base64Url.ReadExactly` | ui/src/app/core/passkeys.ts:147-156 | A text without padding or white space is read exactly if it is over the two alphabets and no single digit is left over |
| `Base64Url.ShortGroups` | ui/src/app/core/passkeys.ts:147-156 | What two or three digits at the end come to, spare bits dropped |
| `Base64Url.AtobSkips` | ui/src/app/core/passkeys.ts:150-150 | atob skips the five white-space characters of HTML |
| `Base64Url.AtobRefuses` | ui/src/app/core/passkeys.ts:150-150 | And not a vertical tab |
| `Passkeys.FlowTable.Save` | server/internal/app/passkeys.go:441-453 | The table becomes the unexpired flows plus this one under its own token, with its expiry; without a token nothing changes |
| `Passkeys.FlowTable.Consume` | server/internal/app/passkeys.go:455-470 | Hands out exactly an unexpired flow of that id and purpose; the id is gone afterwards either way, and a blank id changes nothing |
| `Passkeys.FlowTable.Cleanup` | server/internal/app/passkeys.go:472-478 | Exactly the unexpired flows stay |
| `Passkeys.SingleUse` | server/internal/app/passkeys.go:441-478 | In every run each flow is handed out at most once, as it was saved, for its own purpose, strictly before its expiry |
| `Passkeys.AttemptSpends` | server/internal/app/passkeys.go:455-470 | Naming a flow in a consume, even for the wrong purpose, makes every later attempt fail |
| `Passkeys.ConsumeExactly` | server/internal/app/passkeys.go:441-478 | In every reachable state a consume succeeds if and only if it names a saved, never tried, unexpired flow for its own purpose |
| `Passkeys.NoExpiredSurvivor` | server/internal/app/passkeys.go:441-478 | Right after a save or consume the table holds no expired flow |
| `Passkeys.FiveMinutes` | server/internal/app/passkeys.go:441-470 | A saved flow can be consumed for its purpose, and comes back as it was begun, for less than five minutes after its expiry was computed |
| `Passkeys.SaveThenConsume` | server/internal/app/passkeys.go:441-470 | The smallest run: a saved flow is handed out to a later consume exactly if that comes less than five minutes later |
| `ImageBuilds.BuildStore.AppendImageBuildLog` | server/internal/db/store.go:1226-1241 | Load, append, store adds one entry at the end and changes nothing else |
| `ImageBuilds.BuildStore.RunImageBuild` | server/internal/app/builds.go:36-69 | Run alone it ends in the outcome's state with both entries appended and, on failure, the error recorded |
| `ImageBuilds.InvStep` | server/internal/app/builds.go:36-69 | Every step of driver and observers, store failures included, keeps driver memory and stored record in agreement and only advances the record |
| `ImageBuilds.StoredBuildOnlyAdvances` | server/internal/app/builds.go:36-69 | Between any two moments of any run the status only moved from queued over running to one final state and the log only grew at its end |
| `ImageBuilds.ObserversSeeProgress` | server/internal/app/builds.go:107-129 | Every observer is sent a strictly changing, only advancing sequence of records that ends at the first final one it sees |
| `ImageBuilds.NoEntryLost` | server/internal/app/builds.go:36-69 | With a working store a finished driver leaves all three entries in order, the last matching the status |
| `ImageBuilds.RecordBySteps` | server/internal/app/builds.go:36-69 | With a working store the whole record is decided by the number of driver steps: running after two, final after seven, its last entry after nine; complete exactly if the build itself succeeded, and else with its error |
| `ImageBuilds.PollSends` | server/internal/app/builds.go:107-129 | A poll sends the stored record unless that was sent last, and is the last one exactly if that record is final |
| `ImageBuilds.LastRecordIsWholeExactly` | server/internal/app/builds.go:107-129 | An observer's last record contains the final entry if and only if the driver had already finished when it polled |
| `ImageBuilds.GapIsReachable` | server/internal/app/builds.go:57-68 | A poll can fall between the final status and the final entry, so an observer can miss that entry |

## Left out

- Template.ApplyTemplateValues: the collections the code clones first are values, so only the ports, which it does not clone, can show aliasing.
- SnapshotCache.HandleListPods: does not model the order of rows by name and of samples by time, created-at and raw JSON fields, or a uniqueness constraint on Podman ids.
- SnapshotCache.ContainerRowIs: a container's image and state are passed on and decide nothing, so its row leaves them out.
- SnapshotCache.Store.InsertPod: a database that fails goes on failing for the rest of the refresh.
- SnapshotCache.AggregatePodHealth: trims and folds ASCII text only, like every member that normalizes text.
- ContainerLookup.ContainerIndex.ResolveStat: only the fields that decide the lookup are modelled.
- Connection.Conn.WriteFrame: the transport's failures are a byte credit after which writes fall short, and payloads are value sequences except in the XOR loop.
- WriterProtocol.WireIsWholeFrames: writeMu is the enabledness of the acquire step, not a runtime mutex.
- Csrf.ResendAdmittedExactly: storing a refreshed token and resending with it is one step, as they run in one turn of the browser's event loop; login and logout inside a tab are not modelled beyond the end of the session.
- Throttle.LoginThrottle.Throttled: the failure lists in the map are values; their in-place compaction is `Throttle.CompactInPlace`.
- LogSelection.ReadAgentContainerLogs: all zero timestamps of one call are filled with one current time, as they are in LogSelection.ReadLogFile before the lines reach it.
- Settings.PositiveIntValue: a float outside the int64 range converts to the smallest int64, as on amd64.
- Settings.SettingsApp.ApplySettingsPayload: the list of sections that need a restart is not modelled, and a stored row is its decoded value.
- CpuTracker.CPUTracker.Apply: rates are real numbers; the three copies of a rate are one field, and its two-decimal text is not modelled.
- ProtocolMux.QueuesAreExact: connections still queued when a listener closes are neither accepted nor closed, so nothing is said about their end; the sniff deadline is a failing read.
- ImageBuilds.ObserversSeeProgress: an observer's own write errors and disconnects only end its sequence early and have no step.
- streamExecOutput: wraps every chunk it reads in JSON and writes it as one text; the JSON encoding is not modelled.
- HTTP, JSON, cookies, the WebSocket handshake, message fragmentation, UTF-8 checks, argon2, SHA-256 and WebAuthn: library work or not implemented by the code.
- SQL text, migrations and cascades, the Podman CLI and socket, PTY handling, gzip and directory walking: only their results appear, as parameters.
- Audit log, debug traces, mode resolution, FallbackRuntime, configuration loading and the Angular pages: one-branch facts or user interface.

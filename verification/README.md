# mysqlpcap, modelled and proved in Dafny

mysqlpcap rebuilds MySQL conversations from captured TCP segments, pairs queries with their EOF replies,
keeps the slowest ones, records and replays streams, and parses SQL for table statistics. This project
models the parts of it where state, concurrency or parsing make mistakes likely, and proves what they
keep. `dafny verify dfyconfig.toml` checks everything.

| file | models |
|---|---|
| `PacketChain`, `Replay`, `ReplayGuarantees`, `ReplayDelivery`, `ReplayTeardown` | the replay protocol: a reader thread that appends packets and a replay thread that walks the same linked list under two locks, a condition variable and an EOF flag, as a step machine at lock granularity; the unlocked reads of `p->next` are steps of their own; and the end of a replay |
| `Reassembly`, `Segmentation`, `HeaderCuts`, `Framing` | cutting a byte stream into packets, whatever the TCP segments; what a peer has to write for its messages to be found |
| `Conversation`, `ConversationOnBytes`, `TopN`, `Capture`, `CaptureRun`, `CaptureStreams`, `CapturedMessages` | the capture path with `do_run` false: the pure meaning of a conversation, then the classes that compute it with doubly linked lists, reference counts, a shared slow-query set and memory counters |
| `ReplayFile`, `FileLayout`, `Demux`, `EndToEnd` | the replay file, reading it back into streams, and the way from a captured conversation to the replay thread |
| `History`, `QueryStats`, `TableStats` | online statistics against plain definitions over the whole history |
| `Arena`, `Lexer`, `Spelling`, `Conditions`, `ConditionMeaning`, `TableEvents` | the SQL front end: memory pool, lexer with pushback, condition printer, reported tables |
| `Characters` | the letters and digits |
| `Pattern` | the splitter of `s/search/replace/` arguments |

Code that changes state is modelled with classes and methods, and each method is tied to a function on
values; the theorems are about these functions. Ghost fields such as `Stream.asm`, `Stream.pkts`,
`Manager.live` or `Pool.blocks` say what a state stands for.

## What turned out not to hold

Some promises hold only under a condition. In each case the code is modelled as it is, an input that
breaks the promise is given, and the exact condition is proved.

- **Headers cut by segments.** `memcpy(pkt_hdr, *data, hdr_bytes)` always writes to the start of `pkt_hdr`,
  so a header that arrives in pieces is overwritten. `Segmentation.SegmentationExact` says exactly when
  the source still agrees with an uncut stream, and `HeaderCuts.CutsAreHarmlessExactly` gives the condition
  on the bytes of the stream and the places of the cuts alone. `Segmentation.UncutHeadersSurvive` says that
  cuts elsewhere are harmless, and `HeaderCutLosesQuery` shows a lost query.
- **Full delivery.** The replay thread may start before the first packet, or see `reached_eof` with packets
  still linked: between its test of `next` under `lock` and the one under `eof_lock`
  (mysql_stream.cc:86-101) another packet may be linked and the flag set.
  `ReplayDelivery.EndDecidesDelivery` says from the state in which the flag is set how many packets will be
  walked, whatever the threads do then, and `MissesIsFinal` names exactly the states in which some are
  missed. `ReplayGuarantees.EarlyConsumerMissesQueries` and `EofHidesLinkedPackets` are runs where that
  happens; `EndWhileWaitingDelivers` says what a reader can do about it: end the replay only while its thread
  waits. The prefix property always holds.
- **Streams that can be replayed.** The EOF branch uses `last_query` although the replay thread may have
  freed it, and the server branch unlinks a packet although the replay thread may stand on it.
  `ReplayGuarantees.SafeExactly` gives the exact condition, over all schedules: server packets only at the
  very beginning, and every EOF that finds a query waiting directly behind that query. `UnsafeFaults` makes a
  failing run for every other stream, `DisciplineIsNeeded` the one for query, client packet, EOF.
- **Two directions, two keys.** `process_pkt` knows a conversation by its client's endpoint. `get_key` files
  a recorded packet of the client under the endpoint that was not seen first, and one of the server under the
  other, so a server's endpoint may collect client packets of conversations whose client was seen first and
  server packets of others. `EndToEnd.RecordedCaptureReplaysSafely` is about recordings in which no endpoint
  does; `JoinedFromBothSidesFails` is one in which one does, and whose replay uses a freed packet;
  `FileReplaysSafelyExactly` is the exact condition for a stream of any file.
- **The end of a replay.** Answered queries stay linked while a stream is replayed, and `cleanup` deletes
  those in the slow-query set before the streams. `ReplayTeardown.TeardownExactly` says that this goes wrong
  if and only if one of them belongs to a stream that is still open, and what stays allocated otherwise;
  `OpenStreamFails` is a run that goes wrong.
- **Recording over an old file.** `init_replay_file` does not truncate. `ReplayFile.StaleTail` says when a
  recording over a given old file reads back as itself, `StaleTailIsRead` shows an old packet coming back.
- **Pushback at the end of the text.** `yyungetc` after the end of input repeats the last character. A text
  that ends with a token `<`, `>`, `-` or `/` is therefore lexed forever, and on one that ends with a star
  inside an unclosed block comment a single call does not return. `Lexer.FateExactly` says that these are
  all, `Lexer.Lexer.FirstCalls` and `SkipBlockFor` that the scanning methods behave so for any number of
  calls or turns, and `YyLex` and `Tokens` are proved for every other text. `Lexer.PlainEnd` is the
  condition on the last character alone.
- **Number text.** The first digit of a number is stored twice: `Lexer.Lexer.ScanNumber` returns the digit
  and then the number. Token kinds are not affected.
- **Pattern arguments without `s/`.** `add_query_pattern` drops a leading `s` and a slash whether or not
  they are a prefix. `Pattern.PrefixNeeded` says which arguments survive that.
- **Cut payloads.** `replay_read` counts a payload before reading it and never takes it back when the file
  ends inside it; `ReplayFile.Packet.ReplayRead` states both outcomes.
- **Maximum of negative times.** `max_exec_time` starts at zero; `QueryStats.PatternStats.ExtremesAreSamples`
  says when it is a sample.

## Model

| member | source | states |
|---|---|---|
| PacketChain.UnlinkKeepsShape | mysql_stream.cc:122-144 | unlinking a packet with one reference takes it and nothing else off the doubly linked list, frees it, and touches no freed packet |
| PacketChain.LinkKeepsShape | mysql_stream.cc:399-416 | `append_packet` adds one live packet with one reference at the end; both chains stay in agreement |
| Replay.ClassifyEffect | mysql_stream.cc:418-467 | in a safe stream, classifying a newest packet that is no server packet notes a query, or registers exactly the query before an EOF, or does nothing, and unlinks nothing while replaying |
| Replay.LeadingServerGoes | mysql_stream.cc:460-463 | a server packet at the very beginning of the stream is unlinked and freed at once |
| Replay.PassedPacket | mysql_stream.cc:112-117 | the packet the consumer moved past leaves the list and is freed, unless it is a registered query: then it stays linked with its second reference, also when the slow-query set has dropped it |
| Replay.StepKeepsInv | mysql_stream.cc:67-120 | every step of either thread keeps the invariant: who holds which lock, shape of the list, reference counts, the consumer's packet still linked, the logs of executed and registered queries |
| Replay.RunKeepsInv | mysql_stream.cc:67-120 | every schedule of a safe stream keeps the invariant |
| Replay.QueriesAre | mysql_stream.cc:83-84 | the log of executed queries is held against exactly the positions of queries, each once and in order |
| Replay.DisciplinedIsSafe | mysql_stream.cc:424-456 | streams in the order the recorder writes for one conversation are safe |
| ReplayGuarantees.ExecutedIsPrefix | mysql_stream.cc:67-120 | in every interleaving of a safe stream the executed queries are a prefix of the appended ones, no packet is used after it was freed, and the consumer's packet is linked and reachable from `first` |
| ReplayGuarantees.PassedPacketsAreFreed | mysql_stream.cc:371-384 | a packet behind the consumer is freed, exactly unless it is a query answered by its successor, which stays linked with two references |
| ReplayGuarantees.NoDeadlock | mysql_stream.cc:36-50 | unless both threads are done one of them can move, with no help from spurious wake-ups, and nobody asks for `lock` while holding `eof_lock` |
| ReplayGuarantees.NoLostWakeup | mysql_stream.cc:99-110 | a waiting consumer has no next packet and no EOF, unless the notification is still to come |
| ReplayGuarantees.StepShrinksRemaining | mysql_stream.cc:99-119 | once `reached_eof` is set every step makes the remaining work smaller |
| ReplayGuarantees.JoinCompletes | mysql_stream.cc:36-50 | once `reached_eof` is set the run is bounded, and where it stops the consumer has returned and was joined |
| ReplayGuarantees.FullDelivery | mysql_stream.cc:86-110 | in a joined state every packet was walked if and only if there was none or the consumer returned at a packet without successor, and every query executed if and only if none lies behind the last packet walked |
| ReplayDelivery.StepKeepsFinal | mysql_stream.cc:36-120 | once the flag is set no step of either thread changes the number of packets that will be walked |
| ReplayDelivery.MissesIsFinal | mysql_stream.cc:69-101 | packets are missed exactly where the consumer begins or has returned with an empty list although packets came, or stands at the locks of the wait loop or behind its test, with another packet linked since |
| ReplayDelivery.EndDecidesDelivery | mysql_stream.cc:36-120 | from a state with the flag set every way to the join walks the same packets and executes exactly their queries; it walks all if and only if the state is none of these, and executes all if and only if no query lies behind |
| ReplayGuarantees.EndWhileWaitingDelivers | mysql_stream.cc:44-50 | a reader that sets `reached_eof` only while the replay thread waits loses no query, whatever happens afterwards |
| ReplayGuarantees.EarlyConsumerMissesQueries | mysql_stream.cc:70-78 | a run in which the consumer finds no first packet and executes nothing |
| ReplayGuarantees.EofHidesLinkedPackets | mysql_stream.cc:101-110 | a run in which the EOF flag hides a linked query |
| ReplayGuarantees.SafeExactly | mysql_stream.cc:418-467 | no schedule of any part of a stream uses a freed packet if and only if the stream is safe, a condition on the kinds of its packets alone |
| ReplayGuarantees.SafeMeans | mysql_stream.cc:429-463 | safe means: before a server packet there are only server packets, and between a query and a later EOF that is not next to it there is another query or EOF |
| ReplayGuarantees.UnsafeFaults | mysql_stream.cc:429-463 | every other stream has a run that fails |
| ReplayGuarantees.DisciplineIsNeeded | mysql_stream.cc:431-456 | a run of a query, a client packet and an EOF that uses a freed packet |
| ReplayTeardown.CleanupWalks | mysql_stream.cc:317-327 | cleaning up a list goes wrong exactly when a packet of it was freed, and otherwise gives back one reference of each |
| ReplayTeardown.TeardownExactly | mysql_stream_manager.cc:27-40 | with `do_run` set, deleting the slow-query set and the streams goes wrong if and only if a query of the set belongs to a stream still open; all of them are still linked; otherwise exactly the registered queries that the set had dropped stay allocated |
| ReplayTeardown.OpenStreamFails | mysql_stream_manager.cc:27-40 | a joined run of one answered query for which it does |
| Reassembly.FeedConcat | mysql_stream.cc:286-315 | feeding two stretches of bytes one after the other is feeding both at once |
| Reassembly.FeedPayload | mysql_packet.cc:99-115 | bytes that stay within the open packet are added to it |
| Reassembly.FeedHeader | mysql_stream.cc:336-355 | header bytes go where the code puts them, and the fourth opens a packet of the length then in `pkt_hdr` |
| Segmentation.ByteByByteFindsFrames | mysql_stream.cc:286-369 | byte by byte the machine completes exactly the length-prefixed frames of the stream |
| Segmentation.SegmentationExact | mysql_stream.cc:338-350 | after any segments the source agrees with the uncut stream, in packets and state, if and only if every header that a cut runs through survives |
| Segmentation.HeaderCutOnce | mysql_stream.cc:338-350 | a header cut behind one byte survives exactly when its four bytes are equal, behind two when its halves are equal and `pkt_hdr` held the third byte already, behind three when the first and the last byte are equal |
| Segmentation.UncutHeadersSurvive | mysql_stream.cc:338-350 | cuts outside headers are harmless |
| Segmentation.SegmentationIndependence | mysql_stream.cc:286-369 | two ways to cut the same bytes, in both of which the cut headers survive, give the same packets, the same packet being filled and the same number of header bytes, and the packets are the frames |
| HeaderCuts.CutsAreHarmlessExactly | mysql_stream.cc:338-350 | after any segments the source agrees with the uncut stream if and only if, frame after frame, the bytes of each cut header repeat each other or those of the header before it in the way its cuts, one to three, ask for |
| HeaderCuts.CollectedSurvives | mysql_stream.cc:341-361 | for every way to cut a header, the bytes collected in `pkt_hdr` declare its length if and only if it survives by that condition |
| Framing.HeaderDeclares | mysql_stream.h:57-60 | a header declares `n` bytes if and only if its first three bytes are `n` with the lowest byte first; what the fourth is does not matter |
| Framing.MessagesAreFound | mysql_stream.cc:286-369 | the frames of any messages, of any length up to 2^24 - 1, number, direction and times, are completed as exactly these payloads, each with the time of the last byte of its header |
| Framing.CutMessagesAreFound | mysql_stream.cc:286-369 | so they are in any segments whose cuts are harmless |
| Segmentation.HeaderCutLosesQuery | mysql_stream.cc:343-343 | a cut after the first header byte loses a query |
| Conversation.ListAndAnswers | mysql_stream.cc:418-467 | after any packets the list holds exactly those not dropped on arrival nor removed with an answered query, each query answered by an EOF with no query or EOF between is registered exactly once and in order, and `last_query` is the one still waiting |
| Conversation.AfterOfPrefix | mysql_stream.cc:418-467 | what the first packets lead to does not depend on later ones |
| Conversation.AnswersGrow | mysql_stream.cc:431-456 | registrations are only ever added |
| Conversation.RecordingIsDisciplined | mysql_stream.cc:424-456 | what the recorder writes for any conversation has the order the replay protocol relies on |
| ConversationOnBytes.KindOnBytes | mysql_packet.cc:137-145 | a query is a client packet that starts with 3, an EOF a server packet that starts with 254, and nothing else is either |
| ConversationOnBytes.AnswersOnBytes | mysql_stream.cc:424-463 | after any packets the registered answers are exactly the pairs of a client packet starting with 3 and a server packet starting with 254 with neither kind between, in order |
| ConversationOnBytes.RecordedExactly | mysql_stream.cc:424-456 | what is written to the replay file: exactly the queries, the EOFs that answer one, and the client packets between a query and its EOF, each once, in order of arrival but for an EOF, which comes before what it sweeps |
| TopN.SlowestIsPrefixOfSort | mysql_stream_manager.cc:449-461 | inserting each query and evicting the last one agrees with sorting the whole history stably by falling time and keeping the first `n_slow_queries` |
| TopN.SortAllSorts | mysql_packet.h:73-79 | the reference order contains every query once, slower ones first, equal ones in order of registration |
| TopN.StableSortIsUnique | mysql_packet.h:73-79 | there is only one such order |
| TopN.SlowestAreSlowest | mysql_stream_manager.cc:449-461 | as many as fit are kept, slower ones first; no query left out is slower than one kept, and of equally slow ones those registered first are kept |
| Capture.Packet.Append | mysql_packet.cc:99-115 | takes as many bytes as still fit and no more |
| Capture.Packet.UnmarkRef | mysql_packet.h:32-44 | gives one reference back; the last one frees the packet and adjusts both counters |
| Capture.Stream.UnlinkPkt | mysql_stream.cc:122-144 | unlinks a packet of this list, or one that is on no list; the list loses that packet only, and the packet is freed exactly when that was its last reference |
| Capture.Stream.Sweep | mysql_stream.cc:442-456 | the loop of the EOF branch records the client packets and frees everything from the query on |
| Capture.Stream.RegisterAndDrop | mysql_stream.cc:438-440 | the answered query leaves the list and stays allocated exactly when it is among the slowest, also when it evicts itself |
| Capture.Stream.TimeQuery | mysql_stream.cc:431-436 | both assertions of the EOF branch hold; the execution time is the time from query to EOF |
| Capture.Stream.AnswerQuery | mysql_stream.cc:429-458 | the EOF branch leads from one state of the conversation to the next |
| Capture.Stream.DropServerPacket | mysql_stream.cc:460-463 | a server packet that is no EOF vanishes |
| Capture.Stream.HandlePacketComplete | mysql_stream.cc:418-467 | list, `last_query`, record and registrations become what the pure fold says, and the live packets stay exactly those listed or kept |
| Capture.Stream.CreateNewPacket | mysql_stream.cc:336-369 | header bytes and the new packet are what feeding these bytes makes of them; it fails when the segment ends inside the header |
| Capture.Stream.Round | mysql_stream.cc:288-313 | one round of the loop of `append` advances by the bytes it used |
| Capture.Stream.Append | mysql_stream.cc:286-315 | one segment leads exactly to the state of feeding it byte by byte, with the new answers registered once each |
| Capture.Stream.Cleanup | mysql_stream.cc:317-334 | every packet of the list is freed |
| Capture.Manager.NewPacket | mysql_packet.cc:22-28 | a new packet is counted |
| Capture.Manager.Release | mysql_packet.h:32-44 | the counters still agree with the live packets after a reference is given back |
| Capture.Manager.InsertPosition | mysql_stream_manager.cc:453-453 | a multiset inserts behind all elements that are at least as slow |
| Capture.Manager.Evict | mysql_stream_manager.cc:455-461 | the fastest query leaves the set through whatever stream is at hand, and is freed unless it is the new query itself, which is then unlinked and keeps one reference |
| Capture.Manager.RegisterQuery | mysql_stream_manager.cc:449-461 | the set stays the slowest of the whole history; what leaves it is freed, the new query excepted |
| Capture.Manager.Feed | mysql_stream_manager.cc:281-316 | a segment changes one stream only, and the live packets stay the disjoint union of all stream lists and the slow-query set, one reference each |
| Capture.Manager.OpenStream | mysql_stream_manager.cc:269-279 | a new stream is empty and disturbs nothing |
| Capture.Manager.CloseStream | mysql_stream_manager.cc:280-295 | closing a stream frees its packets except those among the slowest |
| Capture.Manager.Cleanup | mysql_stream_manager.cc:27-42 | nothing stays allocated and the counters come out even |
| CaptureRun.Handle | mysql_stream_manager.cc:201-324 | one TCP packet that is not skipped does to the streams, the registrations and their execution times what the pure step says |
| CaptureRun.Run | mysql_stream_manager.cc:201-324 | after any sequence of opened streams, segments and closed streams every invariant holds, each stream is where its bytes put it, the registrations are all answered queries in order with the times from query to EOF, and the slow-query set holds the slowest of them |
| CaptureRun.SlowSetIsTopN | mysql_stream_manager.cc:449-461 | in a valid state the slow-query set holds the first `n_slow_queries` of all registered queries in stable order of falling time |
| CaptureStreams.StreamsExactly | mysql_stream_manager.cc:260-316 | after any run a stream is open if and only if it was opened and not closed since, and it is where the segments that came for it since then put it |
| CapturedMessages.CapturedConversation | mysql_stream_manager.cc:281-316 | a conversation of any messages in any segments with harmless cuts: what is registered are the queries whose next query or EOF is an EOF, each once and in order, with their payload and the time from header to header |
| ReplayFile.Korr4Store4 | common.h:118-122 | `uint4korr` undoes `int4store` modulo 2^32 |
| ReplayFile.Korr8Store8 | common.h:100-140 | `uint8korr` undoes `int8store` modulo 2^64, negative values included |
| FileLayout.RecordLayout | mysql_packet.cc:33-56 | the bytes of a record: key, direction, seconds, microseconds and length at their places, lowest byte first, and the payload from byte 29 on |
| FileLayout.ReadLayout | mysql_packet.cc:58-97 | any bytes hold a record if and only if they hold its 29 bytes and the payload these announce, and which record that is |
| FileLayout.HeadLayout | mysql_stream_manager.cc:343-358 | the file starts with MCAP and version 1 in two bytes |
| ReplayFile.DecodeOneEncode | mysql_packet.cc:33-97 | a written record is read back with all its fields, whatever follows |
| ReplayFile.RoundTrip | mysql_packet.cc:33-97 | any list of records in range reads back as itself |
| ReplayFile.PrefixReadsPrefix | mysql_packet.cc:58-97 | cutting any file, well formed or not, gives a prefix of what it held |
| ReplayFile.TruncationExact | mysql_packet.cc:58-97 | a recording cut anywhere reads back as exactly the records that were written whole |
| ReplayFile.StaleTail | mysql_stream_manager.cc:343-358 | a recording over an old file reads back as itself and then the records that can be read off what it left of the old file; so as itself if and only if there is none, and always if the old file was too short |
| ReplayFile.StaleTailIsRead | mysql_stream_manager.cc:345-345 | a recording of one packet over a recording of two: the second old packet is read again |
| ReplayFile.Packet.ReplayWrite | mysql_packet.cc:33-56 | fails exactly when the record does not fit, and then what fits is written |
| ReplayFile.Packet.ReplayRead | mysql_packet.cc:58-97 | the next record, or failure exactly when the file ends before or inside it; what happens to the counters in either case |
| ReplayFile.InitReplayFile | mysql_stream_manager.cc:343-358 | the head is written over what the file holds |
| Demux.KeyNamesEndpoint | mysql_stream_manager.h:102-105 | the address is the key divided by 2^32 and the port the remainder; splitting a key undoes `get_key` and `get_key` undoes splitting, for all 32-bit halves |
| Demux.DemuxExact | mysql_stream_manager.cc:361-396 | the live streams are those with records since their last zero-length record, and each holds exactly these in file order |
| Demux.KeysAreIndependent | mysql_stream_manager.cc:361-396 | records of other keys, however they lie between, make no difference to a stream |
| Demux.Manager.FindOrMakeStream | mysql_stream_manager.cc:361-396 | the stream of a key, made or removed as needed; no other is touched |
| Demux.Manager.Deliver | mysql_stream_manager.cc:416-437 | every record up to the first that is cut goes to its stream |
| Demux.Manager.ProcessReplayFile | mysql_stream_manager.cc:398-437 | the outcome for any file: the three refusals, or delivery of everything readable behind the head; the version is not looked at |
| Demux.ReplayOfRecording | mysql_stream_manager.cc:398-437 | a cut recording delivers to each stream its share of the records that were written whole |
| EndToEnd.RecordedCaptureReplaysSafely | mysql_stream.cc:52-120 | conversations recorded in any interleaving, closed ones included, cut anywhere, read back and replayed stream by stream in any interleaving of the threads: no freed packet is used and a prefix of the queries the stream received is executed, if no endpoint serves both directions |
| EndToEnd.JoinedAlikeApart | mysql_stream_manager.cc:269-279 | none does if all conversations were joined from the same side and clients and servers have different endpoints |
| EndToEnd.StretchIsSafe | mysql_stream.cc:61-65 | then what a stream receives between two ends is safe to replay |
| EndToEnd.FileReplaysSafelyExactly | mysql_stream_manager.cc:361-437 | for any records and any cut, no replay of a stream fails if and only if what it received is safe |
| EndToEnd.JoinedFromBothSidesFails | mysql_stream.cc:61-65 | a recording of two conversations joined from different sides whose replay uses a freed packet |
| EndToEnd.RecordIs | mysql_stream.cc:61-65 | a packet is filed under the destination of its stream if it came from the client and under the source otherwise, with direction, payload and time kept |
| History.KeysPartition | mysql_stream_manager.cc:576-593 | over any list naming each key once, keyed counts and totals add up to the whole history |
| QueryStats.CountPermuted | mysql_stream_manager.cc:562-565 | rank counts do not depend on the order of the samples |
| QueryStats.SortedGivesKth | mysql_stream_manager.h:33-56 | in sorted samples the `k`-th smallest stands at index `k - 1` |
| QueryStats.KthIsMonotone | mysql_stream_manager.h:46-56 | order statistics grow with their rank and each rank has only one |
| QueryStats.PercentilesAreMonotone | mysql_stream_manager.h:46-56 | a higher percentile is never smaller, and from the hundredth on all are the last sample |
| QueryStats.PatternStats.RecordQuery | mysql_stream_manager.cc:550-560 | count, total, minimum and maximum are those of the whole history |
| QueryStats.PatternStats.Finalize | mysql_stream_manager.cc:562-565 | the samples in order, none lost |
| QueryStats.PatternStats.GetPct | mysql_stream_manager.h:46-56 | a `k`-th smallest sample where `k` is the highest rank with `100 * k <= n * pct`, but at least the first and at most the last |
| QueryStats.ReachesOnce | mysql_stream_manager.h:46-56 | only one rank is the one of a percentile |
| QueryStats.PatternStats.GetMedian | mysql_stream_manager.h:33-44 | halfway between the samples of rank `(n + 1) / 2` and `n / 2 + 1` |
| QueryStats.PatternStats.ExtremesAreSamples | mysql_stream_manager.h:28-30 | the recorded extremes bound all samples; the maximum is a sample if and only if some sample is not negative |
| QueryStats.PatternStats.KthWithinExtremes | mysql_stream_manager.h:33-56 | percentiles and medians lie between the recorded minimum and maximum |
| QueryStats.AllStats.RecordQuery | mysql_stream_manager.cc:576-593 | every pattern has exactly its part of the history |
| QueryStats.AllStats.Finalize | mysql_stream_manager.cc:514-521 | every pattern is sorted and nothing else changes |
| QueryStats.AllStats.TotalsAreSums | mysql_stream_manager.cc:523-548 | however the patterns are walked, counts and totals add up to the overall ones |
| TableStats.TableNameIsNameAt | table_stats.cc:130-142 | the name is the longest run of table characters from the first letter on |
| TableStats.QuotesDoNotMatter | table_stats.cc:130-142 | characters no name has, around a name, change nothing |
| TableStats.TableCharacters | table_stats.cc:96-99 | a name starts with one of the 52 letters and goes on with these, the ten digits, `_` and `$` |
| TableStats.SummaryMeans | table_stats.cc:101-111 | the minimum and maximum of an entry are times of its history and bound it |
| TableStats.TableStats.RegisterQuery | table_stats.cc:113-126 | the entry of the query type goes on to sum up its times, now with the new one; no other entry is touched |
| TableStats.TableStats.UpdateTable | table_stats.cc:128-155 | there is an entry for exactly the tables and types seen, and each sums up its part of the history |
| TableStats.TableStats.CountsAddUp | table_stats.cc:128-155 | every update is counted in exactly one entry |
| Arena.CStrUnique | sql_parser.yy:88-97 | a C string ends at its first NUL |
| Arena.StrLen | sql_parser.yy:90-90 | the length of the string at a pointer |
| Arena.TotalLen | sql_parser.yy:105-112 | the first pass finds the length of the concatenation |
| Arena.JoinInto | sql_parser.yy:119-131 | the second pass writes the concatenation of the arguments as they were, also when they lie in the buffer it writes to |
| Arena.Pool.Grow | sql_parser.yy:32-79 | a new chunk, large enough, at the end of the chain |
| Arena.Pool.Alloc | sql_parser.yy:52-85 | a block inside a chunk, behind all earlier blocks of that chunk; no chunk moves |
| Arena.Pool.StrDup | sql_parser.yy:88-97 | a copy in a block of its own; every earlier string is unchanged |
| Arena.Pool.StrCatN | sql_parser.yy:100-134 | exactly the concatenation of the non-null arguments, in a block of its own, also when arguments are strings of the pool; every earlier string is unchanged |
| Arena.Pool.StringStays | sql_parser.yy:88-134 | a string handed out reads as it did when it was made |
| Arena.Pool.BlocksApart | sql_parser.yy:52-85 | blocks lie in bounds and no two share a place |
| Arena.Pool.Cleanup | sql_parser.yy:138-150 | every chunk is freed once and none is read afterwards |
| Lexer.LineLenStable | sql_parser.yy:1387-1392 | where a line comment ends depends on nothing behind it |
| Lexer.TokenStable | sql_parser.yy:1427-1645 | a token does not depend on what follows it, as long as that ends tokens too |
| Lexer.LexStable | sql_parser.yy:1366-1645 | nor does the next token of a text with comments and white space in front |
| Lexer.FillerSkipped | sql_parser.yy:1366-1422 | white space and closed comments in front add nothing but characters read |
| Lexer.FillerDoesNotMatter | sql_parser.yy:1351-1645 | white space and comments put in at any token boundary leave the token kinds as they are |
| Lexer.Lexer.GetC | sql_parser.yy:167-180 | the next character; `yylineno` is one more than the newlines read |
| Lexer.Lexer.UngetC | sql_parser.yy:183-190 | one step back; `yylineno` is still one more than the newlines read |
| Lexer.Lexer.GetThenUnget | sql_parser.yy:167-190 | pushback restores the place if and only if there was a character to read, or the text is empty |
| Lexer.Lexer.SkipBlock | sql_parser.yy:1398-1416 | to the first end mark of a comment, or to the end of the text, unless the comment does not close and the text ends with a star |
| Lexer.Lexer.BlockTurn | sql_parser.yy:1401-1410 | one turn of the comment loop; at a star at the end of the text it changes nothing |
| Lexer.Lexer.SkipBlockFor | sql_parser.yy:1401-1410 | the loop ends within as many turns as there are characters left and one, if and only if it is not such a comment; otherwise it ends after no number of turns |
| Lexer.Lexer.SkipBlanks | sql_parser.yy:1366-1422 | white space and comments are skipped as the pure lexer says, and the place is right behind the first character of the token, or on it when the end of the text was pushed back |
| Lexer.Lexer.ScanNumber | sql_parser.yy:1475-1548 | the extent of a number; its text is the first digit and then the number |
| Lexer.Lexer.ScanToken | sql_parser.yy:1427-1645 | kind, extent and text of the token, and where the place is afterwards, for every text |
| Lexer.Lexer.YyLex | sql_parser.yy:1351-1645 | the next token of the text that is left, and how far the place moves, for every text on which the call returns |
| Lexer.Lexer.Tokens | sql_parser.yy:1351-1645 | calling the lexer to the end terminates and gives the tokens of the text, for every text on which the calls come to an end |
| Lexer.Lexer.FirstCalls | sql_parser.yy:1351-1645 | any number of calls on any text, as long as they return: they end exactly when it was said, and give the kinds that were said |
| Lexer.MoveIs | sql_parser.yy:1431-1470 | a token moves the place behind it, but for a token `<`, `>`, `-` or `/` at the very end of the text, where it stays on the last character |
| Lexer.FateOfCalls | sql_parser.yy:1351-1645 | the calls come to the end or an error, to a call that does not return, or to neither ever, within one call more than there are characters |
| Lexer.FateExactly | sql_parser.yy:1351-1645 | they go on forever exactly when the last token is such an operator and the end of the text, and one does not return exactly when the text ends with a star in a comment that does not close |
| Lexer.OperatorRepeats | sql_parser.yy:1431-1470 | where they go on forever, each call gives that operator again |
| Lexer.PlainEnd | sql_parser.yy:183-190 | a text whose last character is none of `<`, `>`, `-`, `/` and `*` is lexed to the end or an error |
| Lexer.Lex | sql_parser.yy:1351-1645 | every token but the end consumes input |
| Spelling.WordKindExactly | sql_parser.yy:1568-1640 | a word is a keyword if and only if it is one of the keyword tokens of the grammar up to the case of its letters |
| Spelling.PieceIsToken | sql_parser.yy:1427-1645 | every mark, operator, word, quoted text, quoted name and figure is one token of its kind when white space follows |
| Spelling.TextIsLexed | sql_parser.yy:1351-1645 | a text written token by token with white space between is read back as these tokens, each of its kind, and nothing else |
| Spelling.TextOfPiece | sql_parser.yy:1500-1645 | the string that goes with each: the text between the quotes, the name, the figure with its first digit doubled |
| Spelling.CommentsAreSkipped | sql_parser.yy:1372-1416 | each kind of comment is skipped to its end and no further; `#` takes the next character along, even the end of its line |
| Spelling.CommentIsFiller | sql_parser.yy:1372-1416 | so a comment may stand wherever white space may |
| Spelling.OpenQuoteIsError | sql_parser.yy:1499-1530 | a quote that does not close on its line is an error |
| Spelling.LoneMarkIsError | sql_parser.yy:1444-1492 | so is an exclamation mark or an at sign without its second character |
| Lexer.NewlinesAreCounted | sql_parser.yy:167-190 | the count behind `yylineno` is the number of newlines |
| Conditions.ParseDecidesGrammar | sql_parser.yy:891-1014 | the layered grammar is unambiguous: a token string parses to a condition if and only if that condition derives it |
| Conditions.PrintIsYieldOr | sql_parser.yy:899-945 | the printed text is derived by the condition with parentheses around every operand |
| Conditions.NormKeepsOr | sql_parser.yy:899-945 | these parentheses change no truth value, in three-valued logic |
| Conditions.PrintPreservesMeaning | sql_parser.yy:891-1014 | the printed text of any condition parses, to a condition with the same truth value in every environment |
| Conditions.RoundsPreserveMeaning | sql_parser.yy:891-1014 | so it does after any number of rounds of printing and parsing |
| Conditions.PrintIsInjective | sql_parser.yy:891-1014 | two conditions print alike only when they are the same |
| ConditionMeaning.OrIsPlain | sql_parser.yy:891-945 | where nothing is unknown the truth value used above is that of plain OR, AND and NOT |
| ConditionMeaning.OrSettles | sql_parser.yy:891-945 | a known truth value stays, whatever the unknown ones turn out to be |
| ConditionMeaning.UnknownDecides | sql_parser.yy:891-945 | with one operand unknown OR is true or unknown, AND is false or unknown, as the other one decides; NOT stays unknown |
| ConditionMeaning.Grouping | sql_parser.yy:891-945 | AND binds closer than OR, NOT closer than AND, and both group to the left |
| ConditionMeaning.Forms | sql_parser.yy:934-1014 | comparisons, tests for NULL and parentheses are what they are parsed as |
| TableEvents.RefScan | sql_parser.yy:512-546 | a table reference reports its tables, and the scan goes on behind it |
| TableEvents.ExprScan | sql_parser.yy:629-1050 | so do expressions and conditions: the subqueries in operands, in arguments of functions, in CAST and CONVERT, in EXISTS and in IN lists report their tables in order |
| TableEvents.HintsScan | sql_parser.yy:1267-1318 | index hints, of any form and number, report nothing |
| TableEvents.JoinsScan | sql_parser.yy:567-612 | so do the joins, their conditions included |
| TableEvents.SelectScan | sql_parser.yy:468-502 | so does a SELECT with subqueries anywhere |
| TableEvents.UnionScan | sql_parser.yy:343-391 | so does a UNION or UNION ALL of any nesting |
| TableEvents.CallsAreScanned | sql_parser.yy:333-1180 | the reports are read off the tokens of a statement alone: the unqualified names in FROM and JOIN positions, found by one look from left to right, once per position and in order, and then the first name behind INSERT INTO, UPDATE, DELETE FROM or ALTER TABLE under that leading word; the words of a SHOW are not looked at |
| TableEvents.TargetIsLast | sql_parser.yy:1119-1186 | the target of a statement is reported last and once, under the word the statement begins with; everything else, and all that a query or SHOW reports, is of type SELECT |
| TableEvents.Report | table_stats.cc:32-35 | the reports of a statement enter the table statistics in order |
| Pattern.SplitReads | mysql_stream_manager.cc:635-672 | splitting character by character: a slash ends the part, a backslash before a slash disappears, before another character it stays, at the end it is lost |
| Pattern.SplitEscape | mysql_stream_manager.cc:635-672 | splitting undoes escaping, up to the slash or to the end of the text |
| Pattern.ReachableParts | mysql_stream_manager.cc:641-648 | exactly the texts in which backslashes come with another character can be written at all |
| Pattern.ParseRePart | mysql_stream_manager.cc:635-672 | one part and the rest; the output never exceeds the input consumed, and its NUL fits |
| Pattern.AddQueryPattern | mysql_stream_manager.cc:675-691 | both parts of an argument, within buffers of its length |
| Pattern.KeptBody | mysql_stream_manager.cc:675-691 | behind the prefix the first 8192 characters count |
| Pattern.RoundTrip | mysql_stream_manager.cc:675-691 | any two such parts written as `s/search/replace/` come back, as long as they and the slash between them fit into the 8192 characters that are kept |
| Pattern.PrefixNeeded | mysql_stream_manager.cc:677-680 | without the `s/` they come back if and only if the search part starts with another character than `s`, or both are empty |

## Left out

- libmysqlclient connections, SSL, EXPLAIN, result fetching, real clocks and the replay schedule: executing a query is an entry in a log.
- Overflow packets of length 0xffffff and their assembly in `db_query`; empty packets, whose payload `is_query` and `is_eof` would read out of bounds; a change of direction inside a packet is taken as it comes.
- Packet payloads, the header buffer and file contents are values in fields; that they are arrays that could alias is modelled for the arena and the pattern splitter only.
- The return value of `append`, which `process_pkt` ignores, and `create_new_packet` being called for a segment with no bytes left.
- `IP_stream`, the fragment branch of `process_pkt`, the filters in front of `append` (retransmissions, authentication packets and streams joined in the middle).
- Capture.Stream.Append: requires that no header of length zero turns up, because the code reads the first byte of an empty payload.
- Times are integers on the capture path and reals in the statistics: rounding of `double` is not modelled, and no time is a NaN.
- Short reads and writes other than at the end of the file or the disk, and failing `open` calls.
- Queries are filed under a key that is given: matching patterns with PCRE2 is not part of this model.
- `std::sort` and `std::multiset` are modelled by an insertion sort and by a sequence with a linear search from the end.
- Lexer.Lexer.YyLex: requires that the call returns, because a method that does not terminate cannot be written; `SkipBlockFor` says what its loop does otherwise. The text is ASCII, and the 256-byte limit on tokens and the column number are not modelled.
- Conditions.ParseDecidesGrammar: expressions are single tokens, so the overlap of a parenthesised expression with a parenthesised condition, which the grammar leaves to the parser's tables, is not modelled, nor are the IN, EXISTS and negative-number actions, which do not print faithfully; the two rules that make a condition of a bare expression are one.
- TableEvents.CallsAreScanned: derivations are trees of the grammar; how the LALR tables choose between derivations is not modelled, and GROUP BY, ORDER BY, LIMIT and WHERE are one kind of clause.
- `USE_SIMPLE_PARSER`, option parsing, progress, printing, CSV and HTML reports, building and packaging.
- Allocation failure, and reports of it.

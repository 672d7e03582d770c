# MCPWatch, verified

MCPWatch sits between an MCP client and its server, records the JSON-RPC traffic and shows it. This
project models the parts of it that keep state, in Dafny, and proves what they promise over whole
streams and whole runs.

| files | part of the program |
|---|---|
| `Bytes`, `Lines`, `JsonFramer`, `StreamBuffer`, `JsonText` | the buffer that cuts a captured byte stream into JSON texts and lines |
| `Tracer`, `Capture` | the kernel hooks, the event loop they feed, and the path through both |
| `Interceptors`, `Encodings` | the line framers of the HTTP and socket proxies and the encodings they see |
| `Hash`, `Correlator` | the table that pairs responses with requests |
| `KeyOrder`, `Stats`, `OrderedMap`, `Store`, `StoreImpl` | the message store: keys, statistics, queue, drain, queries |
| `Hub` | the WebSocket hub and its goroutines |
| `Alerter` | the threshold check and its rate limit |

Each part has the code in the form the program gives it (a class whose methods update its fields), a
specification on values that every method is proved against, and lemmas about the specification.
Bytes are integers below 256, a Go `[]byte` or `string` is a sequence of them. Folds recurse on the
prefix of a sequence, so a run or a stream grows at its end.

The framer is specified three ways, and all three are proved equal: by what a correct cut of the stream
is (`Partition`: gaps without an opening bracket, texts that are the shortest balanced pieces, and an
unbalanced rest; there is only one such cut), by an automaton that reads every byte once (`Collect`), and
by the rescanning loop (`ExtractJSON`).

The hub is a transition system over the interleavings of its goroutines. What runs under the write lock
is one step. A Broadcast holds only the read lock, so it is one step per client, other Broadcasts and
the write pumps run in between, and several may be under way. Sending on a closed channel and closing it
twice, which panic in Go, set a flag in the model that no run ever sets.

Some properties do not hold without a condition; the exact condition is proved:

- Framing: output between JSON texts that contains an opening bracket is taken for a text or stalls the
  buffer. The texts come back unchanged exactly when there is none (`JsonText.RoundTrip`).
- Capture: the tracer keeps only the length modulo 4096, so a descriptor's bytes arrive as they were moved
  exactly when every transfer on that descriptor is shorter (`Capture.HooksToChunks`); the other two do not
  matter. Waiting reads are all known exactly when the map has a free entry at every enter
  (`Tracers.PairedIffRoom`).
- Correlation: a request whose id shares a slot replaces the one that waits there. A response is
  treated as by a map without collisions exactly when that did not happen to its request
  (`Correlators.AgreesUnlessEvicted`). A span is ended exactly when its own request is answered
  (`Correlators.SpanFate`), so the span of a replaced request is never ended
  (`Correlators.ReplacedSpanStaysOpen`).
- Encodings: a plain body reader does not understand server-sent events, and the socket framer keeps
  the record separator of a JSON text sequence. `Encodings.RoundTrip` says exactly which is understood by which.
- Ids: the key of the millionth message of one nanosecond sorts before the one before it
  (`KeyOrder.MillionthIdIsMisplaced`, exact condition in `KeyOrder.IdOrder`).
- Restart and Clear: the id counter restarts from the number of stored messages, and a Clear sets it to
  zero before it drops them. Over every run, the next id is above all stored ones at every point if and
  only if no restart followed a failed flush and a later committed one with the counter not set since, and
  no Clear failed to drop stored messages (`StoreModel.FreshIffOrderly`; for the next restart
  `StoreModel.RestartIsSafe`, for the next Clear `StoreModel.ClearIsSafe`). Examples of the failures are
  `StoreModel.RestartReusesId` and `StoreModel.FailedClearReusesId`. A query still lists all stored
  messages exactly when no two of them share time and id (`StoreModel.StoredIsWhatIsCounted`).
- Hub: a client can get a Broadcast before one that began earlier exactly when the earlier one has still
  to come by it when the later begins and the client can take both, because its pump runs or its channel
  has two places left (`Hubs.OvertakenIff`). One that had returned by then is never overtaken
  (`Hubs.ReturnedComesFirst`).

## Model

| member | source | states |
|---|---|---|
| JsonFramer.FramesUnique | internal/transport/ebpf_parser.go:14-76 | A byte string has exactly one partition into bracket-free gaps, texts (shortest prefixes from an opener at which the depth is zero again) and an unbalanced residual: the texts and the residual are determined |
| JsonFramer.FramesAppend | internal/transport/ebpf_parser.go:17-73 | Framing `a`, then the residual followed by `b`, frames `a + b`: the same texts in the same order and the same residual |
| JsonFramer.CollectFrames | internal/transport/ebpf_parser.go:35-66 | An automaton that sees each byte once and carries depth, string and escape state computes that partition, and its state is always the scan of its residual |
| JsonFramer.FramesCollect | internal/transport/ebpf_parser.go:14-76 | Whatever satisfies the declarative partition is what the one-pass automaton gives |
| JsonFramer.SecondCallIsIdle | internal/transport/ebpf_parser.go:17-73 | A call right after another finds nothing and leaves the buffer as it is |
| JsonFramer.BackslashHides | internal/transport/ebpf_parser.go:41-48 | A backslash hides the byte after it from the scanner, whatever that byte is, and outside strings too |
| JsonFramer.BracketsCount | internal/transport/ebpf_parser.go:49-66 | Any closing bracket undoes any opening one, and between quotes neither counts |
| JsonFramer.OtherBytesPass | internal/transport/ebpf_parser.go:24-66 | Every byte but quotes, backslashes and the four brackets leaves the scanner as it is and can be skipped between texts |
| JsonFramer.CutAnywhere | internal/transport/ebpf_parser.go:17-73 | Appending chunk after chunk and rescanning from the start each time gives, for every way of cutting the stream, the texts and residual of one pass over the whole |
| StreamBuffers.StreamBuffer.ExtractJSON | internal/transport/ebpf_parser.go:14-76 | The loop returns the texts of the unique partition of the old buffer and leaves its residual, and terminates because the buffer shrinks |
| StreamBuffers.StreamBuffer.TextEnd | internal/transport/ebpf_parser.go:35-66 | One scan from an opener ends at the shortest balanced prefix, or shows that there is none |
| StreamBuffers.StreamBuffer.ExtractLines | internal/transport/ebpf_parser.go:78-102 | The loop returns the lines of the old buffer, each without one carriage return at its end, and keeps the unterminated rest |
| StreamBuffers.DropCRsAre | internal/transport/ebpf_parser.go:94-97 | Texts come back from their lines exactly: from a text with a carriage return behind it, and from a text that ends in none |
| StreamBuffers.IndexOpener | internal/transport/ebpf_parser.go:24-33 | The position found is that of the first opener, and there is none exactly when -1 is returned |
| Lines.LinePartitionUnique | internal/transport/ebpf_parser.go:81-99 | There is one way only to write a byte string as terminated lines and an unterminated rest |
| Lines.SplitPartitions | internal/transport/ebpf_parser.go:81-99 | The byte-by-byte splitter conserves its input: lines with their line feeds and the rest are exactly the input, and no line feed is left inside |
| Lines.SplitAppend | internal/transport/ebpf_parser.go:81-99 | Splitting a chunk with what the chunks before it left over is splitting the whole stream |
| Lines.IndexByte | internal/transport/ebpf_parser.go:87-90 | First occurrence, or -1 exactly when there is none |
| JsonText.JsonPasses | internal/transport/ebpf_parser.go:40-66 | Scanning any printed JSON value at any depth returns to that depth and never goes below it; a printed object or array is a text, so its depth is zero at its end for the first time |
| JsonText.StringPasses | internal/transport/ebpf_parser.go:41-50 | A printed string, with any raw characters, short escapes and `\u` escapes, leaves the scanner as it found it |
| JsonText.BracketsPass | internal/transport/ebpf_parser.go:51-66 | Brackets around anything that stays inside them return to the outer depth only with the closing bracket |
| JsonText.RoundTrip | internal/transport/ebpf_parser.go:14-76 | Objects and arrays printed by the grammar of RFC 8259 with other output between them, cut into chunks anywhere, come back as printed, in order and with nothing left, if and only if the other output contains no opening bracket |
| Tracers.Tracer.Output | internal/transport/bpf/tracer.c:73-83 | The event carries the length modulo 4096 and the bytes at the address; what the CPU's buffer held before stays behind them |
| Tracers.Tracer.TraceWrite | internal/transport/bpf/tracer.c:57-86 | The write hook, on the kernel's maps, refines the step that the results over runs are about: other processes and other descriptors leave everything as it was |
| Tracers.Tracer.TraceReadEnter | internal/transport/bpf/tracer.c:98-117 | The read-enter hook refines its step, including the silent failure when the map is full |
| Tracers.Tracer.TraceReadExit | internal/transport/bpf/tracer.c:126-153 | The read-exit hook refines its step: the entry goes away whatever the result was, and only a positive one is reported |
| Tracers.EveryRun | internal/transport/bpf/tracer.c:57-153 | Over any sequence of hooks: every size is below 4096, only descriptors 0 to 2 are reported, only the target's threads wait in read_args, each once, and never more than the capacity |
| Tracers.ReportsTransfers | internal/transport/bpf/tracer.c:57-153 | For every interleaving in which no thread is in two reads at once and fewer than 1024 threads of the target wait for standard input whenever another comes, however many there are over time: the events are exactly the target's transfers on descriptors 0, 1 and 2, in order, each cut to its length modulo 4096; and read_args holds exactly the threads inside a read of standard input |
| Tracers.PairedIffRoom | internal/transport/bpf/tracer.c:98-153 | read_args holds exactly the threads inside a read of standard input at every point of the run if and only if it had a free entry at every enter |
| Tracers.EnterIsStored | internal/transport/bpf/tracer.c:98-117 | An enter of the target's on descriptor 0 stores its address unless it needs an entry beyond 1024; any other enter changes nothing |
| Tracers.StaleTail | internal/transport/bpf/tracer.c:73-83 | What the CPU's buffer held behind the reported bytes is sent along and stays in the buffer |
| Capture.EventLoop.Handle | internal/transport/ebpf_linux.go:111-149 | An event changes the buffer of its own descriptor only, and what is passed on is the extraction of that buffer with the new chunk |
| Capture.EventLoop.HandleAll | internal/transport/ebpf_linux.go:91-150 | Over any sequence of events, the texts and lines of each descriptor are those of one pass over that descriptor's own bytes, whatever the other two carry; all of them are passed on in the order of the events that completed them |
| Capture.WholeIffShort | internal/transport/bpf/tracer.c:76-83 | A transfer reaches user space whole if and only if it is shorter than 4096 bytes |
| Capture.ChunksAreMoved | internal/transport/bpf/tracer.c:76-83 | A stream of transfers on one descriptor reaches user space with one chunk per transfer always, and unchanged if and only if each transfer on it is below 4096 bytes |
| Capture.HooksToChunks | internal/transport/ebpf_linux.go:91-149 | A descriptor's chunks in user space are the bytes moved by the target's calls on it, call by call, if and only if all its own transfers are below 4096 bytes, whatever the size of those on the others |
| Capture.CapturedTexts | internal/transport/ebpf_linux.go:87-149 | Printed objects and arrays that the target moves over a descriptor in short calls, in any pieces, on any threads and whatever the other descriptors carry, are extracted exactly if and only if the output between them has no opening bracket |
| Capture.Watch | internal/transport/ebpf_linux.go:87-149 | Hooks and event loop together, on the items passed on: each descriptor whose own transfers are short yields what one pass over its bytes yields, texts for 0 and 1 and lines for 2 |
| Capture.WatchPrinted | internal/transport/ebpf_linux.go:87-149 | From system calls to the items passed on: the objects and arrays printed over standard input and output come out one by one, and the texts of the lines written to standard error, ended by LF or CR LF, come out as they are, each descriptor on its own conditions alone |
| Interceptors.TrimSpaceIs | internal/transport/proxy.go:191-193 | Trimming removes exactly the blanks around a text that neither starts nor ends with one |
| Interceptors.BlanksDoNotMatter | internal/transport/proxy.go:191-199 | A line offers the same with any blanks around it, and a blank line offers nothing, in all three interceptors |
| Interceptors.SelectWhole | internal/transport/socket.go:134-138 | The socket framer offers a visible line as it is; the body reader does so too, without the record separator it may begin with |
| Interceptors.SelectStreamed | internal/transport/proxy.go:249-263 | The stream reader drops a record separator, then `data:` and the blanks behind it, and offers what is left if and only if it begins like an object or an array |
| Interceptors.FeedAllSeesOneStream | internal/transport/socket.go:122-149 | What is offered to the parser and what stays buffered depend on the concatenation of the parts alone |
| Interceptors.ReadsSeeOneStream | internal/transport/proxy.go:176-224 | In every run of reads, with limit errors or without, the offers and the buffer are those of the concatenation of the accepted deliveries, the end of the stream counting as one line feed |
| Interceptors.CutAnywhere | internal/transport/proxy.go:234-299 | Two runs without limit error over the same bytes offer the same texts and end with the same buffer |
| Interceptors.EndIsSeenOnce | internal/transport/proxy.go:274-296 | The end of the stream flushes the buffer, and reading it again offers nothing |
| Interceptors.NeverLimited | internal/transport/proxy.go:179-182 | If a longest line and a largest delivery fit in the limit together, no read of a stream of any length reports the limit error |
| Interceptors.BufferBounded | internal/transport/proxy.go:237-248 | In no run does the buffer exceed 10 MiB or hold a line feed after a call |
| Interceptors.Interceptor.TakeLines | internal/transport/proxy.go:183-205 | The loop offers what is selected from each complete line, in order, and keeps the rest |
| Interceptors.Interceptor.Read | internal/transport/proxy.go:176-224 | One call returns what the wrapped reader returned, unless the buffer would exceed 10 485 760 bytes: then it returns 0 and the limit error and changes nothing. Otherwise the new buffer and the offers are those of the old buffer with the delivery, and with one line feed more at the end of the stream |
| Interceptors.Interceptor.Write | internal/transport/socket.go:122-149 | One write frames exactly what was forwarded, without any bound |
| Encodings.RecordOffer | internal/transport/proxy.go:249-271 | A record (NDJSON, JSON text sequence, or event with one data line) is offered as its payload exactly by the interceptors that understand it; the first thing others offer does not begin like a payload |
| Encodings.RoundTrip | internal/transport/proxy.go:249-271 | Any mixture of records, cut anywhere and followed by any number of empty lines, is offered payload by payload, each once and in order, if and only if the interceptor understands every record |
| Encodings.ReadRoundTrip | internal/transport/proxy.go:234-299 | The same over reads, where the end of the stream may replace the last line feed or follow it, and may be read any number of times |
| Encodings.CompleteBody | internal/transport/proxy.go:176-299 | A complete body whose longest line and largest chunk fit in 10 MiB together, read in those chunks and then at its end any number of times, is offered payload by payload and leaves nothing buffered, if and only if the interceptor understands every record |
| Hash.HashString | internal/engine/correlator.go:35-41 | The loop with 32-bit wrap-around gives the unbounded base-31 polynomial modulo 2^32, hence the same slot as the polynomial |
| Hash.SlotByByte | internal/engine/correlator.go:35-48 | The slot can be computed byte by byte within the 4096 slots, without the 32-bit value |
| Hash.SlotOfWindow | internal/engine/correlator.go:35-48 | Ids of equal length that agree outside a window share a slot if and only if the windows do |
| Hash.OneByteApart | internal/engine/correlator.go:35-48 | Ids of equal length that differ in exactly one byte never share a slot |
| Hash.TwoDigitsApart | internal/engine/correlator.go:35-48 | Ids of equal length that differ only in two neighbouring decimal digits never share a slot |
| Hash.ThreeDigitsCollide | internal/engine/correlator.go:35-48 | This is sharp: 000 and 484 share a slot, whatever surrounds them |
| Correlators.Correlator.ProcessMessage | internal/engine/correlator.go:43-104 | The method changes the table as specified, and writes latency and method into the message exactly when it is matched |
| Correlators.SlotHistory | internal/engine/correlator.go:69-101 | After any history a slot holds id x exactly when some request for x was followed by no request to that slot and no response for x; and then it holds that request's time, method and span |
| Correlators.Millis | internal/engine/correlator.go:79-79 | The latency is the time since the request in whole milliseconds, truncated toward zero on both sides of it |
| Correlators.MatchHistory | internal/engine/correlator.go:76-102 | A response is matched exactly when its request is so held, with that request's time and method |
| Correlators.MatchedLatency | internal/engine/correlator.go:76-82 | In any history, a response whose request was neither displaced nor answered gets the whole milliseconds since that request, and the request's method name when it has none |
| Correlators.OthersChangeNothing | internal/engine/correlator.go:43-54 | A message without an id, or neither request nor response, changes nothing |
| Correlators.FailureOf | internal/engine/correlator.go:85-85 | A response ends its span as failed when it has an error code or an error text, where the empty text and `null` are none |
| Correlators.MatchedOnce | internal/engine/correlator.go:101-101 | No request is matched by two responses |
| Correlators.IdealHistory | internal/engine/correlator.go:43-104 | The unbounded map holds id x exactly when some request for x has no later request or response for x |
| Correlators.TableWithinIdeal | internal/engine/correlator.go:28-28 | At every point of every run the occupied slots are part of the unbounded map, each at its own id's index |
| Correlators.AgreesUnlessEvicted | internal/engine/correlator.go:76-102 | A response fares as with the unbounded map if and only if its request did not lose its slot to another id; a match is never wrong |
| Correlators.NoReplacement | internal/engine/correlator.go:69-102 | In a run in which no request overwrites another id's slot, every response fares as with the unbounded map |
| Correlators.SpanConservation | internal/engine/correlator.go:55-102 | Started spans are ended, waiting or overwritten, counted exactly; no span is ended twice, and an ended one does not wait |
| Correlators.SpanFate | internal/engine/correlator.go:55-102 | The span a request started is ended if and only if some response came while that request was held under its id, and with that response's outcome |
| Correlators.ReplacedSpanStaysOpen | internal/engine/correlator.go:55-72 | The span of a waiting request whose slot another request takes is not ended in any continuation of the run |
| KeyOrder.KeyLess | internal/storage/badger.go:137-137 | Keys are in byte order exactly when the times are, or at equal times when the padded ids are |
| KeyOrder.KeyLayout | internal/storage/badger.go:137-137 | A key can be read back: prefix, 19 digits of the time, colon, and the id in six digits or, from a million on, more |
| KeyOrder.KeyInjective | internal/storage/badger.go:137-137 | Different (time, id) pairs have different keys, for ids of any size |
| KeyOrder.IdOrder | internal/storage/badger.go:137-137 | At one time, ids i < j are in key order exactly when i, filled up with zeros to the width of j, is not larger than j; always below 1 000 000 |
| KeyOrder.MillionthIdIsMisplaced | internal/storage/badger.go:137-137 | Ids 999 999 and 1 000 000 of one time are in the wrong order |
| Statistics.OpenedSummary | internal/storage/badger.go:127-130 | The stored average times the count is exactly the sum of the positive latencies |
| Statistics.AbsorbIsSummary | internal/storage/badger.go:118-168 | Taking a batch into the statistics of earlier messages gives the statistics of all of them computed from scratch |
| Statistics.EachMessageCounts | internal/storage/badger.go:148-160 | A message adds to the statistics of any others, wherever it comes in, one message, one request if it is one, one error if it has an error text other than `null`, its bytes and tokens, and its latency to the sum if positive |
| Statistics.AnyBatching | internal/storage/badger.go:96-112 | For every way of cutting a sequence into batches, the stored statistics are those of the whole sequence |
| OrderedMap.PutContents | internal/storage/badger.go:143-146 | Writing a key makes its entry present and leaves all other entries |
| OrderedMap.PutSorted | internal/storage/badger.go:143-146 | The store stays in strict key order |
| StoreModel.CommitKeeps | internal/storage/badger.go:115-174 | A committed batch leaves a well-formed database that lists only stored messages, lists each once if no two have the same key, and whose statistics are up to date |
| StoreModel.EveryRun | internal/storage/badger.go:33-174 | The invariant of the whole store over any inserts, receives, ticks, failed flushes, clears that succeed or fail, and restarts on the database left behind, in any order |
| StoreModel.Conservation | internal/storage/badger.go:83-113 | Every inserted message was turned away by a full queue, was in flight at a restart, waits in queue or batch, or went to a flush; the accepted ones in order; queue at most 4096, batch below 256 |
| StoreModel.Accounts | internal/storage/badger.go:83-174 | Every run is told by its steps: admitted is what met a queue below 4096, a flush gets the whole batch at a tick or with its 256th message, what a flush that does not fail gets is stored with the next ids, a failed one takes ids up to where it failed, and only a restart loses what was in batch and queue |
| StoreModel.MessageFlow | internal/storage/badger.go:83-113 | The admitted messages are, in order of arrival, those handed to flushes, the batch and the queue; every other inserted one met a full queue or was lost in a restart |
| StoreModel.StoredIsWhatIsCounted | internal/storage/badger.go:33-174 | After every run, failures and restarts included, the persisted statistics are those of the stored messages recomputed, and a listing contains stored messages only; it contains all of them, each once, if and only if no two have the same time and id |
| StoreModel.IdsWithoutFailures | internal/storage/badger.go:33-174 | Without failures but with any restarts: the id counter is the message count, ids since the last Clear are 1, 2, 3, ... in flush order, and reopening with nothing in flight changes nothing |
| StoreModel.FreshIffOrderly | internal/storage/badger.go:42-68 | Over every run, with any failures, clears and restarts: the next id was above every stored id at every point if and only if no restart came after a failed flush that a committed one had followed with the counter not set since, and no Clear failed to drop stored messages |
| StoreModel.RestartIsSafe | internal/storage/badger.go:42-68 | After any run, a restart keeps ids fresh if and only if they were and no failed flush was followed by a committed one since the counter was last set |
| StoreModel.ClearIsSafe | internal/storage/badger.go:262-272 | After any run, a Clear keeps ids fresh if and only if they were and it drops the messages or there are none |
| StoreModel.OrderlyRun | internal/storage/badger.go:115-174 | In a run whose ids stay fresh in this way, ids rise in flush order and skip exactly those used up by failed flushes; some lie below a stored message exactly when a failed flush was followed by a committed one |
| StoreModel.OrderlyListing | internal/storage/badger.go:115-174 | In such a run a query lists every stored message exactly once, and as many as the statistics count |
| StoreModel.RestartReusesId | internal/storage/badger.go:42-68 | A run after which the first id given after a restart is one that is already stored; the new message takes the place of the old one exactly when they have the same time |
| Stores.Chronological | internal/storage/badger.go:230-259 | A listing is in order of time; at equal times in order of the padded ids, which is that of the ids if both are below 1 000 000 |
| Stores.Store.constructor | internal/storage/badger.go:33-68 | Opening resumes the counter from the persisted count, or writes empty statistics |
| Stores.Store.Insert | internal/storage/badger.go:83-90 | Inserting refines its step: it never blocks, and a full queue loses the new message, not an old one |
| Stores.Store.Receive | internal/storage/badger.go:100-105 | The receiving arm of the drain loop refines its step: the oldest message moves to the batch, and the 256th makes it flush |
| Stores.Store.Tick | internal/storage/badger.go:106-110 | The ticker arm of the drain loop refines its step: whatever the batch holds is flushed |
| Stores.Store.FlushBatch | internal/storage/badger.go:115-174 | The transaction writes the numbered batch and its statistics, or, when it fails, nothing but the ids it used up |
| Stores.Store.ClearAll | internal/storage/badger.go:262-272 | Clearing refines its step: the counter starts again whether or not the rest succeeds, queue and batch stay, messages and statistics go unless dropping them fails, and empty statistics are written unless that fails |
| Stores.Store.QueryAll | internal/storage/badger.go:230-259 | Seeking the message prefix and reading on lists all messages and never the statistics |
| Stores.Store.QueryRecent | internal/storage/badger.go:177-212 | Reading backwards gives the newest min(max(limit, 1), n) of the n messages of the full listing, the newest first |
| Stores.Serve | internal/storage/badger.go:33-272 | Any interleaving of callers, drain loop, failures and restarts, carried out by the class's own methods, ends in the state of the run that the results above speak of |
| Hubs.StepInv | internal/server/hub.go:21-94 | Every step of every goroutine keeps the hub's invariant |
| Hubs.Safety | internal/server/hub.go:65-94 | In every reachable state no send on a closed channel and no second close has happened, a channel is open exactly while its client is in the map, holds at most 256 messages, and a client that lost one is closed or about to be evicted |
| Hubs.Delivery | internal/server/hub.go:26-33 | In every run, what a client received and will receive are broadcasts from the time it was registered, none twice, and none after one that began when it was over; exactly those that have come by, if it never met a full channel; and if the Broadcasts of its time did not overlap, they come in order and without a gap up to its first full channel, which is after 256 messages at the earliest |
| Hubs.OvertakenIff | internal/server/hub.go:76-94 | In any reachable state in which a Broadcast begins, some continuation gives a client the new one before an earlier one if and only if the earlier one has still to come by that client and its pump is running or its channel has two places left |
| Hubs.NobodyIsSkipped | internal/server/hub.go:83-93 | Every broadcast begun while a client was registered has come by it exactly once or is still under way |
| Hubs.RegisteredIff | internal/server/hub.go:50-72 | A client is in the map, and its channel open, exactly from its registration to the first time its reader, an eviction or its pump unregisters it |
| Hubs.LogIsBegun | internal/server/hub.go:76-81 | Broadcasts are numbered, with their payloads, in the order in which they began |
| Hubs.FailedWriteEndsPump | internal/server/hub.go:26-33 | After a failed write the pump takes nothing more, whatever happens afterwards |
| Hubs.FailedWriteUnregisters | internal/server/hub.go:21-34 | All that is left for it is to unregister its client, which it can as soon as no Broadcast holds the lock |
| Hubs.ClosedOnce | internal/server/hub.go:65-72 | A closed channel stays closed, gets nothing more, and every step of its pump brings it closer to the end |
| Hubs.PumpEnds | internal/server/hub.go:21-34 | After the close the pump makes at most as many steps as messages are left plus two, whatever the others do |
| Hubs.PumpIsNeverStuck | internal/server/hub.go:21-34 | Until it has finished, the pump of a closed channel has a step to make as soon as no Broadcast holds the lock |
| Hubs.Hub.RegisterClient | internal/server/hub.go:50-62 | Registering refines its step: a fresh open channel joins the map under the write lock |
| Hubs.Hub.UnregisterClient | internal/server/hub.go:65-72 | Unregistering deletes and closes once, and does nothing the second time |
| Hubs.Hub.EvictClient | internal/server/hub.go:65-91 | An eviction refines its step: it unregisters the client if the client is still there |
| Hubs.Hub.LeavePump | internal/server/hub.go:22-25 | The pump's deferred call refines its step: it unregisters the client and ends the pump |
| Hubs.Hub.Send | internal/server/hub.go:87-92 | The non-blocking send refines its step: a full channel starts an eviction and keeps what it holds |
| Hubs.Hub.Broadcast | internal/server/hub.go:76-94 | An undisturbed Broadcast is a run of the transition system and offers the payload to every registered client and nobody else |
| Hubs.Hub.Pump | internal/server/hub.go:26-33 | One round of the pump refines its step: the oldest message is taken, and a failed write ends the loop |
| Hubs.Serve | internal/server/hub.go:21-94 | Any interleaving of all goroutines, carried out by the class's own methods, ends in the state of the run that the results above speak of, without a panic |
| Alerters.Alerter.Check | internal/alert/alert.go:59-116 | An alert fires exactly when a threshold is passed, stated without any division, and more than a window has gone by since the last, in plain time difference for any window below the largest Duration; only then the time of the last alert changes; it reports the percentage and the mean of the counts |
| Alerters.SubExceeds | internal/alert/alert.go:111-111 | Saturation of the time difference is invisible in the comparison with the window, so the first alert after the zero time fires |
| Alerters.BreachedMeans | internal/alert/alert.go:91-108 | The thresholds of the specification are those of the code: percentage above the limit or truncated mean above the limit, each if set |
| Alerters.OneMessage | internal/alert/alert.go:69-85 | A message counts for nothing at or before the cutoff or when it is neither request nor response; otherwise as one call, one failure if it has an error, and with its latency if it is a response with a positive one |
| Alerters.Alerter.Judge | internal/alert/alert.go:91-108 | The float percentage and the integer mean decide exactly as the division-free thresholds do; the percentage is between 0 and 100 |
| Alerters.Alerter.Tally | internal/alert/alert.go:66-85 | The loop counts calls, failures and latencies of the window |
| Alerters.MeanAbove | internal/alert/alert.go:92-105 | The truncated mean exceeds the limit exactly when the sum is at least (limit + 1) times the count |
| Alerters.AlertsAreSpaced | internal/alert/alert.go:110-115 | With a clock that never goes back, every alert starts more than a window after the one before has ended |
| Alerters.AtMost | internal/alert/alert.go:110-115 | An interval of length L sees at most floor(L / window) + 1 alerts start |

## Left out

- The parser (`internal/engine/parser.go`) is not part of this model: the framers end with the texts offered to it. So is the bounded channel behind it, on which messages are dropped when the orchestrator is slow.
- `bytes.TrimSpace` and `strings.TrimSpace` are modelled on ASCII white space; Unicode white space in UTF-8 is not.
- Interceptors.Interceptor.Read: the three interceptors of the source are one class with a kind, because their loops are the same text; what they select from a line is `Select`.
- JsonText.RoundTrip: numbers are any strings of digits, signs, points and exponent marks, which includes all numbers of RFC 8259.
- Tracers.ReportsTransfers: a transfer is what the hook sees, so a write that the kernel later shortens or refuses counts in full; lost perf samples and the binary decoding of a sample are not modelled.
- Correlators.Correlator.ProcessMessage: the mutex makes Process atomic and is not modelled; span names, attributes and the trace parent are left out, a span is its number and whether it ended with an error.
- StoreModel.EveryRun: expiry after 24 hours, value-log collection, JSON encoding of records and a Clear that runs inside a flush are not modelled; a Clear that fails while dropping is taken to have dropped nothing; integers are unbounded where Go has 64 bits, and the average is a real number without rounding.
- Stores.Store.FlushBatch: messages are values, so the id written into a message that the hub is encoding at the same moment is not visible.
- KeyOrder.KeyLess: times before 1970, whose keys carry a minus sign, are excluded.
- Hubs.Safety: memory order below the level of Go's locks and channels, and the five-second write deadline, are not modelled; a write to the connection succeeds or fails.
- Alerters.Alerter.Check: the webhook request and its failures are not modelled; the percentage is a real number.
- `main.go`, the HTTP handlers, metrics, tracing set-up, the stdio transport, CSV export and the web page are not modelled: flat plumbing without state of its own.

# Verification of the APMInsight server SDK

A Dafny model of the hard core of the SDK, with proofs: the trace codec, the sending pipelines, the life of a trace
inside a process and across processes, and the time-driven limiters. `dafny verify dfyconfig.toml` checks everything.

What each group of modules models:

- **Codec** (`Varint`, `Messages`, `Parser`, `ParserLaws`, `Malformed`, `Printer`, `MessageItems`, `CodecRoundTrip`,
  `MessageSize`, `MapEntries`, `Marshal`, `Decoder`): the generated protobuf code for `Trace`, `Span` and `ErrorInfo`.
  `Parser` says what decoding means on the bytes still to be read and `Printer` what encoding produces; `Decoder` and
  `Marshal` are the index loops of the source, proved equal to them. The order in which Go iterates a map is an input,
  and a different one may be used for sizing and for writing. The format is that of the Protocol Buffers Encoding
  specification, sections "Base 128 Varints", "Message Structure", "Length-Delimited Records" and "Groups".
- **Sending** (`Framing`, `Batching`, `Sender`): the stream frame encoded in place, the batching rule shared by the trace
  loop, the log loop and the metrics workers, and the send loop on its one reused buffer.
- **Metrics** (`MetricFormat`, `MetricPacker`, `MetricPipeline`, `MetricDelivery`, `MetricOrder`, `MetricsClient`): the
  metric record, the packets, and the client as a machine in which emitters, flusher, workers, `Close` and the buffer
  pool take turns in any order; channel capacity and number of workers are parameters (1000 and 4 in the source).
  `MetricsClient` ties the locked sections and channel operations of the code to the machine's moves.
- **Traces** (`TraceLifecycle`, `Sampling`, `Decimal`, `BinaryPropagation`, `HttpPropagation`, `HeaderOrder`,
  `TraceChain`): the compare-and-swap and counting protocol that collects every span once, and the sampling decision
  carried from process to process. A trace context's `sampled` in `TraceLifecycle` is `Sampling.Collects` of its settled
  decision.
- **Limiters and index arithmetic** (`RateLimit`, `ConditionalDriver`, `GcRing`, `PathNormalizer`), with the helper modules
  `ByteStrings`, `Utf8`, `Buffers`, `Totals` and `Division`.

Where the code does not do what its comments or names suggest, the model follows the code:

- The conditional driver's comment promises at most 3 executions an hour. That holds of hours that begin with a window
  (`ThreeFromWindowStart`); of an arbitrary hour the exact bound is 5 (`FiveAnHour`, reached by a driver
  that ticks every minute in `FiveReached`). `ThreeAnHourIff` says of which runs the comment is true.
- A span started between the last finish and the scan of a collection is sent unfinished, and its own collection then
  sends an empty batch (`UnfinishedSpanSent`, `EmptyBatchSent` in `TraceLifecycle`). `OnlyFinishedIff` says when a batch
  holds finished spans only and `EmptyBatchIff` when it holds none.
- A stream loop sends a frame with an empty body when nothing is pending and a record is longer than the limit but not
  longer than limit plus offset (`Batching.EmptyBatchSent`).
- A fresh rate-limit sampler starts from the zero time, so its first differences saturate (`FirstCallSaturates`). Until
  `last` has caught up every call after the first is sampled (`SampledIffBehindOrNewCell`); each such call moves `last` by
  about 292 years, so on a present-day clock without such gaps the seventh call at the latest has caught up
  (`CatchesUpInTime`, `SeventhCallCatchesUp`).
- HTTP baggage keys come back in lower case, É as é and malformed bytes as U+FFFD (`BaggageSurvives`), and an unknown
  strategy loses its weight (`HttpRoundTrip`) and, on a carrier used before, leaves the old one (`InjectReplaces`); the
  binary form does not write an unknown strategy at all, and what is read back is then a different context
  (`BinaryRoundTrip`).
- A request that carries both this SDK's id headers and a client's W3C header for another trace joins whichever Go's map
  iteration visits last (`LastIdsWin`). `OrderIndependentIff` says for which requests the context does not depend on the
  order, and `ExtractOrderIff` for which the result of `Extract` does not.
- The path normaliser turns segments of one byte into `?`, letters too.
- The value fields of one integer-map entry are or-ed, because the decoder does not reset the value between them
  (`DuplicateValuesOred`): 1 and then 2 give 3 (`OneThenTwoIsThree`). `LastValueWinsIff` says when the last one wins, as the
  Protocol Buffers Encoding specification has it in section "Last One Wins".
- In a map entry a key or value may run past the end of the entry (`KeyOverrunsEntry`); only other fields may not
  (`OtherOverrunsEntry`).
- A metric emitted around or after `Close` can panic on the closed channel; `PanicIff` counts those sends.

## Model

| member | source | states |
|---|---|---|
| `Varint.RoundTrip` | trace/aitracer/trace_sender/trace_models/internal_trace.pb.go:911-919 | a 64-bit value written as a varint reads back as itself, whatever follows it, and the read stops at its end; the reader is the or-ing loop of every decoder |
| `Varint.OrDisjoint` | trace/aitracer/trace_sender/trace_models/internal_trace.pb.go:1190-1203 | or-ing a shifted group above the bits read so far is addition, which is why the or-ing decode loops compute the value |
| `Varint.ReadOr` | trace/aitracer/trace_sender/trace_models/internal_trace.pb.go:1885-1898 | a varint or-ed into a variable that already holds a value leaves the bitwise or of both |
| `Varint.SizeOf` | trace/aitracer/trace_sender/trace_models/internal_trace.pb.go:1057-1066 | the `sov` loop counts exactly the bytes the varint writer produces |
| `Varint.Write` | trace/aitracer/trace_sender/trace_models/internal_trace.pb.go:911-919 | the in-place writer puts exactly the varint at the offset, returns the offset after it and leaves the rest of the array alone |
| `Varint.ReadAt` | trace/aitracer/trace_sender/trace_models/internal_trace.pb.go:1190-1203 | the shift loop returns the value and new index of the specification, or its error: more than ten bytes, or the end of the input |
| `CodecRoundTrip.ErrorRoundTrip` | trace/aitracer/trace_sender/trace_models/internal_trace.pb.go:859-909 | an error info printed with its tag map in any order decodes to itself |
| `CodecRoundTrip.SpanRoundTrip` | trace/aitracer/trace_sender/trace_models/internal_trace.pb.go:717-847 | a span printed with its three maps and its error infos in any order decodes to itself, negative numbers and required fields included |
| `CodecRoundTrip.TraceRoundTrip` | trace/aitracer/trace_sender/trace_models/internal_trace.pb.go:640-705 | a trace of any spans, printed for any map iteration orders, decodes into a fresh trace as itself, all fields of total size under 2^63 |
| `Printer.EntryRoundTrip` | trace/aitracer/trace_sender/trace_models/internal_trace.pb.go:1810-1916 | a map entry decodes to its key and value, for the integer, float and string maps |
| `MapEntries.DuplicateValuesOred` | trace/aitracer/trace_sender/trace_models/internal_trace.pb.go:1838-1914 | a number-map entry with any number of value fields decodes to its key and the bitwise or of all the values |
| `MapEntries.LastValueWinsIff` | trace/aitracer/trace_sender/trace_models/internal_trace.pb.go:1838-1914 | the last of several values wins, as the format has it, if and only if no other value has a bit that the last one has not |
| `MapEntries.OneThenTwoIsThree` | trace/aitracer/trace_sender/trace_models/internal_trace.pb.go:1838-1914 | an entry with the values 1 and then 2 decodes to 3 |
| `MapEntries.EntryOfParts` | trace/aitracer/trace_sender/trace_models/internal_trace.pb.go:1838-1914 | an entry of keys, values and other fields in any order and number decodes to the last key and the last value, of an integer map to the or of all values; what is missing is empty or zero |
| `MapEntries.KeyOverrunsEntry` | trace/aitracer/trace_sender/trace_models/internal_trace.pb.go:1875-1884 | a key that runs past the end of its entry, but not of the message, is taken all the same |
| `MapEntries.OtherOverrunsEntry` | trace/aitracer/trace_sender/trace_models/internal_trace.pb.go:1899-1911 | any other field that does so is refused |
| `ParserLaws.ConcatenationMerges` | trace/aitracer/trace_sender/trace_models/internal_trace.pb.go:1183-1569 | decoding two strings of fields laid end to end is decoding the second into the message the first gave |
| `ParserLaws.SkipsField` | trace/aitracer/trace_sender/trace_models/internal_trace.pb.go:2594-2692 | `skip` passes over exactly one well-formed field of any wire type, groups nested to any depth included |
| `ParserLaws.SkipsGroup` | trace/aitracer/trace_sender/trace_models/internal_trace.pb.go:2653-2681 | a group is skipped up to and including its own end tag, whatever fields and groups it contains |
| `ParserLaws.UnknownFieldTransparent` | trace/aitracer/trace_sender/trace_models/internal_trace.pb.go:1537-1550 | a well-formed field with an undeclared number between any two runs of fields changes neither the decoded state nor the error |
| `ParserLaws.UnknownFieldIgnored` | trace/aitracer/trace_sender/trace_models/internal_trace.pb.go:2282-2295 | the same for a whole message with its check for required fields |
| `Malformed.UnfinishedVarint` | trace/aitracer/trace_sender/trace_models/internal_trace.pb.go:1190-1203 | ten bytes without an end are an overflow, fewer at the end of the input an early end |
| `Malformed.TruncatedRejected` | trace/aitracer/trace_sender/trace_models/internal_trace.pb.go:1183-1569 | a message that ends inside any field, declared or not, nested groups included, gives the early-end error |
| `Malformed.WrongTagRejected` | trace/aitracer/trace_sender/trace_models/internal_trace.pb.go:1204-1219 | behind any fields: an end-group tag, a field number that is not positive, a declared number with another wire type and wire types 6 and 7 each give their error |
| `Malformed.NegativeLengthRejected` | trace/aitracer/trace_sender/trace_models/internal_trace.pb.go:1230-1236 | a length of 2^63 or more is refused for every string, message, map and unknown field |
| `Malformed.RequiredIff` | trace/aitracer/trace_sender/trace_models/internal_trace.pb.go:1552-1563 | any list of well-formed fields decodes if and only if the required ones are among them, 1 to 4 of a trace and 1 to 9 of a span; else the least missing one is reported |
| `Parser.Skip` | trace/aitracer/trace_sender/trace_models/internal_trace.pb.go:2594-2692 | terminates on every input and advances; it asks for a non-empty input, which every caller provides, so the panic after its loop is never reached; lengths are those whose sum with the index stays under 2^63 |
| `Parser.FirstMissing` | trace/aitracer/trace_sender/trace_models/internal_trace.pb.go:1552-1563 | the required-field checks report the first missing field, and none exactly when all were seen |
| `Decoder.SkipField` | trace/aitracer/trace_sender/trace_models/internal_trace.pb.go:2594-2692 | the index-based loop returns exactly what the specification of `skip` does, error or count, where index plus length stays under 2^63 |
| `Decoder.SkipGroupFields` | trace/aitracer/trace_sender/trace_models/internal_trace.pb.go:2653-2681 | the loop over the fields of a group, with its recursive call, likewise, where index plus length stays under 2^63 |
| `Decoder.ReadEntryAt` | trace/aitracer/trace_sender/trace_models/internal_trace.pb.go:1838-1912 | the loop over a map entry, which does not reset a number value between duplicates, computes the specified key and value, where index plus length stays under 2^63 |
| `Decoder.UnmarshalErrorInfo` | trace/aitracer/trace_sender/trace_models/internal_trace.pb.go:2330-2593 | the loop over an error info gives the specified message or error on every input, where index plus length stays under 2^63 |
| `Decoder.UnmarshalSpan` | trace/aitracer/trace_sender/trace_models/internal_trace.pb.go:1570-2329 | the loop over a span, with its required-field bits, gives the specified message or error on every input, where index plus length stays under 2^63 |
| `Decoder.UnmarshalTrace` | trace/aitracer/trace_sender/trace_models/internal_trace.pb.go:1183-1569 | the loop over a trace gives the specified message or error on every input, where index plus length stays under 2^63 |
| `MessageSize.EntryOrder` | trace/aitracer/trace_sender/trace_models/internal_trace.pb.go:971-1028 | the total size of the entries of a map does not depend on the order of iteration |
| `MessageSize.SpanOrderSize` | trace/aitracer/trace_sender/trace_models/internal_trace.pb.go:971-1028 | the size of a span is the same for every pair of iteration orders, so a size computed in one order fits a body written in another |
| `MessageSize.TraceOrderSize` | trace/aitracer/trace_sender/trace_models/internal_trace.pb.go:937-969 | the same for a whole trace with all nested maps |
| `MessageSize.ErrorSize` | trace/aitracer/trace_sender/trace_models/internal_trace.pb.go:1030-1055 | `Size` of an error info is the number of bytes it takes, for any order of its map |
| `MessageSize.SpanSize` | trace/aitracer/trace_sender/trace_models/internal_trace.pb.go:971-1028 | `Size` of a span is the number of bytes it takes |
| `MessageSize.TraceSize` | trace/aitracer/trace_sender/trace_models/internal_trace.pb.go:937-969 | `Size` of a trace is the number of bytes it takes |
| `Marshal.PutEntry` | trace/aitracer/trace_sender/trace_models/internal_trace.pb.go:751-788 | a map entry is written with the length computed beforehand, and exactly its bytes |
| `Marshal.PutError` | trace/aitracer/trace_sender/trace_models/internal_trace.pb.go:859-909 | `MarshalTo` of an error info writes exactly its bytes at the index, for any map order, and nothing else |
| `Marshal.PutSpan` | trace/aitracer/trace_sender/trace_models/internal_trace.pb.go:717-847 | `MarshalTo` of a span writes exactly its bytes; nested length prefixes are sizes taken in a possibly different map order |
| `Marshal.PutTrace` | trace/aitracer/trace_sender/trace_models/internal_trace.pb.go:640-705 | `MarshalTo` of a trace writes exactly its bytes, stays inside the array and returns the index after them |
| `Marshal.MarshalTrace` | trace/aitracer/trace_sender/trace_models/internal_trace.pb.go:630-638 | `Marshal` allocates `Size` bytes and fills all of them with the printed trace |
| `Framing.FrameRoundTrip` | trace/internal/sendworker/encoder.go:15-51 | a receiver of the documented layout recovers header and body and consumes exactly 6 + Length bytes, if and only if the length fits 32 bits |
| `Framing.StreamRoundTrip` | trace/internal/sendworker/encoder.go:15-51 | a stream of frames splits into exactly those frames |
| `Framing.PutPrefix` | trace/internal/sendworker/encoder.go:36-48 | the field-by-field writes produce the documented prefix and leave everything behind it alone |
| `Framing.Encode` | trace/internal/sendworker/encoder.go:16-51 | the result is the same frame whether the body is moved up inside its own buffer, over itself if need be, or copied to a new one |
| `Framing.EncodePreAllocated` | trace/internal/sendworker/encoder.go:54-79 | a payload with any filler where the prefix goes becomes the frame of the rest; only the prefix is overwritten, and a payload too short is left alone |
| `Batching.RunInvariant` | trace/aitracer/trace_sender/sender.go:140-157 | over every run, pending and sent batches never exceed limit plus offset, except an oversize record sent alone; with offset 0 never the limit, and no batch is empty |
| `Batching.RunKeepsRecords` | trace/aitracer/trace_sender/sender.go:112-157 | over every run, no record is lost, repeated or split; records that fit keep their order, and so do oversize ones among themselves |
| `Batching.ClosedSendsAll` | trace/aitracer/trace_sender/sender.go:119-125 | after the channel is closed and the last flush, everything accepted has been sent |
| `Batching.SentIsAccepted` | trace/aitracer/trace_sender/sender.go:126-136 | nothing is sent that was not handed in and encoded |
| `Batching.EmptyBatchSent` | trace/aitracer/trace_sender/sender.go:143-157 | exactly when an empty batch is sent: nothing pending and a record in the gap between limit and limit plus offset |
| `Batching.SendsIff` | trace/aitracer/trace_sender/sender.go:114-157 | a batch goes out exactly at a tick with something pending or at a record that does not fit beside what is pending; otherwise the record joins it |
| `Batching.TickFlushes` | trace/aitracer/trace_sender/sender.go:114-118 | after a tick nothing is pending, and all that was is sent |
| `Batching.WhySent` | trace/aitracer/trace_sender/sender.go:114-157 | for every batch of every run the event that made it go out: a tick, or a record for which there was no room |
| `Batching.TightlyPacked` | trace/aitracer/trace_sender/sender.go:140-157 | without ticks and oversize records, no batch has room for the first record of the next |
| `Sender.RecordsRoundTrip` | trace/aitracer/trace_sender/sender.go:129-132 | a batch body splits by its 4-byte lengths into exactly its records |
| `Sender.SizePrefixedDelimits` | trace/aitracer/trace_sender/sender.go:129-132 | the 4-byte length of a record is the size of the message behind it if and only if that is under 4 GiB |
| `Sender.TraceRecord` | trace/aitracer/trace_sender/sender.go:129-136 | the record built for a trace is the length and then the printed trace |
| `Sender.TraceRecordReads` | trace/aitracer/trace_sender/sender.go:129-136 | what follows the length of a trace record decodes to that trace |
| `Sender.Loop.BatchSend` | trace/internal/sendworker/worker.go:90-96 | the payload is the frame of the body, or the body itself for datagrams; the in-place encoding does not touch the body bytes of the buffer |
| `Sender.Loop.Append` | trace/aitracer/trace_sender/sender.go:140-141 | the record is added after the pending ones; the buffer is replaced only when its capacity is used up |
| `Sender.Loop.Handle` | trace/aitracer/log_collector/collector.go:144-188 | one turn of the loop is one batching step, and the bytes behind the reserved prefix are the pending records |
| `Sender.Loop.SendLoop` | trace/aitracer/trace_sender/sender.go:102-159 | the whole loop, on one reused buffer, hands over exactly the payloads of the batches of the run; the log workers run the same loop |
| `Sender.WireIsFrames` | trace/internal/sendworker/worker.go:90-105 | the bytes written to a stream are the frames of the batches, end to end |
| `Sender.StreamEndToEnd` | trace/aitracer/trace_sender/sender.go:107-157 | a receiver splits the stream into frames and the frames into records, and together these are all the records accepted, the ones that fit in order |
| `Sender.TracesEndToEnd` | trace/aitracer/trace_sender/sender.go:102-159 | a receiver of the bytes of a stream loop gets its batches and decodes their records to exactly the traces handed in, the ones that fit in order and the oversize ones in order |
| `Sender.TracesOverDatagrams` | trace/internal/sendworker/worker.go:90-105 | a receiver of datagrams, each one batch without a frame, decodes the same traces |
| `MetricFormat.RecordRoundTrip` | metrics/format.go:20-35 | a record is self-delimiting: type, joined name, value bits and tags are recovered, whatever follows |
| `MetricFormat.PacketRoundTrip` | metrics/format.go:20-35 | records laid end to end read back as the metrics, in order |
| `MetricFormat.MetricRecovered` | metrics/format.go:20-51 | a receiver that knows the prefix gets the metric back, its own name included: the prefix and a dot stand before it |
| `MetricFormat.FormatsIff` | metrics/format.go:37-78 | the limits in numbers: 255 bytes for prefix, dot and name together, 255 tags, 255 bytes for each key and value |
| `MetricFormat.WriteString` | metrics/format.go:71-78 | succeeds exactly up to 255 bytes, and writes nothing otherwise |
| `MetricFormat.WriteName` | metrics/format.go:37-51 | succeeds exactly when the joined name has at most 255 bytes, with the dot only behind a non-empty prefix |
| `MetricFormat.WriteTags` | metrics/format.go:53-69 | succeeds exactly when at most 255 tags have keys and values of at most 255 bytes; on failure bytes written before stay in the buffer |
| `MetricFormat.FormatCommon` | metrics/format.go:20-35 | succeeds exactly within all the limits and then appends exactly the record |
| `MetricPacker.Worker.PackMetric` | metrics/metrics_client.go:160-178 | one metric is one batching step with limit 8192; a failed format is counted and leaves nothing behind |
| `MetricPacker.Worker.SendLoop` | metrics/metrics_client.go:152-191 | the whole loop over a closed channel sends exactly the batches of the run and counts exactly the metrics beyond the limits |
| `MetricPacker.AcceptedAreFitting` | metrics/metrics_client.go:158-170 | the records accepted are those of exactly the metrics within the limits, in order |
| `MetricPacker.PacketsParseBack` | metrics/metrics_client.go:158-190 | every packet is non-empty, exceeds 8192 bytes only as a single record, and reads back as metrics that were received; none within the limits is lost, repeated or reordered within its size class |
| `MetricPacker.PacketIsGood` | metrics/metrics_client.go:168-178 | the same of every single packet, for any run that accepted exactly the metrics within the limits |
| `MetricPacker.NilSendsAll` | metrics/metrics_client.go:181-186 | a nil message leaves nothing packed unsent |
| `MetricPipeline.MoveOneOwner` | metrics/pool.go:16-23 | every move of emitters, flusher, workers, `Close` or pool keeps each buffer with exactly one owner |
| `MetricPipeline.MoveSizes` | metrics/metrics_client.go:104-118 | every move keeps the shared batch under 1000, batches handed on or dropped at exactly 1000, and pooled buffers empty |
| `MetricPipeline.MoveConserved` | metrics/metrics_client.go:104-190 | no move loses or duplicates a metric, for any weighting of metrics |
| `MetricDelivery.RunKeeps` | metrics/metrics_client.go:48-77 | in every state of every interleaving: ownership, sizes, the workers' accounts and conservation hold |
| `MetricDelivery.EmittedAccounted` | metrics/metrics_client.go:104-190 | emitted = undelivered + formatted + format errors + 1000 for each batch the full channel refused |
| `MetricDelivery.ClosedDelivers` | metrics/metrics_client.go:69-77 | after `Close` nothing is in the channel, with the flusher or in a packet buffer, and the shared batch holds the metrics emitted after the final flush modulo 1000, so nothing if there were none |
| `MetricDelivery.ClosedSent` | metrics/metrics_client.go:188-190 | after `Close` each worker has sent the records of exactly the metrics within the limits it took up, in non-empty packets that read back as such metrics |
| `MetricDelivery.CloseProgresses` | metrics/metrics_client.go:69-77 | no deadlock: until `Close` has returned some move towards its end is enabled, although the flusher's sends block |
| `MetricDelivery.CloseTerminates` | metrics/metrics_client.go:69-77 | every move towards its end lowers a natural-number rank that only an emit can raise, so `Close` returns in every run with finitely many emits |
| `MetricDelivery.PanicIff` | metrics/metrics_client.go:112-118 | once the channel is closed an emitter is about to send on it, which panics, if and only if a full batch was already in an emitter's hands or what is left in the shared batch and the metrics emitted since make up 1000; each further 1000 add one such send |
| `MetricOrder.DropsOnlyWhenFull` | metrics/metrics_client.go:112-118 | in every reached state a move drops and counts a batch if and only if it offers one while the channel is full |
| `MetricOrder.DropsCounted` | metrics/metrics_client.go:112-118 | over every run the batches dropped and the counter are the number of offers to a full channel |
| `MetricOrder.NeverFullLosesNothing` | metrics/metrics_client.go:112-118 | a client whose channel never fills drops nothing: every metric emitted is undelivered, formatted or a format error |
| `MetricOrder.FirstInFirstOut` | metrics/metrics_client.go:112-158 | over every run the workers take the messages in the order in which emitters and flusher put them |
| `MetricOrder.NilPerFlush` | metrics/metrics_client.go:138-150 | every flush, of an empty batch too, puts exactly one nil |
| `MetricOrder.NilFlushes` | metrics/metrics_client.go:181-186 | the worker that takes a nil sends all it has packed |
| `MetricOrder.EmissionOrder` | metrics/metrics_client.go:104-111 | the batches taken from the emitters one after the other, and then the shared batch, are exactly the metrics emitted, in order |
| `MetricOrder.ContentsKept` | metrics/metrics_client.go:104-180 | no move changes what a buffer contains unless it is the shared batch or its worker is done with it |
| `MetricOrder.WorkerTakesInOrder` | metrics/metrics_client.go:158-180 | over every run a worker takes up exactly the metrics of the batches it received, in order |
| `MetricsClient.Client.GetMetricItems` | metrics/pool.go:16-18 | a pooled buffer, which leaves the pool, or a new empty one |
| `MetricsClient.Client.EmitLocked` | metrics/metrics_client.go:104-111 | the locked part of an emit is the machine's move; a full batch and only a full one is swapped out |
| `MetricsClient.Client.OfferBatch` | metrics/metrics_client.go:112-118 | the non-blocking send is the machine's move: behind what is in the channel if there is room, else counted and the channel left alone |
| `MetricsClient.Client.FlushLocked` | metrics/metrics_client.go:138-145 | the locked part of a flush is the machine's move; an empty batch stays |
| `MetricsClient.Client.Send` | metrics/metrics_client.go:146-149 | the flusher's blocking sends are the machine's moves |
| `MetricsClient.Client.ReceiveMessage` | metrics/metrics_client.go:158 | a worker takes the oldest message, as the machine's move |
| `MetricsClient.Client.PutMetricItems` | metrics/pool.go:20-23 | a finished buffer is truncated and pooled, as the machine's move |
| `TraceLifecycle.RunKeeps` | trace/aitracer/trace_context.go:23-40 | the invariant and the batch count of every span hold in every state of every interleaving |
| `TraceLifecycle.AtMostOneBatch` | trace/aitracer/tracer.go:442-449 | at every moment each span is in at most one batch and the finish count is at most the number of spans; an unsampled trace has no batch |
| `TraceLifecycle.TriggerMeansAllFinished` | trace/aitracer/trace_context.go:29-39 | a count triggers a collection if and only if with it every span registered at that moment has been counted; counted spans have finished |
| `TraceLifecycle.FinishedButNotCounted` | trace/aitracer/trace_context.go:29-39 | a run in which all spans have finished and the next count does not trigger, because another is still to come; that one does |
| `TraceLifecycle.ExactlyOneBatch` | trace/aitracer/tracer.go:423-539 | once every span has finished and every collect has run, each span is in exactly one batch |
| `TraceLifecycle.DeliveredIff` | trace/aitracer/tracer.go:535-538 | in a quiet state a span has reached the trace channel, exactly once, if there was room when its batch was sent, and never if there was not |
| `TraceLifecycle.AllDelivered` | trace/aitracer/tracer.go:535-538 | if no batch met a full channel, every span has reached it exactly once |
| `TraceLifecycle.UnfinishedOnlyIfLate` | trace/aitracer/tracer.go:442-449 | every span of a batch that was registered when the collection was triggered has finished |
| `TraceLifecycle.OnlyFinishedIff` | trace/aitracer/tracer.go:442-449 | right after the snapshot of a collection in any run, its batch holds only finished spans in every continuation if and only if each span of the snapshot has finished or has been collected already |
| `TraceLifecycle.LateSpanSent` | trace/aitracer/tracer.go:442-449 | any span unfinished and uncollected at the snapshot was started after the trigger, and some continuation sends it unfinished |
| `TraceLifecycle.UnfinishedSpanSent` | trace/aitracer/tracer.go:442-449 | a run in which a span started between the trigger and the scan is sent although it has not finished |
| `TraceLifecycle.EmptyBatchIff` | trace/aitracer/tracer.go:442-449 | right after the snapshot of a collection in any run, its batch is empty in every continuation if and only if each span of the snapshot has been collected by others already |
| `TraceLifecycle.UncollectedNone` | trace/aitracer/tracer.go:442-449 | the batch `EmitTrace` sends without interference is empty if and only if every span had been collected |
| `TraceLifecycle.EmptyBatchSent` | trace/aitracer/tracer.go:535-538 | the run of `UnfinishedSpanSent` goes on so: that span's own collection sends a batch without spans |
| `TraceLifecycle.Span.TryFinish` | trace/aitracer/span.go:133-136 | only the first caller goes on |
| `TraceLifecycle.Span.TryCollect` | trace/aitracer/tracer.go:446-449 | only the first collector takes the span |
| `TraceLifecycle.TraceContext.AddSpan` | trace/aitracer/trace_context.go:23-27 | the locked append is the machine's move |
| `TraceLifecycle.TraceContext.FinishOne` | trace/aitracer/span.go:133-136 | the compare-and-swap of a finish is the machine's move, won or lost |
| `TraceLifecycle.TraceContext.FinishSpan` | trace/aitracer/trace_context.go:29-36 | the locked count is the machine's move and reports whether to collect |
| `TraceLifecycle.TraceContext.EmitTrace` | trace/aitracer/tracer.go:423-539 | run without interference, it collects and sends exactly the spans not collected before, in order |
| `Sampling.FlagsRoundTrip` | trace/aitracer/interface.go:110-138 | flags survive both their decimal and their 32-bit form |
| `Sampling.SettleOnce` | trace/aitracer/tracer.go:288-313 | one pass settles strategy and flags for good: no later sampler answer changes them, and a decision settled on arrival is kept |
| `Sampling.SamplerDecides` | trace/aitracer/tracer.go:288-313 | an unknown strategy, and only that, becomes the sampler's answer, with the sampler's weight if it is sampled; flags settled here have bit 0 for the client and bit 1 for the server |
| `Sampling.CollectsIffSomeoneSampled` | trace/aitracer/tracer.go:298-313 | flags settled here say exactly who sampled, and a trace is collected if and only if client or server did |
| `Decimal.DecimalRoundTrip` | trace/aitracer/propagation.go:51-58 | a 64-bit weight survives being written and parsed as decimal |
| `Decimal.AtoiClamps` | trace/aitracer/propagation.go:150-158 | a decimal number of any size, with or without a sign, is read as the nearest 64-bit integer |
| `Decimal.AtoiSyntax` | trace/aitracer/propagation.go:150-158 | a byte that is no digit makes it 0 |
| `BinaryPropagation.BinaryRoundTrip` | trace/aitracer/propagation.go:237-298 | extract after inject gives back ids, strategy, weight, flags and baggage for any two baggage orders, if and only if the strategy is determined and the weight is a 32-bit value |
| `BinaryPropagation.FlagsOptional` | trace/aitracer/propagation.go:355-358 | without the last 4 bytes only the flags change, to unknown |
| `BinaryPropagation.ExtractedDetermined` | trace/aitracer/propagation.go:320-332 | whatever the bytes, an extracted strategy is never unknown |
| `BinaryPropagation.CutAnywhere` | trace/aitracer/propagation.go:302-369 | cut off anywhere before its last 4 bytes an injected context fails to extract; cut off in them it has unknown flags |
| `BinaryPropagation.NegativeLengthPanics` | trace/aitracer/propagation.go:381-392 | a negative length of an id or of a baggage key panics, whatever follows |
| `BinaryPropagation.SampledIffOne` | trace/aitracer/propagation.go:320-332 | of all hit values only 1 means sampled |
| `BinaryPropagation.Inject` | trace/aitracer/propagation.go:237-298 | the writes produce exactly the injected bytes |
| `BinaryPropagation.Extract` | trace/aitracer/propagation.go:302-369 | the reads return exactly what the specification makes of the bytes: a context, an error, or the panic on a negative length |
| `BinaryPropagation.WriteString` | trace/aitracer/propagation.go:371-379 | a 32-bit length and the string |
| `BinaryPropagation.ReadStringFrom` | trace/aitracer/propagation.go:381-392 | reads what `writeString` wrote; fails on too few bytes |
| `HttpPropagation.HttpRoundTrip` | trace/aitracer/propagation.go:44-71 | on a fresh carrier, extract after inject gives back the context for every order of baggage and headers, if and only if both ids are non-empty, every baggage key is its own lower case, and the strategy is determined or its weight 0; for any Unicode tables in which lower case is settled |
| `HttpPropagation.FieldsSurvive` | trace/aitracer/propagation.go:136-187 | ids, strategy, weight and flags survive whatever the baggage and the orders |
| `HttpPropagation.BaggageSurvives` | trace/aitracer/propagation.go:178-185 | the baggage survives if and only if `ToLower` leaves its keys alone, non-ASCII letters and malformed UTF-8 included; for any Unicode tables in which lower case is settled |
| `HttpPropagation.AsciiLowerKeys` | trace/aitracer/propagation.go:142 | for ASCII keys being their own lower case means having no upper-case letters |
| `HttpPropagation.MalformedKey` | trace/aitracer/propagation.go:142 | a key that is a malformed byte never survives |
| `Utf8.LowerPrefix` | trace/aitracer/propagation.go:142 | `ToLower` lowers an ASCII prefix byte by byte and the rest on its own, so baggage names keep their prefix |
| `Utf8.LowerTwice` | trace/aitracer/propagation.go:142 | lowering rune by rune, malformed bytes included, and lowering again is lowering once |
| `Utf8.LowerText` | trace/aitracer/propagation.go:142 | `ToLower` of well-formed text is the text of its runes in lower case: A to Z by 32, the others by the Unicode tables |
| `HttpPropagation.LowerCanonical` | trace/aitracer/propagation.go:23-26 | header names are canonicalised in the case of ASCII letters only (section 3.2 of RFC 7230), so `ToLower` finds them again |
| `HttpPropagation.CanonicalIff` | trace/aitracer/propagation.go:23-26 | two names have the same canonical form if and only if they differ in the case of letters only |
| `HttpPropagation.InjectReplaces` | trace/aitracer/propagation.go:44-71 | whatever the carrier held, after inject ids and flags are the context's, and so are strategy and weight if the strategy is known; with an unknown strategy those of another trace stay |
| `HttpPropagation.OneIdOnly` | trace/aitracer/propagation.go:44-71 | and no name that is one of the id names in any case has another id |
| `HttpPropagation.Inject` | trace/aitracer/propagation.go:44-71 | sets exactly the specified headers, replacing what the carrier held under the same names |
| `HttpPropagation.Extract` | trace/aitracer/propagation.go:136-194 | the nested loops over names, lowered as `ToLower` does, and values return the specified context, or none without both ids |
| `TraceChain.StartSpan` | trace/aitracer/tracer.go:235-336 | with a local, a remote or no parent: the trace context is shared or new, the decision settled in place, baggage copied, the parent id set; a settled shared context is not changed |
| `TraceChain.TraceContext.SettleInPlace` | trace/aitracer/tracer.go:288-313 | the two blocks, field by field, compute the settled decision |
| `TraceChain.FirstSpanSendable` | trace/aitracer/tracer.go:280-313 | the first span of a trace, with any parent or none, fixes a decision that can be passed on |
| `TraceChain.RootDecides` | trace/aitracer/tracer.go:281-313 | a span without a parent has the new ids and no baggage, is collected if and only if the sampler took it, and then has the sampler's weight |
| `TraceChain.RootDecidesForAll` | trace/aitracer/tracer.go:288-313 | so along any chain of hops from it every process has that decision, weight and trace id |
| `TraceChain.ChildDecides` | trace/aitracer/tracer.go:235-313 | under a parent whose strategy is unknown this sampler decides, otherwise the parent has; trace id and baggage are the parent's |
| `TraceChain.OneDecision` | trace/aitracer/tracer.go:253-313 | along any chain of local, HTTP and binary hops trace id, strategy, weight and flags stay as first fixed, each parent id is the previous span id, all processes collect or none does, and baggage whose keys are their own lower case arrives unchanged |
| `TraceChain.ClientStartsTrace` | trace/aitracer/propagation.go:161-166 | a request with only the client header gives the client's ids to the first span, and the trace is collected if and only if client or server sampled it |
| `HeaderOrder.OrderIndependentIff` | trace/aitracer/propagation.go:142-187 | any request, names of several values or of differing case included, gives the same context in every order of the header map if and only if no two of its names set a field to different values |
| `HeaderOrder.ExtractOrderIff` | trace/aitracer/propagation.go:142-194 | `Extract`, with its check for both ids, returns the same in every order if and only if the request is such a one or gives nothing in every order |
| `HeaderOrder.ExtractOrderIndependent` | trace/aitracer/propagation.go:142-194 | in any two orders of such a request `Extract` returns the same |
| `HeaderOrder.ConsistentIff` | trace/aitracer/propagation.go:142-187 | where each name occurs once that is: no client header names another trace or parent span than this SDK's headers and no client state another application or origin than a baggage header |
| `HeaderOrder.MixedContradicts` | trace/aitracer/propagation.go:161-166 | a request with both this SDK's ids and a client header contradicts itself if and only if the client names another trace or span |
| `HeaderOrder.LastIdsWin` | trace/aitracer/propagation.go:142-166 | of such a request extract takes the ids it visits last, so two orders give two different traces |
| `RateLimit.Sampler.Sample` | trace/aitracer/trace_sampler/sampler_ratelimit.go:17-31 | one call is one step of the specification, on saturating time differences |
| `RateLimit.WeightsCountCalls` | trace/aitracer/trace_sampler/sampler_ratelimit.go:23-30 | over every run the returned weights plus the calls not yet accounted for add up to the number of calls |
| `RateLimit.LastOnGrid` | trace/aitracer/trace_sampler/sampler_ratelimit.go:28 | over every run `last` is a multiple of the interval and never passes the clock, even where the subtraction saturates |
| `RateLimit.CatchesUp` | trace/aitracer/trace_sampler/sampler_ratelimit.go:23-28 | one call whose difference does not saturate brings `last` to the start of the current cell |
| `RateLimit.OneSamplePerCell` | trace/aitracer/trace_sampler/sampler_ratelimit.go:17-31 | once caught up, a call is sampled exactly when it is the first in its cell of the interval grid |
| `RateLimit.SampledIffBehindOrNewCell` | trace/aitracer/trace_sampler/sampler_ratelimit.go:17-31 | over every run, every call but the first is sampled if and only if the sampler had not caught up with the call before or the call is in a new cell |
| `RateLimit.CaughtUpOrStrides` | trace/aitracer/trace_sampler/sampler_ratelimit.go:23-30 | after any number of calls the sampler has caught up or each of them has taken `last` on by the whole intervals in 2^63 - 1 ns |
| `RateLimit.CatchesUpInTime` | trace/aitracer/trace_sampler/sampler_ratelimit.go:23-30 | so it has caught up as soon as that many strides pass the clock |
| `RateLimit.SeventhCallCatchesUp` | trace/aitracer/trace_sampler/sampler_ratelimit.go:23-30 | for intervals up to a year and clocks before 2038 the seventh call at the latest has caught up |
| `RateLimit.OneSamplePerCellInTime` | trace/aitracer/trace_sampler/sampler_ratelimit.go:17-31 | from then on there is exactly one sample per cell, the first call in it |
| `RateLimit.FirstCallSaturates` | trace/aitracer/trace_sampler/sampler_ratelimit.go:23-30 | with a real clock the first call of a fresh sampler saturates: `last` is left a stride behind, and the next call is sampled whenever it comes |
| `ConditionalDriver.WindowsKept` | trace/aiprofiler/drivers/conditional_diver.go:115-137 | over every run with a nondecreasing clock a profile's grants count 1, 2, 3 and start again, windows start more than an hour apart, and the counter reflects them |
| `ConditionalDriver.FiveAnHour` | trace/aiprofiler/drivers/conditional_diver.go:115-137 | any closed hour holds at most five grants of a profile |
| `ConditionalDriver.TickEvents` | trace/aiprofiler/drivers/conditional_diver.go:85-107 | a minute tick is the sweep followed by one check of the profile if its condition is met, the events of `OnTick` |
| `ConditionalDriver.FiveReached` | trace/aiprofiler/drivers/conditional_diver.go:25 | a driver that ticks every minute and finds the condition met at minutes 2, 60, 61, 63, 64 and 65 grants five in one hour, so the three an hour of the comment do not hold of every hour |
| `ConditionalDriver.ThreeFromWindowStart` | trace/aiprofiler/drivers/conditional_diver.go:25 | three an hour hold of every hour that starts with the first grant of a window |
| `ConditionalDriver.ThreeAnHourIff` | trace/aiprofiler/drivers/conditional_diver.go:25 | every hour has at most three grants if and only if no grant other than the first of its window is followed by three more within an hour |
| `ConditionalDriver.Driver.OnTick` | trace/aiprofiler/drivers/conditional_diver.go:85-107 | one tick is the sweep and then the checks on the counters it left |
| `ConditionalDriver.Driver.RemoveExpired` | trace/aiprofiler/drivers/conditional_diver.go:115-121 | the sweep removes exactly the expired counters, in any order of the map |
| `ConditionalDriver.Driver.CheckExecutionLimit` | trace/aiprofiler/drivers/conditional_diver.go:123-137 | grants exactly when there is no counter or it is below three, and counts the grant |
| `ConditionalDriver.Driver.CheckProfiles` | trace/aiprofiler/drivers/conditional_diver.go:88-107 | one tick over any current profiles: the tasks sent are exactly the granted ones with a known type and room in the channel, so in no hour more than the grants |
| `ConditionalDriver.OneTask` | trace/aiprofiler/drivers/conditional_diver.go:89-106 | a profile's task is sent if and only if its condition is met, its type known, the execution granted and the channel has room |
| `ConditionalDriver.TickOneByOne` | trace/aiprofiler/drivers/conditional_diver.go:88-107 | the profiles of a tick are handled one after the other, each on the counters the others left |
| `ConditionalDriver.Driver.RunLoop` | trace/aiprofiler/drivers/conditional_diver.go:83-112 | the loop over any ticks leaves exactly the events and tasks of its specification |
| `ConditionalDriver.GrantsAccounted` | trace/aiprofiler/drivers/conditional_diver.go:85-107 | over every run and every hour, each execution granted is a task sent or was lost to an unknown type or a full channel |
| `ConditionalDriver.AllGrantsSent` | trace/aiprofiler/drivers/conditional_diver.go:85-107 | when the types are known and the channel has room, as many tasks are sent in any hour as executions are granted |
| `ConditionalDriver.FiveTasksAnHour` | trace/aiprofiler/drivers/conditional_diver.go:85-107 | after any run of the driver at most five tasks of a profile granted within one hour were sent, whatever the settings and the channel did |
| `PathNormalizer.DefaultPathNormalizer` | trace/contrib/gin-gonic/gin/middleware.go:155-226 | the loop over split positions computes the segment-by-segment specification, for every byte string |
| `PathNormalizer.WriteSegment` | trace/contrib/gin-gonic/gin/middleware.go:187-219 | the nested branches on length, version prefix and digits decide as specified |
| `PathNormalizer.SegmentStays` | trace/contrib/gin-gonic/gin/middleware.go:187-219 | a segment is kept if it is "?", `v` or `V` with one or two digits, or 2 to 24 bytes without a digit, and becomes "?" otherwise |
| `PathNormalizer.EachSegment` | trace/contrib/gin-gonic/gin/middleware.go:155-226 | every path keeps its number of segments, in order, each kept or "?" by that rule |
| `PathNormalizer.PathStaysIff` | trace/contrib/gin-gonic/gin/middleware.go:155-226 | a path is left alone if and only if it is "/" or slash-led segments that are all kept |
| `PathNormalizer.OneSegment` | trace/contrib/gin-gonic/gin/middleware.go:160-171 | bytes without a slash are one segment |
| `PathNormalizer.SegmentsAcross` | trace/contrib/gin-gonic/gin/middleware.go:160-171 | a slash splits whatever stands on its two sides, so runs of slashes count as one |
| `PathNormalizer.FindSplitters` | trace/contrib/gin-gonic/gin/middleware.go:160-171 | the positions are those of the slashes and the end unless the path ends in one, although `range` steps by runes |
| `PathNormalizer.FindNumber` | trace/contrib/gin-gonic/gin/middleware.go:173-182 | finds a digit exactly when some byte is one, although `range` steps by runes |
| `PathNormalizer.Idempotent` | trace/contrib/gin-gonic/gin/middleware.go:155-226 | normalising twice is normalising once |
| `PathNormalizer.ResultShape` | trace/contrib/gin-gonic/gin/middleware.go:186-225 | a result is "/" or segments of 1 to 24 bytes, with a digit only in `v` or `V` and one or two digits |
| `GcRing.PausesInOrder` | trace/aitracer/runtime/runtime.go:218-236 | with fewer collections than the buffer holds the slice is exactly those since the previous reading, in order, across the wrap-around |
| `GcRing.PausesRotated` | trace/aitracer/runtime/runtime.go:223-225 | with at least as many it is the last collections, up to rotation |
| `GcRing.NothingNew` | trace/aitracer/runtime/runtime.go:219-222 | without a collection since the previous reading there is nothing, and otherwise something |

## Left out

- Go's 64-bit `int` in index and length arithmetic: indices are unbounded integers; only values that go over the wire, times
  and lengths in fixed-width fields have their width. The members this concerns:
- Parser.Skip: does not wrap around when index plus length reaches 2^63, as a hostile length can make it in the source.
- Decoder.SkipField: does not wrap around at 2^63 either.
- Decoder.SkipGroupFields: does not wrap around at 2^63 either.
- Decoder.ReadEntryAt: does not wrap around at 2^63 either.
- Decoder.UnmarshalErrorInfo: does not wrap around at 2^63 either.
- Decoder.UnmarshalSpan: does not wrap around at 2^63 either.
- Decoder.UnmarshalTrace: does not wrap around at 2^63 either.
- Nil messages: spans and error infos are values, so a nil element of a list is not modelled, nor is decoding into a message
  that shares structure with another.
- Marshalling of a `Trace` fails in no case modelled here; the `Failed` event of the send loop stands for any such failure.
- Connections, dialling, retries and partial writes: what is handed to the connection is appended to a log.
- The choice among several ready cases of a `select`, and of which worker receives a message, is any; fairness is not
  modelled, so `Close` is shown to have finitely many steps left and never to be stuck, not to be scheduled.
- What a panicking emitter does to the program: it is counted at its send (`MetricDelivery.PanicIff`), which is no move.
- The data race between the unlocked scan in `emitTrace` and a concurrent `addSpan`: the scan takes its snapshot in one
  step.
- TraceLifecycle.TraceContext.EmitTrace: states the run without interference; what interference does is in the lemmas about
  all interleavings. The fields copied from spans into the message and the control variable that suppresses emission are
  left out.
- The trace channel's own state: whether it has room when a batch is sent is an input of the move.
- Write errors and carriers of another type in inject and extract; `readString` on readers that return short reads.
- The W3C parsers for client headers are parameters, so the round trips hold for any such parser.
- Ids, sampler answers, clocks and map orders are inputs; the ratio and always-on samplers are not part of this model.
- A rate-limit interval of zero or less.
- Condition evaluation and task building of the profiling driver: a profile says whether its condition is met and whether it
  names a known type.
- The codecs for logs, profiles and settings, `FormatMap`, and the wrappers for other libraries, including the copy of the
  path normaliser in the HTTP client wrapper.
- RateLimit.Sampler.Sample: `noSampled` is an unbounded counter, and the mutex is taken as making each call one step.
- Framing.Encode: the header is a value, so a header that aliases the body's buffer is not modelled.
- The Unicode tables behind `unicode.ToLower` are a parameter. The only-if halves of `BaggageSurvives` and `HttpRoundTrip`
  ask of them what Unicode's simple case mapping gives: a lower-case rune is its own lower case. The rest asks nothing.

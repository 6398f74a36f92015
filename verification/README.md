# kafka-go, verified

A Dafny model of the parts of kafka-go, a Kafka client written in Go, in which most can go wrong: the record codecs
and message set readers, the producer pipeline, the consumer pipeline and the connection multiplexer.
`dafny verify dfyconfig.toml` checks all of it.

How the files hang together:

- **Bytes.** `Wire` gives every primitive reader as a function on the bytes to come and the size the enclosing frame
  says is left; `Streams` has the buffered reader and writer as objects and the primitives as operations on them, proved
  to end as those functions say. `VarInt` adds variable-length integers.
- **Messages.** `RecordBatch`, `RecordBatchProofs`, `RecordBatchWriter` and `RecordBatchReader` are message format 2,
  `MessageSet`, `MessageSetProofs` and `MessageSetReader` formats 0 and 1 with compressed wrappers (sections 5.3.1 to
  5.3.3 of the Apache Kafka documentation). For each format: what is written as a function, the writer or reader as
  methods and classes proved against it, and the theorem that reading gives back what was written and leaves the
  connection exactly behind it. `Truncation` and `CutBatches` do the same for responses that are cut off, `ValueCopy` for
  copying a value into a buffer. `FormatSelection` chooses between the two formats; `Codecs` holds compression as an
  abstract inverse pair.
- **Requests and responses.** `Requests`, `RequestStructs` and `ProduceRequests` relate the hand-written request writers
  to the struct codecs with their own `size()`, and the running checksum to the bytes it covers. `CompressedSets` follows
  a compressed set from the produce request over the broker to the reader. `Responses` says how many bytes the response
  readers leave.
- **The connection.** `Connection` is the multiplexer as a state machine over all interleavings of operations, server and
  network. `Batches` is the iteration over the messages of a fetch response and the offset the connection resumes from;
  `Fetching` proves that this is what a batch over the bytes of a response does.
- **Consumer.** `ReaderProtocol` is the versioned subreader protocol, `ReaderOffsets` what SetOffset means in it and
  `ReaderProgress` what it can always do; `GroupLifecycle` is the consumer-group loop with all goroutines it starts. Both
  are state machines whose runs are arbitrary interleavings. `OffsetStash` is the stash and
  the commit loops, `GroupBalancer` and `Assignment` the distribution of partitions by the leader and its way over the
  wire.
- **Producer.** `PartitionWriter` is the batching loop, `Sender` the sending of a batch with its retries, `Delivery` all
  partition writers together with the router and any number of callers, `Producer` the call of `WriteMessages` on top of
  that. `Router` is the loop that opens and closes partition writers, `Balancer` the choice of a partition and
  `LeastBytesRuns` that choice inside the loop.

Where the code does not do what one would expect, the model follows the code, states exactly when the expectation holds
and gives an input on which it fails:

- `writeVarInt` ends only below 2^62 (`VarInt.LoopEndsIff`; `VarInt.NeverEnds`).
- Timestamps of format 2 survive only without a delta, but for a rounding case (`RecordBatchProofs.TimestampSurvivesIff`;
  `RecordBatchProofs.SecondBecomesDays`).
- Compressed batches must fit the read buffer (`RecordBatchProofs.CompressedReadsIff`; `RecordBatchProofs.TooLargeToPeek`).
- `discard` of format 2 skips only the frame on top (`RecordBatchProofs.DiscardLeavesIff`, `Fetching.NewCloses`;
  `RecordBatchProofs.DiscardLeavesBatch`).
- Reading a value of format 2 into a buffer may run into the next response (`ValueCopy.CopyBoundedIff`;
  `ValueCopy.TakesNext`).
- A response cut off within its first seventeen bytes is left unread (`Fetching.CutAtOpen`).
- A wrapper inside a wrapper loses the outer base (`MessageSetProofs.NestedBaseIff`; `MessageSetProofs.NestedLosesBase`).
- A held-over message with an empty value is lost (`PartitionWriter.CloseFlushesAllIff`; `PartitionWriter.DroppedMessage`)
  and the call that sent it waits (`Producer.DroppedWaits`).
- A produce error, and a fetch error of version 5, leave bytes on an open connection (`Responses.ProduceLeftover`,
  `Responses.FetchV5Leftover`, `Connection.FinishBoundaryIff`; `Responses.ProduceErrorStalls`,
  `Responses.FetchErrorStalls`); closing the connection does
  not help an operation that already waits, because the buffer is not emptied (`Connection.LeftoverTaken`).
- A response of the newer format that ends before the requested offset moves the connection back
  (`Batches.ResumesBelowIff`; `Batches.Redelivers`).
- An offset out of range, a seek that fails and a response that ends early let a reader go back behind the offset it was
  set to (`ReaderOffsets.SetOffsetHoldsIff`; `ReaderOffsets.GoesBack`).
- `Hash` selects an index, not a partition (`Router.HashNeverCrashesIff`; `Router.HashSelectsNone`); `LeastBytes` selects
  partitions that are gone (`LeastBytesRuns.LeastBytesIff`; `Router.LeastBytesSelectsGone`).
- The size of a group assignment is two short, which frames no request (`Assignment.AssignmentSize`).

## Model

| member | source | states |
|---|---|---|
| `Wire.SignedBigEndian` | protocol.go:67-81 | decoding the big-endian bytes of any integer of the width gives the integer back |
| `Wire.BigEndianSigned` | protocol.go:67-81 | encoding what was decoded from any bytes gives the bytes back: the integer codec is a bijection |
| `Wire.DiscardNConserves` | discard.go:5-16 | on arbitrary bytes, the size left is the size given minus the bytes consumed, on every path |
| `Wire.ReadIntConserves` | read.go:17-43 | the same for peekRead and the integer readers, which consume all or nothing |
| `Wire.ReadNewBytesConserves` | read.go:113-135 | the same for readNewBytes, also when the frame or the stream is too short |
| `Wire.SizedConserve` | read.go:63-111 | the same for strings and byte slices, read or discarded, also with lengths that exceed the frame |
| `Wire.ReadFieldsConserves` | read.go:276-284 | the same for a run of integer fields |
| `Wire.ReadsString` | read.go:63-84 | a written string is read back and everything after it is left |
| `Wire.ReadsBytes` | read.go:91-111 | a written slice is read back, nil and empty identified, and everything after it is left |
| `Wire.ReadsFields` | read.go:276-284 | a run of integer fields is read back as the values written |
| `Streams.DiscardN` | discard.go:5-16 | the operation on a buffered reader ends with the bytes, the size and the error of its specification |
| `Streams.PeekRead` | read.go:17-27 | peek, then discard: all or nothing, with the specified error |
| `Streams.ReadNewBytes` | read.go:113-135 | ends as specified, including the short read inside the frame |
| `Streams.ReadBytes` | read.go:91-111 | the length checked against the frame, then the contents |
| `Streams.ReadString` | read.go:63-89 | the same with a two-byte length |
| `Streams.DiscardSized` | discard.go:34-50 | discardString and discardBytes end as specified |
| `Streams.ReadFields` | read.go:276-284 | the loop stops at the first integer that fails, as specified, and returns the values read before it |
| `Streams.WriteFields` | write.go:16-47 | the integers are appended in order, big endian |
| `VarInt.LoopEndsIff` | write.go:49-55 | the writing loop ends if and only if -2^62 <= i < 2^62 |
| `VarInt.NeverEnds` | write.go:49-55 | at 2^62 the writing loop never ends |
| `VarInt.Write` | write.go:49-56 | on that range the loop appends the zigzag encoding |
| `VarInt.Len` | write.go:58-66 | the number of bytes writeVarInt emits, between 1 and 9 |
| `VarInt.LengthBound` | write.go:58-66 | nine bytes are enough if and only if the number is in that range |
| `VarInt.ReadConserves` | read.go:45-57 | on arbitrary bytes the size left is the size given minus the bytes consumed |
| `VarInt.ReadVarInt` | read.go:45-57 | the loop ends with the value, the bytes and the size of the specification |
| `VarInt.RoundTrip` | read.go:45-57 | reading what was written gives the number back and leaves any suffix untouched |
| `RecordBatch.ReadRecordConserves` | message.go:496-562 | on arbitrary bytes, reading a record accounts for every byte it consumes |
| `RecordBatch.ReadsRecord` | write.go:517-540 | a written record is read back with key, value, headers and deltas, and any suffix is left |
| `RecordBatch.ReadMessageConserves` | message.go:450-544 | whatever the bytes and the stacked frames, the frame of the connection advances by exactly what is deducted from its size |
| `RecordBatch.CodecBits` | message.go:380-382 | of the attributes only the three lowest bits decide about decompression |
| `RecordBatch.DiscardAlignedIff` | message.go:568-571 | discard ends at the end of the response if and only if no decompressed frame is on top or nothing is left below it |
| `RecordBatchProofs.DiscardLeavesIff` | message.go:568-571 | on the bytes of any batches, after k reads: discard leaves nothing if and only if the batch of the k-th message is plain or the last one, and else exactly the batches behind it |
| `RecordBatch.HeaderUnread` | message.go:450-494 | while no batch is open the header of the last one has no influence: reads differ at most in the header they leave behind when they fail |
| `RecordBatchProofs.ReadBack` | message.go:403-562 | any run of record batches, plain or compressed, drained read by read, gives the messages written at offsets base + i, then a short read, with no byte left and none after it touched |
| `RecordBatchProofs.Served` | message.go:450-544 | the same message by message: every successive read gives the next message, then a short read with the response used up exactly |
| `RecordBatchProofs.CompressedReadsIff` | message.go:466-482 | a compressed batch can be read if and only if its payload fits the read buffer, and else fails with a full buffer |
| `RecordBatchProofs.TooLargeToPeek` | message.go:466-482 | a compressed batch of one value of 4096 bytes fails with a full buffer |
| `RecordBatchProofs.DiscardLeavesBatch` | message.go:568-571 | two compressed batches, one message read, then discard: the connection stands in front of the whole second batch |
| `RecordBatchProofs.TimestampSurvivesIff` | write.go:519-525 | the exact times for which the timestamp read is the timestamp written, deltas being written in nanoseconds and added to milliseconds |
| `RecordBatchProofs.SecondBecomesDays` | write.go:519-525 | two messages one second apart are read a thousand million milliseconds apart |
| `RecordBatchProofs.LayoutSum` | write.go:378-392 | the header of a batch is 61 bytes |
| `RecordBatchWriter.RecordSize` | write.go:451-467 | the size computed field by field is the length of the record body |
| `RecordBatchWriter.WriteRecord` | write.go:517-540 | appends the length-prefixed record |
| `RecordBatchWriter.RecordBatchSize` | write.go:394-406 | the size computed is that of the header and all records with their own length prefixes |
| `RecordBatchWriter.WriteRecords` | write.go:351-355 | the loop appends every record with its offset delta |
| `RecordBatchWriter.WriteRecordBatch` | write.go:408-447 | appends the batch, whose length counts the bytes after it and whose checksum is that of the bytes after it |
| `RecordBatchProofs.HeaderSays` | write.go:408-441 | byte by byte, the header holds the base offset, the number of bytes that follow, the format, the checksum, the codec, the offset delta that the last record carries, the times of the first and last message, no producer, and the number of records |
| `RecordBatchWriter.Rebase` | write.go:412-414 | replacing the base offset changes the first eight bytes of a batch and nothing else |
| `RecordBatchReader.ReadRecordFrom` | message.go:496-544 | reading a record from a buffered reader ends as specified |
| `RecordBatchReader.ReadHeadersFrom` | message.go:546-562 | the loop over the headers ends as specified |
| `RecordBatchReader.MessageSetReaderV2.ReadMessage` | message.go:450-544 | the object moves from state to state as the specification says, and returns its message or error |
| `RecordBatchReader.MessageSetReaderV2.OpenBatch` | message.go:455-494 | reading a batch header, its fields stored one by one until one fails, and descending into its payload, as specified |
| `RecordBatchReader.MessageSetReaderV2.Decompress` | message.go:464-493 | the payload is peeked, decoded, skipped below and stacked above, with every error |
| `RecordBatchReader.MessageSetReaderV2.NextRecord` | message.go:496-544 | one record is read from the frame on top and counted down, with its offset and time from the batch header |
| `RecordBatchReader.MessageSetReaderV2.Discard` | message.go:568-571 | only the frame on top is discarded, and the error is that of the discard |
| `MessageSet.TurnConserves` | message.go:210-298 | one pass of the reading loop, on arbitrary bytes, advances the frame of the connection by what is deducted from its size |
| `MessageSet.CodecBits` | message.go:225-229 | of the attributes only the two lowest bits matter: with zero the message is delivered, with anything else it is decompressed by that codec, or fails if there is none |
| `MessageSet.DiscardEndsResponse` | message.go:307-319 | after any reads of arbitrary bytes, discard leaves the connection exactly at the end of the response |
| `MessageSetProofs.PlainTurn` | message.go:272-293 | a plain message is returned at its absolute offset, or skipped when below the minimum |
| `MessageSetProofs.WrapTurn` | message.go:225-270 | a wrapper, whatever is in it, is decompressed and pushed with its offset minus the last inner offset as base |
| `MessageSetProofs.Served` | message.go:210-298 | any set of plain messages and wrappers, nested to any depth and followed by anything: whatever minimum each read asks for, the reads give exactly its messages at or past it, in order, then a short read with the response used up exactly |
| `MessageSetProofs.NestedBaseIff` | message.go:259-269 | wrappers nested to any depth: every message is served at the offset meant for it if and only if around every wrapper with a plain message in it the bases of the outer ones add up to zero |
| `MessageSetProofs.NestedLosesBase` | message.go:259-269 | a message wrapped twice at offset 5 is served at offset 0 |
| `MessageSetProofs.NeverReturns` | message.go:210-298 | a payload that decompresses to a wrapper again keeps the reading loop going, one frame deeper with every pass, for any number of passes |
| `Truncation.OldCut` | batch.go:200-216 | any prefix of a response of format 0 or 1 serves the messages of the items that came in full, then gives a short read, after which discard leaves the connection exactly behind the response |
| `CutBatches.NewCut` | batch.go:200-216 | any prefix of a response of record batches serves the batches that came in full and the complete records of a plain one, then gives a short read, after which discard leaves the connection exactly behind the response |
| `MessageSetProofs.ReadBack` | message.go:210-298 | any set of plain messages and wrappers is read as exactly its messages at or past the minimum, in order, then a short read, with the response used up exactly |
| `MessageSetReader.ReadHeadFrom` | read.go:462-500 | the header is read and checked as specified, versions 0 and 1 only |
| `MessageSetReader.ExtractOffset` | message.go:321-337 | the scanning loop finds the offset of the last inner message |
| `MessageSetReader.MessageSetReaderV1.ReadMessage` | message.go:210-298 | after any number of passes the stack is that of the specification, and whether the loop has returned, with which message or error |
| `MessageSetReader.MessageSetReaderV1.Pass` | message.go:215-293 | one pass does to the stack what the specification says |
| `MessageSetReader.MessageSetReaderV1.Descend` | message.go:225-270 | the value of a compressed message becomes a new frame, with every error |
| `MessageSetReader.MessageSetReaderV1.Deliver` | message.go:272-293 | a plain message is skipped or returned |
| `MessageSetReader.MessageSetReaderV1.Discard` | message.go:307-319 | the loop rewinds to the reader of the connection and skips the rest; the error is that of the skip, and none when nothing is stacked |
| `MessageSetReader.MessageSetReaderV1.Remaining` | message.go:300-305 | the sizes of all stacked frames together |
| `FormatSelection.NewMessageSetReader` | message.go:173-208 | the reader is only looked into; the one chosen starts at its position, and each error is the specified one |
| `FormatSelection.SelectsIff` | message.go:173-208 | on arbitrary bytes a reader is chosen if and only if the response, the buffer and the stream hold seventeen bytes, the last of which is 0, 1 or 2, and it is the new one if and only if that is 2 |
| `FormatSelection.SelectsOld` | message.go:173-208 | what the format 0 and 1 writers emit, cut off or not, is given to the old reader |
| `FormatSelection.SelectsNew` | message.go:173-208 | what the format 2 writer emits, cut off or not, is given to the new reader |
| `Fetching.OldFetch` | conn.go:701-783 | from the bytes of a fetch response of format 0 or 1, cut off anywhere behind its first bytes, to any calls on the batch: exactly the messages that came in full and are at or past the offset asked for, in order, then one error for good, and the next offset is one past the last |
| `Fetching.NewFetch` | conn.go:701-783 | the same for record batches, plain or compressed |
| `Fetching.WholeOld` | batch.go:200-216 | a response of format 0 or 1 that is not cut off delivers all its items |
| `Fetching.WholeNew` | batch.go:200-216 | a response of record batches that is not cut off delivers all its messages |
| `Fetching.CutAtOpen` | conn.go:755-770 | a response cut off within the first seventeen bytes of its messages opens with an error and these bytes are read neither by calls nor by close; past the deadline that error keeps the connection open |
| `Fetching.FailedFetch` | batch.go:193-199 | a batch that opens with an error of the broker, the header or the format returns it from every call and keeps its offset |
| `Fetching.CallsMatch` | batch.go:149-229 | a batch over bytes answers any calls as the batch over the messages in them does |
| `Fetching.CallsOnce` | batch.go:149-229 | the replies and what they leave are determined by the bytes |
| `Fetching.HeaderV2Carries` | read.go:309-369 | the header reader of version 2 stops exactly in front of the message set |
| `Fetching.HeaderV5Carries` | read.go:371-460 | the header reader of version 5 stops exactly in front of the message set |
| `Fetching.OldCloses` | batch.go:61-93 | on arbitrary bytes of the older formats, after any calls, closing the batch leaves the connection exactly behind the response |
| `Fetching.NewCloses` | batch.go:61-93 | on record batches, after any calls: closing leaves nothing of the response if and only if the batch has ended, nothing was read, or the record batch of the message returned last is plain or the last one |
| `Requests.Sizeof` | sizeof.go:9-65 | for every field, nested arrays included, the size computed is the number of bytes written |
| `Requests.SizeofRow` | sizeof.go:9-65 | for any run of fields the size is the length of what is written |
| `Requests.WriteRow` | fetch.go:16-52 | writeTo appends the fields in order |
| `Requests.WriteRequest` | conn.go:1072-1078 | header and struct, with a size field that does not count itself |
| `Requests.SizeCountsRest` | protocol.go:50-60 | the size field of a request counts exactly the bytes after it |
| `Requests.Milliseconds` | time.go:29-37 | beyond an int32 of milliseconds the nearest bound, and else the duration rounded towards zero |
| `Requests.WriteFetchRequestV2` | write.go:136-170 | emits the bytes that writeRequest emits for the struct of fetch.go |
| `Requests.WriteFetchRequestV5` | write.go:172-212 | emits the request with all its fields, counted exactly by its size field |
| `Requests.FetchV5Bytes` | write.go:172-212 | the request byte by byte: no replica, the limits, the isolation level, one topic, one partition, no log start offset |
| `Requests.WriteListOffsetRequestV1` | write.go:214-242 | emits the bytes that writeRequest emits for the struct of listoffset.go |
| `RequestStructs.SetSize` | message.go:97-108 | size() of a message set is the length of what writeTo writes |
| `RequestStructs.PartitionSize` | produce.go:42-50 | the hand-written size() of the fetch, list-offset and produce partitions is the length of what writeTo writes |
| `RequestStructs.TopicSize` | fetch.go:28-37 | size() of a topic, over any partitions, is the length of what writeTo writes |
| `RequestStructs.StructSize` | fetch.go:12-21 | the hand-written size() of the three requests, over any topics, is the length of what writeTo writes |
| `RequestStructs.WriteStruct` | conn.go:1072-1078 | the size field filled from the own size() of a struct counts exactly the bytes after it |
| `RequestStructs.FetchIsStruct` | write.go:136-170 | what the hand-written fetch writer emits is this struct |
| `RequestStructs.ListOffsetIsStruct` | write.go:214-242 | what the hand-written list-offset writer emits is this struct |
| `RequestStructs.ProduceIsStruct` | write.go:244-288 | what the hand-written produce writer emits without compression is this struct with its message set size |
| `ProduceRequests.Crc32OfMessage` | crc32.go:10-22 | the running sum over the pieces is the checksum of their concatenation |
| `ProduceRequests.SealedChecks` | message.go:56-77 | the checksum in a message is that of exactly the serialised bytes after it |
| `ProduceRequests.AfterCrcIs` | message.go:60-93 | the message size counts the bytes after it, and the checksummed bytes are those from the sixteenth on |
| `ProduceRequests.WriteMessage` | write.go:492-505 | appends the message set item with its checksum |
| `ProduceRequests.MessageSetSize` | write.go:364-376 | the size computed is the length of the message set |
| `ProduceRequests.SetBytesPlain` | message.go:104-108 | an uncompressed set is the message set that the old reader is proved to read back |
| `ProduceRequests.Compress` | write.go:469-488 | one message without key and time holds the compressed set, numbered from zero |
| `ProduceRequests.WriteProduceRequestV2` | write.go:244-288 | emits the bytes that writeRequest emits for the struct of produce.go, the message set plain or wrapped |
| `CompressedSets.PlainItems` | write.go:244-288 | without a codec the request carries plain messages, each sealed with its own checksum |
| `ProduceRequests.WriteProduceRequestV3` | write.go:290-362 | emits the request around the record batch, compressed or not, counted exactly by both size fields |
| `CompressedSets.ProducesWrapper` | write.go:469-488 | with compression a produce request carries the bytes of one wrapper, and a broker that gives it another offset changes its first eight bytes only |
| `CompressedSets.ProducedIsServed` | write.go:244-288 | messages compressed, produced, stored from any offset on and fetched again are served in order at consecutive offsets with their own times, keys and values, and the wrapper is consumed exactly |
| `Responses.ProduceLeftover` | conn.go:1011-1044 | a produce response is read to its end if and only if the broker reports no error; else the four bytes of the throttle time are left |
| `Responses.FetchV2Leftover` | read.go:309-369 | the bytes left by the header reader are the message set, also when the broker reports an error |
| `Responses.FetchV5Leftover` | read.go:371-460 | with a broker error the size of the message set is left too, so never nothing |
| `Responses.AbortedCounts` | read.go:424-438 | no aborted transactions, as nil or as an empty list, are read as such; a count below -1 panics |
| `Responses.ReadProduceConserves` | conn.go:1011-1044 | on arbitrary bytes the reader of a produce response accounts for every byte, with all its nested arrays |
| `Responses.ReadFetchV2Conserves` | read.go:309-369 | the same for the fetch header of version 2 |
| `Responses.ReadFetchV5Conserves` | read.go:371-460 | the same for the fetch header of version 5 |
| `Responses.AbortedArrayConserves` | read.go:424-438 | the same for the aborted transactions, also when their array is null |
| `Responses.ResponsesConsume` | conn.go:1121-1143 | on a connection, reading any of these responses from arbitrary bytes is a step the multiplexer allows |
| `Responses.ProduceErrorStalls` | conn.go:1011-1044 | a whole run: a produce request answered with an error ends, and the next operation, answered too, polls without progress |
| `Responses.FetchErrorStalls` | read.go:371-460 | a whole run: a fetch of version 5 answered with an error leaves the size of the message set, and the next operation, answered too, polls without progress |
| `Responses.ReadProduceFrom` | conn.go:1011-1044 | the nested array loops end as specified |
| `Responses.ReadFetchV2From` | read.go:309-369 | the header reader ends as specified, with each mismatch error |
| `Responses.ReadAbortedFrom` | read.go:424-438 | the loop over aborted transactions ends as specified; the null array is allowed |
| `Responses.ReadFetchV5From` | read.go:371-460 | the header reader ends as specified, with each mismatch error |
| `Connection.Multiplexes` | conn.go:1121-1189 | in every interleaving, with readers that leave no bytes or fail with something else than a broker error: unless Close was called or an operation failed like that, the connection is open, every operation has consumed nothing but its own response, and the stream is on a frame boundary whenever the read lock is free |
| `Connection.ClosedIff` | conn.go:1132-1138 | in every run, whatever the readers do, the connection is closed if and only if Close was called or some operation ended with something else than success or a broker error |
| `Connection.NextServed` | conn.go:1121-1189 | in every state of an open connection with the read lock free, the operation whose response comes next can read all of it, and the connection closes exactly when it then fails with something else than a broker error |
| `Connection.RoundTrip` | conn.go:1121-1189 | on an idle connection a request can get exactly the answer to it, and leaves the connection idle on a frame boundary, open unless it failed |
| `Connection.MultiplexesClosed` | conn.go:1121-1189 | with readers that never leave bytes the same holds on a closed connection |
| `Connection.PeekInStep` | conn.go:1163-1189 | of all waiting operations only the one whose response is next takes it, and it takes exactly the header |
| `Connection.FinishBoundaryIff` | conn.go:1132-1142 | releasing the read lock leaves the stream on a frame boundary if and only if no byte of the response is left |
| `Connection.ReaderConsumes` | conn.go:1121-1143 | a reader that accounts for every byte of its frame is a step of its operation and takes bytes of its own response only |
| `Connection.IdsDiffer` | conn.go:1145-1149 | correlation ids repeat only 2^32 requests apart |
| `Connection.LeftoverMisleads` | conn.go:1163-1189 | after four left-over bytes the next operation takes the size of the next frame for its id: it reads if and only if they are equal, and else polls without progress |
| `Connection.SecondPolls` | conn.go:1163-1189 | a run from the start in which four bytes left by one operation stall the next |
| `Connection.LeftoverTaken` | conn.go:1132-1142 | left-over bytes that look like a frame of a waiting operation are taken by it, even after the connection was closed |
| `Batches.CallsDeliver` | batch.go:149-229 | any number of calls return the messages at or past the fetch offset, in order, then one error for good; the offset is one past the last message |
| `Batches.ErrorsAreSticky` | batch.go:197-199 | once a call failed, every later call returns the same error and changes nothing |
| `Batches.ResumesBelowIff` | batch.go:167-181 | the offset falls below the fetch offset if and only if a response of the newer format ends before it |
| `Batches.SessionInOrder` | batch.go:61-93 | over successive fetches offsets strictly increase from the first one and the connection resumes one past the last message, if no response ends before the offset asked for |
| `Batches.Redelivers` | batch.go:167-181 | a response that does end early makes the next fetch deliver a message below the offset asked for |
| `Batches.Source.ReadMessage` | message.go:117-132 | the older reader passes over messages below the minimum, the newer one does not |
| `Batches.Batch.ReadStep` | batch.go:193-229 | fields and reply after one message or one error, as specified |
| `Batches.Batch.ReadMessage` | batch.go:149-191 | the skipping loop ends as specified |
| `Batches.Batch.ReadInto` | batch.go:105-147 | a value that fits comes with its size; one that does not rolls the offset back and ends the batch with a short buffer |
| `ValueCopy.CopiesValue` | batch.go:117-132 | a value within its response fills the buffer as far as there is room and is taken off the stream whole, whatever follows it; a nil value takes nothing |
| `ValueCopy.CopyBoundedIff` | batch.go:117-132 | under the newer format the copy into the buffer stays within the response if and only if the part of the value that fits the buffer does, or nothing follows; else it takes bytes of the next response and then fails |
| `ValueCopy.TakesNext` | batch.go:117-132 | three bytes left and a value of five: two bytes of the next response are gone |
| `Batches.Batch.Close` | batch.go:61-93 | the offset is published, the lock released, and the connection closed unless the error is from the broker or a short buffer |
| `Batches.Conn.Offset` | conn.go:548-564 | a symbolic offset is reported relative to the start or the end |
| `Batches.Conn.Seek` | conn.go:579-620 | the target is the offset given, or that from the first, the last or the current offset; it succeeds if and only if the target is within the range of the partition, or absolute and where the connection is already; then the connection is there, and else it stays and the error is out of range or that of the lookup |
| `Batches.Conn.StartBatch` | conn.go:701-783 | a symbolic offset becomes the first or last of the partition; each of the three errors gives a batch that returns it, with or without the connection |
| `ReaderProtocol.Safety` | reader.go:1274-1322 | in every run a message returned without error was sent by a generation no older than the version captured, and a call that moved the offset did so with a message of the generation then current |
| `ReaderProtocol.OffsetIs` | reader.go:1274-1322 | in every run the offset is the one set last while the reader was open, or one past the last message returned without error to a call of the then current version, whichever came later; in the latter case that message is of the generation current even now |
| `ReaderProtocol.RestartsIff` | reader.go:1475-1501 | after any run SetOffset(o) starts a generation if and only if the reader is open, was started and does not stand at o |
| `ReaderProtocol.CloseStops` | reader.go:1222-1241 | after Close, whatever happens, no generation is started any more and no subreader connects |
| `ReaderProtocol.ExactlyOnce` | reader.go:1274-1322 | in every run messages leave the channel in the order they entered it, what is returned was sent, no two returns are of one message, and none of the current generation is lost |
| `ReaderProtocol.InOrder` | reader.go:1885-1942 | in every run the messages of a subreader come back, in channel order, at strictly ascending offsets between two moves, and never below the lowest offset it was started at or moved to |
| `ReaderProtocol.OffsetsKept` | reader.go:1684-1835 | every action, be it dialing, losing the connection, a seek, a seek that fails or a response that ends early, keeps what was sent between the lowest offset of its subreader and what that reads next |
| `ReaderOffsets.AfterSetOffset` | reader.go:1475-1501 | after SetOffset(o), until it is called again, a call that captured a later version returns an error or a message no lower than o and all the offsets its subreader was moved to |
| `ReaderOffsets.SetOffsetHoldsIff` | reader.go:1475-1501 | after any run and SetOffset(o): every continuation in which the new subreaders are moved in given ways returns only offsets from o on to later calls if and only if none of these ways leads below o |
| `ReaderOffsets.GoesBack` | reader.go:1786-1808 | three runs in which a call after SetOffset(5) returns a message below: a seek to the first offset, a response that ends with offset 1, and a seek that fails |
| `ReaderOffsets.FetchIsRun` | reader.go:1885-1942 | whatever ascending messages a response holds and however it is read, what a batch delivers and where its connection resumes is a run of the protocol |
| `ReaderProtocol.SubsKept` | reader.go:1622-1656 | a subreader that can connect carries the version of its own generation, although it reads the version unsynchronised |
| `ReaderProtocol.MsgsKept` | reader.go:1949-1965 | every message sent without error is tagged with the generation of its sender |
| `ReaderProtocol.MovesKept` | reader.go:1298-1305 | every action moves the offset as the last effective SetOffset or return says, and not otherwise |
| `ReaderProtocol.Kept` | reader.go:1222-1241 | the whole invariant survives every action, Close included |
| `ReaderProgress.Fetches` | reader.go:1274-1322 | in every state with the mutex free, when the first message of the current version is behind k older ones in the channel, a call can return it and moves the offset behind it unless it is an error; the older ones are gone then and nothing else has changed |
| `ReaderProgress.ErrorReaches` | reader.go:1958-1965 | in every run an error that a subreader of the current version sends can reach a call, and leaves the offset as it is |
| `ReaderProgress.GivesUp` | reader.go:1287-1289 | a call whose context is done is gone, and what it waited for is there for the next |
| `ReaderProgress.GoesOn` | reader.go:1684-1835 | in every run a subreader can send exactly from the offset on to which its own connections, messages and moves have led it since its generation was started at the offset of the reader, and can connect again exactly from the offset on at which it would go on |
| `ReaderProgress.Closes` | reader.go:1222-1241 | whenever the mutex is free a reader can be closed; then its context is cancelled, SetOffset does nothing and no first fetch starts it |
| `GroupLifecycle.Safety` | reader.go:807-885 | in every run no loop and no subreader is alive while a join is under way, no two loops of a kind are alive, and every heartbeat, commit and delivery belongs to the membership of the last join |
| `GroupLifecycle.WorkersKept` | rungroup.go:36-61 | every action keeps the loops within their handshake, with the membership it obtained: the group loop goes on only when the wait group is at zero |
| `GroupLifecycle.CountedKept` | rungroup.go:36-61 | every action keeps the wait group at the number of loops alive, and a stopping group cancelled |
| `GroupLifecycle.CancelKept` | rungroup.go:51-61 | every action keeps a run group in use cancelled if and only if one of its loops has ended or the subscription failed |
| `GroupLifecycle.CancelledDrains` | rungroup.go:30-61 | in every state in which a cancelled run group is waited for, the loops can end one after another without help and the wait is over |
| `GroupLifecycle.OneEndDrains` | rungroup.go:51-61 | in every run: while the group loop waits, the end of any one loop since the last sync has cancelled the group, and the others can end without a failure of their own until the wait is over |
| `GroupLifecycle.Recovers` | reader.go:807-885 | in every run of a reader not being closed that waits for a cancelled group: it can come to wait for the next one under whatever membership it is granted, having sent only the join request of the member it is, with exactly the new loops and subreaders alive, these in a context that is not cancelled |
| `GroupLifecycle.FailureRejoins` | reader.go:807-885 | whatever fails in a handshake, a reader that is not stopped can join again, under the member id it has unless the coordinator disowned it, having sent only the leave request of that failure |
| `GroupLifecycle.FailureStops` | reader.go:807-885 | a reader that is stopped ends after any failure, and leaves the group if and only if the handshake had a connection |
| `GroupLifecycle.CloseEnds` | reader.go:1222-1241 | from every state in which it waits, Close lets the group loop end, with one leave request and nothing else sent |
| `GroupLifecycle.LoopSends` | reader.go:570-616 | a loop that is alive can send its request under the membership it reads; the heartbeat loop alone sends none while the reader is no member |
| `GroupLifecycle.SubsKept` | reader.go:470-527 | every action keeps the subreaders within the membership they were started for |
| `GroupLifecycle.LogKept` | reader.go:297-449 | every action sends only what the active membership allows |
| `GroupLifecycle.ActiveKept` | reader.go:408-428 | while loops may run, the membership in the reader is that of the last join |
| `OffsetStash.MergedIsHighest` | reader.go:680-692 | merging gives every partition the highest of its stashed and new offsets, and touches no other |
| `OffsetStash.MergeOrderIndependent` | reader.go:680-692 | the order and repetition of commits make no difference |
| `OffsetStash.MergeInto` | reader.go:680-692 | the loop computes the merge |
| `OffsetStash.MakeCommits` | commit.go:13-32 | one commit per message, of its topic and partition and the offset one past it |
| `OffsetStash.Reader.CommitOffsets` | reader.go:618-651 | an empty stash sends nothing and succeeds; else it succeeds if and only if the coordinator accepts the request with the whole stash |
| `OffsetStash.Reader.CommitOffsetsWithRetry` | reader.go:655-674 | succeeds if and only if the stash is empty or an attempt is accepted before the attempts are used up or the reader is stopped; then exactly one request was accepted, and else none |
| `OffsetStash.GrantedIff` | reader.go:655-674 | an attempt is granted in time if and only if, attempt by attempt, the first succeeds, or the pause is not cut short and the next ones are granted with one retry less |
| `OffsetStash.Reader.CommitStash` | reader.go:724-730 | the stash is cleared exactly when a request with the whole of it was accepted |
| `OffsetStash.Reader.Interval` | reader.go:720-745 | over any requests, ticks, failures and restarts the loop does what the specification of NothingLost and GrantedStoresAll says |
| `OffsetStash.NothingLost` | reader.go:720-745 | over any requests, ticks, failed commits and restarts, every message passed to CommitMessages waits in the channel, or the stash or an accepted request resumes its partition behind it; and every offset committed is one past such a message |
| `OffsetStash.GrantedStoresAll` | reader.go:720-745 | after any run, once the channel is taken, one commit granted in time stores everything: the stash is empty and each message read has an accepted request that resumes its partition behind it |
| `OffsetStash.Reader.Immediate` | reader.go:702-716 | nil is replied exactly when there is nothing to commit or an attempt is accepted in time; that request resumes every partition one past the last of its messages, and no other partition |
| `GroupBalancer.ExactlyOne` | groupbalancer.go:60-134 | both balancers give each partition of a subscribed topic to exactly one member, one that subscribes to it, and nothing else to anybody |
| `GroupBalancer.FairShares` | groupbalancer.go:60-134 | no member gets two more partitions of a topic than another, and range shares are blocks |
| `GroupBalancer.RangeBlock` | groupbalancer.go:76-83 | the share of a position in the range policy is a contiguous block between two bounds |
| `GroupBalancer.OrderIndependent` | groupbalancer.go:149-176 | the same members in any order are given the same partitions |
| `GroupBalancer.SortedUnique` | groupbalancer.go:169-173 | there is one sorted arrangement of the member ids, so the order of arrival cannot matter |
| `GroupBalancer.FindPartitions` | groupbalancer.go:138-146 | the loop collects the partitions of the topic in order, all of them and no others |
| `GroupBalancer.FindMembersByTopic` | groupbalancer.go:149-176 | the map lists the subscribers of every topic, sorted, once per mention |
| `GroupBalancer.TakeShare` | groupbalancer.go:76-83 | the innermost loop appends exactly the share of the member |
| `GroupBalancer.AssignTopic` | groupbalancer.go:64-85 | after the loop every member has its share of the topic and nothing else changed |
| `GroupBalancer.AssignGroups` | groupbalancer.go:60-134 | every member ends up with what it is granted of every topic, whatever the order of the map |
| `Assignment.AssignmentRoundTrip` | syncgroup.go:24-56 | an assignment written in any order of its topics is read back, to the last byte |
| `Assignment.MetadataRoundTrip` | joingroup.go:27-52 | the topics a member announces are the topics the leader sees |
| `Assignment.MetadataSize` | joingroup.go:21-25 | the size of the metadata is the number of bytes written |
| `Assignment.DecodedIsGiven` | reader.go:361-396 | the payload of a member decodes to what the leader gave it |
| `Assignment.SubscriptionsCover` | reader.go:361-396 | after encoding in any order and decoding, every partition of a subscribed topic is held by exactly one member |
| `Assignment.WriteAssignment` | syncgroup.go:24-34 | the loop over the map writes the assignment in some order |
| `Assignment.WriteInt32Array` | write.go:94-107 | count and elements, in order |
| `Assignment.ReadInt32ArrayFrom` | read.go:147-162 | the loop of readArrayWith ends as specified |
| `Assignment.ReadMapFrom` | read.go:182-214 | the loop over the map entries ends as specified |
| `Assignment.ReadInt32ArrayConserves` | read.go:148-162 | on arbitrary bytes readArrayWith accounts for every byte, whatever count it finds |
| `Assignment.ReadStringArrayConserves` | read.go:164-180 | the same for arrays of strings |
| `Assignment.ReadMapConserves` | read.go:182-214 | the same for maps of arrays |
| `Assignment.ReadAssignmentConserves` | syncgroup.go:36-56 | the same for a whole assignment |
| `Assignment.ReadAssignmentNeeds` | syncgroup.go:36-56 | an empty payload assigns nothing, and any other that can be read holds at least ten bytes |
| `Assignment.ReadMetadataConserves` | joingroup.go:33-52 | the same for the metadata of a member |
| `Assignment.AssignmentSize` | syncgroup.go:14-34 | size() of an assignment is two less than the bytes written, in whatever order its map is traversed |
| `PartitionWriter.RunKeeps` | writer.go:619-711 | what was flushed, is batched or is held over is exactly what arrived outside the dropping branch, in order, dropped messages or not |
| `PartitionWriter.RunPasses` | writer.go:619-711 | over any events the loop, with its timer and its held-over message, does what a plain buffer does that sends all that is pending when closed, at a tick, ahead of a message that does not fit and with one that fills it |
| `PartitionWriter.TickFlushes` | writer.go:676-709 | in every run of an open writer, what is batched or held over with a value has an armed timer behind it when the loop blocks, and the next tick hands over all of it as one batch |
| `PartitionWriter.LeavesOnly` | writer.go:644-709 | in every run of an open writer, one more event sends a batch if and only if something is pending and it is the end, a tick or a message that does not fit, or a message fills what is pending; else all that is pending stays |
| `PartitionWriter.KeptArrivals` | writer.go:644-653 | what arrived is what was kept and what was dropped shuffled into one another, each in order, and with none dropped all is kept |
| `PartitionWriter.CloseFlushesAllIff` | writer.go:619-711 | a closed loop handed over exactly the kept messages in order, each with its reply channel: all of them if and only if none with an empty value was held over |
| `PartitionWriter.ValuesAreKept` | writer.go:644-653 | as long as every message has a value, none is dropped |
| `PartitionWriter.DroppedMessage` | writer.go:644-664 | a message without value that does not fit the batch never leaves the loop |
| `PartitionWriter.BatchesWithinLimits` | writer.go:619-711 | every batch respects the count and the byte limit, and the loop never blocks on a non-empty batch without an armed timer |
| `PartitionWriter.Batcher.Execute` | writer.go:619-711 | over any events the loop does what the specification says, answers what it hands over once, in order and on its own channel, and acknowledges exactly the batches that the broker came to hold |
| `PartitionWriter.Batcher.Receive` | writer.go:654-679 | one event received and the decision to flush are those of the specification, of which RunPasses says what it means |
| `PartitionWriter.Batcher.Handle` | writer.go:644-709 | one pass: the state of the specification, and answers for exactly the batch handed over |
| `PartitionWriter.Batcher.Send` | writer.go:681-709 | the batch goes to the broker, every message gets its reply on its own channel, the variables are reset, and the connection is kept if and only if the batch was written |
| `Sender.Write` | writer.go:727-825 | every pass but the last fails with an error that is temporary or needs a reconnect; the last leaves the batch with the broker, or fails otherwise, or is pass max(retries, 0) + 1; a pass dials exactly when the one before lost the connection; nil is replied, once per message, exactly when the broker holds the batch |
| `Delivery.Pipeline.Move` | writer.go:443-498 | whatever happens next, of all callers, the router and the partition writers, every queued message waits, is in a writer, was answered once or was dropped, and what was acknowledged is what brokers hold |
| `Delivery.Pipeline.Route` | writer.go:483-492 | a waiting message is passed to an open writer or back to its caller |
| `Delivery.FeedBalanced` | writer.go:619-711 | a pass of one writer, whatever the broker answers, keeps that balance |
| `Delivery.QuietAnswersAll` | writer.go:619-711 | when nothing waits and all writers ended, every message was answered once or dropped, never both |
| `Delivery.ChannelBalance` | writer.go:340-358 | a reply channel never gets more replies than it has messages, and one fewer for each message dropped |
| `Delivery.NeverBlocks` | writer.go:299 | in every state of the pipeline no channel has more replies to read than its capacity, so no writer blocks on one: calls that are cancelled or asynchronous included |
| `Delivery.Pipeline.NewChannel` | writer.go:299 | a channel is made with its capacity and nothing on it |
| `Delivery.Pipeline.Enqueue` | writer.go:322-330 | a message is handed over with a channel that has room for its reply |
| `Delivery.Pipeline.Pass` | writer.go:619-711 | a pass of one writer puts its replies without exceeding the capacity of any channel |
| `Delivery.Pipeline.Take` | writer.go:342-344 | the next reply is read from a channel |
| `Delivery.AllAnswered` | writer.go:340-358 | a channel with as many replies as messages has one for each, and none of its messages was dropped |
| `Delivery.AckedIsHeld` | writer.go:745-825 | the messages acknowledged on a channel are those of its messages that brokers hold |
| `Producer.SendAll` | writer.go:312-334 | everything not too large is handed to the router on the channel of the call, unless the context ends before one of these; with room for all of it the channel never lacks any |
| `Producer.ReceiveAll` | writer.go:340-358 | one reply is read for each message sent, unless the context ends, the messages of the failed ones are collected in order, and then no reply is left unread; it waits only while there is none |
| `Producer.Attempt` | writer.go:305-358 | one attempt over the running pipeline keeps acknowledged and still to be sent together at what the call was given, and ends early exactly for the writer being closed, the context, or an asynchronous writer |
| `Producer.Pause` | writer.go:364-381 | the call goes on if and only if the timer fires and attempts are left, and else fails for the reason that ended the pause |
| `Producer.RetryIsSendable` | writer.go:342-358 | what comes back for a retry was not too large |
| `Producer.RoomFor` | writer.go:299-303 | replies on a channel, together with the messages dropped, never outnumber the messages sent with it |
| `Producer.DroppedWaits` | writer.go:340-358 | a call one of whose messages was dropped lacks a reply, however long the pipeline runs |
| `Producer.WriteMessages` | writer.go:294-386 | a synchronous call with an attempt that returns nil finds every message that is not too large in the batches that the brokers came to hold, exactly as often as passed, and none dropped; every retry sent exactly what had failed; it fails only after the last attempt left something over, or because the writer is closed or the context ends; however it returns, no channel holds more replies than its capacity, that of the call being the number of its messages |
| `Router.SearchInts` | writer.go:538-545 | the binary search finds the first position at which the number could be |
| `Router.Diffp` | writer.go:538-545 | on a sorted list the result is the set difference, in order |
| `Router.MissingElements` | writer.go:538-545 | as sets, it is the difference, without repetition |
| `Router.ClosedOnce` | writer.go:526-536 | in a safe trace a writer is closed once, or not at all while it is open |
| `Router.Router.Rebalance` | writer.go:455-473 | the keys of the writer map become the partitions found, and writers that stay are not reopened |
| `Router.Router.Route` | writer.go:483-492 | a message goes to the open writer of the partition selected, or back when there is no partition; a selection without a writer crashes the loop |
| `Router.Router.Shutdown` | writer.go:477-482 | every writer ever opened has been closed exactly once |
| `Router.Router.Run` | writer.go:443-498 | over any events and selections the loop does not crash if and only if every selection is in the list of that moment; then all messages are dealt with in order, none by a closed writer, and every writer opened is closed exactly once |
| `Router.HashRoutesIff` | balancer.go:137-160 | Hash selects only existing partitions if and only if they are numbered 0 to n - 1 |
| `Router.RoundRobinListed` | balancer.go:44-49 | the selections of RoundRobin are always in the list of their moment, however the lists change |
| `Router.HashNeverCrashesIff` | balancer.go:137-160 | with Hash, whatever the keys, a run does not crash if and only if every list used is 0 to n - 1 |
| `Router.HashSelectsNone` | balancer.go:137-160 | a run with partitions 1 and 2 and a key of hash 0 that crashes |
| `LeastBytesRuns.LeastBytesIff` | balancer.go:67-111 | with LeastBytes, whatever the sizes, a run selects only listed partitions if and only if at each choice from a list that has shrunk every partition that is gone lies behind more positions of the counters than choices were made since they were built |
| `Router.LeastBytesSelectsGone` | balancer.go:67-88 | two messages of ten bytes with the list shrinking between them: the partition that is gone is selected |
| `Balancer.LeastBytes.Has` | balancer.go:90-98 | the binary search finds the counter if and only if there is one |
| `Balancer.LeastBytes.Balance` | balancer.go:67-88 | the counters are rebuilt if and only if a partition has none; the first smallest grows by the size |
| `Balancer.MakeCounters` | balancer.go:100-111 | one zero counter per partition, sorted |
| `Balancer.Route` | balancer.go:67-111 | over any messages on fixed partitions the counters add up to all bytes and differ by at most the largest message |
| `Balancer.SelectsListedIff` | balancer.go:67-88 | whatever the counters, the partition selected is one of the list if and only if the list did not shrink |
| `Balancer.RoundRobin.Balance` | balancer.go:44-49 | the partition at the counter modulo the list, and the counter moves by one with its wrap-around |
| `Balancer.RoundRobinFair` | balancer.go:44-49 | over any number of calls two indices are chosen equally often, up to one |
| `Balancer.Spread` | balancer.go:44-49 | over a run of Balance calls on one list any two partitions are chosen equally often, up to one, and exactly so after whole rounds |

## Left out

- Dialing, TLS, SASL, host lookup and the network itself: dialing appears only as a step that fails or succeeds.
- The compression libraries: a codec is an abstract pair of functions, and encoding never fails.
- The CRC polynomials and the FNV hash: any byte step and any 32-bit hash value.
- Time: deadlines, tickers, backoff and timeouts are events or boolean arguments that may come out either way.
- Reflection in `read`, `readStruct` and `readSlice`: the concrete fields they read are modelled instead.
- The other request and response structs, statistics, loggers, configuration defaults and error texts: they would only add easy members.
- The broker: it may answer anything, but the messages of one response ascend; in `CompressedSets` it stores a wrapper under another offset, and in `Sender` it holds what it confirmed, while a request whose answer was lost may have been stored besides.
- Batches.Batch.ReadInto: the values are those of the messages; the bytes under the newer format are in ValueCopy.
- Batches.Source.ReadMessage: the reader is a sequence of messages here; Fetching.CallsMatch proves that a batch over the bytes does the same.
- MessageSetReader.MessageSetReaderV1.ReadMessage: speaks of any number of passes and not of termination, because the loop of the original need not end, as MessageSetProofs.NeverReturns shows.
- RecordBatchWriter.WriteRecordBatch: sizes are unbounded; the original counts in int32, which holds whenever the request does.
- ReaderProtocol.Safety: the protocol is modelled on values, one step per critical section, for readers outside a consumer group; that Close closes the channel, lag and statistics are not part of it.
- GroupLifecycle.Safety: the loop is modelled on values, one step per critical section or message.
- Connection.Multiplexes: the polling loop and the locks are steps of a state machine on values; that a scheduler takes the steps that NextServed finds is not stated.
- Router.Router.Run: the partition lists found are duplicate free, as a broker's are, and messages are numbers; that a missing writer crashes the original stands for a send on its nil writer.
- Delivery.Pipeline.Route: any open writer may be chosen; the choice itself is in Router and Balancer.
- Producer.WriteMessages: says nothing of asynchronous calls beyond the hand-over, and waiting for a reply may end with the context.
- OffsetStash.Reader.Interval: the channel of commit requests is unbounded, and generation and member are those of GroupLifecycle.
- Balancer.Route: the total of all message sizes stays below 2^64, where the counters of the original would wrap.
- Balancer.RoundRobinFair: the call counter does not pass 2^64.

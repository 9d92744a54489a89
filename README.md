# ByteArrayEndPoint in Dafny

A model of Jetty's in-memory test endpoint, `ByteArrayEndPoint`, with proofs
of what its operations promise. The endpoint has two sides:

- **Input.** Producers queue byte buffers with `addInput` (and signal end of
  stream by queueing a distinguished empty buffer, the EOF marker). The
  protocol consumer calls `fill`, which drains the queue into the caller's
  buffer and returns a byte count, `0` for "nothing yet" or `-1` for end of
  stream.
- **Output.** `flush` appends the caller's buffers to one output buffer,
  stopping at the first buffer that does not fit. With growth enabled the
  output is compacted, or replaced by a larger copy, so that everything fits.
  `takeOutput`, `setOutput` and `reset` swap or clear the output.

Files:

- `buffers.dfy` (module `Buffers`): byte buffers in flush mode. A `Slice` is a
  buffer that is only read from (queued input chunks, the buffers given to
  flush). The `Buffer` class is one written in place: a fixed array, a
  position and a limit, with the helpers the endpoint calls (append, compact,
  clear).
- `input_queue.dfy` (module `InputQueue`): the queue as a value. `Drain` is
  fill's loop as a function. `Pending` is the byte stream the queue still
  holds. The lemmas state what fill and addInput promise the consumer:
  - order is preserved over any sequence of fills;
  - enough fills deliver everything;
  - end of stream is sticky;
  - the wake-up callback runs once per batch.
- `output_flush.dfy` (module `OutputFlush`): what flush does to its buffers, as
  values. `Concat` is their unread bytes as one stream. `Consume(bs, k)` is
  the buffers after the first `k` bytes of that stream were read.
- `endpoint.dfy` (module `EndPoint`): the `ByteArrayEndPoint` class. Its fields
  are the queue, the output buffer, the growth flag and the lifecycle state.
  Ghost counters record the fill-interest callbacks, idle-tracker
  notifications and write completions. Each method is proved against the
  functions above.
- `scenario.dfy` (module `Scenarios`): the endpoint driven the way its
  clients' tests drive it, with the outcomes stated as postconditions.

Buffer conventions: a buffer's content lies between its position and its
limit, and its free space is capacity minus limit. `append` copies
`min(space, remaining)` bytes and advances the source. `compact` moves the
content to index 0. `clear` empties the buffer.

The lifecycle (open, input shut, output shut) belongs to the endpoint's base
class, `AbstractEndPoint`, which is not part of this model. It is modelled by
the `Lifecycle` value:

- shutting one direction down when the other is already shut closes the
  endpoint;
- `reset` reopens both directions.

Where the code and its documented intent disagree, the model follows the code:

- addInput refuses input only when the EOF marker is at the **head** of the
  queue (line 178). Input queued behind a marker that still has data in front
  of it is accepted and is then never read. `InputQueue.InputBehindEofIsLost`
  and `Scenarios.InputBehindEndOfStream` state this.
- addInput does not check whether the endpoint is closed.
- Queueing the EOF marker always runs the fill-interest callback, whatever the
  queue held.
- hasMore is documented as "bytes remaining to be read" (line 303) but tests
  only whether the output's position is past 0 (line 307). A flush leaves the
  position where it was (0 for a newly allocated, taken or reset output), and
  a growth flush that runs out of room sets it to 0, so bytes flushed and not
  yet taken can sit in the output while hasMore is false.
  `Scenarios.UnreadOutputIsNotMore` and `Scenarios.GrowthReplacesOnce` state this.

## Model

Source paths are relative to the repository root.

| member | source | states |
|---|---|---|
| Buffers.Buffer.Allocate | jetty-io/src/main/java/org/eclipse/jetty/io/ByteArrayEndPoint.java:266 | a new buffer on a fresh array of the requested capacity, position 0 and no content |
| Buffers.Buffer.Append | jetty-io/src/main/java/org/eclipse/jetty/io/ByteArrayEndPoint.java:340 | copies exactly min(free space, source remaining) bytes, in order, after the existing content; returns that count and the source advanced by it; position unchanged |
| Buffers.Buffer.Compact | jetty-io/src/main/java/org/eclipse/jetty/io/ByteArrayEndPoint.java:377 | same content, now starting at index 0, so the free space grows by the old position |
| Buffers.Buffer.Unread | jetty-io/src/main/java/org/eclipse/jetty/io/ByteArrayEndPoint.java:381 | the buffer read as a source: its remaining bytes are exactly its content |
| Buffers.Buffer.SkipAll | jetty-io/src/main/java/org/eclipse/jetty/io/ByteArrayEndPoint.java:381 | appending the whole old output to the new one leaves the old one with nothing unread |
| Buffers.Buffer.Clear | jetty-io/src/main/java/org/eclipse/jetty/io/ByteArrayEndPoint.java:411 | position 0 and no content |
| InputQueue.Drain | jetty-io/src/main/java/org/eclipse/jetty/io/ByteArrayEndPoint.java:320-346 | fill's loop: the result is -1, or between 0 and both the free space and the pending byte count; the queue never grows |
| InputQueue.DrainCount | jetty-io/src/main/java/org/eclipse/jetty/io/ByteArrayEndPoint.java:328-343 | fill gives -1 exactly when the EOF marker comes before any queued byte, otherwise min(space, content of the first non-empty buffer), so 0 on an empty queue |
| InputQueue.DrainStream | jetty-io/src/main/java/org/eclipse/jetty/io/ByteArrayEndPoint.java:331-345 | a count n leaves pending exactly the stream minus its first n bytes; -1 leaves nothing pending and the marker at the head of a suffix of the queue |
| InputQueue.DrainHead | jetty-io/src/main/java/org/eclipse/jetty/io/ByteArrayEndPoint.java:338-343 | a head with content gives min(space, remaining) bytes, which start the pending stream, and is dropped only once drained |
| InputQueue.DrainAtEofIsStable | jetty-io/src/main/java/org/eclipse/jetty/io/ByteArrayEndPoint.java:332-336 | after fill meets the marker, any later drain meets it again and leaves the queue as it is |
| InputQueue.ReadyMeansProgress | jetty-io/src/main/java/org/eclipse/jetty/io/ByteArrayEndPoint.java:155-157 | when the head is ready (content or marker), a fill into a buffer with room does not return 0 |
| InputQueue.DrainSplitsStream | jetty-io/src/main/java/org/eclipse/jetty/io/ByteArrayEndPoint.java:338-345 | the bytes one fill delivers followed by what stays pending are the bytes pending before |
| InputQueue.FillsPreserveOrder | jetty-io/src/main/java/org/eclipse/jetty/io/ByteArrayEndPoint.java:315-354 | over any sequence of fills of any sizes, the bytes delivered followed by the bytes still pending are the original stream |
| InputQueue.FillsDeliverAll | jetty-io/src/main/java/org/eclipse/jetty/io/ByteArrayEndPoint.java:315-354 | as many fills into buffers with room as there are pending bytes deliver the whole stream, in order |
| InputQueue.EnqueueExtendsStream | jetty-io/src/main/java/org/eclipse/jetty/io/ByteArrayEndPoint.java:186-189 | with no marker queued, adding a buffer appends its content to the pending stream |
| InputQueue.InputBehindEofIsLost | jetty-io/src/main/java/org/eclipse/jetty/io/ByteArrayEndPoint.java:178-189 | with a marker anywhere in the queue, whatever addInput adds changes nothing the reader will get |
| InputQueue.NoWakeWhenQueued | jetty-io/src/main/java/org/eclipse/jetty/io/ByteArrayEndPoint.java:180-193 | buffers with content added to a non-empty queue never run the callback |
| InputQueue.WakeOnce | jetty-io/src/main/java/org/eclipse/jetty/io/ByteArrayEndPoint.java:180-193 | a batch of buffers with content added to an empty queue runs the callback exactly once |
| OutputFlush.Consume | jetty-io/src/main/java/org/eclipse/jetty/io/ByteArrayEndPoint.java:371-392 | reading k bytes keeps one buffer per buffer, each still valid |
| OutputFlush.ConsumeTakesStream | jetty-io/src/main/java/org/eclipse/jetty/io/ByteArrayEndPoint.java:386-392 | after flush takes k bytes, the buffers still hold exactly the stream minus its first k bytes |
| OutputFlush.TakenAndLeftMakeStream | jetty-io/src/main/java/org/eclipse/jetty/io/ByteArrayEndPoint.java:386 | conservation: the bytes taken followed by the bytes left are the bytes there were; taken plus left counts equal the total |
| OutputFlush.AllEmptiedIffAllTaken | jetty-io/src/main/java/org/eclipse/jetty/io/ByteArrayEndPoint.java:389-392 | every buffer is left empty exactly when the whole stream was taken |
| OutputFlush.ConsumeAt | jetty-io/src/main/java/org/eclipse/jetty/io/ByteArrayEndPoint.java:371-392 | each buffer advances by exactly the number of its bytes among the first k of the stream |
| OutputFlush.ConsumeLeavesLater | jetty-io/src/main/java/org/eclipse/jetty/io/ByteArrayEndPoint.java:389-393 | buffers wholly past the bytes taken are left as they are |
| OutputFlush.ConsumeOnlyAdvances | jetty-io/src/main/java/org/eclipse/jetty/io/ByteArrayEndPoint.java:386 | reading only moves a buffer's position forward; its bytes are unchanged |
| OutputFlush.ConsumeNothing | jetty-io/src/main/java/org/eclipse/jetty/io/ByteArrayEndPoint.java:386-393 | when the output has no room and growth is off, flush takes no bytes and leaves the buffers as they are |
| OutputFlush.ReadUpTo | jetty-io/src/main/java/org/eclipse/jetty/io/ByteArrayEndPoint.java:371-395 | stopping in buffer i after m of its bytes, flush has written the first Before(i) + m bytes of the stream |
| OutputFlush.LeftAfterReading | jetty-io/src/main/java/org/eclipse/jetty/io/ByteArrayEndPoint.java:371-395 | the buffers flush leaves when stopping in buffer i after m bytes are Consume of that many bytes |
| OutputFlush.GrownCapacity | jetty-io/src/main/java/org/eclipse/jetty/io/ByteArrayEndPoint.java:375-382 | the output's capacity after growing for each buffer in turn never shrinks |
| OutputFlush.GrownCapacityBounds | jetty-io/src/main/java/org/eclipse/jetty/io/ByteArrayEndPoint.java:375-382 | growth leaves room for the content and every byte appended, and adds at most twice the bytes appended |
| OutputFlush.GrownCapacityStays | jetty-io/src/main/java/org/eclipse/jetty/io/ByteArrayEndPoint.java:375-382 | when the content and all the bytes fit in the output, growth never replaces it |
| EndPoint.Lifecycle.ShutdownInput | jetty-io/src/main/java/org/eclipse/jetty/io/ByteArrayEndPoint.java:351-352 | input becomes shut, output is unchanged, and the endpoint stays open exactly when output was not shut |
| EndPoint.Lifecycle.ShutdownOutput | jetty-io/src/main/java/org/eclipse/jetty/io/ByteArrayEndPoint.java:365-366 | output becomes shut, input is unchanged, and the endpoint stays open exactly when input was not shut |
| EndPoint.ByteArrayEndPoint.constructor | jetty-io/src/main/java/org/eclipse/jetty/io/ByteArrayEndPoint.java:109-117 | input with content is queued and wakes the reader once; output is the given buffer or a new empty one of 1024 bytes with position 0, so all 1024 bytes are free; growth is off |
| EndPoint.ByteArrayEndPoint.AddInput | jetty-io/src/main/java/org/eclipse/jetty/io/ByteArrayEndPoint.java:173-194 | refused, with nothing changed, exactly when the marker is at the head; otherwise the queue becomes Enqueue(queue, input) and the callback runs exactly when Wakes says |
| EndPoint.ByteArrayEndPoint.AddInputAndExecute | jetty-io/src/main/java/org/eclipse/jetty/io/ByteArrayEndPoint.java:196-217 | same effect as AddInput, with the callback dispatched |
| EndPoint.ByteArrayEndPoint.AddInputEOF | jetty-io/src/main/java/org/eclipse/jetty/io/ByteArrayEndPoint.java:164-167 | refused with the end-of-stream error, changing nothing, exactly when the marker is at the head; otherwise the marker is queued at the tail and the callback runs |
| EndPoint.ByteArrayEndPoint.NeedsFillInterest | jetty-io/src/main/java/org/eclipse/jetty/io/ByteArrayEndPoint.java:148-159 | fails exactly on a closed endpoint; otherwise the callback runs exactly when the head has content or is the marker |
| EndPoint.ByteArrayEndPoint.Fill | jetty-io/src/main/java/org/eclipse/jetty/io/ByteArrayEndPoint.java:315-354 | closed: error, nothing changes; input shut: -1, nothing changes; otherwise the result and the queue are Drain's, the buffer gains the first bytes of the pending stream, the idle tracker is told exactly when bytes came, and -1 shuts input |
| EndPoint.ByteArrayEndPoint.FillFromHead | jetty-io/src/main/java/org/eclipse/jetty/io/ByteArrayEndPoint.java:338-343 | the head-with-content step of fill, equal to Drain on the queue |
| EndPoint.ByteArrayEndPoint.Flush | jetty-io/src/main/java/org/eclipse/jetty/io/ByteArrayEndPoint.java:361-399 | errors when closed or output shut, leaving the output, its position and content as they were; otherwise takes k bytes, min(space, total) without growth and all of them with growth, in order; the buffers become Consume(buffers, k); returns true exactly when k is the total; the idle tracker is told exactly when k > 0; with growth the capacity is GrownCapacity of the buffers and the output is replaced exactly when the capacity changed; when the bytes fit in the room there was, the output is the same buffer at the same position, and with growth when they do not, its content starts at position 0; a replaced output is left with nothing unread |
| EndPoint.ByteArrayEndPoint.AppendBuffers | jetty-io/src/main/java/org/eclipse/jetty/io/ByteArrayEndPoint.java:368-395 | flush's loop: output gains the first k bytes of the stream; k == min(space, total) without growth and the total with growth; with growth the capacity is GrownCapacity of the buffers, changed exactly when the output was replaced; while the bytes fit in the room there was, the same buffer at the same position, and once they exceed it, position 0; a replaced output is left with nothing unread |
| EndPoint.ByteArrayEndPoint.FlushBuffer | jetty-io/src/main/java/org/eclipse/jetty/io/ByteArrayEndPoint.java:373-392 | one buffer: an empty one is passed over; otherwise its first n bytes are appended, and it keeps content only when growth is off and the output is full; a buffer emptied carries the loop's progress to the next one: the capacity growth gives, the same buffer and position while the bytes fit in the starting room and position 0 after, the first output emptied once replaced |
| EndPoint.ByteArrayEndPoint.AppendToOutput | jetty-io/src/main/java/org/eclipse/jetty/io/ByteArrayEndPoint.java:375-387 | without growth, min(space, remaining) bytes into the same buffer; with growth the whole buffer, into the same buffer at the same position when it fits after the limit, otherwise after compacting (position 0), in a replacement of capacity + 2 * remaining exactly when content plus remaining exceed the capacity, leaving the old output with nothing unread |
| EndPoint.ByteArrayEndPoint.MakeRoom | jetty-io/src/main/java/org/eclipse/jetty/io/ByteArrayEndPoint.java:377-383 | compacts; the buffer is replaced exactly when content plus need exceed capacity, then by one of capacity + 2 * need holding the same content |
| EndPoint.ByteArrayEndPoint.TakeOutput | jetty-io/src/main/java/org/eclipse/jetty/io/ByteArrayEndPoint.java:263-269 | returns the old output with its content; installs a fresh empty buffer of the same capacity; one write completion |
| EndPoint.ByteArrayEndPoint.SetOutput | jetty-io/src/main/java/org/eclipse/jetty/io/ByteArrayEndPoint.java:295-299 | the given buffer becomes the output; one write completion |
| EndPoint.ByteArrayEndPoint.HasMore | jetty-io/src/main/java/org/eclipse/jetty/io/ByteArrayEndPoint.java:305-308 | true exactly when the output's position is past 0 |
| EndPoint.ByteArrayEndPoint.Reset | jetty-io/src/main/java/org/eclipse/jetty/io/ByteArrayEndPoint.java:405-413 | empty queue, the same output buffer cleared to position 0 with no content, both directions open |
| EndPoint.ByteArrayEndPoint.SetGrowOutput | jetty-io/src/main/java/org/eclipse/jetty/io/ByteArrayEndPoint.java:438-441 | sets the growth flag |
| EndPoint.ByteArrayEndPoint.IsGrowOutput | jetty-io/src/main/java/org/eclipse/jetty/io/ByteArrayEndPoint.java:429-432 | reads the growth flag |
| EndPoint.ByteArrayEndPoint.ShutdownOutput | jetty-io/src/main/java/org/eclipse/jetty/io/ByteArrayEndPoint.java:365-366 | the base endpoint's output shutdown, which flush checks |
| EndPoint.ByteArrayEndPoint.Close | jetty-io/src/main/java/org/eclipse/jetty/io/ByteArrayEndPoint.java:322-323 | the base endpoint's close, which fill and flush check |
| Scenarios.ReadInput | jetty-io/src/main/java/org/eclipse/jetty/io/ByteArrayEndPoint.java:109-117 | an endpoint made with "hello" wakes the reader once; a 3-byte fill reads "hel" and leaves "lo" queued |
| Scenarios.ReadRest | jetty-io/src/main/java/org/eclipse/jetty/io/ByteArrayEndPoint.java:315-354 | with "lo" queued, a 3-byte fill reads "lo" and the next returns 0 |
| Scenarios.EndOfStreamSticks | jetty-io/src/main/java/org/eclipse/jetty/io/ByteArrayEndPoint.java:322-336 | after addInputEOF two fills both return -1 and addInput is refused |
| Scenarios.DoubleEndOfStream | jetty-io/src/main/java/org/eclipse/jetty/io/ByteArrayEndPoint.java:163-179 | the first addInputEOF is accepted with one wake; the second is refused with the end-of-stream error and wakes no one |
| Scenarios.InputBehindEndOfStream | jetty-io/src/main/java/org/eclipse/jetty/io/ByteArrayEndPoint.java:178-189 | with "hello" queued before the marker, "world" is accepted, yet the reader gets "hello" and then -1 |
| Scenarios.FlushWithoutGrowth | jetty-io/src/main/java/org/eclipse/jetty/io/ByteArrayEndPoint.java:361-399 | a 4-byte output takes "hell" and flush returns false; once the output is taken a second flush writes "o" and returns true |
| Scenarios.FlushWithGrowth | jetty-io/src/main/java/org/eclipse/jetty/io/ByteArrayEndPoint.java:375-386 | with growth, "hello" and "world" both land in a 4-byte output, in order, and both buffers are emptied |
| Scenarios.GrowthReplacesOnce | jetty-io/src/main/java/org/eclipse/jetty/io/ByteArrayEndPoint.java:375-386 | in that flush the output is replaced once, by one of 4 + 2 * 5 = 14 bytes, in which "world" then fits; the content starts at position 0, so hasMore is false |
| Scenarios.UnreadOutputIsNotMore | jetty-io/src/main/java/org/eclipse/jetty/io/ByteArrayEndPoint.java:303-308 | after "hello" is flushed into a 16-byte output it is there unread, yet hasMore is false |
| Scenarios.ResetOutput | jetty-io/src/main/java/org/eclipse/jetty/io/ByteArrayEndPoint.java:405-413 | an endpoint made without an output flushes "hello" into a new 1024-byte one; after reset that output has all 1024 bytes free and hasMore is false |

## Left out

- Locking: every operation is one atomic method call; the lock has no sequential meaning.
- Threads: `execute` runs the callback on a new thread. `AddInputAndExecute` counts that dispatch like an inline run.
- `AbstractEndPoint`, `FillInterest`, `WriteFlusher`, `Scheduler` and the idle timeout are not part of this model. Only the state they expose is modelled: the `Lifecycle` value and ghost counters of callbacks, idle notices and write completions.
- `addInput(String)`, `getOutputString`, `takeOutputString`: character-set encoding is library code that is not part of this model.
- `getLocalAddress`, `getRemoteAddress`, `getTransport` return null and `onIncompleteFlush` does nothing; they are not modelled.
- The convenience constructors only choose arguments for the main one, which is modelled; the idle timeout they set is not.
- `BufferUtil` is not part of this model: buffers follow the flush-mode convention stated above, not its exact handling of corner cases such as a full buffer being compacted before an append.
- `BufferUtil.append` into a buffer read to its end (position == limit) starts it again from index 0, so its whole capacity is free. The model does not reset such a buffer: its room stays capacity minus limit, and a fill into a destination that was read to its end but whose limit is at its capacity gets 0 bytes.
- EndPoint.ByteArrayEndPoint.SetOutput: takes a buffer, so `setOutput(null)`, which the source accepts and which makes the next flush fail, is not modelled.
- Buffer aliasing: queued chunks and the buffers given to flush are values, so a caller sharing a buffer with the queue does not see fill advance it. `EndPoint.ByteArrayEndPoint.Flush` returns the advanced buffers instead of advancing them in place, and computes them once its loop stops rather than buffer by buffer.
- EndPoint.ByteArrayEndPoint.Fill: requires the caller's buffer not to share its array with the output buffer; the model does not follow writes through such an alias.
- Null buffers passed to flush are not modelled (`BufferUtil.hasContent(null)` is false, so flush skips them).
- Integer widths: capacities and counts are unbounded; Java's `int` overflow at `capacity + 2 * remaining` is not modelled.

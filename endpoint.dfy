/**
 * The in-memory endpoint itself: an input queue that producers add chunks
 * to and that fill drains into the caller's buffer, and one output buffer
 * that flush appends into, grown on demand when growth is enabled.  The
 * open/shut state of the two directions belongs to the endpoint's base
 * class; it is modelled here by the Lifecycle value.  The fill-interest
 * callback, the idle-timeout tracker and the write flusher are modelled by
 * ghost counters of how often the endpoint notified them.
 */
module EndPoint {
  import opened Buffers
  import opened InputQueue
  import opened OutputFlush

  /** The errors the endpoint raises to its caller. */
  datatype Error =
    | Closed          // the endpoint is closed
    | OutputShutdown  // flush after the output side was shut down
    | EndOfStream     // addInput after end of stream reached the head of the queue

  datatype Outcome<T> = Ok(value: T) | Err(error: Error)

  /** The half-close state machine of the base endpoint. */
  datatype Lifecycle = Open | InputShut | OutputShut | Shut {

    predicate IsOpen() {
      !Shut?
    }

    predicate IsInputShutdown() {
      InputShut? || Shut?
    }

    predicate IsOutputShutdown() {
      OutputShut? || Shut?
    }

    /** Shutting input down closes the endpoint once output is shut as well. */
    function ShutdownInput(): (s: Lifecycle)
      ensures s.IsInputShutdown()
      ensures s.IsOutputShutdown() == IsOutputShutdown()
      ensures s.IsOpen() <==> !IsOutputShutdown()
    {
      if OutputShut? || Shut? then Shut else InputShut
    }

    /** Shutting output down closes the endpoint once input is shut as well. */
    function ShutdownOutput(): (s: Lifecycle)
      ensures s.IsOutputShutdown()
      ensures s.IsInputShutdown() == IsInputShutdown()
      ensures s.IsOpen() <==> !IsInputShutdown()
    {
      if InputShut? || Shut? then Shut else OutputShut
    }
  }

  /** Capacity of the output buffer made when none is given. */
  const DefaultOutputSize: nat := 1024

  class ByteArrayEndPoint {
    /** Queued input: buffers and the end-of-stream marker, head first. */
    var inQ: seq<Chunk>
    /** Where flush writes; replaced by takeOutput, setOutput and growth. */
    var out: Buffer
    var growOutput: bool
    var state: Lifecycle

    /** Runs of the fill-interest callback, inline or on another thread. */
    ghost var fillableRuns: nat
    /** completeWrite notifications sent to the write flusher. */
    ghost var writeCompletions: nat
    /** notIdle calls made to the idle-timeout tracker. */
    ghost var notIdleCalls: nat

    ghost predicate Valid()
      reads this, out, out.data
    {
      WellFormed(inQ) && out.Valid()
    }

    /**
     * Seeds the queue with the input if it has content (which runs the
     * callback, the queue being empty) and writes to the given output buffer,
     * or to a new one of the default size.
     */
    constructor (input: Option<Slice>, output: Buffer?)
      requires ValidInput(input) && (output != null ==> output.Valid())
      ensures Valid() && state == Open && !growOutput
      ensures inQ == (if input.Some? && input.value.HasContent() then [Data(input.value)] else [])
      ensures fillableRuns == (if inQ == [] then 0 else 1)
      ensures output != null ==> out == output
      ensures output == null ==>
        fresh(out) && fresh(out.data) && out.Capacity() == DefaultOutputSize && out.position == 0 && out.content == []
      ensures writeCompletions == 0 && notIdleCalls == 0
    {
      inQ := [];
      growOutput := false;
      state := Open;
      fillableRuns, writeCompletions, notIdleCalls := 0, 0, 0;
      if output == null {
        out := new Buffer.Allocate(DefaultOutputSize);
      } else {
        out := output;
      }
      new;
      if input.Some? && input.value.HasContent() {
        var _ := AddInput(input);
      }
    }

    /**
     * Adds a buffer to the queue, or the end-of-stream marker for None.  It is
     * refused only when the head of the queue is the marker; a buffer without
     * content is dropped.  The callback runs for the marker, and for a buffer
     * with content only when the queue was empty.
     */
    method AddInput(input: Option<Slice>) returns (r: Outcome<()>)
      requires Valid() && ValidInput(input)
      modifies this`inQ, this`fillableRuns
      ensures Valid()
      ensures r.Err? <==> Refuses(old(inQ))
      ensures r.Err? ==> r.error == EndOfStream && inQ == old(inQ) && fillableRuns == old(fillableRuns)
      ensures r.Ok? ==> (inQ == Enqueue(old(inQ), input) &&
        fillableRuns == old(fillableRuns) + (if Wakes(old(inQ), input) then 1 else 0))
    {
      if inQ != [] && inQ[0] == Eof {
        return Err(EndOfStream);
      }
      var wasEmpty := inQ == [];
      var fillable := false;
      if input.None? {
        inQ := inQ + [Eof];
        fillable := true;
      }
      if input.Some? && input.value.HasContent() {
        inQ := inQ + [Data(input.value)];
        fillable := wasEmpty;
      }
      if fillable {
        fillableRuns := fillableRuns + 1;
      }
      r := Ok(());
    }

    /** As AddInput; the callback is dispatched to another thread rather than run inline. */
    method AddInputAndExecute(input: Option<Slice>) returns (r: Outcome<()>)
      requires Valid() && ValidInput(input)
      modifies this`inQ, this`fillableRuns
      ensures Valid()
      ensures r.Err? <==> Refuses(old(inQ))
      ensures r.Err? ==> r.error == EndOfStream && inQ == old(inQ) && fillableRuns == old(fillableRuns)
      ensures r.Ok? ==> (inQ == Enqueue(old(inQ), input) &&
        fillableRuns == old(fillableRuns) + (if Wakes(old(inQ), input) then 1 else 0))
    {
      r := AddInput(input);
    }

    /** Signals end of stream: queues the marker and always runs the callback. */
    method AddInputEOF() returns (r: Outcome<()>)
      requires Valid()
      modifies this`inQ, this`fillableRuns
      ensures Valid()
      ensures r.Err? <==> Refuses(old(inQ))
      ensures r.Ok? ==> inQ == old(inQ) + [Eof] && fillableRuns == old(fillableRuns) + 1
      ensures r.Err? ==> r.error == EndOfStream && inQ == old(inQ) && fillableRuns == old(fillableRuns)
    {
      r := AddInput(None);
    }

    /**
     * Arms fill interest: fails on a closed endpoint, and otherwise runs the
     * callback at once when the head of the queue is ready to be read.
     */
    method NeedsFillInterest() returns (r: Outcome<()>)
      requires Valid()
      modifies this`fillableRuns
      ensures Valid()
      ensures r.Err? <==> !state.IsOpen()
      ensures r.Err? ==> r.error == Closed
      ensures fillableRuns == old(fillableRuns) + (if r.Ok? && ReadyAtHead(inQ) then 1 else 0)
    {
      if !state.IsOpen() {
        return Err(Closed);
      }
      if inQ != [] && (inQ[0].Eof? || inQ[0].buf.HasContent()) {
        fillableRuns := fillableRuns + 1;
      }
      r := Ok(());
    }

    /**
     * Reads queued input into the buffer: fails on a closed endpoint; gives -1
     * once input is shut; otherwise gives what Drain gives for the buffer's
     * free space: the count of bytes appended, which are the next pending
     * bytes, 0 when nothing is queued, or -1 at the end-of-stream marker, which
     * shuts input.  A positive count tells the idle tracker.
     */
    method Fill(buffer: Buffer) returns (r: Outcome<int>)
      requires Valid() && buffer.Valid() && buffer.data != out.data
      modifies this`inQ, this`state, this`notIdleCalls, buffer`limit, buffer`content, buffer.data
      ensures Valid() && buffer.Valid() && buffer.position == old(buffer.position)
      ensures !old(state).IsOpen() ==>
        r == Err(Closed) && inQ == old(inQ) && state == old(state) &&
        notIdleCalls == old(notIdleCalls) && buffer.content == old(buffer.content)
      ensures old(state).IsOpen() && old(state).IsInputShutdown() ==>
        r == Ok(-1) && inQ == old(inQ) && state == old(state) &&
        notIdleCalls == old(notIdleCalls) && buffer.content == old(buffer.content)
      ensures old(state).IsOpen() && !old(state).IsInputShutdown() ==>
        var d := Drain(old(inQ), old(buffer.Space()));
        r == Ok(d.filled) && inQ == d.rest &&
        buffer.content == old(buffer.content) + (if d.filled > 0 then Pending(old(inQ))[..d.filled] else []) &&
        notIdleCalls == old(notIdleCalls) + (if d.filled > 0 then 1 else 0) &&
        state == (if d.filled < 0 then old(state).ShutdownInput() else old(state))
    {
      ghost var space := buffer.Space();
      var filled: int := 0;
      while true
        invariant Valid() && state == old(state) && notIdleCalls == old(notIdleCalls)
        invariant buffer.Valid() && buffer.limit == old(buffer.limit) && buffer.content == old(buffer.content)
        invariant Drain(inQ, space) == Drain(old(inQ), space) && Pending(inQ) == Pending(old(inQ))
        invariant inQ == old(inQ) || (state.IsOpen() && !state.IsInputShutdown())
        decreases |inQ|
      {
        if !state.IsOpen() {
          return Err(Closed);
        }
        if state.IsInputShutdown() {
          return Ok(-1);
        }
        if inQ == [] {
          break;
        }
        var head := inQ[0];
        if head.Eof? {
          filled := -1;
          break;
        }
        if head.buf.HasContent() {
          filled := FillFromHead(buffer);
          break;
        }
        inQ := inQ[1..];
      }
      if filled > 0 {
        notIdleCalls := notIdleCalls + 1;
      } else if filled < 0 {
        state := state.ShutdownInput();
      }
      r := Ok(filled);
    }

    /**
     * fill's step on a head buffer with content: appends as many of its bytes
     * as fit, which start the pending stream, and drops it once drained.
     */
    method FillFromHead(buffer: Buffer) returns (filled: int)
      requires Valid() && buffer.Valid() && buffer.data != out.data
      requires inQ != [] && inQ[0].Data? && inQ[0].buf.HasContent()
      modifies this`inQ, buffer`limit, buffer`content, buffer.data
      ensures Valid() && buffer.Valid() && buffer.position == old(buffer.position)
      ensures var d := Drain(old(inQ), old(buffer.Space()));
        filled == d.filled && inQ == d.rest && filled >= 0 &&
        buffer.content == old(buffer.content) + Pending(old(inQ))[..filled]
    {
      DrainHead(inQ, buffer.Space());
      var n, rest := buffer.Append(inQ[0].buf);
      filled := n;
      if rest.HasContent() {
        inQ := [Data(rest)] + inQ[1..];
      } else {
        inQ := inQ[1..];
      }
    }

    /**
     * Appends the buffers' unread bytes to the output, in order, stopping at
     * the first buffer that does not fit; fails on a closed endpoint or shut
     * output.  Without growth it takes as much of the stream as the output
     * has room for; with growth the output is compacted or replaced by a
     * larger one as needed and takes all of it.  Returns whether every buffer
     * was emptied, along with the buffers as they are left.
     */
    method Flush(buffers: seq<Slice>) returns (r: Outcome<bool>, after: seq<Slice>)
      requires Valid() && AllValid(buffers)
      modifies this`out, this`notIdleCalls, out, out.data
      ensures Valid()
      ensures !state.IsOpen() ==>
        r == Err(Closed) && after == buffers && out == old(out) && out.position == old(out.position) &&
        out.content == old(out.content) && notIdleCalls == old(notIdleCalls)
      ensures state.IsOpen() && state.IsOutputShutdown() ==>
        r == Err(OutputShutdown) && after == buffers && out == old(out) && out.position == old(out.position) &&
        out.content == old(out.content) && notIdleCalls == old(notIdleCalls)
      ensures state.IsOpen() && !state.IsOutputShutdown() ==>
        var total := |Concat(buffers)|;
        var k := if growOutput then total else Min(old(out.Space()), total);
        r == Ok(k == total) && after == Consume(buffers, k) &&
        out.content == old(out.content) + Concat(buffers)[..k] &&
        notIdleCalls == old(notIdleCalls) + (if k > 0 then 1 else 0)
      ensures !growOutput ==> out == old(out) && out.position == old(out.position)
      ensures growOutput ==> old(out.Capacity()) <= out.Capacity() <= old(out.Capacity()) + 2 * |Concat(buffers)|
      ensures growOutput && state.IsOpen() && !state.IsOutputShutdown() ==>
        out.Capacity() == GrownCapacity(old(out.Capacity()), |old(out.content)|, buffers, |buffers|) &&
        (out == old(out) <==> out.Capacity() == old(out.Capacity()))
      ensures |Concat(buffers)| <= old(out.Space()) ==> out == old(out) && out.position == old(out.position)
      ensures growOutput && state.IsOpen() && !state.IsOutputShutdown() && |Concat(buffers)| > old(out.Space()) ==>
        out.position == 0
      ensures out != old(out) ==> old(out).position == old(out).limit
      ensures out == old(out) || (fresh(out) && fresh(out.data))
    {
      if !state.IsOpen() {
        return Err(Closed), buffers;
      }
      if state.IsOutputShutdown() {
        return Err(OutputShutdown), buffers;
      }
      var flushed, idle;
      ghost var k;
      ghost var capacity0, length0 := out.Capacity(), |out.content|;
      flushed, idle, after, k := AppendBuffers(buffers);
      if growOutput {
        GrownCapacityBounds(capacity0, length0, buffers, |buffers|);
        BeforeAll(buffers);
      }
      if !idle {
        notIdleCalls := notIdleCalls + 1;
      }
      r := Ok(flushed);
    }

    /**
     * The loop of flush: appends each buffer with content in turn, stopping
     * at the first one left with content.  Takes the first k bytes of the
     * buffers' stream, with k as described for Flush; reports whether that
     * was all of it and whether it was nothing.
     */
    method AppendBuffers(buffers: seq<Slice>) returns (flushed: bool, idle: bool, after: seq<Slice>, ghost k: nat)
      requires out.Valid() && AllValid(buffers)
      modifies this`out, out, out.data
      ensures out.Valid() && k <= |Concat(buffers)|
      ensures flushed == (k == |Concat(buffers)|) && idle == (k == 0)
      ensures after == Consume(buffers, k)
      ensures out.content == old(out.content) + Concat(buffers)[..k]
      ensures k == if growOutput then |Concat(buffers)| else Min(old(out.Space()), |Concat(buffers)|)
      ensures growOutput ==>
        out.Capacity() == GrownCapacity(old(out.Capacity()), |old(out.content)|, buffers, |buffers|) &&
        (out == old(out) <==> out.Capacity() == old(out.Capacity()))
      ensures k <= old(out.Space()) ==> out == old(out) && out.position == old(out.position)
      ensures k > old(out.Space()) ==> out.position == 0
      ensures out != old(out) ==> old(out).position == old(out).limit
      ensures out == old(out) || (fresh(out) && fresh(out.data))
    {
      ghost var start := out.content;
      ghost var out0, position0, space0, capacity0 := out, out.position, out.Space(), out.Capacity();
      k := 0;
      flushed, idle := true, true;
      var i := 0;
      while i < |buffers|
        invariant Progress(start, out0, position0, space0, capacity0, buffers, i, k)
        invariant idle <==> k == 0
        invariant out != out0 ==> out0.position == out0.limit
        invariant out == out0 || (fresh(out) && fresh(out.data))
      {
        var n, rest := FlushBuffer(buffers, i, start, out0, position0, space0, capacity0, k);
        idle := idle && n == 0;
        k := k + n;
        if rest.HasContent() {
          flushed := false;
          ReadUpTo(start, buffers, i, n);
          after := Advanced(buffers, i, n);
          LeftAfterReading(buffers, i, n, k);
          return;
        }
        i := i + 1;
      }
      ReadUpTo(start, buffers, i, 0);
      after := Advanced(buffers, i, 0);
      LeftAfterReading(buffers, i, 0, k);
    }

    /**
     * What flush keeps of the output after appending k bytes: as long as they
     * fit in the room it had (always, without growth), the buffer it started
     * with, with as much less room.
     */
    ghost predicate Appended(out0: Buffer, position0: nat, space0: nat, k: nat)
      reads this, out, out.data
    {
      out.Valid() && (!growOutput ==> k <= space0) &&
      (k <= space0 ==> out == out0 && out.position == position0 && out.Space() == space0 - k) &&
      (k > space0 ==> out.position == 0)
    }

    /**
     * Where the loop of flush stands once it appended the first i buffers, k
     * bytes in all, to an output that started with the given content,
     * position, room and capacity: the output holds that content followed by
     * their bytes, and with growth its capacity is what growing for each of
     * them gives, changed exactly when the output was replaced.
     */
    ghost predicate Progress(start: seq<byte>, out0: Buffer, position0: nat, space0: nat, capacity0: nat,
                             buffers: seq<Slice>, i: nat, k: nat)
      reads this, out, out.data
    {
      AllValid(buffers) && i <= |buffers| && k == Before(buffers, i) && Appended(out0, position0, space0, k) &&
      out.content == Written(start, buffers, i) && |out.content| == |start| + k &&
      (growOutput ==>
        out.Capacity() == GrownCapacity(capacity0, |start|, buffers, i) && (out == out0 <==> out.Capacity() == capacity0))
    }

    /** One buffer of flush, buffer i: a buffer without content is passed over. */
    method FlushBuffer(buffers: seq<Slice>, i: nat, ghost start: seq<byte>, ghost out0: Buffer,
                       ghost position0: nat, ghost space0: nat, ghost capacity0: nat, ghost k: nat)
      returns (n: nat, rest: Slice)
      requires Progress(start, out0, position0, space0, capacity0, buffers, i, k) && i < |buffers|
      requires out != out0 ==> out0.position == out0.limit
      modifies this`out, out, out.data
      ensures Appended(out0, position0, space0, k + n) && n <= buffers[i].Remaining() && rest == buffers[i].Skip(n)
      ensures rest.HasContent() <==> n < buffers[i].Remaining()
      ensures out.content == old(out.content) + buffers[i].Content()[..n]
      ensures rest.HasContent() ==> !growOutput && k + n == space0
      ensures !rest.HasContent() ==>
        rest == Emptied(buffers[i]) && Progress(start, out0, position0, space0, capacity0, buffers, i + 1, k + n)
      ensures out != out0 ==> out0.position == out0.limit
      ensures out == old(out) || (fresh(out) && fresh(out.data))
    {
      var b := buffers[i];
      n, rest := 0, b;
      if b.HasContent() {
        n, rest := AppendToOutput(b);
      }
      assert b.Content()[..b.Remaining()] == b.Content();
    }

    /**
     * One buffer of flush: with growth enabled, first makes room for all of
     * its unread bytes; then appends as many of them as fit.
     */
    method AppendToOutput(b: Slice) returns (n: nat, rest: Slice)
      requires out.Valid() && b.Valid() && b.HasContent()
      modifies this`out, out, out.data
      ensures out.Valid() && n <= b.Remaining() && rest == b.Skip(n)
      ensures out.content == old(out.content) + b.Content()[..n]
      ensures rest.HasContent() ==> !growOutput && out.Space() == 0
      ensures !growOutput ==>
        out == old(out) && out.position == old(out.position) &&
        n == Min(old(out.Space()), b.Remaining()) && out.Space() == old(out.Space()) - n
      ensures growOutput ==>
        n == b.Remaining() && old(out.Capacity()) <= out.Capacity() <= old(out.Capacity()) + 2 * n
      ensures growOutput ==>
        out.Capacity() == GrownTo(old(out.Capacity()), |old(out.content)|, n) &&
        (out == old(out) <==> out.Capacity() == old(out.Capacity()))
      ensures n <= old(out.Space()) ==> out == old(out) && out.position == old(out.position)
      ensures growOutput && n > old(out.Space()) ==> out.position == 0
      ensures out != old(out) ==> old(out).position == old(out).limit
      ensures out == old(out) || (fresh(out) && fresh(out.data))
    {
      if growOutput && b.Remaining() > out.Space() {
        MakeRoom(b.Remaining());
      }
      n, rest := out.Append(b);
    }

    /**
     * Makes room for `need` more bytes in the output, which has less free
     * space than that: compacts it, and if that is still not enough replaces
     * it by a buffer larger by twice `need` holding the same content.
     */
    method MakeRoom(need: nat)
      requires out.Valid() && need > out.Space()
      modifies this`out, out, out.data
      ensures out.Valid() && out.Space() >= need && out.position == 0
      ensures out.content == old(out.content)
      ensures out == old(out) <==> |old(out.content)| + need <= old(out.Capacity())
      ensures out == old(out) ==> out.Capacity() == old(out.Capacity())
      ensures out != old(out) ==> fresh(out) && fresh(out.data) && out.Capacity() == old(out.Capacity()) + 2 * need
      ensures out != old(out) ==> old(out).Valid() && old(out).content == []
    {
      out.Compact();
      if need > out.Space() {
        var grown := new Buffer.Allocate(out.Capacity() + 2 * need);
        var _, _ := grown.Append(out.Unread());
        out.SkipAll();
        out := grown;
      }
    }

    /** Hands over the output buffer and installs an empty one of the same capacity. */
    method TakeOutput() returns (b: Buffer)
      requires Valid()
      modifies this`out, this`writeCompletions
      ensures Valid() && b == old(out) && b.Valid() && b.content == old(out.content)
      ensures fresh(out) && fresh(out.data) && out.Capacity() == b.Capacity() && out.position == 0 && out.content == []
      ensures writeCompletions == old(writeCompletions) + 1
    {
      b := out;
      out := new Buffer.Allocate(b.Capacity());
      writeCompletions := writeCompletions + 1;
    }

    /** Installs the given buffer as the output. */
    method SetOutput(b: Buffer)
      requires Valid() && b.Valid()
      modifies this`out, this`writeCompletions
      ensures Valid() && out == b
      ensures writeCompletions == old(writeCompletions) + 1
    {
      out := b;
      writeCompletions := writeCompletions + 1;
    }

    /** Whether bytes before the output buffer's position have been read from it. */
    function HasMore(): (more: bool)
      reads this, out
      ensures more <==> out.position > 0
    {
      out.position > 0
    }

    /** Empties the queue and the output and reopens both directions. */
    method Reset()
      requires Valid()
      modifies this`inQ, this`state, out
      ensures Valid() && inQ == [] && out == old(out) && out.position == 0 && out.content == [] && state == Open
    {
      inQ := [];
      out.Clear();
      state := Open;
    }

    method SetGrowOutput(grow: bool)
      requires Valid()
      modifies this`growOutput
      ensures Valid()
      ensures growOutput == grow
    {
      growOutput := grow;
    }

    function IsGrowOutput(): (grow: bool)
      reads this
      ensures grow == growOutput
    {
      growOutput
    }

    /** The base endpoint's shutdownOutput. */
    method ShutdownOutput()
      requires Valid()
      modifies this`state
      ensures Valid()
      ensures state == old(state).ShutdownOutput()
    {
      state := state.ShutdownOutput();
    }

    /** The base endpoint's close. */
    method Close()
      requires Valid()
      modifies this`state
      ensures Valid()
      ensures state == Shut
    {
      state := Shut;
    }
  }
}

/**
 * The endpoint driven the way the tests of its clients drive it: input
 * queued and read back, end of stream, and output collected with and without
 * growth.
 */
module Scenarios {
  import opened Buffers
  import opened InputQueue
  import opened OutputFlush
  import opened EndPoint

  function Hello(): seq<byte>
  {
    [104, 101, 108, 108, 111]
  }

  function World(): seq<byte>
  {
    [119, 111, 114, 108, 100]
  }

  /**
   * An endpoint made with "hello" as input wakes the reader once; a fill
   * into a 3-byte buffer reads "hel" and leaves the rest of the chunk queued.
   */
  method ReadInput() returns (got: seq<byte>, result: Outcome<int>, left: seq<Chunk>, ghost wakeups: nat)
    ensures got == Hello()[..3] && result == Ok(3) && left == [Data(Slice(Hello(), 3))] && wakeups == 1
  {
    var output := new Buffer.Allocate(16);
    var ep := new ByteArrayEndPoint(Some(Slice(Hello(), 0)), output);
    var buffer := new Buffer.Allocate(3);
    assert Pending(ep.inQ) == Hello();
    result := ep.Fill(buffer);
    got, left := buffer.data[buffer.position..buffer.limit], ep.inQ;
    wakeups := ep.fillableRuns;
  }

  /**
   * With the rest of "hello" queued, a fill into a 3-byte buffer reads "lo"
   * and the next finds nothing, no end of stream having been signalled.
   */
  method ReadRest() returns (got: seq<byte>, results: seq<Outcome<int>>)
    ensures got == Hello()[3..] && results == [Ok(2), Ok(0)]
  {
    var output := new Buffer.Allocate(16);
    var ep := new ByteArrayEndPoint(Some(Slice(Hello(), 3)), output);
    var buffer := new Buffer.Allocate(3);
    assert Pending(ep.inQ) == Hello()[3..];
    var first := ep.Fill(buffer);
    var second := ep.Fill(buffer);
    got, results := buffer.data[buffer.position..buffer.limit], [first, second];
  }

  /**
   * End of stream wakes the reader; the first fill meets the marker and
   * shuts input, every later one reports -1 as well, and the marker at the
   * head refuses more input.
   */
  method EndOfStreamSticks() returns (results: seq<Outcome<int>>, refused: Outcome<()>, ghost wakeups: nat)
    ensures results == [Ok(-1), Ok(-1)] && refused == Err(EndOfStream) && wakeups == 1
  {
    var ep := new ByteArrayEndPoint(None, null);
    var _ := ep.AddInputEOF();
    var buffer := new Buffer.Allocate(16);
    var first := ep.Fill(buffer);
    var second := ep.Fill(buffer);
    refused := ep.AddInput(Some(Slice(World(), 0)));
    results := [first, second];
    wakeups := ep.fillableRuns;
  }

  /** A second addInputEOF meets the marker at the head and is refused with end of stream. */
  method DoubleEndOfStream() returns (first: Outcome<()>, second: Outcome<()>, ghost wakeups: nat)
    ensures first.Ok? && second == Err(EndOfStream) && wakeups == 1
  {
    var ep := new ByteArrayEndPoint(None, null);
    first := ep.AddInputEOF();
    assert ep.inQ == [Eof];
    second := ep.AddInputEOF();
    wakeups := ep.fillableRuns;
  }

  /**
   * The head-only check: with "hello" queued before the marker, "world" is
   * still accepted, but the reader gets "hello" and then end of stream.
   */
  method InputBehindEndOfStream() returns (accepted: Outcome<()>, got: seq<byte>, results: seq<Outcome<int>>)
    ensures accepted.Ok? && got == Hello() && results == [Ok(5), Ok(-1)]
  {
    var ep := new ByteArrayEndPoint(Some(Slice(Hello(), 0)), null);
    var _ := ep.AddInputEOF();
    assert ep.inQ == [Data(Slice(Hello(), 0)), Eof];
    accepted := ep.AddInput(Some(Slice(World(), 0)));
    var buffer := new Buffer.Allocate(16);
    assert ep.inQ == [Data(Slice(Hello(), 0)), Eof, Data(Slice(World(), 0))];
    assert Pending(ep.inQ) == Hello();
    var first := ep.Fill(buffer);
    assert first == Ok(5) && ep.inQ == [Eof, Data(Slice(World(), 0))] && buffer.content == Hello();
    var second := ep.Fill(buffer);
    assert second == Ok(-1);
    got, results := buffer.data[buffer.position..buffer.limit], [first, second];
  }

  /**
   * Without growth a 4-byte output takes "hell" and leaves "o" in the
   * buffer, and flush reports it is not done; once the output is taken, a
   * second flush writes the "o" to the fresh output.
   */
  method FlushWithoutGrowth() returns (results: seq<Outcome<bool>>, taken: seq<byte>, left: seq<Slice>, rest: seq<byte>)
    ensures results == [Ok(false), Ok(true)]
    ensures taken == Hello()[..4] && left == [Slice(Hello(), 4)] && rest == Hello()[4..]
  {
    var output := new Buffer.Allocate(4);
    var ep := new ByteArrayEndPoint(None, output);
    assert Concat([Slice(Hello(), 0)]) == Hello();
    var first, after := ep.Flush([Slice(Hello(), 0)]);
    assert first == Ok(false) && after == [Slice(Hello(), 4)];
    left := after;
    var b := ep.TakeOutput();
    taken := b.data[b.position..b.limit];
    assert Concat(after) == Hello()[4..] && ep.out.Space() == 4;
    var second, _ := ep.Flush(after);
    assert second == Ok(true);
    results, rest := [first, second], ep.out.data[ep.out.position..ep.out.limit];
  }

  /**
   * With growth a 4-byte output takes "hello" and "world" in order, emptying
   * both buffers.
   */
  method FlushWithGrowth() returns (result: Outcome<bool>, written: seq<byte>, left: seq<Slice>)
    ensures result == Ok(true) && written == Hello() + World()
    ensures left == [Slice(Hello(), 5), Slice(World(), 5)]
  {
    var output := new Buffer.Allocate(4);
    var ep := new ByteArrayEndPoint(None, output);
    ep.SetGrowOutput(true);
    assert Concat([Slice(Hello(), 0), Slice(World(), 0)]) == Hello() + World();
    result, left := ep.Flush([Slice(Hello(), 0), Slice(World(), 0)]);
    written := ep.out.data[ep.out.position..ep.out.limit];
  }

  /**
   * In that flush the 4-byte output is replaced by one of 4 + 2 * 5 bytes to
   * take "hello"; "world" then fits in the new one as it is.  The content
   * starts at index 0 of the new output, so hasMore reports nothing more.
   */
  method GrowthReplacesOnce() returns (capacity: nat, replaced: bool, more: bool)
    ensures capacity == 14 && replaced && !more
  {
    var output := new Buffer.Allocate(4);
    var ep := new ByteArrayEndPoint(None, output);
    ep.SetGrowOutput(true);
    var bs := [Slice(Hello(), 0), Slice(World(), 0)];
    assert GrownCapacity(4, 0, bs, 1) == 14;
    var _, _ := ep.Flush(bs);
    capacity, replaced, more := ep.out.data.Length, ep.out != output, ep.HasMore();
  }

  /**
   * Flushing "hello" into a 16-byte output leaves it there unread, yet
   * hasMore reports nothing more, as it looks at the position alone.
   */
  method UnreadOutputIsNotMore() returns (written: seq<byte>, more: bool)
    ensures written == Hello() && !more
  {
    var output := new Buffer.Allocate(16);
    var ep := new ByteArrayEndPoint(None, output);
    assert Concat([Slice(Hello(), 0)]) == Hello();
    var _, _ := ep.Flush([Slice(Hello(), 0)]);
    written, more := ep.out.data[ep.out.position..ep.out.limit], ep.HasMore();
  }

  /**
   * An endpoint made without an output writes to a new one of the default
   * size; after a reset that output is as empty as when it was made.
   */
  method ResetOutput() returns (written: seq<byte>, space: nat, more: bool)
    ensures written == Hello() && space == DefaultOutputSize && !more
  {
    var ep := new ByteArrayEndPoint(None, null);
    assert Concat([Slice(Hello(), 0)]) == Hello();
    var _, _ := ep.Flush([Slice(Hello(), 0)]);
    written := ep.out.data[ep.out.position..ep.out.limit];
    ep.Reset();
    space, more := ep.out.Space(), ep.HasMore();
  }
}

/**
 * The endpoint's input side as values: the FIFO queue of chunks that
 * producers add to and that fill drains, with its end-of-stream marker.
 * The functions here are the specification the endpoint's methods are
 * proved against; the lemmas state what they promise to the consumer.
 */
module InputQueue {
  import opened Buffers

  /** Java's null reference: `None` passed to addInput signals end of stream. */
  datatype Option<T> = None | Some(value: T)

  /** A queued input buffer, or the end-of-stream marker (an empty buffer compared by identity). */
  datatype Chunk = Data(buf: Slice) | Eof

  predicate WellFormed(q: seq<Chunk>)
  {
    forall i :: 0 <= i < |q| && q[i].Data? ==> q[i].buf.Valid()
  }

  predicate ValidInput(input: Option<Slice>)
  {
    input.Some? ==> input.value.Valid()
  }

  /** The bytes still to be read: the queued contents in order, up to the first end-of-stream marker. */
  function Pending(q: seq<Chunk>): seq<byte>
    requires WellFormed(q)
  {
    if q == [] || q[0].Eof? then [] else q[0].buf.Content() + Pending(q[1..])
  }

  /** The content of the first queued buffer that has any, unless the end-of-stream marker comes first. */
  function NextChunk(q: seq<Chunk>): seq<byte>
    requires WellFormed(q)
  {
    if q == [] || q[0].Eof? then []
    else if q[0].buf.HasContent() then q[0].buf.Content()
    else NextChunk(q[1..])
  }

  /** The end-of-stream marker comes before any queued byte. */
  predicate EofNext(q: seq<Chunk>)
    requires WellFormed(q)
  {
    q != [] && (q[0].Eof? || (!q[0].buf.HasContent() && EofNext(q[1..])))
  }

  /** addInput refuses input when the head of the queue (and only the head) is the end-of-stream marker. */
  predicate Refuses(q: seq<Chunk>)
  {
    q != [] && q[0].Eof?
  }

  /** The queue after an accepted addInput: the marker for `None`, the buffer if it has content, else nothing. */
  function Enqueue(q: seq<Chunk>, input: Option<Slice>): seq<Chunk>
    requires ValidInput(input)
  {
    match input
    case None => q + [Eof]
    case Some(s) => if s.HasContent() then q + [Data(s)] else q
  }

  /** Whether an accepted addInput runs the fill-interest callback. */
  predicate Wakes(q: seq<Chunk>, input: Option<Slice>)
    requires ValidInput(input)
  {
    match input
    case None => true
    case Some(s) => s.HasContent() && q == []
  }

  /** The head is ready to read: it has content or is the end-of-stream marker. */
  predicate ReadyAtHead(q: seq<Chunk>)
    requires WellFormed(q)
  {
    q != [] && (q[0].Eof? || q[0].buf.HasContent())
  }

  /** What one fill returns and leaves queued, on an open endpoint whose input is not shut. */
  datatype Drained = Drained(filled: int, rest: seq<Chunk>)

  /**
   * fill's loop over the queue, for a destination with `space` free bytes:
   * empty buffers at the head are dropped; the end-of-stream marker gives -1
   * and stays queued; a buffer with content gives up as many bytes as fit and
   * is removed only once drained; an empty queue gives 0.
   */
  function Drain(q: seq<Chunk>, space: nat): (d: Drained)
    requires WellFormed(q)
    ensures WellFormed(d.rest) && |d.rest| <= |q|
    ensures -1 <= d.filled <= space && d.filled <= |Pending(q)|
  {
    if q == [] then Drained(0, [])
    else if q[0].Eof? then Drained(-1, q)
    else if q[0].buf.HasContent() then
      var n := Min(space, q[0].buf.Remaining());
      var s := q[0].buf.Skip(n);
      Drained(n, if s.HasContent() then [Data(s)] + q[1..] else q[1..])
    else Drain(q[1..], space)
  }

  /** fill returns -1 exactly when end of stream is next, and otherwise min(space, next buffer's content). */
  lemma {:induction false} DrainCount(q: seq<Chunk>, space: nat)
    requires WellFormed(q)
    ensures Drain(q, space).filled == if EofNext(q) then -1 else Min(space, |NextChunk(q)|)
  {
    if q != [] && q[0].Data? && !q[0].buf.HasContent() {
      DrainCount(q[1..], space);
    }
  }

  /** The next buffer's content starts the pending stream, and is empty only when nothing is pending. */
  lemma {:induction false} NextChunkStartsStream(q: seq<Chunk>)
    requires WellFormed(q)
    ensures NextChunk(q) <= Pending(q)
    ensures NextChunk(q) == [] <==> Pending(q) == []
  {
    if q != [] && q[0].Data? && !q[0].buf.HasContent() {
      NextChunkStartsStream(q[1..]);
    }
  }

  /**
   * fill takes the first `filled` bytes of the pending stream and leaves the
   * rest of it queued in order; at end of stream nothing is pending and the
   * marker stays at the head of what is left of the queue.
   */
  lemma {:induction false} DrainStream(q: seq<Chunk>, space: nat)
    requires WellFormed(q)
    ensures var d := Drain(q, space);
      (d.filled >= 0 ==> Pending(d.rest) == Pending(q)[d.filled..]) &&
      (d.filled < 0 ==> d.filled == -1 && Pending(q) == [] && Refuses(d.rest) &&
                        d.rest == q[|q| - |d.rest|..])
  {
    if q == [] || q[0].Eof? {
    } else if q[0].buf.HasContent() {
      DrainStreamAtHead(q, space);
    } else {
      DrainStream(q[1..], space);
      assert Pending(q) == Pending(q[1..]);
    }
  }

  /** DrainStream's case of a head buffer with content. */
  lemma {:induction false} DrainStreamAtHead(q: seq<Chunk>, space: nat)
    requires WellFormed(q) && q != [] && q[0].Data? && q[0].buf.HasContent()
    ensures Drain(q, space).filled >= 0 && Pending(Drain(q, space).rest) == Pending(q)[Drain(q, space).filled..]
  {
    var n := Min(space, q[0].buf.Remaining());
    var s := q[0].buf.Skip(n);
    var tail := Pending(q[1..]);
    assert Pending(q) == q[0].buf.Content() + tail;
    if s.HasContent() {
      assert Pending([Data(s)] + q[1..]) == s.Content() + tail by {
        assert ([Data(s)] + q[1..])[1..] == q[1..];
      }
    }
    assert (q[0].buf.Content() + tail)[n..] == q[0].buf.Content()[n..] + tail;
  }

  /** A head with content gives fill as many of its bytes as fit, and they start the pending stream. */
  lemma {:induction false} DrainHead(q: seq<Chunk>, space: nat)
    requires WellFormed(q) && q != [] && q[0].Data? && q[0].buf.HasContent()
    ensures var n := Min(space, q[0].buf.Remaining());
      var s := q[0].buf.Skip(n);
      Drain(q, space) == Drained(n, if s.HasContent() then [Data(s)] + q[1..] else q[1..]) &&
      Pending(q)[..n] == q[0].buf.Content()[..n]
  {
    assert Pending(q) == q[0].buf.Content() + Pending(q[1..]);
  }

  /** Once fill has met the end-of-stream marker, every later fill meets it again and changes nothing. */
  lemma {:induction false} DrainAtEofIsStable(q: seq<Chunk>, space: nat, later: nat)
    requires WellFormed(q) && Drain(q, space).filled < 0
    ensures Drain(Drain(q, space).rest, later) == Drained(-1, Drain(q, space).rest)
  {
    DrainStream(q, space);
  }

  /** Readiness at the head means a fill into a destination with room makes progress. */
  lemma {:induction false} ReadyMeansProgress(q: seq<Chunk>, space: nat)
    requires WellFormed(q) && space > 0 && ReadyAtHead(q)
    ensures Drain(q, space).filled != 0
  {
  }

  /** The queue left by successive fills into destinations with the given free space. */
  function LeftAfter(q: seq<Chunk>, spaces: seq<nat>): (r: seq<Chunk>)
    requires WellFormed(q)
    ensures WellFormed(r)
    decreases |spaces|
  {
    if spaces == [] then q else LeftAfter(Drain(q, spaces[0]).rest, spaces[1..])
  }

  /** The bytes that successive fills into destinations with the given free space deliver, in order. */
  function Delivered(q: seq<Chunk>, spaces: seq<nat>): seq<byte>
    requires WellFormed(q)
    decreases |spaces|
  {
    if spaces == [] then []
    else
      var d := Drain(q, spaces[0]);
      (if d.filled > 0 then Pending(q)[..d.filled] else []) + Delivered(d.rest, spaces[1..])
  }

  /** The bytes one fill delivers, followed by what it leaves pending, are what was pending. */
  lemma {:induction false} DrainSplitsStream(q: seq<Chunk>, space: nat)
    requires WellFormed(q)
    ensures var d := Drain(q, space);
      (if d.filled > 0 then Pending(q)[..d.filled] else []) + Pending(d.rest) == Pending(q)
  {
    DrainStream(q, space);
    var d := Drain(q, space);
    var p := Pending(q);
    if d.filled < 0 {
      assert Pending(d.rest) == [];
    } else if d.filled == 0 {
      assert p[0..] == p;
    } else {
      assert p[..d.filled] + p[d.filled..] == p;
    }
  }

  /** Order preservation: however the reads are sized, what they deliver followed by what is still pending is the stream. */
  lemma {:induction false} FillsPreserveOrder(q: seq<Chunk>, spaces: seq<nat>)
    requires WellFormed(q)
    ensures Delivered(q, spaces) + Pending(LeftAfter(q, spaces)) == Pending(q)
    decreases |spaces|
  {
    if spaces != [] {
      var d := Drain(q, spaces[0]);
      var got := if d.filled > 0 then Pending(q)[..d.filled] else [];
      var more := Delivered(d.rest, spaces[1..]);
      var left := LeftAfter(d.rest, spaces[1..]);
      assert Delivered(q, spaces) == got + more;
      assert LeftAfter(q, spaces) == left;
      DrainSplitsStream(q, spaces[0]);
      FillsPreserveOrder(d.rest, spaces[1..]);
      ConcatAssoc(got, more, Pending(left));
    }
  }

  /** Enough reads into destinations with room deliver every pending byte. */
  lemma {:induction false} FillsDeliverAll(q: seq<Chunk>, spaces: seq<nat>)
    requires WellFormed(q)
    requires |spaces| >= |Pending(q)|
    requires forall i :: 0 <= i < |spaces| ==> spaces[i] > 0
    ensures Delivered(q, spaces) == Pending(q)
    decreases |spaces|
  {
    if spaces != [] {
      var d := Drain(q, spaces[0]);
      var got := if d.filled > 0 then Pending(q)[..d.filled] else [];
      DrainCount(q, spaces[0]);
      NextChunkStartsStream(q);
      DrainStream(q, spaces[0]);
      DrainSplitsStream(q, spaces[0]);
      assert got + Pending(d.rest) == Pending(q);
      assert Pending(q) != [] ==> |got| > 0;
      FillsDeliverAll(d.rest, spaces[1..]);
      assert Delivered(q, spaces) == got + Delivered(d.rest, spaces[1..]);
    }
  }

  /** Input added while no end-of-stream marker is queued extends the stream with its content. */
  lemma {:induction false} EnqueueExtendsStream(q: seq<Chunk>, s: Slice)
    requires WellFormed(q) && s.Valid() && Eof !in q
    ensures Pending(Enqueue(q, Some(s))) == Pending(q) + s.Content()
  {
    if s.HasContent() && q != [] {
      assert (q + [Data(s)])[1..] == q[1..] + [Data(s)];
      EnqueueExtendsStream(q[1..], s);
    }
  }

  /**
   * addInput checks only the head: behind queued data an end-of-stream marker
   * does not refuse further input, and what is added after it is never read.
   */
  lemma {:induction false} InputBehindEofIsLost(q: seq<Chunk>, input: Option<Slice>)
    requires WellFormed(q) && ValidInput(input) && Eof in q
    ensures Pending(Enqueue(q, input)) == Pending(q)
  {
    var e := Enqueue(q, input);
    assert e[..|q|] == q;
    if q[0].Data? {
      assert e[1..] == Enqueue(q[1..], input);
      InputBehindEofIsLost(q[1..], input);
    }
  }

  /** Wake-ups run by successive addInput calls with the given inputs, up to the first refused one. */
  function Wakeups(q: seq<Chunk>, inputs: seq<Option<Slice>>): nat
    requires forall i :: 0 <= i < |inputs| ==> ValidInput(inputs[i])
    decreases |inputs|
  {
    if inputs == [] || Refuses(q) then 0
    else (if Wakes(q, inputs[0]) then 1 else 0) + Wakeups(Enqueue(q, inputs[0]), inputs[1..])
  }

  predicate AllContent(inputs: seq<Option<Slice>>)
  {
    forall i :: 0 <= i < |inputs| ==> inputs[i].Some? && inputs[i].value.Valid() && inputs[i].value.HasContent()
  }

  /** Buffers with content added to a non-empty queue never wake the consumer. */
  lemma {:induction false} NoWakeWhenQueued(q: seq<Chunk>, inputs: seq<Option<Slice>>)
    requires q != [] && AllContent(inputs)
    ensures Wakeups(q, inputs) == 0
    decreases |inputs|
  {
    if inputs != [] && !Refuses(q) {
      NoWakeWhenQueued(Enqueue(q, inputs[0]), inputs[1..]);
    }
  }

  /** Wake-once: buffers with content added to an empty queue wake the consumer exactly once. */
  lemma {:induction false} WakeOnce(inputs: seq<Option<Slice>>)
    requires AllContent(inputs)
    ensures Wakeups([], inputs) == if inputs == [] then 0 else 1
  {
    if inputs != [] {
      NoWakeWhenQueued(Enqueue([], inputs[0]), inputs[1..]);
    }
  }
}

/**
 * Byte buffers as the endpoint uses them: a java.nio.ByteBuffer kept in
 * "flush mode", whose readable content lies between its position and its
 * limit, together with the three buffer helpers the endpoint calls on it
 * (append, compact and clear).
 */
module Buffers {

  newtype byte = x: int | 0 <= x < 256

  function Min(a: nat, b: nat): (m: nat)
    ensures m <= a && m <= b && (m == a || m == b)
  {
    if a <= b then a else b
  }

  /** Concatenation is associative; the step several stream proofs need spelled out. */
  lemma {:induction false} ConcatAssoc<T>(a: seq<T>, b: seq<T>, c: seq<T>)
    ensures (a + b) + c == a + (b + c)
  {
  }

  /**
   * A buffer that is only read from: its bytes up to the limit and the
   * position of the next byte to read.  Queued input chunks and the buffers
   * given to flush are of this kind.
   */
  datatype Slice = Slice(bytes: seq<byte>, pos: nat) {

    predicate Valid() {
      pos <= |bytes|
    }

    function Remaining(): nat
      requires Valid()
    {
      |bytes| - pos
    }

    /** The bytes not yet read. */
    function Content(): seq<byte>
      requires Valid()
    {
      bytes[pos..]
    }

    predicate HasContent()
      requires Valid()
    {
      pos < |bytes|
    }

    /** The same buffer after n more of its bytes were read. */
    function Skip(n: nat): (r: Slice)
      requires Valid() && n <= Remaining()
      ensures r.Valid()
    {
      Slice(bytes, pos + n)
    }
  }

  /**
   * A buffer written to in place: a fixed backing array, the position of the
   * first unread byte and the limit just past the last written one.  The
   * ghost field mirrors the bytes between them.
   */
  class Buffer {
    const data: array<byte>
    var position: nat
    var limit: nat
    /** The bytes written and not yet read. */
    ghost var content: seq<byte>

    ghost predicate Valid()
      reads this, data
    {
      position <= limit <= data.Length && content == data[position..limit]
    }

    function Capacity(): nat
    {
      data.Length
    }

    /** Free room after the limit. */
    function Space(): nat
      reads this
      requires limit <= data.Length
    {
      data.Length - limit
    }

    /** An empty buffer of the given capacity. */
    constructor Allocate(capacity: nat)
      ensures Valid() && fresh(data)
      ensures Capacity() == capacity && position == 0 && content == []
    {
      data := new byte[capacity];
      position, limit := 0, 0;
      content := [];
    }

    /**
     * Copies as many of from's unread bytes as fit after the limit, in
     * order; returns how many were copied and from advanced past them.
     */
    method Append(from: Slice) returns (n: nat, rest: Slice)
      requires Valid() && from.Valid()
      modifies this`limit, this`content, data
      ensures Valid() && position == old(position)
      ensures n == Min(old(Space()), from.Remaining())
      ensures content == old(content) + from.Content()[..n]
      ensures rest == from.Skip(n)
    {
      n := Min(Space(), from.Remaining());
      var i := 0;
      while i < n
        invariant 0 <= i <= n <= data.Length - limit && limit == old(limit) && position == old(position) && content == old(content)
        invariant forall j :: 0 <= j < limit ==> data[j] == old(data[j])
        invariant forall j :: limit <= j < limit + i ==> data[j] == from.bytes[from.pos + j - limit]
      {
        data[limit + i] := from.bytes[from.pos + i];
        i := i + 1;
      }
      assert data[position..limit + n] == old(content) + from.Content()[..n];
      limit := limit + n;
      content := content + from.Content()[..n];
      rest := from.Skip(n);
    }

    /** Moves the content to the start of the array, freeing the room before it. */
    method Compact()
      requires Valid()
      modifies this`position, this`limit, data
      ensures Valid() && position == 0 && limit == old(limit) - old(position)
    {
      if position == 0 {
        return;
      }
      var len := limit - position;
      var i := 0;
      while i < len
        invariant 0 <= i <= len && limit == old(limit) && position == old(position) && limit <= data.Length
        invariant forall j :: 0 <= j < i ==> data[j] == old(data[position + j])
        invariant forall j :: position + i <= j < limit ==> data[j] == old(data[j])
      {
        data[i] := data[position + i];
        i := i + 1;
      }
      assert data[..len] == old(data[position..limit]);
      position, limit := 0, len;
    }

    /** The unread content as a read-side buffer, to append this buffer to another. */
    function Unread(): (s: Slice)
      reads this, data
      requires Valid()
      ensures s.Valid() && s.Content() == content && s.Remaining() == limit - position
    {
      assert data[..limit][position..] == data[position..limit];
      Slice(data[..limit], position)
    }

    /** Marks the whole content read, as appending all of it to another buffer does. */
    method SkipAll()
      requires Valid()
      modifies this`position, this`content
      ensures Valid() && position == limit && content == []
    {
      position, content := limit, [];
    }

    /** Empties the buffer. */
    method Clear()
      modifies this`position, this`limit, this`content
      ensures Valid() && position == 0 && content == []
    {
      position, limit := 0, 0;
      content := [];
    }
  }
}

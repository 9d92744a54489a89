/**
 * What flush does to the buffers it is given, as values: it reads their
 * unread bytes in order, as one stream, for as far as it reads at all.
 */
module OutputFlush {
  import opened Buffers

  predicate AllValid(bs: seq<Slice>)
  {
    forall i :: 0 <= i < |bs| ==> bs[i].Valid()
  }

  /** The unread bytes of all the buffers, one buffer after the other. */
  function Concat(bs: seq<Slice>): seq<byte>
    requires AllValid(bs)
  {
    if bs == [] then [] else bs[0].Content() + Concat(bs[1..])
  }

  /** How many bytes of the stream the first i buffers hold. */
  function Before(bs: seq<Slice>, i: nat): nat
    requires AllValid(bs) && i <= |bs|
  {
    if i == 0 then 0 else Before(bs, i - 1) + bs[i - 1].Remaining()
  }

  /** How many of buffer j's unread bytes are among the first k bytes of the stream. */
  function TakenFrom(bs: seq<Slice>, k: nat, j: nat): (t: nat)
    requires AllValid(bs) && j < |bs|
    ensures t <= bs[j].Remaining()
  {
    if k <= Before(bs, j) then 0 else Min(k - Before(bs, j), bs[j].Remaining())
  }

  /**
   * The buffers after the first k bytes of their stream were read from them:
   * the first buffer gives up as many of those bytes as it holds, the others
   * the rest.
   */
  function Consume(bs: seq<Slice>, k: nat): (r: seq<Slice>)
    requires AllValid(bs)
    ensures |r| == |bs| && AllValid(r)
  {
    if bs == [] then []
    else
      var t := Min(k, bs[0].Remaining());
      [bs[0].Skip(t)] + Consume(bs[1..], k - t)
  }

  /** The given bytes followed by the unread bytes of the first i buffers, one buffer after the other. */
  function Written(start: seq<byte>, bs: seq<Slice>, i: nat): seq<byte>
    requires AllValid(bs) && i <= |bs|
  {
    if i == 0 then start else Written(start, bs, i - 1) + bs[i - 1].Content()
  }

  /** The buffer with all its bytes read. */
  function Emptied(s: Slice): Slice
    requires s.Valid()
  {
    s.Skip(s.Remaining())
  }

  /**
   * The buffers once the first i of them were read to the end and buffer i
   * was read m bytes further.
   */
  function Advanced(bs: seq<Slice>, i: nat, m: nat): (r: seq<Slice>)
    requires AllValid(bs) && i <= |bs| && (i < |bs| ==> m <= bs[i].Remaining())
    ensures |r| == |bs|
  {
    seq(|bs|, j requires 0 <= j < |bs| => if j < i then Emptied(bs[j]) else if j == i then bs[j].Skip(m) else bs[j])
  }

  lemma {:induction false} BeforePastHead(bs: seq<Slice>, i: nat)
    requires AllValid(bs) && 0 < i <= |bs|
    ensures Before(bs, i) == bs[0].Remaining() + Before(bs[1..], i - 1)
  {
    if i > 1 {
      BeforePastHead(bs, i - 1);
    }
  }

  lemma {:induction false} BeforeGrows(bs: seq<Slice>, i: nat, j: nat)
    requires AllValid(bs) && i <= j <= |bs|
    ensures Before(bs, i) <= Before(bs, j)
    decreases j
  {
    if i < j {
      BeforeGrows(bs, i, j - 1);
    }
  }

  /** All the buffers together hold the whole stream. */
  lemma {:induction false} BeforeAll(bs: seq<Slice>)
    requires AllValid(bs)
    ensures Before(bs, |bs|) == |Concat(bs)|
  {
    if bs != [] {
      BeforePastHead(bs, |bs|);
      BeforeAll(bs[1..]);
    }
  }

  /** Buffer i's unread bytes sit in the stream right after those of the buffers before it. */
  lemma {:induction false} ConcatAt(bs: seq<Slice>, i: nat)
    requires AllValid(bs) && i < |bs|
    ensures Before(bs, i) + bs[i].Remaining() <= |Concat(bs)|
    ensures Concat(bs)[Before(bs, i)..Before(bs, i) + bs[i].Remaining()] == bs[i].Content()
  {
    if i > 0 {
      var rest := bs[1..];
      BeforePastHead(bs, i);
      ConcatAt(rest, i - 1);
      assert rest[i - 1] == bs[i];
      var a := Before(rest, i - 1);
      var head := bs[0].Content();
      assert Concat(bs) == head + Concat(rest);
      SliceBehind(head, Concat(rest), a, a + bs[i].Remaining());
    }
  }

  /** A slice of a + b lying wholly in b. */
  lemma {:induction false} SliceBehind<T>(a: seq<T>, b: seq<T>, i: nat, j: nat)
    requires i <= j <= |b|
    ensures (a + b)[|a| + i..|a| + j] == b[i..j]
  {
  }

  /** Appending the next n bytes of buffer i extends the stream read so far by as many bytes. */
  lemma {:induction false} AppendStream(bs: seq<Slice>, i: nat, n: nat)
    requires AllValid(bs) && i < |bs| && n <= bs[i].Remaining()
    ensures Before(bs, i) + n <= |Concat(bs)|
    ensures Concat(bs)[..Before(bs, i)] + bs[i].Content()[..n] == Concat(bs)[..Before(bs, i) + n]
  {
    ConcatAt(bs, i);
    PrefixExtends(Concat(bs), Before(bs, i), bs[i].Content(), n);
  }

  /** If x sits in s at offset b, the prefix of s up to b extended by x's first n elements is a prefix of s. */
  lemma {:induction false} PrefixExtends<T>(s: seq<T>, b: nat, x: seq<T>, n: nat)
    requires b + |x| <= |s| && s[b..b + |x|] == x && n <= |x|
    ensures s[..b] + x[..n] == s[..b + n]
  {
    assert x[..n] == s[b..b + n];
  }

  lemma {:induction false} SkipContent(s: Slice, n: nat)
    requires s.Valid() && n <= s.Remaining()
    ensures s.Skip(n).bytes == s.bytes && s.Skip(n).Content() == s.Content()[n..]
  {
  }

  /**
   * Reading k bytes advances each buffer only, and by exactly the first k
   * bytes of their stream: what they still hold is the rest of the stream.
   */
  lemma {:induction false} ConsumeTakesStream(bs: seq<Slice>, k: nat)
    requires AllValid(bs) && k <= |Concat(bs)|
    ensures Concat(Consume(bs, k)) == Concat(bs)[k..]
  {
    if bs != [] {
      var t := Min(k, bs[0].Remaining());
      var c := Consume(bs, k);
      SkipContent(bs[0], t);
      ConsumeTakesStream(bs[1..], k - t);
      assert c[0] == bs[0].Skip(t) && c[1..] == Consume(bs[1..], k - t);
      assert Concat(c) == c[0].Content() + Concat(c[1..]);
      SuffixAcross(bs[0].Content(), Concat(bs[1..]), k, t);
    }
  }

  /** Dropping k elements of a + b drops t == min(k, |a|) of a and the rest of b. */
  lemma {:induction false} SuffixAcross<T>(a: seq<T>, b: seq<T>, k: nat, t: nat)
    requires k <= |a| + |b| && t == Min(k, |a|)
    ensures (a + b)[k..] == a[t..] + b[k - t..]
  {
    var l, r := (a + b)[k..], a[t..] + b[k - t..];
    assert |l| == |r|;
    forall x | 0 <= x < |l|
      ensures l[x] == r[x]
    {
      if k + x < |a| {
        assert l[x] == a[k + x] == r[x];
      } else {
        assert l[x] == b[k + x - |a|] == r[x];
      }
    }
  }

  /**
   * Conservation: the bytes flush takes followed by what the buffers still
   * hold are exactly the bytes they held before.
   */
  lemma {:induction false} TakenAndLeftMakeStream(bs: seq<Slice>, k: nat)
    requires AllValid(bs) && k <= |Concat(bs)|
    ensures Concat(bs)[..k] + Concat(Consume(bs, k)) == Concat(bs)
    ensures k + |Concat(Consume(bs, k))| == |Concat(bs)|
  {
    ConsumeTakesStream(bs, k);
    assert Concat(bs)[..k] + Concat(bs)[k..] == Concat(bs);
  }

  /** The buffers hold nothing exactly when none of them has content. */
  lemma {:induction false} ConcatEmpty(bs: seq<Slice>)
    requires AllValid(bs)
    ensures Concat(bs) == [] <==> forall j :: 0 <= j < |bs| ==> !bs[j].HasContent()
  {
    if bs != [] {
      ConcatEmpty(bs[1..]);
      assert forall j :: 1 <= j < |bs| ==> bs[j] == bs[1..][j - 1];
    }
  }

  /** Reading k bytes of the stream empties every buffer exactly when k is the whole stream. */
  lemma {:induction false} AllEmptiedIffAllTaken(bs: seq<Slice>, k: nat)
    requires AllValid(bs) && k <= |Concat(bs)|
    ensures (forall j :: 0 <= j < |bs| ==> !Consume(bs, k)[j].HasContent()) <==> k == |Concat(bs)|
  {
    ConsumeTakesStream(bs, k);
    ConcatEmpty(Consume(bs, k));
  }

  /** Buffers wholly past the first k bytes of the stream are left as they are. */
  lemma {:induction false} ConsumeLeavesLater(bs: seq<Slice>, k: nat, j: nat)
    requires AllValid(bs) && j < |bs| && k <= Before(bs, j)
    ensures Consume(bs, k)[j] == bs[j]
  {
    ConsumeAt(bs, k, j);
  }

  /** Reading only moves a buffer's position forward; its bytes stay as they are. */
  lemma {:induction false} ConsumeOnlyAdvances(bs: seq<Slice>, k: nat, j: nat)
    requires AllValid(bs) && j < |bs|
    ensures Consume(bs, k)[j].bytes == bs[j].bytes && bs[j].pos <= Consume(bs, k)[j].pos
  {
    ConsumeAt(bs, k, j);
  }

  /** Each buffer gives up those of the first k bytes of the stream that it holds. */
  lemma {:induction false} ConsumeAt(bs: seq<Slice>, k: nat, j: nat)
    requires AllValid(bs) && j < |bs|
    ensures Consume(bs, k)[j] == bs[j].Skip(TakenFrom(bs, k, j))
  {
    if j > 0 {
      var t := Min(k, bs[0].Remaining());
      ConsumeAt(bs[1..], k - t, j - 1);
      TakenPastHead(bs, k, j - 1);
    }
  }

  lemma {:induction false} TakenPastHead(bs: seq<Slice>, k: nat, j: nat)
    requires AllValid(bs) && j + 1 < |bs|
    ensures TakenFrom(bs, k, j + 1) == TakenFrom(bs[1..], k - Min(k, bs[0].Remaining()), j)
  {
    BeforePastHead(bs, j + 1);
  }

  /** Reading nothing leaves the buffers as they are. */
  lemma {:induction false} ConsumeNothing(bs: seq<Slice>)
    requires AllValid(bs)
    ensures Consume(bs, 0) == bs
  {
    if bs != [] {
      ConsumeNothing(bs[1..]);
      assert bs == [bs[0]] + bs[1..];
    }
  }

  /** The first i buffers hold the first Before(bs, i) bytes of the stream. */
  lemma {:induction false} WrittenPrefix(start: seq<byte>, bs: seq<Slice>, i: nat)
    requires AllValid(bs) && i <= |bs|
    ensures Before(bs, i) <= |Concat(bs)| && Written(start, bs, i) == start + Concat(bs)[..Before(bs, i)]
  {
    if i > 0 {
      WrittenPrefix(start, bs, i - 1);
      var b := bs[i - 1];
      AppendStream(bs, i - 1, b.Remaining());
      assert b.Content()[..b.Remaining()] == b.Content();
      ConcatAssoc(start, Concat(bs)[..Before(bs, i - 1)], b.Content());
    }
  }

  /**
   * Reading the first i buffers to the end and m bytes of buffer i (if
   * any) reads the first Before(bs, i) + m bytes of the stream: the first i
   * buffers' content followed by the m bytes read from buffer i.
   */
  lemma {:induction false} ReadUpTo(start: seq<byte>, bs: seq<Slice>, i: nat, m: nat)
    requires AllValid(bs) && i <= |bs|
    requires i < |bs| ==> m <= bs[i].Remaining()
    requires i == |bs| ==> m == 0
    ensures Before(bs, i) + m <= |Concat(bs)|
    ensures i < |bs| ==> Written(start, bs, i) + bs[i].Content()[..m] == start + Concat(bs)[..Before(bs, i) + m]
    ensures i == |bs| ==> Before(bs, i) == |Concat(bs)| && Written(start, bs, i) == start + Concat(bs)[..Before(bs, i)]
    ensures i < |bs| && m < bs[i].Remaining() ==> Before(bs, i) + m < |Concat(bs)|
  {
    WrittenPrefix(start, bs, i);
    BeforeAll(bs);
    if i < |bs| {
      AppendStream(bs, i, m);
      BeforeGrows(bs, i + 1, |bs|);
      ConcatAssoc(start, Concat(bs)[..Before(bs, i)], bs[i].Content()[..m]);
    }
  }

  /**
   * The buffers as flush leaves them when it stops in buffer i after m of its
   * bytes (the first i read to the end, the rest untouched) are what reading
   * the first k == Before(bs, i) + m bytes of the stream leaves.
   */
  lemma {:induction false} LeftAfterReading(bs: seq<Slice>, i: nat, m: nat, k: nat)
    requires AllValid(bs) && i <= |bs| && k == Before(bs, i) + m
    requires i < |bs| ==> m <= bs[i].Remaining()
    requires i == |bs| ==> m == 0
    ensures Advanced(bs, i, m) == Consume(bs, k)
  {
    var a, c := Advanced(bs, i, m), Consume(bs, k);
    forall j | 0 <= j < |bs|
      ensures a[j] == c[j]
    {
      ConsumeAt(bs, k, j);
      TakenUpTo(bs, i, m, j);
    }
  }

  lemma {:induction false} TakenUpTo(bs: seq<Slice>, i: nat, m: nat, j: nat)
    requires AllValid(bs) && i <= |bs| && j < |bs|
    requires i < |bs| ==> m <= bs[i].Remaining()
    requires i == |bs| ==> m == 0
    ensures TakenFrom(bs, Before(bs, i) + m, j) ==
      if j < i then bs[j].Remaining() else if j == i then m else 0
  {
    if j < i {
      BeforeGrows(bs, j + 1, i);
    } else if j > i {
      BeforeGrows(bs, i + 1, j);
    }
  }

  /**
   * The output's capacity once r more bytes were appended to it with growth
   * enabled: kept while they fit beside its content of the given length,
   * otherwise that of a replacement larger by twice r.
   */
  function GrownTo(capacity: nat, length: nat, r: nat): nat
  {
    if length + r <= capacity then capacity else capacity + 2 * r
  }

  /**
   * The output's capacity once the first i buffers were appended to it with
   * growth enabled, from the given capacity and content length.
   */
  function GrownCapacity(capacity: nat, length: nat, bs: seq<Slice>, i: nat): (c: nat)
    requires AllValid(bs) && i <= |bs|
    ensures capacity <= c
  {
    if i == 0 then capacity
    else GrownTo(GrownCapacity(capacity, length, bs, i - 1), length + Before(bs, i - 1), bs[i - 1].Remaining())
  }

  /**
   * Growth makes room for every byte appended, and the capacity grows by at
   * most twice their number.
   */
  lemma {:induction false} GrownCapacityBounds(capacity: nat, length: nat, bs: seq<Slice>, i: nat)
    requires AllValid(bs) && i <= |bs| && length <= capacity
    ensures length + Before(bs, i) <= GrownCapacity(capacity, length, bs, i) <= capacity + 2 * Before(bs, i)
  {
    if i > 0 {
      GrownCapacityBounds(capacity, length, bs, i - 1);
    }
  }

  /** When the content and all the bytes fit in the output, growth never replaces it. */
  lemma {:induction false} GrownCapacityStays(capacity: nat, length: nat, bs: seq<Slice>, i: nat)
    requires AllValid(bs) && i <= |bs| && length + Before(bs, i) <= capacity
    ensures GrownCapacity(capacity, length, bs, i) == capacity
  {
    if i > 0 {
      BeforeGrows(bs, i - 1, i);
      GrownCapacityStays(capacity, length, bs, i - 1);
    }
  }
}

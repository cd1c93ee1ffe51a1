/**
 * The stream codec of 493873/a2.go: encodeData prefixes "encoded:",
 * decodeData drops the first 8 bytes, and processStreamConcurrently splits
 * the stream into one contiguous range per worker, the last range taking
 * the remainder, and concatenates the callback's results.
 *
 * The callback is a function parameter whose None result is an error (the
 * item is skipped). The order in which the workers' results reach the
 * channel is a parameter `arrival`: the stream positions in the order their
 * results were received.
 */
module StreamCodec {
  import opened Wrappers
  import opened Bytes

  function Prefix(): (b: Buffer)
    ensures |b| == 8
  {
    FromAscii("encoded:")
  }

  /** encodeData: the prefix, then the data; the error is always nil. */
  function EncodeData(data: Buffer): (r: Buffer)
    ensures |r| == |data| + 8
    ensures r[..8] == Prefix() && r[8..] == data
  {
    Prefix() + data
  }

  /** decodeData: everything after the first 8 bytes; shorter data makes the slice panic. */
  function DecodeData(data: Buffer): (r: Buffer)
    requires |data| >= 8
    ensures |r| == |data| - 8 && data == data[..8] + r
  {
    data[8..]
  }

  /** decodeData undoes encodeData on every buffer. */
  lemma DecodeEncode(data: Buffer)
    ensures DecodeData(EncodeData(data)) == data
  {
  }

  /** encodeData undoes decodeData on a buffer that starts with the prefix. */
  lemma EncodeDecode(data: Buffer)
    requires |data| >= 8 && data[..8] == Prefix()
    ensures EncodeData(DecodeData(data)) == data
  {
  }

  // ---------------------------------------------------------------------
  // Work split

  /** The half-open range of stream positions worker i gets. */
  function Range(length: nat, numWorkers: int, i: nat): (nat, nat)
    requires 0 <= i < numWorkers
  {
    var chunkSize := length / numWorkers;
    var start := i * chunkSize;
    (start, if i == numWorkers - 1 then length else start + chunkSize)
  }

  /** The ranges cover 0 .. length in order, without gaps or overlaps. */
  predicate Partition(ranges: seq<(nat, nat)>, length: nat) {
    && |ranges| > 0
    && ranges[0].0 == 0
    && ranges[|ranges| - 1].1 == length
    && (forall i | 0 <= i < |ranges| :: ranges[i].0 <= ranges[i].1)
    && (forall i | 0 <= i < |ranges| - 1 :: ranges[i].1 == ranges[i + 1].0)
  }

  lemma BoundsBelow(i: nat, chunkSize: nat, numWorkers: nat, length: nat)
    requires i < numWorkers && chunkSize == length / numWorkers
    ensures (i + 1) * chunkSize <= length
  {
    assert (i + 1) * chunkSize <= numWorkers * chunkSize by {
      MulMonotone(i + 1, numWorkers, chunkSize);
    }
    assert numWorkers * chunkSize <= length;
  }

  lemma MulMonotone(a: nat, b: nat, c: nat)
    requires a <= b
    ensures a * c <= b * c
  {
  }

  /**
   * The range loop of processStreamConcurrently: for a positive worker count,
   * one range per worker, together a partition of the stream, every range
   * but the last exactly len/numWorkers long; no worker at all for a
   * negative count (division by zero panics, so zero is excluded).
   */
  method ChunkRanges(length: nat, numWorkers: int) returns (ranges: seq<(nat, nat)>)
    requires numWorkers != 0
    ensures numWorkers < 0 ==> ranges == []
    ensures numWorkers > 0 ==>
      && |ranges| == numWorkers
      && Partition(ranges, length)
      && (forall i | 0 <= i < numWorkers - 1 :: ranges[i].1 - ranges[i].0 == length / numWorkers)
    ensures forall i | 0 <= i < |ranges| :: ranges[i] == Range(length, numWorkers, i)
  {
    ranges := [];
    if numWorkers < 0 {
      return;
    }
    var chunkSize := length / numWorkers;
    var i := 0;
    while i < numWorkers
      invariant 0 <= i <= numWorkers
      invariant |ranges| == i
      invariant forall k | 0 <= k < i :: ranges[k] == Range(length, numWorkers, k)
      invariant forall k | 0 <= k < i :: ranges[k].0 == k * chunkSize
    {
      BoundsBelow(i, chunkSize, numWorkers, length);
      var start := i * chunkSize;
      var end := start + chunkSize;
      if i == numWorkers - 1 {
        end := length;
      }
      ranges := ranges + [(start, end)];
      i := i + 1;
    }
    forall k | 0 <= k < |ranges| - 1
      ensures ranges[k].1 == ranges[k + 1].0
    {
      assert (k + 1) * chunkSize == k * chunkSize + chunkSize;
    }
    forall k | 0 <= k < |ranges|
      ensures ranges[k].0 <= ranges[k].1
    {
      BoundsBelow(k, chunkSize, numWorkers, length);
    }
  }

  // ---------------------------------------------------------------------
  // Collecting the results

  /** The stream positions in arrival order: each exactly once. */
  predicate Arrival(arrival: seq<nat>, n: nat) {
    && |arrival| == n
    && (forall i | 0 <= i < n :: arrival[i] < n)
    && (forall i, j | 0 <= i < j < n :: arrival[i] != arrival[j])
  }

  /** The results of the calls that succeeded, in arrival order. */
  function Results(stream: seq<Buffer>, callback: Buffer -> Option<Buffer>, arrival: seq<nat>): (r: seq<Buffer>)
    requires forall i | 0 <= i < |arrival| :: arrival[i] < |stream|
    ensures |r| <= |arrival|
    decreases |arrival|
  {
    if arrival == [] then []
    else
      var init := Results(stream, callback, arrival[..|arrival| - 1]);
      match callback(stream[arrival[|arrival| - 1]])
      case Some(out) => init + [out]
      case None => init
  }

  /** processStreamConcurrently's result for a given arrival order. */
  function ProcessStream(stream: seq<Buffer>, callback: Buffer -> Option<Buffer>, arrival: seq<nat>): Buffer
    requires Arrival(arrival, |stream|)
  {
    Concat(Results(stream, callback, arrival))
  }

  function Identity(n: nat): (r: seq<nat>)
    ensures Arrival(r, n) && forall i | 0 <= i < n :: r[i] == i
  {
    seq(n, i => i)
  }

  function EncodeCallback(data: Buffer): Option<Buffer> {
    Some(EncodeData(data))
  }

  /** A callback that never fails loses nothing: every item's result is kept. */
  lemma {:induction false} NoErrorKeepsAll(stream: seq<Buffer>, callback: Buffer -> Option<Buffer>, arrival: seq<nat>)
    requires forall i | 0 <= i < |arrival| :: arrival[i] < |stream|
    requires forall d :: callback(d).Some?
    ensures Results(stream, callback, arrival) == seq(|arrival|, i requires 0 <= i < |arrival| => callback(stream[arrival[i]]).value)
    decreases |arrival|
  {
    if arrival != [] {
      NoErrorKeepsAll(stream, callback, arrival[..|arrival| - 1]);
    }
  }

  /** Encoding item by item, then decoding each result, gives back the items. */
  function DecodeEach(chunks: seq<Buffer>): (r: seq<Buffer>)
    requires forall i | 0 <= i < |chunks| :: |chunks[i]| >= 8
    ensures |r| == |chunks| && forall i | 0 <= i < |chunks| :: r[i] == DecodeData(chunks[i])
  {
    seq(|chunks|, i requires 0 <= i < |chunks| => DecodeData(chunks[i]))
  }

  /** Decoding each encoded result separately recovers the stream, in arrival order. */
  lemma DecodeEachRoundTrip(stream: seq<Buffer>, arrival: seq<nat>)
    requires Arrival(arrival, |stream|)
    ensures var encoded := Results(stream, EncodeCallback, arrival);
      && (forall i | 0 <= i < |encoded| :: |encoded[i]| >= 8)
      && DecodeEach(encoded) == seq(|stream|, i requires 0 <= i < |stream| => stream[arrival[i]])
  {
    NoErrorKeepsAll(stream, EncodeCallback, arrival);
    var encoded := Results(stream, EncodeCallback, arrival);
    assert |encoded| == |stream|;
    forall i | 0 <= i < |encoded|
      ensures |encoded[i]| >= 8 && DecodeData(encoded[i]) == stream[arrival[i]]
    {
      assert encoded[i] == EncodeData(stream[arrival[i]]);
    }
  }

  /**
   * main decodes the concatenated encoding as one buffer, so only the first
   * prefix is removed: two items come back with "encoded:" between them.
   */
  lemma ConcatenatedDecodeKeepsPrefixes()
    ensures var stream := [FromAscii("data-0"), FromAscii("data-1")];
      var encoded := ProcessStream(stream, EncodeCallback, Identity(2));
      && |encoded| >= 8
      && DecodeData(encoded) == FromAscii("data-0") + Prefix() + FromAscii("data-1")
      && DecodeData(encoded) != Concat(stream)
  {
    TwoItemsDecodedAsOne(FromAscii("data-0"), FromAscii("data-1"));
  }

  /** Decoding two items' concatenated encoding as one buffer keeps the second prefix. */
  lemma TwoItemsDecodedAsOne(a: Buffer, b: Buffer)
    ensures var encoded := ProcessStream([a, b], EncodeCallback, Identity(2));
      && |encoded| >= 8
      && DecodeData(encoded) == a + Prefix() + b
      && DecodeData(encoded) != Concat([a, b])
  {
    EncodedInOrder(a, b);
    ConcatTwo(EncodeData(a), EncodeData(b));
    ConcatTwo(a, b);
    var encoded := EncodeData(a) + EncodeData(b);
    assert encoded[8..] == a + EncodeData(b);
  }

  lemma EncodedInOrder(a: Buffer, b: Buffer)
    ensures Results([a, b], EncodeCallback, Identity(2)) == [EncodeData(a), EncodeData(b)]
  {
    assert Identity(2)[..1] == [0];
    assert Identity(2)[..1][..0] == [];
  }

  lemma ConcatTwo(x: Buffer, y: Buffer)
    ensures Concat([x, y]) == x + y
  {
    assert [x, y][..1] == [x];
    assert [x][..0] == [];
    assert Concat([x]) == Concat([]) + x;
    assert [] + x == x;
  }
}

/**
 * The pooled chunk codec of 493873/ideal2.go: encode appends the 8-byte
 * suffix "_encoded" to a Data's chunk, decode drops the last 8 bytes, and
 * returning a Data to the pool empties its chunk. The serial branch of
 * processData runs encode then decode on "raw data".
 */
module ChunkCodec {
  import opened Bytes

  /** The suffix encode appends. */
  function Suffix(): (b: Buffer)
    ensures |b| == 8
  {
    FromAscii("_encoded")
  }

  /** The chunk processData starts from. */
  function RawData(): Buffer {
    FromAscii("raw data")
  }

  /** encode on a chunk value: exactly the suffix is appended. */
  function Encode(chunk: Buffer): (r: Buffer)
    ensures |r| == |chunk| + 8
    ensures r[..|chunk|] == chunk && r[|chunk|..] == Suffix()
  {
    chunk + Suffix()
  }

  /** decode on a chunk value; a chunk shorter than 8 bytes makes the slice expression panic. */
  function Decode(chunk: Buffer): (r: Buffer)
    requires |chunk| >= 8
    ensures |r| == |chunk| - 8
    ensures chunk == r + chunk[|chunk| - 8..]
  {
    chunk[..|chunk| - 8]
  }

  /** decode undoes encode on every chunk. */
  lemma DecodeEncode(chunk: Buffer)
    ensures Decode(Encode(chunk)) == chunk
  {
    assert Encode(chunk)[..|chunk|] == chunk;
  }

  /** encode undoes decode on a chunk that ends with the suffix. */
  lemma EncodeDecode(chunk: Buffer)
    requires |chunk| >= 8 && chunk[|chunk| - 8..] == Suffix()
    ensures Encode(Decode(chunk)) == chunk
  {
  }

  /** decode never looks at the bytes it drops: any 8 trailing bytes are removed the same way. */
  lemma DecodeIgnoresTrailer(chunk: Buffer, trailer: Buffer)
    requires |trailer| == 8
    ensures Decode(chunk + trailer) == chunk
  {
    assert (chunk + trailer)[..|chunk|] == chunk;
  }

  class Data {
    var chunk: Buffer

    /** The pool's New function: a chunk of 1024 zero bytes. */
    constructor()
      ensures chunk == seq(1024, _ => 0 as byte)
    {
      chunk := seq(1024, _ => 0 as byte);
    }

    method EncodeChunk()
      modifies this
      ensures chunk == Encode(old(chunk))
    {
      chunk := chunk + FromAscii("_encoded");
    }

    method DecodeChunk()
      requires |chunk| >= 8
      modifies this
      ensures chunk == Decode(old(chunk))
    {
      chunk := chunk[..|chunk| - 8];
    }

    /** The clearing half of MemoryPool.Put: the chunk becomes empty. */
    method Reset()
      modifies this
      ensures chunk == []
    {
      chunk := chunk[..0];
    }
  }

  /**
   * The serial branch of processData: the printed chunk is "raw data" again,
   * and the Data goes back to the pool empty.
   */
  method ProcessSerial(data: Data) returns (printed: Buffer)
    modifies data
    ensures printed == RawData()
    ensures data.chunk == []
  {
    data.chunk := FromAscii("raw data");
    data.EncodeChunk();
    data.DecodeChunk();
    DecodeEncode(RawData());
    printed := data.chunk;
    data.Reset();
  }
}

/**
  The GridFS MD5 hash wrapper: a hash-algorithm-shaped object that keeps every
  byte handed to `TransformBlock`/`TransformFinalBlock` in a raw buffer and,
  whenever a digest is asked for, hashes that whole buffer in one call.

  Its `HashCore` does nothing, so every digest covers the raw buffer as it
  stands at the call: `ComputeHash` ignores the data it is given, and
  `TransformFinalBlock` hashes the buffer before its own block is appended.
  The digest itself is a foreign function, the `algorithm` of the wrapper.
 */
module Md5HashWrapper {
  import opened Basics

  type byte = b: int | 0 <= b < 256

  /** A digest function over a whole byte sequence (MD5 in the driver). */
  type Digest = seq<byte> -> seq<byte>

  /** The constant properties of the wrapper. */
  const HashSizeValue: int := 128
  const InputBlockSize: int := 1
  const OutputBlockSize: int := 1
  const CanTransformMultipleBlocks: bool := true
  const CanReuseTransform: bool := true

  const NeedNonNegNum := "ArgumentOutOfRange_NeedNonNegNum"
  const InvalidValue := "Argument_InvalidValue"
  const InvalidOffLen := "Argument_InvalidOffLen"

  datatype Md5Error =
    | ArgumentNullException(paramName: string)
    | ArgumentOutOfRangeException(paramName: string, message: string)
    | ArgumentException(message: string)
    | ObjectDisposedException
      /** The plain exception the `Hash` getter throws while a block transform is open. */
    | HashNotYetFinalized
      /** Dereferencing a null `HashValue` or a null input stream. */
    | NullReferenceException

  /**
    The wrapper's fields. `state` is `State` (1 while a block transform is
    open); `rawData` is every byte transformed so far. After disposal the
    source sets the raw buffer to null; here it is empty, and no operation
    reads it once `disposed` holds.
   */
  datatype Wrapper = Wrapper(hashValue: Option<seq<byte>>, state: int, rawData: seq<byte>, disposed: bool, algorithm: Digest)

  /** What a call does: it returns a value and the new wrapper, or throws and changes nothing. */
  datatype Call<+T> = Returned(next: Wrapper, value: T) | Threw(error: Md5Error)

  /** A new wrapper: no hash value yet, no data, not disposed. */
  function New(algorithm: Digest): (w: Wrapper)
    ensures w.hashValue.None? && w.state == 0 && w.rawData == [] && !w.disposed
    ensures w.algorithm == algorithm
  {
    Wrapper(None, 0, [], false, algorithm)
  }

  /** The digest of all raw data accumulated so far. */
  function HashFinal(w: Wrapper): seq<byte> {
    w.algorithm(w.rawData)
  }

  /**
    The argument checks shared by the three region-taking operations, in the
    order the source makes them; `None` when the region lies inside the buffer.
   */
  function CheckRegion(buffer: Option<seq<byte>>, offset: int, count: int, bufferName: string, offsetName: string)
    : (e: Option<Md5Error>)
    ensures e.None? <==> buffer.Some? && 0 <= offset && 0 <= count && offset + count <= |buffer.value|
    ensures buffer.None? ==> e == Some(ArgumentNullException(bufferName))
    ensures buffer.Some? && offset < 0 ==> e == Some(ArgumentOutOfRangeException(offsetName, NeedNonNegNum))
    ensures buffer.Some? && 0 <= offset && (count < 0 || count > |buffer.value|) ==> e == Some(ArgumentException(InvalidValue))
    ensures buffer.Some? && 0 <= offset && 0 <= count <= |buffer.value| && |buffer.value| - count < offset ==>
              e == Some(ArgumentException(InvalidOffLen))
  {
    if buffer.None? then Some(ArgumentNullException(bufferName))
    else if offset < 0 then Some(ArgumentOutOfRangeException(offsetName, NeedNonNegNum))
    else if count < 0 || count > |buffer.value| then Some(ArgumentException(InvalidValue))
    else if |buffer.value| - count < offset then Some(ArgumentException(InvalidOffLen))
    else None
  }

  /**
    `ComputeHash(Stream)`: the stream is read to its end in chunks, but the
    chunks go to the empty `HashCore`, so the result is the digest of the raw
    data. A null stream fails at its first read.
   */
  function ComputeHashStream(w: Wrapper, input: Option<seq<seq<byte>>>): (r: Call<seq<byte>>)
    ensures w.disposed ==> r == Threw(ObjectDisposedException)
    ensures !w.disposed && input.None? ==> r == Threw(NullReferenceException)
    ensures r.Returned? <==> !w.disposed && input.Some?
    ensures r.Returned? ==> r.value == w.algorithm(w.rawData) && r.next == w.(hashValue := Some(r.value))
  {
    if w.disposed then Threw(ObjectDisposedException)
    else if input.None? then Threw(NullReferenceException)
    else
      var h := HashFinal(w);
      Returned(w.(hashValue := Some(h)), h)
  }

  /** `ComputeHash(byte[])`: disposal is checked before the null buffer; the buffer's bytes are not used. */
  function ComputeHashBuffer(w: Wrapper, buffer: Option<seq<byte>>): (r: Call<seq<byte>>)
    ensures w.disposed ==> r == Threw(ObjectDisposedException)
    ensures !w.disposed && buffer.None? ==> r == Threw(ArgumentNullException("buffer"))
    ensures r.Returned? <==> !w.disposed && buffer.Some?
    ensures r.Returned? ==> r.value == w.algorithm(w.rawData) && r.next == w.(hashValue := Some(r.value))
  {
    if w.disposed then Threw(ObjectDisposedException)
    else if buffer.None? then Threw(ArgumentNullException("buffer"))
    else
      var h := HashFinal(w);
      Returned(w.(hashValue := Some(h)), h)
  }

  /** `ComputeHash(byte[], int, int)`: the arguments are checked before disposal; the region is not used. */
  function ComputeHashRegion(w: Wrapper, buffer: Option<seq<byte>>, offset: int, count: int): (r: Call<seq<byte>>)
    ensures CheckRegion(buffer, offset, count, "buffer", "offset").Some? ==>
              r == Threw(CheckRegion(buffer, offset, count, "buffer", "offset").value)
    ensures CheckRegion(buffer, offset, count, "buffer", "offset").None? && w.disposed ==> r == Threw(ObjectDisposedException)
    ensures r.Returned? <==> CheckRegion(buffer, offset, count, "buffer", "offset").None? && !w.disposed
    ensures r.Returned? ==> r.value == w.algorithm(w.rawData) && r.next == w.(hashValue := Some(r.value))
  {
    match CheckRegion(buffer, offset, count, "buffer", "offset")
    case Some(e) => Threw(e)
    case None =>
      if w.disposed then Threw(ObjectDisposedException)
      else
        var h := HashFinal(w);
        Returned(w.(hashValue := Some(h)), h)
  }

  /**
    `TransformBlock`: after the checks, opens a transform (`State` 1), appends
    exactly the region to the raw data and returns its length. The hash value
    is not touched.
   */
  function TransformBlock(w: Wrapper, inputBuffer: Option<seq<byte>>, inputOffset: int, inputCount: int): (r: Call<int>)
    ensures CheckRegion(inputBuffer, inputOffset, inputCount, "inputBuffer", "inputOffset").Some? ==>
              r == Threw(CheckRegion(inputBuffer, inputOffset, inputCount, "inputBuffer", "inputOffset").value)
    ensures CheckRegion(inputBuffer, inputOffset, inputCount, "inputBuffer", "inputOffset").None? && w.disposed ==>
              r == Threw(ObjectDisposedException)
    ensures r.Returned? <==> CheckRegion(inputBuffer, inputOffset, inputCount, "inputBuffer", "inputOffset").None? && !w.disposed
    ensures r.Returned? ==> r.value == inputCount
    ensures r.Returned? ==>
              r.next == w.(state := 1, rawData := w.rawData + inputBuffer.value[inputOffset..inputOffset + inputCount])
  {
    match CheckRegion(inputBuffer, inputOffset, inputCount, "inputBuffer", "inputOffset")
    case Some(e) => Threw(e)
    case None =>
      if w.disposed then Threw(ObjectDisposedException)
      else
        var w' := w.(state := 1);
        var data := if inputCount > 0
                    then w'.rawData + inputBuffer.value[inputOffset..inputOffset + inputCount]
                    else w'.rawData;
        Returned(w'.(rawData := data), inputCount)
  }

  /**
    `TransformFinalBlock`: after the checks, sets the hash value to the digest
    of the raw data as it was BEFORE this call, then appends the region,
    closes the transform (`State` 0) and returns a copy of the region.
   */
  function TransformFinalBlock(w: Wrapper, inputBuffer: Option<seq<byte>>, inputOffset: int, inputCount: int)
    : (r: Call<seq<byte>>)
    ensures CheckRegion(inputBuffer, inputOffset, inputCount, "inputBuffer", "inputOffset").Some? ==>
              r == Threw(CheckRegion(inputBuffer, inputOffset, inputCount, "inputBuffer", "inputOffset").value)
    ensures CheckRegion(inputBuffer, inputOffset, inputCount, "inputBuffer", "inputOffset").None? && w.disposed ==>
              r == Threw(ObjectDisposedException)
    ensures r.Returned? <==> CheckRegion(inputBuffer, inputOffset, inputCount, "inputBuffer", "inputOffset").None? && !w.disposed
    ensures r.Returned? ==> r.value == inputBuffer.value[inputOffset..inputOffset + inputCount]
    ensures r.Returned? ==>
              r.next == w.(hashValue := Some(w.algorithm(w.rawData)), rawData := w.rawData + r.value, state := 0)
  {
    match CheckRegion(inputBuffer, inputOffset, inputCount, "inputBuffer", "inputOffset")
    case Some(e) => Threw(e)
    case None =>
      if w.disposed then Threw(ObjectDisposedException)
      else
        var w' := w.(hashValue := Some(HashFinal(w)));
        var block := if inputCount != 0 then inputBuffer.value[inputOffset..inputOffset + inputCount] else [];
        var w'' := if inputCount != 0 then w'.(rawData := w'.rawData + block) else w';
        Returned(w''.(state := 0), block)
  }

  /**
    The `Hash` getter: fails once disposed, fails while a block transform is
    open, and otherwise returns a copy of the hash value, which must exist.
   */
  function Hash(w: Wrapper): (r: Result<seq<byte>, Md5Error>)
    ensures w.disposed ==> r == Failure(ObjectDisposedException)
    ensures !w.disposed && w.state != 0 ==> r == Failure(HashNotYetFinalized)
    ensures !w.disposed && w.state == 0 && w.hashValue.None? ==> r == Failure(NullReferenceException)
    ensures r.Success? <==> !w.disposed && w.state == 0 && w.hashValue.Some?
    ensures r.Success? ==> r.value == w.hashValue.value
  {
    if w.disposed then Failure(ObjectDisposedException)
    else if w.state != 0 then Failure(HashNotYetFinalized)
    else match w.hashValue
      case None => Failure(NullReferenceException)
      case Some(h) => Success(h)
  }

  /** `Dispose(bool)`: with `disposing` false nothing happens; otherwise hash value and raw data are dropped. */
  function DisposeCore(w: Wrapper, disposing: bool): (r: Wrapper)
    ensures !disposing ==> r == w
    ensures disposing ==> r.disposed && r.hashValue.None? && r.rawData == []
    ensures r.state == w.state && r.algorithm == w.algorithm
  {
    if !disposing then w
    else w.(hashValue := None, rawData := [], disposed := true)
  }

  /** `Dispose()`. */
  function Dispose(w: Wrapper): (r: Wrapper)
    ensures r.disposed && r.hashValue.None? && r.rawData == []
  {
    DisposeCore(w, true)
  }

  /** `Clear()`: the same as `Dispose()`. */
  function Clear(w: Wrapper): (r: Wrapper)
    ensures r == Dispose(w)
  {
    Dispose(w)
  }

  /** Disposing twice leaves the wrapper as disposing once did. */
  lemma DisposeIsIdempotent(w: Wrapper)
    ensures Dispose(Dispose(w)) == Dispose(w)
  {
  }

  /** After `Dispose` (or `Clear`), every operation that gets past its argument checks throws `ObjectDisposedException`. */
  lemma UseAfterDisposeThrows(w: Wrapper, input: Option<seq<seq<byte>>>, buffer: Option<seq<byte>>, offset: int, count: int)
    requires buffer.Some? && 0 <= offset && 0 <= count && offset + count <= |buffer.value|
    ensures Hash(Dispose(w)) == Failure(ObjectDisposedException)
    ensures ComputeHashStream(Dispose(w), input) == Threw(ObjectDisposedException)
    ensures ComputeHashBuffer(Clear(w), None) == Threw(ObjectDisposedException)
    ensures ComputeHashRegion(Dispose(w), buffer, offset, count) == Threw(ObjectDisposedException)
    ensures TransformBlock(Dispose(w), buffer, offset, count) == Threw(ObjectDisposedException)
    ensures TransformFinalBlock(Dispose(w), buffer, offset, count) == Threw(ObjectDisposedException)
  {
  }

  /**
    The three `ComputeHash` overloads give the same answer whatever input
    they are handed: the digest of the raw data, which they leave as it is.
   */
  lemma ComputeHashIgnoresItsInput(w: Wrapper, chunks: seq<seq<byte>>, a: seq<byte>, b: seq<byte>, offset: int, count: int)
    requires !w.disposed
    requires 0 <= offset && 0 <= count && offset + count <= |b|
    ensures ComputeHashBuffer(w, Some(a)) == ComputeHashBuffer(w, Some(b))
    ensures ComputeHashStream(w, Some(chunks)) == ComputeHashBuffer(w, Some(a))
    ensures ComputeHashRegion(w, Some(b), offset, count) == ComputeHashBuffer(w, Some(a))
    ensures ComputeHashBuffer(w, Some(a)).Returned? && ComputeHashBuffer(w, Some(a)).next.rawData == w.rawData
  {
  }

  /** `ComputeHash` does not close an open block transform: the `Hash` getter still refuses. */
  lemma ComputeHashKeepsTransformOpen(w: Wrapper, buffer: seq<byte>)
    requires !w.disposed && w.state == 1
    ensures Hash(ComputeHashBuffer(w, Some(buffer)).next) == Failure(HashNotYetFinalized)
  {
  }

  /** A fresh wrapper has no hash value: the `Hash` getter dereferences null. */
  lemma FreshHashIsNull(algorithm: Digest)
    ensures Hash(New(algorithm)) == Failure(NullReferenceException)
  {
  }

  /** The concatenation of blocks, first to last. */
  function Concat(blocks: seq<seq<byte>>): seq<byte>
    decreases |blocks|
  {
    if |blocks| == 0 then [] else blocks[0] + Concat(blocks[1..])
  }

  /**
    A caller's loop that hands each block, whole, to `TransformBlock`.
    Returns the total byte count; the raw data grows by exactly the blocks.
   */
  function FeedBlocks(w: Wrapper, blocks: seq<seq<byte>>): (r: Call<int>)
    ensures w.disposed && |blocks| > 0 ==> r == Threw(ObjectDisposedException)
    ensures !w.disposed ==> r.Returned?
    ensures r.Returned? ==> r.value == |Concat(blocks)|
    ensures r.Returned? ==> r.next.rawData == w.rawData + Concat(blocks)
    ensures r.Returned? ==> r.next == w.(rawData := r.next.rawData, state := r.next.state)
    ensures r.Returned? ==> r.next.state == if |blocks| == 0 then w.state else 1
    decreases |blocks|
  {
    if |blocks| == 0 then Returned(w, 0)
    else match TransformBlock(w, Some(blocks[0]), 0, |blocks[0]|)
      case Threw(e) => Threw(e)
      case Returned(next, n) =>
        match FeedBlocks(next, blocks[1..])
        case Threw(e) => Threw(e)
        case Returned(last, m) => Returned(last, n + m)
  }

  /**
    Streaming through the block transform: after feeding `blocks` and then a
    final block, the `Hash` getter yields the digest of everything except the
    final block, while a later `ComputeHash` covers the final block too.
   */
  lemma FinalBlockIsNotInTheHash(w: Wrapper, blocks: seq<seq<byte>>, final: seq<byte>)
    requires !w.disposed
    ensures FeedBlocks(w, blocks).Returned?
    ensures TransformFinalBlock(FeedBlocks(w, blocks).next, Some(final), 0, |final|).Returned?
    ensures Hash(TransformFinalBlock(FeedBlocks(w, blocks).next, Some(final), 0, |final|).next)
         == Success(w.algorithm(w.rawData + Concat(blocks)))
    ensures ComputeHashBuffer(TransformFinalBlock(FeedBlocks(w, blocks).next, Some(final), 0, |final|).next, Some(final)).value
         == w.algorithm(w.rawData + Concat(blocks) + final)
  {
    var fed := FeedBlocks(w, blocks);
    assert fed.next.algorithm == w.algorithm;
    assert final[0..|final|] == final;
  }

  /**
    What `HashFinal` digests: on a fresh wrapper fed `blocks` through
    `TransformBlock`, exactly the transformed bytes, in order, and only with
    the wrapper's own algorithm.
   */
  lemma HashFinalCoversTransformedData(algorithm: Digest, blocks: seq<seq<byte>>)
    ensures FeedBlocks(New(algorithm), blocks).Returned?
    ensures HashFinal(FeedBlocks(New(algorithm), blocks).next) == algorithm(Concat(blocks))
  {
    assert New(algorithm).rawData + Concat(blocks) == Concat(blocks);
  }

  /** On a fresh wrapper, a lone final block is hashed as the empty input. */
  lemma LoneFinalBlockHashesEmpty(algorithm: Digest, block: seq<byte>)
    ensures TransformFinalBlock(New(algorithm), Some(block), 0, |block|).Returned?
    ensures Hash(TransformFinalBlock(New(algorithm), Some(block), 0, |block|).next) == Success(algorithm([]))
  {
  }
}

/**
 * The bounded byte buffer behind `bufferInit`, `bufferCanWrite`, `bufferCanRead`,
 * `bufferFreeSpace`, `getWritePtr`, `advanceWritePtr`, `getReadPtr`,
 * `bufferPendingRead` and `advanceReadPtr` of include/buffer.h.
 *
 * include/buffer.h is not part of this model; its behaviour is ASSUMED to be that of a
 * linear buffer over a fixed storage area: bytes are appended at the write cursor and
 * drained at the read cursor, `0 <= rd <= wr <= capacity`, the free space is
 * `capacity - wr`, the pending count is `wr - rd`, and nothing moves the cursors back
 * (no compaction).
 */
module BoundedBuffer {
  import opened Bytes

  /** A buffer controller together with the storage it manages: `storage[rd..wr]` is
      pending (readable) and `storage[wr..]` is the free window. */
  datatype Buffer = Buffer(storage: seq<byte>, rd: nat, wr: nat)
  {
    /** The cursor invariant. */
    predicate Valid() {
      rd <= wr <= |storage|
    }

    /** Size of the storage area given to `bufferInit`. */
    function Capacity(): nat {
      |storage|
    }

    /** `bufferFreeSpace`: room left between the write cursor and the end of storage. */
    function FreeSpace(): nat
      requires Valid()
    {
      |storage| - wr
    }

    /** `bufferPendingRead`: number of bytes written and not yet drained. */
    function PendingRead(): nat
      requires Valid()
    {
      wr - rd
    }

    /** `bufferCanWrite`: there is free space. */
    predicate CanWrite()
      requires Valid()
    {
      FreeSpace() > 0
    }

    /** `bufferCanRead`: there are pending bytes. */
    predicate CanRead()
      requires Valid()
    {
      PendingRead() > 0
    }

    /** The bytes starting at `getReadPtr`, `bufferPendingRead` of them. */
    function Pending(): (p: seq<byte>)
      requires Valid()
      ensures |p| == PendingRead()
    {
      storage[rd..wr]
    }

    /** A `read`/`recv` that stores `data` at `getWritePtr`, followed by
        `advanceWritePtr(|data|)`. The caller asked for at most `FreeSpace()` bytes. */
    function AdvanceWrite(data: seq<byte>): (b: Buffer)
      requires Valid() && |data| <= FreeSpace()
      ensures b.Valid() && b.Capacity() == Capacity()
      ensures b.rd == rd && b.wr == wr + |data|
      ensures b.Pending() == Pending() + data
      ensures b.FreeSpace() == FreeSpace() - |data|
    {
      var s := storage[..wr] + data + storage[wr + |data|..];
      assert s[rd..wr + |data|] == storage[rd..wr] + data;
      Buffer(s, rd, wr + |data|)
    }

    /** A `send` of `n` bytes from `getReadPtr`, followed by `advanceReadPtr(n)`. The
        caller offered `PendingRead()` bytes, so `n` is at most that. */
    function AdvanceRead(n: nat): (b: Buffer)
      requires Valid() && n <= PendingRead()
      ensures b.Valid() && b.Capacity() == Capacity()
      ensures b.rd == rd + n && b.wr == wr
      ensures Pending()[..n] + b.Pending() == Pending()
      ensures b.FreeSpace() == FreeSpace()
    {
      Buffer(storage, rd + n, wr)
    }
  }

  /** `bufferInit(controller, |storage|, storage)`: an empty buffer over `storage`. */
  function Init(storage: seq<byte>): (b: Buffer)
    ensures b.Valid() && b.Capacity() == |storage|
    ensures b.Pending() == [] && b.FreeSpace() == |storage|
  {
    Buffer(storage, 0, 0)
  }

  /** Under the assumption of a linear buffer that is never compacted, neither operation
      moves the write cursor back, so the free space never grows: once a buffer is full
      it stays full. */
  lemma FreeSpaceNeverGrows(b: Buffer, data: seq<byte>, n: nat)
    requires b.Valid() && |data| <= b.FreeSpace() && n <= b.PendingRead()
    ensures b.AdvanceWrite(data).FreeSpace() <= b.FreeSpace()
    ensures b.AdvanceRead(n).FreeSpace() == b.FreeSpace()
    ensures !b.CanWrite() ==> !b.AdvanceRead(n).CanWrite()
  {
  }
}

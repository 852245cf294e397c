/** The remote bytes, and the vocabulary every module shares. */
module Content {
  newtype byte = b: int | 0 <= b < 256

  type Bytes = seq<byte>

  /** What the remote store holds: one byte for each file identifier and offset. */
  type RemoteBytes = (string, int) -> byte

  datatype Option<+T> = None | Some(value: T)

  /** The remote bytes [offset, offset + length) of a file. */
  function Slice(remote: RemoteBytes, fsid: string, offset: int, length: nat): (r: Bytes)
    ensures |r| == length
    ensures forall i :: 0 <= i < length ==> r[i] == remote(fsid, offset + i)
  {
    seq(length, i => remote(fsid, offset + i))
  }

  function Min(a: int, b: int): int { if a <= b then a else b }

  function Max(a: int, b: int): int { if a >= b then a else b }

  /** An element of a nonempty set. */
  lemma Pick<T>(s: set<T>) returns (x: T)
    requires s != {}
    ensures x in s
  {
    x :| x in s;
  }

  lemma {:induction false} SubsetSize<T>(a: set<T>, b: set<T>)
    requires a <= b
    ensures |a| <= |b|
  {
    if a != {} {
      var x := Pick(a);
      SubsetSize(a - {x}, b - {x});
    }
  }

  lemma NonEmpty<T>(s: set<T>)
    requires s != {}
    ensures exists x :: x in s
  {
  }

  /** A part of a slice is a slice. */
  lemma SliceOfSlice(remote: RemoteBytes, fsid: string, offset: int, length: nat, start: nat, end: nat)
    requires start <= end <= length
    ensures Slice(remote, fsid, offset, length)[start..end] == Slice(remote, fsid, offset + start, end - start)
  {
  }

  /** Adjacent slices join into one. */
  lemma SliceConcat(remote: RemoteBytes, fsid: string, offset: int, first: nat, second: nat)
    ensures Slice(remote, fsid, offset, first) + Slice(remote, fsid, offset + first, second)
         == Slice(remote, fsid, offset, first + second)
  {
  }
}

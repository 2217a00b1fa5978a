/**
 * A seekable byte stream read through a BinaryReader: the file's bytes and a
 * position. Reads that run past the end fail with EndOfStream, as
 * BinaryReader does; Stream.ReadByte returns -1 instead. A failed read keeps
 * the position, where BinaryReader would have consumed the bytes left; every
 * caller gives up on the stream after such a failure, so nothing observes the
 * difference.
 */
module Streams {
  import opened Wrappers
  import opened Ints
  import opened Bytes

  class ByteStream {
    const data: seq<byte>
    const canSeek: bool
    var pos: nat

    constructor (data: seq<byte>, canSeek: bool)
      ensures this.data == data && this.canSeek == canSeek && pos == 0
    {
      this.data := data;
      this.canSeek := canSeek;
      pos := 0;
    }

    /** Stream.ReadByte: the next byte, or -1 at the end of the stream. */
    method ReadByte() returns (b: int)
      modifies this
      ensures old(pos) < |data| ==> b == data[old(pos)] as int && pos == old(pos) + 1
      ensures old(pos) >= |data| ==> b == -1 && pos == old(pos)
    {
      if pos < |data| {
        b := data[pos] as int;
        pos := pos + 1;
      } else {
        b := -1;
      }
    }

    method ReadInt16() returns (r: Result<int>)
      modifies this
      ensures Within(data, old(pos), 2) ==> r == Success(I16At(data, old(pos))) && pos == old(pos) + 2
      ensures !Within(data, old(pos), 2) ==> r == Failure(EndOfStream) && pos == old(pos)
    {
      if pos + 2 <= |data| {
        r := Success(I16At(data, pos));
        pos := pos + 2;
      } else {
        r := Failure(EndOfStream);
      }
    }

    method ReadInt32() returns (r: Result<int>)
      modifies this
      ensures Within(data, old(pos), 4) ==> r == Success(I32At(data, old(pos))) && pos == old(pos) + 4
      ensures !Within(data, old(pos), 4) ==> r == Failure(EndOfStream) && pos == old(pos)
    {
      if pos + 4 <= |data| {
        r := Success(I32At(data, pos));
        pos := pos + 4;
      } else {
        r := Failure(EndOfStream);
      }
    }

    method ReadUInt32() returns (r: Result<int>)
      modifies this
      ensures Within(data, old(pos), 4) ==> r == Success(U32At(data, old(pos))) && pos == old(pos) + 4
      ensures !Within(data, old(pos), 4) ==> r == Failure(EndOfStream) && pos == old(pos)
    {
      if pos + 4 <= |data| {
        r := Success(U32At(data, pos));
        pos := pos + 4;
      } else {
        r := Failure(EndOfStream);
      }
    }

    /** BinaryReader.ReadBytes: up to n bytes; fewer at the end of the stream, never an error. */
    method ReadBytes(n: nat) returns (bs: seq<byte>)
      modifies this
      ensures old(pos) + n <= |data| ==> bs == data[old(pos)..old(pos) + n] && pos == old(pos) + n
      ensures old(pos) <= |data| < old(pos) + n ==> bs == data[old(pos)..] && pos == |data|
      ensures |data| < old(pos) ==> bs == [] && pos == old(pos)
    {
      if pos + n <= |data| {
        bs := data[pos..pos + n];
        pos := pos + n;
      } else if pos <= |data| {
        bs := data[pos..];
        pos := |data|;
      } else {
        bs := [];
      }
    }

    /** Stream.Seek(n, SeekOrigin.Current) for a forward skip; seeking past the end is allowed. */
    method Skip(n: nat)
      modifies this
      ensures pos == old(pos) + n
    {
      pos := pos + n;
    }

    /** Stream.Seek(p, SeekOrigin.Begin), which rejects a position before the beginning. */
    method Seek(p: int) returns (r: Result<()>)
      modifies this
      ensures p >= 0 ==> r == Success(()) && pos == p
      ensures p < 0 ==> r == Failure(IOError) && pos == old(pos)
    {
      if p >= 0 {
        pos := p;
        r := Success(());
      } else {
        r := Failure(IOError);
      }
    }

    /** The Stream.Position setter, which rejects a negative position. */
    method SetPosition(p: int) returns (r: Result<()>)
      modifies this
      ensures p >= 0 ==> r == Success(()) && pos == p
      ensures p < 0 ==> r == Failure(ArgumentOutOfRange) && pos == old(pos)
    {
      if p >= 0 {
        pos := p;
        r := Success(());
      } else {
        r := Failure(ArgumentOutOfRange);
      }
    }
  }
}

/**
 * The WDBC file reader of the older reader generation: the four-field header,
 * the records and string-table placement it derives from it, and the record
 * loop over the records block.
 */
module WdbcReader {
  import opened Wrappers
  import opened Ints
  import opened Bytes
  import opened Streams

  datatype Header = Header(recordCount: int, fieldCount: int, recordSize: int, stringTableSize: int)

  /**
   * What ReadHeader reads at `p`: the record count, and only when it is not 0
   * the field count, the record size and the string-table size, each a
   * little-endian int32. None stands for an empty file.
   */
  function HeaderAt(data: seq<byte>, p: int): (r: Result<Option<Header>>)
    ensures r == Success(None) <==> Within(data, p, 4) && I32At(data, p) == 0
    ensures r.Success? && r.value.Some? ==> Within(data, p, 16) && r.value.value.recordCount != 0
    ensures r.Failure? ==> r.error == EndOfStream && !Within(data, p, 16)
  {
    if !Within(data, p, 4) then Failure(EndOfStream)
    else if I32At(data, p) == 0 then Success(None)
    else if !Within(data, p, 16) then Failure(EndOfStream)
    else Success(Some(Header(I32At(data, p), I32At(data, p + 4), I32At(data, p + 8), I32At(data, p + 12))))
  }

  /** The int32 at p depends on the four bytes there only. */
  lemma I32AtPrefix(data: seq<byte>, other: seq<byte>, p: int)
    requires Within(data, p, 4) && Within(other, p, 4) && data[p..p + 4] == other[p..p + 4]
    ensures I32At(data, p) == I32At(other, p)
  {
    assert data[p] == data[p..p + 4][0] == other[p];
    assert data[p + 1] == data[p..p + 4][1] == other[p + 1];
    assert data[p + 2] == data[p..p + 4][2] == other[p + 2];
    assert data[p + 3] == data[p..p + 4][3] == other[p + 3];
  }

  /** An empty file's header is decided by its record count alone: nothing after it matters. */
  lemma {:induction false} EmptyHeaderIgnoresRest(data: seq<byte>, p: int, rest: seq<byte>)
    requires Within(data, p, 4) && I32At(data, p) == 0
    ensures HeaderAt(data[..p + 4] + rest, p) == Success(None)
  {
    var other := data[..p + 4] + rest;
    assert other[p..p + 4] == data[p..p + 4];
    I32AtPrefix(data, other, p);
  }

  /** A non-empty header is decided by its sixteen bytes. */
  lemma {:induction false} HeaderIgnoresRest(data: seq<byte>, p: int, rest: seq<byte>)
    requires Within(data, p, 16)
    ensures HeaderAt(data[..p + 16] + rest, p) == HeaderAt(data, p)
  {
    var other := data[..p + 16] + rest;
    assert other[p..p + 4] == data[p..p + 4];
    assert other[p + 4..p + 8] == data[p + 4..p + 8];
    assert other[p + 8..p + 12] == data[p + 8..p + 12];
    assert other[p + 12..p + 16] == data[p + 12..p + 16];
    I32AtPrefix(data, other, p);
    I32AtPrefix(data, other, p + 4);
    I32AtPrefix(data, other, p + 8);
    I32AtPrefix(data, other, p + 12);
  }

  /** The records start at `start`, one every `width` bytes, while before `end`. */
  function RecordStarts(start: int, end: int, width: int): (r: seq<int>)
    requires width > 0
    decreases end - start
  {
    if start >= end then [] else [start] + RecordStarts(start + width, end, width)
  }

  /** Record k starts k strides into the block, and every record starts inside it. */
  lemma {:induction false} RecordStartsStride(start: int, end: int, width: int)
    requires width > 0
    ensures var r := RecordStarts(start, end, width);
      forall k :: 0 <= k < |r| ==> r[k] == start + k * width && r[k] < end
    decreases end - start
  {
    if start < end {
      RecordStartsStride(start + width, end, width);
      var r := RecordStarts(start, end, width);
      forall k | 0 <= k < |r| ensures r[k] == start + k * width && r[k] < end {
        if k > 0 {
          assert r[k] == RecordStarts(start + width, end, width)[k - 1];
        }
      }
    }
  }

  /** A block of `count` records of `width` bytes yields exactly `count` records. */
  lemma {:induction false} RecordStartsCount(start: int, count: nat, width: int)
    requires width > 0
    ensures |RecordStarts(start, start + count * width, width)| == count
    decreases count
  {
    if count > 0 {
      assert start + count * width == (start + width) + (count - 1) * width;
      RecordStartsCount(start + width, count - 1, width);
    }
  }

  class Reader {
    const stream: ByteStream
    var fieldCount: int
    var recordsStart: int
    var recordsLength: int
    var stringTableStart: int
    var stringTableLength: int

    constructor (stream: ByteStream)
      ensures this.stream == stream
      ensures fieldCount == 0 && recordsStart == 0 && recordsLength == 0
      ensures stringTableStart == 0 && stringTableLength == 0
    {
      this.stream := stream;
      fieldCount, recordsStart, recordsLength := 0, 0, 0;
      stringTableStart, stringTableLength := 0, 0;
    }

    /**
     * ReadHeader: false for an empty file, right after its record count;
     * otherwise the records start after the header with RecordSize x
     * RecordCount bytes, and the string table follows the records.
     */
    method ReadHeader() returns (r: Result<bool>)
      modifies this, stream
      ensures HeaderAt(stream.data, old(stream.pos)).Failure? ==> r == Failure(EndOfStream)
      ensures HeaderAt(stream.data, old(stream.pos)) == Success(None) ==>
                r == Success(false) && stream.pos == old(stream.pos) + 4
                && fieldCount == old(fieldCount) && recordsStart == old(recordsStart) && recordsLength == old(recordsLength)
                && stringTableStart == old(stringTableStart) && stringTableLength == old(stringTableLength)
      ensures HeaderAt(stream.data, old(stream.pos)).Success? && HeaderAt(stream.data, old(stream.pos)).value.Some? ==>
                var h := HeaderAt(stream.data, old(stream.pos)).value.value;
                && r == Success(true) && stream.pos == old(stream.pos) + 16
                && recordsStart == old(stream.pos) + 16 && recordsLength == Mul32(h.recordSize, h.recordCount)
                && stringTableStart == recordsStart + recordsLength && stringTableLength == h.stringTableSize
                && fieldCount == h.fieldCount
    {
      var recordCount :- stream.ReadInt32();
      if recordCount == 0 {
        return Success(false);
      }
      var fields :- stream.ReadInt32();
      var size :- stream.ReadInt32();
      var strings :- stream.ReadInt32();
      recordsStart := stream.pos;
      recordsLength := Mul32(size, recordCount);
      stringTableLength := strings;
      stringTableStart := recordsStart + recordsLength;
      fieldCount := fields;
      r := Success(true);
    }

    /**
     * ReadRecords: from the records' start, one record per deserializer pass
     * while the position is before the records' end. The deserializer is not
     * part of this model: each pass consumes `width` bytes.
     */
    method ReadRecords(width: int) returns (r: Result<seq<int>>)
      requires width > 0
      modifies stream
      ensures recordsStart < 0 ==> r == Failure(ArgumentOutOfRange)
      ensures recordsStart >= 0 ==> r == Success(RecordStarts(recordsStart, recordsStart + recordsLength, width))
    {
      var _ :- stream.SetPosition(recordsStart);
      var end := recordsStart + recordsLength;
      var starts := [];
      while stream.pos < end
        invariant starts + RecordStarts(stream.pos, end, width) == RecordStarts(recordsStart, end, width)
        decreases end - stream.pos
      {
        assert RecordStarts(stream.pos, end, width) == [stream.pos] + RecordStarts(stream.pos + width, end, width);
        assert starts + [stream.pos] + RecordStarts(stream.pos + width, end, width)
            == starts + ([stream.pos] + RecordStarts(stream.pos + width, end, width));
        starts := starts + [stream.pos];
        stream.Skip(width);
      }
      assert starts + [] == starts;
      r := Success(starts);
    }
  }

  /** WDBC has no pallet, common-data, foreign-key or pallet-array members. */
  function ReadPalletMember(memberIndex: int): (r: Result<int>)
    ensures r == Failure(Unreachable)
  {
    Failure(Unreachable)
  }

  function ReadCommonMember(memberIndex: int): (r: Result<int>)
    ensures r == Failure(Unreachable)
  {
    Failure(Unreachable)
  }

  function ReadForeignKeyMember(memberIndex: int): (r: Result<int>)
    ensures r == Failure(Unreachable)
  {
    Failure(Unreachable)
  }

  function ReadPalletArrayMember(memberIndex: int): (r: Result<seq<int>>)
    ensures r == Failure(Unreachable)
  {
    Failure(Unreachable)
  }
}

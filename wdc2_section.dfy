/**
 * A WDC2 section: its 36-byte header, the placement of its segments inside
 * the file, and the two-step resolution of a string field into an offset
 * relative to the section's string table.
 */
module Wdc2Section {
  import opened Wrappers
  import opened Ints
  import opened Bytes
  import opened Streams
  import opened Segments

  /** The section header's fields, after two unused words. */
  datatype SectionHeader = SectionHeader(
    fileOffset: int, recordCount: int, stringTableSize: int, copyTableSize: int,
    offsetMapOffset: int, indexListSize: int, relationshipDataSize: int)

  const SECTION_HEADER_SIZE: int := 36

  function SectionHeaderAt(data: seq<byte>, p: int): SectionHeader
    requires Within(data, p, SECTION_HEADER_SIZE)
  {
    SectionHeader(I32At(data, p + 8), I32At(data, p + 12), I32At(data, p + 16), I32At(data, p + 20),
                  I32At(data, p + 24), I32At(data, p + 28), I32At(data, p + 32))
  }

  /** A start offset and a length; the end is their sum. */
  datatype Span = Span(start: int, length: int) {
    function End(): int { start + length }
  }

  /** Bit 0 of the file's flags: the records are sparse, located through an offset map. */
  predicate HasOffsetMap(flags: int) { flags % 2 != 0 }

  /**
   * The section's segments in file order: the records and the string table,
   * or the offset map instead of both, then the index table, the copy table
   * and the relationship data, each from the previous one's end.
   */
  function SectionLayout(h: SectionHeader, flags: int, recordSize: int): (c: seq<Segment>)
  {
    var first :=
      if !HasOffsetMap(flags) then
        var records := Segment(Records, h.fileOffset, Mul32(h.recordCount, recordSize), NoHandler);
        [records, Segment(StringBlock, records.End(), h.stringTableSize, NoHandler)]
      else
        [Segment(OffsetMap, h.fileOffset, Sub32(h.offsetMapOffset, h.fileOffset), NoHandler)];
    var index := Segment(IndexTable, first[|first| - 1].End(), h.indexListSize, NoHandler);
    var copy := Segment(CopyTable, index.End(), h.copyTableSize, NoHandler);
    first + [index, copy, Segment(RelationshipTable, copy.End(), h.relationshipDataSize, NoHandler)]
  }

  /**
   * The layout is contiguous from the section's file offset, and its segments
   * and their lengths are the header's, in the fixed order.
   */
  lemma SectionLayoutShape(h: SectionHeader, flags: int, recordSize: int)
    ensures var c := SectionLayout(h, flags, recordSize);
      && Contiguous(c) && c[0].start == h.fileOffset
      && (!HasOffsetMap(flags) ==>
            Parts(c) == [Part(Records, Mul32(h.recordCount, recordSize), NoHandler),
                         Part(StringBlock, h.stringTableSize, NoHandler),
                         Part(IndexTable, h.indexListSize, NoHandler),
                         Part(CopyTable, h.copyTableSize, NoHandler),
                         Part(RelationshipTable, h.relationshipDataSize, NoHandler)])
      && (HasOffsetMap(flags) ==>
            Parts(c) == [Part(OffsetMap, Sub32(h.offsetMapOffset, h.fileOffset), NoHandler),
                         Part(IndexTable, h.indexListSize, NoHandler),
                         Part(CopyTable, h.copyTableSize, NoHandler),
                         Part(RelationshipTable, h.relationshipDataSize, NoHandler)])
  {
  }

  /** With an offset map, the index table starts at the header's offset-map offset, unless the difference wraps. */
  lemma {:induction false} IndexTableAfterOffsetMap(h: SectionHeader, flags: int, recordSize: int)
    requires HasOffsetMap(flags) && IsInt32(h.offsetMapOffset - h.fileOffset)
    ensures SectionLayout(h, flags, recordSize)[1].id == IndexTable
    ensures SectionLayout(h, flags, recordSize)[1].start == h.offsetMapOffset
  {
  }

  /** WDC2RecordReader.ReadString: the table offset is the field's byte position plus the stored value. */
  function TableOffset(recordStart: int, byteCursor: int, stored: int): int
  {
    Wrap32(Wrap32(recordStart + DivT(byteCursor, 8)) + stored)
  }

  /** The packed overload adds the same terms in another order. */
  function PackedTableOffset(recordStart: int, byteCursor: int, stored: int): int
  {
    Wrap32(Wrap32(DivT(byteCursor, 8) + recordStart) + stored)
  }

  /** Section.FindStringByOffset: the table offset made relative to the string table's start. */
  function RelativeOffset(tableOffset: int, stringTableStart: int): int
  {
    Wrap32(tableOffset - stringTableStart)
  }

  /**
   * Where a string field's string is read from: the string table, the record
   * reader's own inline read at its cursor (base.ReadString), or the section's
   * file reader at the file stream's position (_fileReader.ReadString).
   */
  datatype StringRead = TableString(relativeOffset: int) | InlineString | FileReaderString

  /** ReadString(): through the string table when the section has one, inline otherwise. */
  function ReadString(usesStringTable: bool, recordStart: int, byteCursor: int, stored: int, stringTableStart: int): (r: StringRead)
    ensures r.TableString? <==> usesStringTable
  {
    if usesStringTable then TableString(RelativeOffset(TableOffset(recordStart, byteCursor, stored), stringTableStart))
    else InlineString
  }

  /**
   * ReadString(bitOffset, bitCount): through the string table when the section
   * has one; otherwise a string on a byte boundary is read by the section's
   * file reader, not by the record reader, and any other is rejected.
   */
  function ReadPackedString(usesStringTable: bool, bitOffset: int, recordStart: int, byteCursor: int, stored: int,
                            stringTableStart: int): (r: Result<StringRead>)
    ensures r.Failure? <==> !usesStringTable && bitOffset % 8 != 0
    ensures r.Failure? ==> r.error == InvalidOperation
    ensures r == Success(FileReaderString) <==> !usesStringTable && bitOffset % 8 == 0
    ensures r.Success? ==> !r.value.InlineString?
  {
    if usesStringTable then Success(TableString(RelativeOffset(PackedTableOffset(recordStart, byteCursor, stored), stringTableStart)))
    else if bitOffset % 8 == 0 then Success(FileReaderString)
    else Failure(InvalidOperation)
  }

  /**
   * Through a string table, both overloads resolve a stored value to the same
   * string; without one they read through different readers.
   */
  lemma OverloadsAgree(bitOffset: int, recordStart: int, byteCursor: int, stored: int, stringTableStart: int)
    ensures ReadPackedString(true, bitOffset, recordStart, byteCursor, stored, stringTableStart)
            == Success(ReadString(true, recordStart, byteCursor, stored, stringTableStart))
    ensures bitOffset % 8 == 0 ==>
              && ReadString(false, recordStart, byteCursor, stored, stringTableStart) == InlineString
              && ReadPackedString(false, bitOffset, recordStart, byteCursor, stored, stringTableStart) == Success(FileReaderString)
  {
  }

  /** The value a writer stores for the string at `relative` in the table: field-relative. */
  function StoredFor(relative: int, recordStart: int, byteCursor: int, stringTableStart: int): int
  {
    stringTableStart + relative - (recordStart + DivT(byteCursor, 8))
  }

  /** Resolution undoes the field-relative encoding while every intermediate value fits in 32 bits. */
  lemma {:induction false} StringRoundTrip(relative: int, recordStart: int, byteCursor: int, stringTableStart: int)
    requires IsInt32(recordStart + DivT(byteCursor, 8))
    requires IsInt32(StoredFor(relative, recordStart, byteCursor, stringTableStart))
    requires IsInt32(stringTableStart + relative) && IsInt32(relative)
    ensures ReadString(true, recordStart, byteCursor, StoredFor(relative, recordStart, byteCursor, stringTableStart), stringTableStart)
            == TableString(relative)
  {
  }

  /** A section has no common block and no pallet block of its own. */
  function ReadCommonMember(memberIndex: int): (r: Result<int>)
    ensures r == Failure(Unreachable)
  {
    Failure(Unreachable)
  }

  function ReadPalletMember(memberIndex: int): (r: Result<int>)
    ensures r == Failure(Unreachable)
  {
    Failure(Unreachable)
  }

  function ReadPalletArrayMember(memberIndex: int): (r: Result<seq<int>>)
    ensures r == Failure(Unreachable)
  {
    Failure(Unreachable)
  }

  /** Four ReadInt32 calls in a row. */
  method ReadFourInt32(stream: ByteStream) returns (r: Result<()>, a: int, b: int, c: int, d: int)
    modifies stream
    ensures Within(stream.data, old(stream.pos), 16) ==>
              r.Success? && stream.pos == old(stream.pos) + 16
              && a == I32At(stream.data, old(stream.pos)) && b == I32At(stream.data, old(stream.pos) + 4)
              && c == I32At(stream.data, old(stream.pos) + 8) && d == I32At(stream.data, old(stream.pos) + 12)
    ensures !Within(stream.data, old(stream.pos), 16) ==> r == Failure(EndOfStream)
  {
    a, b, c, d := 0, 0, 0, 0;
    var x :- stream.ReadInt32();
    var y :- stream.ReadInt32();
    var z :- stream.ReadInt32();
    var w :- stream.ReadInt32();
    a, b, c, d := x, y, z, w;
    r := Success(());
  }

  /** Three ReadInt32 calls in a row. */
  method ReadThreeInt32(stream: ByteStream) returns (r: Result<()>, a: int, b: int, c: int)
    modifies stream
    ensures Within(stream.data, old(stream.pos), 12) ==>
              r.Success? && stream.pos == old(stream.pos) + 12
              && a == I32At(stream.data, old(stream.pos)) && b == I32At(stream.data, old(stream.pos) + 4)
              && c == I32At(stream.data, old(stream.pos) + 8)
    ensures !Within(stream.data, old(stream.pos), 12) ==> r == Failure(EndOfStream)
  {
    a, b, c := 0, 0, 0;
    var x :- stream.ReadInt32();
    var y :- stream.ReadInt32();
    var z :- stream.ReadInt32();
    a, b, c := x, y, z;
    r := Success(());
  }

  class Section {
    const stream: ByteStream
    var header: SectionHeader
    var records: Span
    var recordsItemLength: int
    var stringTable: Span
    var offsetMap: Span
    var indexTable: Span
    var copyTable: Span
    var relationshipData: Span

    constructor (stream: ByteStream)
      ensures this.stream == stream && header == SectionHeader(0, 0, 0, 0, 0, 0, 0)
      ensures records == Span(0, 0) && recordsItemLength == 0 && stringTable == Span(0, 0) && offsetMap == Span(0, 0)
      ensures indexTable == Span(0, 0) && copyTable == Span(0, 0) && relationshipData == Span(0, 0)
    {
      this.stream := stream;
      header := SectionHeader(0, 0, 0, 0, 0, 0, 0);
      records, recordsItemLength, stringTable, offsetMap := Span(0, 0), 0, Span(0, 0), Span(0, 0);
      indexTable, copyTable, relationshipData := Span(0, 0), Span(0, 0), Span(0, 0);
    }

    /** The segments PopulateSegmentOffsets places, in file order. */
    function Chain(flags: int): seq<Segment>
      reads this
    {
      (if !HasOffsetMap(flags) then
         [Segment(Records, records.start, records.length, NoHandler),
          Segment(StringBlock, stringTable.start, stringTable.length, NoHandler)]
       else [Segment(OffsetMap, offsetMap.start, offsetMap.length, NoHandler)])
      + [Segment(IndexTable, indexTable.start, indexTable.length, NoHandler),
         Segment(CopyTable, copyTable.start, copyTable.length, NoHandler),
         Segment(RelationshipTable, relationshipData.start, relationshipData.length, NoHandler)]
    }

    /**
     * ReadHeader: skips two words, reads the seven fields; it always answers
     * true. On EndOfStream the header stays as it was, where the source has
     * already assigned the fields read before the failure; nothing reads a
     * section after the failure, so the difference is not observable.
     */
    method ReadHeader() returns (r: Result<bool>)
      modifies this`header, stream
      ensures Within(stream.data, old(stream.pos), SECTION_HEADER_SIZE) ==>
                r == Success(true) && header == SectionHeaderAt(stream.data, old(stream.pos))
                && stream.pos == old(stream.pos) + SECTION_HEADER_SIZE
      ensures !Within(stream.data, old(stream.pos), SECTION_HEADER_SIZE) ==> r == Failure(EndOfStream) && header == old(header)
    {
      stream.Skip(8);
      var _, fileOffset, recordCount, stringTableSize, copyTableSize :- ReadFourInt32(stream);
      var _, offsetMapOffset, indexListSize, relationshipDataSize :- ReadThreeInt32(stream);
      header := SectionHeader(fileOffset, recordCount, stringTableSize, copyTableSize,
                              offsetMapOffset, indexListSize, relationshipDataSize);
      r := Success(true);
    }

    /**
     * PopulateSegmentOffsets: places the segments of SectionLayout; the
     * branch not taken leaves its segments as they were.
     */
    method PopulateSegmentOffsets(flags: int, recordSize: int)
      modifies this`records, this`recordsItemLength, this`stringTable, this`offsetMap,
               this`indexTable, this`copyTable, this`relationshipData
      ensures Chain(flags) == SectionLayout(header, flags, recordSize)
      ensures !HasOffsetMap(flags) ==> recordsItemLength == recordSize && offsetMap == old(offsetMap)
      ensures HasOffsetMap(flags) ==>
                records == old(records) && recordsItemLength == old(recordsItemLength) && stringTable == old(stringTable)
    {
      if !HasOffsetMap(flags) {
        records := Span(header.fileOffset, Mul32(header.recordCount, recordSize));
        recordsItemLength := recordSize;
        stringTable := Span(records.End(), header.stringTableSize);
        indexTable := Span(stringTable.End(), 0);
      } else {
        offsetMap := Span(header.fileOffset, Sub32(header.offsetMapOffset, header.fileOffset));
        indexTable := Span(offsetMap.End(), 0);
      }
      indexTable := indexTable.(length := header.indexListSize);
      copyTable := Span(indexTable.End(), header.copyTableSize);
      relationshipData := Span(copyTable.End(), header.relationshipDataSize);
    }

    /** FindStringByOffset: the table offset relative to this section's string table. */
    function FindStringByOffset(tableOffset: int): (r: int)
      reads this
      ensures IsInt32(r)
      ensures IsInt32(tableOffset - stringTable.start) ==> r == tableOffset - stringTable.start
    {
      RelativeOffset(tableOffset, stringTable.start)
    }
  }
}

/**
 * The WDB5 parser of the parsing pipeline: the segment chain it plans from the
 * header, the record buffer size it chooses afterwards, and the order in which
 * it decorates its enumerator.
 */
module Wdb5Parser {
  import opened Wrappers
  import opened Ints
  import opened Segments
  import opened CopyTableEnumerator
  import opened Enumerators
  import OffsetMapHandler

  /** The header fields the parser reads (the header itself is decoded elsewhere). */
  datatype Header = Header(
    recordCount: int, fieldCount: int, recordSize: int, stringTableLength: int,
    minIndex: int, maxIndex: int,
    hasOffsetMap: bool, hasRelationshipTable: bool, hasIndexTable: bool,
    hasCopyTable: bool, copyTableLength: int)

  /** The size of a copy-table entry: a new key and the key it copies, four bytes each. */
  const COPY_ENTRY_SIZE := 2 * 4

  /** RecordCount: the stored records plus one per copy-table entry. */
  function RecordCount(h: Header): (r: int)
    ensures IsInt32(r)
    ensures 0 <= h.copyTableLength && IsInt32(h.recordCount + h.copyTableLength / COPY_ENTRY_SIZE) ==>
              r == h.recordCount + h.copyTableLength / COPY_ENTRY_SIZE
  {
    Wrap32(h.recordCount + DivT(h.copyTableLength, COPY_ENTRY_SIZE))
  }

  /** The number of whole copy-table entries in a block of `length` bytes, counted one by one. */
  function CopyEntries(length: nat): nat
    decreases length
  {
    if length < COPY_ENTRY_SIZE then 0 else 1 + CopyEntries(length - COPY_ENTRY_SIZE)
  }

  /** RecordCount counts one record per whole copy-table entry. */
  lemma {:induction false} RecordCountCountsCopies(h: Header)
    requires 0 <= h.copyTableLength
    requires IsInt32(h.recordCount + h.copyTableLength / COPY_ENTRY_SIZE)
    ensures RecordCount(h) == h.recordCount + CopyEntries(h.copyTableLength)
  {
    CopyEntriesIsQuotient(h.copyTableLength);
  }

  lemma {:induction false} CopyEntriesIsQuotient(length: nat)
    ensures CopyEntries(length) == length / COPY_ENTRY_SIZE
    decreases length
  {
    if length >= COPY_ENTRY_SIZE {
      CopyEntriesIsQuotient(length - COPY_ENTRY_SIZE);
    }
  }

  /** The order in which WDB5 files store their blocks. */
  function Rank(id: SegmentId): nat
  {
    match id
    case Header => 0
    case FieldInfo => 1
    case Records => 2
    case StringBlock => 3
    case OffsetMap => 3
    case RelationshipTable => 4
    case IndexTable => 5
    case CopyTable => 6
    case PalletData => 7
    case CommonData => 8
  }

  /** The offset map: 6 bytes for every index from MinIndex to MaxIndex. */
  function OffsetMapLength(h: Header): int
  {
    Wrap32(OffsetMapHandler.ENTRY_SIZE * (h.maxIndex - h.minIndex + 1))
  }

  /**
   * The records block. With an offset map, the header's string-table length is
   * the absolute offset of the offset map, so the records fill the gap up to it.
   */
  function RecordsLength(h: Header, fieldInfoEnd: int): int
  {
    if h.hasOffsetMap then h.stringTableLength - fieldInfoEnd
    else Mul32(h.recordCount, h.recordSize)
  }

  /** A one-part sequence when `present`, otherwise none. */
  function Opt<T>(present: bool, x: T): (r: seq<T>)
    ensures |r| == (if present then 1 else 0)
  {
    if present then [x] else []
  }

  /** The blocks every WDB5 file has, and the string block or the offset map. */
  function BaseLayout(h: Header, headerSize: int, origin: int): seq<Part>
  {
    [Part(SegmentId.Header, headerSize, HeaderHandler),
     Part(FieldInfo, Mul32(h.fieldCount, 4), FieldInfoHandler),
     Part(Records, RecordsLength(h, origin + headerSize + Mul32(h.fieldCount, 4)), NoHandler),
     if !h.hasOffsetMap then Part(StringBlock, h.stringTableLength, StringBlockHandler)
     else Part(OffsetMap, OffsetMapLength(h), OffsetMapHandler)]
  }

  function RelationshipPart(h: Header): Part { Part(RelationshipTable, Wrap32(4 * (h.maxIndex - h.minIndex + 1)), NoHandler) }

  function IndexPart(h: Header): Part { Part(IndexTable, Mul32(4, h.recordCount), IndexTableHandler) }

  function CopyPart(h: Header): Part { Part(CopyTable, h.copyTableLength, CopyTableHandler) }

  /** The parts Before(Segments) chains, in file order. */
  function Layout(h: Header, headerSize: int, origin: int): seq<Part>
  {
    BaseLayout(h, headerSize, origin)
    + Opt(h.hasRelationshipTable, RelationshipPart(h))
    + Opt(h.hasIndexTable, IndexPart(h))
    + Opt(h.hasCopyTable, CopyPart(h))
  }

  /** A chain that Before(Segments) may have built for this header. */
  ghost predicate Planned(chain: seq<Segment>, h: Header, headerSize: int, origin: int)
  {
    Parts(chain) == Layout(h, headerSize, origin) && Contiguous(chain) && chain != [] && chain[0].start == origin
  }

  /**
   * Before(Segments): the header, the field table and the records, then the
   * string block or the offset map, then the optional relationship, index and
   * copy tables, each linked after the previous tail.
   */
  method PlanSegments(h: Header, headerSize: int, origin: int) returns (chain: seq<Segment>)
    ensures Planned(chain, h, headerSize, origin)
  {
    chain := [Segment(SegmentId.Header, origin, headerSize, HeaderHandler)];
    chain := Link(chain, FieldInfo, Mul32(h.fieldCount, 4), FieldInfoHandler);
    chain := Link(chain, Records, RecordsLength(h, chain[1].End()), NoHandler);
    if !h.hasOffsetMap {
      chain := Link(chain, StringBlock, h.stringTableLength, StringBlockHandler);
    } else {
      chain := Link(chain, OffsetMap, OffsetMapLength(h), OffsetMapHandler);
    }
    ghost var parts := BaseLayout(h, headerSize, origin);
    assert Parts(chain) == parts;
    if h.hasRelationshipTable {
      chain := Link(chain, RelationshipTable, Wrap32(4 * (h.maxIndex - h.minIndex + 1)), NoHandler);
    }
    parts := parts + Opt(h.hasRelationshipTable, RelationshipPart(h));
    assert Parts(chain) == parts;
    if h.hasIndexTable {
      chain := Link(chain, IndexTable, Mul32(4, h.recordCount), IndexTableHandler);
    }
    parts := parts + Opt(h.hasIndexTable, IndexPart(h));
    assert Parts(chain) == parts;
    if h.hasCopyTable {
      chain := Link(chain, CopyTable, h.copyTableLength, CopyTableHandler);
    }
    parts := parts + Opt(h.hasCopyTable, CopyPart(h));
    assert Parts(chain) == parts;
  }

  /** The identifiers of the optional blocks, in file order. */
  function OptionalIds(h: Header): seq<SegmentId>
  {
    Opt(h.hasRelationshipTable, RelationshipTable) + Opt(h.hasIndexTable, IndexTable) + Opt(h.hasCopyTable, CopyTable)
  }

  /** The plan's identifiers: header, field table, records, string block or offset map, then the optional blocks. */
  function IdList(h: Header): seq<SegmentId>
  {
    [SegmentId.Header, FieldInfo, Records, if h.hasOffsetMap then OffsetMap else StringBlock] + OptionalIds(h)
  }

  lemma {:induction false} LayoutIds(h: Header, headerSize: int, origin: int)
    ensures PartIds(Layout(h, headerSize, origin)) == IdList(h)
  {
    var b := BaseLayout(h, headerSize, origin);
    var r, i, c := Opt(h.hasRelationshipTable, RelationshipPart(h)), Opt(h.hasIndexTable, IndexPart(h)), Opt(h.hasCopyTable, CopyPart(h));
    PartIdsAppend(b + r + i, c);
    PartIdsAppend(b + r, i);
    PartIdsAppend(b, r);
    assert PartIds(b) == IdList(h)[..4];
    assert PartIds(r) == Opt(h.hasRelationshipTable, RelationshipTable);
    assert PartIds(i) == Opt(h.hasIndexTable, IndexTable);
    assert PartIds(c) == Opt(h.hasCopyTable, CopyTable);
  }

  /** Whether a WDB5 file with this header has a block with the given identifier. */
  predicate Present(h: Header, id: SegmentId)
  {
    match id
    case Header => true
    case FieldInfo => true
    case Records => true
    case StringBlock => !h.hasOffsetMap
    case OffsetMap => h.hasOffsetMap
    case RelationshipTable => h.hasRelationshipTable
    case IndexTable => h.hasIndexTable
    case CopyTable => h.hasCopyTable
    case PalletData => false
    case CommonData => false
  }

  /** The plan holds exactly the blocks the header says are present: the string block xor the offset map, the rest as flagged. */
  lemma {:induction false} LayoutMembers(h: Header, headerSize: int, origin: int)
    ensures forall id :: id in PartIds(Layout(h, headerSize, origin)) <==> Present(h, id)
  {
    LayoutIds(h, headerSize, origin);
    forall id ensures id in IdList(h) <==> Present(h, id) {
      IdListMember(h, id);
    }
  }

  lemma IdListMember(h: Header, id: SegmentId)
    ensures id in IdList(h) <==> Present(h, id)
  {
    var b := [SegmentId.Header, FieldInfo, Records, if h.hasOffsetMap then OffsetMap else StringBlock];
    var r, i, c := Opt(h.hasRelationshipTable, RelationshipTable), Opt(h.hasIndexTable, IndexTable), Opt(h.hasCopyTable, CopyTable);
    assert IdList(h) == b + r + i + c;
  }

  /** The plan lists its blocks in the file's block order, each at most once. */
  lemma {:induction false} LayoutOrdered(h: Header, headerSize: int, origin: int)
    ensures var ids := PartIds(Layout(h, headerSize, origin));
      forall i, j :: 0 <= i < j < |ids| ==> Rank(ids[i]) < Rank(ids[j])
  {
    LayoutIds(h, headerSize, origin);
    IdListOrdered(h);
  }

  lemma IdListOrdered(h: Header)
    ensures var ids := IdList(h);
      forall i, j :: 0 <= i < j < |ids| ==> Rank(ids[i]) < Rank(ids[j])
  {
  }

  /** With an offset map, the records block ends where the header's string-table length points. */
  lemma {:induction false} PlannedOffsetMap(chain: seq<Segment>, h: Header, headerSize: int, origin: int)
    requires Planned(chain, h, headerSize, origin) && h.hasOffsetMap
    ensures |chain| >= 4 && chain[2].id == Records && chain[3].id == OffsetMap
    ensures chain[2].End() == h.stringTableLength && chain[3].start == h.stringTableLength
    ensures chain[3].length == OffsetMapLength(h)
  {
    assert PartOf(chain[1]) == Parts(chain)[1];
    assert PartOf(chain[2]) == Parts(chain)[2];
    assert PartOf(chain[3]) == Parts(chain)[3];
  }

  /**
   * The offset-map block and its handler are the fourth segment when the file
   * has an offset map; otherwise no segment is either.
   */
  lemma {:induction false} OffsetMapHandlerAt(chain: seq<Segment>, h: Header, headerSize: int, origin: int)
    requires Planned(chain, h, headerSize, origin)
    ensures h.hasOffsetMap ==> |chain| >= 4 && chain[3].handler == OffsetMapHandler
    ensures forall j :: 0 <= j < |chain| && chain[j].handler == OffsetMapHandler ==> h.hasOffsetMap && j == 3
    ensures forall j :: 0 <= j < |chain| && chain[j].id == OffsetMap ==> h.hasOffsetMap && j == 3
  {
    var layout := Layout(h, headerSize, origin);
    var rest := Opt(h.hasRelationshipTable, RelationshipPart(h)) + Opt(h.hasIndexTable, IndexPart(h)) + Opt(h.hasCopyTable, CopyPart(h));
    assert layout == BaseLayout(h, headerSize, origin) + rest;
    assert forall p :: p in rest ==> p.handler != OffsetMapHandler && p.id != OffsetMap;
    if h.hasOffsetMap {
      assert PartOf(chain[3]) == layout[3];
    }
    forall j | 0 <= j < |chain| && (chain[j].handler == OffsetMapHandler || chain[j].id == OffsetMap)
      ensures h.hasOffsetMap && j == 3
    {
      assert PartOf(chain[j]) == layout[j];
    }
  }

  /** Without an offset map, the records block holds RecordCount x RecordSize bytes right after the field table. */
  lemma {:induction false} PlannedRecords(chain: seq<Segment>, h: Header, headerSize: int, origin: int)
    requires Planned(chain, h, headerSize, origin) && !h.hasOffsetMap
    ensures |chain| >= 4 && chain[0].id == SegmentId.Header && chain[1].id == FieldInfo && chain[2].id == Records
    ensures chain[1].start == origin + headerSize
    ensures chain[2].start == origin + headerSize + Mul32(h.fieldCount, 4)
    ensures chain[3].id == StringBlock && chain[3].start == chain[2].start + Mul32(h.recordCount, h.recordSize)
  {
    assert PartOf(chain[0]) == Parts(chain)[0];
    assert PartOf(chain[1]) == Parts(chain)[1];
    assert PartOf(chain[2]) == Parts(chain)[2];
    assert PartOf(chain[3]) == Parts(chain)[3];
  }

  /** GetLargestRecordSize: the largest record size in the offset map, 0 for an empty one. */
  function LargestRecordSize(entries: seq<OffsetMapHandler.Entry>): (m: int)
    ensures forall i :: 0 <= i < |entries| ==> entries[i].size <= m
    ensures entries == [] ==> m == 0
    ensures entries != [] ==> exists i :: 0 <= i < |entries| && entries[i].size == m
  {
    if entries == [] then 0
    else
      var m := LargestRecordSize(entries[..|entries| - 1]);
      var last := entries[|entries| - 1].size;
      if |entries| == 1 || last > m then last else m
  }

  /**
   * After(Segments): the record buffer is sized for the largest offset-map record
   * when the chain holds an offset map (its handler's entries are `offsetMap`),
   * and for RecordSize otherwise.
   */
  function RecordBufferSize(h: Header, offsetMap: Option<seq<OffsetMapHandler.Entry>>): (n: int)
    ensures offsetMap.None? ==> n == h.recordSize
    ensures offsetMap.Some? ==> forall i :: 0 <= i < |offsetMap.value| ==> offsetMap.value[i].size <= n
    ensures offsetMap.Some? && offsetMap.value != [] ==> exists i :: 0 <= i < |offsetMap.value| && offsetMap.value[i].size == n
    ensures offsetMap == Some([]) ==> n == 0
  {
    match offsetMap
    case None => h.recordSize
    case Some(entries) => LargestRecordSize(entries)
  }

  /**
   * CreateEnumerator: the offset-map or the sequential base, decorated by the
   * index table and finally by the copy table.
   */
  function CreateEnumerator(h: Header): (p: Pipeline)
    ensures p.CopyTableOverlay? && p.inner.IndexTableOverlay?
    ensures p.inner.inner == if h.hasOffsetMap then OffsetMapBase else RecordsBase
  {
    WithCopyTable(WithIndexTable(if h.hasOffsetMap then OffsetMapBase else RecordsBase))
  }

  /**
   * The index table's keys are applied before the copy table is expanded, so
   * copies are looked up and cloned from the re-keyed base rows.
   */
  lemma Enumerates(h: Header, rows: seq<Record>, indexTable: seq<int>, copies: Option<CopyTable>)
    ensures Produce(CreateEnumerator(h), rows, indexTable, copies) == Output(OverrideKeys(rows, indexTable), copies)
  {
    var base := if h.hasOffsetMap then OffsetMapBase else RecordsBase;
    assert Produce(base, rows, indexTable, copies) == rows;
    assert Produce(IndexTableOverlay(base), rows, indexTable, copies) == OverrideKeys(rows, indexTable);
  }

  /**
   * The enumerator yields RecordCount rows when the file stores RecordCount
   * base rows and one copy-table entry per copy the table holds.
   */
  lemma {:induction false} EnumeratesRecordCount(h: Header, rows: seq<Record>, indexTable: seq<int>, copies: CopyTable)
    requires |rows| == h.recordCount && 0 <= h.copyTableLength
    requires IsInt32(h.recordCount + h.copyTableLength / COPY_ENTRY_SIZE)
    requires CopyCount(OverrideKeys(rows, indexTable), copies) == CopyEntries(h.copyTableLength)
    ensures |Produce(CreateEnumerator(h), rows, indexTable, Some(copies))| == RecordCount(h)
  {
    Enumerates(h, rows, indexTable, Some(copies));
    ExpandLength(OverrideKeys(rows, indexTable), copies);
    RecordCountCountsCopies(h);
  }
}

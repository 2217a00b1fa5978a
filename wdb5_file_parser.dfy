/**
 * The WDB5 parser of the block-handler code generation: Prepare extends the
 * chain after the head block and registers a handler for each block it can
 * decode; the handlers are then found by their identifier.
 */
module Wdb5FileParser {
  import opened Wrappers
  import opened Ints
  import opened Segments
  import Wdb5Parser
  import OffsetMapHandler

  /** The header fields the parser reads (the header itself is decoded elsewhere). */
  datatype Header = Header(
    recordCount: int, fieldCount: int, recordSize: int, stringTableLength: int,
    minIndex: int, maxIndex: int,
    hasOffsetMap: bool, hasForeignIds: bool, hasIndexTable: bool, copyTableLength: int)

  /** RecordCount as written: one record per two bytes of copy table. */
  function RecordCountAsWritten(h: Header): (r: int)
    ensures IsInt32(r)
    ensures 0 <= h.copyTableLength && IsInt32(h.recordCount + h.copyTableLength / 2) ==>
              r == h.recordCount + h.copyTableLength / 2
  {
    Wrap32(h.recordCount + DivT(h.copyTableLength, 2))
  }

  /** RecordCount as intended: one record per 8-byte copy-table entry, as the other generation counts. */
  function RecordCount(h: Header): (r: int)
    ensures IsInt32(r)
    ensures 0 <= h.copyTableLength && IsInt32(h.recordCount + h.copyTableLength / Wdb5Parser.COPY_ENTRY_SIZE) ==>
              r == h.recordCount + h.copyTableLength / Wdb5Parser.COPY_ENTRY_SIZE
  {
    Wrap32(h.recordCount + DivT(h.copyTableLength, Wdb5Parser.COPY_ENTRY_SIZE))
  }

  lemma {:induction false} RecordCountCountsCopies(h: Header)
    requires 0 <= h.copyTableLength
    requires IsInt32(h.recordCount + h.copyTableLength / Wdb5Parser.COPY_ENTRY_SIZE)
    ensures RecordCount(h) == h.recordCount + Wdb5Parser.CopyEntries(h.copyTableLength)
  {
    Wdb5Parser.CopyEntriesIsQuotient(h.copyTableLength);
  }

  /** One stored record and one copy-table entry make two records, but the source counts five. */
  lemma AsWrittenOvercountsCopies()
    ensures var h := Header.Header(1, 0, 0, 0, 0, 0, false, false, false, 8);
      && Wdb5Parser.CopyEntries(h.copyTableLength) == 1
      && RecordCount(h) == 2
      && RecordCountAsWritten(h) == 5
  {
    var h := Header.Header(1, 0, 0, 0, 0, 0, false, false, false, 8);
    assert Wdb5Parser.CopyEntries(0) == 0;
  }

  function RecordsLength(h: Header, fieldInfoEnd: int): int
  {
    if h.hasOffsetMap then h.stringTableLength - fieldInfoEnd
    else Mul32(h.recordCount, h.recordSize)
  }

  function OffsetMapLength(h: Header): int
  {
    Wrap32(OffsetMapHandler.ENTRY_SIZE * (h.maxIndex - h.minIndex + 1))
  }

  /** The head block, the field table, the records, and the string block or the offset map (blocks carry no handler here). */
  function BaseLayout(h: Header, head: Segment): seq<Part>
  {
    [PartOf(head),
     Part(FieldInfo, Mul32(h.fieldCount, 4), NoHandler),
     Part(Records, RecordsLength(h, head.End() + Mul32(h.fieldCount, 4)), NoHandler),
     if !h.hasOffsetMap then Part(StringBlock, h.stringTableLength, NoHandler)
     else Part(OffsetMap, OffsetMapLength(h), NoHandler)]
  }

  function RelationshipPart(h: Header): Part { Part(RelationshipTable, Wrap32(4 * (h.maxIndex - h.minIndex + 1)), NoHandler) }

  function IndexPart(h: Header): Part { Part(IndexTable, Mul32(4, h.recordCount), NoHandler) }

  function CopyPart(h: Header): Part { Part(CopyTable, h.copyTableLength, NoHandler) }

  /** The chain after Prepare, in file order; the copy table is chained only when it has bytes. */
  function Layout(h: Header, head: Segment): seq<Part>
  {
    BaseLayout(h, head)
    + Wdb5Parser.Opt(h.hasForeignIds, RelationshipPart(h))
    + Wdb5Parser.Opt(h.hasIndexTable, IndexPart(h))
    + Wdb5Parser.Opt(h.copyTableLength > 0, CopyPart(h))
  }

  /** The registrations after Prepare: those made before it, then its own, in order. */
  function Registrations(before: seq<Handler>, h: Header): seq<Handler>
  {
    before
    + [if !h.hasOffsetMap then StringBlockHandler else OffsetMapHandler]
    + Wdb5Parser.Opt(h.hasIndexTable, IndexTableHandler)
    + Wdb5Parser.Opt(h.copyTableLength > 0, CopyTableHandler)
  }

  /**
   * The identifier a handler reports. Every handler but the offset map's names
   * its own block; the offset map's identifier is a parameter so that both the
   * written one and the intended one can be examined.
   */
  function Identifier(handler: Handler, offsetMapIdentifier: SegmentId): (r: Option<SegmentId>)
    ensures r.None? <==> handler == NoHandler
    ensures handler == OffsetMapHandler ==> r == Some(offsetMapIdentifier)
    ensures handler != OffsetMapHandler && r.Some? ==> r.value != OffsetMap
  {
    match handler
    case NoHandler => None
    case HeaderHandler => Some(SegmentId.Header)
    case FieldInfoHandler => Some(FieldInfo)
    case StringBlockHandler => Some(StringBlock)
    case OffsetMapHandler => Some(offsetMapIdentifier)
    case IndexTableHandler => Some(IndexTable)
    case CopyTableHandler => Some(CopyTable)
  }

  /** The handler registry: each registration files the handler under its identifier, replacing any earlier one. */
  function Registry(handlers: seq<Handler>, offsetMapIdentifier: SegmentId): map<SegmentId, Handler>
  {
    if handlers == [] then map[]
    else
      var reg := Registry(handlers[..|handlers| - 1], offsetMapIdentifier);
      var last := handlers[|handlers| - 1];
      match Identifier(last, offsetMapIdentifier)
      case None => reg
      case Some(id) => reg[id := last]
  }

  /** The handler that decodes a block with this identifier, if the parser has one. */
  function HandlerFor(id: SegmentId): Option<Handler>
  {
    match id
    case FieldInfo => Some(FieldInfoHandler)
    case StringBlock => Some(StringBlockHandler)
    case OffsetMap => Some(OffsetMapHandler)
    case IndexTable => Some(IndexTableHandler)
    case CopyTable => Some(CopyTableHandler)
    case _ => None
  }

  class Parser {
    const header: Header
    /** Head and the blocks chained after it. */
    var chain: seq<Segment>
    /** The handlers passed to RegisterBlockHandler so far. */
    var registered: seq<Handler>
    /** The size the packed record reader is created with, once Prepare ran. */
    var recordReaderSize: Option<int>

    /** The constructor registers the field-table handler; the head block comes from the base parser. */
    constructor (header: Header, head: Segment)
      ensures this.header == header && chain == [head]
      ensures registered == [FieldInfoHandler] && recordReaderSize == None
    {
      this.header := header;
      chain := [head];
      registered := [FieldInfoHandler];
      recordReaderSize := None;
    }

    /**
     * Prepare: chains the field table, the records, the string block or the
     * offset map, and the optional relationship, index and copy tables after
     * Head, registering the handlers of the blocks it can decode.
     */
    method Prepare()
      requires chain != []
      modifies this
      ensures chain != [] && chain[0] == old(chain[0]) && Contiguous(chain)
      ensures Parts(chain) == Layout(header, old(chain[0]))
      ensures registered == Registrations(old(registered), header)
      ensures recordReaderSize == Some(header.recordSize)
    {
      var h := header;
      var c := ChainBlocks(h, chain[0]);
      var regs := registered + [if !h.hasOffsetMap then StringBlockHandler else OffsetMapHandler];
      if h.hasIndexTable {
        regs := regs + [IndexTableHandler];
      }
      if h.copyTableLength > 0 {
        regs := regs + [CopyTableHandler];
      }
      chain, registered, recordReaderSize := c, regs, Some(h.recordSize);
    }
  }

  /** A contiguous chain from the head holding exactly Prepare's blocks. */
  ghost predicate Chained(c: seq<Segment>, h: Header, head: Segment)
  {
    c != [] && c[0] == head && Contiguous(c) && Parts(c) == Layout(h, head)
  }

  /** The block chaining of Prepare: each block is linked after the previous tail. */
  method ChainBlocks(h: Header, head: Segment) returns (c: seq<Segment>)
    ensures Chained(c, h, head)
  {
    c := Link([head], FieldInfo, Mul32(h.fieldCount, 4), NoHandler);
    var fieldInfoEnd := c[1].End();
    assert fieldInfoEnd == head.End() + Mul32(h.fieldCount, 4);
    c := Link(c, Records, RecordsLength(h, fieldInfoEnd), NoHandler);
    ghost var parts := BaseLayout(h, head);
    if !h.hasOffsetMap {
      c := Link(c, StringBlock, h.stringTableLength, NoHandler);
      assert Parts(c) == parts;
    } else {
      c := Link(c, OffsetMap, OffsetMapLength(h), NoHandler);
      assert Parts(c) == parts;
    }
    if h.hasForeignIds {
      c := Link(c, RelationshipTable, Wrap32(4 * (h.maxIndex - h.minIndex + 1)), NoHandler);
    }
    parts := parts + Wdb5Parser.Opt(h.hasForeignIds, RelationshipPart(h));
    assert Parts(c) == parts;
    if h.hasIndexTable {
      c := Link(c, IndexTable, Mul32(4, h.recordCount), NoHandler);
    }
    parts := parts + Wdb5Parser.Opt(h.hasIndexTable, IndexPart(h));
    assert Parts(c) == parts;
    if h.copyTableLength > 0 {
      c := Link(c, CopyTable, h.copyTableLength, NoHandler);
    }
    parts := parts + Wdb5Parser.Opt(h.copyTableLength > 0, CopyPart(h));
    assert Parts(c) == parts;
  }

  /** The identifiers of the chain after Prepare, the head's first. */
  function ChainIds(h: Header, headId: SegmentId): seq<SegmentId>
  {
    [headId, FieldInfo, Records, if h.hasOffsetMap then OffsetMap else StringBlock]
    + Wdb5Parser.Opt(h.hasForeignIds, RelationshipTable)
    + Wdb5Parser.Opt(h.hasIndexTable, IndexTable)
    + Wdb5Parser.Opt(h.copyTableLength > 0, CopyTable)
  }

  lemma {:induction false} LayoutIds(h: Header, head: Segment)
    ensures PartIds(Layout(h, head)) == ChainIds(h, head.id)
  {
    var b := BaseLayout(h, head);
    var r, i, c := Wdb5Parser.Opt(h.hasForeignIds, RelationshipPart(h)), Wdb5Parser.Opt(h.hasIndexTable, IndexPart(h)),
      Wdb5Parser.Opt(h.copyTableLength > 0, CopyPart(h));
    PartIdsAppend(b + r + i, c);
    PartIdsAppend(b + r, i);
    PartIdsAppend(b, r);
    assert PartIds(b) == [head.id, FieldInfo, Records, if h.hasOffsetMap then OffsetMap else StringBlock];
    assert PartIds(r) == Wdb5Parser.Opt(h.hasForeignIds, RelationshipTable);
    assert PartIds(i) == Wdb5Parser.Opt(h.hasIndexTable, IndexTable);
    assert PartIds(c) == Wdb5Parser.Opt(h.copyTableLength > 0, CopyTable);
  }

  /** The registry a correct registration yields: one entry per chained block that has a handler. */
  function ExpectedRegistry(h: Header): map<SegmentId, Handler>
  {
    var base := map[FieldInfo := FieldInfoHandler];
    var mid := if h.hasOffsetMap then base[OffsetMap := OffsetMapHandler] else base[StringBlock := StringBlockHandler];
    var idx := if h.hasIndexTable then mid[IndexTable := IndexTableHandler] else mid;
    if h.copyTableLength > 0 then idx[CopyTable := CopyTableHandler] else idx
  }

  /** A registration files the handler under its identifier. */
  lemma RegistrySnoc(handlers: seq<Handler>, x: Handler, omid: SegmentId)
    ensures Registry(handlers + [x], omid) ==
      match Identifier(x, omid) case None => Registry(handlers, omid) case Some(id) => Registry(handlers, omid)[id := x]
  {
    assert (handlers + [x])[..|handlers|] == handlers;
  }

  lemma {:induction false} RegistryIntended(h: Header)
    ensures Registry(Registrations([FieldInfoHandler], h), OffsetMapHandler.IDENTIFIER) == ExpectedRegistry(h)
  {
    var omid := OffsetMapHandler.IDENTIFIER;
    var mid := if !h.hasOffsetMap then StringBlockHandler else OffsetMapHandler;
    RegistrySnoc([], FieldInfoHandler, omid);
    assert [] + [FieldInfoHandler] == [FieldInfoHandler];
    var m1 := map[FieldInfo := FieldInfoHandler];
    assert Registry([FieldInfoHandler], omid) == m1;
    RegistrySnoc([FieldInfoHandler], mid, omid);
    var first := [FieldInfoHandler] + [mid];
    var m2 := if h.hasOffsetMap then m1[OffsetMap := OffsetMapHandler] else m1[StringBlock := StringBlockHandler];
    assert Registry(first, omid) == m2;
    var withIdx := first + Wdb5Parser.Opt(h.hasIndexTable, IndexTableHandler);
    var m3 := if h.hasIndexTable then m2[IndexTable := IndexTableHandler] else m2;
    if h.hasIndexTable { RegistrySnoc(first, IndexTableHandler, omid); } else { assert withIdx == first; }
    assert Registry(withIdx, omid) == m3;
    var all := withIdx + Wdb5Parser.Opt(h.copyTableLength > 0, CopyTableHandler);
    if h.copyTableLength > 0 { RegistrySnoc(withIdx, CopyTableHandler, omid); } else { assert all == withIdx; }
    assert Registry(all, omid) == ExpectedRegistry(h);
  }

  /** The identifiers of the blocks Prepare chains after the head. */
  function BodyIds(h: Header): seq<SegmentId>
  {
    [FieldInfo, Records, if h.hasOffsetMap then OffsetMap else StringBlock]
    + Wdb5Parser.Opt(h.hasForeignIds, RelationshipTable)
    + Wdb5Parser.Opt(h.hasIndexTable, IndexTable)
    + Wdb5Parser.Opt(h.copyTableLength > 0, CopyTable)
  }

  lemma BodyAfterHead(h: Header, headId: SegmentId)
    ensures ChainIds(h, headId)[1..] == BodyIds(h)
  {
    var ids, body := ChainIds(h, headId), BodyIds(h);
    assert |ids| == |body| + 1;
    forall k | 0 <= k < |body| ensures ids[k + 1] == body[k] {
    }
  }

  lemma ExpectedMember(h: Header, id: SegmentId)
    ensures id in ExpectedRegistry(h) <==> id in BodyIds(h) && HandlerFor(id).Some?
    ensures id in ExpectedRegistry(h) ==> ExpectedRegistry(h)[id] == HandlerFor(id).value
  {
  }

  /**
   * With the intended offset-map identifier, the registry holds, for every
   * block Prepare chains after the head that has a handler, exactly that
   * handler, and nothing else.
   */
  lemma {:induction false} RegistryCoversChain(h: Header, head: Segment)
    ensures var reg := Registry(Registrations([FieldInfoHandler], h), OffsetMapHandler.IDENTIFIER);
      forall id :: (id in reg <==> id in PartIds(Layout(h, head))[1..] && HandlerFor(id).Some?)
                   && (id in reg ==> reg[id] == HandlerFor(id).value)
  {
    LayoutIds(h, head);
    RegistryIntended(h);
    BodyAfterHead(h, head.id);
    forall id ensures (id in ExpectedRegistry(h) <==> id in BodyIds(h) && HandlerFor(id).Some?)
                      && (id in ExpectedRegistry(h) ==> ExpectedRegistry(h)[id] == HandlerFor(id).value) {
      ExpectedMember(h, id);
    }
  }

  /**
   * With the identifier as written (CopyTable), a file with an offset map has
   * no handler registered for its offset map, and when it also has a copy table
   * the offset-map handler has been replaced by the copy-table handler.
   */
  lemma AsWrittenRegistryMissesOffsetMap()
    ensures var h := Header.Header(1, 1, 4, 32, 1, 1, true, false, false, 8);
      var reg := Registry(Registrations([FieldInfoHandler], h), OffsetMapHandler.IDENTIFIER_AS_WRITTEN);
      && OffsetMap in ChainIds(h, SegmentId.Header)
      && OffsetMap !in reg
      && reg[CopyTable] == CopyTableHandler
  {
    var h := Header.Header(1, 1, 4, 32, 1, 1, true, false, false, 8);
    var omid := OffsetMapHandler.IDENTIFIER_AS_WRITTEN;
    RegistrySnoc([], FieldInfoHandler, omid);
    assert [] + [FieldInfoHandler] == [FieldInfoHandler];
    RegistrySnoc([FieldInfoHandler], OffsetMapHandler, omid);
    assert [FieldInfoHandler] + [OffsetMapHandler] == [FieldInfoHandler, OffsetMapHandler];
    RegistrySnoc([FieldInfoHandler, OffsetMapHandler], CopyTableHandler, omid);
    assert [FieldInfoHandler, OffsetMapHandler] + [CopyTableHandler] == [FieldInfoHandler, OffsetMapHandler, CopyTableHandler];
    assert Registrations([FieldInfoHandler], h) == [FieldInfoHandler, OffsetMapHandler, CopyTableHandler];
    assert ChainIds(h, SegmentId.Header) == [SegmentId.Header, FieldInfo, Records, OffsetMap, CopyTable];
  }
}

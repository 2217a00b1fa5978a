/**
 * The WDBC storage file of the parsing pipeline: a records block followed by
 * a string block, no copies, and no per-record keys.
 */
module WdbcStorageFile {
  import opened Wrappers
  import opened Ints
  import opened Bytes
  import opened Segments
  import opened Streams
  import opened CopyTableEnumerator
  import opened Enumerators

  /** The header fields the storage file reads (the header itself is decoded elsewhere). */
  datatype Header = Header(recordCount: int, fieldCount: int, recordSize: int, stringTableLength: int)

  /** RecordCount: the header's record count; WDBC has no copy table. */
  function RecordCount(h: Header): (r: int)
    ensures r == h.recordCount
  {
    h.recordCount
  }

  /** The two parts of a WDBC file after its header, in file order. */
  function Layout(h: Header): seq<Part>
  {
    [Part(Records, Mul32(h.recordCount, h.recordSize), NoHandler),
     Part(StringBlock, h.stringTableLength, StringBlockHandler)]
  }

  /** A chain that Before(Segments) may have built for this header. */
  ghost predicate Planned(chain: seq<Segment>, h: Header, origin: int)
  {
    Parts(chain) == Layout(h) && Contiguous(chain) && chain != [] && chain[0].start == origin
  }

  /** The record reader's string source is a string-block handler of the chain. */
  ghost predicate StringSourceAt(chain: seq<Segment>, stringSource: nat)
  {
    stringSource < |chain| && chain[stringSource].handler == StringBlockHandler
  }

  /**
   * The segment chain Before(Segments) builds: Records, then the string block
   * with its handler. `stringSource` is the chain position of the string-block
   * handler the record reader is given.
   */
  method PlanSegments(h: Header, origin: int) returns (chain: seq<Segment>, stringSource: nat)
    ensures Planned(chain, h, origin)
    ensures FirstIndex(chain, StringBlock) == Some(stringSource)
    ensures StringSourceAt(chain, stringSource)
  {
    chain := [Segment(Records, origin, Mul32(h.recordCount, h.recordSize), NoHandler)];
    chain := Link(chain, StringBlock, h.stringTableLength, StringBlockHandler);
    stringSource := 1;
  }

  /** Where a planned chain puts each block. */
  lemma {:induction false} PlannedBlocks(h: Header, origin: int, chain: seq<Segment>)
    requires Planned(chain, h, origin)
    ensures |chain| == 2 && Ids(chain) == [Records, StringBlock]
    ensures chain[0].End() == origin + Mul32(h.recordCount, h.recordSize)
    ensures chain[1].start == chain[0].End()
    ensures chain[1].End() == origin + Mul32(h.recordCount, h.recordSize) + h.stringTableLength
    ensures 0 <= h.recordCount && 0 <= h.recordSize && h.recordCount * h.recordSize < TWO_31 ==>
              chain[1].start == origin + h.recordCount * h.recordSize
  {
    assert PartOf(chain[0]) == Parts(chain)[0];
    assert PartOf(chain[1]) == Parts(chain)[1];
  }

  /** CreateEnumerator: the sequential records enumerator, without overlays. */
  function CreateEnumerator(h: Header): (p: Pipeline)
    ensures !p.CopyTableOverlay? && !p.IndexTableOverlay?
  {
    RecordsBase
  }

  /** The enumerator yields the stored rows unchanged, so it yields RecordCount rows. */
  lemma EnumeratesStoredRows(h: Header, rows: seq<Record>, indexTable: seq<int>, copies: Option<CopyTable>)
    requires |rows| == h.recordCount
    ensures Produce(CreateEnumerator(h), rows, indexTable, copies) == rows
    ensures |Produce(CreateEnumerator(h), rows, indexTable, copies)| == RecordCount(h)
  {
  }

  /** The bytes a record read at `offset` limited to `length` bytes can see. */
  function Window(data: seq<byte>, offset: nat, length: nat): (w: seq<byte>)
    ensures |w| <= length
    ensures offset + |w| <= |data| || w == []
    ensures forall i :: 0 <= i < |w| ==> w[i] == data[offset + i]
    ensures offset + length <= |data| ==> |w| == length
  {
    if offset >= |data| then []
    else if offset + length <= |data| then data[offset..offset + length]
    else data[offset..]
  }

  /**
   * ObtainRecord: positions the data stream at `offset` and hands the
   * deserializer a view limited to `length` bytes; the view's bytes are returned.
   */
  method ObtainRecord(stream: ByteStream, offset: int, length: int) returns (r: Result<seq<byte>>)
    requires length >= 0
    modifies stream
    ensures offset < 0 ==> r == Failure(ArgumentOutOfRange) && stream.pos == old(stream.pos)
    ensures offset >= 0 ==> r == Success(Window(stream.data, offset, length)) && stream.pos == offset
  {
    var _ :- stream.SetPosition(offset);
    r := Success(Window(stream.data, offset, length));
  }

  /** WDBC records carry no key the storage file can read. */
  function GetRecordKey(value: Record): (r: Result<int>)
    ensures r == Failure(InvalidOperation)
  {
    Failure(InvalidOperation)
  }

  function SetRecordKey(value: Record, recordKey: int): (r: Result<Record>)
    ensures r == Failure(InvalidOperation)
  {
    Failure(InvalidOperation)
  }

  function Clone(source: Record): (r: Result<Record>)
    ensures r == Failure(InvalidOperation)
  {
    Failure(InvalidOperation)
  }
}

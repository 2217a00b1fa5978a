/**
 * The storage-file driver of the parsing pipeline: segment lookup on the
 * chain, and GetEnumerator, which plans the chain, reads every segment in
 * chain order, finishes the segment step and only then builds the enumerator.
 */
module BinaryStorageFile {
  import opened Wrappers
  import opened Segments
  import opened Streams
  import opened Enumerators
  import WdbcStorageFile
  import Wdb5Parser
  import OffsetMapHandler

  /** The parsing steps Before and After are called for; only Segments does anything here. */
  datatype ParsingStep = Segments | OtherStep

  /** FindSegment: the chain walk from Head, stopping at the first segment with the identifier. */
  method FindSegment(head: seq<Segment>, id: SegmentId) returns (r: Option<nat>)
    ensures r == FirstIndex(head, id)
  {
    var i := 0;
    while i < |head| && head[i].id != id
      invariant 0 <= i <= |head|
      invariant forall j :: 0 <= j < i ==> head[j].id != id
    {
      i := i + 1;
    }
    r := if i < |head| then Some(i) else None;
  }

  /** FindSegmentHandler: nothing when no segment has the identifier, otherwise the first such segment's handler. */
  function FindSegmentHandler(head: seq<Segment>, id: SegmentId): (r: Option<Handler>)
    ensures r.None? <==> forall j :: 0 <= j < |head| ==> head[j].id != id
    ensures r.Some? ==> exists k :: 0 <= k < |head| && head[k].id == id && r.value == head[k].handler
                                    && forall j :: 0 <= j < k ==> head[j].id != id
  {
    match FirstIndex(head, id)
    case None => None
    case Some(k) => Some(head[k].handler)
  }

  /** The format a storage file decodes, with its header. */
  datatype Format =
    | Wdbc(wdbc: WdbcStorageFile.Header)
    | Wdb5(wdb5: Wdb5Parser.Header, headerSize: int)

  /** What a storage file does, in order. */
  datatype Event =
    | Repositioned
    | BeforeStep(step: ParsingStep)
    | SegmentRead(segment: Segment)
    | AfterStep(step: ParsingStep)
    | EnumeratorCreated

  /** One SegmentRead per segment, in chain order. */
  function Reads(chain: seq<Segment>): (es: seq<Event>)
    ensures |es| == |chain|
    ensures forall i :: 0 <= i < |chain| ==> es[i] == SegmentRead(chain[i])
  {
    if chain == [] then [] else Reads(chain[..|chain| - 1]) + [SegmentRead(chain[|chain| - 1])]
  }

  /** A chain the format's Before(Segments) may have built. */
  ghost predicate PlannedFor(format: Format, origin: int, chain: seq<Segment>)
  {
    match format
    case Wdbc(h) => Parts(chain) == WdbcStorageFile.Layout(h) && Contiguous(chain) && chain != [] && chain[0].start == origin
    case Wdb5(h, headerSize) => Wdb5Parser.Planned(chain, h, headerSize, origin)
  }

  /** Position k is the one segment of the chain with this handler. */
  ghost predicate SoleHandlerAt(chain: seq<Segment>, k: int, handler: Handler)
  {
    0 <= k < |chain| && chain[k].handler == handler
    && forall j :: 0 <= j < |chain| && j != k ==> chain[j].handler != handler
  }

  /**
   * In a WDB5 chain the offset-map handler reads the offset-map block, placed
   * by the header, when the file has one; otherwise no segment has the handler.
   */
  lemma Wdb5OffsetMapSegment(chain: seq<Segment>, h: Wdb5Parser.Header, headerSize: int, origin: int)
    requires Wdb5Parser.Planned(chain, h, headerSize, origin)
    ensures h.hasOffsetMap ==>
              && SoleHandlerAt(chain, 3, OffsetMapHandler)
              && FindSegmentHandler(chain, OffsetMap) == Some(OffsetMapHandler)
              && chain[3].start == h.stringTableLength && chain[3].length == Wdb5Parser.OffsetMapLength(h)
    ensures !h.hasOffsetMap ==> forall k :: 0 <= k < |chain| ==> chain[k].handler != OffsetMapHandler
  {
    Wdb5Parser.OffsetMapHandlerAt(chain, h, headerSize, origin);
    if h.hasOffsetMap {
      Wdb5Parser.PlannedOffsetMap(chain, h, headerSize, origin);
      assert FirstIndex(chain, OffsetMap) == Some(3);
    }
  }

  /** The enumerator the format's CreateEnumerator builds. */
  function EnumeratorFor(format: Format): Pipeline
  {
    match format
    case Wdbc(h) => WdbcStorageFile.CreateEnumerator(h)
    case Wdb5(h, _) => Wdb5Parser.CreateEnumerator(h)
  }

  class StorageFile {
    const format: Format
    /** Where the head segment starts (the base segment class that places it is not part of this model). */
    const origin: int
    const stream: ByteStream
    /** The offset-map handler the WDB5 chain carries. */
    const offsetMap: OffsetMapHandler.Handler
    var head: seq<Segment>
    /** WDBC: the chain position of the string-block handler the record reader was given. */
    var readerStrings: Option<nat>
    /** WDB5: the buffer size the record reader was created with. */
    var recordBufferSize: Option<int>
    /** WDBC: whether After(Segments) created the serializer. */
    var serializerReady: bool
    ghost var trace: seq<Event>

    ghost predicate Valid()
      reads this, offsetMap
    {
      offsetMap.Valid()
    }

    /** The input stream has to be seekable. */
    constructor (format: Format, origin: int, stream: ByteStream)
      requires stream.canSeek
      ensures this.format == format && this.origin == origin && this.stream == stream
      ensures Valid() && fresh(offsetMap) && offsetMap.Store() == []
      ensures head == [] && readerStrings == None && recordBufferSize == None && !serializerReady && trace == []
    {
      this.format := format;
      this.origin := origin;
      this.stream := stream;
      offsetMap := new OffsetMapHandler.Handler();
      head := [];
      readerStrings := None;
      recordBufferSize := None;
      serializerReady := false;
      trace := [];
    }

    /** Before: for the Segments step, builds the format's segment chain; any other step does nothing. */
    method Before(step: ParsingStep)
      modifies this`head, this`readerStrings, this`trace
      ensures trace == old(trace) + [BeforeStep(step)]
      ensures step != Segments ==> head == old(head) && readerStrings == old(readerStrings)
      ensures step == Segments ==> PlannedFor(format, origin, head)
      ensures step == Segments && format.Wdbc? ==>
                readerStrings.Some? && FirstIndex(head, StringBlock) == readerStrings
                && head[readerStrings.value].handler == StringBlockHandler
      ensures step == Segments && format.Wdb5? ==> readerStrings == old(readerStrings)
    {
      trace := trace + [BeforeStep(step)];
      if step != Segments {
        return;
      }
      match format
      case Wdbc(h) =>
        var chain, stringSource := WdbcStorageFile.PlanSegments(h, origin);
        head, readerStrings := chain, Some(stringSource);
      case Wdb5(h, headerSize) =>
        head := Wdb5Parser.PlanSegments(h, headerSize, origin);
    }

    /** ReadSegment: the segment's handler reads its bytes; the offset-map handler is the one modelled. */
    method ReadSegment(segment: Segment) returns (r: Result<()>)
      requires Valid()
      modifies this`trace, offsetMap, stream
      ensures Valid()
      ensures trace == old(trace) + [SegmentRead(segment)]
      ensures segment.handler != OffsetMapHandler ==>
                r == Success(()) && offsetMap.Store() == old(offsetMap.Store()) && stream.pos == old(stream.pos)
      ensures segment.handler == OffsetMapHandler ==>
                var b := OffsetMapHandler.BlockRead(stream.data, segment.start, segment.length, old(offsetMap.Store()));
                && (b.Failure? ==> r == Failure(b.error))
                && (b.Success? ==> r == Success(()) && offsetMap.Store() == b.value)
    {
      trace := trace + [SegmentRead(segment)];
      if segment.handler == OffsetMapHandler {
        r := offsetMap.ReadBlock(stream, segment.start, segment.length);
      } else {
        r := Success(());
      }
    }

    /**
     * After: for the Segments step, WDBC creates its serializer and WDB5 sizes
     * its record buffer for the largest offset-map record, or for RecordSize
     * when the chain has no offset-map handler.
     */
    method After(step: ParsingStep)
      requires Valid()
      modifies this`trace, this`recordBufferSize, this`serializerReady
      ensures trace == old(trace) + [AfterStep(step)]
      ensures step != Segments ==> recordBufferSize == old(recordBufferSize) && serializerReady == old(serializerReady)
      ensures step == Segments && format.Wdbc? ==> serializerReady && recordBufferSize == old(recordBufferSize)
      ensures step == Segments && format.Wdb5? ==>
                serializerReady == old(serializerReady)
                && recordBufferSize == Some(Wdb5Parser.RecordBufferSize(format.wdb5,
                     if FindSegmentHandler(head, OffsetMap) == Some(OffsetMapHandler) then Some(offsetMap.Store()) else None))
    {
      trace := trace + [AfterStep(step)];
      if step != Segments {
        return;
      }
      match format
      case Wdbc(_) =>
        serializerReady := true;
      case Wdb5(h, _) =>
        var entries := if FindSegmentHandler(head, OffsetMap) == Some(OffsetMapHandler) then Some(offsetMap.Store()) else None;
        recordBufferSize := Some(Wdb5Parser.RecordBufferSize(h, entries));
    }

    /**
     * GetEnumerator: rewinds the stream, plans the chain, reads each segment
     * once in chain order, finishes the segment step, then creates the enumerator.
     */
    method GetEnumerator() returns (r: Result<Pipeline>)
      requires Valid()
      modifies this, offsetMap, stream
      ensures Valid()
      ensures PlannedFor(format, origin, head)
      ensures r.Success? ==>
                && trace == old(trace) + [Repositioned] + [BeforeStep(Segments)] + Reads(head)
                                       + [AfterStep(Segments)] + [EnumeratorCreated]
                && r.value == EnumeratorFor(format)
      ensures r.Success? && format.Wdb5? ==>
                recordBufferSize == Some(Wdb5Parser.RecordBufferSize(format.wdb5,
                  if FindSegmentHandler(head, OffsetMap) == Some(OffsetMapHandler) then Some(offsetMap.Store()) else None))
      ensures r.Success? && format.Wdbc? ==> serializerReady
      ensures (forall k :: 0 <= k < |head| ==> head[k].handler != OffsetMapHandler) ==>
                r.Success? && stream.pos == 0
      ensures format.Wdb5? && format.wdb5.hasOffsetMap ==>
                var b := OffsetMapHandler.BlockRead(stream.data, format.wdb5.stringTableLength,
                                                    Wdb5Parser.OffsetMapLength(format.wdb5), old(offsetMap.Store()));
                && (b.Failure? ==> r == Failure(b.error))
                && (b.Success? ==> r.Success? && recordBufferSize == Some(Wdb5Parser.RecordBufferSize(format.wdb5, Some(b.value))))
      ensures format.Wdb5? && !format.wdb5.hasOffsetMap ==>
                r.Success? && recordBufferSize == Some(Wdb5Parser.RecordBufferSize(format.wdb5, None))
    {
      Plan();
      if format.Wdb5? {
        Wdb5OffsetMapSegment(head, format.wdb5, format.headerSize, origin);
      }
      var read := ReadChain(3);
      if read.Failure? {
        return Failure(read.error);
      }
      var p := Finish();
      r := Success(p);
    }

    /** The last half of GetEnumerator: After(Segments), then CreateEnumerator. */
    method Finish() returns (p: Pipeline)
      requires Valid()
      modifies this`trace, this`recordBufferSize, this`serializerReady
      ensures trace == old(trace) + [AfterStep(Segments)] + [EnumeratorCreated]
      ensures p == EnumeratorFor(format)
      ensures format.Wdb5? ==>
                recordBufferSize == Some(Wdb5Parser.RecordBufferSize(format.wdb5,
                  if FindSegmentHandler(head, OffsetMap) == Some(OffsetMapHandler) then Some(offsetMap.Store()) else None))
      ensures format.Wdbc? ==> serializerReady
    {
      After(Segments);
      trace := trace + [EnumeratorCreated];
      p := EnumeratorFor(format);
    }

    /** The first half of GetEnumerator: the stream is rewound, then Before(Segments) plans the chain. */
    method Plan()
      modifies stream, this`head, this`readerStrings, this`trace
      ensures stream.pos == 0 && PlannedFor(format, origin, head)
      ensures trace == old(trace) + [Repositioned] + [BeforeStep(Segments)]
    {
      var _ := stream.SetPosition(0);
      trace := trace + [Repositioned];
      Before(Segments);
    }

    /**
     * The loop of GetEnumerator: each segment of the chain, from Head on, reads
     * itself. When segment k is the chain's one offset-map segment, the outcome
     * is that segment's block read.
     */
    method ReadChain(ghost k: int) returns (r: Result<()>)
      requires Valid()
      modifies this`trace, offsetMap, stream
      ensures Valid()
      ensures r.Success? ==> trace == old(trace) + Reads(head)
      ensures (forall k :: 0 <= k < |head| ==> head[k].handler != OffsetMapHandler) ==>
                r.Success? && stream.pos == old(stream.pos) && offsetMap.Store() == old(offsetMap.Store())
      ensures SoleHandlerAt(head, k, OffsetMapHandler) ==>
                var b := OffsetMapHandler.BlockRead(stream.data, head[k].start, head[k].length, old(offsetMap.Store()));
                && (b.Failure? ==> r == Failure(b.error))
                && (b.Success? ==> r.Success? && offsetMap.Store() == b.value)
    {
      ghost var t0 := trace;
      ghost var s0 := offsetMap.Store();
      ghost var sole := SoleHandlerAt(head, k, OffsetMapHandler);
      ghost var b := if sole then OffsetMapHandler.BlockRead(stream.data, head[k].start, head[k].length, s0) else Success(s0);
      var i := 0;
      while i < |head|
        invariant 0 <= i <= |head| && Valid()
        invariant trace == t0 + Reads(head[..i])
        invariant (forall k :: 0 <= k < |head| ==> head[k].handler != OffsetMapHandler) ==>
                    stream.pos == old(stream.pos) && offsetMap.Store() == old(offsetMap.Store())
        invariant sole && i <= k ==> offsetMap.Store() == s0
        invariant sole && k < i ==> b.Success? && offsetMap.Store() == b.value
      {
        assert head[..i + 1][..i] == head[..i];
        var read := ReadSegment(head[i]);
        if read.Failure? {
          return read;
        }
        i := i + 1;
      }
      assert head[..i] == head;
      r := Success(());
    }
  }
}

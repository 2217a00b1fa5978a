/**
 * The storage front end: the file signature read from the first four bytes,
 * the version dispatch to a file reader, and the order in which a storage
 * reads segments and records and gives up its stream.
 */
module StorageImpl {
  import opened Wrappers
  import opened Bytes
  import opened Streams

  /** The four-character codes, as the little-endian reading of their ASCII letters. */
  const WDBC: bv32 := 0x4342_4457
  const WDB2: bv32 := 0x3242_4457
  const WDB3: bv32 := 0x3342_4457
  const WDB4: bv32 := 0x3442_4457
  const WDB5: bv32 := 0x3542_4457
  const WDB6: bv32 := 0x3642_4457
  const WDC1: bv32 := 0x3143_4457
  const WDC2: bv32 := 0x3243_4457

  /** A value Stream.ReadByte returns: a byte, or -1 at the end of the stream. */
  predicate IsReadByte(b: int) { -1 <= b < 256 }

  /** The int the read byte is, as 32 bits: -1 has every bit set. */
  function Bits(b: int): (r: bv32)
    requires IsReadByte(b)
    ensures b >= 0 ==> r >> 8 == 0
    ensures b < 0 ==> r == 0xFFFF_FFFF
  {
    if b < 0 then 0xFFFF_FFFF else b as bv32
  }

  /** What Stream.ReadByte returns at position i of the data: the byte, or -1 past the end. */
  function ByteOrEof(data: seq<byte>, i: nat): (b: int)
    ensures IsReadByte(b)
    ensures b == -1 <==> i >= |data|
  {
    if i < |data| then data[i] as int else -1
  }

  /** InitializeHeaderInfo's signature: b0 | b1 << 8 | b2 << 16 | b3 << 24 over C# ints. */
  function Signature(b0: int, b1: int, b2: int, b3: int): bv32
    requires IsReadByte(b0) && IsReadByte(b1) && IsReadByte(b2) && IsReadByte(b3)
  {
    Bits(b0) | (Bits(b1) << 8) | (Bits(b2) << 16) | (Bits(b3) << 24)
  }

  /** Byte k of a signature read from four present bytes is byte k of the file. */
  lemma SignatureBytes(b0: int, b1: int, b2: int, b3: int)
    requires 0 <= b0 < 256 && 0 <= b1 < 256 && 0 <= b2 < 256 && 0 <= b3 < 256
    ensures var s := Signature(b0, b1, b2, b3);
      && s & 0xFF == b0 as bv32 && (s >> 8) & 0xFF == b1 as bv32
      && (s >> 16) & 0xFF == b2 as bv32 && s >> 24 == b3 as bv32
  {
    OrBytes(Bits(b0), Bits(b1), Bits(b2), Bits(b3));
  }

  lemma OrBytes(x0: bv32, x1: bv32, x2: bv32, x3: bv32)
    requires x0 >> 8 == 0 && x1 >> 8 == 0 && x2 >> 8 == 0 && x3 >> 8 == 0
    ensures var s := x0 | (x1 << 8) | (x2 << 16) | (x3 << 24);
      s & 0xFF == x0 && (s >> 8) & 0xFF == x1 && (s >> 16) & 0xFF == x2 && s >> 24 == x3
  {
  }

  /** The signatures a reader exists for, and those that need client metadata. */
  predicate Known(s: bv32)
  {
    s == WDBC || s == WDB2 || s == WDB3 || s == WDB4 || s == WDB5 || s == WDB6 || s == WDC1 || s == WDC2
  }

  /** A file shorter than four bytes reads a signature no version has: a missing byte sets the top byte. */
  lemma {:induction false} TruncatedSignatureUnknown(b0: int, b1: int, b2: int, b3: int)
    requires IsReadByte(b0) && IsReadByte(b1) && IsReadByte(b2) && IsReadByte(b3)
    requires b0 == -1 || b1 == -1 || b2 == -1 || b3 == -1
    ensures Signature(b0, b1, b2, b3) >> 24 == 0xFF
    ensures !Known(Signature(b0, b1, b2, b3))
  {
  }

  /** The readers the dispatch creates. */
  datatype Version = ReaderWdbc | ReaderWdb2 | ReaderWdb5 | ReaderWdb6 | ReaderWdc1 | ReaderWdc2

  /** InitializeFileReader's dispatch on the header's signature. */
  function ReaderFor(s: bv32): (r: Result<Version>)
    ensures r.Failure? <==> !(s == WDBC || s == WDB2 || s == WDB5 || s == WDB6 || s == WDC1 || s == WDC2)
    ensures s == WDB3 || s == WDB4 ==> r == Failure(UnsupportedVersion(s as int, true))
    ensures !Known(s) ==> r == Failure(UnsupportedVersion(s as int, false))
  {
    if s == WDBC then Success(ReaderWdbc)
    else if s == WDB2 then Success(ReaderWdb2)
    else if s == WDB5 then Success(ReaderWdb5)
    else if s == WDB6 then Success(ReaderWdb6)
    else if s == WDB3 || s == WDB4 then Failure(UnsupportedVersion(s as int, true))
    else if s == WDC1 then Success(ReaderWdc1)
    else if s == WDC2 then Success(ReaderWdc2)
    else Failure(UnsupportedVersion(s as int, false))
  }

  /** A stream with fewer than four bytes left reads a signature the dispatch rejects as unknown. */
  lemma ShortStreamUnsupported(data: seq<byte>, p: nat)
    requires p + 4 > |data|
    ensures var s := Signature(ByteOrEof(data, p), ByteOrEof(data, p + 1), ByteOrEof(data, p + 2), ByteOrEof(data, p + 3));
      ReaderFor(s) == Failure(UnsupportedVersion(s as int, false))
  {
    TruncatedSignatureUnknown(ByteOrEof(data, p), ByteOrEof(data, p + 1), ByteOrEof(data, p + 2), ByteOrEof(data, p + 3));
  }

  /** The signature each reader is built for. */
  function SignatureOf(v: Version): bv32
  {
    match v
    case ReaderWdbc => WDBC
    case ReaderWdb2 => WDB2
    case ReaderWdb5 => WDB5
    case ReaderWdb6 => WDB6
    case ReaderWdc1 => WDC1
    case ReaderWdc2 => WDC2
  }

  /** Each signature maps to its own reader, and each reader is reached from its signature. */
  lemma DispatchRoundTrip(s: bv32, v: Version)
    ensures ReaderFor(s).Success? ==> SignatureOf(ReaderFor(s).value) == s
    ensures ReaderFor(SignatureOf(v)) == Success(v)
  {
  }

  /** The header fields the storage uses; the header decoders are not part of this model. */
  datatype FileHeader = FileHeader(signature: bv32, indexColumn: int, hasIndexTable: bool)

  /** What a storage does, in order. */
  datatype Step = GeneratorTaken | SegmentsRead | RecordsRead

  class Storage {
    const copyToMemory: bool
    var stream: Option<ByteStream>
    var header: Option<FileHeader>
    var file: Option<Version>
    /** The member store's index column and index-table flag, once copied from a header. */
    var indexColumn: Option<int>
    var hasIndexTable: Option<bool>
    /** Whether Dispose disposed the stream. */
    var streamDisposed: bool
    ghost var trace: seq<Step>

    /** The stream copy of the copy-to-memory option is not part of this model: the stream is used as given. */
    constructor (dataStream: ByteStream, copyToMemory: bool)
      ensures this.copyToMemory == copyToMemory && stream == Some(dataStream)
      ensures header == None && file == None && !streamDisposed && trace == []
      ensures indexColumn == None && hasIndexTable == None
    {
      this.copyToMemory := copyToMemory;
      stream := Some(dataStream);
      header := None;
      file := None;
      indexColumn := None;
      hasIndexTable := None;
      streamDisposed := false;
      trace := [];
    }

    /**
     * InitializeHeaderInfo: the signature from the stream's next four bytes,
     * then the decoded header's index column and index-table flag copied onto
     * the member store. The decoder's output is a parameter.
     */
    method InitializeHeaderInfo(decodedIndexColumn: int, decodedHasIndexTable: bool) returns (r: Result<FileHeader>)
      modifies this, if stream.Some? then {stream.value} else {}
      ensures old(stream).None? ==> r == Failure(NullReference) && header == old(header)
      ensures old(stream).Some? ==>
                var s := old(stream).value;
                && stream == old(stream)
                && r.Success? && header == Some(r.value)
                && r.value.signature ==
                     Signature(ByteOrEof(s.data, old(s.pos)), ByteOrEof(s.data, old(s.pos) + 1),
                               ByteOrEof(s.data, old(s.pos) + 2), ByteOrEof(s.data, old(s.pos) + 3))
                && (old(s.pos) + 4 > |s.data| ==> !Known(r.value.signature))
                && s.pos == (if old(s.pos) + 4 <= |s.data| then old(s.pos) + 4
                             else if old(s.pos) <= |s.data| then |s.data| else old(s.pos))
                && r.value.indexColumn == decodedIndexColumn && r.value.hasIndexTable == decodedHasIndexTable
                && indexColumn == Some(decodedIndexColumn) && hasIndexTable == Some(decodedHasIndexTable)
      ensures file == old(file) && trace == old(trace) && streamDisposed == old(streamDisposed)
    {
      if stream.None? {
        return Failure(NullReference);
      }
      var s := stream.value;
      ghost var p := s.pos;
      var b0 := s.ReadByte();
      var b1 := s.ReadByte();
      var b2 := s.ReadByte();
      var b3 := s.ReadByte();
      if p + 4 > |s.data| {
        TruncatedSignatureUnknown(b0, b1, b2, b3);
      }
      var h := FileHeader(Signature(b0, b1, b2, b3), decodedIndexColumn, decodedHasIndexTable);
      header := Some(h);
      indexColumn, hasIndexTable := Some(h.indexColumn), Some(h.hasIndexTable);
      r := Success(h);
    }

    /** InitializeFileReader: does nothing once a reader exists, otherwise dispatches on the signature. */
    method InitializeFileReader() returns (r: Result<()>)
      modifies this`file
      ensures old(file).Some? ==> r == Success(()) && file == old(file)
      ensures old(file).None? && header.None? ==> r == Failure(NullReference) && file == None
      ensures old(file).None? && header.Some? ==>
                match ReaderFor(header.value.signature)
                case Success(v) => r == Success(()) && file == Some(v)
                case Failure(e) => r == Failure(e) && file == None
    {
      if file.Some? {
        return Success(());
      }
      if header.None? {
        return Failure(NullReference);
      }
      var v :- ReaderFor(header.value.signature);
      file := Some(v);
      r := Success(());
    }

    /** Enumerate: takes the reader's generator, reads the segments, then the records. */
    method Enumerate() returns (r: Result<()>)
      modifies this`trace
      ensures file.None? ==> r == Failure(NullReference) && trace == old(trace)
      ensures file.Some? ==> r == Success(()) && trace == old(trace) + [GeneratorTaken, SegmentsRead, RecordsRead]
    {
      if file.None? {
        return Failure(NullReference);
      }
      trace := trace + [GeneratorTaken];
      trace := trace + [SegmentsRead];
      trace := trace + [RecordsRead];
      r := Success(());
    }

    /** Dispose: the stream is disposed only under the copy-to-memory option; stream and reader are dropped. */
    method Dispose()
      modifies this`stream, this`file, this`streamDisposed
      ensures streamDisposed == (old(streamDisposed) || (copyToMemory && old(stream).Some?))
      ensures stream == None && file == None
    {
      if copyToMemory && stream.Some? {
        streamDisposed := true;
      }
      stream := None;
      file := None;
    }
  }
}

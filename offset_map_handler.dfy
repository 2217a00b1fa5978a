/**
 * OffsetMapHandler: reads the offset map of a WDB5 file, a block of 6-byte
 * entries (a 32-bit record offset and a 16-bit record size), and keeps the
 * entries whose offset and size are both non-zero, in file order.
 */
module OffsetMapHandler {
  import opened Wrappers
  import opened Ints
  import opened Bytes
  import opened Segments
  import opened Streams

  /** (int, short): a record's offset and its size. */
  datatype Entry = Entry(offset: int, size: int)

  const ENTRY_SIZE: int := 6

  /** The identifier the handler declares for itself. */
  const IDENTIFIER_AS_WRITTEN: SegmentId := CopyTable

  /** The identifier of the block it reads. */
  const IDENTIFIER: SegmentId := OffsetMap

  function EntryAt(data: seq<byte>, p: int): Entry
    requires Within(data, p, 6)
  {
    Entry(I32At(data, p), I16At(data, p + 4))
  }

  /** The n entries stored from `start` on. */
  function Entries(data: seq<byte>, start: int, n: nat): (es: seq<Entry>)
    requires 0 <= start && (n > 0 ==> start + 6 * n <= |data|)
    ensures |es| == n
  {
    if n == 0 then [] else Entries(data, start, n - 1) + [EntryAt(data, start + 6 * (n - 1))]
  }

  /** Entry k of the block is the 6 bytes at start + 6k. */
  lemma {:induction false} EntriesAt(data: seq<byte>, start: int, n: nat, k: nat)
    requires 0 <= start && start + 6 * n <= |data| && k < n
    ensures Entries(data, start, n)[k] == EntryAt(data, start + 6 * k)
  {
    if k < n - 1 {
      EntriesAt(data, start, n - 1, k);
    }
  }

  /** Reads one entry: ReadInt32 then ReadInt16. */
  method ReadEntry(stream: ByteStream) returns (r: Result<Entry>)
    modifies stream
    ensures Within(stream.data, old(stream.pos), 6) ==>
              r == Success(EntryAt(stream.data, old(stream.pos))) && stream.pos == old(stream.pos) + 6
    ensures !Within(stream.data, old(stream.pos), 6) ==> r == Failure(EndOfStream)
  {
    var key :- stream.ReadInt32();
    var value :- stream.ReadInt16();
    r := Success(Entry(key, value));
  }

  /** An entry whose offset or size is zero marks an absent record and is dropped. */
  predicate Keeps(e: Entry) { e.offset != 0 && e.size != 0 }

  /** The entries kept, in order. */
  function Kept(es: seq<Entry>): (r: seq<Entry>)
    ensures |r| <= |es|
  {
    if es == [] then []
    else Kept(es[..|es| - 1]) + (if Keeps(es[|es| - 1]) then [es[|es| - 1]] else [])
  }

  /** The kept entries are exactly the entries with a non-zero offset and size. */
  lemma {:induction false} KeptMembers(es: seq<Entry>)
    ensures forall e :: e in Kept(es) <==> e in es && Keeps(e)
  {
    if es != [] {
      var init := es[..|es| - 1];
      KeptMembers(init);
      assert es == init + [es[|es| - 1]];
    }
  }

  /** The kept entries among the first n of the block, the form the readers build. */
  function KeptBlock(data: seq<byte>, start: int, n: nat): (r: seq<Entry>)
    requires 0 <= start && (n > 0 ==> start + 6 * n <= |data|)
    ensures |r| <= n
  {
    if n == 0 then []
    else
      var e := EntryAt(data, start + 6 * (n - 1));
      KeptBlock(data, start, n - 1) + (if Keeps(e) then [e] else [])
  }

  lemma {:induction false} KeptBlockIsKept(data: seq<byte>, start: int, n: nat)
    requires 0 <= start && (n > 0 ==> start + 6 * n <= |data|)
    ensures KeptBlock(data, start, n) == Kept(Entries(data, start, n))
  {
    if n > 0 {
      KeptBlockIsKept(data, start, n - 1);
      var es := Entries(data, start, n);
      assert es[..|es| - 1] == Entries(data, start, n - 1);
    }
  }

  lemma {:induction false} KeptAll(es: seq<Entry>)
    ensures |Kept(es)| == |es| <==> forall i :: 0 <= i < |es| ==> Keeps(es[i])
  {
    if es != [] {
      var init := es[..|es| - 1];
      KeptAll(init);
      assert forall i :: 0 <= i < |init| ==> init[i] == es[i];
    }
  }

  /**
   * What reading the block of `length` bytes at `start` leaves in a handler
   * whose store was `prev`: a zero start or length reads nothing, a negative
   * start fails the seek, a negative Count fails the buffer's allocation, and
   * a block past the end of the data fails the reads; otherwise the store is
   * the kept entries of the block's Count entries.
   */
  function BlockRead(data: seq<byte>, start: int, length: int, prev: seq<Entry>): (r: Result<seq<Entry>>)
    ensures start == 0 || length == 0 ==> r == Success(prev)
    ensures start < 0 && length != 0 ==> r == Failure(IOError)
    ensures start > 0 && length != 0 ==>
              var n := Wrap32(DivT(length, 6));
              && (n < 0 ==> r == Failure(Overflow))
              && (n > 0 && start + 6 * n > |data| ==> r == Failure(EndOfStream))
              && (0 <= n && (n == 0 || start + 6 * n <= |data|) ==> r == Success(Kept(Entries(data, start, n))))
  {
    if start == 0 || length == 0 then Success(prev)
    else if start < 0 then Failure(IOError)
    else
      var n := Wrap32(DivT(length, 6));
      if n < 0 then Failure(Overflow)
      else if n > 0 && start + 6 * n > |data| then Failure(EndOfStream)
      else KeptBlockIsKept(data, start, n); Success(KeptBlock(data, start, n))
  }

  /** Count = (int)(length / 6): C# division, then the cast to int. */
  method EntryCount(length: int) returns (n: int)
    ensures n == Wrap32(DivT(length, 6))
    ensures 0 <= length && IsInt32(length / 6) ==> n == length / 6
  {
    n := Wrap32(DivT(length, 6));
  }

  /**
   * What ReadBlock as written ends with, given the entries kept among the
   * length / 6 + 1 it reads and the buffer size n: the (n + 1)-th kept entry
   * overruns the buffer; otherwise Count is one less than the number kept, and
   * a Count of -1 is rejected by Slice.
   */
  function AsWrittenOutcome(kept: seq<Entry>, n: nat): (o: Result<seq<Entry>>)
    requires |kept| <= n + 1
    ensures o.Success? ==> 0 < |kept| <= n && o.value == kept[..|kept| - 1]
    ensures |kept| == n + 1 ==> o == Failure(IndexOutOfRange)
    ensures |kept| == 0 && n > 0 ==> o == Failure(ArgumentOutOfRange)
  {
    if |kept| == n + 1 then Failure(IndexOutOfRange)
    else if |kept| == 0 then Failure(ArgumentOutOfRange)
    else Success(kept[..|kept| - 1])
  }

  /** The as-written loop reads length / 6 + 1 entries when it completes. */
  lemma IterationCount(k: nat, length: int)
    requires length > 0 && (k > 0 ==> 6 * (k - 1) <= length)
    ensures 6 * k > length ==> k == length / 6 + 1
    ensures 6 * k <= length ==> k <= length / 6
  {
  }

  /**
   * How the as-written loop's end, over a block followed by at least one more
   * entry, turns into the outcome: a completed loop read length / 6 + 1
   * entries, of which Count is one short; an overrun happened at the last one.
   */
  lemma AsWrittenEnd(data: seq<byte>, start: int, length: int, n: nat, k: nat, r: Result<()>, count: int)
    requires length > 0 && IsInt32(length / 6) && 0 <= start && start + 6 * (length / 6 + 1) <= |data| && n == length / 6
    requires k > 0 ==> start + 6 * k <= |data| && 6 * (k - 1) <= length
    requires r.Success? ==> 6 * k > length && |KeptBlock(data, start, k)| <= n
                            && count == n - k + |KeptBlock(data, start, k)|
    requires r.Failure? ==> 6 * k <= length
    requires r.Failure? && r != Failure(IndexOutOfRange) ==> start + 6 * (k + 1) > |data|
    requires r == Failure(IndexOutOfRange) ==>
               start + 6 * (k + 1) <= |data| && |KeptBlock(data, start, k + 1)| == n + 1
    ensures var o := AsWrittenOutcome(KeptBlock(data, start, n + 1), n);
      && (r.Failure? ==> o == Failure(r.error))
      && (r.Success? ==> k == n + 1 && count == |KeptBlock(data, start, k)| - 1
                         && (count < 0 ==> o == Failure(ArgumentOutOfRange))
                         && (count >= 0 ==> o.Success?))
  {
    IterationCount(k, length);
  }

  lemma DivBound(k: int, length: int)
    requires length > 0
    ensures 6 * k <= length ==> k <= length / 6
    ensures 6 * k > length ==> k > length / 6
  {
  }

  class Handler {
    /** The array behind _store. */
    var buffer: array<Entry>
    /** The length of the _store slice over `buffer`. */
    var span: nat
    var count: int

    ghost predicate Valid()
      reads this
    {
      span <= buffer.Length
    }

    /** The entries _store holds. */
    function Store(): seq<Entry>
      reads this, buffer
      requires Valid()
    {
      buffer[..span]
    }

    constructor ()
      ensures Valid() && Store() == [] && count == 0
    {
      buffer := new Entry[0](_ => Entry(0, 0));
      span := 0;
      count := 0;
    }

    /**
     * ReadBlock as intended: reads the block's entries, that is Count of them,
     * and never the bytes that follow the block.
     */
    method ReadBlock(stream: ByteStream, start: int, length: int) returns (r: Result<()>)
      requires Valid()
      modifies this`buffer, this`span, this`count, stream
      ensures Valid()
      ensures start == 0 || length == 0 ==>
                r == Success(()) && buffer == old(buffer) && span == old(span) && count == old(count)
                && stream.pos == old(stream.pos)
      ensures start != 0 && length != 0 && start < 0 ==> r == Failure(IOError)
      ensures start > 0 && length != 0 && Wrap32(DivT(length, 6)) < 0 ==> r == Failure(Overflow)
      ensures start > 0 && length != 0 && Wrap32(DivT(length, 6)) >= 0 ==>
                var n := Wrap32(DivT(length, 6));
                && (n > 0 && start + 6 * n > |stream.data| ==> r == Failure(EndOfStream))
                && (n == 0 || start + 6 * n <= |stream.data| ==>
                      r == Success(()) && Store() == KeptBlock(stream.data, start, n) && count == span)
      ensures var b := BlockRead(stream.data, start, length, old(Store()));
        && (b.Failure? ==> r == Failure(b.error))
        && (b.Success? ==> r == Success(()) && Store() == b.value)
    {
      if start == 0 || length == 0 {
        return Success(());
      }
      var _ :- stream.Seek(start);
      var n := Wrap32(DivT(length, 6));
      count := n;
      if n < 0 {
        return Failure(Overflow);
      }
      buffer := new Entry[n](_ => Entry(0, 0));
      span := n;
      r := Fill(stream, start, n);
      if r.Success? {
        span := count;
      }
    }

    /** The loop of ReadBlock, over a freshly allocated buffer of Count entries. */
    method Fill(stream: ByteStream, start: int, n: nat) returns (r: Result<()>)
      requires buffer.Length == n && span == n && count == n
      requires 0 <= start && stream.pos == start
      modifies this`count, buffer, stream
      ensures 0 <= count <= n
      ensures n == 0 || start + 6 * n <= |stream.data| ==>
                r == Success(()) && buffer[..count] == KeptBlock(stream.data, start, n)
      ensures n > 0 && start + 6 * n > |stream.data| ==> r == Failure(EndOfStream)
    {
      ghost var data := stream.data;
      var i := 0;
      for k := 0 to n
        invariant stream.pos == start + 6 * k
        invariant k > 0 ==> start + 6 * k <= |data|
        invariant 0 <= i <= k && count == n - (k - i)
        invariant buffer[..i] == KeptBlock(data, start, k)
      {
        var e :- ReadEntry(stream);
        if !Keeps(e) {
          count := count - 1;
        } else {
          buffer[i] := e;
          i := i + 1;
        }
      }
      r := Success(());
    }

    /**
     * ReadBlock as written: the loop runs while the position is at most the
     * block's end, so it reads one entry past the block, and Count (decremented
     * once per dropped entry, set to the entry count beforehand) ends one short.
     */
    method ReadBlockAsWritten(stream: ByteStream, start: int, length: int) returns (r: Result<()>)
      requires Valid()
      modifies this`buffer, this`span, this`count, stream
      ensures Valid()
      ensures start > 0 && length > 0 && IsInt32(length / 6) && start + 6 * (length / 6 + 1) <= |stream.data| ==>
                var o := AsWrittenOutcome(KeptBlock(stream.data, start, length / 6 + 1), length / 6);
                && (o.Failure? ==> r == Failure(o.error))
                && (o.Success? ==> r == Success(()) && Store() == o.value)
    {
      if start == 0 || length == 0 {
        return Success(());
      }
      var _ :- stream.Seek(start);
      var n := EntryCount(length);
      if n < 0 {
        count := n;
        return Failure(Overflow);
      }
      r := LoadAsWritten(stream, start, length, n);
    }

    /** ReadBlock as written, from the allocation of the buffer on. */
    method LoadAsWritten(stream: ByteStream, start: int, length: int, n: nat) returns (r: Result<()>)
      requires 0 <= start && length != 0 && stream.pos == start
      requires 0 < length && IsInt32(length / 6) ==> n == length / 6
      modifies this`buffer, this`span, this`count, stream
      ensures Valid()
      ensures 0 < length && IsInt32(length / 6) && start + 6 * (length / 6 + 1) <= |stream.data| ==>
                var o := AsWrittenOutcome(KeptBlock(stream.data, start, length / 6 + 1), length / 6);
                && (o.Failure? ==> r == Failure(o.error))
                && (o.Success? ==> r == Success(()) && Store() == o.value)
    {
      count := n;
      buffer := new Entry[n](_ => Entry(0, 0));
      span := n;
      ghost var k;
      r, k := FillAsWritten(stream, start, length, n);
      ghost var fits := length > 0 && IsInt32(length / 6) && start + 6 * (length / 6 + 1) <= |stream.data|;
      ghost var kept := KeptBlock(stream.data, start, k);
      if fits {
        AsWrittenEnd(stream.data, start, length, n, k, r, count);
      }
      if r.Success? {
        if count < 0 {
          r := Failure(ArgumentOutOfRange);
        } else {
          span := count;
          if fits {
            assert Store() == buffer[..|kept|][..|kept| - 1];
          }
          r := Success(());
        }
      }
    }

    /**
     * The loop of ReadBlockAsWritten: it runs while the position is at most the
     * block's end; `k` is the number of entries read.
     */
    method FillAsWritten(stream: ByteStream, start: int, length: int, n: nat) returns (r: Result<()>, ghost k: nat)
      requires buffer.Length == n && span == n && count == n
      requires 0 <= start && stream.pos == start
      modifies this`count, buffer, stream
      ensures k > 0 ==> start + 6 * k <= |stream.data| && 6 * (k - 1) <= length
      ensures r.Success? ==> 6 * k > length && |KeptBlock(stream.data, start, k)| <= n
                             && count == n - k + |KeptBlock(stream.data, start, k)|
                             && buffer[..|KeptBlock(stream.data, start, k)|] == KeptBlock(stream.data, start, k)
      ensures r.Failure? ==> 6 * k <= length
      ensures r.Failure? && r != Failure(IndexOutOfRange) ==> start + 6 * (k + 1) > |stream.data|
      ensures r == Failure(IndexOutOfRange) ==>
                start + 6 * (k + 1) <= |stream.data| && |KeptBlock(stream.data, start, k + 1)| == n + 1
    {
      ghost var data := stream.data;
      k := 0;
      var i := 0;
      while stream.pos <= start + length
        invariant stream.pos == start + 6 * k
        invariant k > 0 ==> start + 6 * k <= |data| && 6 * (k - 1) <= length
        invariant 0 <= i <= k && i <= n && count == n - (k - i)
        invariant buffer[..i] == KeptBlock(data, start, k)
        decreases start + length + 1 - stream.pos
      {
        var e :- ReadEntry(stream);
        if !Keeps(e) {
          count := count - 1;
        } else {
          if i >= buffer.Length {
            return Failure(IndexOutOfRange), k;
          }
          buffer[i] := e;
          i := i + 1;
        }
        k := k + 1;
      }
      r := Success(());
    }

    /** GetRecordOffset: the offset of kept entry `index`. */
    function GetRecordOffset(index: int): (r: Result<int>)
      reads this, buffer
      requires Valid()
      ensures 0 <= index < |Store()| ==> r == Success(Store()[index].offset)
      ensures !(0 <= index < |Store()|) ==> r == Failure(IndexOutOfRange)
    {
      if 0 <= index < span then Success(buffer[index].offset) else Failure(IndexOutOfRange)
    }

    /** GetRecordSize: the size of kept entry `index`. */
    function GetRecordSize(index: int): (r: Result<int>)
      reads this, buffer
      requires Valid()
      ensures 0 <= index < |Store()| ==> r == Success(Store()[index].size)
      ensures !(0 <= index < |Store()|) ==> r == Failure(IndexOutOfRange)
    {
      if 0 <= index < span then Success(buffer[index].size) else Failure(IndexOutOfRange)
    }
  }

  /**
   * A one-entry block at offset 1 holding (offset 8, size 12), followed by six
   * zero bytes of the next block.
   */
  const ONE_ENTRY_BLOCK: seq<byte> := [0xFF, 8, 0, 0, 0, 12, 0, 0, 0, 0, 0, 0, 0]

  /**
   * On that block (start 1, length 6) ReadBlock as written keeps nothing: it
   * reads the zero entry after the block, and Count ends at 0. As intended
   * the block's one entry is kept.
   */
  lemma AsWrittenDropsLastEntry()
    ensures AsWrittenOutcome(KeptBlock(ONE_ENTRY_BLOCK, 1, 6 / 6 + 1), 6 / 6) == Success([])
    ensures KeptBlock(ONE_ENTRY_BLOCK, 1, 6 / 6) == [Entry(8, 12)]
  {
    var data := ONE_ENTRY_BLOCK;
    assert EntryAt(data, 1) == Entry(8, 12) by {
      assert U32At(data, 1) == 8 && U16At(data, 5) == 12;
    }
    assert EntryAt(data, 7) == Entry(0, 0) by {
      assert U32At(data, 7) == 0 && U16At(data, 11) == 0;
    }
  }
}

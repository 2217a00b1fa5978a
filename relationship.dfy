/**
 * RelationShipSegmentReader: the relationship table of a WDC2 section. Its
 * segment holds an entry count, the smallest and the largest record index,
 * then one (record index, 4-byte foreign key) pair per entry; the foreign
 * key of a record is that of the first entry naming it. The key type is
 * modelled as a 32-bit integer.
 */
module RelationshipSegmentReader {
  import opened Wrappers
  import opened Bytes
  import opened Streams

  /** A table entry: the record index and the four stored key bytes. */
  datatype Node = Node(recordIndex: int, foreignKey: seq<byte>)

  /** What the entry loop reads from `p` for `n` entries, and whether it read them all. */
  datatype Outcome = Outcome(nodes: seq<Node>, completed: bool)

  /**
   * Each entry is ReadInt32, which fails at the end of the data, then
   * ReadBytes(4), which takes what is left when fewer than four bytes remain.
   */
  function Nodes(data: seq<byte>, p: nat, n: nat): Outcome
    decreases n
  {
    if n == 0 then Outcome([], true)
    else if !Within(data, p, 4) then Outcome([], false)
    else
      var rest := Nodes(data, NextEntry(data, p), n - 1);
      Outcome([NodeAt(data, p)] + rest.nodes, rest.completed)
  }

  /** Where the entry after the one at p starts: the end of the data when its key is cut short. */
  function NextEntry(data: seq<byte>, p: nat): (q: nat)
    requires Within(data, p, 4)
  {
    if p + 8 <= |data| then p + 8 else |data|
  }

  /** The entry stored at p. */
  function NodeAt(data: seq<byte>, p: nat): Node
    requires Within(data, p, 4)
  {
    Node(I32At(data, p), data[p + 4..NextEntry(data, p)])
  }

  /** One entry: ReadInt32, then ReadBytes(4). */
  method ReadNode(storage: ByteStream) returns (r: Result<Node>)
    modifies storage
    ensures Within(storage.data, old(storage.pos), 4) ==>
              r == Success(NodeAt(storage.data, old(storage.pos))) && storage.pos == NextEntry(storage.data, old(storage.pos))
    ensures !Within(storage.data, old(storage.pos), 4) ==> r == Failure(EndOfStream) && storage.pos == old(storage.pos)
  {
    ghost var p := storage.pos;
    var recordIndex :- storage.ReadInt32();
    var key := storage.ReadBytes(4);
    assert storage.pos == NextEntry(storage.data, p) && key == storage.data[p + 4..NextEntry(storage.data, p)];
    r := Success(Node(recordIndex, key));
  }

  /**
   * When the data holds the whole table, exactly n entries are read, entry k
   * being the pair stored at p + 8k, in file order.
   */
  lemma {:induction false} WholeTable(data: seq<byte>, p: nat, n: nat)
    requires p + 8 * n <= |data|
    ensures var o := Nodes(data, p, n);
      && o.completed && |o.nodes| == n
      && forall k :: 0 <= k < n ==>
           o.nodes[k] == Node(I32At(data, p + 8 * k), data[p + 8 * k + 4..p + 8 * k + 8])
    decreases n
  {
    if n > 0 {
      WholeTable(data, p + 8, n - 1);
      assert NextEntry(data, p) == p + 8;
      var o := Nodes(data, p, n);
      var rest := Nodes(data, p + 8, n - 1);
      forall k | 0 <= k < n
        ensures o.nodes[k] == Node(I32At(data, p + 8 * k), data[p + 8 * k + 4..p + 8 * k + 8])
      {
        if k > 0 {
          assert o.nodes[k] == rest.nodes[k - 1];
          assert p + 8 + 8 * (k - 1) == p + 8 * k;
        }
      }
    }
  }

  /** A loop that stops early read fewer entries than asked for. */
  lemma {:induction false} NodesBound(data: seq<byte>, p: nat, n: nat)
    ensures |Nodes(data, p, n).nodes| <= n
    ensures Nodes(data, p, n).completed <==> |Nodes(data, p, n).nodes| == n
    decreases n
  {
    if n > 0 && Within(data, p, 4) {
      NodesBound(data, NextEntry(data, p), n - 1);
    }
  }

  /** The table array: the entries read so far, then empty (null) slots. */
  function Slots(nodes: seq<Node>, n: nat): (s: seq<Option<Node>>)
    requires |nodes| <= n
    ensures |s| == n
    ensures forall k :: 0 <= k < |nodes| ==> s[k] == Some(nodes[k])
    ensures forall k :: |nodes| <= k < n ==> s[k] == None
  {
    seq(n, k requires 0 <= k < n => if k < |nodes| then Some(nodes[k]) else None)
  }

  /**
   * Enumerable.First over the table: the first entry naming the record; a
   * null slot met before it fails, and so does a table with no such entry.
   */
  function FirstMatch(slots: seq<Option<Node>>, recordIndex: int): (r: Result<Node>)
    ensures r.Success? <==> exists k :: 0 <= k < |slots| && slots[k].Some? && slots[k].value.recordIndex == recordIndex
                                       && forall j :: 0 <= j < k ==> slots[j].Some?
    ensures r.Success? ==> exists k :: 0 <= k < |slots| && slots[k] == Some(r.value) && r.value.recordIndex == recordIndex
                                       && forall j :: 0 <= j < k ==> slots[j].Some? && slots[j].value.recordIndex != recordIndex
    ensures r == Failure(InvalidOperation) <==> forall k :: 0 <= k < |slots| ==> slots[k].Some? && slots[k].value.recordIndex != recordIndex
    ensures r.Failure? ==> r.error == InvalidOperation || r.error == NullReference
  {
    if slots == [] then Failure(InvalidOperation)
    else if slots[0].None? then Failure(NullReference)
    else if slots[0].value.recordIndex == recordIndex then Success(slots[0].value)
    else
      var r := FirstMatch(slots[1..], recordIndex);
      assert forall k :: 0 < k < |slots| ==> slots[k] == slots[1..][k - 1];
      r
  }

  /** A fully read table never meets a null slot: a lookup only fails when no entry names the record. */
  lemma {:induction false} LookupInFullTable(nodes: seq<Node>, recordIndex: int)
    ensures var r := FirstMatch(Slots(nodes, |nodes|), recordIndex);
      && (r.Failure? ==> r.error == InvalidOperation && forall k :: 0 <= k < |nodes| ==> nodes[k].recordIndex != recordIndex)
      && (r.Success? ==> r.value in nodes && r.value.recordIndex == recordIndex)
  {
  }

  /**
   * The key: the four stored bytes read as a little-endian int32. Pinning an
   * empty key gives a null pointer, whose dereference fails; a key of one to
   * three bytes would be read past its end, which stands here as
   * IndexOutOfRange.
   */
  function KeyOf(n: Node): (r: Result<int>)
    ensures |n.foreignKey| == 4 ==> r == Success(I32At(n.foreignKey, 0))
    ensures |n.foreignKey| == 0 ==> r == Failure(NullReference)
    ensures 0 < |n.foreignKey| < 4 ==> r == Failure(IndexOutOfRange)
  {
    if |n.foreignKey| == 4 then Success(I32At(n.foreignKey, 0))
    else if |n.foreignKey| == 0 then Failure(NullReference)
    else Failure(IndexOutOfRange)
  }

  /** The key read back is the key stored: the encoding of an unsigned value u decodes to its signed reading. */
  lemma {:induction false} KeyRoundTrip(recordIndex: int, u: nat)
    requires u < Pow256(4)
    ensures KeyOf(Node(recordIndex, EncodeLe(u, 4))) == Success(Signed(u, 4))
  {
    var bs := EncodeLe(u, 4);
    DecodeEncode(u, 4);
    U32AtIsLe(bs, 0);
    assert bs[0..4] == bs;
    I32AtIsSigned(bs, 0);
  }

  /**
   * The entry loop: slot i gets the i-th (record index, key) pair read from
   * the stream. The source puts a fresh node (record index 0, no key) in slot
   * i before reading into it, so after a failure in the middle of the table
   * that slot holds an empty node where the model keeps a null slot; the
   * failure ends Read, and the table is not used afterwards.
   */
  method FillTable(storage: ByteStream, table: array<Option<Node>>) returns (r: Result<()>)
    requires forall k :: 0 <= k < table.Length ==> table[k] == None
    modifies storage, table
    ensures var o := Nodes(storage.data, old(storage.pos), table.Length);
      && |o.nodes| <= table.Length && table[..] == Slots(o.nodes, table.Length)
      && (r == Success(()) <==> o.completed)
      && (r.Failure? ==> r.error == EndOfStream)
  {
    var n := table.Length;
    ghost var o := Nodes(storage.data, storage.pos, n);
    ghost var read: seq<Node> := [];
    NodesBound(storage.data, storage.pos, n);
    for i := 0 to n
      invariant |read| == i
      invariant forall k :: 0 <= k < i ==> table[k] == Some(read[k])
      invariant forall k :: i <= k < n ==> table[k] == None
      invariant var rest := Nodes(storage.data, storage.pos, n - i);
        read + rest.nodes == o.nodes && rest.completed == o.completed
    {
      ghost var p := storage.pos;
      var node := ReadNode(storage);
      if node.Failure? {
        assert read + [] == read;
        SlotsOf(table[..], read, n);
        return Failure(node.error);
      }
      ghost var rest := Nodes(storage.data, storage.pos, n - i - 1);
      assert read + [node.value] + rest.nodes == read + ([node.value] + rest.nodes);
      table[i] := Some(node.value);
      read := read + [node.value];
    }
    assert read + [] == read;
    SlotsOf(table[..], read, n);
    r := Success(());
  }

  lemma SlotsOf(s: seq<Option<Node>>, read: seq<Node>, n: nat)
    requires |s| == n && |read| <= n
    requires forall k :: 0 <= k < |read| ==> s[k] == Some(read[k])
    requires forall k :: |read| <= k < n ==> s[k] == None
    ensures s == Slots(read, n)
  {
  }

  class Reader {
    const storage: ByteStream
    /** The relationship segment and whether the section has one. */
    const segmentStart: int
    const segmentExists: bool
    /** The entry table; null before Read and after Release. */
    var entries: array?<Option<Node>>

    constructor (storage: ByteStream, segmentStart: int, segmentExists: bool)
      ensures this.storage == storage && this.segmentStart == segmentStart && this.segmentExists == segmentExists
      ensures entries == null
    {
      this.storage := storage;
      this.segmentStart := segmentStart;
      this.segmentExists := segmentExists;
      entries := null;
    }

    /**
     * Read: nothing when the section has no relationship segment; otherwise
     * the entry count and the index bounds at the segment's start, then a
     * table of entry-count slots filled in file order.
     */
    method Read() returns (r: Result<()>)
      modifies this`entries, storage
      ensures !segmentExists ==> r == Success(()) && entries == old(entries) && storage.pos == old(storage.pos)
      ensures segmentExists && segmentStart < 0 ==> r == Failure(ArgumentOutOfRange) && entries == old(entries)
      ensures segmentExists && segmentStart >= 0 && !Within(storage.data, segmentStart, 12) ==>
                r == Failure(EndOfStream) && entries == old(entries)
      ensures segmentExists && segmentStart >= 0 && Within(storage.data, segmentStart, 12) ==>
                var count := I32At(storage.data, segmentStart);
                && (count < 0 ==> r == Failure(Overflow) && entries == old(entries))
                && (count >= 0 ==>
                      var o := Nodes(storage.data, segmentStart + 12, count);
                      && entries != null && fresh(entries) && |o.nodes| <= count
                      && entries[..] == Slots(o.nodes, count)
                      && (r == Success(()) <==> o.completed)
                      && (r.Failure? ==> r.error == EndOfStream))
    {
      if !segmentExists {
        return Success(());
      }
      var _ :- storage.SetPosition(segmentStart);
      var entryCount :- storage.ReadInt32();
      var minIndex :- storage.ReadInt32();
      var maxIndex :- storage.ReadInt32();
      if entryCount < 0 {
        return Failure(Overflow);
      }
      var table := new Option<Node>[entryCount](_ => None);
      entries := table;
      r := FillTable(storage, table);
    }

    /** Release drops the table. */
    method Release()
      modifies this`entries
      ensures entries == null
    {
      entries := null;
    }

    /**
     * GetForeignKey: the key of the first entry naming the record. A missing
     * table fails with NullReference, a record no entry names with
     * InvalidOperation.
     */
    function GetForeignKey(recordIndex: int): (r: Result<int>)
      reads this, entries
      ensures entries == null ==> r == Failure(NullReference)
      ensures entries != null ==>
                match FirstMatch(entries[..], recordIndex)
                case Failure(e) => r == Failure(e)
                case Success(n) => r == KeyOf(n)
    {
      if entries == null then Failure(NullReference)
      else
        match FirstMatch(entries[..], recordIndex)
        case Failure(e) => Failure(e)
        case Success(n) => KeyOf(n)
    }
  }
}

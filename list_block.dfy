/**
 * ListBlockHandler: a block handler that is also a list. ReadBlock appends
 * elements read from the stream until the position reaches the block's end;
 * the list operations act on the same store. The element reader of the
 * concrete handlers is not part of this model: an element is a 32-bit
 * integer, as the index table holds.
 */
module ListBlockHandler {
  import opened Wrappers
  import opened Bytes
  import opened Streams

  /** What a run of element reads from `p` towards `end` gives. */
  datatype Outcome = Outcome(elements: seq<int>, completed: bool, pos: nat)

  /**
   * The elements read from `p` while the position is before `end`: each read
   * takes four bytes; it fails at the end of the data, keeping what was read.
   */
  function ReadFrom(data: seq<byte>, p: nat, end: int): Outcome
    decreases end - p
  {
    if p >= end then Outcome([], true, p)
    else if p + 4 > |data| then Outcome([], false, p)
    else
      var rest := ReadFrom(data, p + 4, end);
      Outcome([I32At(data, p)] + rest.elements, rest.completed, rest.pos)
  }

  /**
   * Element k is the integer at p + 4k, before the end; a completed read stops
   * at the first position at or past the end; an incomplete one stops before
   * the end, where fewer than four bytes are left.
   */
  lemma {:induction false} ReadFromStride(data: seq<byte>, p: nat, end: int)
    ensures var o := ReadFrom(data, p, end);
      && o.pos == p + 4 * |o.elements|
      && (forall k :: 0 <= k < |o.elements| ==>
            p + 4 * k < end && Within(data, p + 4 * k, 4) && o.elements[k] == I32At(data, p + 4 * k))
      && (o.completed ==> o.pos >= end && (o.elements != [] ==> o.pos - 4 < end))
      && (!o.completed ==> o.pos < end && o.pos + 4 > |data|)
    decreases end - p
  {
    if p < end && p + 4 <= |data| {
      ReadFromStride(data, p + 4, end);
      var o := ReadFrom(data, p, end);
      var rest := ReadFrom(data, p + 4, end);
      forall k | 0 <= k < |o.elements|
        ensures p + 4 * k < end && Within(data, p + 4 * k, 4) && o.elements[k] == I32At(data, p + 4 * k)
      {
        if k > 0 {
          assert o.elements[k] == rest.elements[k - 1];
        }
      }
    }
  }

  /** A block of n whole elements inside the data is read completely. */
  lemma {:induction false} ReadFromWholeBlock(data: seq<byte>, p: nat, n: nat)
    requires p + 4 * n <= |data|
    ensures ReadFrom(data, p, p + 4 * n) == Outcome(ReadFrom(data, p, p + 4 * n).elements, true, p + 4 * n)
    ensures |ReadFrom(data, p, p + 4 * n).elements| == n
    decreases n
  {
    if n > 0 {
      assert p + 4 * n == (p + 4) + 4 * (n - 1);
      ReadFromWholeBlock(data, p + 4, n - 1);
    }
  }

  /** The first position holding x, or -1 (List.IndexOf). */
  function FirstAt(s: seq<int>, x: int): (r: int)
    ensures -1 <= r < |s|
    ensures r >= 0 ==> s[r] == x && forall j :: 0 <= j < r ==> s[j] != x
    ensures r == -1 <==> x !in s
  {
    if s == [] then -1
    else if s[0] == x then 0
    else
      var k := FirstAt(s[1..], x);
      assert x in s[1..] ==> x in s;
      assert x in s && s[0] != x ==> x in s[1..];
      if k == -1 then -1 else k + 1
  }

  /** s with x inserted before position i. */
  function InsertAt(s: seq<int>, i: nat, x: int): (r: seq<int>)
    requires i <= |s|
  {
    s[..i] + [x] + s[i..]
  }

  /** s without its element at position i. */
  function DeleteAt(s: seq<int>, i: nat): (r: seq<int>)
    requires i < |s|
  {
    s[..i] + s[i + 1..]
  }

  /** Inserting shifts the elements from i on one place up and nothing else changes. */
  lemma InsertShifts(s: seq<int>, i: nat, x: int)
    requires i <= |s|
    ensures var r := InsertAt(s, i, x);
      && |r| == |s| + 1 && r[i] == x
      && (forall j :: 0 <= j < i ==> r[j] == s[j])
      && (forall j :: i <= j < |s| ==> r[j + 1] == s[j])
  {
  }

  /** Deleting shifts the elements after i one place down and nothing else changes. */
  lemma DeleteShifts(s: seq<int>, i: nat)
    requires i < |s|
    ensures var r := DeleteAt(s, i);
      && |r| == |s| - 1
      && (forall j :: 0 <= j < i ==> r[j] == s[j])
      && (forall j :: i <= j < |r| ==> r[j] == s[j + 1])
  {
  }

  /** Removing what was just inserted gives the list back; inserting what was removed too. */
  lemma {:induction false} InsertDeleteRoundTrip(s: seq<int>, i: nat, x: int)
    requires i <= |s|
    ensures DeleteAt(InsertAt(s, i, x), i) == s
    ensures i < |s| ==> InsertAt(DeleteAt(s, i), i, s[i]) == s
  {
    var r := InsertAt(s, i, x);
    assert r[..i] == s[..i] && r[i + 1..] == s[i..];
    assert s[..i] + s[i..] == s;
    if i < |s| {
      var d := DeleteAt(s, i);
      assert d[..i] == s[..i] && d[i..] == s[i + 1..];
      assert s[i..] == [s[i]] + s[i + 1..];
    }
  }

  /** Removing the first occurrence of x takes exactly one x out of the list. */
  lemma {:induction false} RemoveFirstMultiset(s: seq<int>, x: int)
    requires x in s
    ensures multiset(DeleteAt(s, FirstAt(s, x))) == multiset(s) - multiset{x}
  {
    var i := FirstAt(s, x);
    assert s == s[..i] + [s[i]] + s[i + 1..];
  }

  class Handler {
    var store: seq<int>

    /** The handler with an empty store. */
    constructor ()
      ensures store == []
    {
      store := [];
    }

    /**
     * The handler over a given list. The source keeps the caller's list
     * itself, so later changes through either are seen by both; the model
     * takes a copy of its contents.
     */
    constructor FromStore(store: seq<int>)
      ensures this.store == store
    {
      this.store := store;
    }

    /**
     * ReadBlock: nothing for a missing block (start or length 0); otherwise
     * elements are appended while the position is before start + length.
     * There is no seek: reading starts where the stream is.
     */
    method ReadBlock(stream: ByteStream, startOffset: int, length: int) returns (r: Result<()>)
      modifies this, stream
      ensures startOffset == 0 || length == 0 ==> r == Success(()) && store == old(store) && stream.pos == old(stream.pos)
      ensures startOffset != 0 && length != 0 ==>
                var o := ReadFrom(stream.data, old(stream.pos), startOffset + length);
                && store == old(store) + o.elements && stream.pos == o.pos
                && (r == Success(()) <==> o.completed)
                && (r.Failure? ==> r.error == EndOfStream)
    {
      if startOffset == 0 || length == 0 {
        return Success(());
      }
      var end := startOffset + length;
      ghost var o := ReadFrom(stream.data, stream.pos, end);
      ghost var read := [];
      while stream.pos < end
        invariant store == old(store) + read
        invariant var rest := ReadFrom(stream.data, stream.pos, end);
          read + rest.elements == o.elements && rest.completed == o.completed && rest.pos == o.pos
        decreases end - stream.pos
      {
        ghost var p := stream.pos;
        var e := stream.ReadInt32();
        if e.Failure? {
          return Failure(e.error);
        }
        assert [I32At(stream.data, p)] + ReadFrom(stream.data, p + 4, end).elements == ReadFrom(stream.data, p, end).elements;
        assert read + [e.value] + ReadFrom(stream.data, p + 4, end).elements
            == read + ([e.value] + ReadFrom(stream.data, p + 4, end).elements);
        store := store + [e.value];
        read := read + [e.value];
      }
      assert read + [] == read;
      r := Success(());
    }

    /** WriteBlock is not implemented. */
    function WriteBlock(): (r: Result<()>)
      ensures r == Failure(NotImplemented)
    {
      Failure(NotImplemented)
    }

    function Count(): (n: nat)
      reads this
      ensures n == |store|
    {
      |store|
    }

    /** The indexer's getter; an index outside the list fails. */
    function Get(index: int): (r: Result<int>)
      reads this
      ensures r.Failure? <==> !(0 <= index < |store|)
      ensures r.Failure? ==> r.error == ArgumentOutOfRange
      ensures r.Success? ==> r.value == store[index]
    {
      if 0 <= index < |store| then Success(store[index]) else Failure(ArgumentOutOfRange)
    }

    /** The indexer's setter: replaces one element and nothing else. */
    method Set(index: int, value: int) returns (r: Result<()>)
      modifies this
      ensures !(0 <= index < |old(store)|) ==> r == Failure(ArgumentOutOfRange) && store == old(store)
      ensures 0 <= index < |old(store)| ==>
                r == Success(()) && |store| == |old(store)| && store[index] == value
                && forall j :: 0 <= j < |store| && j != index ==> store[j] == old(store)[j]
    {
      if !(0 <= index < |store|) {
        return Failure(ArgumentOutOfRange);
      }
      store := store[index := value];
      r := Success(());
    }

    /** Add: one element at the end. */
    method Add(item: int)
      modifies this
      ensures store == old(store) + [item]
      ensures Count() == old(Count()) + 1 && Get(|store| - 1) == Success(item)
    {
      store := store + [item];
    }

    method Clear()
      modifies this
      ensures store == [] && Count() == 0
    {
      store := [];
    }

    function Contains(item: int): (b: bool)
      reads this
      ensures b <==> exists j :: 0 <= j < |store| && store[j] == item
    {
      item in store
    }

    /** IndexOf: the first position holding the item, or -1. */
    function IndexOf(item: int): (r: int)
      reads this
      ensures -1 <= r < |store|
      ensures r >= 0 ==> store[r] == item && forall j :: 0 <= j < r ==> store[j] != item
      ensures r == -1 <==> !Contains(item)
    {
      FirstAt(store, item)
    }

    /** Insert: the item goes before position index, which may be Count. */
    method Insert(index: int, item: int) returns (r: Result<()>)
      modifies this
      ensures !(0 <= index <= |old(store)|) ==> r == Failure(ArgumentOutOfRange) && store == old(store)
      ensures 0 <= index <= |old(store)| ==> r == Success(()) && store == InsertAt(old(store), index, item)
    {
      if !(0 <= index <= |store|) {
        return Failure(ArgumentOutOfRange);
      }
      store := InsertAt(store, index, item);
      r := Success(());
    }

    method RemoveAt(index: int) returns (r: Result<()>)
      modifies this
      ensures !(0 <= index < |old(store)|) ==> r == Failure(ArgumentOutOfRange) && store == old(store)
      ensures 0 <= index < |old(store)| ==> r == Success(()) && store == DeleteAt(old(store), index)
    {
      if !(0 <= index < |store|) {
        return Failure(ArgumentOutOfRange);
      }
      store := DeleteAt(store, index);
      r := Success(());
    }

    /** Remove: the first occurrence goes; true if there was one. */
    method Remove(item: int) returns (removed: bool)
      modifies this
      ensures removed == (item in old(store))
      ensures removed ==> store == DeleteAt(old(store), FirstAt(old(store), item))
                          && multiset(store) == multiset(old(store)) - multiset{item}
      ensures !removed ==> store == old(store)
    {
      var i := IndexOf(item);
      if i < 0 {
        return false;
      }
      RemoveFirstMultiset(store, item);
      store := DeleteAt(store, i);
      removed := true;
    }

    /**
     * CopyTo: the list into `array` from arrayIndex on; a null array, a
     * negative index or too little room fails before anything is copied.
     */
    method CopyTo(dest: array?<int>, destIndex: int) returns (r: Result<()>)
      modifies dest
      ensures dest == null ==> r == Failure(NullReference)
      ensures dest != null && destIndex < 0 ==> r == Failure(ArgumentOutOfRange) && dest[..] == old(dest[..])
      ensures dest != null && destIndex >= 0 && dest.Length - destIndex < |store| ==>
                r == Failure(ArgumentError) && dest[..] == old(dest[..])
      ensures dest != null && destIndex >= 0 && dest.Length - destIndex >= |store| ==>
                r == Success(())
                && dest[..] == old(dest[..destIndex]) + store + old(dest[destIndex + |store|..])
    {
      if dest == null {
        return Failure(NullReference);
      }
      if destIndex < 0 {
        return Failure(ArgumentOutOfRange);
      }
      if dest.Length - destIndex < |store| {
        return Failure(ArgumentError);
      }
      forall j | destIndex <= j < destIndex + |store| {
        dest[j] := store[j - destIndex];
      }
      r := Success(());
    }
  }
}

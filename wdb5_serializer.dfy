/**
 * The WDB5 serializer generator's member lookup and reader choice. Each
 * generation step takes the next call index; the lookup skips the index
 * column when the file has an index table, lets descriptor i cover
 * Cardinality consecutive call indices, and answers the relationship-data
 * sentinel past the last one. Only None and Immediate members of a primitive
 * or string type get a reader; the expression trees themselves are not part
 * of this model.
 */
module Wdb5SerializerGenerator {
  import opened Wrappers
  import MemberCompression

  /** A field descriptor; a fresh one has cardinality -1 and no compression. */
  datatype Metadata = Metadata(offset: int, size: int, cardinality: int, compression: MemberCompression.Kind)

  function DefaultMetadata(): Metadata { Metadata(0, 0, -1, MemberCompression.NoCompression) }

  /** The descriptor answered past the last call index a descriptor covers. */
  function RelationshipEntry(): Metadata { DefaultMetadata().(compression := MemberCompression.RelationshipData) }

  /** What GetMemberInfo answers: nothing (the index column), descriptor i, or the sentinel. */
  datatype Lookup = NoDescriptor | Descriptor(index: nat) | RelationshipSentinel

  /** How many call indices a descriptor covers: the inner loop runs Cardinality times, never a negative number. */
  function Covers(m: Metadata): nat { if m.cardinality > 0 then m.cardinality else 0 }

  /** The descriptor, from i on, that call index k (counted from descriptor i) falls in. */
  function LocateFrom(ms: seq<Metadata>, i: nat, k: int): (r: Option<nat>)
    ensures r.Some? ==> i <= r.value < |ms|
    decreases |ms| - i
  {
    if k < 0 || i >= |ms| then None
    else if k < Covers(ms[i]) then Some(i)
    else LocateFrom(ms, i + 1, k - Covers(ms[i]))
  }

  /** The first call index descriptor i covers. */
  function Start(ms: seq<Metadata>, i: nat): int
    requires i <= |ms|
  {
    if i == 0 then 0 else Start(ms, i - 1) + Covers(ms[i - 1])
  }

  lemma {:induction false} StartMonotone(ms: seq<Metadata>, i: nat, j: nat)
    requires i <= j <= |ms|
    ensures Start(ms, i) <= Start(ms, j)
    decreases j - i
  {
    if i < j {
      StartMonotone(ms, i, j - 1);
    }
  }

  /**
   * Descriptor i answers exactly the call indices from Start(i) to
   * Start(i) + Covers(i) - 1, in list order; nothing answers a negative index
   * or one at or past the total cardinality.
   */
  lemma {:induction false} LocateCovers(ms: seq<Metadata>, i0: nat, k: int)
    requires i0 <= |ms|
    ensures forall i :: i0 <= i < |ms| ==>
              (LocateFrom(ms, i0, k) == Some(i) <==>
                 Start(ms, i) - Start(ms, i0) <= k < Start(ms, i) - Start(ms, i0) + Covers(ms[i]))
    ensures LocateFrom(ms, i0, k).None? <==> k < 0 || k >= Start(ms, |ms|) - Start(ms, i0)
  {
    forall i | i0 <= i < |ms|
      ensures LocateFrom(ms, i0, k) == Some(i) <==>
                Start(ms, i) - Start(ms, i0) <= k < Start(ms, i) - Start(ms, i0) + Covers(ms[i])
    {
      LocateCoversAt(ms, i0, k, i);
    }
    LocateNone(ms, i0, k);
  }

  /** Descriptor i, from i0 on, answers exactly its own call indices. */
  lemma {:induction false} LocateCoversAt(ms: seq<Metadata>, i0: nat, k: int, i: nat)
    requires i0 <= i < |ms|
    ensures LocateFrom(ms, i0, k) == Some(i) <==>
              Start(ms, i) - Start(ms, i0) <= k < Start(ms, i) - Start(ms, i0) + Covers(ms[i])
    decreases |ms| - i0
  {
    StartMonotone(ms, i0, i);
    if i0 < i {
      StartMonotone(ms, i0 + 1, i);
      if k >= Covers(ms[i0]) {
        LocateCoversAt(ms, i0 + 1, k - Covers(ms[i0]), i);
      }
    }
  }

  /** No descriptor from i0 on answers a negative index or one past their total cardinality. */
  lemma {:induction false} LocateNone(ms: seq<Metadata>, i0: nat, k: int)
    requires i0 <= |ms|
    ensures LocateFrom(ms, i0, k).None? <==> k < 0 || k >= Start(ms, |ms|) - Start(ms, i0)
    decreases |ms| - i0
  {
    if i0 < |ms| && k >= Covers(ms[i0]) {
      LocateNone(ms, i0 + 1, k - Covers(ms[i0]));
    } else if i0 < |ms| {
      StartMonotone(ms, i0 + 1, |ms|);
    }
  }

  /** GetMemberInfo's answer, from the index column, the field-info descriptors and the call index. */
  function MemberFor(indexColumn: Option<int>, metadata: Option<seq<Metadata>>, callIndex: int): (r: Result<Lookup>)
    ensures r.Failure? ==> r.error == NullReference && metadata.None?
  {
    if indexColumn.Some? && callIndex == indexColumn.value then Success(NoDescriptor)
    else if metadata.None? then Failure(NullReference)
    else
      var k := if indexColumn.Some? && callIndex > indexColumn.value then callIndex - 1 else callIndex;
      match LocateFrom(metadata.value, 0, k)
      case Some(i) => Success(Descriptor(i))
      case None => Success(RelationshipSentinel)
  }

  /**
   * The index column stands for no descriptor; the call indices after it are
   * those of a file without an index table, shifted up by one, and the ones
   * before it are unchanged.
   */
  lemma IndexColumnSkipped(ic: int, metadata: Option<seq<Metadata>>, callIndex: int)
    ensures MemberFor(Some(ic), metadata, ic) == Success(NoDescriptor)
    ensures callIndex > ic ==> MemberFor(Some(ic), metadata, callIndex) == MemberFor(None, metadata, callIndex - 1)
    ensures callIndex < ic ==> MemberFor(Some(ic), metadata, callIndex) == MemberFor(None, metadata, callIndex)
  {
  }

  /** Without an index table, descriptor i answers its Covers(i) call indices, and the sentinel the rest. */
  lemma {:induction false} MemberForCoverage(ms: seq<Metadata>, callIndex: int)
    ensures forall i :: 0 <= i < |ms| ==>
              (MemberFor(None, Some(ms), callIndex) == Success(Descriptor(i)) <==>
                 Start(ms, i) <= callIndex < Start(ms, i) + Covers(ms[i]))
    ensures MemberFor(None, Some(ms), callIndex) == Success(RelationshipSentinel) <==>
              callIndex < 0 || callIndex >= Start(ms, |ms|)
  {
    LocateCovers(ms, 0, callIndex);
  }

  /** The type of the member a reader is generated for. */
  datatype TypeKind = Primitive | StringType | OtherType

  /** The reader a member gets: an immediate read of its bytes, as a value or as a string. */
  datatype Reader = ReadImmediate(offset: int, size: int) | ReadStringImmediate(offset: int, size: int)

  /** The compression and type switch of GenerateExpressionReader. */
  function ReaderFor(m: Metadata, t: TypeKind): (r: Result<Reader>)
    ensures r.Success? <==> (m.compression == MemberCompression.NoCompression || m.compression == MemberCompression.Immediate)
                            && t != OtherType
    ensures r.Failure? ==> r.error == InvalidOperation
    ensures r.Success? ==> r.value.offset == m.offset && r.value.size == m.size
                           && (r.value.ReadStringImmediate? <==> t == StringType)
  {
    if !(m.compression.NoCompression? || m.compression.Immediate?) then Failure(InvalidOperation)
    else if t.Primitive? then Success(ReadImmediate(m.offset, m.size))
    else if t.StringType? then Success(ReadStringImmediate(m.offset, m.size))
    else Failure(InvalidOperation)
  }

  /** The relationship-data sentinel never gets a reader. */
  lemma SentinelHasNoReader(t: TypeKind)
    ensures ReaderFor(RelationshipEntry(), t) == Failure(InvalidOperation)
  {
  }

  /** One generation step's outcome for a lookup: no reader for no descriptor. */
  function Generated(ms: Option<seq<Metadata>>, lookup: Result<Lookup>, t: TypeKind): (r: Result<Option<Reader>>)
    requires lookup.Success? && lookup.value.Descriptor? ==> ms.Some? && lookup.value.index < |ms.value|
    ensures lookup.Success? && lookup.value == NoDescriptor ==> r == Success(None)
    ensures lookup.Success? && lookup.value == RelationshipSentinel ==> r == Failure(InvalidOperation)
    ensures lookup.Failure? ==> r == Failure(lookup.error)
  {
    match lookup
    case Failure(e) => Failure(e)
    case Success(NoDescriptor) => Success(None)
    case Success(RelationshipSentinel) => AsOptional(ReaderFor(RelationshipEntry(), t))
    case Success(Descriptor(i)) => AsOptional(ReaderFor(ms.value[i], t))
  }

  /** A reader, or the failure to make one, as an optional reader. */
  function AsOptional(r: Result<Reader>): (o: Result<Option<Reader>>)
    ensures r.Success? ==> o == Success(Some(r.value))
    ensures r.Failure? ==> o == Failure(r.error)
  {
    match r
    case Success(rd) => Success(Some(rd))
    case Failure(e) => Failure(e)
  }

  class Generator {
    /** The field-info handler's descriptors; none when the chain has no such handler. */
    const metadata: Option<seq<Metadata>>
    /** Set iff the file has an index table. */
    const indexColumn: Option<int>
    /** The next call index. */
    var state: int

    constructor (fieldInfo: Option<seq<Metadata>>, indexTableExists: bool, headerIndexColumn: int)
      ensures metadata == fieldInfo && state == 0
      ensures indexColumn.Some? <==> indexTableExists
      ensures indexColumn.Some? ==> indexColumn.value == headerIndexColumn
    {
      metadata := fieldInfo;
      indexColumn := if indexTableExists then Some(headerIndexColumn) else None;
      state := 0;
    }

    /** GetMemberInfo: the nested walk over the descriptors, counting the call index down. */
    method GetMemberInfo(callIndex: int) returns (r: Result<Lookup>)
      ensures r == MemberFor(indexColumn, metadata, callIndex)
      ensures r.Success? && r.value.Descriptor? ==> metadata.Some? && r.value.index < |metadata.value|
    {
      var c := callIndex;
      if indexColumn.Some? {
        if c == indexColumn.value {
          return Success(NoDescriptor);
        } else if c > indexColumn.value {
          c := c - 1;
        }
      }
      if metadata.None? {
        return Failure(NullReference);
      }
      var ms := metadata.value;
      ghost var k0 := c;
      for i := 0 to |ms|
        invariant LocateFrom(ms, 0, k0) == LocateFrom(ms, i, c)
      {
        ghost var ci := c;
        var j := 0;
        while j < ms[i].cardinality
          invariant 0 <= j && c == ci - j && (ci >= 0 ==> ci >= j)
          invariant ms[i].cardinality > 0 ==> j <= ms[i].cardinality
          invariant ms[i].cardinality <= 0 ==> j == 0
        {
          if c == 0 {
            return Success(Descriptor(i));
          }
          c := c - 1;
          j := j + 1;
        }
        assert c == ci - Covers(ms[i]);
      }
      r := Success(RelationshipSentinel);
    }

    /** GenerateExpressionReader: State++ names the call index; no descriptor gives no reader. */
    method GenerateExpressionReader(t: TypeKind) returns (r: Result<Option<Reader>>)
      modifies this`state
      ensures state == old(state) + 1
      ensures r == Generated(metadata, MemberFor(indexColumn, metadata, old(state)), t)
    {
      var callIndex := state;
      state := state + 1;
      var lookup := GetMemberInfo(callIndex);
      r := Generated(metadata, lookup, t);
    }
  }
}

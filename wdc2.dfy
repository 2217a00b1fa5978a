/**
 * The WDC2 file reader: the 68-byte header, the section headers, the two
 * passes over the column descriptors (field info, then storage info) that
 * update the members in place, the placement of the pallet and common blocks,
 * the section layouts, and the records of all sections in section order.
 */
module Wdc2 {
  import opened Wrappers
  import opened Ints
  import opened Bytes
  import opened Streams
  import MemberCompression
  import Wdc2Section

  datatype MainHeader = MainHeader(
    recordCount: int, recordSize: int, tableHash: int, layoutHash: int,
    flags: int, indexColumn: int, totalFieldCount: int,
    fieldStorageInfoSize: int, commonDataSize: int, palletDataSize: int, sectionCount: int)

  const HEADER_SIZE: int := 68

  /** The size of one storage-info entry: 2 + 2 + 4 + 4 + 3 * 4 bytes. */
  const STORAGE_INFO_SIZE: int := 24

  /**
   * What ReadHeader reads at p, up to the section headers: only the record
   * count when it is 0 (None), otherwise the fields named in the header
   * between the words it skips.
   */
  function HeaderAt(data: seq<byte>, p: int): (r: Result<Option<MainHeader>>)
    ensures r == Success(None) <==> Within(data, p, 4) && I32At(data, p) == 0
    ensures r.Success? && r.value.Some? ==> Within(data, p, HEADER_SIZE) && r.value.value.recordCount != 0
    ensures r.Failure? ==> r.error == EndOfStream && !Within(data, p, HEADER_SIZE)
  {
    if !Within(data, p, 4) then Failure(EndOfStream)
    else if I32At(data, p) == 0 then Success(None)
    else if !Within(data, p, HEADER_SIZE) then Failure(EndOfStream)
    else Success(Some(MainHeader(
      I32At(data, p), I32At(data, p + 8), U32At(data, p + 16), U32At(data, p + 20),
      I16At(data, p + 36), I16At(data, p + 38), I32At(data, p + 40),
      I32At(data, p + 52), I32At(data, p + 56), I32At(data, p + 60), I32At(data, p + 64))))
  }

  /** A header with no records is decided by its first four bytes. */
  lemma {:induction false} EmptyFileStopsEarly(data: seq<byte>, p: int, rest: seq<byte>)
    requires Within(data, p, 4) && I32At(data, p) == 0
    ensures HeaderAt(data[..p + 4] + rest, p) == Success(None)
  {
    var other := data[..p + 4] + rest;
    assert other[p] == data[p] && other[p + 1] == data[p + 1] && other[p + 2] == data[p + 2] && other[p + 3] == data[p + 3];
  }

  /** The column state WDC2 updates in place. */
  datatype Member = Member(
    bitSize: int, cardinality: int, offsetInRecord: int,
    compression: MemberCompression.Kind, isSigned: bool, defaultValue: seq<byte>)

  /** The n bytes at p are in the data; nothing to read always fits, wherever the stream stands. */
  predicate Fits(data: seq<byte>, p: int, n: nat)
  {
    n == 0 || Within(data, p, n)
  }

  /** A field-info entry: the stored complement of the bit size and the record position, two int16s. */
  datatype FieldEntry = FieldEntry(stored: int, position: int)

  /** The first n field-info entries from q. */
  function FieldEntries(data: seq<byte>, q: int, n: nat): (es: seq<FieldEntry>)
    requires Fits(data, q, 4 * n)
    ensures |es| == n
  {
    if n == 0 then [] else FieldEntries(data, q, n - 1) + [FieldEntry(I16At(data, q + 4 * (n - 1)), I16At(data, q + 4 * (n - 1) + 2))]
  }

  /** Entry i of the entries is the pair of int16s at q + 4 * i. */
  lemma {:induction false} FieldEntriesAt(data: seq<byte>, q: int, n: nat, i: nat)
    requires Fits(data, q, 4 * n) && i < n
    ensures FieldEntries(data, q, n)[i] == FieldEntry(I16At(data, q + 4 * i), I16At(data, q + 4 * i + 2))
  {
    if i < n - 1 {
      FieldEntriesAt(data, q, n - 1, i);
    }
  }

  /**
   * One field-info iteration: column i gets BitSize 32 - stored; the column
   * before it, when its BitSize is not 0, gets its cardinality from the
   * distance between the two record positions.
   */
  function FieldInfoStep(ms: seq<Member>, i: nat, stored: int, position: int, previous: int): (r: seq<Member>)
    requires i < |ms|
    ensures |r| == |ms|
  {
    var ms1 := ms[i := ms[i].(bitSize := 32 - stored)];
    if i > 0 && ms1[i - 1].bitSize != 0 then
      ms1[i - 1 := ms1[i - 1].(cardinality := DivT(position - previous, ms1[i - 1].bitSize))]
    else ms1
  }

  /** The members after the first n field-info iterations over the entries es. */
  function FieldInfoPass(ms: seq<Member>, es: seq<FieldEntry>, n: nat): (r: seq<Member>)
    requires n <= |ms| && n <= |es|
    ensures |r| == |ms|
  {
    if n == 0 then ms
    else FieldInfoStep(FieldInfoPass(ms, es, n - 1), n - 1, es[n - 1].stored, es[n - 1].position,
                       if n == 1 then 0 else es[n - 2].position)
  }

  /** The first n iterations read only the first n entries. */
  lemma {:induction false} FieldInfoPassPrefix(ms: seq<Member>, es: seq<FieldEntry>, es': seq<FieldEntry>, n: nat)
    requires n <= |ms| && n <= |es| && n <= |es'| && es[..n] == es'[..n]
    ensures FieldInfoPass(ms, es, n) == FieldInfoPass(ms, es', n)
  {
    if n > 0 {
      assert es[..n - 1] == es[..n][..n - 1] && es'[..n - 1] == es'[..n][..n - 1];
      assert es[n - 1] == es[..n][n - 1] && es'[n - 1] == es'[..n][n - 1];
      if n > 1 {
        assert es[n - 2] == es[..n][n - 2] && es'[n - 2] == es'[..n][n - 2];
      }
      FieldInfoPassPrefix(ms, es, es', n - 1);
    }
  }

  /** One more entry is one more iteration. */
  lemma FieldInfoPassSnoc(ms: seq<Member>, es: seq<FieldEntry>, e: FieldEntry)
    requires |es| < |ms|
    ensures FieldInfoPass(ms, es + [e], |es| + 1)
            == FieldInfoStep(FieldInfoPass(ms, es, |es|), |es|, e.stored, e.position, if |es| == 0 then 0 else es[|es| - 1].position)
  {
    assert (es + [e])[..|es|] == es[..|es|];
    FieldInfoPassPrefix(ms, es, es + [e], |es|);
  }

  /** A member equals another except possibly in its bit size and cardinality. */
  predicate SameButSizes(a: Member, b: Member)
  {
    a == b.(bitSize := a.bitSize, cardinality := a.cardinality)
  }

  /**
   * The field-info pass, column i after n iterations: only its sizes may
   * differ from before; its BitSize is 32 - stored_i iff i < n, and a column
   * from n on is untouched.
   */
  lemma {:induction false} FieldInfoShape(ms: seq<Member>, es: seq<FieldEntry>, n: nat, i: nat)
    requires n <= |ms| && n <= |es| && i < |ms|
    ensures var r := FieldInfoPass(ms, es, n);
      && SameButSizes(r[i], ms[i])
      && r[i].bitSize == (if i < n then 32 - es[i].stored else ms[i].bitSize)
      && (i >= n ==> r[i] == ms[i])
    decreases n
  {
    if n > 0 {
      FieldInfoShape(ms, es, n - 1, i);
    }
  }

  /** One iteration changes column i's BitSize, possibly the previous column's cardinality, and nothing else. */
  lemma FieldInfoStepAt(ms: seq<Member>, i: nat, stored: int, position: int, previous: int, k: nat)
    requires i < |ms| && k < |ms|
    ensures FieldInfoStep(ms, i, stored, position, previous)[k]
            == if k == i then ms[i].(bitSize := 32 - stored)
               else if k + 1 == i && ms[k].bitSize != 0 then ms[k].(cardinality := DivT(position - previous, ms[k].bitSize))
               else ms[k]
  {
  }

  /**
   * The field-info pass, column i < n's cardinality after n iterations:
   * (position_{i+1} - position_i) / BitSize_i once column i + 1 is read and
   * BitSize_i is not 0; otherwise, and always for the last column read, its
   * cardinality from before.
   */
  lemma {:induction false} FieldInfoCardinality(ms: seq<Member>, es: seq<FieldEntry>, n: nat, i: nat)
    requires n <= |ms| && n <= |es| && i < n
    ensures FieldInfoPass(ms, es, n)[i].cardinality
            == if i == n - 1 || 32 - es[i].stored == 0 then ms[i].cardinality
               else DivT(es[i + 1].position - es[i].position, 32 - es[i].stored)
    decreases n
  {
    var prev := FieldInfoPass(ms, es, n - 1);
    var previous := if n == 1 then 0 else es[n - 2].position;
    FieldInfoStepAt(prev, n - 1, es[n - 1].stored, es[n - 1].position, previous, i);
    FieldInfoShape(ms, es, n - 1, i);
    if i < n - 1 {
      FieldInfoCardinality(ms, es, n - 1, i);
    }
  }

  /** Where a storage-info entry leaves a member, and where the next entry starts. */
  datatype Placed = Placed(member: Member, next: nat)

  /** The four bytes CommonData keeps as the default value: fewer at the end of the data. */
  function DefaultBytes(data: seq<byte>, p: nat): seq<byte>
  {
    if p + 4 <= |data| then data[p..p + 4] else if p <= |data| then data[p..] else []
  }

  function AfterDefaultBytes(data: seq<byte>, p: nat): nat
  {
    if p + 4 <= |data| then p + 4 else if p <= |data| then |data| else p
  }

  /** The compression-specific twelve bytes of a storage-info entry, from p. */
  function Payload(m: Member, data: seq<byte>, p: nat): (r: Result<Placed>)
    ensures r.Failure? ==> r.error == EndOfStream
    ensures Within(data, p, 12) ==> r.Success? && r.value.next == p + 12
  {
    if m.compression.Immediate? then
      if !Within(data, p + 8, 4) then Failure(EndOfStream)
      else Success(Placed(m.(isSigned := I32At(data, p + 8) % 2 != 0), p + 12))
    else if m.compression.CommonData? then
      Success(Placed(m.(defaultValue := DefaultBytes(data, p)), AfterDefaultBytes(data, p) + 8))
    else if m.compression.BitpackedPalletArrayData? then
      if !Within(data, p + 8, 4) then Failure(EndOfStream)
      else Success(Placed(m.(cardinality := I32At(data, p + 8)), p + 12))
    else Success(Placed(m, p + 12))
  }

  /**
   * One storage-info entry at r: the offset in the record, the field's size in
   * bits (the BitSize when the field-info pass left it 0), an unused size, the
   * compression code and its payload; then, when BitSize is not 0, the
   * cardinality the field size gives.
   */
  function StorageEntry(m: Member, data: seq<byte>, r: nat): (res: Result<Placed>)
    ensures res.Failure? ==> res.error == EndOfStream
    ensures Within(data, r, 24) ==> res.Success? && res.value.next == r + 24
  {
    if !Within(data, r, 12) then Failure(EndOfStream)
    else
      var fieldSizeBits := I16At(data, r + 2);
      var m1 := m.(offsetInRecord := I16At(data, r),
                   bitSize := if m.bitSize == 0 then fieldSizeBits else m.bitSize,
                   compression := MemberCompression.FromCode(I32At(data, r + 8)));
      match Payload(m1, data, r + 12)
      case Failure(e) => Failure(e)
      case Success(Placed(m2, next)) =>
        Success(Placed(if m2.bitSize != 0 then m2.(cardinality := DivT(fieldSizeBits, m2.bitSize)) else m2, next))
  }

  /**
   * The storage-info entry in full: when its 24 bytes are there it is read
   * completely; the cardinality read for a pallet array survives only when
   * BitSize is 0, since a non-zero BitSize overwrites it with size / BitSize.
   */
  lemma StorageEntrySpec(m: Member, data: seq<byte>, r: nat)
    requires Within(data, r, STORAGE_INFO_SIZE)
    ensures var e := StorageEntry(m, data, r);
      var fieldSizeBits := I16At(data, r + 2);
      var kind := MemberCompression.FromCode(I32At(data, r + 8));
      && e.Success? && e.value.next == r + STORAGE_INFO_SIZE
      && var m' := e.value.member;
      && m'.offsetInRecord == I16At(data, r) && m'.compression == kind
      && m'.bitSize == (if m.bitSize == 0 then fieldSizeBits else m.bitSize)
      && (m'.bitSize != 0 ==> m'.cardinality == DivT(fieldSizeBits, m'.bitSize))
      && (m'.bitSize == 0 ==> m'.cardinality == if kind.BitpackedPalletArrayData? then I32At(data, r + 20) else m.cardinality)
      && m'.isSigned == (if kind.Immediate? then I32At(data, r + 20) % 2 != 0 else m.isSigned)
      && m'.defaultValue == (if kind.CommonData? then data[r + 12..r + 16] else m.defaultValue)
  {
  }

  /** The pass result: the members, and where the stream stands after it. */
  datatype Pass = Pass(members: seq<Member>, next: nat)

  /**
   * The first n iterations of a pass that reads one entry per column from r
   * with entry: a column past the members fails before any read, and the
   * first failure ends the pass.
   */
  function PassWith(entry: (Member, nat) -> Result<Placed>, ms: seq<Member>, r: nat, n: nat): (res: Result<Pass>)
    ensures res.Success? ==> |res.value.members| == |ms|
  {
    if n == 0 then Success(Pass(ms, r))
    else match PassWith(entry, ms, r, n - 1)
      case Failure(e) => Failure(e)
      case Success(Pass(ms1, next)) =>
        if n - 1 >= |ms| then Failure(IndexOutOfRange)
        else match entry(ms1[n - 1], next)
          case Failure(e) => Failure(e)
          case Success(Placed(m, after)) => Success(Pass(ms1[n - 1 := m], after))
  }

  /** Once a pass fails, running it further fails the same way. */
  lemma {:induction false} PassWithFails(entry: (Member, nat) -> Result<Placed>, ms: seq<Member>, r: nat, k: nat, n: nat)
    requires k <= n && PassWith(entry, ms, r, k).Failure?
    ensures PassWith(entry, ms, r, n) == PassWith(entry, ms, r, k)
    decreases n - k
  {
    if k < n {
      PassWithFails(entry, ms, r, k, n - 1);
    }
  }

  /**
   * A pass whose entries take 24 bytes each and always succeed below limit
   * succeeds, ends 24 bytes per entry further on, and updates column k by
   * its entry if k < n and leaves it untouched otherwise.
   */
  lemma {:induction false} PassWithWhole(entry: (Member, nat) -> Result<Placed>, limit: nat, ms: seq<Member>, p: nat, n: nat)
    requires n <= |ms| && p + 24 * n <= limit
    requires forall m: Member, q: nat :: q + 24 <= limit ==> entry(m, q).Success? && entry(m, q).value.next == q + 24
    ensures var o := PassWith(entry, ms, p, n);
      && o.Success? && o.value.next == p + 24 * n
      && forall k :: 0 <= k < |ms| ==>
           o.value.members[k] == if k < n then entry(ms[k], p + 24 * k).value.member else ms[k]
  {
    if n > 0 {
      PassWithWhole(entry, limit, ms, p, n - 1);
      var before := PassWith(entry, ms, p, n - 1).value;
      assert before.members[n - 1] == ms[n - 1];
      assert before.next + 24 <= limit;
    }
  }

  /** The storage-info entry reader over the data. */
  function StorageEntryOf(data: seq<byte>): (Member, nat) -> Result<Placed>
  {
    (m: Member, q: nat) => StorageEntry(m, data, q)
  }

  /** The first n storage-info iterations from position r. */
  function StoragePass(ms: seq<Member>, data: seq<byte>, r: nat, n: nat): (res: Result<Pass>)
  {
    PassWith(StorageEntryOf(data), ms, r, n)
  }

  /** The member a complete storage-info entry at r leaves. */
  function EntryMember(m: Member, data: seq<byte>, r: nat): Member
    requires Within(data, r, 24)
  {
    StorageEntry(m, data, r).value.member
  }

  /**
   * When every entry is in the data, the storage-info pass succeeds, ends at
   * the entries' end, and updates column k by entry k if k < n and leaves it
   * untouched otherwise.
   */
  lemma StoragePassWhole(ms: seq<Member>, data: seq<byte>, p: nat, n: nat)
    requires n <= |ms| && p + 24 * n <= |data|
    ensures var o := StoragePass(ms, data, p, n);
      && o.Success? && o.value.next == p + 24 * n
      && forall k :: 0 <= k < |ms| ==>
           o.value.members[k] == if k < n then EntryMember(ms[k], data, p + 24 * k) else ms[k]
  {
    PassWithWhole(StorageEntryOf(data), |data|, ms, p, n);
  }

  /** The number of storage-info iterations: the size over 24, rounded toward zero, and none for a negative size. */
  function StorageCount(storageInfoSize: int): (n: nat)
    ensures storageInfoSize >= 0 ==> n == storageInfoSize / STORAGE_INFO_SIZE
  {
    if DivT(storageInfoSize, STORAGE_INFO_SIZE) > 0 then DivT(storageInfoSize, STORAGE_INFO_SIZE) else 0
  }

  /** The number of field-info iterations: none for a negative column count. */
  function FieldCount(totalFieldCount: int): nat
  {
    if totalFieldCount > 0 then totalFieldCount else 0
  }

  /**
   * Both column passes from q: the field-info entries, then the storage-info
   * entries right after them. A field-info column past the members fails only
   * once its entry has been read.
   */
  function ColumnPasses(ms: seq<Member>, data: seq<byte>, q: nat, totalFieldCount: int, storageInfoSize: int): (r: Result<Pass>)
    ensures r.Success? ==> |r.value.members| == |ms|
  {
    PassesUpTo(2, ms, data, q, totalFieldCount, storageInfoSize)
  }

  /** The column passes up to stage k: none (0), the field-info pass (1), then the storage-info pass after it (2). */
  function PassesUpTo(k: nat, ms: seq<Member>, data: seq<byte>, q: nat, totalFieldCount: int, storageInfoSize: int): (r: Result<Pass>)
    requires k <= 2
    ensures r.Success? ==> |r.value.members| == |ms|
  {
    var n := FieldCount(totalFieldCount);
    if k == 0 then Success(Pass(ms, q))
    else if k == 1 then
      if !(n <= |ms| && Fits(data, q, 4 * n)) then
        Failure(if Within(data, q, 4 * (|ms| + 1)) then IndexOutOfRange else EndOfStream)
      else Success(Pass(FieldInfoPass(ms, FieldEntries(data, q, n), n), q + 4 * n))
    else match PassesUpTo(1, ms, data, q, totalFieldCount, storageInfoSize)
      case Failure(e) => Failure(e)
      case Success(p) => StoragePass(p.members, data, p.next, StorageCount(storageInfoSize))
  }

  /** Records all sections yield, in section order. */
  function Concat<T>(ss: seq<seq<T>>): (r: seq<T>)
  {
    if ss == [] then [] else Concat(ss[..|ss| - 1]) + ss[|ss| - 1]
  }

  /** The number of records before section i's. */
  function Before<T>(ss: seq<seq<T>>, i: nat): nat
    requires i <= |ss|
  {
    if i == 0 then 0 else Before(ss, i - 1) + |ss[i - 1]|
  }

  /** There are Before(|ss|) records in all. */
  lemma {:induction false} ConcatLength<T>(ss: seq<seq<T>>)
    ensures |Concat(ss)| == Before(ss, |ss|)
  {
    if ss != [] {
      var init := ss[..|ss| - 1];
      ConcatLength(init);
      BeforePrefix(ss, init, |init|);
    }
  }

  /** Record j of section i is record Before(i) + j of the whole. */
  lemma {:induction false} ConcatAt<T>(ss: seq<seq<T>>, i: nat, j: nat)
    requires i < |ss| && j < |ss[i]|
    ensures Before(ss, i) + j < |Concat(ss)| && Concat(ss)[Before(ss, i) + j] == ss[i][j]
  {
    var init, last := ss[..|ss| - 1], ss[|ss| - 1];
    assert Concat(ss) == Concat(init) + last;
    ConcatLength(init);
    BeforePrefix(ss, init, |init|);
    if i < |init| {
      ConcatAt(init, i, j);
      BeforePrefix(ss, init, i);
      assert init[i] == ss[i];
    }
  }

  lemma {:induction false} BeforePrefix<T>(ss: seq<seq<T>>, init: seq<seq<T>>, i: nat)
    requires |init| <= |ss| && init == ss[..|init|] && i <= |init|
    ensures Before(init, i) == Before(ss, i)
  {
    if i > 0 {
      BeforePrefix(ss, init, i - 1);
    }
  }

  /** ReadHeader's first words after the record count: the record size and the two hashes. */
  method ReadSizesAndHashes(stream: ByteStream) returns (r: Result<()>, recordSize: int, tableHash: int, layoutHash: int)
    modifies stream
    ensures Within(stream.data, old(stream.pos), 20) ==>
              r.Success? && stream.pos == old(stream.pos) + 20 && recordSize == I32At(stream.data, old(stream.pos) + 4)
              && tableHash == U32At(stream.data, old(stream.pos) + 12) && layoutHash == U32At(stream.data, old(stream.pos) + 16)
    ensures !Within(stream.data, old(stream.pos), 20) ==> r == Failure(EndOfStream)
  {
    recordSize, tableHash, layoutHash := 0, 0, 0;
    stream.Skip(4);
    var size :- stream.ReadInt32();
    stream.Skip(4);
    var th :- stream.ReadUInt32();
    var lh :- stream.ReadUInt32();
    recordSize, tableHash, layoutHash := size, th, lh;
    r := Success(());
  }

  /** The flags, the index column and the column count, after the minimum, maximum and locale words. */
  method ReadFlagsAndColumns(stream: ByteStream) returns (r: Result<()>, flags: int, indexColumn: int, totalFieldCount: int)
    modifies stream
    ensures Within(stream.data, old(stream.pos), 20) ==>
              r.Success? && stream.pos == old(stream.pos) + 20 && flags == I16At(stream.data, old(stream.pos) + 12)
              && indexColumn == I16At(stream.data, old(stream.pos) + 14) && totalFieldCount == I32At(stream.data, old(stream.pos) + 16)
    ensures !Within(stream.data, old(stream.pos), 20) ==> r == Failure(EndOfStream)
  {
    flags, indexColumn, totalFieldCount := 0, 0, 0;
    stream.Skip(12);
    var f :- stream.ReadInt16();
    var ic :- stream.ReadInt16();
    var n :- stream.ReadInt32();
    flags, indexColumn, totalFieldCount := f, ic, n;
    r := Success(());
  }

  /** The header up to the section headers. */
  method ReadMainHeader(stream: ByteStream) returns (r: Result<Option<MainHeader>>)
    modifies stream
    ensures r == HeaderAt(stream.data, old(stream.pos))
    ensures r == Success(None) ==> stream.pos == old(stream.pos) + 4
    ensures r.Success? && r.value.Some? ==> stream.pos == old(stream.pos) + HEADER_SIZE
  {
    var recordCount :- stream.ReadInt32();
    if recordCount == 0 {
      return Success(None);
    }
    var _, recordSize, tableHash, layoutHash :- ReadSizesAndHashes(stream);
    var _, flags, indexColumn, totalFieldCount :- ReadFlagsAndColumns(stream);
    stream.Skip(8);
    var _, storageInfoSize, commonDataSize, palletDataSize, sectionCount :- Wdc2Section.ReadFourInt32(stream);
    r := Success(Some(MainHeader(recordCount, recordSize, tableHash, layoutHash, flags, indexColumn, totalFieldCount,
                                 storageInfoSize, commonDataSize, palletDataSize, sectionCount)));
  }

  /** The section headers, one fresh section each, in file order. */
  method ReadSections(stream: ByteStream, count: nat) returns (r: Result<seq<Wdc2Section.Section>>)
    modifies stream
    ensures Fits(stream.data, old(stream.pos), 36 * count) ==>
              && r.Success? && |r.value| == count && stream.pos == old(stream.pos) + 36 * count
              && (forall k :: 0 <= k < count ==>
                    fresh(r.value[k]) && r.value[k].stream == stream
                    && r.value[k].header
                       == Wdc2Section.SectionHeaderAt(stream.data, old(stream.pos) + 36 * k))
              && (forall a, b :: 0 <= a < b < count ==> r.value[a] != r.value[b])
    ensures !Fits(stream.data, old(stream.pos), 36 * count) ==> r == Failure(EndOfStream)
  {
    ghost var q := stream.pos;
    var sections: seq<Wdc2Section.Section> := [];
    for i := 0 to count
      invariant |sections| == i && stream.pos == q + 36 * i
      invariant Fits(stream.data, q, 36 * i)
      invariant forall k :: 0 <= k < i ==>
                  fresh(sections[k]) && sections[k].stream == stream
                  && sections[k].header == Wdc2Section.SectionHeaderAt(stream.data, q + 36 * k)
      invariant forall a, b :: 0 <= a < b < i ==> sections[a] != sections[b]
    {
      var section := new Wdc2Section.Section(stream);
      var ok := section.ReadHeader();
      if ok.Failure? {
        return Failure(ok.error);
      }
      sections := sections + [section];
    }
    r := Success(sections);
  }

  /** The field-info pass: one (stored bit size, record position) pair per column, in column order. */
  method ReadFieldInfo(stream: ByteStream, members: array<Member>, count: int) returns (r: Result<()>)
    modifies stream, members
    ensures var n := FieldCount(count);
      && (n <= members.Length && Fits(stream.data, old(stream.pos), 4 * n) ==>
            r == Success(()) && stream.pos == old(stream.pos) + 4 * n
            && members[..] == FieldInfoPass(old(members[..]), FieldEntries(stream.data, old(stream.pos), n), n))
      && (!(n <= members.Length && Fits(stream.data, old(stream.pos), 4 * n)) ==>
            r == Failure(if Within(stream.data, old(stream.pos), 4 * (members.Length + 1)) then IndexOutOfRange else EndOfStream))
  {
    var n := FieldCount(count);
    ghost var q := stream.pos;
    ghost var ms0 := members[..];
    var previousPosition := 0;
    for i := 0 to n
      invariant FieldInfoInvariant(stream, members, q, ms0, i, previousPosition)
    {
      previousPosition :- FieldInfoIteration(stream, members, i, previousPosition, q, ms0);
    }
    r := Success(());
  }

  /** After i field-info iterations from q the stream is at the next entry and the members are those of the pass. */
  ghost predicate FieldInfoInvariant(stream: ByteStream, members: array<Member>, q: int, ms0: seq<Member>, i: nat, previousPosition: int)
    reads stream, members
  {
    && stream.pos == q + 4 * i && i <= members.Length && i <= |ms0| && Fits(stream.data, q, 4 * i)
    && members[..] == FieldInfoPass(ms0, FieldEntries(stream.data, q, i), i)
    && previousPosition == if i == 0 then 0 else I16At(stream.data, q + 4 * (i - 1) + 2)
  }

  /** One field-info entry: the stored bit size, then the record position. */
  method ReadFieldEntry(stream: ByteStream) returns (r: Result<FieldEntry>)
    modifies stream
    ensures Within(stream.data, old(stream.pos), 4) ==>
              r == Success(FieldEntry(I16At(stream.data, old(stream.pos)), I16At(stream.data, old(stream.pos) + 2)))
              && stream.pos == old(stream.pos) + 4
    ensures !Within(stream.data, old(stream.pos), 4) ==> r == Failure(EndOfStream)
  {
    var bitSize :- stream.ReadInt16();
    var recordPosition :- stream.ReadInt16();
    r := Success(FieldEntry(bitSize, recordPosition));
  }

  /**
   * Field-info iteration i: the entry is read before column i is looked up;
   * the answer is the entry's record position, the next iteration's previous one.
   */
  method FieldInfoIteration(stream: ByteStream, members: array<Member>, i: nat, previousPosition: int, ghost q: int, ghost ms0: seq<Member>)
    returns (r: Result<int>)
    requires FieldInfoInvariant(stream, members, q, ms0, i, previousPosition) && |ms0| == members.Length
    modifies stream, members
    ensures r.Success? ==> FieldInfoInvariant(stream, members, q, ms0, i + 1, r.value)
    ensures r.Failure? ==>
              || (r.error == IndexOutOfRange && i == members.Length && Within(stream.data, q, 4 * (members.Length + 1)))
              || (r.error == EndOfStream && !Within(stream.data, q, 4 * i + 4))
  {
    var entry :- ReadFieldEntry(stream);
    if i >= members.Length {
      return Failure(IndexOutOfRange);
    }
    ghost var es := FieldEntries(stream.data, q, i);
    ApplyFieldEntry(members, i, entry, previousPosition);
    FieldInfoPassSnoc(ms0, es, entry);
    assert FieldEntries(stream.data, q, i + 1) == es + [entry];
    assert members[..] == FieldInfoPass(ms0, es + [entry], i + 1);
    r := Success(entry.position);
  }

  /** One field-info iteration on the members array. */
  method ApplyFieldEntry(members: array<Member>, i: nat, entry: FieldEntry, previousPosition: int)
    requires i < members.Length
    modifies members
    ensures members[..] == FieldInfoStep(old(members[..]), i, entry.stored, entry.position, previousPosition)
  {
    members[i] := members[i].(bitSize := 32 - entry.stored);
    if i > 0 && members[i - 1].bitSize != 0 {
      members[i - 1] := members[i - 1].(cardinality := DivT(entry.position - previousPosition, members[i - 1].bitSize));
    }
  }

  /** The compression-specific part of one storage-info entry. */
  method ReadPayload(stream: ByteStream, m: Member) returns (r: Result<Placed>)
    modifies stream
    ensures r == Payload(m, stream.data, old(stream.pos))
    ensures r.Success? ==> stream.pos == r.value.next
  {
    if m.compression.Immediate? {
      stream.Skip(8);
      var memberFlags :- stream.ReadInt32();
      r := Success(Placed(m.(isSigned := memberFlags % 2 != 0), stream.pos));
    } else if m.compression.CommonData? {
      var bytes := stream.ReadBytes(4);
      stream.Skip(8);
      r := Success(Placed(m.(defaultValue := bytes), stream.pos));
    } else if m.compression.BitpackedPalletData? || m.compression.BitpackedPalletArrayData? {
      stream.Skip(8);
      if m.compression.BitpackedPalletArrayData? {
        var cardinality :- stream.ReadInt32();
        r := Success(Placed(m.(cardinality := cardinality), stream.pos));
      } else {
        stream.Skip(4);
        r := Success(Placed(m, stream.pos));
      }
    } else {
      stream.Skip(12);
      r := Success(Placed(m, stream.pos));
    }
  }

  /** One storage-info entry. */
  method ReadStorageEntry(stream: ByteStream, m: Member) returns (r: Result<Placed>)
    modifies stream
    ensures r == StorageEntry(m, stream.data, old(stream.pos))
    ensures r.Success? ==> stream.pos == r.value.next
  {
    var offsetInRecord :- stream.ReadInt16();
    var fieldSizeBits :- stream.ReadInt16();
    var additionalDataSize :- stream.ReadInt32();
    var code :- stream.ReadInt32();
    var m1 := m.(offsetInRecord := offsetInRecord,
                 bitSize := if m.bitSize == 0 then fieldSizeBits else m.bitSize,
                 compression := MemberCompression.FromCode(code));
    var placed :- ReadPayload(stream, m1);
    var m2 := placed.member;
    if m2.bitSize != 0 {
      m2 := m2.(cardinality := DivT(fieldSizeBits, m2.bitSize));
    }
    r := Success(Placed(m2, placed.next));
  }

  /** The storage-info pass: fieldStorageInfoSize / 24 entries, column by column. */
  method ReadStorageInfo(stream: ByteStream, members: array<Member>, storageInfoSize: int) returns (r: Result<()>)
    modifies stream, members
    ensures var o := StoragePass(old(members[..]), stream.data, old(stream.pos), StorageCount(storageInfoSize));
      && (o.Failure? ==> r == Failure(o.error))
      && (o.Success? ==> r == Success(()) && members[..] == o.value.members && stream.pos == o.value.next)
  {
    var n := StorageCount(storageInfoSize);
    ghost var q, ms0 := stream.pos, members[..];
    for i := 0 to n
      invariant StoragePass(ms0, stream.data, q, i) == Success(Pass(members[..], stream.pos))
    {
      var step := StorageIteration(stream, members, i, q, ms0);
      if step.Failure? {
        PassWithFails(StorageEntryOf(stream.data), ms0, q, i + 1, n);
        return step;
      }
    }
    r := Success(());
  }

  /** Storage-info iteration i: column i's entry is read and stored back, or the pass fails there. */
  method StorageIteration(stream: ByteStream, members: array<Member>, i: nat, ghost q: nat, ghost ms0: seq<Member>)
    returns (r: Result<()>)
    requires StoragePass(ms0, stream.data, q, i) == Success(Pass(members[..], stream.pos))
    modifies stream, members
    ensures var o := StoragePass(ms0, stream.data, q, i + 1);
      && (o.Failure? ==> r == Failure(o.error))
      && (o.Success? ==> r == Success(()) && o.value == Pass(members[..], stream.pos))
  {
    if i >= members.Length {
      return Failure(IndexOutOfRange);
    }
    ghost var ms1 := members[..];
    var placed := ReadStorageEntry(stream, members[i]);
    if placed.Failure? {
      return Failure(placed.error);
    }
    members[i] := placed.value.member;
    assert members[..] == ms1[i := placed.value.member];
    r := Success(());
  }

  /** The two column passes. */
  method ReadColumns(stream: ByteStream, members: array<Member>, totalFieldCount: int, storageInfoSize: int) returns (r: Result<()>)
    modifies stream, members
    ensures var o := ColumnPasses(old(members[..]), stream.data, old(stream.pos), totalFieldCount, storageInfoSize);
      && (o.Failure? ==> r == Failure(o.error))
      && (o.Success? ==> r == Success(()) && members[..] == o.value.members && stream.pos == o.value.next)
  {
    ghost var q, ms := stream.pos, members[..];
    r := ReadFieldInfo(stream, members, totalFieldCount);
    ghost var first := PassesUpTo(1, ms, stream.data, q, totalFieldCount, storageInfoSize);
    if r.Failure? {
      assert first == Failure(r.error);
      return;
    }
    assert first == Success(Pass(members[..], stream.pos));
    r := ReadStorageInfo(stream, members, storageInfoSize);
  }

  /** The sections after the header hd, which ends at q: one per section header from q, laid out for the file's flags and record size. */
  ghost predicate SectionsLoaded(data: seq<byte>, hd: MainHeader, q: nat, sections: seq<Wdc2Section.Section>)
    reads sections
  {
    && |sections| == hd.sectionCount
    && Fits(data, q, 36 * |sections|)
    && (forall k :: 0 <= k < |sections| ==> SectionLoaded(data, hd, q + 36 * k, sections[k]))
  }

  /** A section holding the section header at p, its segments laid out for the file's flags and record size. */
  ghost predicate SectionLoaded(data: seq<byte>, hd: MainHeader, p: int, section: Wdc2Section.Section)
    reads section
  {
    && Within(data, p, 36)
    && section.header == Wdc2Section.SectionHeaderAt(data, p)
    && section.Chain(hd.flags) == Wdc2Section.SectionLayout(section.header, hd.flags, hd.recordSize)
  }

  /** What the column passes leave: the members, the pallet block where the passes end and the common block right after it. */
  datatype Tables = Tables(members: seq<Member>, palletTable: Wdc2Section.Span, commonTable: Wdc2Section.Span)

  /** The tables after both column passes over the members ms, the passes starting at q. */
  function TablesAfter(data: seq<byte>, hd: MainHeader, q: nat, ms: seq<Member>): (r: Result<Tables>)
    ensures r.Success? ==>
              && |r.value.members| == |ms| && r.value.palletTable.length == hd.palletDataSize
              && r.value.commonTable == Wdc2Section.Span(r.value.palletTable.End(), hd.commonDataSize)
  {
    match ColumnPasses(ms, data, q, hd.totalFieldCount, hd.fieldStorageInfoSize)
    case Failure(e) => Failure(e)
    case Success(p) =>
      var pallet := Wdc2Section.Span(p.next, hd.palletDataSize);
      Success(Tables(p.members, pallet, Wdc2Section.Span(pallet.End(), hd.commonDataSize)))
  }

  /**
   * What ReadHeader reads after the main header, which ends at q: the section
   * headers (a negative count overflows the section array's size), then the
   * column passes and the two blocks right after them.
   */
  function BodyAt(data: seq<byte>, hd: MainHeader, q: nat, ms: seq<Member>): (r: Result<Tables>)
    ensures hd.sectionCount < 0 ==> r == Failure(Overflow)
    ensures hd.sectionCount >= 0 && !Fits(data, q, 36 * hd.sectionCount) ==> r == Failure(EndOfStream)
    ensures r.Success? ==> hd.sectionCount >= 0 && Fits(data, q, 36 * hd.sectionCount)
                           && TablesAfter(data, hd, q + 36 * hd.sectionCount, ms) == r
  {
    if hd.sectionCount < 0 then Failure(Overflow)
    else if !Fits(data, q, 36 * hd.sectionCount) then Failure(EndOfStream)
    else TablesAfter(data, hd, q + 36 * hd.sectionCount, ms)
  }

  /** ReadHeader's answer for the data at p: false for no records, true when every read succeeds. */
  function FileAt(data: seq<byte>, p: nat, ms: seq<Member>): (r: Result<bool>)
    ensures r == Success(false) <==> HeaderAt(data, p) == Success(None)
    ensures r == Success(true) <==> HeaderAt(data, p).Success? && HeaderAt(data, p).value.Some?
                                    && BodyAt(data, HeaderAt(data, p).value.value, p + HEADER_SIZE, ms).Success?
    ensures !Within(data, p, 4) ==> r == Failure(EndOfStream)
  {
    match HeaderAt(data, p)
    case Failure(e) => Failure(e)
    case Success(None) => Success(false)
    case Success(Some(hd)) =>
      match BodyAt(data, hd, p + HEADER_SIZE, ms)
      case Failure(e) => Failure(e)
      case Success(_) => Success(true)
  }

  /**
   * The body after a header with records is read when the section headers,
   * the field-info entries and the storage-info entries are all in the data
   * and the column counts fit the members.
   */
  lemma {:induction false} BodyReads(data: seq<byte>, hd: MainHeader, q: nat, ms: seq<Member>)
    requires hd.sectionCount >= 0
    requires FieldCount(hd.totalFieldCount) <= |ms| && StorageCount(hd.fieldStorageInfoSize) <= |ms|
    requires q + 36 * hd.sectionCount + 4 * FieldCount(hd.totalFieldCount) + 24 * StorageCount(hd.fieldStorageInfoSize) <= |data|
    ensures BodyAt(data, hd, q, ms).Success?
  {
    var r := q + 36 * hd.sectionCount;
    var n := FieldCount(hd.totalFieldCount);
    assert Fits(data, q, 36 * hd.sectionCount);
    assert Fits(data, r, 4 * n);
    var first := PassesUpTo(1, ms, data, r, hd.totalFieldCount, hd.fieldStorageInfoSize);
    assert first == Success(Pass(FieldInfoPass(ms, FieldEntries(data, r, n), n), r + 4 * n));
    StoragePassWhole(first.value.members, data, r + 4 * n, StorageCount(hd.fieldStorageInfoSize));
    assert ColumnPasses(ms, data, r, hd.totalFieldCount, hd.fieldStorageInfoSize).Success?;
  }

  /** A well-formed file with records is read completely: ReadHeader answers true. */
  lemma {:induction false} WellFormedFileReads(data: seq<byte>, p: nat, ms: seq<Member>, hd: MainHeader)
    requires HeaderAt(data, p) == Success(Some(hd)) && hd.sectionCount >= 0
    requires FieldCount(hd.totalFieldCount) <= |ms| && StorageCount(hd.fieldStorageInfoSize) <= |ms|
    requires p + HEADER_SIZE + 36 * hd.sectionCount + 4 * FieldCount(hd.totalFieldCount)
             + 24 * StorageCount(hd.fieldStorageInfoSize) <= |data|
    ensures FileAt(data, p, ms) == Success(true)
  {
    BodyReads(data, hd, p + HEADER_SIZE, ms);
  }

  /** The column passes from q, then the pallet and common blocks where they end. */
  method ReadTables(stream: ByteStream, members: array<Member>, hd: MainHeader, ghost q: nat, ghost ms: seq<Member>)
    returns (r: Result<()>, palletTable: Wdc2Section.Span, commonTable: Wdc2Section.Span)
    requires stream.pos == q && members[..] == ms
    modifies members, stream
    ensures var t := TablesAfter(stream.data, hd, q, ms);
      && (t.Failure? ==> r == Failure(t.error))
      && (t.Success? ==> r == Success(()) && t.value == Tables(members[..], palletTable, commonTable))
  {
    palletTable, commonTable := Wdc2Section.Span(0, 0), Wdc2Section.Span(0, 0);
    r := ReadColumns(stream, members, hd.totalFieldCount, hd.fieldStorageInfoSize);
    if r.Success? {
      palletTable := Wdc2Section.Span(stream.pos, hd.palletDataSize);
      commonTable := Wdc2Section.Span(palletTable.End(), hd.commonDataSize);
    }
  }

  /** Every section places its segments for the file's flags and record size. */
  method PopulateSections(sections: seq<Wdc2Section.Section>, flags: int, recordSize: int)
    requires forall a, b :: 0 <= a < b < |sections| ==> sections[a] != sections[b]
    modifies sections
    ensures forall k :: 0 <= k < |sections| ==>
              sections[k].header == old(sections[k].header)
              && sections[k].Chain(flags) == Wdc2Section.SectionLayout(sections[k].header, flags, recordSize)
  {
    for i := 0 to |sections|
      invariant forall k :: 0 <= k < |sections| ==> sections[k].header == old(sections[k].header)
      invariant forall k :: 0 <= k < i ==>
                  sections[k].Chain(flags) == Wdc2Section.SectionLayout(sections[k].header, flags, recordSize)
    {
      sections[i].PopulateSegmentOffsets(flags, recordSize);
    }
  }

  /** The sections, holding the headers from q on, once their segments are placed. */
  method PlaceSegments(sections: seq<Wdc2Section.Section>, ghost data: seq<byte>, hd: MainHeader, ghost q: nat)
    requires |sections| == hd.sectionCount && Fits(data, q, 36 * |sections|)
    requires forall k :: 0 <= k < |sections| ==> sections[k].header == Wdc2Section.SectionHeaderAt(data, q + 36 * k)
    requires forall a, b :: 0 <= a < b < |sections| ==> sections[a] != sections[b]
    modifies sections
    ensures SectionsLoaded(data, hd, q, sections)
  {
    PopulateSections(sections, hd.flags, hd.recordSize);
    forall k | 0 <= k < |sections|
      ensures Within(data, q + 36 * k, 36)
    {
      assert 36 * k + 36 <= 36 * |sections|;
    }
  }

  /** A pallet read's location: the member's offset in the pallet block, and for an array its cardinality. */
  datatype PalletRead = PalletValue(offset: int) | PalletArray(offset: int, count: int)

  class Reader {
    const stream: ByteStream
    /** The members of the record type, shared with the sections' code generators. */
    const members: array<Member>
    var header: Option<MainHeader>
    /** The section array: None until ReadHeader allocates it, as the source's array stays null. */
    var sections: Option<seq<Wdc2Section.Section>>
    var palletTable: Wdc2Section.Span
    var commonTable: Wdc2Section.Span
    var currentlyParsedSegment: int

    constructor (stream: ByteStream, members: array<Member>)
      ensures this.stream == stream && this.members == members
      ensures header == None && sections == None && currentlyParsedSegment == 0
      ensures palletTable == Wdc2Section.Span(0, 0) && commonTable == Wdc2Section.Span(0, 0)
    {
      this.stream := stream;
      this.members := members;
      header := None;
      sections := None;
      palletTable, commonTable := Wdc2Section.Span(0, 0), Wdc2Section.Span(0, 0);
      currentlyParsedSegment := 0;
    }

    /**
     * ReadHeader: false for a file without records; otherwise the header, the
     * section headers, the two column passes, the pallet block at the
     * position the passes end at and the common block after it, and every
     * section's layout.
     */
    method ReadHeader() returns (r: Result<bool>)
      modifies this`header, this`sections, this`palletTable, this`commonTable, members, stream
      ensures r == FileAt(stream.data, old(stream.pos), old(members[..]))
      ensures r == Success(false) ==>
                && sections == old(sections) && header == old(header)
                && members[..] == old(members[..])
                && palletTable == old(palletTable) && commonTable == old(commonTable)
                && stream.pos == old(stream.pos) + 4
      ensures r == Success(true) ==>
                && HeaderAt(stream.data, old(stream.pos)).Success?
                && header == HeaderAt(stream.data, old(stream.pos)).value && header.Some?
                && sections.Some?
                && SectionsLoaded(stream.data, header.value, old(stream.pos) + HEADER_SIZE, sections.value)
                && TablesAfter(stream.data, header.value, old(stream.pos) + HEADER_SIZE + 36 * |sections.value|, old(members[..]))
                   == Success(Tables(members[..], palletTable, commonTable))
    {
      var h :- ReadMainHeader(stream);
      if h.None? {
        return Success(false);
      }
      header := h;
      var body, loaded := ReadBody(h.value, old(stream.pos) + HEADER_SIZE, old(members[..]));
      if body.Failure? {
        return Failure(body.error);
      }
      r := Success(true);
    }

    /**
     * Everything ReadHeader reads after the header, which ends at q: a
     * negative section count overflows the section array's size.
     */
    method ReadBody(hd: MainHeader, ghost q: nat, ghost ms: seq<Member>) returns (r: Result<()>, ghost loaded: seq<Member>)
      requires stream.pos == q && members[..] == ms
      modifies this`sections, this`palletTable, this`commonTable, members, stream
      ensures var b := BodyAt(stream.data, hd, q, ms);
        && (b.Failure? ==> r == Failure(b.error))
        && (b.Success? ==> r == Success(()) && b.value == Tables(loaded, palletTable, commonTable))
      ensures r.Success? ==> sections.Some? && SectionsLoaded(stream.data, hd, q, sections.value)
      ensures r.Success? ==> members[..] == loaded
    {
      loaded := ms;
      if hd.sectionCount < 0 {
        return Failure(Overflow), loaded;
      }
      var ok := LoadSections(hd.sectionCount);
      if ok.Failure? {
        assert BodyAt(stream.data, hd, q, ms) == Failure(EndOfStream);
        return Failure(ok.error), loaded;
      }
      assert BodyAt(stream.data, hd, q, ms) == TablesAfter(stream.data, hd, q + 36 * hd.sectionCount, ms);
      var tables, pallet, common := ReadTables(stream, members, hd, q + 36 * hd.sectionCount, ms);
      if tables.Failure? {
        return Failure(tables.error), loaded;
      }
      loaded := members[..];
      PlaceTables(hd, q, pallet, common);
      r := Success(());
    }

    /** The sections place their segments; the pallet and common blocks are stored. */
    method PlaceTables(hd: MainHeader, ghost q: nat, pallet: Wdc2Section.Span, common: Wdc2Section.Span)
      requires sections.Some? && |sections.value| == hd.sectionCount && Fits(stream.data, q, 36 * |sections.value|)
      requires forall k :: 0 <= k < |sections.value| ==>
                 sections.value[k].header == Wdc2Section.SectionHeaderAt(stream.data, q + 36 * k)
      requires forall a, b :: 0 <= a < b < |sections.value| ==> sections.value[a] != sections.value[b]
      modifies sections.value, this`palletTable, this`commonTable
      ensures sections.Some? && SectionsLoaded(stream.data, hd, q, sections.value)
      ensures palletTable == pallet && commonTable == common
    {
      palletTable, commonTable := pallet, common;
      PlaceSegments(sections.value, stream.data, hd, q);
    }

    /** The section headers, stored in the reader. */
    method LoadSections(count: nat) returns (r: Result<()>)
      modifies this`sections, stream
      ensures r.Success? <==> Fits(stream.data, old(stream.pos), 36 * count)
      ensures r.Failure? ==> r == Failure(EndOfStream)
      ensures r.Success? ==>
                && sections.Some? && |sections.value| == count && Fits(stream.data, old(stream.pos), 36 * count)
                && stream.pos == old(stream.pos) + 36 * count
                && (forall k :: 0 <= k < count ==>
                      fresh(sections.value[k])
                      && sections.value[k].header == Wdc2Section.SectionHeaderAt(stream.data, old(stream.pos) + 36 * k))
                && (forall a, b :: 0 <= a < b < count ==> sections.value[a] != sections.value[b])
    {
      var loaded :- ReadSections(stream, count);
      sections := Some(loaded);
      r := Success(());
    }

    /**
     * ReadRecords: the records of section 0, then of section 1, and so on;
     * each section's own reading is a parameter. Before ReadHeader has
     * allocated the section array, its length is a null dereference.
     */
    method ReadRecords<T>(sectionRecords: seq<seq<T>>) returns (r: Result<seq<T>>)
      requires sections.Some? ==> |sectionRecords| == |sections.value|
      modifies this`currentlyParsedSegment
      ensures sections.None? <==> r == Failure(NullReference)
      ensures sections.Some? ==> r == Success(Concat(sectionRecords)) && currentlyParsedSegment == |sections.value|
    {
      if sections.None? {
        return Failure(NullReference);
      }
      var all := sections.value;
      var records := [];
      currentlyParsedSegment := 0;
      while currentlyParsedSegment < |all|
        invariant 0 <= currentlyParsedSegment <= |all|
        invariant records == Concat(sectionRecords[..currentlyParsedSegment])
        decreases |all| - currentlyParsedSegment
      {
        assert sectionRecords[..currentlyParsedSegment + 1][..currentlyParsedSegment] == sectionRecords[..currentlyParsedSegment];
        records := records + sectionRecords[currentlyParsedSegment];
        currentlyParsedSegment := currentlyParsedSegment + 1;
      }
      assert sectionRecords[..currentlyParsedSegment] == sectionRecords;
      r := Success(records);
    }

    /** ReadPalletMember: the member's offset in the pallet block. */
    function ReadPalletMember(memberIndex: int): (r: Result<PalletRead>)
      reads this, members
      ensures !(0 <= memberIndex < members.Length) ==> r == Failure(IndexOutOfRange)
      ensures 0 <= memberIndex < members.Length ==> r == Success(PalletValue(members[memberIndex].offsetInRecord))
    {
      if 0 <= memberIndex < members.Length then Success(PalletValue(members[memberIndex].offsetInRecord))
      else Failure(IndexOutOfRange)
    }

    /** ReadPalletArrayMember: the member's offset in the pallet block and its cardinality. */
    function ReadPalletArrayMember(memberIndex: int): (r: Result<PalletRead>)
      reads this, members
      ensures !(0 <= memberIndex < members.Length) ==> r == Failure(IndexOutOfRange)
      ensures 0 <= memberIndex < members.Length ==>
                r == Success(PalletArray(members[memberIndex].offsetInRecord, members[memberIndex].cardinality))
    {
      if 0 <= memberIndex < members.Length
      then Success(PalletArray(members[memberIndex].offsetInRecord, members[memberIndex].cardinality))
      else Failure(IndexOutOfRange)
    }

    /**
     * FindStringByOffset: forwarded to the section being parsed; a null
     * dereference before the section array is allocated.
     */
    function FindStringByOffset(tableOffset: int): (r: Result<int>)
      reads this, if sections.Some? then sections.value else []
      ensures sections.None? ==> r == Failure(NullReference)
      ensures sections.Some? && !(0 <= currentlyParsedSegment < |sections.value|) ==> r == Failure(IndexOutOfRange)
      ensures sections.Some? && 0 <= currentlyParsedSegment < |sections.value| ==>
                r == Success(Wdc2Section.RelativeOffset(tableOffset, sections.value[currentlyParsedSegment].stringTable.start))
    {
      match sections
      case None => Failure(NullReference)
      case Some(all) =>
        if 0 <= currentlyParsedSegment < |all| then Success(all[currentlyParsedSegment].FindStringByOffset(tableOffset))
        else Failure(IndexOutOfRange)
    }
  }

  /** WDC2 does not read common-data members. */
  function ReadCommonMember(memberIndex: int): (r: Result<int>)
    ensures r == Failure(NotImplemented)
  {
    Failure(NotImplemented)
  }

  /** The per-record read of the base reader is never used: records come from the sections. */
  function ReadRecordsAt(recordIndex: int, recordOffset: int, recordSize: int): (r: Result<seq<int>>)
    ensures r == Failure(Unreachable)
  {
    Failure(Unreachable)
  }
}

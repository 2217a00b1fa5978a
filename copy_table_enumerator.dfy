/**
 * CopyTableEnumerator: decorates the per-row enumerator so that each base
 * record is followed by one clone per copy key listed for its key in the copy
 * table, in copy-table order. A clone equals its base except for the key.
 */
module CopyTableEnumerator {
  import opened Wrappers

  /** A decoded record: its key field and the rest of its fields. */
  datatype Record = Record(key: int, fields: seq<int>)

  /** The copy table: base key -> the keys of its copies, in copy-table order. */
  type CopyTable = map<int, seq<int>>

  function CopyKeys(table: CopyTable, key: int): seq<int>
  {
    if key in table then table[key] else []
  }

  /** Parser.Clone followed by Parser.SetRecordKey, once per key. */
  function Clones(base: Record, keys: seq<int>): (r: seq<Record>)
    ensures |r| == |keys|
  {
    if keys == [] then [] else [base.(key := keys[0])] + Clones(base, keys[1..])
  }

  /** Clone i is the base record with copy key i. */
  lemma {:induction false} ClonesAt(base: Record, keys: seq<int>)
    ensures forall i :: 0 <= i < |keys| ==> Clones(base, keys)[i] == base.(key := keys[i])
  {
    if keys != [] {
      ClonesAt(base, keys[1..]);
    }
  }

  /** A base record followed by its clones. */
  function Group(base: Record, table: CopyTable): (r: seq<Record>)
  {
    [base] + Clones(base, CopyKeys(table, base.key))
  }

  /** Each base record, then its clones, then the next base record. */
  function Expand(source: seq<Record>, table: CopyTable): seq<Record>
  {
    if source == [] then []
    else Group(source[0], table) + Expand(source[1..], table)
  }

  /** What the decorated sequence is: the base sequence itself when the file has no copy table. */
  function Output(source: seq<Record>, table: Option<CopyTable>): seq<Record>
  {
    match table
    case None => source
    case Some(t) => Expand(source, t)
  }

  /** The number of copies the table adds to `source`. */
  function CopyCount(source: seq<Record>, table: CopyTable): nat
  {
    if source == [] then 0 else |CopyKeys(table, source[0].key)| + CopyCount(source[1..], table)
  }

  /** Where base record i lands in the expanded sequence: after each earlier base record and its copies. */
  function BasePosition(source: seq<Record>, table: CopyTable, i: nat): nat
    requires i <= |source|
  {
    if i == 0 then 0 else BasePosition(source, table, i - 1) + 1 + |CopyKeys(table, source[i - 1].key)|
  }

  lemma {:induction false} ExpandLength(source: seq<Record>, table: CopyTable)
    ensures |Expand(source, table)| == |source| + CopyCount(source, table)
  {
    if source != [] {
      ExpandLength(source[1..], table);
    }
  }

  /** Expanding a concatenation expands each part. */
  lemma {:induction false} ExpandAppend(a: seq<Record>, b: seq<Record>, table: CopyTable)
    ensures Expand(a + b, table) == Expand(a, table) + Expand(b, table)
  {
    if a == [] {
      assert [] + b == b;
    } else {
      assert (a + b)[0] == a[0];
      assert (a + b)[1..] == a[1..] + b;
      ExpandAppend(a[1..], b, table);
      var head := Group(a[0], table);
      assert Expand(a + b, table) == head + (Expand(a[1..], table) + Expand(b, table));
    }
  }

  /** The records before base record i expand to exactly BasePosition(i) records. */
  lemma {:induction false} ExpandPrefixLength(source: seq<Record>, table: CopyTable, i: nat)
    requires i <= |source|
    ensures |Expand(source[..i], table)| == BasePosition(source, table, i)
  {
    if i > 0 {
      ExpandPrefixLength(source, table, i - 1);
      assert source[..i] == source[..i - 1] + [source[i - 1]];
      ExpandSnoc(source[..i - 1], source[i - 1], table);
    }
  }

  /**
   * The ordering contract: base record i sits at BasePosition(i), and its j-th
   * copy j + 1 places after it, equal to the base with the j-th copy key.
   */
  lemma {:induction false} ExpandAt(source: seq<Record>, table: CopyTable, i: nat, j: int)
    requires i < |source| && -1 <= j < |CopyKeys(table, source[i].key)|
    ensures BasePosition(source, table, i) + 1 + j < |Expand(source, table)|
    ensures Expand(source, table)[BasePosition(source, table, i) + 1 + j]
            == if j < 0 then source[i] else source[i].(key := CopyKeys(table, source[i].key)[j])
  {
    var before, group, after := Expand(source[..i], table), Group(source[i], table), Expand(source[i + 1..], table);
    assert source == source[..i] + source[i..];
    ExpandAppend(source[..i], source[i..], table);
    ExpandFrom(source, table, i);
    ExpandPrefixLength(source, table, i);
    assert Expand(source, table) == before + (group + after);
    ClonesAt(source[i], CopyKeys(table, source[i].key));
    assert (before + (group + after))[|before| + 1 + j] == group[1 + j];
  }

  /** A sequence that starts with x: its head and its tail. */
  lemma ConsAppend<T>(x: T, s: seq<T>, rest: seq<T>)
    ensures ([x] + s) + rest == [x] + (s + rest)
    ensures (([x] + s) + rest)[0] == x && (([x] + s) + rest)[1..] == s + rest
  {
  }

  /** Expanding a suffix: its first base record, that record's clones, then the rest. */
  lemma ExpandFrom(source: seq<Record>, table: CopyTable, k: nat)
    requires k < |source|
    ensures Expand(source[k..], table)
            == Group(source[k], table) + Expand(source[k + 1..], table)
  {
    assert source[k..][1..] == source[k + 1..];
  }

  /** Every record of the expansion has the fields of some base record, in a base or a clone. */
  lemma {:induction false} ExpandKeepsFields(source: seq<Record>, table: CopyTable, k: nat)
    requires k < |Expand(source, table)|
    ensures exists i :: 0 <= i < |source| && Expand(source, table)[k].fields == source[i].fields
  {
    var head := Group(source[0], table);
    assert Expand(source, table) == head + Expand(source[1..], table);
    if k < |head| {
      ClonesAt(source[0], CopyKeys(table, source[0].key));
      assert Expand(source, table)[k].fields == source[0].fields;
    } else {
      ExpandKeepsFields(source[1..], table, k - |head|);
      var i :| 0 <= i < |source[1..]| && Expand(source[1..], table)[k - |head|].fields == source[1..][i].fields;
      assert source[1..][i] == source[i + 1];
    }
  }

  /** Without copies for any key, the expansion is the base sequence. */
  lemma {:induction false} ExpandWithoutCopies(source: seq<Record>, table: CopyTable)
    requires forall i :: 0 <= i < |source| ==> CopyKeys(table, source[i].key) == []
    ensures Expand(source, table) == source
  {
    if source != [] {
      ExpandWithoutCopies(source[1..], table);
    }
  }

  /**
   * The enumerator's state machine. The decorated (base) enumerator is the
   * sequence `source` with a cursor `basePos`; it yields default (None) when
   * exhausted, which ends this sequence too.
   */
  class Enumerator {
    const source: seq<Record>
    /** None when the file declares no copy table. */
    const table: Option<CopyTable>
    var basePos: nat
    /** _currentInstance; None is default(TValue). */
    var current: Option<Record>
    /** _currentCopyIndex; None is null, Some(keys) the copy keys not yet moved over. */
    var copyCursor: Option<seq<int>>

    /** Outside a call, a copy cursor exists exactly when a base record is held. */
    ghost predicate Valid()
      reads this
    {
      basePos <= |source| && (current.Some? <==> copyCursor.Some?)
    }

    /** The rest of the output sequence, from the current state. */
    ghost function Pending(): seq<Record>
      reads this
      requires basePos <= |source|
    {
      match table
      case None => source[basePos..]
      case Some(t) =>
        (if current.Some? && copyCursor.Some? then Clones(current.value, copyCursor.value) else [])
        + Expand(source[basePos..], t)
    }

    constructor (source: seq<Record>, table: Option<CopyTable>)
      ensures this.source == source && this.table == table
      ensures basePos == 0 && current.None? && copyCursor.None?
      ensures Valid() && Pending() == Output(source, table)
    {
      this.source := source;
      this.table := table;
      basePos := 0;
      current := None;
      copyCursor := None;
    }

    /** base.ObtainCurrent(). */
    method BaseObtainCurrent() returns (r: Option<Record>)
      modifies this`basePos
      ensures old(basePos) < |source| ==> r == Some(source[old(basePos)]) && basePos == old(basePos) + 1
      ensures old(basePos) >= |source| ==> r == None && basePos == old(basePos)
    {
      if basePos < |source| {
        r := Some(source[basePos]);
        basePos := basePos + 1;
      } else {
        r := None;
      }
    }

    /**
     * The reload path of InstanceFactory: take the next base record and set up
     * its copy cursor (empty when its key has no copies).
     */
    method LoadBase() returns (r: Option<Record>)
      requires table.Some? && basePos <= |source| && copyCursor.None?
      modifies this`basePos, this`current, this`copyCursor
      ensures Valid() && current == r
      ensures old(Pending()) == [] ==> r == None && Pending() == []
      ensures old(Pending()) != [] ==> r == Some(old(Pending())[0]) && Pending() == old(Pending())[1..]
    {
      ghost var t, before := table.value, Pending();
      ghost var p0 := basePos;
      current := BaseObtainCurrent();
      if current.Some? {
        ExpandFrom(source, t, p0);
        var keys := CopyKeys(table.value, current.value.key);
        copyCursor := Some(keys);
        ConsAppend(current.value, Clones(current.value, keys), Expand(source[basePos..], t));
      } else {
        assert source[p0..] == [];
      }
      r := current;
    }

    /** The copy path of InstanceFactory: the held record cloned with the next copy key. */
    method NextCopy() returns (r: Option<Record>)
      requires Valid() && table.Some? && copyCursor.Some? && copyCursor.value != []
      modifies this`copyCursor
      ensures Valid()
      ensures old(Pending()) != [] && r == Some(old(Pending())[0]) && Pending() == old(Pending())[1..]
    {
      var keys := copyCursor.value;
      ghost var rest := Expand(source[basePos..], table.value);
      assert old(Pending()) == Clones(current.value, keys) + rest;
      assert Clones(current.value, keys) == [current.value.(key := keys[0])] + Clones(current.value, keys[1..]);
      r := Some(current.value.(key := keys[0]));
      copyCursor := Some(keys[1..]);
      assert Pending() == Clones(current.value, keys[1..]) + rest;
    }

    /**
     * InstanceFactory as intended: a base record whose key has no copies gets
     * an empty copy cursor, so the next call moves on to the next base record.
     */
    method InstanceFactory(forceReloadBase: bool) returns (r: Option<Record>)
      requires table.Some?
      requires if forceReloadBase then basePos <= |source| && copyCursor.None? else Valid()
      modifies this
      ensures Valid()
      ensures old(Pending()) == [] ==> r == None && Pending() == []
      ensures old(Pending()) != [] ==> r == Some(old(Pending())[0]) && Pending() == old(Pending())[1..]
      ensures forceReloadBase ==> current == r
      decreases if forceReloadBase then 0 else 1
    {
      if forceReloadBase || current.None? {
        r := LoadBase();
      } else if copyCursor.value != [] {
        r := NextCopy();
      } else {
        copyCursor := None;
        current := InstanceFactory(true);
        r := current;
      }
    }

    /** ObtainCurrent: the next element of the decorated sequence, or None at its end. */
    method ObtainCurrent() returns (r: Option<Record>)
      requires Valid()
      modifies this
      ensures Valid()
      ensures old(Pending()) == [] ==> r == None && Pending() == []
      ensures old(Pending()) != [] ==> r == Some(old(Pending())[0]) && Pending() == old(Pending())[1..]
    {
      if table.None? {
        r := BaseObtainCurrent();
        if old(basePos) < |source| {
          assert source[old(basePos)..] == [source[old(basePos)]] + source[basePos..];
        }
      } else {
        r := InstanceFactory(false);
      }
    }

    /** Reset clears the held base record and the copy cursor and rewinds the base enumerator. */
    method Reset()
      modifies this
      ensures Valid() && basePos == 0 && current.None? && copyCursor.None?
      ensures Pending() == Output(source, table)
    {
      current := None;
      copyCursor := None;
      basePos := 0;
    }

    /**
     * InstanceFactory as written: when the base key has no entry in the copy
     * table, TryGetValue fails and the copy cursor stays null, so every later
     * call takes the same path and returns the same base record again: the
     * enumeration never moves on.
     */
    method InstanceFactoryAsWritten(forceReloadBase: bool) returns (r: Option<Record>)
      requires table.Some? && basePos <= |source|
      requires forceReloadBase ==> copyCursor.None?
      modifies this
      ensures basePos <= |source|
      ensures old(copyCursor).None? && !forceReloadBase && old(current).Some? ==>
                r == old(current) && current == old(current) && basePos == old(basePos)
                && copyCursor == (if old(current).value.key in table.value
                                  then Some(table.value[old(current).value.key]) else None)
      ensures old(copyCursor).None? && (forceReloadBase || old(current).None?) && old(basePos) < |source| ==>
                r == Some(source[old(basePos)]) && current == r && basePos == old(basePos) + 1
                && copyCursor == (if source[old(basePos)].key in table.value
                                  then Some(table.value[source[old(basePos)].key]) else None)
      decreases if forceReloadBase then 0 else 1
    {
      var t := table.value;
      if forceReloadBase || current.None? {
        current := BaseObtainCurrent();
        if current.None? {
          return None;
        }
      }
      if copyCursor.None? {
        if current.value.key in t {
          copyCursor := Some(t[current.value.key]);
        }
        r := current;
      } else if copyCursor.value != [] {
        var keys := copyCursor.value;
        r := Some(current.value.(key := keys[0]));
        copyCursor := Some(keys[1..]);
      } else {
        copyCursor := None;
        current := InstanceFactoryAsWritten(true);
        r := current;
      }
    }
  }

  /** As written, a base record without copies is returned again instead of the next base record. */
  method AsWrittenRepeatsBase() returns (first: Option<Record>, second: Option<Record>)
    ensures first == Some(Record(1, [])) && second == Some(Record(1, []))
  {
    var e := new Enumerator([Record(1, []), Record(2, [])], Some(map[]));
    first := e.InstanceFactoryAsWritten(false);
    second := e.InstanceFactoryAsWritten(false);
  }

  /** As intended, the same input yields the second base record on the second call. */
  method IntendedMovesOn() returns (first: Option<Record>, second: Option<Record>)
    ensures first == Some(Record(1, [])) && second == Some(Record(2, []))
  {
    var rows := [Record(1, []), Record(2, [])];
    var e := new Enumerator(rows, Some(map[]));
    assert e.Pending() == rows by {
      assert CopyKeys(map[], 1) == [] && CopyKeys(map[], 2) == [];
      ExpandWithoutCopies(rows, map[]);
    }
    first := e.ObtainCurrent();
    second := e.ObtainCurrent();
  }

  /**
   * Last as written: base.Last(), with the last copy key applied only when the
   * lookup of the held record's key FAILS, in which case copyKeys is null and
   * LINQ's Last throws ArgumentNullException on it.
   */
  function LastAsWritten(source: seq<Record>, table: Option<CopyTable>, currentKey: int): (r: Result<Option<Record>>)
    ensures table.Some? && currentKey !in table.value ==> r == Failure(NullReference)
    ensures (table.None? || currentKey in table.value) ==>
              r == Success(if source == [] then None else Some(source[|source| - 1]))
  {
    var lastSource := if source == [] then None else Some(source[|source| - 1]);
    if table.Some? && currentKey !in table.value then Failure(NullReference)
    else Success(lastSource)
  }

  /** Last as intended: the last base record, carrying its last copy key when it has copies. */
  function Last(source: seq<Record>, table: Option<CopyTable>): (r: Option<Record>)
    ensures r == (if Output(source, table) == [] then None
                  else Some(Output(source, table)[|Output(source, table)| - 1]))
  {
    if source == [] then None
    else
      var b := source[|source| - 1];
      LastOfOutput(source, table);
      match table
      case None => Some(b)
      case Some(t) =>
        var keys := CopyKeys(t, b.key);
        if keys == [] then Some(b) else Some(b.(key := keys[|keys| - 1]))
  }

  lemma LastOfOutput(source: seq<Record>, table: Option<CopyTable>)
    requires source != []
    ensures var b := source[|source| - 1];
            var o := Output(source, table);
            o != [] &&
            o[|o| - 1] == match table
              case None => b
              case Some(t) => var keys := CopyKeys(t, b.key); if keys == [] then b else b.(key := keys[|keys| - 1])
  {
    if table.Some? {
      ExpandSnoc(source[..|source| - 1], source[|source| - 1], table.value);
      ClonesAt(source[|source| - 1], CopyKeys(table.value, source[|source| - 1].key));
      assert source[..|source| - 1] + [source[|source| - 1]] == source;
    }
  }

  lemma ExpandSnoc(s: seq<Record>, b: Record, t: CopyTable)
    ensures Expand(s + [b], t) == Expand(s, t) + Group(b, t)
  {
    ExpandAppend(s, [b], t);
    assert [b][1..] == [];
    assert Expand([b], t) == Group(b, t) + [];
  }

  /** One base record with two copies: Last as written misses the copies. */
  lemma LastAsWrittenIgnoresCopies()
    ensures var base := Record(5, [7]);
            var t := map[5 := [105, 205]];
            && LastAsWritten([base], Some(t), 5) == Success(Some(base))
            && Last([base], Some(t)) == Some(base.(key := 205))
  {
  }
}

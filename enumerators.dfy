/**
 * The enumerator pipelines a storage file returns: a base enumerator over the
 * stored rows, decorated by an index-table overlay and a copy-table overlay.
 * RecordsEnumerator, OffsetMapEnumerator and the index-table decorator are not
 * part of this model beyond what they hand on: the base enumerators yield the
 * stored rows in file order, the index-table overlay replaces the key of row i
 * with entry i of the index table.
 */
module Enumerators {
  import opened Wrappers
  import opened CopyTableEnumerator

  datatype Pipeline =
    /** RecordsEnumerator: rows at fixed strides. */
    | RecordsBase
    /** OffsetMapEnumerator: rows located through the offset map. */
    | OffsetMapBase
    | IndexTableOverlay(inner: Pipeline)
    | CopyTableOverlay(inner: Pipeline)

  function WithIndexTable(p: Pipeline): Pipeline
  {
    IndexTableOverlay(p)
  }

  /** The copy-table decorator returns itself from WithCopyTable; others wrap themselves in one. */
  function WithCopyTable(p: Pipeline): (q: Pipeline)
    ensures q.CopyTableOverlay?
    ensures p.CopyTableOverlay? ==> q == p
  {
    if p.CopyTableOverlay? then p else CopyTableOverlay(p)
  }

  lemma WithCopyTableIdempotent(p: Pipeline)
    ensures WithCopyTable(WithCopyTable(p)) == WithCopyTable(p)
  {
  }

  /** Row i takes key indexTable[i] when the index table has that entry. */
  function OverrideKeys(rows: seq<Record>, indexTable: seq<int>): (r: seq<Record>)
    ensures |r| == |rows|
    ensures forall i :: 0 <= i < |rows| ==>
              r[i] == if i < |indexTable| then rows[i].(key := indexTable[i]) else rows[i]
  {
    seq(|rows|, i requires 0 <= i < |rows| => if i < |indexTable| then rows[i].(key := indexTable[i]) else rows[i])
  }

  /** What a pipeline yields from the stored rows, the index table and the copy table. */
  function Produce(p: Pipeline, rows: seq<Record>, indexTable: seq<int>, copies: Option<CopyTable>): seq<Record>
  {
    match p
    case RecordsBase => rows
    case OffsetMapBase => rows
    case IndexTableOverlay(inner) => OverrideKeys(Produce(inner, rows, indexTable, copies), indexTable)
    case CopyTableOverlay(inner) => Output(Produce(inner, rows, indexTable, copies), copies)
  }
}

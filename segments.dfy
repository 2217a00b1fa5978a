/**
 * Segments: contiguous byte ranges of a file, each with a role, and chains of
 * them in file order. A chain is what the parsers build as a linked list
 * (Head, Next, tail); here it is a sequence. A segment appended to a chain
 * starts where its predecessor ends.
 */
module Segments {
  import opened Wrappers

  datatype SegmentId =
    | Header | FieldInfo | Records | StringBlock | OffsetMap
    | RelationshipTable | IndexTable | CopyTable | PalletData | CommonData

  /** The kind of handler attached to a segment; it reads the segment's content. */
  datatype Handler =
    | NoHandler | HeaderHandler | FieldInfoHandler | StringBlockHandler
    | OffsetMapHandler | IndexTableHandler | CopyTableHandler

  datatype Segment = Segment(id: SegmentId, start: int, length: int, handler: Handler) {
    function End(): int { start + length }
  }

  /** What a planner says about a segment, before offsets are assigned. */
  datatype Part = Part(id: SegmentId, length: int, handler: Handler)

  function PartOf(s: Segment): Part { Part(s.id, s.length, s.handler) }

  function Parts(chain: seq<Segment>): (ps: seq<Part>)
    ensures |ps| == |chain|
    ensures forall i :: 0 <= i < |chain| ==> ps[i] == PartOf(chain[i])
  {
    if chain == [] then [] else [PartOf(chain[0])] + Parts(chain[1..])
  }

  function Ids(chain: seq<Segment>): (ids: seq<SegmentId>)
    ensures |ids| == |chain|
    ensures forall i :: 0 <= i < |chain| ==> ids[i] == chain[i].id
  {
    if chain == [] then [] else [chain[0].id] + Ids(chain[1..])
  }

  function PartIds(ps: seq<Part>): (ids: seq<SegmentId>)
    ensures |ids| == |ps|
    ensures forall i :: 0 <= i < |ps| ==> ids[i] == ps[i].id
  {
    if ps == [] then [] else [ps[0].id] + PartIds(ps[1..])
  }

  lemma PartIdsAppend(a: seq<Part>, b: seq<Part>)
    ensures PartIds(a + b) == PartIds(a) + PartIds(b)
  {
    var l, r := PartIds(a + b), PartIds(a) + PartIds(b);
    assert |l| == |r|;
    forall i | 0 <= i < |l| ensures l[i] == r[i] {
      if i < |a| { assert (a + b)[i] == a[i]; } else { assert (a + b)[i] == b[i - |a|]; }
    }
  }

  /** Every segment starts where its predecessor ends. */
  ghost predicate Contiguous(chain: seq<Segment>)
  {
    forall i :: 0 < i < |chain| ==> chain[i - 1].End() == chain[i].start
  }

  /** Appends a segment that starts at the end of the chain's last segment. */
  function Link(chain: seq<Segment>, id: SegmentId, length: int, handler: Handler): (r: seq<Segment>)
    requires chain != []
    ensures |r| == |chain| + 1 && r[..|chain|] == chain
    ensures r[|chain|] == Segment(id, chain[|chain| - 1].End(), length, handler)
    ensures Contiguous(chain) ==> Contiguous(r)
    ensures Parts(r) == Parts(chain) + [Part(id, length, handler)]
  {
    chain + [Segment(id, chain[|chain| - 1].End(), length, handler)]
  }

  /** The position of the first segment with the given identifier, if any. */
  function FirstIndex(chain: seq<Segment>, id: SegmentId): (r: Option<nat>)
    ensures r.Some? ==> r.value < |chain| && chain[r.value].id == id
                        && forall j :: 0 <= j < r.value ==> chain[j].id != id
    ensures r.None? ==> forall j :: 0 <= j < |chain| ==> chain[j].id != id
  {
    if chain == [] then None
    else if chain[0].id == id then Some(0)
    else match FirstIndex(chain[1..], id)
      case None => None
      case Some(k) => Some(k + 1)
  }

  /** The start of every segment of a contiguous chain is the head's start plus the lengths before it. */
  function SumLengths(chain: seq<Segment>): int
  {
    if chain == [] then 0 else SumLengths(chain[..|chain| - 1]) + chain[|chain| - 1].length
  }

  lemma {:induction false} ContiguousStarts(chain: seq<Segment>, k: nat)
    requires Contiguous(chain) && k < |chain|
    ensures chain[k].start == chain[0].start + SumLengths(chain[..k])
  {
    if k > 0 {
      ContiguousStarts(chain, k - 1);
      assert chain[..k][..k - 1] == chain[..k - 1];
    }
  }
}

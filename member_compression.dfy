/**
 * The compression kinds a column's storage info names. The file stores a
 * 32-bit code; the library adds RelationshipData for the relationship-table
 * column, which no file code stands for.
 */
module MemberCompression {

  datatype Kind =
    | NoCompression
    | Immediate
    | CommonData
    | BitpackedPalletData
    | BitpackedPalletArrayData
    | RelationshipData
    /** A code with no named kind; the storage-info switch takes its default branch for it. */
    | Unnamed(code: int)

  /**
   * The cast of a stored code to the kind enumeration (codes 0 to 4 are the
   * named kinds, in the order the enumeration is assumed to declare them).
   */
  function FromCode(code: int): (k: Kind)
    ensures k != RelationshipData
    ensures k.Unnamed? <==> !(0 <= code <= 4)
    ensures k.Unnamed? ==> k.code == code
  {
    if code == 0 then NoCompression
    else if code == 1 then Immediate
    else if code == 2 then CommonData
    else if code == 3 then BitpackedPalletData
    else if code == 4 then BitpackedPalletArrayData
    else Unnamed(code)
  }

  /** The code a kind read from a file was stored as. */
  function CodeOf(k: Kind): int
    requires k != RelationshipData
  {
    match k
    case NoCompression => 0
    case Immediate => 1
    case CommonData => 2
    case BitpackedPalletData => 3
    case BitpackedPalletArrayData => 4
    case Unnamed(c) => c
  }

  /** The cast loses nothing: distinct codes are distinct kinds. */
  lemma {:induction false} CodeRoundTrip(code: int, k: Kind)
    ensures CodeOf(FromCode(code)) == code
    ensures k != RelationshipData && (k.Unnamed? ==> !(0 <= k.code <= 4)) ==> FromCode(CodeOf(k)) == k
  {
  }
}

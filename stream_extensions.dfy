/** StreamExtensions.ReadCString: a zero-terminated string read byte by byte. */
module StreamExtensions {
  import opened Bytes
  import opened Streams

  /** A zero byte lies at or after `from`. */
  predicate HasTerminator(data: seq<byte>, from: nat)
  {
    exists k :: from <= k < |data| && data[k] == 0
  }

  /** The index of the first zero byte at or after `from`. */
  function FirstZero(data: seq<byte>, from: nat): (z: nat)
    requires HasTerminator(data, from)
    ensures from <= z < |data| && data[z] == 0
    ensures forall k :: from <= k < z ==> data[k] != 0
    decreases |data| - from
  {
    if data[from] == 0 then from
    else
      assert HasTerminator(data, from + 1) by {
        var k :| from <= k < |data| && data[k] == 0;
        assert k != from;
      }
      FirstZero(data, from + 1)
  }

  /** Each byte becomes the character with the same code (no multi-byte decoding). */
  function Latin1(bs: seq<byte>): (s: string)
    ensures |s| == |bs|
    ensures forall i :: 0 <= i < |bs| ==> s[i] as int == bs[i] as int
  {
    if bs == [] then [] else [(bs[0] as int) as char] + Latin1(bs[1..])
  }

  /**
   * Consumes the bytes up to and including the first zero byte and returns the
   * bytes before it as characters. The source loops forever when no zero byte
   * follows (ReadByte's -1 is never '\0'), hence the precondition.
   */
  method ReadCString(stream: ByteStream) returns (s: string)
    requires HasTerminator(stream.data, stream.pos)
    modifies stream
    ensures s == Latin1(stream.data[old(stream.pos)..FirstZero(stream.data, old(stream.pos))])
    ensures stream.pos == FirstZero(stream.data, old(stream.pos)) + 1
  {
    ghost var start := stream.pos;
    ghost var z := FirstZero(stream.data, start);
    s := [];
    var c := stream.ReadByte();
    while c != 0
      invariant start < stream.pos <= z + 1
      invariant c == stream.data[stream.pos - 1] as int
      invariant s == Latin1(stream.data[start..stream.pos - 1])
      decreases z + 1 - stream.pos
    {
      assert stream.pos - 1 != z;
      assert stream.data[start..stream.pos] == stream.data[start..stream.pos - 1] + [stream.data[stream.pos - 1]];
      Latin1Snoc(stream.data[start..stream.pos - 1], stream.data[stream.pos - 1]);
      s := s + [c as char];
      c := stream.ReadByte();
    }
    assert stream.pos - 1 == z;
  }

  lemma Latin1Snoc(bs: seq<byte>, b: byte)
    ensures Latin1(bs + [b]) == Latin1(bs) + [(b as int) as char]
  {
    var l, r := Latin1(bs + [b]), Latin1(bs) + [(b as int) as char];
    assert |l| == |r|;
    forall i | 0 <= i < |l| ensures l[i] == r[i] {
      if i < |bs| { assert (bs + [b])[i] == bs[i]; }
    }
  }
}

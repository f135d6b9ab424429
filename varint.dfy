/**
 * Base-128 varints of the Protocol Buffers wire format: seven value bits per
 * byte, least significant group first, the high bit set on every byte but the last.
 */
module Varint {
  import opened Wrappers

  type byte = b: int | 0 <= b < 256

  /** The varint encoding of `n`: a run of continuation bytes closed by one final byte. */
  function Encode(n: nat): (r: seq<byte>)
    ensures 1 <= |r|
    ensures r[|r| - 1] < 128
    ensures forall i :: 0 <= i < |r| - 1 ==> 128 <= r[i]
    decreases n
  {
    if n < 128 then [n] else [n % 128 + 128] + Encode(n / 128)
  }

  /**
   * Reads one varint from the front of `s`: its value and the number of bytes
   * it took, or None when `s` ends before a final byte.
   */
  function Decode(s: seq<byte>): (r: Option<(nat, nat)>)
    ensures r.Some? ==> 1 <= r.value.1 <= |s|
  {
    if |s| == 0 then None
    else if s[0] < 128 then Some((s[0], 1))
    else match Decode(s[1..])
      case None => None
      case Some((v, k)) => Some((s[0] - 128 + 128 * v, k + 1))
  }

  /** A varint read back from the front of any stream yields the value written and its length. */
  lemma {:induction false} DecodeEncode(n: nat, rest: seq<byte>)
    ensures Decode(Encode(n) + rest) == Some((n, |Encode(n)|))
    decreases n
  {
    if n >= 128 {
      DecodeEncode(n / 128, rest);
      assert (Encode(n) + rest)[1..] == Encode(n / 128) + rest;
    }
  }
}

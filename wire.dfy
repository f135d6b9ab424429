/**
 * Length-delimited fields (wire type 2, "LEN") of the Protocol Buffers wire
 * format: the fragment `CodedOutputStream.writeMessage(field, m)` appends, its
 * decoder, and a stream of such fragments read back one at a time.
 */
module Wire {
  import opened Wrappers
  import opened Varint

  /** Wire type 2: the value is a varint length followed by that many bytes. */
  const LengthDelimited: nat := 2

  /**
   * The field key `(field << 3) | 2`. The low three bits of `field << 3` are
   * zero, so the bitwise or is the addition written here.
   */
  function Key(field: nat): (k: nat)
    ensures k / 8 == field && k % 8 == LengthDelimited
  {
    field * 8 + LengthDelimited
  }

  /** The field number a key carries: the key without its three wire-type bits. */
  function KeyField(key: nat): nat
  {
    key / 8
  }

  /** A key of a length-delimited field with a valid (positive) field number. */
  predicate IsFieldKey(key: nat)
  {
    key % 8 == LengthDelimited && key / 8 != 0
  }

  /** One occurrence of a length-delimited field: its field number and its payload bytes. */
  datatype Occurrence = Occurrence(field: nat, payload: seq<byte>)

  /** The bytes of one occurrence: varint key, varint payload length, payload. */
  function Fragment(occ: Occurrence): seq<byte>
  {
    Encode(Key(occ.field)) + Encode(|occ.payload|) + occ.payload
  }

  /**
   * The layout of a fragment: the key varint, then the varint of the payload
   * length, then the payload verbatim, and nothing else.
   */
  lemma FragmentLayout(occ: Occurrence)
    ensures var f, key, len := Fragment(occ), Encode(Key(occ.field)), Encode(|occ.payload|);
      && |f| == |key| + |len| + |occ.payload|
      && f[..|key|] == key
      && f[|key|..|key| + |len|] == len
      && f[|key| + |len|..] == occ.payload
  {
  }

  /**
   * Reads one length-delimited field from the front of `s`: the occurrence and
   * the number of bytes it took. Fails on a truncated key or length, on a wire
   * type other than 2, on field number 0 and on a payload running past the end.
   */
  function DecodeFragment(s: seq<byte>): (r: Option<(Occurrence, nat)>)
    ensures r.Some? ==> 1 <= r.value.1 <= |s|
    ensures r.Some? ==> 1 <= r.value.0.field
  {
    match Decode(s)
    case None => None
    case Some(head) => DecodeAfterKey(s, head.0, head.1)
  }

  /** DecodeFragment once the key, `k1` bytes long, has been read. */
  function DecodeAfterKey(s: seq<byte>, key: nat, k1: nat): (r: Option<(Occurrence, nat)>)
    requires 1 <= k1 <= |s|
    ensures r.Some? ==> 1 <= r.value.1 <= |s|
    ensures r.Some? ==> 1 <= r.value.0.field
  {
    if !IsFieldKey(key) then None
    else match Decode(s[k1..])
      case None => None
      case Some(size) => DecodeAfterLength(s, key, k1, size.0, size.1)
  }

  /** DecodeFragment once the key and the length `len`, `k2` bytes long, have been read. */
  function DecodeAfterLength(s: seq<byte>, key: nat, k1: nat, len: nat, k2: nat): (r: Option<(Occurrence, nat)>)
    requires IsFieldKey(key) && 1 <= k1
    ensures r.Some? ==> 1 <= r.value.1 <= |s|
    ensures r.Some? ==> 1 <= r.value.0.field
  {
    if k1 + k2 + len > |s| then None
    else Some((Occurrence(KeyField(key), s[k1 + k2 .. k1 + k2 + len]), k1 + k2 + len))
  }

  /** A fragment decodes, in front of any further bytes, to the field number and payload written. */
  lemma DecodeFragmentOf(occ: Occurrence, rest: seq<byte>)
    requires 1 <= occ.field
    ensures DecodeFragment(Fragment(occ) + rest) == Some((occ, |Fragment(occ)|))
  {
    var k := Key(occ.field);
    var key, len, p := Encode(k), Encode(|occ.payload|), occ.payload;
    var s := Fragment(occ) + rest;
    assert s == key + (len + p + rest);
    DecodeEncode(k, len + p + rest);
    assert s[|key|..] == len + (p + rest);
    DecodeEncode(|p|, p + rest);
    assert DecodeFragment(s) == DecodeAfterKey(s, k, |key|);
    assert DecodeAfterKey(s, k, |key|) == DecodeAfterLength(s, k, |key|, |p|, |len|);
    assert s[|key| + |len| .. |key| + |len| + |p|] == p;
    assert |key| + |len| + |p| == |Fragment(occ)|;
  }

  /** Fields are well numbered when every field number is positive, as protobuf requires. */
  predicate WellNumbered(occs: seq<Occurrence>)
  {
    forall i :: 0 <= i < |occs| ==> 1 <= occs[i].field
  }

  /** The streaming concatenation of the fragments of `occs`, in order. */
  function Stream(occs: seq<Occurrence>): seq<byte>
  {
    if occs == [] then [] else Fragment(occs[0]) + Stream(occs[1..])
  }

  /** Streaming two runs of occurrences one after the other equals streaming them together. */
  lemma {:induction false} StreamAppend(a: seq<Occurrence>, b: seq<Occurrence>)
    ensures Stream(a + b) == Stream(a) + Stream(b)
  {
    if a == [] {
      assert a + b == b;
    } else {
      assert (a + b)[1..] == a[1..] + b;
      StreamAppend(a[1..], b);
    }
  }

  /** Reads a whole stream fragment by fragment, or None when some fragment is malformed. */
  function ParseStream(s: seq<byte>): (r: Option<seq<Occurrence>>)
    ensures r.Some? ==> WellNumbered(r.value)
    decreases |s|
  {
    if s == [] then Some([])
    else match DecodeFragment(s)
      case None => None
      case Some((occ, n)) =>
        match ParseStream(s[n..])
        case None => None
        case Some(more) => Some([occ] + more)
  }

  /** The stream of well-numbered occurrences parses back to exactly those occurrences, in order. */
  lemma {:induction false} ParseStreamOf(occs: seq<Occurrence>)
    requires WellNumbered(occs)
    ensures ParseStream(Stream(occs)) == Some(occs)
  {
    if occs != [] {
      var f, rest := Fragment(occs[0]), Stream(occs[1..]);
      DecodeFragmentOf(occs[0], rest);
      assert (f + rest)[|f|..] == rest;
      ParseStreamOf(occs[1..]);
      assert [occs[0]] + occs[1..] == occs;
    }
  }
}

/**
 * The action-graph container whose repeated fields the streamed records
 * populate: a reader that merges a byte stream into it one field occurrence at
 * a time, and its canonical serialization. The theorem of this module is that
 * the streamed binary output reads back as the container built from the
 * records in emission order, which is what reading that container's own
 * serialization yields.
 */
module Container {
  import opened Wrappers
  import opened Varint
  import opened Wire
  import opened Records

  type Payload = seq<byte>

  /** The container declares one repeated field per category. */
  const FieldCount: nat := 8

  /** The payload lists of the container's repeated fields, in declaration order. */
  type Container = fields: seq<seq<Payload>> | |fields| == FieldCount
    witness [[], [], [], [], [], [], [], []]

  const Empty: Container := [[], [], [], [], [], [], [], []]

  /**
   * Every field of the empty container is empty. A separate lemma, because
   * the same fact for a symbolic index inside MergeOccurrences
   * costs more than its resource budget allows.
   */
  lemma EmptyFields()
    ensures forall j :: 0 <= j < FieldCount ==> Empty[j] == []
  {
  }

  /** The position of a category's field among the container's declarations. */
  function Slot(c: Category): (i: nat)
    ensures i < FieldCount
  {
    match c
    case Artifact => 0
    case Action => 1
    case Target => 2
    case DepSetOfFiles => 3
    case Configuration => 4
    case AspectDescriptor => 5
    case RuleClass => 6
    case PathFragment => 7
  }

  /** The category whose field is declared at position `i`. */
  function CategoryAt(i: nat): (c: Category)
    requires i < FieldCount
    ensures Slot(c) == i
  {
    if i == 0 then Artifact
    else if i == 1 then Action
    else if i == 2 then Target
    else if i == 3 then DepSetOfFiles
    else if i == 4 then Configuration
    else if i == 5 then AspectDescriptor
    else if i == 6 then RuleClass
    else PathFragment
  }

  /** Every field position holds exactly one category's field. */
  lemma SlotInverse(c: Category, i: nat)
    requires i < FieldCount
    ensures CategoryAt(i) == c <==> Slot(c) == i
  {
    match c
    case Artifact =>
    case Action =>
    case Target =>
    case DepSetOfFiles =>
    case Configuration =>
    case AspectDescriptor =>
    case RuleClass =>
    case PathFragment =>
  }

  /** The repeated field of category `c`. */
  function Get(k: Container, c: Category): seq<Payload>
  {
    k[Slot(c)]
  }

  /**
   * Parsing one occurrence of a repeated message field appends its payload to
   * that field. A field number no category owns is rejected.
   */
  function Merge(k: Container, occ: Occurrence): Option<Container>
  {
    match CategoryOfField(occ.field)
    case None => None
    case Some(c) => Some(k[Slot(c) := k[Slot(c)] + [occ.payload]])
  }

  /**
   * Merging an occurrence succeeds exactly for the field numbers of the
   * categories; it appends the payload to that category's field and leaves
   * every other field as it was.
   */
  lemma MergeEffect(k: Container, occ: Occurrence, c: Category)
    ensures Merge(k, occ).Some? <==> CategoryOfField(occ.field).Some?
    ensures occ.field == FieldNumber(c) ==>
      && Merge(k, occ).Some?
      && Get(Merge(k, occ).value, c) == Get(k, c) + [occ.payload]
      && forall d :: d != c ==> Get(Merge(k, occ).value, d) == Get(k, d)
  {
    FieldNumberInverse(c, occ.field);
    forall d | d != c ensures Slot(d) != Slot(c) {
      SlotInverse(d, Slot(c));
      SlotInverse(c, Slot(c));
    }
  }

  /** Merges a run of occurrences into `k`, first to last. */
  function MergeAll(k: Container, occs: seq<Occurrence>): Option<Container>
    decreases |occs|
  {
    if occs == [] then Some(k)
    else match Merge(k, occs[0])
      case None => None
      case Some(k') => MergeAll(k', occs[1..])
  }

  /** A conforming reader: parse the stream fragment by fragment, merging each into an empty container. */
  function Read(s: seq<byte>): Option<Container>
  {
    match ParseStream(s)
    case None => None
    case Some(occs) => MergeAll(Empty, occs)
  }

  /** The field occurrence a record is streamed as. */
  function OccurrenceOf(r: Record): Occurrence
  {
    Occurrence(FieldNumber(r.category), r.message.bytes)
  }

  /** The field occurrences of `records`, in emission order. */
  function OccurrencesOf(records: seq<Record>): (occs: seq<Occurrence>)
    ensures |occs| == |records|
    ensures forall i :: 0 <= i < |records| ==> occs[i] == OccurrenceOf(records[i])
  {
    if records == [] then [] else [OccurrenceOf(records[0])] + OccurrencesOf(records[1..])
  }

  /** What the binary mode writes for `records`: their fragments concatenated in emission order. */
  function StreamOf(records: seq<Record>): seq<byte>
  {
    Stream(OccurrencesOf(records))
  }

  /** The container `k` with each record's payload appended to its own field, first to last. */
  function BuildFrom(k: Container, records: seq<Record>): Container
    decreases |records|
  {
    if records == [] then k
    else var i := Slot(records[0].category);
      BuildFrom(k[i := k[i] + [records[0].message.bytes]], records[1..])
  }

  /** The container holding the records' payloads. */
  function Build(records: seq<Record>): Container
  {
    BuildFrom(Empty, records)
  }

  /** The payloads of the records of category `c`, in emission order. */
  function PayloadsOf(records: seq<Record>, c: Category): seq<Payload>
  {
    if records == [] then []
    else (if records[0].category == c then [records[0].message.bytes] else []) + PayloadsOf(records[1..], c)
  }

  /**
   * Each field of the built container lists the payloads of that category's
   * records in emission order: records are neither reordered nor dropped.
   */
  lemma {:induction false} BuildFromFields(k: Container, records: seq<Record>, c: Category)
    ensures Get(BuildFrom(k, records), c) == Get(k, c) + PayloadsOf(records, c)
    decreases |records|
  {
    if records != [] {
      var r := records[0];
      var i := Slot(r.category);
      var k' := k[i := k[i] + [r.message.bytes]];
      BuildFromFields(k', records[1..], c);
      SlotInverse(r.category, Slot(c));
      SlotInverse(c, Slot(c));
    }
  }

  /** Merging the occurrences of `records` appends each record to its field, as BuildFrom does. */
  lemma {:induction false} MergeAllOccurrences(k: Container, records: seq<Record>)
    ensures MergeAll(k, OccurrencesOf(records)) == Some(BuildFrom(k, records))
    decreases |records|
  {
    if records != [] {
      var r := records[0];
      var occs := OccurrencesOf(records);
      var i := Slot(r.category);
      FieldNumberInverse(r.category, FieldNumber(r.category));
      assert occs[1..] == OccurrencesOf(records[1..]);
      MergeAllOccurrences(k[i := k[i] + [r.message.bytes]], records[1..]);
    }
  }

  /** Reading the binary output of `records` gives the container built from them in emission order. */
  lemma ReadStreamOf(records: seq<Record>)
    ensures Read(StreamOf(records)) == Some(Build(records))
  {
    var occs := OccurrencesOf(records);
    assert WellNumbered(occs);
    ParseStreamOf(occs);
    MergeAllOccurrences(Empty, records);
  }

  /** The occurrences of one repeated field, element by element. */
  function Block(c: Category, ps: seq<Payload>): (occs: seq<Occurrence>)
    ensures |occs| == |ps|
    ensures forall i :: 0 <= i < |ps| ==> occs[i] == Occurrence(FieldNumber(c), ps[i])
  {
    if ps == [] then [] else [Occurrence(FieldNumber(c), ps[0])] + Block(c, ps[1..])
  }

  /** The occurrences of the fields of `k` from position `i` on, field after field. */
  function OccurrencesFrom(k: Container, i: nat): seq<Occurrence>
    requires i <= FieldCount
    decreases FieldCount - i
  {
    if i == FieldCount then [] else Block(CategoryAt(i), k[i]) + OccurrencesFrom(k, i + 1)
  }

  /** The canonical serialization of the container: all occurrences, field after field in declaration order. */
  function Serialize(k: Container): seq<byte>
  {
    Stream(OccurrencesFrom(k, 0))
  }

  lemma {:induction false} MergeAllAppend(k: Container, a: seq<Occurrence>, b: seq<Occurrence>)
    ensures MergeAll(k, a + b) ==
      match MergeAll(k, a) case None => None case Some(m) => MergeAll(m, b)
    decreases |a|
  {
    if a == [] {
      assert a + b == b;
    } else {
      assert (a + b)[0] == a[0];
      assert (a + b)[1..] == a[1..] + b;
      match Merge(k, a[0])
      case None =>
      case Some(k') => MergeAllAppend(k', a[1..], b);
    }
  }

  /** Merging a block merges its first payload, then the rest of the block. */
  lemma MergeBlockHead(k: Container, c: Category, ps: seq<Payload>)
    requires ps != []
    ensures var i := Slot(c);
      MergeAll(k, Block(c, ps)) == MergeAll(k[i := k[i] + [ps[0]]], Block(c, ps[1..]))
  {
    var b := Block(c, ps);
    assert Merge(k, b[0]) == Some(k[Slot(c) := k[Slot(c)] + [ps[0]]]) by {
      FieldNumberInverse(c, FieldNumber(c));
    }
    assert b[1..] == Block(c, ps[1..]);
  }

  /** Appending the first payload and then the rest of them appends them all. */
  lemma AppendInTwo(k: Container, i: nat, ps: seq<Payload>)
    requires i < FieldCount && ps != []
    ensures var k' := k[i := k[i] + [ps[0]]];
      k'[i := k'[i] + ps[1..]] == k[i := k[i] + ps]
  {
    assert k[i] + [ps[0]] + ps[1..] == k[i] + ps;
  }

  /** The step of MergeBlock: merge the first payload, then the rest of the block. */
  lemma MergeBlockStep(k: Container, c: Category, ps: seq<Payload>)
    requires ps != []
    requires var i := Slot(c); var k' := k[i := k[i] + [ps[0]]];
      MergeAll(k', Block(c, ps[1..])) == Some(k'[i := k'[i] + ps[1..]])
    ensures MergeAll(k, Block(c, ps)) == Some(k[Slot(c) := k[Slot(c)] + ps])
  {
    MergeBlockHead(k, c, ps);
    AppendInTwo(k, Slot(c), ps);
  }

  /** Merging the block of field `c` into `k` appends the block's payloads to that field. */
  lemma {:induction false} MergeBlock(k: Container, c: Category, ps: seq<Payload>)
    ensures MergeAll(k, Block(c, ps)) == Some(k[Slot(c) := k[Slot(c)] + ps])
    decreases |ps|
  {
    var i := Slot(c);
    if ps == [] {
      assert k[i] + ps == k[i];
      assert k[i := k[i]] == k;
    } else {
      MergeBlock(k[i := k[i] + [ps[0]]], c, ps[1..]);
      MergeBlockStep(k, c, ps);
    }
  }

  /**
   * Merging the fields of `k` from position `i` on into `m` appends each of
   * them to the same field of `m`.
   */
  lemma {:induction false} MergeOccurrencesFrom(m: Container, k: Container, i: nat)
    requires i <= FieldCount
    ensures MergeAll(m, OccurrencesFrom(k, i)).Some?
    ensures forall j :: 0 <= j < FieldCount ==>
      MergeAll(m, OccurrencesFrom(k, i)).value[j] == if j < i then m[j] else m[j] + k[j]
    decreases FieldCount - i
  {
    if i == FieldCount {
    } else {
      var c := CategoryAt(i);
      var m' := m[i := m[i] + k[i]];
      MergeAllAppend(m, Block(c, k[i]), OccurrencesFrom(k, i + 1));
      MergeBlock(m, c, k[i]);
      MergeOccurrencesFrom(m', k, i + 1);
    }
  }

  lemma {:induction false} OccurrencesFromWellNumbered(k: Container, i: nat)
    requires i <= FieldCount
    ensures WellNumbered(OccurrencesFrom(k, i))
    decreases FieldCount - i
  {
    if i < FieldCount {
      OccurrencesFromWellNumbered(k, i + 1);
    }
  }

  /**
   * Two containers with the same fields are equal. A separate lemma, so that
   * MergeOccurrences concludes equality in a small context.
   */
  lemma Extensionality(a: Container, b: Container)
    requires forall j :: 0 <= j < FieldCount ==> a[j] == b[j]
    ensures a == b
  {
  }

  /** Merging all occurrences of `k` into the empty container rebuilds `k`. */
  lemma MergeOccurrences(k: Container)
    ensures MergeAll(Empty, OccurrencesFrom(k, 0)) == Some(k)
  {
    MergeOccurrencesFrom(Empty, k, 0);
    EmptyFields();
    Extensionality(MergeAll(Empty, OccurrencesFrom(k, 0)).value, k);
  }

  /** Reading the canonical serialization of a container gives that container back. */
  lemma ReadSerialize(k: Container)
    ensures Read(Serialize(k)) == Some(k)
  {
    OccurrencesFromWellNumbered(k, 0);
    ParseStreamOf(OccurrencesFrom(k, 0));
    MergeOccurrences(k);
  }

  /**
   * Merge compatibility: the streamed binary output of `records` reads as the
   * same container as the serialization of one container holding all of them.
   */
  lemma BinaryMergeCompatible(records: seq<Record>)
    ensures Read(StreamOf(records)) == Read(Serialize(Build(records)))
  {
    ReadStreamOf(records);
    ReadSerialize(Build(records));
  }


  /** The records arrive grouped by category, in the container's field order. */
  predicate Grouped(records: seq<Record>)
  {
    forall i, j :: 0 <= i < j < |records| ==> Slot(records[i].category) <= Slot(records[j].category)
  }

  /** The occurrences of the fields from position `i` on depend only on those fields. */
  lemma {:induction false} OccurrencesFromFrame(k: Container, k': Container, i: nat)
    requires i <= FieldCount
    requires forall j :: i <= j < FieldCount ==> k[j] == k'[j]
    ensures OccurrencesFrom(k, i) == OccurrencesFrom(k', i)
    decreases FieldCount - i
  {
    if i < FieldCount {
      OccurrencesFromFrame(k, k', i + 1);
    }
  }

  /** The empty container has no occurrences. */
  lemma {:induction false} OccurrencesFromEmpty(i: nat)
    requires i <= FieldCount
    ensures OccurrencesFrom(Empty, i) == []
    decreases FieldCount - i
  {
    if i < FieldCount {
      EmptyFields();
      OccurrencesFromEmpty(i + 1);
    }
  }

  /** Building from a record and the rest puts its payload in front of its own field of the rest's container. */
  lemma BuildCons(records: seq<Record>, j: nat)
    requires records != [] && j < FieldCount
    ensures Build(records)[j] ==
      if j == Slot(records[0].category) then [records[0].message.bytes] + Build(records[1..])[j]
      else Build(records[1..])[j]
  {
    var r, rest := records[0], records[1..];
    var i := Slot(r.category);
    var start := Empty[i := [] + [r.message.bytes]];
    assert Build(records) == BuildFrom(start, rest);
    var d := CategoryAt(j);
    BuildFromFields(start, rest, d);
    BuildFromFields(Empty, rest, d);
    EmptyFields();
  }

  /** A payload put in front of field `i` puts its occurrence in front of the occurrences from `i` on. */
  lemma OccurrencesFromPrepend(k: Container, k': Container, i: nat, p: Payload)
    requires i < FieldCount
    requires k'[i] == [p] + k[i]
    requires forall j :: i < j < FieldCount ==> k'[j] == k[j]
    ensures OccurrencesFrom(k', i) == [Occurrence(FieldNumber(CategoryAt(i)), p)] + OccurrencesFrom(k, i)
  {
    var c := CategoryAt(i);
    OccurrencesFromFrame(k, k', i + 1);
    assert Block(c, k'[i]) == [Occurrence(FieldNumber(c), p)] + Block(c, k[i]) by {
      assert k'[i][1..] == k[i];
    }
  }

  /** The step of GroupedOccurrences when the first record belongs to field `i`. */
  lemma GroupedHead(records: seq<Record>, i: nat)
    requires records != [] && i < FieldCount && Slot(records[0].category) == i
    requires OccurrencesOf(records[1..]) == OccurrencesFrom(Build(records[1..]), i)
    ensures OccurrencesOf(records) == OccurrencesFrom(Build(records), i)
  {
    var r, rest := records[0], records[1..];
    var k, k' := Build(rest), Build(records);
    forall j | i < j < FieldCount ensures k'[j] == k[j] {
      BuildCons(records, j);
    }
    BuildCons(records, i);
    OccurrencesFromPrepend(k, k', i, r.message.bytes);
    SlotInverse(r.category, i);
    assert OccurrencesOf(records) == [OccurrenceOf(r)] + OccurrencesOf(rest);
  }

  /**
   * Grouped records whose fields all lie at position `i` or later stream as
   * the occurrences of the built container from field `i` on.
   */
  lemma {:induction false} GroupedOccurrences(records: seq<Record>, i: nat)
    requires i <= FieldCount && Grouped(records)
    requires forall n :: 0 <= n < |records| ==> i <= Slot(records[n].category)
    ensures OccurrencesOf(records) == OccurrencesFrom(Build(records), i)
    decreases |records|, FieldCount - i
  {
    if records == [] {
      OccurrencesFromEmpty(i);
    } else if Slot(records[0].category) == i {
      GroupedOccurrences(records[1..], i);
      GroupedHead(records, i);
    } else {
      var c := CategoryAt(i);
      forall n | 0 <= n < |records| ensures records[n].category != c {
        SlotInverse(records[n].category, i);
      }
      assert Build(records)[i] == [] by {
        BuildFromFields(Empty, records, c);
        PayloadsOfAbsent(records, c);
        EmptyFields();
      }
      GroupedOccurrences(records, i + 1);
    }
  }

  /** A category none of the records has contributes no payloads. */
  lemma {:induction false} PayloadsOfAbsent(records: seq<Record>, c: Category)
    requires forall n :: 0 <= n < |records| ==> records[n].category != c
    ensures PayloadsOf(records, c) == []
    decreases |records|
  {
    if records != [] {
      PayloadsOfAbsent(records[1..], c);
    }
  }

  /**
   * Records that arrive grouped in field order stream byte for byte as the
   * serialization of the container holding them.
   */
  lemma GroupedStreamIsSerialization(records: seq<Record>)
    requires Grouped(records)
    ensures StreamOf(records) == Serialize(Build(records))
  {
    GroupedOccurrences(records, 0);
  }

  /**
   * The field numbers increase in the container's declaration order: the
   * field at position `i` has number `i + 1`. The byte-level results below
   * rely on this, since the serialization writes fields in declaration order.
   */
  lemma FieldNumberOrder(c: Category)
    ensures FieldNumber(c) == Slot(c) + 1
  {
    match c
    case Artifact =>
    case Action =>
    case Target =>
    case DepSetOfFiles =>
    case Configuration =>
    case AspectDescriptor =>
    case RuleClass =>
    case PathFragment =>
  }

  /** The field numbers of a run of occurrences never decrease. */
  predicate FieldsAscending(occs: seq<Occurrence>)
  {
    forall a, b :: 0 <= a < b < |occs| ==> occs[a].field <= occs[b].field
  }

  /**
   * A run of occurrences of field `f` followed by an ascending run of fields
   * above `f` is ascending, with all of its fields at least `f`.
   */
  lemma AscendingConcat(head: seq<Occurrence>, rest: seq<Occurrence>, f: nat)
    requires forall n :: 0 <= n < |head| ==> head[n].field == f
    requires FieldsAscending(rest)
    requires forall n :: 0 <= n < |rest| ==> f < rest[n].field
    ensures FieldsAscending(head + rest)
    ensures forall n :: 0 <= n < |head + rest| ==> f <= (head + rest)[n].field
  {
    var all := head + rest;
    forall n | 0 <= n < |all| ensures f <= all[n].field {
      if n >= |head| { assert all[n] == rest[n - |head|]; }
    }
    forall a, b | 0 <= a < b < |all| ensures all[a].field <= all[b].field {
      if b >= |head| {
        assert all[b] == rest[b - |head|];
        if a >= |head| { assert all[a] == rest[a - |head|]; }
      }
    }
  }

  /**
   * The occurrences of a container from field `i` on come in ascending field
   * order, all with numbers above `i`.
   */
  lemma {:induction false} OccurrencesFromAscending(k: Container, i: nat)
    requires i <= FieldCount
    ensures FieldsAscending(OccurrencesFrom(k, i))
    ensures forall n :: 0 <= n < |OccurrencesFrom(k, i)| ==> i < OccurrencesFrom(k, i)[n].field
    decreases FieldCount - i
  {
    if i < FieldCount {
      OccurrencesFromAscending(k, i + 1);
      FieldNumberOrder(CategoryAt(i));
      AscendingConcat(Block(CategoryAt(i), k[i]), OccurrencesFrom(k, i + 1), i + 1);
    }
  }

  /**
   * The converse of GroupedStreamIsSerialization: streamed records whose bytes
   * are the serialization of the container holding them arrived grouped.
   */
  lemma SerializationIsGrouped(records: seq<Record>)
    requires StreamOf(records) == Serialize(Build(records))
    ensures Grouped(records)
  {
    var occs, k := OccurrencesOf(records), Build(records);
    assert WellNumbered(occs);
    ParseStreamOf(occs);
    OccurrencesFromWellNumbered(k, 0);
    ParseStreamOf(OccurrencesFrom(k, 0));
    assert occs == OccurrencesFrom(k, 0);
    OccurrencesFromAscending(k, 0);
    forall i, j | 0 <= i < j < |records| ensures Slot(records[i].category) <= Slot(records[j].category) {
      FieldNumberOrder(records[i].category);
      FieldNumberOrder(records[j].category);
      assert occs[i].field <= occs[j].field;
    }
  }

  /** The streamed bytes are the container's serialization exactly when the records arrive grouped. */
  lemma StreamIsSerializationIffGrouped(records: seq<Record>)
    ensures StreamOf(records) == Serialize(Build(records)) <==> Grouped(records)
  {
    if Grouped(records) {
      GroupedStreamIsSerialization(records);
    }
    if StreamOf(records) == Serialize(Build(records)) {
      SerializationIsGrouped(records);
    }
  }

  /**
   * Interleaved categories break byte equality: an action followed by an
   * artifact is not grouped, as the artifact's field comes first in the
   * container.
   */
  lemma InterleavedStreamDiffers(action: Message, artifact: Message)
    ensures var records := [Record(Action, action), Record(Artifact, artifact)];
      StreamOf(records) != Serialize(Build(records))
  {
    var records := [Record(Action, action), Record(Artifact, artifact)];
    assert Slot(records[0].category) > Slot(records[1].category);
    StreamIsSerializationIffGrouped(records);
  }

  /** The container built from one record holds just that record's payload in its field. */
  lemma BuildSingle(r: Record)
    ensures Build([r]) == Empty[Slot(r.category) := [r.message.bytes]]
  {
    var i := Slot(r.category);
    assert [r][1..] == [];
    var start := Empty[i := Empty[i] + [r.message.bytes]];
    assert Build([r]) == BuildFrom(start, [r][1..]) == start;
    EmptyFields();
    assert Empty[i] + [r.message.bytes] == [r.message.bytes];
  }

  /** A single streamed record is byte for byte the serialization of a container holding only it. */
  lemma SingleRecordIsContainer(r: Record)
    ensures StreamOf([r]) == Serialize(Empty[Slot(r.category) := [r.message.bytes]])
  {
    BuildSingle(r);
    GroupedStreamIsSerialization([r]);
  }
}

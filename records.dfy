/**
 * The eight record categories aquery streams, the repeated field of the
 * action-graph container each belongs to, and the label it is printed under.
 */
module Records {
  import opened Wrappers
  import opened Varint

  datatype Category =
    | Artifact | Action | Target | DepSetOfFiles
    | Configuration | AspectDescriptor | RuleClass | PathFragment

  /**
   * A fully built record message, represented by its three renderings: the
   * protobuf text format (`Message.toString()`), the JSON printer's output and
   * the serialized message bytes. How those are computed is not modelled.
   */
  datatype Message = Message(text: string, json: string, bytes: seq<byte>)

  /** One emitted record: its category and its message. */
  datatype Record = Record(category: Category, message: Message)

  /**
   * The container field number of a category. The generated constants are
   * not part of this model; these values stand for them, and the proofs use
   * only that they are positive and pairwise distinct.
   */
  function FieldNumber(c: Category): (n: nat)
    ensures 1 <= n
  {
    match c
    case Artifact => 1
    case Action => 2
    case Target => 3
    case DepSetOfFiles => 4
    case Configuration => 5
    case AspectDescriptor => 6
    case RuleClass => 7
    case PathFragment => 8
  }

  /** The label a category is printed under in the text format. */
  function Label(c: Category): (s: string)
    ensures CategoryOfLabel(s) == Some(c)
  {
    match c
    case Artifact => "artifacts"
    case Action => "actions"
    case Target => "targets"
    case DepSetOfFiles => "dep_set_of_files"
    case Configuration => "configuration"
    case AspectDescriptor => "aspect_descriptors"
    case RuleClass => "rule_classes"
    case PathFragment => "path_fragments"
  }

  /** The category whose container field has number `n`, if any: the reader's view of the table. */
  function CategoryOfField(n: nat): Option<Category>
  {
    if n == 1 then Some(Artifact)
    else if n == 2 then Some(Action)
    else if n == 3 then Some(Target)
    else if n == 4 then Some(DepSetOfFiles)
    else if n == 5 then Some(Configuration)
    else if n == 6 then Some(AspectDescriptor)
    else if n == 7 then Some(RuleClass)
    else if n == 8 then Some(PathFragment)
    else None
  }

  /** The category printed under label `s`, if any: the text reader's view of the table. */
  function CategoryOfLabel(s: string): Option<Category>
  {
    if s == "artifacts" then Some(Artifact)
    else if s == "actions" then Some(Action)
    else if s == "targets" then Some(Target)
    else if s == "dep_set_of_files" then Some(DepSetOfFiles)
    else if s == "configuration" then Some(Configuration)
    else if s == "aspect_descriptors" then Some(AspectDescriptor)
    else if s == "rule_classes" then Some(RuleClass)
    else if s == "path_fragments" then Some(PathFragment)
    else None
  }

  /** Field number `n` belongs to category `c` exactly when `c`'s field number is `n`. */
  lemma FieldNumberInverse(c: Category, n: nat)
    ensures CategoryOfField(n) == Some(c) <==> FieldNumber(c) == n
  {
    match c
    case Artifact =>
    case Action =>
    case Target =>
    case DepSetOfFiles =>
    case Configuration =>
    case AspectDescriptor =>
    case RuleClass =>
    case PathFragment =>
  }

  /** No two categories share a field number. */
  lemma FieldNumbersDistinct(a: Category, b: Category)
    ensures FieldNumber(a) == FieldNumber(b) <==> a == b
  {
    FieldNumberInverse(a, FieldNumber(a));
    FieldNumberInverse(b, FieldNumber(a));
  }

  /** Label `s` belongs to category `c` exactly when `c`'s label is `s`. */
  lemma LabelInverse(c: Category, s: string)
    ensures CategoryOfLabel(s) == Some(c) <==> Label(c) == s
  {
    match c
    case Artifact =>
    case Action =>
    case Target =>
    case DepSetOfFiles =>
    case Configuration =>
    case AspectDescriptor =>
    case RuleClass =>
    case PathFragment =>
  }

  /** No two categories share a label. */
  lemma LabelsDistinct(a: Category, b: Category)
    ensures Label(a) == Label(b) <==> a == b
  {
    LabelInverse(a, Label(a));
    LabelInverse(b, Label(a));
  }
}

/**
 * The streamed output handler of aquery: it writes each record the moment it
 * is produced, in one of three formats chosen once, to a binary sink (BINARY)
 * or a text sink (TEXT and JSON), and closes the run asymmetrically.
 */
module Handler {
  import opened Wrappers
  import opened Varint
  import opened Wire
  import opened Records
  import opened Container

  /** The three output formats. */
  datatype OutputType = Binary | Text | Json

  /** The short name of a format, as the aquery output option spells it. */
  function FormatName(t: OutputType): (name: string)
    ensures OutputTypeNamed(name) == Some(t)
  {
    match t
    case Binary => "proto"
    case Text => "textproto"
    case Json => "jsonproto"
  }

  /** The format with a given short name, if any. */
  function OutputTypeNamed(name: string): Option<OutputType>
  {
    if name == "proto" then Some(Binary)
    else if name == "textproto" then Some(Text)
    else if name == "jsonproto" then Some(Json)
    else None
  }

  /** A short name names format `t` exactly when it is `t`'s name; so the names are distinct. */
  lemma FormatNameInverse(t: OutputType, name: string)
    ensures OutputTypeNamed(name) == Some(t) <==> FormatName(t) == name
  {
    match t
    case Binary =>
    case Text =>
    case Json =>
  }

  /** The line separator `println` writes; one fixed character here. */
  const Newline: char := '\n'

  /** The text block of one record: `label {`, newline, the text rendering, `}`, newline. */
  function TextFrame(messageLabel: string, body: string): string
  {
    messageLabel + " {\n" + body + "}\n"
  }

  /**
   * The layout of a text block: the label, then ` {` and a newline, then the
   * text rendering verbatim, then `}` and a newline.
   */
  lemma TextFrameLayout(messageLabel: string, body: string)
    ensures var frame := TextFrame(messageLabel, body);
      && |frame| == |messageLabel| + |body| + 5
      && frame[..|messageLabel|] == messageLabel
      && frame[|messageLabel|..|messageLabel| + 3] == " {\n"
      && frame[|messageLabel| + 3..|frame| - 2] == body
      && frame[|frame| - 2..] == "}\n"
  {
  }

  /** The characters one record adds to the text sink in format `t` (none in BINARY). */
  function Entry(t: OutputType, r: Record): string
  {
    match t
    case Binary => []
    case Text => TextFrame(Label(r.category), r.message.text)
    case Json => r.message.json + [Newline]
  }

  /** What the text sink receives for `records` in format `t`: their entries in emission order. */
  function TextOutput(t: OutputType, records: seq<Record>): string
  {
    if records == [] then [] else Entry(t, records[0]) + TextOutput(t, records[1..])
  }

  /** Emitting one more record extends the text output by exactly that record's entry. */
  lemma {:induction false} TextOutputSnoc(t: OutputType, records: seq<Record>, r: Record)
    ensures TextOutput(t, records + [r]) == TextOutput(t, records) + Entry(t, r)
  {
    if records == [] {
      assert records + [r] == [r];
    } else {
      assert (records + [r])[1..] == records[1..] + [r];
      TextOutputSnoc(t, records[1..], r);
    }
  }

  /** Emitting one more record extends the binary output by exactly that record's fragment. */
  lemma StreamOfSnoc(records: seq<Record>, r: Record)
    ensures StreamOf(records + [r]) == StreamOf(records) + Fragment(OccurrenceOf(r))
  {
    assert OccurrencesOf(records + [r]) == OccurrencesOf(records) + [OccurrenceOf(r)];
    StreamAppend(OccurrencesOf(records), [OccurrenceOf(r)]);
    assert Stream([OccurrenceOf(r)]) == Fragment(OccurrenceOf(r)) + Stream([]);
  }

  /** A binary sink holding `base` and the output of `records` holds, after one more fragment, the output of one more record. */
  lemma BinaryStep(base: seq<byte>, records: seq<Record>, r: Record, before: seq<byte>, after: seq<byte>)
    requires before == base + StreamOf(records)
    requires after == before + Fragment(OccurrenceOf(r))
    ensures after == base + StreamOf(records + [r])
  {
    StreamOfSnoc(records, r);
    assert (base + StreamOf(records)) + Fragment(OccurrenceOf(r)) == base + (StreamOf(records) + Fragment(OccurrenceOf(r)));
  }

  /**
   * Concatenation is associative. Stated over arbitrary sequences so that
   * TextStep can use it without unfolding the entries of the text formats;
   * the same fact asserted inside TextStep exhausts its resource budget.
   */
  lemma Associative<T>(a: seq<T>, b: seq<T>, c: seq<T>)
    ensures (a + b) + c == a + (b + c)
  {
  }

  /** The text counterpart of BinaryStep. */
  lemma TextStep(t: OutputType, base: string, records: seq<Record>, r: Record, before: string, after: string)
    requires before == base + TextOutput(t, records)
    requires after == before + Entry(t, r)
    ensures after == base + TextOutput(t, records + [r])
  {
    TextOutputSnoc(t, records, r);
    Associative(base, TextOutput(t, records), Entry(t, r));
  }

  /** The first line of `s` and the number of characters it takes with its separator, if `s` has one. */
  function FirstLine(s: string): (r: Option<(string, nat)>)
    ensures r.Some? ==> |r.value.0| < r.value.1 <= |s|
    ensures r.Some? ==> r.value.1 == |r.value.0| + 1
  {
    if s == [] then None
    else if s[0] == Newline then Some(([], 1))
    else match FirstLine(s[1..])
      case None => None
      case Some((line, n)) => Some(([s[0]] + line, n + 1))
  }

  /** Splits a text into its newline-terminated lines, or None when it has an unterminated tail. */
  function Lines(s: string): Option<seq<string>>
    decreases |s|
  {
    if s == [] then Some([])
    else match FirstLine(s)
      case None => None
      case Some((line, n)) =>
        match Lines(s[n..])
        case None => None
        case Some(more) => Some([line] + more)
  }

  lemma {:induction false} FirstLineOf(line: string, rest: string)
    requires Newline !in line
    ensures FirstLine(line + [Newline] + rest) == Some((line, |line| + 1))
  {
    if line != [] {
      assert (line + [Newline] + rest)[1..] == line[1..] + [Newline] + rest;
      FirstLineOf(line[1..], rest);
      assert [line[0]] + line[1..] == line;
    }
  }

  /** The JSON renderings of `records`, in emission order. */
  function JsonValues(records: seq<Record>): (js: seq<string>)
    ensures |js| == |records|
    ensures forall i :: 0 <= i < |records| ==> js[i] == records[i].message.json
  {
    if records == [] then [] else [records[0].message.json] + JsonValues(records[1..])
  }

  /**
   * The JSON-lines law: when no rendering contains a line separator, the JSON
   * output of N records splits into exactly N lines, the N renderings in order.
   */
  lemma {:induction false} JsonLines(records: seq<Record>)
    requires forall i :: 0 <= i < |records| ==> Newline !in records[i].message.json
    ensures Lines(TextOutput(Json, records)) == Some(JsonValues(records))
  {
    if records != [] {
      var j, rest := records[0].message.json, TextOutput(Json, records[1..]);
      FirstLineOf(j, rest);
      assert TextOutput(Json, records) == j + [Newline] + rest;
      assert (j + [Newline] + rest)[|j| + 1..] == rest;
      JsonLines(records[1..]);
    }
  }

  /**
   * A pretty-printed rendering, one that spans two lines `first` and `second`,
   * turns a single JSON record into two lines of output.
   */
  lemma MultiLineJson(r: Record, first: string, second: string)
    requires Newline !in first && Newline !in second
    requires r.message.json == first + [Newline] + second
    ensures Lines(TextOutput(Json, [r])) == Some([first, second])
  {
    var out := TextOutput(Json, [r]);
    assert out == Entry(Json, [r][0]) + TextOutput(Json, [r][1..]);
    assert [r][1..] == [];
    var tail := second + [Newline] + [];
    assert out == first + [Newline] + tail;
    FirstLineOf(first, tail);
    assert out[|first| + 1..] == tail;
    FirstLineOf(second, []);
    assert tail[|second| + 1..] == [];
    assert Lines(tail[|second| + 1..]) == Some([]);
    assert [second] + [] == [second];
    assert Lines(tail) == Some([second]);
    assert [first] + [second] == [first, second];
  }

  /** The default printer's rendering of an empty message, `{`, newline, `}`, is two lines. */
  lemma EmptyMessageJson()
    ensures Lines(TextOutput(Json, [Record(Artifact, Message("", "{\n}", []))])) == Some(["{", "}"])
  {
    MultiLineJson(Record(Artifact, Message("", "{\n}", [])), "{", "}");
  }

  /**
   * The binary sink: the bytes written through the coded output stream, and
   * whether they have all been flushed to the destination. The stream has no
   * close operation; the resource behind it belongs to the caller.
   */
  class ByteSink {
    var data: seq<byte>
    var flushed: bool

    constructor (initial: seq<byte>)
      ensures data == initial && flushed
    {
      data := initial;
      flushed := true;
    }

    method Write(bytes: seq<byte>)
      modifies this
      ensures data == old(data) + bytes
      ensures flushed == (old(flushed) && bytes == [])
    {
      data := data + bytes;
      flushed := flushed && bytes == [];
    }

    method Flush()
      modifies this
      ensures data == old(data) && flushed
    {
      flushed := true;
    }
  }

  /**
   * The text sink, a print stream: the characters it has accepted, whether
   * it is open, whether they are flushed, and its error flag. A print stream
   * reports no exception: printing or flushing once it is closed writes
   * nothing and sets the error flag instead. Closing twice does nothing.
   */
  class TextSink {
    var data: string
    var open: bool
    var flushed: bool
    var error: bool

    constructor (initial: string)
      ensures data == initial && open && flushed && !error
    {
      data := initial;
      open, flushed, error := true, true, false;
    }

    method Print(s: string)
      modifies this
      ensures open == old(open)
      ensures data == if old(open) then old(data) + s else old(data)
      ensures flushed == if old(open) then old(flushed) && s == [] else old(flushed)
      ensures error == (old(error) || !old(open))
    {
      if open {
        data := data + s;
        flushed := flushed && s == [];
      } else {
        error := true;
      }
    }

    method Flush()
      modifies this
      ensures data == old(data) && open == old(open)
      ensures flushed == (old(flushed) || old(open))
      ensures error == (old(error) || !old(open))
    {
      if open {
        flushed := true;
      } else {
        error := true;
      }
    }

    method Close()
      modifies this
      ensures data == old(data) && flushed == old(flushed) && error == old(error)
      ensures !open
    {
      open := false;
    }
  }

  class StreamedOutputHandler {
    const outputType: OutputType
    const outputStream: ByteSink?
    const printStream: TextSink?

    /** The records the active sink has accepted, in emission order. */
    ghost var written: seq<Record>
    /** What the sinks held when the handler was built. */
    ghost const binaryBase: seq<byte>
    ghost const textBase: string

    /** The handler holds the sink its format writes to. */
    predicate HasSink()
    {
      if outputType == Binary then outputStream != null else printStream != null
    }

    /**
     * The active sink holds its initial contents followed by the output of the
     * accepted records, in emission order: nothing reordered, dropped or
     * repeated. This holds as long as nothing but the handler writes to it.
     */
    ghost predicate Valid()
      reads this, outputStream, printStream
    {
      && HasSink()
      && (outputType == Binary ==> outputStream.data == binaryBase + StreamOf(written))
      && (outputType != Binary ==> printStream.data == textBase + TextOutput(outputType, written))
    }

    /** The caller supplies the sink the format needs; this is not checked at run time. */
    constructor (outputType: OutputType, outputStream: ByteSink?, printStream: TextSink?)
      requires outputType == Binary ==> outputStream != null
      requires outputType != Binary ==> printStream != null
      ensures this.outputType == outputType
      ensures this.outputStream == outputStream && this.printStream == printStream
      ensures HasSink() && Valid() && written == []
    {
      this.outputType := outputType;
      this.outputStream := outputStream;
      this.printStream := printStream;
      binaryBase := if outputStream == null then [] else outputStream.data;
      textBase := if printStream == null then [] else printStream.data;
      written := [];
      new;
      assert StreamOf([]) == [] && TextOutput(outputType, []) == [];
    }

    /**
     * Writes one message: in BINARY as a length-delimited field of number
     * `fieldNumber`, in TEXT as a block under `messageLabel`, in JSON as one JSON
     * rendering and a line separator. Only the active sink changes.
     */
    method PrintMessage(message: Message, fieldNumber: nat, messageLabel: string)
      requires HasSink()
      modifies outputStream, printStream
      ensures outputType == Binary ==>
        outputStream.data == old(outputStream.data) + Fragment(Occurrence(fieldNumber, message.bytes)) &&
        !outputStream.flushed && (printStream != null ==> unchanged(printStream))
      ensures outputType == Text ==>
        printStream.open == old(printStream.open) &&
        printStream.data == old(printStream.data) +
          (if old(printStream.open) then TextFrame(messageLabel, message.text) else []) &&
        printStream.flushed == (old(printStream.flushed) && !old(printStream.open)) &&
        printStream.error == (old(printStream.error) || !old(printStream.open)) &&
        (outputStream != null ==> unchanged(outputStream))
      ensures outputType == Json ==>
        printStream.open == old(printStream.open) &&
        printStream.data == old(printStream.data) +
          (if old(printStream.open) then message.json + [Newline] else []) &&
        printStream.flushed == (old(printStream.flushed) && !old(printStream.open)) &&
        printStream.error == (old(printStream.error) || !old(printStream.open)) &&
        (outputStream != null ==> unchanged(outputStream))
    {
      match outputType
      case Binary =>
        outputStream.Write(Fragment(Occurrence(fieldNumber, message.bytes)));
      case Text =>
        printStream.Print(TextFrame(messageLabel, message.text));
      case Json =>
        printStream.Print(message.json);
        printStream.Print([Newline]);
    }

    /**
     * The per-category print operations (printArtifact, printAction, ...):
     * each prints its message under its category's field number and label.
     * The record is accepted unless the format is textual and the text sink
     * is already closed, in which case nothing is written.
     */
    method Print(category: Category, message: Message)
      requires HasSink()
      modifies this`written, outputStream, printStream
      ensures old(Valid()) ==> Valid()
      ensures outputType == Binary ==>
        outputStream.data == old(outputStream.data) +
          Fragment(Occurrence(FieldNumber(category), message.bytes)) &&
        !outputStream.flushed &&
        (printStream != null ==> unchanged(printStream))
      ensures outputType != Binary ==>
        printStream.data == old(printStream.data) +
          (if old(printStream.open) then Entry(outputType, Record(category, message)) else []) &&
        printStream.open == old(printStream.open) &&
        printStream.flushed == (old(printStream.flushed) && !old(printStream.open)) &&
        printStream.error == (old(printStream.error) || !old(printStream.open)) &&
        (outputStream != null ==> unchanged(outputStream))
      ensures written == old(written) +
        (if outputType == Binary || old(printStream.open) then [Record(category, message)] else [])
    {
      var r := Record(category, message);
      PrintMessage(message, FieldNumber(category), Label(category));
      if outputType == Binary {
        if old(Valid()) {
          BinaryStep(binaryBase, written, r, old(outputStream.data), outputStream.data);
        }
        written := written + [r];
      } else if old(printStream.open) {
        if old(Valid()) {
          TextStep(outputType, textBase, written, r, old(printStream.data), printStream.data);
        }
        written := written + [r];
      }
    }

    /**
     * Ends the run. BINARY flushes the coded stream and leaves it to its
     * owner; TEXT and JSON flush and then close the print stream.
     */
    method Close()
      requires HasSink()
      modifies outputStream, printStream
      ensures old(Valid()) ==> Valid()
      ensures outputType == Binary ==>
        outputStream.data == old(outputStream.data) && outputStream.flushed &&
        (printStream != null ==> unchanged(printStream))
      ensures outputType != Binary ==>
        printStream.data == old(printStream.data) && !printStream.open &&
        printStream.flushed == (old(printStream.flushed) || old(printStream.open)) &&
        printStream.error == (old(printStream.error) || !old(printStream.open)) &&
        (outputStream != null ==> unchanged(outputStream))
    {
      match outputType
      case Binary =>
        outputStream.Flush();
      case _ =>
        printStream.Flush();
        printStream.Close();
    }
  }
}

# StreamedOutputHandler, modelled in Dafny

`StreamedOutputHandler` is the streaming record emitter of Bazel's aquery command
(action graph, version 2). Aquery does not assemble one `ActionGraphContainer`
message. It hands every artifact, action, target, dep set, configuration, aspect
descriptor, rule class and path fragment to the handler as soon as that record is
ready. The handler writes the record to one of two sinks, in one of three formats:

- BINARY (`proto`) appends the record to a protobuf `CodedOutputStream` as a
  length-delimited field of the container. The field number is the one that
  belongs to the record's category.
- TEXT (`textproto`) prints `label {\n<text rendering>}\n` to a `PrintStream`.
- JSON (`jsonproto`) prints the JSON rendering and then a line separator.

`close` flushes the coded stream in BINARY mode and otherwise flushes and closes
the print stream.

The project is split into these modules:

- `Wrappers` holds `Option`.
- `Varint` has base-128 varints and their decoder.
- `Wire` has the length-delimited fragment, its decoder and the reading of a stream
  of fragments.
- `Records` has the eight record categories, with their field numbers and labels,
  and the message renderings.
- `Container` models `ActionGraphContainer` as eight repeated fields. It includes a
  reader that merges a stream field by field, and a canonical serializer.
- `Handler` models the output formats, the two sinks and the handler class.
- `Runs` holds three small client runs.

The handler is an imperative class. Its sinks are objects whose contents the
methods extend in place. A ghost history (`written`) and the invariant `Valid`
tie each sink's contents to a function of the records accepted so far.

The central binary result is `BinaryMergeCompatible`. Reading the concatenated
fragments of any records yields the same container as reading the serialization
of one container that holds those records, field by field, in emission order.
This is why the streamed output can be consumed as a single `ActionGraphContainer`.
The bytes themselves equal that serialization exactly when the records arrive
grouped in field order (`StreamIsSerializationIffGrouped`). Interleaved categories
give different bytes for the same container (`InterleavedStreamDiffers`).

Message renderings come from the protobuf library and are not shown. These are
`toString`, `JsonFormat.printer()` and the serialized bytes. The model carries
them as the three fields of a `Message` value.

The field-number constants live in generated code that is not shown. The model
gives them the values 1 to 8. The results at the level of the read container use
only that the numbers are positive and distinct (`FieldNumber`,
`FieldNumberInverse`, `FieldNumbersDistinct`). The byte-level results also use
that the numbers increase in the container's declaration order (`FieldNumberOrder`),
because the serialization writes fields in that order.

The constructor does not check that the supplied sink fits the format. The model
takes this as a precondition of the constructor.

## Model

| member | source | states |
|---|---|---|
| Handler.FormatNameInverse | src/main/java/com/google/devtools/build/lib/skyframe/actiongraph/v2/StreamedOutputHandler.java:34-47 | each output type has its own format name. BINARY↔"proto", TEXT↔"textproto", JSON↔"jsonproto", in both directions, and no other name is a format |
| Handler.FormatName | src/main/java/com/google/devtools/build/lib/skyframe/actiongraph/v2/StreamedOutputHandler.java:45-47 | the name a format reports is one the option reader maps back to that same format |
| Records.FieldNumber | src/main/java/com/google/devtools/build/lib/skyframe/actiongraph/v2/StreamedOutputHandler.java:62-93 | every category's container field number is positive, so it is a valid protobuf field number |
| Records.FieldNumberInverse | src/main/java/com/google/devtools/build/lib/skyframe/actiongraph/v2/StreamedOutputHandler.java:62-93 | a field number identifies its category: CategoryOfField(n) is c exactly when n is c's field number |
| Records.FieldNumbersDistinct | src/main/java/com/google/devtools/build/lib/skyframe/actiongraph/v2/StreamedOutputHandler.java:62-93 | two categories share a field number exactly when they are the same category |
| Container.FieldNumberOrder | src/main/java/com/google/devtools/build/lib/skyframe/actiongraph/v2/StreamedOutputHandler.java:62-93 | the field numbers increase in the container's declaration order, which is the order its serialization writes the fields in |
| Records.LabelInverse | src/main/java/com/google/devtools/build/lib/skyframe/actiongraph/v2/StreamedOutputHandler.java:62-93 | the labels are the eight names artifacts … path_fragments, and a label identifies its category in both directions |
| Records.LabelsDistinct | src/main/java/com/google/devtools/build/lib/skyframe/actiongraph/v2/StreamedOutputHandler.java:62-93 | two categories share a label exactly when they are the same category |
| Records.Label | src/main/java/com/google/devtools/build/lib/skyframe/actiongraph/v2/StreamedOutputHandler.java:63-92 | each wrapper's label is one the text reader maps back to that wrapper's category |
| Varint.Encode | src/main/java/com/google/devtools/build/lib/skyframe/actiongraph/v2/StreamedOutputHandler.java:104 | a varint is at least one byte. Every byte except the last has its continuation bit set, and the last has it clear |
| Varint.DecodeEncode | src/main/java/com/google/devtools/build/lib/skyframe/actiongraph/v2/StreamedOutputHandler.java:104 | a varint decodes, in front of any further bytes, to the number written and its own length |
| Wire.Key | src/main/java/com/google/devtools/build/lib/skyframe/actiongraph/v2/StreamedOutputHandler.java:104 | the key `(fieldNumber << 3) \| 2` carries the field number in its upper bits and wire type 2 (LEN) in its low three bits |
| Wire.FragmentLayout | src/main/java/com/google/devtools/build/lib/skyframe/actiongraph/v2/StreamedOutputHandler.java:104 | the fragment writeMessage appends is the key varint, then the varint of the payload length, then the payload verbatim, and nothing else |
| Wire.DecodeFragment | src/main/java/com/google/devtools/build/lib/skyframe/actiongraph/v2/StreamedOutputHandler.java:104 | a fragment read from the front of a stream takes at least one byte and no more than there are, and it has a positive field number |
| Wire.DecodeFragmentOf | src/main/java/com/google/devtools/build/lib/skyframe/actiongraph/v2/StreamedOutputHandler.java:104 | the fragment writeMessage appends decodes to the field number and payload written. Its key and length decode to the values written, and it consumes exactly its own bytes |
| Wire.StreamAppend | src/main/java/com/google/devtools/build/lib/skyframe/actiongraph/v2/StreamedOutputHandler.java:100-114 | streaming two runs of fields one after the other gives the concatenation of their streams |
| Wire.ParseStream | src/main/java/com/google/devtools/build/lib/skyframe/actiongraph/v2/StreamedOutputHandler.java:104 | every field a stream parses to has a positive field number |
| Wire.ParseStreamOf | src/main/java/com/google/devtools/build/lib/skyframe/actiongraph/v2/StreamedOutputHandler.java:100-114 | the binary output decodes, fragment by fragment, back to the (field number, payload) pairs in emission order |
| Container.MergeEffect | src/main/java/com/google/devtools/build/lib/skyframe/actiongraph/v2/StreamedOutputHandler.java:104 | a reader merges a field exactly when its number is a container field. It appends the payload to that category's repeated field and leaves the other seven unchanged |
| Container.BuildFromFields | src/main/java/com/google/devtools/build/lib/skyframe/actiongraph/v2/StreamedOutputHandler.java:62-93 | adding records to a container appends, to each category's field, that category's payloads in emission order |
| Container.MergeAllOccurrences | src/main/java/com/google/devtools/build/lib/skyframe/actiongraph/v2/StreamedOutputHandler.java:100-114 | merging the fields of records one by one builds the container that holds those records |
| Container.ReadStreamOf | src/main/java/com/google/devtools/build/lib/skyframe/actiongraph/v2/StreamedOutputHandler.java:100-114 | reading the binary output of any records gives the container that holds them, each category's messages in emission order |
| Container.ReadSerialize | src/main/java/com/google/devtools/build/lib/skyframe/actiongraph/v2/StreamedOutputHandler.java:104 | a container's canonical serialization reads back to that container |
| Container.BinaryMergeCompatible | src/main/java/com/google/devtools/build/lib/skyframe/actiongraph/v2/StreamedOutputHandler.java:100-114 | the concatenated fragments read as the same container as the serialization of one container holding those field occurrences in emission order |
| Container.SingleRecordIsContainer | src/main/java/com/google/devtools/build/lib/skyframe/actiongraph/v2/StreamedOutputHandler.java:103-105 | one record's binary output is byte for byte the serialization of a container holding only that message in its category's field |
| Container.GroupedStreamIsSerialization | src/main/java/com/google/devtools/build/lib/skyframe/actiongraph/v2/StreamedOutputHandler.java:100-114 | records that arrive grouped in field order stream byte for byte as the serialization of the container holding them |
| Container.SerializationIsGrouped | src/main/java/com/google/devtools/build/lib/skyframe/actiongraph/v2/StreamedOutputHandler.java:100-114 | streamed records whose bytes equal the serialization of their container arrived grouped in field order |
| Container.StreamIsSerializationIffGrouped | src/main/java/com/google/devtools/build/lib/skyframe/actiongraph/v2/StreamedOutputHandler.java:100-114 | the streamed bytes equal the container's serialization if and only if the records arrive grouped in field order |
| Container.InterleavedStreamDiffers | src/main/java/com/google/devtools/build/lib/skyframe/actiongraph/v2/StreamedOutputHandler.java:100-114 | an action followed by an artifact streams different bytes from the serialization of the container holding them, because those records are not grouped in field order |
| Handler.StreamOfSnoc | src/main/java/com/google/devtools/build/lib/skyframe/actiongraph/v2/StreamedOutputHandler.java:103-105 | emitting one more record in BINARY appends exactly that record's fragment after the earlier output |
| Handler.TextOutputSnoc | src/main/java/com/google/devtools/build/lib/skyframe/actiongraph/v2/StreamedOutputHandler.java:106-112 | emitting one more record in TEXT or JSON appends exactly that record's block or JSON line after the earlier output |
| Handler.TextFrameLayout | src/main/java/com/google/devtools/build/lib/skyframe/actiongraph/v2/StreamedOutputHandler.java:107 | the text block is the label, then ` {` and a newline, then the text rendering verbatim, then `}` and a newline, and nothing else |
| Handler.JsonLines | src/main/java/com/google/devtools/build/lib/skyframe/actiongraph/v2/StreamedOutputHandler.java:109-112 | JSON output whose renderings contain no newline splits into one line per record, each line being that record's rendering, in order |
| Handler.MultiLineJson | src/main/java/com/google/devtools/build/lib/skyframe/actiongraph/v2/StreamedOutputHandler.java:109-112 | a rendering spanning two lines makes one JSON record two lines of output |
| Handler.EmptyMessageJson | src/main/java/com/google/devtools/build/lib/skyframe/actiongraph/v2/StreamedOutputHandler.java:109-112 | the default printer's empty-message rendering `{`, newline, `}` is two lines for one record |
| Handler.StreamedOutputHandler.constructor | src/main/java/com/google/devtools/build/lib/skyframe/actiongraph/v2/StreamedOutputHandler.java:55-60 | the handler keeps the format and both sinks as given, and starts with an empty history over the sink's current contents |
| Handler.ByteSink.Write | src/main/java/com/google/devtools/build/lib/skyframe/actiongraph/v2/StreamedOutputHandler.java:104 | the coded stream appends the written bytes after its contents and is then unflushed unless nothing was written |
| Handler.ByteSink.Flush | src/main/java/com/google/devtools/build/lib/skyframe/actiongraph/v2/StreamedOutputHandler.java:120 | flushing the coded stream keeps its contents and marks them flushed |
| Handler.TextSink.Print | src/main/java/com/google/devtools/build/lib/skyframe/actiongraph/v2/StreamedOutputHandler.java:107-111 | an open print stream appends the printed text; a closed one writes nothing and sets its error flag |
| Handler.TextSink.Flush | src/main/java/com/google/devtools/build/lib/skyframe/actiongraph/v2/StreamedOutputHandler.java:124 | flushing an open print stream marks it flushed; on a closed one it sets the error flag instead |
| Handler.TextSink.Close | src/main/java/com/google/devtools/build/lib/skyframe/actiongraph/v2/StreamedOutputHandler.java:125 | closing the print stream keeps its contents and flags and leaves it closed; closing twice does nothing more |
| Handler.StreamedOutputHandler.PrintMessage | src/main/java/com/google/devtools/build/lib/skyframe/actiongraph/v2/StreamedOutputHandler.java:100-114 | BINARY appends the LEN fragment of (fieldNumber, payload), leaves the sink unflushed and the text sink unchanged. TEXT appends `label {\n<text>}\n`. JSON appends the rendering and one newline. In both textual formats the append happens only while the print stream is open, and it leaves the stream unflushed; otherwise nothing is written and the error flag is set. The binary sink is unchanged |
| Handler.StreamedOutputHandler.Print | src/main/java/com/google/devtools/build/lib/skyframe/actiongraph/v2/StreamedOutputHandler.java:62-114 | each print* wrapper writes its category's field number and label. The active sink continues to hold its initial contents followed by the output of every accepted record in emission order,. An accepted record leaves the active sink unflushed, and the other sink is unchanged |
| Handler.StreamedOutputHandler.Close | src/main/java/com/google/devtools/build/lib/skyframe/actiongraph/v2/StreamedOutputHandler.java:117-128 | BINARY flushes the coded stream and leaves it writable. TEXT and JSON flush and then close the print stream. Nothing is written, and the history invariant is kept |
| Runs.TextTargetThenClose | src/main/java/com/google/devtools/build/lib/skyframe/actiongraph/v2/StreamedOutputHandler.java:106-128 | a TEXT run of one target followed by close outputs exactly `targets {\n<text>}\n`. A later print is refused and sets the error flag |
| Runs.JsonTwoArtifacts | src/main/java/com/google/devtools/build/lib/skyframe/actiongraph/v2/StreamedOutputHandler.java:109-112 | a JSON run of two artifacts outputs exactly the two renderings, each followed by a newline |
| Runs.BinaryActionThenClose | src/main/java/com/google/devtools/build/lib/skyframe/actiongraph/v2/StreamedOutputHandler.java:103-121 | a BINARY run of one action followed by close outputs the serialization of a container holding that action. The sink is flushed and still accepts bytes |

## Left out

- I/O failures are not modelled: `IOException` from the coded stream or the pipe, disk errors and partial writes. A `PrintStream` reports no exceptions, so printing to a closed stream is modelled as it behaves: nothing is written and the error flag is set.
- The message renderings (`toString`, the `JsonFormat` printer, message serialization inside `writeMessage`) are inputs carried by `Message`, because the protobuf library is not part of this model. JSON printing errors such as `InvalidProtocolBufferException` are left out for the same reason.
- The field-number values are 1 to 8, standing in for the generated `ActionGraphContainer` constants, which are not part of this model. The read-level results use only their positivity and distinctness. The byte-level results (`GroupedStreamIsSerialization`, `SerializationIsGrouped`, `InterleavedStreamDiffers`) also use that they increase in declaration order (`FieldNumberOrder`).
- The platform line separator that `println` writes is the single character `\n`.
- Varint.Encode: varints are unbounded. The 32-bit range of the key and length that `CodedOutputStream` writes is not modelled, because the handler itself places no bound on payload sizes and the model's field numbers are small.
- Container.Read: fields whose number is not a container field make the model reader fail. A protobuf parser would keep them as unknown fields instead. The handler never writes such fields.
- The eight `print*` wrappers are one method, `Print(category, message)`, over the category table. Each wrapper is that method at one fixed category.
- Handler.StreamedOutputHandler.Print: the history invariant is promised only when it held before the call. It holds only while nothing but the handler writes to the sink.
- Handler.JsonLines: requires renderings without a newline. The default `JsonFormat.printer()` pretty-prints over several lines, so the JSON output is one rendering per newline-terminated block, not one JSON value per line: `EmptyMessageJson` shows the two-line rendering of an empty message, and `MultiLineJson` the general case. The model follows the code: `Print` appends exactly the rendering and one newline, whatever the rendering contains.
- Buffering is modelled only as a `flushed` flag on each sink. `CodedOutputStream` has no close, so the binary sink has no closed state.
- Handler.TextSink.Close: keeps the `flushed` flag as it was, while `PrintStream.close()` also delivers buffered characters by closing the stream underneath. The handler flushes right before it closes, so the difference cannot be seen through the handler.
- Handler.TextSink.Print: any non-empty print leaves the print stream unflushed. A `PrintStream` created with autoflush flushes on every newline, so on every TEXT block and JSON line; autoflush is not modelled.
- Handler.TextSink: the print stream is modelled at the level of characters. A `PrintStream` encodes the characters to bytes in its charset, and that encoding is not modelled.
- Container.BinaryMergeCompatible: the streamed bytes and the container's serialization are equal as read, not byte for byte. Byte equality holds exactly when records arrive grouped in field-number order (`StreamIsSerializationIffGrouped`, from `GroupedStreamIsSerialization` and its converse `SerializationIsGrouped`). Aquery interleaves categories, for example an action before its artifacts, and such a stream differs in its bytes (`InterleavedStreamDiffers`).
- The handler does no concurrency, and none is modelled.

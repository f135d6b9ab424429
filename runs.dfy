/** Client runs of the handler, showing what callers can derive from its contracts alone. */
module Runs {
  import opened Varint
  import opened Wire
  import opened Records
  import opened Container
  import opened Handler

  /**
   * TEXT: one target, then close. The sink holds exactly the target's block and
   * is closed; a record printed afterwards is refused and raises the error flag.
   */
  method TextTargetThenClose(target: Message, late: Message) returns (out: string, open: bool, error: bool)
    ensures out == "targets {\n" + target.text + "}\n"
    ensures !open && error
  {
    var sink := new TextSink([]);
    var h := new StreamedOutputHandler(Text, null, sink);
    h.Print(Target, target);
    h.Close();
    h.Print(Artifact, late);
    out, open, error := sink.data, sink.open, sink.error;
  }

  /** JSON: two artifacts give two lines, each one JSON rendering, with nothing around them. */
  method JsonTwoArtifacts(a: Message, b: Message) returns (out: string)
    ensures out == a.json + "\n" + b.json + "\n"
  {
    var sink := new TextSink([]);
    var h := new StreamedOutputHandler(Json, null, sink);
    h.Print(Artifact, a);
    h.Print(Artifact, b);
    out := sink.data;
  }

  /**
   * BINARY: one action, then close. The bytes are those of a container holding
   * that one action; the sink is flushed and still takes bytes written after.
   */
  method BinaryActionThenClose(action: Message, more: seq<byte>) returns (out: seq<byte>, flushed: bool, after: seq<byte>)
    ensures out == Serialize(Empty[Slot(Action) := [action.bytes]])
    ensures flushed
    ensures after == out + more
  {
    var sink := new ByteSink([]);
    var h := new StreamedOutputHandler(Binary, sink, null);
    h.Print(Action, action);
    h.Close();
    out, flushed := sink.data, sink.flushed;
    sink.Write(more);
    after := sink.data;
    assert out == StreamOf([Record(Action, action)]) by {
      StreamOfSnoc([], Record(Action, action));
    }
    SingleRecordIsContainer(Record(Action, action));
  }
}

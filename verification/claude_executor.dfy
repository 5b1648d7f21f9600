/** The pure parts of the executor: the transcript it writes to the
    assistant process, the classification of each line the process prints,
    and the accumulation of the yielded text into the final result. The
    process itself is the `spawn` parameter (transcript in, buffered output
    out) and `JSON.parse` is the `parse` parameter (line in, record or
    nothing out, where nothing covers every line that makes the parse or the
    property accesses throw). */
module ClaudeExecutor {
  import opened Wrappers
  import opened Text
  import opened Types
  import opened ResponseParser

  /** One element of `message.content` in an `assistant` record. */
  datatype ContentBlock = ContentBlock(blockType: Option<string>, text: Option<string>)

  /** The fields of a parsed stream record that the classifier reads:
      `type`, `message.content` (present when truthy) and `delta.text`. */
  datatype StreamRecord = StreamRecord(
    recordType: Option<string>,
    content: Option<seq<ContentBlock>>,
    deltaText: Option<string>)

  /** How the process ended: closed with its whole stdout (whatever the exit
      code), or failed to start. */
  datatype SpawnOutcome = Exited(stdout: string, code: int) | SpawnFailed(error: string)

  /** What the generator yields, in order, and what it finally returns. */
  datatype Execution = Execution(chunks: seq<string>, result: ExecutionResult)

  /** The executor as its callers see it: history and new text in; the
      yielded chunks and the result out, or the error it threw. `Execute`
      with a fixed `spawn` and `parse` is one. */
  type Executor = (seq<Message>, string) -> Result<Execution, string>

  /** The speaker label of a history turn: only user turns are "Human". */
  function Label(role: Role): string {
    if role == User then "Human: " else "Assistant: "
  }

  /** The labelled history turns, in order. */
  function Turns(history: seq<Message>): (parts: seq<string>)
    ensures |parts| == |history|
    ensures forall k | 0 <= k < |history| :: parts[k] == Label(history[k].role) + history[k].content
    decreases |history|
  {
    if |history| == 0 then []
    else
      var last := history[|history| - 1];
      Turns(history[..|history| - 1]) + [Label(last.role) + last.content]
  }

  /** `formatConversation`: the labelled turns and then the new message as a
      human turn, separated by blank lines. The transcript always ends with
      the new human turn, which is all of it when there is no history. */
  function FormatConversation(history: seq<Message>, newMessage: string): (t: string)
    ensures |history| == 0 ==> t == "Human: " + newMessage
    ensures |history| > 0 ==> t == Join(Turns(history), "\n\n") + "\n\n" + "Human: " + newMessage
    ensures EndsWith(t, "Human: " + newMessage)
  {
    var human := "Human: " + newMessage;
    var parts := Turns(history);
    if |parts| == 0 then
      assert parts + [human] == [human];
      Join(parts + [human], "\n\n")
    else
      JoinSnoc(parts, human, "\n\n");
      EndsWithConcat(Join(parts, "\n\n") + "\n\n", human);
      Join(parts + [human], "\n\n")
  }

  /** When no turn spans a line break, the transcript splits back at the
      blank lines into exactly `|history| + 1` parts: each history turn with
      its label, in order, and then the new message as a human turn. */
  lemma FormatConversationParts(history: seq<Message>, newMessage: string)
    requires forall k, i | 0 <= k < |history| && 0 <= i < |history[k].content| :: history[k].content[i] != '\n'
    requires forall i | 0 <= i < |newMessage| :: newMessage[i] != '\n'
    ensures var parts := Split(FormatConversation(history, newMessage), "\n\n");
      && |parts| == |history| + 1
      && (forall k | 0 <= k < |history| :: parts[k] == Label(history[k].role) + history[k].content)
      && parts[|history|] == "Human: " + newMessage
  {
    var parts := Turns(history) + ["Human: " + newMessage];
    forall k, i | 0 <= k < |parts| && 0 <= i < |parts[k]| ensures parts[k][i] != "\n\n"[0] {
      var tag := if k < |history| then Label(history[k].role) else "Human: ";
      var body := if k < |history| then history[k].content else newMessage;
      assert parts[k] == tag + body;
      if i < |tag| {
        assert parts[k][i] == tag[i];
      } else {
        assert parts[k][i] == body[i - |tag|];
      }
    }
    SplitJoin(parts, "\n\n");
  }

  /** A block the classifier accepts: a `text` block with truthy text. */
  predicate IsTextBlock(b: ContentBlock) {
    b.blockType == Some("text") && Truthy(b.text)
  }

  /** The text of the first accepted block. */
  function FirstText(blocks: seq<ContentBlock>): (t: Option<string>)
    ensures t.Some? ==> t.value != ""
    ensures t.None? <==> forall k | 0 <= k < |blocks| :: !IsTextBlock(blocks[k])
    decreases |blocks|
  {
    if |blocks| == 0 then None
    else if IsTextBlock(blocks[0]) then Some(blocks[0].text.value)
    else FirstText(blocks[1..])
  }

  /** The first accepted block wins; later blocks are ignored. */
  lemma {:induction false} FirstTextIs(blocks: seq<ContentBlock>, k: nat)
    requires k < |blocks| && IsTextBlock(blocks[k])
    requires forall j | 0 <= j < k :: !IsTextBlock(blocks[j])
    ensures FirstText(blocks) == Some(blocks[k].text.value)
    decreases k
  {
    if k > 0 {
      FirstTextIs(blocks[1..], k - 1);
    }
  }

  /** `processLine`: blank lines and lines that do not parse give nothing;
      an `assistant` record gives its first text block; the two delta
      records give their delta text; everything else gives nothing. */
  function ProcessLine(line: string, parse: string -> Option<StreamRecord>): (t: Option<string>)
    ensures AllSpace(line) ==> t.None?
    ensures parse(line).None? ==> t.None?
    ensures t.Some? ==> t.value != ""
  {
    if Trim(line) == "" then None
    else
      match parse(line)
      case None => None
      case Some(rec) =>
        if rec.recordType == Some("assistant") && rec.content.Some? && FirstText(rec.content.value).Some? then
          FirstText(rec.content.value)
        else if rec.recordType == Some("content_block_delta") && Truthy(rec.deltaText) then
          Some(rec.deltaText.value)
        else if rec.recordType == Some("message_delta") && Truthy(rec.deltaText) then
          Some(rec.deltaText.value)
        else None
  }

  /** How each kind of parsed, non-blank line is classified. */
  lemma ProcessLineRecord(line: string, parse: string -> Option<StreamRecord>)
    requires !AllSpace(line) && parse(line).Some?
    ensures var rec := parse(line).value; var t := ProcessLine(line, parse);
      && (rec.recordType == Some("assistant") && rec.content.Some? ==> t == FirstText(rec.content.value))
      && (rec.recordType in {Some("content_block_delta"), Some("message_delta")} ==>
            t == (if Truthy(rec.deltaText) then Some(rec.deltaText.value) else None))
      && (rec.recordType !in {Some("assistant"), Some("content_block_delta"), Some("message_delta")} ==> t.None?)
  {
    assert Trim(line) != "";
  }

  /** What one line contributes to the output: its text, if truthy. */
  function YieldOf(t: Option<string>): seq<string> {
    if t.Some? && t.value != "" then [t.value] else []
  }

  /** The chunks the generator yields for `lines`, in order. */
  function Yields(lines: seq<string>, parse: string -> Option<StreamRecord>): (chunks: seq<string>)
    ensures |chunks| <= |lines|
    ensures forall k | 0 <= k < |chunks| :: chunks[k] != ""
    decreases |lines|
  {
    if |lines| == 0 then []
    else Yields(lines[..|lines| - 1], parse) + YieldOf(ProcessLine(lines[|lines| - 1], parse))
  }

  /** The whole run: a failed spawn rejects; otherwise the output is split
      into lines, every classified line is yielded, and the result carries
      the concatenated text and the ids found in it. */
  function Execute(history: seq<Message>, newMessage: string,
                   spawn: string -> SpawnOutcome, parse: string -> Option<StreamRecord>): (r: Result<Execution, string>)
    ensures r.Failure? <==> spawn(FormatConversation(history, newMessage)).SpawnFailed?
    ensures r.Failure? ==> r.error == spawn(FormatConversation(history, newMessage)).error
    ensures r.Success? ==>
              && (forall k | 0 <= k < |r.value.chunks| :: r.value.chunks[k] != "")
              && r.value.result.response == Concat(r.value.chunks)
              && r.value.result.detectedWorkflowIds == WorkflowIds(r.value.result.response)
  {
    match spawn(FormatConversation(history, newMessage))
    case SpawnFailed(e) => Failure(e)
    case Exited(out, _) =>
      var chunks := Yields(Split(out, "\n"), parse);
      var response := Concat(chunks);
      Success(Execution(chunks, ExecutionResult(response, WorkflowIds(response))))
  }

  /** `executeClaudeCommand`: the line loop, appending each truthy text to
      the response as it is yielded. */
  method ExecuteClaudeCommand(history: seq<Message>, newMessage: string,
                              spawn: string -> SpawnOutcome, parse: string -> Option<StreamRecord>)
    returns (r: Result<Execution, string>)
    ensures r == Execute(history, newMessage, spawn, parse)
    ensures r.Success? ==>
              r.value.chunks == Yields(Split(spawn(FormatConversation(history, newMessage)).stdout, "\n"), parse)
  {
    var conversation := FormatConversation(history, newMessage);
    match spawn(conversation)
    case SpawnFailed(e) =>
      r := Failure(e);
    case Exited(out, _) =>
      var lines := Split(out, "\n");
      var fullResponse := "";
      var chunks: seq<string> := [];
      for i := 0 to |lines|
        invariant chunks == Yields(lines[..i], parse)
        invariant fullResponse == Concat(chunks)
      {
        assert lines[..i + 1][..i] == lines[..i];
        var text := ProcessLine(lines[i], parse);
        if text.Some? && text.value != "" {
          ConcatAppend(chunks, text.value);
          fullResponse := fullResponse + text.value;
          chunks := chunks + [text.value];
        }
      }
      assert lines[..|lines|] == lines;
      var ids := ParseWorkflowIds(fullResponse);
      r := Success(Execution(chunks, ExecutionResult(fullResponse, ids)));
  }
}

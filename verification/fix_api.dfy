/** The fix endpoint: a request naming a failed workflow is turned into a
    prompt from a fixed template, the assistant runs on it with an empty
    history, and the summary block it is asked to end with is read back out
    of its response. The assistant is the `executor` parameter and
    `JSON.parse` of the summary block is the `parse` parameter. */
module FixApi {
  import opened Wrappers
  import opened Text
  import opened Types
  import opened ClaudeExecutor

  // The template's fixed text, cut at its five placeholders.
  const Intro: string :=
    "[AUTO-FIX REQUEST]\n\n" + "A workflow has failed " + "and needs to be fixed " + "automatically.\n\n" + "Workflow ID: "
  const NameLine: string := "\nWorkflow Name: "
  const NodeLine: string := "\nFailed Node: "
  const MessageLine: string := "\nError Message: "
  const ExecutionLine: string := "\nExecution ID: "
  /** The instructions after the execution id, line by line. */
  const InstructionLines: seq<string> := [
    "",
    "",
    "INSTRUCTIONS:",
    "1. Use the n8n-mcp tool \"n8n_get_workflow\" to retrieve the full workflow configuration",
    "2. Analyze the workflow structure and the error to diagnose the root cause",
    "3. Fix the workflow using \"n8n_update_partial_workflow\" or \"n8n_update_full_workflow\"",
    "4. After fixing, provide a summary",
    "",
    "IMPORTANT: At the end of your response, include a JSON block with this exact format:",
    "```json",
    "{",
    "  \"diagnosis\": \"Brief description of what caused the error\",",
    "  \"fixApplied\": \"Description of the changes made to fix it\",",
    "  \"summary\": \"One sentence summary of the fix\"",
    "}",
    "```",
    "",
    "Now proceed to diagnose and fix the workflow."
  ]
  const Instructions: string := Join(InstructionLines, "\n")

  /** The five labelled lines between `head` and `tail`, with the five
      values in place. */
  function Lines(head: string, id: string, name: string, node: string, msg: string, exec: string, tail: string): string {
    head + id + NameLine + name + NodeLine + node + MessageLine + msg + ExecutionLine + exec + tail
  }

  /** The template with the five values in place of its placeholders. */
  function Filled(id: string, name: string, node: string, msg: string, exec: string): string {
    Lines(Intro, id, name, node, msg, exec, Instructions)
  }

  /** `FIX_PROMPT_TEMPLATE`: the placeholders are themselves the values. */
  const Template: string := Filled("{workflowId}", "{workflowName}", "{failedNode}", "{errorMessage}", "{executionId}")

  const Unknown: string := "Unknown"

  /** `buildFixPrompt`: five first-occurrence replacements in turn; the
      name, the node and the execution id fall back to `Unknown`, and the
      two required fields print as `undefined` when absent. When no value
      can open a placeholder or holds a `$` pattern, the prompt is the
      template with every placeholder replaced by its value verbatim. */
  function BuildFixPrompt(req: FixRequest): (prompt: string)
    ensures InertRequest(req) ==>
              prompt == Filled(Shown(req.workflowId), OrElse(req.workflowName, Unknown), OrElse(req.failedNode, Unknown),
                               Shown(req.errorMessage), OrElse(req.executionId, Unknown))
  {
    var id := Shown(req.workflowId);
    var name := OrElse(req.workflowName, Unknown);
    var node := OrElse(req.failedNode, Unknown);
    var msg := Shown(req.errorMessage);
    var exec := OrElse(req.executionId, Unknown);
    var p1 := ReplaceFirst(Template, "{workflowId}", id);
    var p2 := ReplaceFirst(p1, "{workflowName}", name);
    var p3 := ReplaceFirst(p2, "{failedNode}", node);
    var p4 := ReplaceFirst(p3, "{errorMessage}", msg);
    var prompt := ReplaceFirst(p4, "{executionId}", exec);
    if InertRequest(req) then
      IntroBraceFree();
      ReplaceId(Intro, id, "{workflowName}", "{failedNode}", "{errorMessage}", "{executionId}", Instructions);
      ReplaceName(Intro, id, name, "{failedNode}", "{errorMessage}", "{executionId}", Instructions);
      ReplaceNode(Intro, id, name, node, "{errorMessage}", "{executionId}", Instructions);
      ReplaceMessage(Intro, id, name, node, msg, "{executionId}", Instructions);
      ReplaceExecution(Intro, id, name, node, msg, exec, Instructions);
      prompt
    else
      prompt
  }

  /** Every value that goes into the prompt is inert. */
  predicate InertRequest(req: FixRequest) {
    && Inert(Shown(req.workflowId)) && Inert(Shown(req.errorMessage))
    && Inert(OrElse(req.workflowName, Unknown)) && Inert(OrElse(req.failedNode, Unknown))
    && Inert(OrElse(req.executionId, Unknown))
  }

  /** A value that goes into the prompt verbatim: it cannot open a
      placeholder and holds no replacement pattern. */
  predicate Inert(v: string) {
    Excludes(v, '{') && Excludes(v, '$')
  }

  lemma IntroBraceFree()
    ensures Excludes(Intro, '{')
  {
    assert Excludes("[AUTO-FIX REQUEST]\n\n", '{');
    assert Excludes("A workflow has failed ", '{');
    assert Excludes("and needs to be fixed ", '{');
    assert Excludes("automatically.\n\n", '{');
    assert Excludes("Workflow ID: ", '{');
    ExcludesConcat("[AUTO-FIX REQUEST]\n\n", "A workflow has failed ", '{');
    ExcludesConcat("[AUTO-FIX REQUEST]\n\n" + "A workflow has failed ", "and needs to be fixed ", '{');
    ExcludesConcat("[AUTO-FIX REQUEST]\n\n" + "A workflow has failed " + "and needs to be fixed ", "automatically.\n\n", '{');
    ExcludesConcat("[AUTO-FIX REQUEST]\n\n" + "A workflow has failed " + "and needs to be fixed " + "automatically.\n\n", "Workflow ID: ", '{');
  }

  lemma FixedTextBraceFree()
    ensures Excludes(NameLine, '{') && Excludes(NodeLine, '{')
    ensures Excludes(MessageLine, '{') && Excludes(ExecutionLine, '{')
  {
  }

  /** Regrouping the filled template around each of its five values. */
  lemma Regroup(a0: string, v1: string, a1: string, v2: string, a2: string, v3: string, a3: string,
                v4: string, a4: string, v5: string, a5: string)
    ensures var t := a0 + v1 + a1 + v2 + a2 + v3 + a3 + v4 + a4 + v5 + a5;
      && t == a0 + v1 + (a1 + v2 + a2 + v3 + a3 + v4 + a4 + v5 + a5)
      && t == (a0 + v1 + a1) + v2 + (a2 + v3 + a3 + v4 + a4 + v5 + a5)
      && t == (a0 + v1 + a1 + v2 + a2) + v3 + (a3 + v4 + a4 + v5 + a5)
      && t == (a0 + v1 + a1 + v2 + a2 + v3 + a3) + v4 + (a4 + v5 + a5)
  {
  }

  lemma UnknownInert()
    ensures Inert(Unknown) && Inert("undefined")
  {
  }

  // One lemma per replacement: the text before the placeholder is free of
  // `{`, so its first occurrence is the template's own.

  lemma ReplaceId(head: string, id: string, name: string, node: string, msg: string, exec: string, tail: string)
    requires Excludes(head, '{') && Inert(id)
    ensures ReplaceFirst(Lines(head, "{workflowId}", name, node, msg, exec, tail), "{workflowId}", id) == Lines(head, id, name, node, msg, exec, tail)
  {
    FixedTextBraceFree();
    var rest := NameLine + name + NodeLine + node + MessageLine + msg + ExecutionLine + exec + tail;
    Regroup(head, "{workflowId}", NameLine, name, NodeLine, node, MessageLine, msg, ExecutionLine, exec, tail);
    Regroup(head, id, NameLine, name, NodeLine, node, MessageLine, msg, ExecutionLine, exec, tail);
    ReplaceFirstAfterBraceFree(head, "{workflowId}", rest, id);
  }

  lemma ReplaceName(head: string, id: string, name: string, node: string, msg: string, exec: string, tail: string)
    requires Excludes(head, '{') && Inert(id) && Inert(name)
    ensures ReplaceFirst(Lines(head, id, "{workflowName}", node, msg, exec, tail), "{workflowName}", name) == Lines(head, id, name, node, msg, exec, tail)
  {
    FixedTextBraceFree();
    var prefix := head + id + NameLine;
    var rest := NodeLine + node + MessageLine + msg + ExecutionLine + exec + tail;
    ExcludesConcat(head, id, '{');
    ExcludesConcat(head + id, NameLine, '{');
    Regroup(head, id, NameLine, "{workflowName}", NodeLine, node, MessageLine, msg, ExecutionLine, exec, tail);
    Regroup(head, id, NameLine, name, NodeLine, node, MessageLine, msg, ExecutionLine, exec, tail);
    ReplaceFirstAfterBraceFree(prefix, "{workflowName}", rest, name);
  }

  lemma ReplaceNode(head: string, id: string, name: string, node: string, msg: string, exec: string, tail: string)
    requires Excludes(head, '{') && Inert(id) && Inert(name) && Inert(node)
    ensures ReplaceFirst(Lines(head, id, name, "{failedNode}", msg, exec, tail), "{failedNode}", node) == Lines(head, id, name, node, msg, exec, tail)
  {
    FixedTextBraceFree();
    var prefix := head + id + NameLine + name + NodeLine;
    var rest := MessageLine + msg + ExecutionLine + exec + tail;
    ExcludesConcat(head, id, '{');
    ExcludesConcat(head + id, NameLine, '{');
    ExcludesConcat(head + id + NameLine, name, '{');
    ExcludesConcat(head + id + NameLine + name, NodeLine, '{');
    Regroup(head, id, NameLine, name, NodeLine, "{failedNode}", MessageLine, msg, ExecutionLine, exec, tail);
    Regroup(head, id, NameLine, name, NodeLine, node, MessageLine, msg, ExecutionLine, exec, tail);
    ReplaceFirstAfterBraceFree(prefix, "{failedNode}", rest, node);
  }

  lemma ReplaceMessage(head: string, id: string, name: string, node: string, msg: string, exec: string, tail: string)
    requires Excludes(head, '{') && Inert(id) && Inert(name) && Inert(node) && Inert(msg)
    ensures ReplaceFirst(Lines(head, id, name, node, "{errorMessage}", exec, tail), "{errorMessage}", msg) == Lines(head, id, name, node, msg, exec, tail)
  {
    FixedTextBraceFree();
    var prefix := head + id + NameLine + name + NodeLine + node + MessageLine;
    var rest := ExecutionLine + exec + tail;
    ExcludesConcat(head, id, '{');
    ExcludesConcat(head + id, NameLine, '{');
    ExcludesConcat(head + id + NameLine, name, '{');
    ExcludesConcat(head + id + NameLine + name, NodeLine, '{');
    ExcludesConcat(head + id + NameLine + name + NodeLine, node, '{');
    ExcludesConcat(head + id + NameLine + name + NodeLine + node, MessageLine, '{');
    Regroup(head, id, NameLine, name, NodeLine, node, MessageLine, "{errorMessage}", ExecutionLine, exec, tail);
    Regroup(head, id, NameLine, name, NodeLine, node, MessageLine, msg, ExecutionLine, exec, tail);
    ReplaceFirstAfterBraceFree(prefix, "{errorMessage}", rest, msg);
  }

  lemma ReplaceExecution(head: string, id: string, name: string, node: string, msg: string, exec: string, tail: string)
    requires Excludes(head, '{') && Inert(id) && Inert(name) && Inert(node) && Inert(msg) && Inert(exec)
    ensures ReplaceFirst(Lines(head, id, name, node, msg, "{executionId}", tail), "{executionId}", exec) == Lines(head, id, name, node, msg, exec, tail)
  {
    FixedTextBraceFree();
    var prefix := head + id + NameLine + name + NodeLine + node + MessageLine + msg + ExecutionLine;
    ExcludesConcat(head, id, '{');
    ExcludesConcat(head + id, NameLine, '{');
    ExcludesConcat(head + id + NameLine, name, '{');
    ExcludesConcat(head + id + NameLine + name, NodeLine, '{');
    ExcludesConcat(head + id + NameLine + name + NodeLine, node, '{');
    ExcludesConcat(head + id + NameLine + name + NodeLine + node, MessageLine, '{');
    ExcludesConcat(head + id + NameLine + name + NodeLine + node + MessageLine, msg, '{');
    ExcludesConcat(head + id + NameLine + name + NodeLine + node + MessageLine + msg, ExecutionLine, '{');
    ReplaceFirstAfterBraceFree(prefix, "{executionId}", tail, exec);
  }

  /** The fields of a parsed summary block that are read back; any value
      that is not a string is out of this model. */
  datatype SummaryFields = SummaryFields(diagnosis: Option<string>, fixApplied: Option<string>, summary: Option<string>)

  datatype Summary = Summary(diagnosis: string, fixApplied: string, summary: string)

  /** The three texts used when no summary block can be read. */
  const Fallback: Summary :=
    Summary("See full response for details", "See full response for details", "Fix attempted - check full response")

  const Fence: string := "```"
  const OpenFence: string := "```json"

  /** Whitespace and then a closing fence start at `j`. */
  predicate ClosesAt(s: string, j: nat)
    requires j <= |s|
  {
    OccursAt(s, j + SpaceRunFrom(s, j), Fence)
  }

  /** The first position at or after `e` where whitespace and a fence
      follow: the end of the lazy capture. */
  function CloseFrom(s: string, e: nat): (c: Option<nat>)
    requires e <= |s|
    ensures c.Some? ==> e <= c.value <= |s| && ClosesAt(s, c.value)
    ensures c.Some? ==> forall j | e <= j < c.value :: !ClosesAt(s, j)
    ensures c.None? ==> forall j | e <= j <= |s| :: !ClosesAt(s, j)
    decreases |s| - e
  {
    if ClosesAt(s, e) then Some(e)
    else if e == |s| then None
    else CloseFrom(s, e + 1)
  }

  /** The capture of ```` /```json\s*([\s\S]*?)\s*```/ ````: after the first
      opening fence and the whitespace that follows it, the shortest text
      that whitespace and a fence close. A later opening fence cannot match
      where the first one failed, since a fence closing it would close the
      first one too. */
  function FenceBody(s: string): (b: Option<string>)
    ensures !Contains(s, OpenFence) ==> b.None?
  {
    match IndexOf(s, OpenFence, 0)
    case None => None
    case Some(i) =>
      var start := i + |OpenFence| + SpaceRunFrom(s, i + |OpenFence|);
      match CloseFrom(s, start)
      case None => None
      case Some(e) => Some(s[start..e])
  }

  /** Inside a run without backquotes that ends in a non-space, no fence
      follows the whitespace. */
  lemma NoCloseInside(s: string, j: nat, e: nat)
    requires j < e <= |s|
    requires forall k | j <= k < e :: s[k] != '`'
    requires !IsSpace(s[e - 1])
    ensures !ClosesAt(s, j)
  {
    var n := SpaceRunFrom(s, j);
    assert j + n < e;
    if j + n + 3 <= |s| {
      assert s[j + n..j + n + 3][0] == s[j + n];
    }
  }

  /** A line break and then a fence close the capture. */
  lemma CloseAtBreak(s: string, e: nat)
    requires e < |s| && s[e] == '\n' && OccursAt(s, e + 1, Fence)
    ensures ClosesAt(s, e)
  {
    assert s[e + 1] == s[e + 1..e + 4][0];
    assert SpaceRunFrom(s, e + 1) == 0;
    assert SpaceRunFrom(s, e) == 1;
  }

  /** A run of text without backquotes that ends in a non-space, followed
      by a line break and a fence, is exactly what the lazy capture takes. */
  lemma FenceCloses(s: string, b: nat, e: nat)
    requires b < e && e + 4 <= |s|
    requires forall k | b <= k < e :: s[k] != '`'
    requires !IsSpace(s[e - 1]) && s[e] == '\n' && OccursAt(s, e + 1, Fence)
    ensures CloseFrom(s, b) == Some(e)
  {
    forall j | b <= j < e ensures !ClosesAt(s, j) {
      NoCloseInside(s, j, e);
    }
    CloseAtBreak(s, e);
    var c := CloseFrom(s, b);
    assert c.Some? && c.value <= e;
  }

  /** The capture that starts at a block body ends right after it. */
  lemma BodyCloses(x: string, body: string, post: string)
    requires Excludes(body, '`') && |body| > 0 && !IsSpace(body[|body| - 1])
    ensures CloseFrom(x + body + "\n" + Fence + post, |x|) == Some(|x| + |body|)
  {
    var s := x + body + "\n" + Fence + post;
    var b := |x|;
    var e := b + |body|;
    forall k | b <= k < e ensures s[k] != '`' {
      assert s[k] == body[k - b];
    }
    assert s[e - 1] == body[|body| - 1];
    assert s[e] == '\n';
    OccursAtEnd(x + body + "\n", Fence);
    OccursExtend(x + body + "\n" + Fence, post, e + 1, Fence);
    FenceCloses(s, b, e);
  }

  /** The opening fence of a block in the requested layout is the first
      one. */
  lemma BlockOpens(pre: string, rest: string)
    requires Excludes(pre, '`')
    ensures IndexOf(pre + OpenFence + rest, OpenFence, 0) == Some(|pre|)
  {
    var s := pre + OpenFence + rest;
    forall k | 0 <= k < |pre| ensures s[k] != OpenFence[0] {
      assert s[k] == pre[k];
    }
    OccursAtEnd(pre, OpenFence);
    OccursExtend(pre + OpenFence, rest, |pre|, OpenFence);
    FirstOccurrenceIn(s, |pre|, OpenFence);
  }

  /** One line break of whitespace follows the opening fence. */
  lemma OpenLineSpace(x: string, body: string, post: string)
    requires |x| >= 1 && x[|x| - 1] == '\n' && |body| > 0 && !IsSpace(body[0])
    ensures SpaceRunFrom(x + body + post, |x| - 1) == 1
  {
    var s := x + body + post;
    assert s[|x| - 1] == '\n' && s[|x|] == body[0];
    assert SpaceRunFrom(s, |x|) == 0;
  }

  /** The body sits right after the opening line. */
  lemma BodyAt(x: string, body: string, post: string)
    ensures (x + body + "\n" + Fence + post)[|x|..|x| + |body|] == body
  {
  }

  /** A response holding one summary block in the requested layout, with
      no backquote before or inside it, gives back exactly its body. */
  lemma FenceBodyReadsBlock(pre: string, body: string, post: string)
    requires Excludes(pre, '`') && Excludes(body, '`')
    requires |body| > 0 && !IsSpace(body[0]) && !IsSpace(body[|body| - 1])
    ensures FenceBody(pre + OpenFence + "\n" + body + "\n" + Fence + post) == Some(body)
  {
    BlockOpens(pre, "\n" + body + "\n" + Fence + post);
    assert pre + OpenFence + "\n" + body + "\n" + Fence + post == pre + OpenFence + ("\n" + body + "\n" + Fence + post);
    OpenLineSpace(pre + OpenFence + "\n", body, "\n" + Fence + post);
    assert pre + OpenFence + "\n" + body + "\n" + Fence + post == pre + OpenFence + "\n" + body + ("\n" + Fence + post);
    BodyCloses(pre + OpenFence + "\n", body, post);
    BodyAt(pre + OpenFence + "\n", body, post);
  }

  /** `parseFixSummary`: the fallback when there is no block or the block
      does not parse; otherwise each field, or its own default when empty
      or absent. */
  function ParseFixSummary(response: string, parse: string -> Option<SummaryFields>): (r: Summary)
    ensures r.diagnosis != "" && r.fixApplied != "" && r.summary != ""
    ensures FenceBody(response).None? ==> r == Fallback
    ensures FenceBody(response).Some? && parse(FenceBody(response).value).None? ==> r == Fallback
  {
    match FenceBody(response)
    case None => Fallback
    case Some(block) =>
      match parse(block)
      case None => Fallback
      case Some(f) =>
        Summary(
          OrElse(f.diagnosis, "Unable to determine diagnosis"),
          OrElse(f.fixApplied, "Fix details not provided"),
          OrElse(f.summary, "Fix applied"))
  }

  /** A block in the requested layout whose three fields are filled is read
      back field for field. */
  lemma ParseFixSummaryReadsBlock(pre: string, body: string, post: string, parse: string -> Option<SummaryFields>)
    requires Excludes(pre, '`') && Excludes(body, '`')
    requires |body| > 0 && !IsSpace(body[0]) && !IsSpace(body[|body| - 1])
    requires parse(body).Some?
    requires Truthy(parse(body).value.diagnosis) && Truthy(parse(body).value.fixApplied) && Truthy(parse(body).value.summary)
    ensures var f := parse(body).value;
      ParseFixSummary(pre + OpenFence + "\n" + body + "\n" + Fence + post, parse)
        == Summary(f.diagnosis.value, f.fixApplied.value, f.summary.value)
  {
    FenceBodyReadsBlock(pre, body, post);
  }

  const MissingFields: string := "workflowId and errorMessage are required"

  /** The HTTP reply: 400 with `success: false`, 200 with the summary, or
      500 with the fixed failure texts and the thrown error's message. */
  datatype FixReply =
    | Invalid(status: nat, error: string)
    | Fixed(workflowId: string, summary: Summary, fullResponse: string)
    | FixFailed(status: nat, workflowId: string, summary: Summary, error: string)

  const FailedSummary: Summary := Summary("Fix process failed", "None", "Error occurred during fix attempt")

  /** The POST handler. */
  function OnFix(req: FixRequest, executor: Executor, parse: string -> Option<SummaryFields>): (reply: FixReply)
    ensures reply.Invalid? <==> !Truthy(req.workflowId) || !Truthy(req.errorMessage)
    ensures reply.Invalid? ==> reply == Invalid(400, MissingFields)
    ensures reply.Fixed? ==> reply.workflowId == req.workflowId.value
    ensures reply.FixFailed? ==> reply.status == 500 && reply.workflowId == req.workflowId.value && reply.summary == FailedSummary
  {
    if !Truthy(req.workflowId) || !Truthy(req.errorMessage) then Invalid(400, MissingFields)
    else
      match executor([], BuildFixPrompt(req))
      case Failure(e) => FixFailed(500, req.workflowId.value, FailedSummary, e)
      case Success(x) =>
        Fixed(req.workflowId.value, ParseFixSummary(x.result.response, parse), x.result.response)
  }

  /** A request without its two required fields is answered without running
      the assistant: the reply does not depend on the executor at all. */
  lemma OnFixRejectsWithoutRunning(req: FixRequest, e1: Executor, e2: Executor, parse: string -> Option<SummaryFields>)
    requires !Truthy(req.workflowId) || !Truthy(req.errorMessage)
    ensures OnFix(req, e1, parse) == OnFix(req, e2, parse) == Invalid(400, MissingFields)
  {
  }

  /** A valid request runs the assistant once on the built prompt with an
      empty history; success echoes the response and its summary, a throw
      gives the failure reply carrying the error. */
  lemma OnFixRuns(req: FixRequest, executor: Executor, parse: string -> Option<SummaryFields>)
    requires Truthy(req.workflowId) && Truthy(req.errorMessage)
    ensures var run := executor([], BuildFixPrompt(req));
      && (run.Success? ==>
            OnFix(req, executor, parse)
              == Fixed(req.workflowId.value, ParseFixSummary(run.value.result.response, parse), run.value.result.response))
      && (run.Failure? ==> OnFix(req, executor, parse) == FixFailed(500, req.workflowId.value, FailedSummary, run.error))
  {
  }
}

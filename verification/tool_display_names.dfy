/** The chat client's names for tool calls: a fixed table of display names,
    a parallel table of status lines, and a formatter that turns any other
    snake_case or camelCase name into words. Each table is a lookup from a
    tool name to its entry, `None` standing for a name the table does not
    list; the object literal is cut into four groups of entries, in source
    order, so that each group can be compared with its counterpart on its
    own. */
module ToolDisplayNames {
  import opened Wrappers
  import opened Text

  const McpPrefix: string := "mcp__"
  const PartSeparator: string := "__"
  const Ellipsis: string := "..."
  /** The one tool whose status line is not its display name plus `...`. */
  const AskTool: string := "AskUserQuestion"

  /** The display names of the n8n MCP tools that act on one workflow or the workflow list. */
  function WorkflowToolName(toolName: string): Option<string> {
    match toolName
    case "mcp__n8n-mcp__n8n_create_workflow" => Some("Creating workflow")
    case "mcp__n8n-mcp__n8n_update_full_workflow" => Some("Updating workflow")
    case "mcp__n8n-mcp__n8n_update_partial_workflow" => Some("Updating workflow")
    case "mcp__n8n-mcp__n8n_get_workflow" => Some("Getting workflow")
    case "mcp__n8n-mcp__n8n_delete_workflow" => Some("Deleting workflow")
    case "mcp__n8n-mcp__n8n_list_workflows" => Some("Listing workflows")
    case "mcp__n8n-mcp__n8n_validate_workflow" => Some("Validating workflow")
    case "mcp__n8n-mcp__n8n_test_workflow" => Some("Testing workflow")
    case "mcp__n8n-mcp__n8n_autofix_workflow" => Some("Auto-fixing workflow")
    case _ => None
  }

  /** The status lines of the n8n MCP tools that act on one workflow or the workflow list. */
  function WorkflowToolVerb(toolName: string): Option<string> {
    match toolName
    case "mcp__n8n-mcp__n8n_create_workflow" => Some("Creating workflow...")
    case "mcp__n8n-mcp__n8n_update_full_workflow" => Some("Updating workflow...")
    case "mcp__n8n-mcp__n8n_update_partial_workflow" => Some("Updating workflow...")
    case "mcp__n8n-mcp__n8n_get_workflow" => Some("Getting workflow...")
    case "mcp__n8n-mcp__n8n_delete_workflow" => Some("Deleting workflow...")
    case "mcp__n8n-mcp__n8n_list_workflows" => Some("Listing workflows...")
    case "mcp__n8n-mcp__n8n_validate_workflow" => Some("Validating workflow...")
    case "mcp__n8n-mcp__n8n_test_workflow" => Some("Testing workflow...")
    case "mcp__n8n-mcp__n8n_autofix_workflow" => Some("Auto-fixing workflow...")
    case _ => None
  }

  /** The display names of the other n8n MCP tools. */
  function McpToolName(toolName: string): Option<string> {
    match toolName
    case "mcp__n8n-mcp__n8n_deploy_template" => Some("Deploying template")
    case "mcp__n8n-mcp__n8n_executions" => Some("Managing executions")
    case "mcp__n8n-mcp__n8n_health_check" => Some("Checking n8n health")
    case "mcp__n8n-mcp__n8n_workflow_versions" => Some("Managing versions")
    case "mcp__n8n-mcp__search_nodes" => Some("Searching nodes")
    case "mcp__n8n-mcp__get_node" => Some("Getting node info")
    case "mcp__n8n-mcp__validate_node" => Some("Validating node")
    case "mcp__n8n-mcp__get_template" => Some("Getting template")
    case "mcp__n8n-mcp__search_templates" => Some("Searching templates")
    case "mcp__n8n-mcp__validate_workflow" => Some("Validating workflow")
    case "mcp__n8n-mcp__tools_documentation" => Some("Reading documentation")
    case _ => None
  }

  /** The status lines of the other n8n MCP tools. */
  function McpToolVerb(toolName: string): Option<string> {
    match toolName
    case "mcp__n8n-mcp__n8n_deploy_template" => Some("Deploying template...")
    case "mcp__n8n-mcp__n8n_executions" => Some("Managing executions...")
    case "mcp__n8n-mcp__n8n_health_check" => Some("Checking n8n health...")
    case "mcp__n8n-mcp__n8n_workflow_versions" => Some("Managing versions...")
    case "mcp__n8n-mcp__search_nodes" => Some("Searching nodes...")
    case "mcp__n8n-mcp__get_node" => Some("Getting node info...")
    case "mcp__n8n-mcp__validate_node" => Some("Validating node...")
    case "mcp__n8n-mcp__get_template" => Some("Getting template...")
    case "mcp__n8n-mcp__search_templates" => Some("Searching templates...")
    case "mcp__n8n-mcp__validate_workflow" => Some("Validating workflow...")
    case "mcp__n8n-mcp__tools_documentation" => Some("Reading documentation...")
    case _ => None
  }

  /** The display names of the built-in file and shell tools. */
  function FileToolName(toolName: string): Option<string> {
    match toolName
    case "Read" => Some("Reading file")
    case "Write" => Some("Writing file")
    case "Edit" => Some("Editing file")
    case "Bash" => Some("Running command")
    case "Glob" => Some("Searching files")
    case "Grep" => Some("Searching content")
    case _ => None
  }

  /** The status lines of the built-in file and shell tools. */
  function FileToolVerb(toolName: string): Option<string> {
    match toolName
    case "Read" => Some("Reading file...")
    case "Write" => Some("Writing file...")
    case "Edit" => Some("Editing file...")
    case "Bash" => Some("Running command...")
    case "Glob" => Some("Searching files...")
    case "Grep" => Some("Searching content...")
    case _ => None
  }

  /** The display names of the other built-in tools. */
  function AgentToolName(toolName: string): Option<string> {
    match toolName
    case "Task" => Some("Running task")
    case "WebFetch" => Some("Fetching web content")
    case "WebSearch" => Some("Searching web")
    case "TodoWrite" => Some("Updating tasks")
    case "AskUserQuestion" => Some("Asking question")
    case "NotebookEdit" => Some("Editing notebook")
    case _ => None
  }

  /** The status lines of the other built-in tools. */
  function AgentToolVerb(toolName: string): Option<string> {
    match toolName
    case "Task" => Some("Running task...")
    case "WebFetch" => Some("Fetching web content...")
    case "WebSearch" => Some("Searching web...")
    case "TodoWrite" => Some("Updating tasks...")
    case "AskUserQuestion" => Some("Waiting for input...")
    case "NotebookEdit" => Some("Editing notebook...")
    case _ => None
  }

  /** The first of two lookups that finds an entry. */
  function FirstFound(a: Option<string>, b: Option<string>): (r: Option<string>)
    ensures r.Some? <==> a.Some? || b.Some?
  {
    if a.Some? then a else b
  }

  /** `toolDisplayNames[toolName]`. */
  function NameEntry(toolName: string): Option<string> {
    FirstFound(WorkflowToolName(toolName),
      FirstFound(McpToolName(toolName), FirstFound(FileToolName(toolName), AgentToolName(toolName))))
  }

  /** `toolActiveVerbs[toolName]`. */
  function VerbEntry(toolName: string): Option<string> {
    FirstFound(WorkflowToolVerb(toolName),
      FirstFound(McpToolVerb(toolName), FirstFound(FileToolVerb(toolName), AgentToolVerb(toolName))))
  }

  /** `name.replace(/_/g, ' ')`. */
  function UnderscoresToSpaces(s: string): (r: string)
    ensures |r| == |s|
    ensures forall k | 0 <= k < |s| :: r[k] == (if s[k] == '_' then ' ' else s[k])
    decreases |s|
  {
    if |s| == 0 then "" else [if s[0] == '_' then ' ' else s[0]] + UnderscoresToSpaces(s[1..])
  }

  /** `.replace(/([a-z])([A-Z])/g, '$1 $2')`: the scan goes left to right,
      and a match consumes both letters before the scan resumes. Only spaces
      are added, and the first character stays first. */
  function SpaceCamel(s: string): (r: string)
    ensures |r| >= |s|
    ensures |s| > 0 ==> r[0] == s[0]
    ensures forall k | 0 <= k < |r| :: r[k] == ' ' || r[k] in s
    decreases |s|
  {
    if |s| < 2 then s
    else if IsLowerAscii(s[0]) && IsUpperAscii(s[1]) then [s[0], ' ', s[1]] + SpaceCamel(s[2..])
    else [s[0]] + SpaceCamel(s[1..])
  }

  /** `.replace(/^./, str => str.toUpperCase())`: `.` does not match a line
      terminator, and only ASCII letters change case. */
  function UpperFirst(s: string): (r: string)
    ensures |r| == |s|
    ensures |s| > 0 ==> r[0] == if IsLineTerminator(s[0]) then s[0] else ToUpperAscii(s[0])
    ensures forall k | 1 <= k < |s| :: r[k] == s[k]
  {
    if |s| == 0 || IsLineTerminator(s[0]) then s else [ToUpperAscii(s[0])] + s[1..]
  }

  /** `formatToolName`: the result has no underscore, no whitespace at
      either end and no lowercase letter directly before an uppercase one. */
  function FormatToolName(name: string): (r: string)
    ensures Excludes(r, '_')
    ensures r != "" ==> !IsSpace(r[0]) && !IsSpace(r[|r| - 1])
    ensures NoCamelPair(r)
  {
    var x1 := UnderscoresToSpaces(name);
    var x2 := SpaceCamel(x1);
    SpaceCamelExcludes(x1, '_');
    SpaceCamelSeparates(x1);
    var x3 := UpperFirst(x2);
    UpperFirstKeeps(x2);
    TrimKeeps(x3);
    Trim(x3)
  }

  /** The last element of a non-empty sequence. */
  function Last(parts: seq<string>): string
    requires |parts| > 0
  {
    parts[|parts| - 1]
  }

  /** `getToolDisplayName`: the table entry when it is truthy; otherwise an
      `mcp__` name with at least three `__`-separated parts is formatted from
      its last part, and any other name as a whole. */
  function DisplayName(toolName: string): (r: string)
    ensures NameEntry(toolName).None? && !OccursAt(toolName, 0, McpPrefix) ==> r == FormatToolName(toolName)
  {
    if Truthy(NameEntry(toolName)) then NameEntry(toolName).value
    else if OccursAt(toolName, 0, McpPrefix) && |Split(toolName, PartSeparator)| >= 3 then
      FormatToolName(Last(Split(toolName, PartSeparator)))
    else FormatToolName(toolName)
  }

  /** `getToolActiveVerb`: for every tool except the question tool, the
      status line is the display name followed by `...`, whether it comes
      from the verb table or from the fallback. */
  function ActiveVerb(toolName: string): (verb: string)
    ensures toolName != AskTool ==> verb == DisplayName(toolName) + Ellipsis
  {
    TablesShareKeys(toolName);
    if VerbEntry(toolName).Some? && toolName != AskTool then
      VerbEntryFollowsName(toolName);
      DisplayNameListed(toolName);
      VerbEntry(toolName).value
    else if Truthy(VerbEntry(toolName)) then VerbEntry(toolName).value
    else DisplayName(toolName) + Ellipsis
  }

  /** `isN8nTool`: the name holds `n8n` somewhere. */
  function IsN8nTool(toolName: string): (b: bool)
    ensures b <==> exists x: string, y: string :: toolName == x + "n8n" + y
  {
    ContainsIffPieces(toolName, "n8n");
    Contains(toolName, "n8n")
  }

  /** `isWorkflowTool`: the name holds `workflow` or `Workflow` somewhere;
      the test is case-sensitive, so only these two spellings count. */
  function IsWorkflowTool(toolName: string): (b: bool)
    ensures b <==> exists x: string, y: string :: toolName == x + "workflow" + y || toolName == x + "Workflow" + y
  {
    ContainsIffPieces(toolName, "workflow");
    ContainsIffPieces(toolName, "Workflow");
    Contains(toolName, "workflow") || Contains(toolName, "Workflow")
  }

  // ---------------------------------------------------------------------
  // The tables

  /** The two tables agree on the n8n MCP tools that act on one workflow or the workflow list. */
  lemma WorkflowToolVerbsFollowNames(toolName: string)
    ensures WorkflowToolVerb(toolName).Some? <==> WorkflowToolName(toolName).Some?
    ensures WorkflowToolName(toolName).Some? ==> WorkflowToolName(toolName).value != "" && WorkflowToolVerb(toolName).value != ""
    ensures WorkflowToolVerb(toolName).Some? && toolName != AskTool ==>
              WorkflowToolVerb(toolName).value == WorkflowToolName(toolName).value + Ellipsis
  {
    match toolName
    case "mcp__n8n-mcp__n8n_create_workflow" => assert "Creating workflow..." == "Creating workflow" + Ellipsis;
    case "mcp__n8n-mcp__n8n_update_full_workflow" => assert "Updating workflow..." == "Updating workflow" + Ellipsis;
    case "mcp__n8n-mcp__n8n_update_partial_workflow" => assert "Updating workflow..." == "Updating workflow" + Ellipsis;
    case "mcp__n8n-mcp__n8n_get_workflow" => assert "Getting workflow..." == "Getting workflow" + Ellipsis;
    case "mcp__n8n-mcp__n8n_delete_workflow" => assert "Deleting workflow..." == "Deleting workflow" + Ellipsis;
    case "mcp__n8n-mcp__n8n_list_workflows" => assert "Listing workflows..." == "Listing workflows" + Ellipsis;
    case "mcp__n8n-mcp__n8n_validate_workflow" => assert "Validating workflow..." == "Validating workflow" + Ellipsis;
    case "mcp__n8n-mcp__n8n_test_workflow" => assert "Testing workflow..." == "Testing workflow" + Ellipsis;
    case "mcp__n8n-mcp__n8n_autofix_workflow" => assert "Auto-fixing workflow..." == "Auto-fixing workflow" + Ellipsis;
    case _ =>
  }

  /** The two tables agree on the other n8n MCP tools. */
  lemma McpToolVerbsFollowNames(toolName: string)
    ensures McpToolVerb(toolName).Some? <==> McpToolName(toolName).Some?
    ensures McpToolName(toolName).Some? ==> McpToolName(toolName).value != "" && McpToolVerb(toolName).value != ""
    ensures McpToolVerb(toolName).Some? && toolName != AskTool ==>
              McpToolVerb(toolName).value == McpToolName(toolName).value + Ellipsis
  {
    match toolName
    case "mcp__n8n-mcp__n8n_deploy_template" => assert "Deploying template..." == "Deploying template" + Ellipsis;
    case "mcp__n8n-mcp__n8n_executions" => assert "Managing executions..." == "Managing executions" + Ellipsis;
    case "mcp__n8n-mcp__n8n_health_check" => assert "Checking n8n health..." == "Checking n8n health" + Ellipsis;
    case "mcp__n8n-mcp__n8n_workflow_versions" => assert "Managing versions..." == "Managing versions" + Ellipsis;
    case "mcp__n8n-mcp__search_nodes" => assert "Searching nodes..." == "Searching nodes" + Ellipsis;
    case "mcp__n8n-mcp__get_node" => assert "Getting node info..." == "Getting node info" + Ellipsis;
    case "mcp__n8n-mcp__validate_node" => assert "Validating node..." == "Validating node" + Ellipsis;
    case "mcp__n8n-mcp__get_template" => assert "Getting template..." == "Getting template" + Ellipsis;
    case "mcp__n8n-mcp__search_templates" => assert "Searching templates..." == "Searching templates" + Ellipsis;
    case "mcp__n8n-mcp__validate_workflow" => assert "Validating workflow..." == "Validating workflow" + Ellipsis;
    case "mcp__n8n-mcp__tools_documentation" => assert "Reading documentation..." == "Reading documentation" + Ellipsis;
    case _ =>
  }

  /** The two tables agree on the built-in file and shell tools. */
  lemma FileToolVerbsFollowNames(toolName: string)
    ensures FileToolVerb(toolName).Some? <==> FileToolName(toolName).Some?
    ensures FileToolName(toolName).Some? ==> FileToolName(toolName).value != "" && FileToolVerb(toolName).value != ""
    ensures FileToolVerb(toolName).Some? && toolName != AskTool ==>
              FileToolVerb(toolName).value == FileToolName(toolName).value + Ellipsis
  {
    match toolName
    case "Read" => assert "Reading file..." == "Reading file" + Ellipsis;
    case "Write" => assert "Writing file..." == "Writing file" + Ellipsis;
    case "Edit" => assert "Editing file..." == "Editing file" + Ellipsis;
    case "Bash" => assert "Running command..." == "Running command" + Ellipsis;
    case "Glob" => assert "Searching files..." == "Searching files" + Ellipsis;
    case "Grep" => assert "Searching content..." == "Searching content" + Ellipsis;
    case _ =>
  }

  /** The two tables agree on the other built-in tools. */
  lemma AgentToolVerbsFollowNames(toolName: string)
    ensures AgentToolVerb(toolName).Some? <==> AgentToolName(toolName).Some?
    ensures AgentToolName(toolName).Some? ==> AgentToolName(toolName).value != "" && AgentToolVerb(toolName).value != ""
    ensures AgentToolVerb(toolName).Some? && toolName != AskTool ==>
              AgentToolVerb(toolName).value == AgentToolName(toolName).value + Ellipsis
  {
    match toolName
    case "Task" => assert "Running task..." == "Running task" + Ellipsis;
    case "WebFetch" => assert "Fetching web content..." == "Fetching web content" + Ellipsis;
    case "WebSearch" => assert "Searching web..." == "Searching web" + Ellipsis;
    case "TodoWrite" => assert "Updating tasks..." == "Updating tasks" + Ellipsis;
    case "AskUserQuestion" =>
    case "NotebookEdit" => assert "Editing notebook..." == "Editing notebook" + Ellipsis;
    case _ =>
  }

  /** Both tables list exactly the same tools, and every entry is truthy. */
  lemma TablesShareKeys(toolName: string)
    ensures VerbEntry(toolName).Some? <==> NameEntry(toolName).Some?
    ensures NameEntry(toolName).Some? ==> Truthy(NameEntry(toolName)) && Truthy(VerbEntry(toolName))
  {
    WorkflowToolVerbsFollowNames(toolName);
    McpToolVerbsFollowNames(toolName);
    FileToolVerbsFollowNames(toolName);
    AgentToolVerbsFollowNames(toolName);
  }

  /** A listed tool is shown by its table entry. */
  lemma DisplayNameListed(toolName: string)
    requires NameEntry(toolName).Some?
    ensures DisplayName(toolName) == NameEntry(toolName).value
  {
    TablesShareKeys(toolName);
  }

  /** A listed tool other than the question tool has as its status line
      its display name followed by `...`. */
  lemma VerbEntryFollowsName(toolName: string)
    requires VerbEntry(toolName).Some? && toolName != AskTool
    ensures NameEntry(toolName).Some? && VerbEntry(toolName).value == NameEntry(toolName).value + Ellipsis
  {
    WorkflowToolVerbsFollowNames(toolName);
    McpToolVerbsFollowNames(toolName);
    FileToolVerbsFollowNames(toolName);
    AgentToolVerbsFollowNames(toolName);
  }

  /** The question tool is the exception: it is shown as asking, but its
      status line says it waits for input. */
  lemma AskToolStatus()
    ensures DisplayName(AskTool) == "Asking question"
    ensures ActiveVerb(AskTool) == "Waiting for input..."
  {
    assert AgentToolName(AskTool) == Some("Asking question");
    assert AgentToolVerb(AskTool) == Some("Waiting for input...");
    WorkflowToolVerbsFollowNames(AskTool);
    McpToolVerbsFollowNames(AskTool);
    FileToolVerbsFollowNames(AskTool);
  }

  // ---------------------------------------------------------------------
  // The formatter

  /** No lowercase ASCII letter is directly followed by an uppercase one. */
  predicate NoCamelPair(s: string) {
    forall k | 0 <= k < |s| - 1 :: !(IsLowerAscii(s[k]) && IsUpperAscii(s[k + 1]))
  }

  /** `s` with every `c` dropped. */
  function Without(s: string, c: char): string
    decreases |s|
  {
    if |s| == 0 then "" else (if s[0] == c then "" else [s[0]]) + Without(s[1..], c)
  }

  lemma {:induction false} WithoutConcat(a: string, b: string, c: char)
    ensures Without(a + b, c) == Without(a, c) + Without(b, c)
    decreases |a|
  {
    if |a| == 0 {
      assert a + b == b;
    } else {
      assert (a + b)[0] == a[0] && (a + b)[1..] == a[1..] + b;
      WithoutConcat(a[1..], b, c);
    }
  }

  /** Text made only of `c` drops to nothing. */
  lemma {:induction false} WithoutOnly(s: string, c: char)
    requires forall k | 0 <= k < |s| :: s[k] == c
    ensures Without(s, c) == ""
    decreases |s|
  {
    if |s| > 0 {
      WithoutOnly(s[1..], c);
    }
  }

  /** After the camel-case pass no lowercase letter touches a following
      uppercase one. */
  lemma {:induction false} SpaceCamelSeparates(s: string)
    ensures NoCamelPair(SpaceCamel(s))
    decreases |s|
  {
    if |s| >= 2 {
      if IsLowerAscii(s[0]) && IsUpperAscii(s[1]) {
        SpaceCamelSeparates(s[2..]);
      } else {
        SpaceCamelSeparates(s[1..]);
      }
    }
  }

  /** The camel-case pass only inserts spaces: dropping every space gives
      the same text before and after. */
  lemma {:induction false} SpaceCamelKeepsText(s: string)
    ensures Without(SpaceCamel(s), ' ') == Without(s, ' ')
    decreases |s|
  {
    if |s| >= 2 {
      if IsLowerAscii(s[0]) && IsUpperAscii(s[1]) {
        SpaceCamelKeepsText(s[2..]);
        WithoutConcat([s[0], ' ', s[1]], SpaceCamel(s[2..]), ' ');
        assert s == [s[0], s[1]] + s[2..];
        WithoutConcat([s[0], s[1]], s[2..], ' ');
      } else {
        SpaceCamelKeepsText(s[1..]);
        WithoutConcat([s[0]], SpaceCamel(s[1..]), ' ');
        assert s == [s[0]] + s[1..];
        WithoutConcat([s[0]], s[1..], ' ');
      }
    }
  }

  /** The camel-case pass adds no character but spaces. */
  lemma SpaceCamelExcludes(s: string, c: char)
    requires c != ' ' && Excludes(s, c)
    ensures Excludes(SpaceCamel(s), c)
  {
    var r := SpaceCamel(s);
    forall k | 0 <= k < |r| ensures r[k] != c {
      if r[k] != ' ' {
        var j :| 0 <= j < |s| && s[j] == r[k];
      }
    }
  }

  /** The capitalised text keeps every property the camel-case pass gave. */
  lemma UpperFirstKeeps(s: string)
    requires Excludes(s, '_') && NoCamelPair(s)
    ensures Excludes(UpperFirst(s), '_') && NoCamelPair(UpperFirst(s))
  {
    var r := UpperFirst(s);
    if |s| > 1 {
      assert r[0] == s[0] || (IsUpperAscii(r[0]) && IsLowerAscii(s[0]));
      assert r[1] == s[1];
    }
  }

  /** A piece of a text keeps what holds of every character and every
      adjacent pair of the text. */
  lemma SliceKeeps(x: string, a: nat, r: string)
    requires a + |r| <= |x| && x[a..a + |r|] == r
    requires Excludes(x, '_') && NoCamelPair(x)
    ensures Excludes(r, '_') && NoCamelPair(r)
  {
    assert forall k | 0 <= k < |r| :: r[k] == x[a + k];
  }

  /** Trimming keeps them too. */
  lemma TrimKeeps(x: string)
    requires Excludes(x, '_') && NoCamelPair(x)
    ensures Excludes(Trim(x), '_') && NoCamelPair(Trim(x))
  {
    var r := Trim(x);
    var a :| 0 <= a <= |x| - |r| && TrimmedAt(x, a, r);
    SliceKeeps(x, a, r);
  }

  /** A name that starts with a lowercase letter comes out starting with
      that letter in uppercase. */
  lemma FormatToolNameCapitalizes(name: string)
    requires |name| > 0 && IsLowerAscii(name[0])
    ensures |FormatToolName(name)| > 0 && FormatToolName(name)[0] == ToUpperAscii(name[0])
  {
    var x1 := UnderscoresToSpaces(name);
    var x2 := SpaceCamel(x1);
    var x3 := UpperFirst(x2);
    assert x3[0] == ToUpperAscii(name[0]);
    assert !AllSpace(x3) by {
      assert !IsSpace(x3[0]);
    }
    var r := Trim(x3);
    var a :| 0 <= a <= |x3| - |r| && TrimmedAt(x3, a, r);
    assert a == 0;
    assert r[0] == x3[0];
  }

  /** With no space in the text, turning underscores into spaces and then
      dropping the spaces drops exactly the underscores. */
  lemma {:induction false} UnderscoresDropped(s: string)
    requires Excludes(s, ' ')
    ensures Without(UnderscoresToSpaces(s), ' ') == Without(s, '_')
    decreases |s|
  {
    if |s| > 0 {
      var u := UnderscoresToSpaces(s);
      assert u[1..] == UnderscoresToSpaces(s[1..]);
      UnderscoresDropped(s[1..]);
    }
  }

  /** A text's first character other than `c` is kept in front of the
      rest with `c` dropped. */
  lemma WithoutFirst(s: string, c: char)
    requires |s| > 0 && s[0] != c
    ensures Without(s, c) == [s[0]] + Without(s[1..], c)
  {
  }

  /** Before the trim, the formatter has kept the letters. */
  lemma CapitalizedKeepsText(name: string)
    requires |name| > 0 && name[0] != '_'
    requires forall k | 0 <= k < |name| :: !IsSpace(name[k])
    ensures var x3 := UpperFirst(SpaceCamel(UnderscoresToSpaces(name)));
      |x3| > 0 && !IsSpace(x3[0]) && Without(x3, ' ') == [ToUpperAscii(name[0])] + Without(name[1..], '_')
  {
    var x1 := UnderscoresToSpaces(name);
    var x2 := SpaceCamel(x1);
    var x3 := UpperFirst(x2);
    UnderscoresDropped(name);
    SpaceCamelKeepsText(x1);
    assert x2[0] == name[0];
    WithoutFirst(x2, ' ');
    WithoutFirst(name, '_');
    assert ([name[0]] + Without(x2[1..], ' '))[1..] == Without(x2[1..], ' ');
    assert ([name[0]] + Without(name[1..], '_'))[1..] == Without(name[1..], '_');
    assert x3[1..] == x2[1..];
    WithoutFirst(x3, ' ');
  }

  /** The only whitespace the formatter leaves before the trim in a name
      without whitespace is the space it writes itself. */
  lemma FormattedBlanksAreSpaces(name: string)
    requires forall k | 0 <= k < |name| :: !IsSpace(name[k])
    ensures var x3 := UpperFirst(SpaceCamel(UnderscoresToSpaces(name)));
      forall k | 0 <= k < |x3| && IsSpace(x3[k]) :: x3[k] == ' '
  {
    var x1 := UnderscoresToSpaces(name);
    var x2 := SpaceCamel(x1);
    var x3 := UpperFirst(x2);
    forall k | 0 <= k < |x3| && IsSpace(x3[k])
      ensures x3[k] == ' '
    {
    }
  }

  /** Trimming text that starts with a non-blank and whose only blank is
      the space drops nothing but spaces. */
  lemma TrimKeepsText(x: string)
    requires |x| > 0 && !IsSpace(x[0])
    requires forall k | 0 <= k < |x| && IsSpace(x[k]) :: x[k] == ' '
    ensures Without(Trim(x), ' ') == Without(x, ' ')
  {
    var r := Trim(x);
    var a :| 0 <= a <= |x| - |r| && TrimmedAt(x, a, r);
    assert a == 0;
    assert x == r + x[|r|..];
    WithoutConcat(r, x[|r|..], ' ');
    WithoutOnly(x[|r|..], ' ');
  }

  /** The formatter keeps the letters: for a name without whitespace whose
      first character is not `_`, dropping the spaces from the display form
      gives the first character upper-cased and then the rest of the name
      without its underscores. */
  lemma FormatToolNameKeepsText(name: string)
    requires |name| > 0 && name[0] != '_'
    requires forall k | 0 <= k < |name| :: !IsSpace(name[k])
    ensures Without(FormatToolName(name), ' ') == [ToUpperAscii(name[0])] + Without(name[1..], '_')
  {
    var x3 := UpperFirst(SpaceCamel(UnderscoresToSpaces(name)));
    CapitalizedKeepsText(name);
    FormattedBlanksAreSpaces(name);
    TrimKeepsText(x3);
  }

  /** An unlisted `mcp__` name with three parts is shown by its last part
      alone, underscores within the parts included. */
  lemma DisplayNameOfMcpTool(server: string, tool: string)
    requires !Contains(server, PartSeparator) && !Contains(tool, PartSeparator)
    requires |server| == 0 || server[|server| - 1] != '_'
    requires NameEntry(McpPrefix + server + PartSeparator + tool).None?
    ensures DisplayName(McpPrefix + server + PartSeparator + tool) == FormatToolName(tool)
  {
    McpToolParts(server, tool);
  }

  /** A part that does not end in `_` cannot start a separator that runs
      past its end. */
  lemma SeparatorNoOverhang(a: string)
    requires |a| == 0 || a[|a| - 1] != '_'
    ensures NoOverhang(a, PartSeparator)
  {
    forall k | 0 < k < |PartSeparator| && k <= |a|
      ensures a[|a| - k..] != PartSeparator[..k]
    {
      assert a[|a| - k..][0] == a[|a| - 1];
    }
  }

  /** Such a name starts with the prefix and splits into exactly its three
      parts: the server part cannot end in `_`, or its last underscore
      would start the separator early. */
  lemma McpToolParts(server: string, tool: string)
    requires !Contains(server, PartSeparator) && !Contains(tool, PartSeparator)
    requires |server| == 0 || server[|server| - 1] != '_'
    ensures var t := McpPrefix + server + PartSeparator + tool;
      OccursAt(t, 0, McpPrefix) && Split(t, PartSeparator) == ["mcp", server, tool]
  {
    var rest := server + PartSeparator + tool;
    var t := McpPrefix + server + PartSeparator + tool;
    assert t == "mcp" + PartSeparator + rest;
    assert !Contains("mcp", PartSeparator) by {
      forall j | 0 <= j ensures !OccursAt("mcp", j, PartSeparator) {
        NoOccurrenceWithout("mcp", PartSeparator, j);
      }
    }
    SeparatorNoOverhang("mcp");
    SeparatorNoOverhang(server);
    SplitFirst("mcp", PartSeparator, rest);
    SplitFirst(server, PartSeparator, tool);
    SplitWhole(tool, PartSeparator);
    assert t[0..|McpPrefix|] == McpPrefix;
  }

  // ---------------------------------------------------------------------
  // The two classifiers

  /** Every tool of the n8n MCP server is an n8n tool. */
  lemma N8nServerToolsAreN8nTools(tool: string)
    ensures IsN8nTool(McpPrefix + "n8n-mcp" + PartSeparator + tool)
  {
    var t := McpPrefix + "n8n-mcp" + PartSeparator + tool;
    assert OccursAt(t, 5, "n8n");
  }

  /** A name with no `n` at all is not an n8n tool. */
  lemma NotN8nToolWithoutN(toolName: string)
    requires Excludes(toolName, 'n')
    ensures !IsN8nTool(toolName)
  {
    forall j | 0 <= j <= |toolName| ensures !OccursAt(toolName, j, "n8n") {
      NoOccurrenceWithout(toolName, "n8n", j);
    }
  }

  /** A name mentioning `workflow` or `Workflow` anywhere is a workflow tool. */
  lemma WorkflowToolsMention(before: string, after: string)
    ensures IsWorkflowTool(before + "workflow" + after)
    ensures IsWorkflowTool(before + "Workflow" + after)
  {
    OccursBetween(before, "workflow", after);
    OccursBetween(before, "Workflow", after);
  }

  /** A name with neither `w` nor `W` is not a workflow tool. */
  lemma NotWorkflowToolWithoutW(toolName: string)
    requires Excludes(toolName, 'w') && Excludes(toolName, 'W')
    ensures !IsWorkflowTool(toolName)
  {
    forall j | 0 <= j <= |toolName|
      ensures !OccursAt(toolName, j, "workflow") && !OccursAt(toolName, j, "Workflow")
    {
      NoOccurrenceWithout(toolName, "workflow", j);
      NoOccurrenceWithout(toolName, "Workflow", j);
    }
  }
}

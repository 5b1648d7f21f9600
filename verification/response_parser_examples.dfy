/** The documented example texts of the extractor, each shown to yield its
    id. The texts are stated for every id rather than one literal, which is
    stronger and keeps the proofs symbolic: each proof locates the leftmost
    match of one pattern, shows that every earlier start position fails on
    its first character, and then records the capture. */
module ResponseParserExamples {
  import opened Wrappers
  import opened Text
  import opened ResponseParser

  predicate AllSeparators(t: string) {
    forall k | 0 <= k < |t| :: IsSeparator(t[k])
  }

  /** A piece placed between two others occurs at its offset. */
  lemma Slices(pre: string, kw: string, sep: string, id: string, post: string)
    requires |id| > 0
    ensures var s := pre + kw + sep + id + post;
      var p := |pre|; var q := p + |kw|; var a := q + |sep|; var e := a + |id|;
      && s[p..q] == kw && s[q..a] == sep && s[a..e] == id && s[a] == id[0]
      && (e < |s| ==> s[e] == post[0])
  {
  }

  /** Case-insensitive occurrences survive being embedded in a longer text. */
  lemma IgnoringCaseIn(a: string, b: string, c: string, d: nat, lit: string)
    requires OccursAtIgnoringCase(b, d, lit)
    ensures OccursAtIgnoringCase(a + b + c, |a| + d, lit)
  {
    var s := a + b + c;
    forall k | 0 <= k < |lit| ensures ToLowerAscii(s[|a| + d + k]) == lit[k] {
      assert s[|a| + d + k] == b[d + k];
    }
  }

  /** A case-insensitive spelling of the keyword at `p`. */
  lemma KeywordAt(s: string, p: nat, kw: string, keyword: string)
    requires |kw| == |keyword| && OccursAtIgnoringCase(kw, 0, keyword)
    requires OccursAt(s, p, kw)
    ensures OccursAtIgnoringCase(s, p, keyword)
  {
    forall k | 0 <= k < |keyword| ensures ToLowerAscii(s[p + k]) == keyword[k] {
      assert s[p + k] == s[p..p + |kw|][k];
    }
  }

  /** A separator run ended by an id character. */
  lemma SeparatorsAt(s: string, q: nat, sep: string)
    requires |sep| > 0 && AllSeparators(sep)
    requires OccursAt(s, q, sep)
    requires q + |sep| < |s| && IsIdChar(s[q + |sep|])
    ensures Run(s, q, IsSeparator) == |sep|
  {
    forall k | q <= k < q + |sep| ensures IsSeparator(s[k]) {
      assert s[k] == s[q..q + |sep|][k - q];
    }
    RunIs(s, q, |sep|, IsSeparator);
  }

  /** The keyword matcher, given the extent of each of its parts. */
  lemma KeywordIdAtIs(s: string, p: nat, keyword: string, quoted: bool, a: nat, id: string)
    requires OccursAtIgnoringCase(s, p, keyword)
    requires p + |keyword| < a && Run(s, p + |keyword|, IsSeparator) == a - (p + |keyword|)
    requires IdAt(s, a) == Some(Hit(id, a + |id|))
    requires a + |id| == |s| || !IsQuote(s[a + |id|])
    ensures KeywordIdAt(s, p, keyword, quoted) == Some(Hit(id, a + |id|))
  {
  }

  /** The pieces of `pre + kw + sep + id + post`, located. */
  lemma Pieces(pre: string, kw: string, sep: string, id: string, post: string)
    requires |id| > 0
    ensures var s := pre + kw + sep + id + post;
      var p := |pre|; var q := p + |kw|; var a := q + |sep|; var e := a + |id|;
      && OccursAt(s, p, kw) && OccursAt(s, q, sep) && OccursAt(s, a, id)
      && (e < |s| ==> s[e] == post[0])
  {
    Slices(pre, kw, sep, id, post);
  }

  /** Text holding, from `p` on, a spelling `kw` of the keyword, separators
      `sep` and an id not continued by an id character or a quote, matches
      the keyword pattern at `p`, capturing `id`. */
  lemma KeywordForm(s: string, p: nat, kw: string, sep: string, id: string, keyword: string, quoted: bool)
    requires |kw| == |keyword| && OccursAtIgnoringCase(kw, 0, keyword)
    requires |sep| > 0 && AllSeparators(sep)
    requires IsId(id) && |id| > 0
    requires OccursAt(s, p, kw) && OccursAt(s, p + |kw|, sep) && OccursAt(s, p + |kw| + |sep|, id)
    requires var e := p + |kw| + |sep| + |id|; e == |s| || (!IsIdChar(s[e]) && !IsQuote(s[e]))
    ensures KeywordIdAt(s, p, keyword, quoted) == Some(Hit(id, p + |kw| + |sep| + |id|))
  {
    var a := p + |kw| + |sep|;
    KeywordAt(s, p, kw, keyword);
    assert s[a] == id[0] by {
      assert s[a..a + |id|][0] == s[a];
    }
    SeparatorsAt(s, p + |kw|, sep);
    IdAtIs(s, a, id);
    KeywordIdAtIs(s, p, keyword, quoted, a, id);
  }

  /** No start position inside `pre` begins the keyword when no character
      of `pre` is, in either case, the keyword's first letter. */
  lemma KeywordAbsentIn(pre: string, rest: string, keyword: string, quoted: bool)
    requires |keyword| > 0
    requires forall p | 0 <= p < |pre| :: ToLowerAscii(pre[p]) != keyword[0]
    ensures forall p | 0 <= p < |pre| :: KeywordIdAt(pre + rest, p, keyword, quoted).None?
  {
    forall p | 0 <= p < |pre| ensures KeywordIdAt(pre + rest, p, keyword, quoted).None? {
      assert (pre + rest)[p] == pre[p];
    }
  }

  /** An empty first or last piece adds nothing. */
  lemma NoPre(kw: string, sep: string, id: string, post: string)
    ensures "" + kw + sep + id + post == kw + sep + id + post
  {
  }

  lemma NoPreNoPost(kw: string, sep: string, id: string)
    ensures "" + kw + sep + id + "" == kw + sep + id
  {
  }

  lemma ColonSpace()
    ensures AllSeparators(": ")
  {
  }

  /** `kw` spells `keyword` in some mix of cases. */
  lemma Spelled(kw: string, keyword: string)
    requires |kw| == |keyword| && forall k | 0 <= k < |kw| :: ToLowerAscii(kw[k]) == keyword[k]
    ensures OccursAtIgnoringCase(kw, 0, keyword)
  {
  }

  /** The first documented example, for any id. */
  function CreatedText(id: string): string {
    "I have " + "Created workflow" + ": " + id + " for you."
  }

  lemma CreatedWorkflowMatch(id: string)
    requires IsId(id) && |id| >= 3
    ensures MatchAt(CreatedWorkflow, "I have " + "Created workflow" + ": " + id + " for you.", 7) == Some(Hit(id, 25 + |id|))
  {
    ColonSpace();
    Spelled("Created workflow", "created workflow");
    Pieces("I have ", "Created workflow", ": ", id, " for you.");
    KeywordForm("I have " + "Created workflow" + ": " + id + " for you.", 7, "Created workflow", ": ", id, "created workflow", false);
  }

  lemma CreatedWorkflowEarlier(id: string)
    ensures forall p | 0 <= p < 7 :: MatchAt(CreatedWorkflow, CreatedText(id), p).None?
  {
    var rest := "Created workflow" + ": " + id + " for you.";
    assert CreatedText(id) == "I have " + rest;
    KeywordAbsentIn("I have ", rest, "created workflow", false);
  }

  /** "I have Created workflow: <id> for you." yields the id. */
  lemma CreatedWorkflowExample(id: string)
    requires IsId(id) && |id| >= 3
    ensures id in WorkflowIds(CreatedText(id))
  {
    CreatedWorkflowMatch(id);
    assert CreatedText(id) == "I have " + "Created workflow" + ": " + id + " for you.";
    CreatedWorkflowEarlier(id);
    ExecFindsFirst(CreatedWorkflow, CreatedText(id), 0, 7);
    FirstMatchRecorded(CreatedWorkflow, CreatedText(id), Hit(id, 25 + |id|));
  }

  function UpdatedText(id: string): string {
    "Updated workflow" + ": " + id + " successfully."
  }

  lemma UpdatedWorkflowMatch(id: string)
    requires IsId(id) && |id| >= 3
    ensures MatchAt(UpdatedWorkflow, "Updated workflow" + ": " + id + " successfully.", 0) == Some(Hit(id, 18 + |id|))
  {
    NoPre("Updated workflow", ": ", id, " successfully.");
    ColonSpace();
    Spelled("Updated workflow", "updated workflow");
    Pieces("", "Updated workflow", ": ", id, " successfully.");
    KeywordForm("Updated workflow" + ": " + id + " successfully.", 0, "Updated workflow", ": ", id, "updated workflow", false);
  }

  /** "Updated workflow: <id> successfully." yields the id. */
  lemma UpdatedWorkflowExample(id: string)
    requires IsId(id) && |id| >= 3
    ensures id in WorkflowIds(UpdatedText(id))
  {
    UpdatedWorkflowMatch(id);
    assert UpdatedText(id) == "Updated workflow" + ": " + id + " successfully.";
    FirstMatchRecorded(UpdatedWorkflow, UpdatedText(id), Hit(id, 18 + |id|));
  }

  function SnakeText(id: string): string {
    "workflow_id" + ": " + id
  }

  lemma WorkflowIdSnakeMatch(id: string)
    requires IsId(id) && |id| >= 3
    ensures MatchAt(WorkflowIdSnake, "workflow_id" + ": " + id, 0) == Some(Hit(id, 13 + |id|))
  {
    NoPreNoPost("workflow_id", ": ", id);
    ColonSpace();
    Spelled("workflow_id", "workflow_id");
    Pieces("", "workflow_id", ": ", id, "");
    KeywordForm("workflow_id" + ": " + id, 0, "workflow_id", ": ", id, "workflow_id", true);
    MatchAtCases("workflow_id" + ": " + id, 0);
  }

  /** "workflow_id: <id>" yields the id. */
  lemma WorkflowIdSnakeExample(id: string)
    requires IsId(id) && |id| >= 3
    ensures id in WorkflowIds(SnakeText(id))
  {
    WorkflowIdSnakeMatch(id);
    assert SnakeText(id) == "workflow_id" + ": " + id;
    FirstMatchRecorded(WorkflowIdSnake, SnakeText(id), Hit(id, 13 + |id|));
  }

  function UpperCaseText(id: string): string {
    "CREATED WORKFLOW" + ": " + id
  }

  lemma UpperCaseMatch(id: string)
    requires IsId(id) && |id| >= 3
    ensures MatchAt(CreatedWorkflow, "CREATED WORKFLOW" + ": " + id, 0) == Some(Hit(id, 18 + |id|))
  {
    NoPreNoPost("CREATED WORKFLOW", ": ", id);
    ColonSpace();
    Spelled("CREATED WORKFLOW", "created workflow");
    Pieces("", "CREATED WORKFLOW", ": ", id, "");
    KeywordForm("CREATED WORKFLOW" + ": " + id, 0, "CREATED WORKFLOW", ": ", id, "created workflow", false);
    MatchAtCases("CREATED WORKFLOW" + ": " + id, 0);
  }

  /** The keyword patterns ignore case: "CREATED WORKFLOW: <id>" yields the id. */
  lemma UpperCaseExample(id: string)
    requires IsId(id) && |id| >= 3
    ensures id in WorkflowIds(UpperCaseText(id))
  {
    UpperCaseMatch(id);
    assert UpperCaseText(id) == "CREATED WORKFLOW" + ": " + id;
    FirstMatchRecorded(CreatedWorkflow, UpperCaseText(id), Hit(id, 18 + |id|));
  }

  /** The parts of `workflowId: "<id>"`. */
  lemma WorkflowIdKeyParts(id: string)
    requires IsId(id) && |id| >= 3
    ensures var s := "workflowId" + ": " + "\"" + id + "\"";
      && OccursAtIgnoringCase(s, 0, "workflowid")
      && Run(s, 10, IsSeparator) == 2
      && s[12] == '"'
      && IdAt(s, 13) == Some(Hit(id, 13 + |id|))
      && s[13 + |id|] == '"'
  {
    var s := "workflowId" + ": " + "\"" + id + "\"";
    assert s[..10] == "workflowId";
    Spelled("workflowId", "workflowid");
    KeywordAt(s, 0, "workflowId", "workflowid");
    assert s[10] == ':' && s[11] == ' ' && s[12] == '"';
    RunIs(s, 10, 2, IsSeparator);
    assert s[13..13 + |id|] == id;
    assert s[13 + |id|] == '"';
    IdAtIs(s, 13, id);
  }

  /** `workflowId: "<id>"` matches pattern 4 at 0, quotes included. */
  lemma WorkflowIdKeyMatch(id: string)
    requires IsId(id) && |id| >= 3
    ensures MatchAt(WorkflowIdKey, "workflowId" + ": " + "\"" + id + "\"", 0) == Some(Hit(id, 14 + |id|))
  {
    WorkflowIdKeyParts(id);
  }

  function WorkflowIdKeyText(id: string): string {
    "workflowId" + ": " + "\"" + id + "\""
  }

  /** `workflowId: "<id>"` yields the id without its quotes. */
  lemma WorkflowIdKeyExample(id: string)
    requires IsId(id) && |id| >= 3
    ensures id in WorkflowIds(WorkflowIdKeyText(id))
  {
    WorkflowIdKeyMatch(id);
    assert WorkflowIdKeyText(id) == "workflowId" + ": " + "\"" + id + "\"";
    FirstMatchRecorded(WorkflowIdKey, WorkflowIdKeyText(id), Hit(id, 14 + |id|));
  }

  /** Occurrences in a suffix, located in the whole text. */
  lemma IgnoringCaseInSuffix(x: string, post: string, d: nat, lit: string)
    requires OccursAtIgnoringCase(post, d, lit)
    ensures OccursAtIgnoringCase(x + post, |x| + d, lit)
  {
    forall k | 0 <= k < |lit| ensures ToLowerAscii((x + post)[|x| + d + k]) == lit[k] {
      assert (x + post)[|x| + d + k] == post[d + k];
    }
  }

  /** Pattern 3 at `p`, given the extent of each of its parts. */
  lemma SentenceAtIs(s: string, p: nat, id: string, e: nat)
    requires OccursAtIgnoringCase(s, p, "workflow")
    requires Run(s, p + 8, IsSeparator) == 1
    requires IdAt(s, p + 9) == Some(Hit(id, p + 9 + |id|))
    requires p + 9 + |id| < |s| && s[p + 9 + |id|] == ' '
    requires StatusEnd(s, p + 9 + |id|) == Some(e)
    ensures SentenceAt(s, p) == Some(Hit(id, e))
  {
    var a := p + 9;
    var b := a + |id|;
    assert IsIdChar(s[a]) by {
      assert Run(s, a, IsIdChar) != 0;
    }
    assert SkipQuote(s, a) == a;
    assert SkipQuote(s, b) == b;
  }

  /** The text of the sentence example. */
  function SentenceText(id: string): string {
    "The " + "workflow" + " " + id + " has been created."
  }

  /** The head of the sentence example: keyword, separator and id. */
  lemma SentenceHead(id: string)
    requires IsId(id) && |id| >= 3
    ensures var s := "The " + "workflow" + " " + id + " has been created.";
      && OccursAtIgnoringCase(s, 4, "workflow")
      && Run(s, 12, IsSeparator) == 1
      && IdAt(s, 13) == Some(Hit(id, 13 + |id|))
  {
    var pre, kw, sep, post := "The ", "workflow", " ", " has been created.";
    var s := pre + kw + sep + id + post;
    assert OccursAtIgnoringCase(s, 4, "workflow") by {
      Spelled(kw, "workflow");
      Slices(pre, kw, sep, id, post);
      KeywordAt(s, 4, kw, "workflow");
    }
    assert Run(s, 12, IsSeparator) == 1 by {
      Slices(pre, kw, sep, id, post);
      SeparatorsAt(s, 12, sep);
    }
    assert IdAt(s, 13) == Some(Hit(id, 13 + |id|)) by {
      Slices(pre, kw, sep, id, post);
      IdAtIs(s, 13, id);
    }
  }

  /** The tail of the sentence example: one space and "has been created". */
  lemma SentenceTail(id: string)
    ensures var s := "The " + "workflow" + " " + id + " has been created.";
      var e := 13 + |id|;
      && s[e] == ' '
      && StatusEnd(s, e) == Some(e + 17)
  {
    var x, post := "The " + "workflow" + " " + id, " has been created.";
    var s := x + post;
    var e := 13 + |id|;
    assert StatusEnd(s, e) == Some(e + 17) by {
      assert s[e] == post[0] && s[e + 1] == post[1];
      RunIs(s, e, 1, IsSpace);
      IgnoringCaseInSuffix(x, post, 1, "has been ");
      IgnoringCaseInSuffix(x, post, 10, "created");
      assert PhraseEnd(s, e + 1) == Some(e + 17);
    }
  }

  /** "The workflow <id> has been created." matches pattern 3 at 4. */
  lemma SentenceMatch(id: string)
    requires IsId(id) && |id| >= 3
    ensures MatchAt(WorkflowSentence, "The " + "workflow" + " " + id + " has been created.", 4) == Some(Hit(id, 13 + |id| + 17))
  {
    SentenceHead(id);
    SentenceTail(id);
    SentenceAtIs("The " + "workflow" + " " + id + " has been created.", 4, id, 13 + |id| + 17);
  }

  lemma SentenceEarlier(id: string)
    ensures forall p | 0 <= p < 4 :: MatchAt(WorkflowSentence, SentenceText(id), p).None?
  {
    var s := SentenceText(id);
    forall p | 0 <= p < 4 ensures MatchAt(WorkflowSentence, s, p).None? {
      assert s[p] == "The "[p];
      assert p == 0 || p == 1 || p == 2 || p == 3;
      assert ToLowerAscii(s[p]) != "workflow"[0];
    }
  }

  /** "The workflow <id> has been created." yields the id. */
  lemma SentenceExample(id: string)
    requires IsId(id) && |id| >= 3
    ensures id in WorkflowIds(SentenceText(id))
  {
    SentenceMatch(id);
    assert SentenceText(id) == "The " + "workflow" + " " + id + " has been created.";
    SentenceEarlier(id);
    ExecFindsFirst(WorkflowSentence, SentenceText(id), 0, 4);
    FirstMatchRecorded(WorkflowSentence, SentenceText(id), Hit(id, 13 + |id| + 17));
  }

  /** The id marker of the JSON example. */
  lemma JsonHead(id: string)
    requires IsId(id) && |id| >= 3
    ensures var s := "\"id\": \"" + id + "\", \"type\": \"workflow\"";
      JsonIdAt(s, 0) == Some(Hit(id, 8 + |id|))
  {
    var x, post := "\"id\": \"", "\", \"type\": \"workflow\"";
    var s := x + id + post;
    var e := 7 + |id|;
    assert s[..5] == "\"id\":";
    assert s[5] == ' ' && s[6] == '"';
    RunIs(s, 5, 1, IsSpace);
    assert s[7..e] == id;
    assert s[e] == '"';
    IdAtIs(s, 7, id);
  }

  /** The id marker's line runs to the end of the JSON example. */
  lemma JsonLine(id: string)
    ensures var s := "\"id\": \"" + id + "\", \"type\": \"workflow\"";
      LineEnd(s, 8 + |id|) == |s|
  {
    var x, post := "\"id\": \"" + id, "\", \"type\": \"workflow\"";
    var s := x + post;
    var e := |x|;
    forall k | e + 1 <= k < |s| ensures !IsLineTerminator(s[k]) {
      assert s[k] == post[k - e];
    }
  }

  /** The type marker of the JSON example. */
  lemma JsonTail(id: string)
    ensures var s := "\"id\": \"" + id + "\", \"type\": \"workflow\"";
      JsonTypeEnd(s, 10 + |id|) == Some(|s|)
  {
    var x, post := "\"id\": \"" + id, "\", \"type\": \"workflow\"";
    var s := x + post;
    var e := |x|;
    assert |post| == 21;
    assert s[e + 3..e + 10] == post[3..10] == "\"type\":";
    assert s[e + 10] == ' ' && s[e + 11] == '"';
    RunIs(s, e + 10, 1, IsSpace);
    assert s[e + 11..e + 21] == post[11..21] == "\"workflow\"";
  }

  /** No type marker starts later on the line. */
  lemma JsonTailIsLast(id: string)
    ensures var s := "\"id\": \"" + id + "\", \"type\": \"workflow\"";
      forall k | 10 + |id| < k <= |s| :: JsonTypeEnd(s, k).None?
  {
    var x, post := "\"id\": \"" + id, "\", \"type\": \"workflow\"";
    var s := x + post;
    var e := |x|;
    assert |post| == 21;
    forall k | e + 3 < k <= |s| ensures JsonTypeEnd(s, k).None? {
      var d := k - e;
      if d <= 14 {
        assert s[k] == post[d] && s[k + 1] == post[d + 1];
        assert d == 4 || d == 5 || d == 6 || d == 7 || d == 8 || d == 9 || d == 10
            || d == 11 || d == 12 || d == 13 || d == 14;
        assert post[d] != '"' || post[d + 1] != 't';
      }
    }
  }

  /** The JSON example matches pattern 6 at 0, up to the end of the text. */
  lemma JsonMatch(id: string)
    requires IsId(id) && |id| >= 3
    ensures var s := "\"id\": \"" + id + "\", \"type\": \"workflow\"";
      MatchAt(JsonIdThenType, s, 0) == Some(Hit(id, |s|))
  {
    var s := "\"id\": \"" + id + "\", \"type\": \"workflow\"";
    var e := 7 + |id|;
    var idHit := Hit(id, e + 1);
    assert JsonIdAt(s, 0) == Some(idHit) by {
      JsonHead(id);
    }
    assert LineEnd(s, e + 1) == |s| by {
      JsonLine(id);
    }
    assert JsonTypeEnd(s, e + 3) == Some(|s|) by {
      JsonTail(id);
    }
    assert forall j | e + 3 < j <= LineEnd(s, idHit.end) :: JsonTypeEnd(s, j).None? by {
      JsonTailIsLast(id);
    }
    IdThenTypeAtIs(s, 0, idHit, e + 3, |s|);
  }

  function JsonText(id: string): string {
    "\"id\": \"" + id + "\", \"type\": \"workflow\""
  }

  /** `"id": "<id>", "type": "workflow"` yields the id. */
  lemma JsonExample(id: string)
    requires IsId(id) && |id| >= 3
    ensures id in WorkflowIds(JsonText(id))
  {
    JsonMatch(id);
    assert JsonText(id) == "\"id\": \"" + id + "\", \"type\": \"workflow\"";
    FirstMatchRecorded(JsonIdThenType, JsonText(id), Hit(id, |JsonText(id)|));
  }
}

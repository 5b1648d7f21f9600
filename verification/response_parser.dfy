/** Workflow-id extraction from free assistant text. Each of the seven global
    regular expressions is a hand-written matcher that reproduces the
    backtracking engine's leftmost match (`MatchAt` tries one start position,
    `Exec` the leftmost one at or after `lastIndex`). Ids are collected in
    pattern order, then match order, keeping the first copy of each id that
    is at least three characters long. */
module ResponseParser {
  import opened Wrappers
  import opened Text

  /** The seven patterns, in the order they are tried. Patterns 1-5 carry the
      `i` flag; the two JSON-shaped ones are case-sensitive. */
  datatype Pattern =
    | CreatedWorkflow   // created workflow[:\s]+(ID)
    | UpdatedWorkflow   // updated workflow[:\s]+(ID)
    | WorkflowSentence  // workflow[:\s]+['"]?(ID)['"]?\s+(?:has been |was )?(?:created|updated)
    | WorkflowIdKey     // workflowId[:\s]+['"]?(ID)['"]?
    | WorkflowIdSnake   // workflow_id[:\s]+['"]?(ID)['"]?
    | JsonIdThenType    // "id":\s*"(ID)".*"type":\s*"workflow"
    | JsonTypeThenId    // "type":\s*"workflow".*"id":\s*"(ID)"

  const Patterns: seq<Pattern> :=
    [CreatedWorkflow, UpdatedWorkflow, WorkflowSentence, WorkflowIdKey, WorkflowIdSnake, JsonIdThenType, JsonTypeThenId]

  /** The capture class `[a-zA-Z0-9_-]`. */
  predicate IsIdChar(c: char) {
    IsLowerAscii(c) || IsUpperAscii(c) || ('0' <= c <= '9') || c == '_' || c == '-'
  }

  predicate IsId(s: string) {
    forall k | 0 <= k < |s| :: IsIdChar(s[k])
  }

  /** The class `[:\s]`. */
  predicate IsSeparator(c: char) {
    c == ':' || IsSpace(c)
  }

  predicate IsQuote(c: char) {
    c == '\'' || c == '"'
  }

  /** A successful match: the text of capture group 1 and the index just past
      the match, which becomes the next `lastIndex`. */
  datatype Hit = Hit(id: string, end: nat)

  /** Length of the longest run of characters satisfying `p` starting at `i`:
      what a greedy `p+` or `p*` consumes. */
  function Run(s: string, i: nat, p: char -> bool): (n: nat)
    requires i <= |s|
    ensures i + n <= |s|
    ensures i + n == |s| || !p(s[i + n])
    decreases |s| - i
  {
    if i < |s| && p(s[i]) then 1 + Run(s, i + 1, p) else 0
  }

  /** Every character of a run satisfies the predicate. */
  lemma {:induction false} RunChars(s: string, i: nat, p: char -> bool)
    requires i <= |s|
    ensures forall k | i <= k < i + Run(s, i, p) :: p(s[k])
    decreases |s| - i
  {
    if i < |s| && p(s[i]) {
      RunChars(s, i + 1, p);
    }
  }

  /** `lit` (lower-case ASCII) occurs at `i` ignoring ASCII case, which is
      what the `i` flag does for these literals. */
  predicate OccursAtIgnoringCase(s: string, i: nat, lit: string) {
    i + |lit| <= |s| && forall k | 0 <= k < |lit| :: ToLowerAscii(s[i + k]) == lit[k]
  }

  /** One optional quote, taken greedily. */
  function SkipQuote(s: string, i: nat): (j: nat)
    requires i <= |s|
    ensures i <= j <= |s|
  {
    if i < |s| && IsQuote(s[i]) then i + 1 else i
  }

  /** The maximal id run at `i`, if it is non-empty. Backtracking to a shorter
      run never helps: every pattern needs a non-id character next. */
  function IdAt(s: string, i: nat): (h: Option<Hit>)
    requires i <= |s|
    ensures h.Some? ==> i < h.value.end <= |s| && h.value.id == s[i..h.value.end]
  {
    var n := Run(s, i, IsIdChar);
    if n == 0 then None else Some(Hit(s[i..i + n], i + n))
  }

  /** `keyword[:\s]+['"]?(ID)['"]?` at `p`, quotes allowed only when
      `quoted`. */
  function KeywordIdAt(s: string, p: nat, keyword: string, quoted: bool): (h: Option<Hit>)
    ensures h.Some? ==> p < h.value.end <= |s|
  {
    if !OccursAtIgnoringCase(s, p, keyword) then None
    else
      var q := p + |keyword|;
      var sep := Run(s, q, IsSeparator);
      if sep == 0 then None
      else
        var a := if quoted then SkipQuote(s, q + sep) else q + sep;
        match IdAt(s, a)
        case None => None
        case Some(h) =>
          Some(Hit(h.id, if quoted then SkipQuote(s, h.end) else h.end))
  }

  /** `(?:created|updated)` at `i`: the index just past it. */
  function VerbEnd(s: string, i: nat): (e: Option<nat>)
    ensures e.Some? ==> e.value == i + 7 <= |s|
  {
    if OccursAtIgnoringCase(s, i, "created") || OccursAtIgnoringCase(s, i, "updated") then Some(i + 7) else None
  }

  /** `(?:has been |was )?(?:created|updated)` at `i`, trying the alternatives
      in the engine's order. */
  function PhraseEnd(s: string, i: nat): (e: Option<nat>)
    ensures e.Some? ==> i < e.value <= |s|
  {
    if OccursAtIgnoringCase(s, i, "has been ") && VerbEnd(s, i + 9).Some? then VerbEnd(s, i + 9)
    else if OccursAtIgnoringCase(s, i, "was ") && VerbEnd(s, i + 4).Some? then VerbEnd(s, i + 4)
    else VerbEnd(s, i)
  }

  /** Pattern 3 at `p`. Every greedy quantifier in it is followed by a
      character its class excludes, so no backtracking changes the outcome. */
  function SentenceAt(s: string, p: nat): (h: Option<Hit>)
    ensures h.Some? ==> p < h.value.end <= |s|
  {
    if !OccursAtIgnoringCase(s, p, "workflow") then None
    else
      var q := p + 8;
      var sep := Run(s, q, IsSeparator);
      if sep == 0 then None
      else
        match IdAt(s, SkipQuote(s, q + sep))
        case None => None
        case Some(h) =>
          match StatusEnd(s, SkipQuote(s, h.end))
          case None => None
          case Some(e) => Some(Hit(h.id, e))
  }

  /** `\s+(?:has been |was )?(?:created|updated)` at `b`: the end of the
      sentence pattern. */
  function StatusEnd(s: string, b: nat): (e: Option<nat>)
    requires b <= |s|
    ensures e.Some? ==> b < e.value <= |s|
  {
    var w := Run(s, b, IsSpace);
    if w == 0 then None else PhraseEnd(s, b + w)
  }

  /** `"id":\s*"(ID)"` at `j` (case-sensitive). */
  function JsonIdAt(s: string, j: nat): (h: Option<Hit>)
    ensures h.Some? ==> j < h.value.end <= |s|
  {
    if !OccursAt(s, j, "\"id\":") then None
    else
      var q := j + 5;
      var a := q + Run(s, q, IsSpace);
      if !(a < |s| && s[a] == '"') then None
      else
        match IdAt(s, a + 1)
        case None => None
        case Some(h) =>
          if h.end < |s| && s[h.end] == '"' then Some(Hit(h.id, h.end + 1)) else None
  }

  /** Each pattern needs the word "workflow" somewhere, in some letter case. */
  predicate MentionsWorkflow(s: string) {
    exists i | 0 <= i <= |s| :: OccursAtIgnoringCase(s, i, "workflow")
  }

  lemma QuotedWorkflowMentions(s: string, e: nat)
    requires 10 <= e <= |s| && OccursAt(s, e - 10, "\"workflow\"")
    ensures MentionsWorkflow(s)
  {
    var i := e - 9;
    assert s[e - 10..e][1..9] == s[i..i + 8];
    assert OccursAtIgnoringCase(s, i, "workflow");
  }

  lemma KeywordMentions(s: string, p: nat, keyword: string, offset: nat)
    requires OccursAtIgnoringCase(s, p, keyword)
    requires offset + 8 <= |keyword| && keyword[offset..offset + 8] == "workflow"
    ensures MentionsWorkflow(s)
  {
    var i := p + offset;
    forall k | 0 <= k < 8 ensures ToLowerAscii(s[i + k]) == "workflow"[k] {
      assert keyword[offset + k] == "workflow"[k];
    }
    assert OccursAtIgnoringCase(s, i, "workflow");
  }

  /** `"type":\s*"workflow"` at `j` (case-sensitive): the index just past it. */
  function JsonTypeEnd(s: string, j: nat): (e: Option<nat>)
    ensures e.Some? ==> j < e.value <= |s|
  {
    if !OccursAt(s, j, "\"type\":") then None
    else
      var q := j + 7;
      var a := q + Run(s, q, IsSpace);
      if OccursAt(s, a, "\"workflow\"") then Some(a + 10) else None
  }

  /** First line terminator at or after `i`, or the end of the text: `.*`
      starting at `i` can consume up to there and no further. */
  function LineEnd(s: string, i: nat): (e: nat)
    requires i <= |s|
    ensures i <= e <= |s|
    ensures forall k | i <= k < e :: !IsLineTerminator(s[k])
    ensures e < |s| ==> IsLineTerminator(s[e])
    decreases |s| - i
  {
    if i == |s| || IsLineTerminator(s[i]) then i else LineEnd(s, i + 1)
  }

  /** The last type marker starting in `[lo, hi]`, with its end: greedy `.*`
      followed by a tail tries the longest prefix first. */
  function LastTypeMarker(s: string, lo: nat, hi: nat): (r: Option<(nat, nat)>)
    requires lo <= hi
    ensures r.Some? ==> lo <= r.value.0 <= hi && JsonTypeEnd(s, r.value.0) == Some(r.value.1)
    decreases hi
  {
    match JsonTypeEnd(s, hi)
    case Some(e) => Some((hi, e))
    case None => if hi == lo then None else LastTypeMarker(s, lo, hi - 1)
  }

  /** The search settles on the largest index where a type marker starts. */
  lemma {:induction false} LastTypeMarkerIs(s: string, lo: nat, hi: nat, k: nat)
    requires lo <= k <= hi && JsonTypeEnd(s, k).Some?
    requires forall j | k < j <= hi :: JsonTypeEnd(s, j).None?
    ensures LastTypeMarker(s, lo, hi) == Some((k, JsonTypeEnd(s, k).value))
    decreases hi
  {
    if hi > k {
      LastTypeMarkerIs(s, lo, hi - 1, k);
    }
  }

  /** The last id marker starting in `[lo, hi]`, with its capture. */
  function LastIdMarker(s: string, lo: nat, hi: nat): (r: Option<(nat, Hit)>)
    requires lo <= hi
    ensures r.Some? ==> lo <= r.value.0 <= hi && JsonIdAt(s, r.value.0) == Some(r.value.1)
    decreases hi
  {
    match JsonIdAt(s, hi)
    case Some(h) => Some((hi, h))
    case None => if hi == lo then None else LastIdMarker(s, lo, hi - 1)
  }

  /** The search settles on the largest index where an id marker starts. */
  lemma {:induction false} LastIdMarkerIs(s: string, lo: nat, hi: nat, k: nat)
    requires lo <= k <= hi && JsonIdAt(s, k).Some?
    requires forall j | k < j <= hi :: JsonIdAt(s, j).None?
    ensures LastIdMarker(s, lo, hi) == Some((k, JsonIdAt(s, k).value))
    decreases hi
  {
    if hi > k {
      LastIdMarkerIs(s, lo, hi - 1, k);
    }
  }

  /** Pattern 6 at `p`: the id marker, then the LAST type marker that starts
      on the same line after it. */
  function IdThenTypeAt(s: string, p: nat): (h: Option<Hit>)
    ensures h.Some? ==> p < h.value.end <= |s|
  {
    match JsonIdAt(s, p)
    case None => None
    case Some(idHit) =>
      match LastTypeMarker(s, idHit.end, LineEnd(s, idHit.end))
      case None => None
      case Some((_, e)) => Some(Hit(idHit.id, e))
  }

  /** Pattern 6 captures the id of its marker and ends after the last type
      marker on the marker's line. */
  lemma IdThenTypeAtIs(s: string, p: nat, idHit: Hit, k: nat, e: nat)
    requires JsonIdAt(s, p) == Some(idHit)
    requires idHit.end <= k <= LineEnd(s, idHit.end)
    requires JsonTypeEnd(s, k) == Some(e)
    requires forall j | k < j <= LineEnd(s, idHit.end) :: JsonTypeEnd(s, j).None?
    ensures IdThenTypeAt(s, p) == Some(Hit(idHit.id, e))
    ensures MatchAt(JsonIdThenType, s, p) == Some(Hit(idHit.id, e))
  {
    LastTypeMarkerIs(s, idHit.end, LineEnd(s, idHit.end), k);
  }

  /** Pattern 7 at `p`: the type marker, then the LAST id marker that starts
      on the same line after it; that last id is the capture. */
  function TypeThenIdAt(s: string, p: nat): (h: Option<Hit>)
    ensures h.Some? ==> p < h.value.end <= |s|
  {
    match JsonTypeEnd(s, p)
    case None => None
    case Some(k) =>
      match LastIdMarker(s, k, LineEnd(s, k))
      case None => None
      case Some((_, idHit)) => Some(idHit)
  }

  /** The match of `pat` starting exactly at `p`, if any. */
  function MatchAt(pat: Pattern, s: string, p: nat): (h: Option<Hit>)
    ensures h.Some? ==> p < h.value.end <= |s|
  {
    match pat
    case CreatedWorkflow => KeywordIdAt(s, p, "created workflow", false)
    case UpdatedWorkflow => KeywordIdAt(s, p, "updated workflow", false)
    case WorkflowSentence => SentenceAt(s, p)
    case WorkflowIdKey => KeywordIdAt(s, p, "workflowid", true)
    case WorkflowIdSnake => KeywordIdAt(s, p, "workflow_id", true)
    case JsonIdThenType => IdThenTypeAt(s, p)
    case JsonTypeThenId => TypeThenIdAt(s, p)
  }

  /** Which matcher each pattern runs. */
  lemma MatchAtCases(s: string, p: nat)
    ensures MatchAt(CreatedWorkflow, s, p) == KeywordIdAt(s, p, "created workflow", false)
    ensures MatchAt(UpdatedWorkflow, s, p) == KeywordIdAt(s, p, "updated workflow", false)
    ensures MatchAt(WorkflowSentence, s, p) == SentenceAt(s, p)
    ensures MatchAt(WorkflowIdKey, s, p) == KeywordIdAt(s, p, "workflowid", true)
    ensures MatchAt(WorkflowIdSnake, s, p) == KeywordIdAt(s, p, "workflow_id", true)
    ensures MatchAt(JsonIdThenType, s, p) == IdThenTypeAt(s, p)
  {
  }

  /** The smallest `k` in `[lo, hi]` at which `f` succeeds, with its value:
      how `exec` scans start positions left to right. */
  function FirstFrom<T>(lo: nat, hi: nat, f: nat -> Option<T>): (r: Option<(nat, T)>)
    requires lo <= hi
    ensures r.Some? ==> lo <= r.value.0 <= hi && f(r.value.0) == Some(r.value.1)
    ensures r.Some? ==> forall k | lo <= k < r.value.0 :: f(k).None?
    ensures r.None? ==> forall k | lo <= k <= hi :: f(k).None?
    decreases hi - lo
  {
    if f(lo).Some? then Some((lo, f(lo).value))
    else if lo == hi then None
    else FirstFrom(lo + 1, hi, f)
  }

  /** The scan settles on the first index where `f` succeeds. */
  lemma FirstFromIs<T>(lo: nat, hi: nat, f: nat -> Option<T>, j: nat)
    requires lo <= j <= hi && f(j).Some?
    requires forall p | lo <= p < j :: f(p).None?
    ensures FirstFrom(lo, hi, f) == Some((j, f(j).value))
  {
    var r := FirstFrom(lo, hi, f);
    assert r.Some? by {
      assert f(j).Some?;
    }
    assert r.value.0 == j by {
      assert f(r.value.0).Some?;
    }
  }

  /** `pattern.exec(s)` with `lastIndex == i`: the leftmost match at or after `i`. */
  function Exec(pat: Pattern, s: string, i: nat): (h: Option<Hit>)
    requires i <= |s|
    ensures h.Some? ==> i < h.value.end <= |s|
  {
    match FirstFrom(i, |s|, p => MatchAt(pat, s, p))
    case None => None
    case Some((_, h)) => Some(h)
  }

  /** The capture of every match the `while (exec)` loop finds from `lastIndex == i`. */
  function Captures(pat: Pattern, s: string, i: nat): (ids: seq<string>)
    requires i <= |s|
    decreases |s| - i
  {
    match Exec(pat, s, i)
    case None => []
    case Some(h) => [h.id] + Captures(pat, s, h.end)
  }

  /** What every capture is: a non-empty run of id characters, taken from a
      text that mentions "workflow". */
  predicate Plausible(s: string, id: string) {
    IsId(id) && |id| > 0 && MentionsWorkflow(s)
  }

  lemma IdAtShape(s: string, i: nat)
    requires i <= |s|
    ensures IdAt(s, i).Some? ==> IsId(IdAt(s, i).value.id) && |IdAt(s, i).value.id| > 0
  {
    if IdAt(s, i).Some? {
      var h := IdAt(s, i).value;
      RunChars(s, i, IsIdChar);
      forall k | 0 <= k < |h.id| ensures IsIdChar(h.id[k]) {
        assert h.id[k] == s[i + k];
      }
    }
  }

  lemma KeywordIdAtShape(s: string, p: nat, keyword: string, quoted: bool, offset: nat)
    requires offset + 8 <= |keyword| && keyword[offset..offset + 8] == "workflow"
    ensures KeywordIdAt(s, p, keyword, quoted).Some? ==>
              Plausible(s, KeywordIdAt(s, p, keyword, quoted).value.id)
  {
    if KeywordIdAt(s, p, keyword, quoted).Some? {
      KeywordMentions(s, p, keyword, offset);
      var q := p + |keyword|;
      var sep := Run(s, q, IsSeparator);
      IdAtShape(s, if quoted then SkipQuote(s, q + sep) else q + sep);
    }
  }

  lemma SentenceAtShape(s: string, p: nat)
    ensures SentenceAt(s, p).Some? ==> Plausible(s, SentenceAt(s, p).value.id)
  {
    if SentenceAt(s, p).Some? {
      KeywordMentions(s, p, "workflow", 0);
      var q := p + 8;
      IdAtShape(s, SkipQuote(s, q + Run(s, q, IsSeparator)));
    }
  }

  lemma JsonIdAtShape(s: string, j: nat)
    ensures JsonIdAt(s, j).Some? ==> IsId(JsonIdAt(s, j).value.id) && |JsonIdAt(s, j).value.id| > 0
  {
    if JsonIdAt(s, j).Some? {
      var q := j + 5;
      IdAtShape(s, q + Run(s, q, IsSpace) + 1);
    }
  }

  lemma JsonTypeEndMentions(s: string, j: nat)
    ensures JsonTypeEnd(s, j).Some? ==> MentionsWorkflow(s)
  {
    if JsonTypeEnd(s, j).Some? {
      var q := j + 7;
      QuotedWorkflowMentions(s, q + Run(s, q, IsSpace) + 10);
    }
  }

  lemma IdThenTypeAtShape(s: string, p: nat)
    ensures IdThenTypeAt(s, p).Some? ==> Plausible(s, IdThenTypeAt(s, p).value.id)
  {
    if IdThenTypeAt(s, p).Some? {
      JsonIdAtShape(s, p);
      var idHit := JsonIdAt(s, p).value;
      var r := LastTypeMarker(s, idHit.end, LineEnd(s, idHit.end));
      JsonTypeEndMentions(s, r.value.0);
    }
  }

  lemma TypeThenIdAtShape(s: string, p: nat)
    ensures TypeThenIdAt(s, p).Some? ==> Plausible(s, TypeThenIdAt(s, p).value.id)
  {
    if TypeThenIdAt(s, p).Some? {
      JsonTypeEndMentions(s, p);
      var k := JsonTypeEnd(s, p).value;
      var r := LastIdMarker(s, k, LineEnd(s, k));
      JsonIdAtShape(s, r.value.0);
    }
  }

  /** Every match of every pattern captures a plausible id. */
  lemma MatchAtShape(pat: Pattern, s: string, p: nat)
    ensures MatchAt(pat, s, p).Some? ==> Plausible(s, MatchAt(pat, s, p).value.id)
  {
    match pat
    case CreatedWorkflow => KeywordIdAtShape(s, p, "created workflow", false, 8);
    case UpdatedWorkflow => KeywordIdAtShape(s, p, "updated workflow", false, 8);
    case WorkflowSentence => SentenceAtShape(s, p);
    case WorkflowIdKey => KeywordIdAtShape(s, p, "workflowid", true, 0);
    case WorkflowIdSnake => KeywordIdAtShape(s, p, "workflow_id", true, 0);
    case JsonIdThenType => IdThenTypeAtShape(s, p);
    case JsonTypeThenId => TypeThenIdAtShape(s, p);
  }

  lemma ExecShape(pat: Pattern, s: string, i: nat)
    requires i <= |s|
    ensures Exec(pat, s, i).Some? ==> Plausible(s, Exec(pat, s, i).value.id)
  {
    var r := FirstFrom(i, |s|, p => MatchAt(pat, s, p));
    if r.Some? {
      MatchAtShape(pat, s, r.value.0);
    }
  }

  /** Every capture of the `exec` loop is plausible. */
  lemma {:induction false} CapturesShape(pat: Pattern, s: string, i: nat)
    requires i <= |s|
    ensures forall x | x in Captures(pat, s, i) :: Plausible(s, x)
    decreases |s| - i
  {
    ExecShape(pat, s, i);
    match Exec(pat, s, i)
    case None =>
    case Some(h) =>
      CapturesShape(pat, s, h.end);
  }

  lemma CapturesOfShape(pats: seq<Pattern>, s: string)
    ensures forall x | x in CapturesOf(pats, s) :: Plausible(s, x)
  {
    forall x | x in CapturesOf(pats, s) ensures Plausible(s, x) {
      FlatMapMember(pats, pat => Captures(pat, s, 0), x);
      var k :| 0 <= k < |pats| && x in Captures(pats[k], s, 0);
      CapturesShape(pats[k], s, 0);
    }
  }

  /** A greedy run is determined by its extent: a run of `n` matching
      characters followed by a non-matching one (or the end) has length `n`. */
  lemma {:induction false} RunIs(s: string, i: nat, n: nat, p: char -> bool)
    requires i + n <= |s|
    requires forall k | i <= k < i + n :: p(s[k])
    requires i + n == |s| || !p(s[i + n])
    ensures Run(s, i, p) == n
    decreases n
  {
    if n > 0 {
      RunIs(s, i + 1, n - 1, p);
    }
  }

  /** An id occurring at `i` and not followed by another id character is
      exactly what the capture group takes there. */
  lemma IdAtIs(s: string, i: nat, id: string)
    requires OccursAt(s, i, id) && IsId(id) && |id| > 0
    requires i + |id| == |s| || !IsIdChar(s[i + |id|])
    ensures IdAt(s, i) == Some(Hit(id, i + |id|))
  {
    forall k | i <= k < i + |id| ensures IsIdChar(s[k]) {
      assert s[k] == id[k - i];
    }
    RunIs(s, i, |id|, IsIdChar);
  }

  /** `exec` returns the match at the first start position that has one. */
  lemma ExecFindsFirst(pat: Pattern, s: string, i: nat, j: nat)
    requires i <= j <= |s|
    requires MatchAt(pat, s, j).Some?
    requires forall p | i <= p < j :: MatchAt(pat, s, p).None?
    ensures Exec(pat, s, i) == MatchAt(pat, s, j)
  {
    FirstFromIs(i, |s|, p => MatchAt(pat, s, p), j);
  }

  /** Without a match at any start position from `i` on, `exec` fails. */
  lemma ExecFindsNone(pat: Pattern, s: string, i: nat)
    requires i <= |s|
    requires forall p | i <= p <= |s| :: MatchAt(pat, s, p).None?
    ensures Exec(pat, s, i).None?
  {
    var r := FirstFrom(i, |s|, p => MatchAt(pat, s, p));
    assert r.Some? ==> MatchAt(pat, s, r.value.0).Some?;
  }

  /** The two JSON-shaped patterns are case-sensitive: without the exact
      lower-case key `"id":` neither of them ever matches. */
  lemma JsonPatternsNeedExactIdKey(s: string, i: nat)
    requires i <= |s|
    requires !Contains(s, "\"id\":")
    ensures Captures(JsonIdThenType, s, i) == []
    ensures Captures(JsonTypeThenId, s, i) == []
  {
    forall p | i <= p <= |s| ensures MatchAt(JsonIdThenType, s, p).None? && MatchAt(JsonTypeThenId, s, p).None? {
      assert !OccursAt(s, p, "\"id\":");
      match JsonTypeEnd(s, p)
      case None =>
      case Some(k) =>
        var hi := LineEnd(s, k);
        forall j | k <= j <= hi ensures JsonIdAt(s, j).None? {
          assert !OccursAt(s, j, "\"id\":");
        }
    }
    ExecFindsNone(JsonIdThenType, s, i);
    ExecFindsNone(JsonTypeThenId, s, i);
  }

  /** `f` of each pattern in turn, concatenated. */
  function FlatMap(pats: seq<Pattern>, f: Pattern -> seq<string>): seq<string>
    decreases |pats|
  {
    if |pats| == 0 then [] else f(pats[0]) + FlatMap(pats[1..], f)
  }

  lemma {:induction false} FlatMapMember(pats: seq<Pattern>, f: Pattern -> seq<string>, x: string)
    ensures x in FlatMap(pats, f) <==> exists k :: 0 <= k < |pats| && x in f(pats[k])
    decreases |pats|
  {
    if |pats| > 0 {
      FlatMapMember(pats[1..], f, x);
      if x in f(pats[0]) {
        assert 0 < |pats| && x in f(pats[0]);
      }
      if exists k :: 1 <= k < |pats| && x in f(pats[k]) {
        var k :| 1 <= k < |pats| && x in f(pats[k]);
        assert pats[1..][k - 1] == pats[k];
      }
    }
  }

  /** Captures of each pattern in turn, each scan starting from `lastIndex = 0`. */
  function CapturesOf(pats: seq<Pattern>, s: string): seq<string> {
    FlatMap(pats, pat => Captures(pat, s, 0))
  }

  /** A capture of any one pattern is a capture of the whole list. */
  lemma InCapturesOf(pats: seq<Pattern>, k: nat, s: string, x: string)
    requires k < |pats| && x in Captures(pats[k], s, 0)
    ensures x in CapturesOf(pats, s)
  {
    FlatMapMember(pats, pat => Captures(pat, s, 0), x);
  }

  /** `if (id && id.length >= 3) workflowIds.add(id)` on an insertion-ordered set. */
  function Record(ids: seq<string>, id: string): seq<string> {
    if |id| >= 3 && id !in ids then ids + [id] else ids
  }

  /** Records each candidate in order. */
  function RecordAll(ids: seq<string>, xs: seq<string>): (r: seq<string>)
    ensures |ids| <= |r| && r[..|ids|] == ids
    decreases |xs|
  {
    if |xs| == 0 then ids else RecordAll(Record(ids, xs[0]), xs[1..])
  }

  /** The ids `parseWorkflowIds` returns, as a definition. */
  function WorkflowIds(s: string): seq<string> {
    RecordAll([], CapturesOf(Patterns, s))
  }

  lemma {:induction false} RecordAllAppend(ids: seq<string>, xs: seq<string>, ys: seq<string>)
    ensures RecordAll(ids, xs + ys) == RecordAll(RecordAll(ids, xs), ys)
    decreases |xs|
  {
    if |xs| == 0 {
      assert xs + ys == ys;
    } else {
      assert (xs + ys)[1..] == xs[1..] + ys;
      RecordAllAppend(Record(ids, xs[0]), xs[1..], ys);
    }
  }

  /** Recording keeps what was there, adds each long enough candidate once,
      and adds nothing else. */
  lemma {:induction false} RecordAllProperties(ids: seq<string>, xs: seq<string>)
    requires NoDuplicates(ids)
    ensures NoDuplicates(RecordAll(ids, xs))
    ensures forall x :: x in RecordAll(ids, xs) <==> x in ids || (x in xs && |x| >= 3)
    decreases |xs|
  {
    if |xs| > 0 {
      var ids' := Record(ids, xs[0]);
      RecordAllProperties(ids', xs[1..]);
      var r := RecordAll(ids', xs[1..]);
      forall x ensures x in r <==> x in ids || (x in xs && |x| >= 3) {
        assert x in xs <==> x == xs[0] || x in xs[1..];
      }
    }
  }

  /** Position of the first copy of `x` in `xs`. */
  function FirstIndex(xs: seq<string>, x: string): (i: nat)
    requires x in xs
    ensures i < |xs| && xs[i] == x && x !in xs[..i]
    decreases |xs|
  {
    if xs[0] == x then 0
    else
      var k := FirstIndex(xs[1..], x);
      assert xs[..k + 1] == [xs[0]] + xs[1..][..k];
      1 + k
  }

  /** The ids recorded from `xs` appear in the order of their first
      appearance in `xs`. */
  lemma {:induction false} RecordAllOrder(ids: seq<string>, xs: seq<string>)
    requires NoDuplicates(ids)
    ensures var r := RecordAll(ids, xs);
      forall i, j | |ids| <= i < j < |r| ::
        r[i] in xs && r[j] in xs && FirstIndex(xs, r[i]) < FirstIndex(xs, r[j])
    decreases |xs|
  {
    if |xs| > 0 {
      var ids' := Record(ids, xs[0]);
      RecordAllOrder(ids', xs[1..]);
      RecordAllProperties(ids', xs[1..]);
      RecordAllProperties(ids, xs);
      var r := RecordAll(ids, xs);
      assert r == RecordAll(ids', xs[1..]);
      forall i, j | |ids| <= i < j < |r|
        ensures r[i] in xs && r[j] in xs && FirstIndex(xs, r[i]) < FirstIndex(xs, r[j])
      {
        // r[j] was recorded after `ids`, so it is neither in `ids` nor xs[0]
        assert r[..|ids|] == ids;
        assert r[j] !in ids;
        assert r[j] in xs[1..] && r[j] != xs[0] by {
          if |ids'| > |ids| {
            assert r[..|ids'|] == ids';
            assert r[|ids|] == xs[0];
          }
        }
        assert FirstIndex(xs, r[j]) == 1 + FirstIndex(xs[1..], r[j]);
        if |ids'| > |ids| && i == |ids| {
          assert r[..|ids'|] == ids';
          assert r[i] == xs[0];
        } else {
          assert r[i] !in ids;
          assert r[i] in xs[1..] && r[i] != xs[0] by {
            if |ids'| > |ids| {
              assert r[..|ids'|] == ids';
              assert r[|ids|] == xs[0];
            }
          }
          assert FirstIndex(xs, r[i]) == 1 + FirstIndex(xs[1..], r[i]);
        }
      }
    }
  }

  /** One pattern's `while ((match = pattern.exec(response)) !== null)` loop,
      starting from `lastIndex = 0`. */
  method RecordMatches(pat: Pattern, response: string, start: seq<string>) returns (ids: seq<string>)
    ensures ids == RecordAll(start, Captures(pat, response, 0))
  {
    ids := start;
    var lastIndex := 0;
    var m := Exec(pat, response, lastIndex);
    while m.Some?
      invariant lastIndex <= |response|
      invariant m == Exec(pat, response, lastIndex)
      invariant RecordAll(ids, Captures(pat, response, lastIndex)) == RecordAll(start, Captures(pat, response, 0))
      decreases |response| - lastIndex
    {
      var id := m.value.id;
      if |id| >= 3 && id !in ids {
        ids := ids + [id];
      }
      lastIndex := m.value.end;
      m := Exec(pat, response, lastIndex);
    }
  }

  /** `parseWorkflowIds`: runs every pattern's `exec` loop over the text and
      records each capture. */
  method ParseWorkflowIds(response: string) returns (ids: seq<string>)
    ensures ids == WorkflowIds(response)
    ensures NoDuplicates(ids)
    ensures forall k | 0 <= k < |ids| :: |ids[k]| >= 3 && IsId(ids[k])
    ensures forall x :: x in ids <==> x in CapturesOf(Patterns, response) && |x| >= 3
    ensures !MentionsWorkflow(response) ==> ids == []
  {
    ids := [];
    var pats := Patterns;
    while |pats| > 0
      invariant RecordAll(ids, CapturesOf(pats, response)) == WorkflowIds(response)
      decreases |pats|
    {
      var start := ids;
      ids := RecordMatches(pats[0], response, start);
      RecordAllAppend(start, Captures(pats[0], response, 0), CapturesOf(pats[1..], response));
      pats := pats[1..];
    }
    WorkflowIdsProperties(response);
  }

  /** The capture of the first match of any pattern is returned, provided
      it is long enough. */
  lemma FirstMatchRecorded(pat: Pattern, s: string, h: Hit)
    requires pat in Patterns
    requires Exec(pat, s, 0) == Some(h)
    requires |h.id| >= 3
    ensures h.id in WorkflowIds(s)
  {
    var k :| 0 <= k < |Patterns| && Patterns[k] == pat;
    assert h.id in Captures(pat, s, 0);
    InCapturesOf(Patterns, k, s, h.id);
    WorkflowIdsProperties(s);
  }

  lemma WorkflowIdsProperties(response: string)
    ensures var ids := WorkflowIds(response);
      && NoDuplicates(ids)
      && (forall k | 0 <= k < |ids| :: |ids[k]| >= 3 && IsId(ids[k]))
      && (forall x :: x in ids <==> x in CapturesOf(Patterns, response) && |x| >= 3)
      && (!MentionsWorkflow(response) ==> ids == [])
  {
    RecordedProperties(Patterns, response);
  }

  lemma RecordedProperties(pats: seq<Pattern>, response: string)
    ensures var ids := RecordAll([], CapturesOf(pats, response));
      && NoDuplicates(ids)
      && (forall k | 0 <= k < |ids| :: |ids[k]| >= 3 && IsId(ids[k]))
      && (forall x :: x in ids <==> x in CapturesOf(pats, response) && |x| >= 3)
      && (!MentionsWorkflow(response) ==> ids == [])
  {
    var xs := CapturesOf(pats, response);
    RecordAllProperties([], xs);
    CapturesOfShape(pats, response);
    var ids := RecordAll([], xs);
    forall k | 0 <= k < |ids| ensures |ids[k]| >= 3 && IsId(ids[k]) {
      assert ids[k] in xs;
    }
    if |xs| > 0 {
      assert Plausible(response, xs[0]);
    }
  }
}

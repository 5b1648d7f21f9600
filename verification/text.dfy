/** JavaScript string primitives over `seq<char>`: the whitespace set shared by
    regex `\s` and `String.prototype.trim`, ASCII case mapping, `includes`,
    `indexOf`, `split`, `join`, `trim` and first-occurrence `replace`. */
module Text {
  import opened Wrappers

  /** WhiteSpace and LineTerminator code points of ECMAScript: the class `\s`
      and the characters `trim` removes. */
  predicate IsSpace(c: char) {
    || c == ' ' || c == '\t' || c == '\n' || c == '\U{000B}' || c == '\U{000C}' || c == '\r'
    || c == '\U{00A0}' || c == '\U{1680}' || ('\U{2000}' <= c <= '\U{200A}')
    || c == '\U{2028}' || c == '\U{2029}' || c == '\U{202F}' || c == '\U{205F}'
    || c == '\U{3000}' || c == '\U{FEFF}'
  }

  /** The characters a regex `.` refuses to match. */
  predicate IsLineTerminator(c: char) {
    c == '\n' || c == '\r' || c == '\U{2028}' || c == '\U{2029}'
  }

  predicate IsLowerAscii(c: char) { 'a' <= c <= 'z' }

  predicate IsUpperAscii(c: char) { 'A' <= c <= 'Z' }

  function ToLowerAscii(c: char): (r: char)
    ensures IsUpperAscii(c) ==> IsLowerAscii(r) && r as int == c as int + 32
    ensures !IsUpperAscii(c) ==> r == c
  {
    if IsUpperAscii(c) then (c as int + 32) as char else c
  }

  function ToUpperAscii(c: char): (r: char)
    ensures IsLowerAscii(c) ==> IsUpperAscii(r) && r as int + 32 == c as int
    ensures !IsLowerAscii(c) ==> r == c
  {
    if IsLowerAscii(c) then (c as int - 32) as char else c
  }

  predicate AllSpace(s: string) {
    forall i | 0 <= i < |s| :: IsSpace(s[i])
  }

  /** `sub` occurs in `s` starting at index `i`. */
  predicate OccursAt(s: string, i: nat, sub: string) {
    i + |sub| <= |s| && s[i..i + |sub|] == sub
  }

  /** `s.includes(sub)`. */
  predicate Contains(s: string, sub: string) {
    exists i | 0 <= i <= |s| :: OccursAt(s, i, sub)
  }

  predicate EndsWith(s: string, suffix: string) {
    |suffix| <= |s| && s[|s| - |suffix|..] == suffix
  }

  /** `s.indexOf(sub, from)`: the first occurrence at or after `from`. */
  function IndexOf(s: string, sub: string, from: nat): (r: Option<nat>)
    requires |sub| > 0
    ensures r.Some? ==> from <= r.value && OccursAt(s, r.value, sub)
    ensures r.Some? ==> forall j | from <= j < r.value :: !OccursAt(s, j, sub)
    ensures r.None? ==> forall j | from <= j :: !OccursAt(s, j, sub)
    decreases |s| - from
  {
    if from + |sub| > |s| then None
    else if s[from..from + |sub|] == sub then Some(from)
    else IndexOf(s, sub, from + 1)
  }

  /** `parts.join(sep)`; the empty array joins to the empty string. */
  function Join(parts: seq<string>, sep: string): string
    decreases |parts|
  {
    if |parts| == 0 then ""
    else if |parts| == 1 then parts[0]
    else parts[0] + sep + Join(parts[1..], sep)
  }

  /** Concatenation of all parts, in order. */
  function Concat(parts: seq<string>): string
    decreases |parts|
  {
    if |parts| == 0 then "" else parts[0] + Concat(parts[1..])
  }

  lemma {:induction false} ConcatAppend(parts: seq<string>, last: string)
    ensures Concat(parts + [last]) == Concat(parts) + last
    decreases |parts|
  {
    if |parts| == 0 {
      assert parts + [last] == [last];
    } else {
      assert (parts + [last])[1..] == parts[1..] + [last];
      ConcatAppend(parts[1..], last);
    }
  }

  /** An occurrence inside a prefix is an occurrence in the whole string. */
  lemma OccursInPrefix(s: string, i: nat, j: nat, sub: string)
    requires i <= |s|
    ensures OccursAt(s[..i], j, sub) ==> OccursAt(s, j, sub)
  {
    if j + |sub| <= i {
      assert s[..i][j..j + |sub|] == s[j..j + |sub|];
    }
  }

  /** The middle piece of a three-way concatenation occurs right after the
      first piece. */
  lemma OccursBetween(a: string, b: string, c: string)
    ensures OccursAt(a + b + c, |a|, b)
  {
    assert (a + b + c)[|a|..|a| + |b|] == b;
  }

  /** The second piece of a concatenation occurs right after the first. */
  lemma OccursAtEnd(a: string, b: string)
    ensures OccursAt(a + b, |a|, b)
  {
    assert (a + b)[|a|..|a| + |b|] == b;
  }

  /** Appending text keeps an occurrence. */
  lemma OccursExtend(x: string, y: string, i: nat, sub: string)
    requires OccursAt(x, i, sub)
    ensures OccursAt(x + y, i, sub)
  {
    assert (x + y)[i..i + |sub|] == x[i..i + |sub|];
  }

  /** `s.split(sep)` for a non-empty separator: cut at each occurrence found
      scanning left to right, so the pieces never contain `sep` and joining
      them back with `sep` gives `s`; the first cut is at the leftmost
      occurrence, and there is none exactly when `sep` does not occur. */
  function Split(s: string, sep: string): (parts: seq<string>)
    requires |sep| > 0
    ensures |parts| >= 1
    ensures Join(parts, sep) == s
    ensures forall k | 0 <= k < |parts| :: !Contains(parts[k], sep)
    ensures |parts| > 1 <==> IndexOf(s, sep, 0).Some?
    ensures |parts| > 1 ==> IndexOf(s, sep, 0) == Some(|parts[0]|)
    decreases |s|
  {
    match IndexOf(s, sep, 0)
    case None =>
      [s]
    case Some(i) =>
      var rest := Split(s[i + |sep|..], sep);
      assert !Contains(s[..i], sep) by {
        forall j | 0 <= j <= i ensures !OccursAt(s[..i], j, sep) {
          OccursInPrefix(s, i, j, sep);
        }
      }
      assert s == s[..i] + sep + s[i + |sep|..] by {
        assert s[i..i + |sep|] == sep;
      }
      [s[..i]] + rest
  }

  /** Text in which `c` never occurs holds no occurrence of a string that
      starts with `c`. */
  lemma NoOccurrenceWithout(s: string, sub: string, j: nat)
    requires |sub| > 0 && forall i | 0 <= i < |s| :: s[i] != sub[0]
    ensures !OccursAt(s, j, sub)
  {
    if j + |sub| <= |s| {
      assert s[j..j + |sub|][0] == s[j];
    }
  }

  /** Splitting undoes joining when no part holds the separator's first
      character, so no occurrence can start inside a part. */
  lemma {:induction false} SplitJoin(parts: seq<string>, sep: string)
    requires |sep| > 0 && |parts| >= 1
    requires forall k, i | 0 <= k < |parts| && 0 <= i < |parts[k]| :: parts[k][i] != sep[0]
    ensures Split(Join(parts, sep), sep) == parts
    decreases |parts|
  {
    var p0 := parts[0];
    if |parts| == 1 {
      forall j | 0 <= j ensures !OccursAt(p0, j, sep) {
        NoOccurrenceWithout(p0, sep, j);
      }
      assert IndexOf(p0, sep, 0).None?;
    } else {
      var rest := Join(parts[1..], sep);
      var s := p0 + sep + rest;
      assert Join(parts, sep) == s;
      assert Excludes(p0, sep[0]);
      FirstOccurrence(p0, sep, rest);
      assert s[..|p0|] == p0;
      assert s[|p0| + |sep|..] == rest;
      SplitJoin(parts[1..], sep);
      assert parts == [p0] + parts[1..];
    }
  }

  /** No non-empty end of `a` is a proper beginning of `sep`, so an
      occurrence of `sep` cannot start inside `a` and run on past it. */
  predicate NoOverhang(a: string, sep: string) {
    forall k | 0 < k < |sep| && k <= |a| :: a[|a| - k..] != sep[..k]
  }

  /** Text without the separator is not split. */
  lemma SplitWhole(s: string, sep: string)
    requires |sep| > 0 && !Contains(s, sep)
    ensures Split(s, sep) == [s]
  {
    assert forall i | 0 <= i <= |s| :: !OccursAt(s, i, sep);
    assert IndexOf(s, sep, 0).None?;
  }

  /** A leading part that holds no separator, and cannot start one that
      runs past its end, comes off as the first part of the split. */
  lemma SplitFirst(a: string, sep: string, b: string)
    requires |sep| > 0 && !Contains(a, sep) && NoOverhang(a, sep)
    ensures Split(a + sep + b, sep) == [a] + Split(b, sep)
  {
    var s := a + sep + b;
    assert OccursAt(s, |a|, sep) by {
      assert s[|a|..|a| + |sep|] == sep;
    }
    forall j | 0 <= j < |a| ensures !OccursAt(s, j, sep) {
      if j + |sep| <= |a| {
        assert !OccursAt(a, j, sep);
        assert s[j..j + |sep|] == a[j..j + |sep|];
      } else if j + |sep| <= |s| {
        var k := |a| - j;
        assert a[|a| - k..] != sep[..k];
        assert s[j..j + |sep|][..k] == a[|a| - k..];
      }
    }
    assert IndexOf(s, sep, 0) == Some(|a|);
    assert s[..|a|] == a;
    assert s[|a| + |sep|..] == b;
  }

  /** A concatenation ends with its second piece. */
  lemma EndsWithConcat(a: string, b: string)
    ensures EndsWith(a + b, b)
  {
    assert (a + b)[|a|..] == b;
  }

  /** Joining one more part appends the separator and that part. */
  lemma {:induction false} JoinSnoc(parts: seq<string>, last: string, sep: string)
    requires |parts| > 0
    ensures Join(parts + [last], sep) == Join(parts, sep) + sep + last
    decreases |parts|
  {
    if |parts| == 1 {
      assert (parts + [last])[1..] == [last];
    } else {
      JoinSnoc(parts[1..], last, sep);
      assert (parts + [last])[1..] == parts[1..] + [last];
    }
  }

  /** `s.includes(sub)`: some text before and some text after put `sub`
      together into `s`. */
  lemma ContainsIffPieces(s: string, sub: string)
    ensures Contains(s, sub) <==> exists a: string, b: string :: s == a + sub + b
  {
    if Contains(s, sub) {
      var i :| 0 <= i <= |s| && OccursAt(s, i, sub);
      assert s == s[..i] + sub + s[i + |sub|..];
    }
    if exists a: string, b: string :: s == a + sub + b {
      var a: string, b: string :| s == a + sub + b;
      assert OccursAt(s, |a|, sub) by {
        assert s[|a|..|a| + |sub|] == sub;
      }
    }
  }

  /** The character `c` does not occur in `s`. */
  predicate Excludes(s: string, c: char) {
    forall k | 0 <= k < |s| :: s[k] != c
  }

  lemma ExcludesConcat(a: string, b: string, c: char)
    requires Excludes(a, c) && Excludes(b, c)
    ensures Excludes(a + b, c)
  {
    forall k | 0 <= k < |a + b| ensures (a + b)[k] != c {
      if k < |a| { assert (a + b)[k] == a[k]; } else { assert (a + b)[k] == b[k - |a|]; }
    }
  }

  /** An occurrence with no copy of the pattern's first character before
      it is the first occurrence. */
  lemma FirstOccurrenceIn(s: string, i: nat, sub: string)
    requires |sub| > 0 && OccursAt(s, i, sub)
    requires forall k | 0 <= k < i :: s[k] != sub[0]
    ensures IndexOf(s, sub, 0) == Some(i)
  {
    forall j | 0 <= j < i ensures !OccursAt(s, j, sub) {
      if j + |sub| <= |s| {
        assert s[j..j + |sub|][0] == s[j];
      }
    }
    assert IndexOf(s, sub, 0).Some?;
  }

  /** When the text before an occurrence holds no copy of the pattern's
      first character, that occurrence is the first one. */
  lemma FirstOccurrence(prefix: string, sub: string, rest: string)
    requires |sub| > 0 && Excludes(prefix, sub[0])
    ensures IndexOf(prefix + sub + rest, sub, 0) == Some(|prefix|)
  {
    var s := prefix + sub + rest;
    assert OccursAt(s, |prefix|, sub) by {
      assert s[|prefix|..|prefix| + |sub|] == sub;
    }
    forall j | 0 <= j < |prefix| ensures !OccursAt(s, j, sub) {
      assert s[j] == prefix[j];
      if j + |sub| <= |s| {
        assert s[j..j + |sub|][0] == s[j];
      }
    }
    assert IndexOf(s, sub, 0).Some?;
  }

  /** The replacement text `String.prototype.replace` builds from `rep` when
      the pattern is a string: `$$` gives `$`, `$&` the matched text, `$``
      the text before the match and `$'` the text after it; every other
      character, including any other `$`, is copied. */
  function Substitution(rep: string, matched: string, before: string, after: string): (r: string)
    ensures (forall k | 0 <= k < |rep| :: rep[k] != '$') ==> r == rep
    decreases |rep|
  {
    if |rep| == 0 then ""
    else if rep[0] == '$' && |rep| >= 2 && rep[1] == '$' then "$" + Substitution(rep[2..], matched, before, after)
    else if rep[0] == '$' && |rep| >= 2 && rep[1] == '&' then matched + Substitution(rep[2..], matched, before, after)
    else if rep[0] == '$' && |rep| >= 2 && rep[1] == '`' then before + Substitution(rep[2..], matched, before, after)
    else if rep[0] == '$' && |rep| >= 2 && rep[1] == '\'' then after + Substitution(rep[2..], matched, before, after)
    else [rep[0]] + Substitution(rep[1..], matched, before, after)
  }

  /** `s.replace(pat, rep)` with a string pattern: only the first occurrence
      is replaced; without an occurrence `s` is returned unchanged. */
  function ReplaceFirst(s: string, pat: string, rep: string): (r: string)
    requires |pat| > 0
    ensures !Contains(s, pat) ==> r == s
  {
    match IndexOf(s, pat, 0)
    case None => s
    case Some(i) =>
      s[..i] + Substitution(rep, pat, s[..i], s[i + |pat|..]) + s[i + |pat|..]
  }

  /** When the text before an occurrence of a pattern that starts with `{`
      holds no `{`, that occurrence is the first one, so it is the one
      replaced; without `$` in the replacement it is replaced verbatim. */
  lemma {:induction false} ReplaceFirstAfterBraceFree(prefix: string, pat: string, rest: string, rep: string)
    requires |pat| > 0 && pat[0] == '{'
    requires Excludes(prefix, '{') && Excludes(rep, '$')
    ensures ReplaceFirst(prefix + pat + rest, pat, rep) == prefix + rep + rest
  {
    var s := prefix + pat + rest;
    FirstOccurrence(prefix, pat, rest);
    match IndexOf(s, pat, 0)
    case None =>
      assert false;
    case Some(i) =>
      assert i == |prefix|;
      assert s[..i] == prefix;
      assert s[i + |pat|..] == rest;
  }

  /** Length of the whitespace run that starts at index `i`. */
  function SpaceRunFrom(s: string, i: nat): (n: nat)
    requires i <= |s|
    ensures i + n <= |s|
    ensures forall k | i <= k < i + n :: IsSpace(s[k])
    ensures i + n < |s| ==> !IsSpace(s[i + n])
    decreases |s| - i
  {
    if i < |s| && IsSpace(s[i]) then 1 + SpaceRunFrom(s, i + 1) else 0
  }

  /** Length of the whitespace run that ends just before index `e`. */
  function SpaceRunBefore(s: string, e: nat): (n: nat)
    requires e <= |s|
    ensures n <= e
    ensures forall k | e - n <= k < e :: IsSpace(s[k])
    ensures n < e ==> !IsSpace(s[e - n - 1])
  {
    if e > 0 && IsSpace(s[e - 1]) then 1 + SpaceRunBefore(s, e - 1) else 0
  }

  /** `r` sits at index `a` of `s` with nothing but whitespace around it. */
  predicate TrimmedAt(s: string, a: nat, r: string) {
    && a + |r| <= |s|
    && s[a..a + |r|] == r
    && (forall k | 0 <= k < a :: IsSpace(s[k]))
    && (forall k | a + |r| <= k < |s| :: IsSpace(s[k]))
  }

  /** `s.trim()`: the slice left after dropping whitespace at both ends. */
  function Trim(s: string): (r: string)
    ensures |r| <= |s|
    ensures r == "" <==> AllSpace(s)
    ensures r != "" ==> !IsSpace(r[0]) && !IsSpace(r[|r| - 1])
    ensures exists a | 0 <= a <= |s| - |r| :: TrimmedAt(s, a, r)
  {
    var a := SpaceRunFrom(s, 0);
    if a == |s| then
      assert TrimmedAt(s, |s|, "");
      ""
    else
      var t := SpaceRunBefore(s, |s|);
      assert t < |s| - a by {
        assert !IsSpace(s[a]);
      }
      var r := s[a..|s| - t];
      assert r[0] == s[a] && r[|r| - 1] == s[|s| - t - 1];
      assert TrimmedAt(s, a, r);
      r
  }

  /** No element occurs twice. */
  predicate NoDuplicates<T(==)>(xs: seq<T>) {
    forall i, j | 0 <= i < j < |xs| :: xs[i] != xs[j]
  }
}

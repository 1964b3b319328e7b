/**
 * `app/utils/json_repair.py`: recovering a JSON object from a language model's
 * reply. A greedy search cuts the text from the first `{` to the last `}`, three
 * character-level rewrites fix the usual slips, and the result is parsed again.
 */
module JsonRepair {
  import opened Text
  import opened Results
  import opened JsonValue

  /** The text of the `ValueError` raised when the reply holds no `{ ... }` span. */
  const NO_JSON_OBJECT: string := "No JSON object found in response"

  /** The prefix of the `ValueError` raised when the repaired text still does not parse. */
  const REPAIR_FAILED: string := "Failed to repair JSON: "

  /** Some `{` stands before some `}`. */
  predicate HasBracedSpan(text: string)
  {
    exists i, j :: 0 <= i < j < |text| && text[i] == '{' && text[j] == '}'
  }

  /**
   * `extract_json_block`: the match of the greedy pattern `\{[\s\S]*\}`, which is
   * the slice from the first `{` through the last `}` when the last `}` comes after
   * the first `{`, and an error otherwise.
   */
  function ExtractJsonBlock(text: string): (r: Result<string, string>)
    ensures r.Err? <==> !HasBracedSpan(text)
    ensures r.Err? ==> r.error == NO_JSON_OBJECT
    ensures r.Ok? ==>
      && |r.value| >= 2 && r.value[0] == '{' && r.value[|r.value| - 1] == '}'
      && (exists k ::
            && 0 <= k <= |text| - |r.value| && OccursAt(text, r.value, k)
            && '{' !in text[..k] && '}' !in text[k + |r.value|..])
  {
    var first := FindChar(text, '{');
    var last := RFindChar(text, '}');
    if 0 <= first < last then
      var block := text[first..last + 1];
      assert OccursAt(text, block, first);
      assert '{' !in text[..first] by {
        assert forall j :: 0 <= j < first ==> text[..first][j] == text[j];
      }
      var after := text[last + 1..];
      assert '}' !in after by {
        assert forall j :: 0 <= j < |after| ==> after[j] == text[last + 1 + j];
      }
      Ok(block)
    else
      assert forall i, j :: 0 <= i < j < |text| && text[i] == '{' && text[j] == '}' ==>
        0 <= first <= i && j <= last;
      Err(NO_JSON_OBJECT)
  }

  /** Python's `s.replace(a, b)` for single characters. */
  function ReplaceChar(s: string, a: char, b: char): (r: string)
    ensures |r| == |s|
    ensures forall i :: 0 <= i < |s| ==> r[i] == (if s[i] == a then b else s[i])
    decreases |s|
  {
    if s == [] then [] else [if s[0] == a then b else s[0]] + ReplaceChar(s[1..], a, b)
  }

  /** The ASCII quote that stands in for a smart quote. */
  function AsciiQuote(c: char): char
  {
    if c == '“' || c == '”' then '"' else if c == '’' then '\'' else c
  }

  /** The smart-quote step: `“` and `”` become `"`, and `’` becomes `'`. */
  function SmartQuotesToAscii(s: string): (r: string)
    ensures |r| == |s|
    ensures forall i :: 0 <= i < |s| ==> r[i] == AsciiQuote(s[i])
  {
    ReplaceChar(ReplaceChar(ReplaceChar(s, '“', '"'), '”', '"'), '’', '\'')
  }

  /**
   * `re.sub(r"(?<!\\)'", '"', text)`: every `'` whose left neighbour in the
   * original text is not a backslash becomes `"`. The scan carries whether the
   * character before `s` was a backslash.
   */
  function QuotesAfter(s: string, afterBackslash: bool): (r: string)
    ensures |r| == |s|
    ensures forall i :: 0 <= i < |s| ==> r[i] == QuoteReplaced(s[i], LeftIsBackslash(s, i, afterBackslash))
    decreases |s|
  {
    if s == [] then []
    else
      var tail := QuotesAfter(s[1..], s[0] == '\\');
      var r := [QuoteReplaced(s[0], afterBackslash)] + tail;
      assert forall i :: 1 <= i < |s| ==> r[i] == QuoteReplaced(s[i], LeftIsBackslash(s, i, afterBackslash))
      by {
        forall i | 1 <= i < |s|
          ensures r[i] == QuoteReplaced(s[i], LeftIsBackslash(s, i, afterBackslash))
        {
          assert r[i] == tail[i - 1];
          assert s[1..][i - 1] == s[i];
          assert LeftIsBackslash(s[1..], i - 1, s[0] == '\\') == LeftIsBackslash(s, i, afterBackslash) by {
            if i >= 2 {
              assert s[1..][i - 2] == s[i - 1];
            }
          }
        }
      }
      r
  }

  /** Whether the character before index `i` is a backslash (`before` stands for the one before `s`). */
  function LeftIsBackslash(s: string, i: int, before: bool): bool
    requires 0 <= i <= |s|
  {
    if i == 0 then before else s[i - 1] == '\\'
  }

  /** The replacement of one character: a `'` without a backslash before it becomes `"`. */
  function QuoteReplaced(c: char, escaped: bool): char
  {
    if c == '\'' && !escaped then '"' else c
  }

  function SingleQuotesToDouble(s: string): (r: string)
    ensures |r| == |s|
    ensures forall i :: 0 <= i < |s| ==> r[i] == QuoteReplaced(s[i], LeftIsBackslash(s, i, false))
  {
    QuotesAfter(s, false)
  }

  /** The characters the pattern's `[\]}]` accepts. */
  predicate IsCloser(c: char)
  {
    c == ']' || c == '}'
  }

  /** The length of the run of whitespace that `s` starts with. */
  function SpaceRun(s: string): (n: nat)
    ensures n <= |s|
    ensures forall i :: 0 <= i < n ==> IsSpace(s[i])
    ensures n < |s| ==> !IsSpace(s[n])
    decreases |s|
  {
    if s != [] && IsSpace(s[0]) then 1 + SpaceRun(s[1..]) else 0
  }

  /** `r` keeps at most the characters of `s`, and all of them except commas and whitespace. */
  predicate KeepsAllButCommasAndSpaces(r: string, s: string)
  {
    && multiset(r) <= multiset(s)
    && forall c :: c != ',' && !IsSpace(c) ==> multiset(r)[c] == multiset(s)[c]
  }

  /**
   * `re.sub(r",\s*([\]}])", r"\1", text)`: a left-to-right pass that replaces a
   * comma, the whitespace after it and the closing bracket after that by the
   * bracket alone. Matches do not overlap, so the pass resumes after the bracket.
   */
  function DropTrailingCommas(s: string): (r: string)
    ensures |r| <= |s|
    ensures KeepsAllButCommasAndSpaces(r, s)
    ensures r != [] ==> r[0] == s[0] || (s[0] == ',' && IsCloser(r[0]))
    decreases |s|
  {
    if s == [] then []
    else
      var n := SpaceRun(s[1..]);
      if s[0] == ',' && 1 + n < |s| && IsCloser(s[1 + n]) then
        var rest := DropTrailingCommas(s[2 + n..]);
        DroppedSpanCounts(s, n, rest);
        [s[1 + n]] + rest
      else
        var rest := DropTrailingCommas(s[1..]);
        KeptHeadCounts(s, rest);
        [s[0]] + rest
  }

  lemma KeptHeadCounts(s: string, rest: string)
    requires s != [] && KeepsAllButCommasAndSpaces(rest, s[1..])
    ensures KeepsAllButCommasAndSpaces([s[0]] + rest, s)
  {
    assert s == [s[0]] + s[1..];
    assert multiset([s[0]] + rest) == multiset([s[0]]) + multiset(rest);
  }

  /** The characters of `s` split as the comma, its whitespace, the bracket and the rest. */
  lemma DroppedSpanCounts(s: string, n: nat, rest: string)
    requires 1 + n < |s| && s[0] == ','
    requires forall i :: 0 <= i < n ==> IsSpace(s[1..][i])
    requires KeepsAllButCommasAndSpaces(rest, s[2 + n..])
    ensures KeepsAllButCommasAndSpaces([s[1 + n]] + rest, s)
  {
    var spaces := s[1..1 + n];
    assert s == [s[0]] + spaces + [s[1 + n]] + s[2 + n..];
    assert multiset(s) == multiset([s[0]]) + multiset(spaces) + multiset([s[1 + n]]) + multiset(s[2 + n..]);
    assert multiset([s[1 + n]] + rest) == multiset([s[1 + n]]) + multiset(rest);
    forall c | c != ',' && !IsSpace(c)
      ensures multiset(spaces)[c] == 0
    {
      assert forall i :: 0 <= i < n ==> spaces[i] == s[1..][i];
    }
  }

  /**
   * The trailing-comma pattern matches `s[a..b + 1]`: a comma at `a`, nothing but
   * whitespace after it, and a `]` or `}` at `b`.
   */
  predicate RunAt(s: string, a: int, b: int)
  {
    0 <= a < b < |s| && s[a] == ',' && IsCloser(s[b]) && forall k :: a < k < b ==> IsSpace(s[k])
  }

  /** Index `j` of `s` is the comma or whitespace of such a match. */
  ghost predicate InTrailingComma(s: string, j: int)
  {
    exists a, b :: a <= j < b && RunAt(s, a, b)
  }

  /** The characters of `s` from index `i` on that lie in no such run, in their order. */
  ghost function Survivors(s: string, i: nat): string
    requires i <= |s|
    decreases |s| - i
  {
    if i == |s| then []
    else (if InTrailingComma(s, i) then [] else [s[i]]) + Survivors(s, i + 1)
  }

  /**
   * The trailing-comma pass deletes exactly the characters that lie in a run of a
   * comma and whitespace ending at a closing bracket, and keeps every other
   * character in its order.
   */
  lemma {:induction false} DropTrailingCommasExact(s: string)
    ensures DropTrailingCommas(s) == Survivors(s, 0)
    decreases |s|
  {
    if s != [] {
      var n := SpaceRun(s[1..]);
      SpaceRunOfTail(s, n);
      if s[0] == ',' && 1 + n < |s| && IsCloser(s[1 + n]) {
        DropAtHead(s);
        DropTrailingCommasExact(s[2 + n..]);
        MatchedHead(s, n);
      } else {
        DropAtHead(s);
        DropTrailingCommasExact(s[1..]);
        UnmatchedHead(s, n);
      }
    }
  }

  /** One step of the pass: the head either starts a match or is kept. */
  lemma DropAtHead(s: string)
    requires s != []
    ensures var n := SpaceRun(s[1..]);
      if s[0] == ',' && 1 + n < |s| && IsCloser(s[1 + n])
      then DropTrailingCommas(s) == [s[1 + n]] + DropTrailingCommas(s[2 + n..])
      else DropTrailingCommas(s) == [s[0]] + DropTrailingCommas(s[1..])
  {
  }

  lemma SpaceRunOfTail(s: string, n: nat)
    requires s != [] && n == SpaceRun(s[1..])
    ensures 1 + n <= |s|
    ensures forall i :: 1 <= i < 1 + n ==> IsSpace(s[i])
    ensures 1 + n < |s| ==> !IsSpace(s[1 + n])
  {
    assert forall i :: 1 <= i < 1 + n ==> s[i] == s[1..][i - 1];
    if 1 + n < |s| {
      assert s[1 + n] == s[1..][n];
    }
  }

  /** When the pattern matches at the head, the survivors are the bracket and the survivors after it. */
  lemma MatchedHead(s: string, n: nat)
    requires 1 + n < |s| && s[0] == ',' && IsCloser(s[1 + n])
    requires forall i :: 1 <= i < 1 + n ==> IsSpace(s[i])
    ensures Survivors(s, 0) == [s[1 + n]] + Survivors(s[2 + n..], 0)
  {
    assert RunAt(s, 0, 1 + n);
    forall j | 0 <= j < 1 + n
      ensures InTrailingComma(s, j)
    {
      assert 0 <= j < 1 + n && RunAt(s, 0, 1 + n);
    }
    SurvivorsSkip(s, 0, 1 + n);
    CloserNotInRun(s, 1 + n);
    forall a, b | 0 <= a < 2 + n <= b < |s|
      ensures !RunAt(s, a, b)
    {
      assert a == 1 + n || a < 1 + n < b;
    }
    SurvivorsShift(s, 2 + n, 0);
  }

  /** When the pattern does not match at the head, the head survives. */
  lemma UnmatchedHead(s: string, n: nat)
    requires s != [] && 1 + n <= |s|
    requires forall i :: 1 <= i < 1 + n ==> IsSpace(s[i])
    requires 1 + n < |s| ==> !IsSpace(s[1 + n])
    requires !(s[0] == ',' && 1 + n < |s| && IsCloser(s[1 + n]))
    ensures Survivors(s, 0) == [s[0]] + Survivors(s[1..], 0)
  {
    forall a, b | 0 <= a < 1 <= b < |s|
      ensures !RunAt(s, a, b)
    {
      NoRunAtHead(s, n, b);
    }
    assert !InTrailingComma(s, 0);
    SurvivorsShift(s, 1, 0);
  }

  lemma NoRunAtHead(s: string, n: nat, b: nat)
    requires 0 < b < |s| && 1 + n <= |s|
    requires forall i :: 1 <= i < 1 + n ==> IsSpace(s[i])
    requires 1 + n < |s| ==> !IsSpace(s[1 + n])
    requires !(s[0] == ',' && 1 + n < |s| && IsCloser(s[1 + n]))
    ensures !RunAt(s, 0, b)
  {
    if b < 1 + n {
      assert IsSpace(s[b]);
    } else if 1 + n < b {
      assert !IsSpace(s[1 + n]);
    }
  }

  /** A closing bracket is in no run: it is neither a comma nor whitespace. */
  lemma CloserNotInRun(s: string, j: nat)
    requires j < |s| && IsCloser(s[j])
    ensures !InTrailingComma(s, j)
  {
  }

  lemma {:induction false} SurvivorsSkip(s: string, i: nat, j: nat)
    requires i <= j <= |s|
    requires forall p :: i <= p < j ==> InTrailingComma(s, p)
    ensures Survivors(s, i) == Survivors(s, j)
    decreases j - i
  {
    if i < j {
      SurvivorsSkip(s, i + 1, j);
    }
  }

  /** A run of a suffix is a run of the whole text, shifted by where the suffix starts. */
  lemma RunShift(s: string, k: nat, a: int, b: int)
    requires k <= |s|
    ensures RunAt(s[k..], a, b) <==> k <= a + k && RunAt(s, a + k, b + k)
  {
    var t := s[k..];
    if 0 <= a && b < |t| {
      assert forall m :: a < m < b ==> t[m] == s[m + k];
      assert forall m :: a + k < m < b + k ==> s[m] == t[m - k];
    }
  }

  /** Past a point no run crosses, the runs are the runs of the suffix. */
  lemma SuffixRuns(s: string, k: nat, j: nat)
    requires k <= j < |s|
    requires forall a, b :: 0 <= a < k <= b < |s| ==> !RunAt(s, a, b)
    ensures InTrailingComma(s, j) <==> InTrailingComma(s[k..], j - k)
  {
    if InTrailingComma(s, j) {
      var a, b :| a <= j < b && RunAt(s, a, b);
      RunShift(s, k, a - k, b - k);
    }
    if InTrailingComma(s[k..], j - k) {
      var a, b :| a <= j - k < b && RunAt(s[k..], a, b);
      RunShift(s, k, a, b);
    }
  }

  lemma {:induction false} SurvivorsShift(s: string, k: nat, i: nat)
    requires k + i <= |s|
    requires forall a, b :: 0 <= a < k <= b < |s| ==> !RunAt(s, a, b)
    ensures Survivors(s, k + i) == Survivors(s[k..], i)
    decreases |s| - k - i
  {
    if k + i < |s| {
      var t := s[k..];
      SuffixRuns(s, k, k + i);
      SurvivorsShift(s, k, i + 1);
      assert t[i] == s[k + i];
      assert Survivors(s, k + i) == (if InTrailingComma(s, k + i) then [] else [s[k + i]]) + Survivors(s, k + (i + 1));
      assert Survivors(t, i) == (if InTrailingComma(t, i) then [] else [t[i]]) + Survivors(t, i + 1);
    }
  }

  /**
   * `clean_common_json_issues`: the three rewrites in the order the source
   * applies them. No smart quote is left, every `'` has a backslash before it,
   * and the text does not grow.
   */
  function Clean(text: string): (r: string)
    ensures NoSmartQuotes(r)
    ensures QuotesEscaped(r)
    ensures |r| <= |text|
  {
    var b := SingleQuotesToDouble(SmartQuotesToAscii(text));
    QuoteStepsResult(text);
    DropKeepsQuotesEscaped(b, false);
    var r := DropTrailingCommas(b);
    assert multiset(r)['“'] <= multiset(b)['“'] == 0;
    assert multiset(r)['”'] <= multiset(b)['”'] == 0;
    assert multiset(r)['’'] <= multiset(b)['’'] == 0;
    r
  }

  /** Every `'` in `s` has a backslash immediately before it. */
  predicate QuotesEscaped(s: string)
  {
    QuotesEscapedAfter(s, false)
  }

  /** Every `'` in `s` has a backslash before it, `before` telling whether the character before `s` is one. */
  predicate QuotesEscapedAfter(s: string, before: bool)
  {
    forall i :: 0 <= i < |s| && s[i] == '\'' ==> LeftIsBackslash(s, i, before)
  }

  predicate NoSmartQuotes(s: string)
  {
    '“' !in s && '”' !in s && '’' !in s
  }

  /** The three replacements map characters one to one, and change only the quote characters. */
  lemma QuoteStepsAreCharacterMaps(s: string)
    ensures |SmartQuotesToAscii(s)| == |s| && |SingleQuotesToDouble(s)| == |s|
    ensures forall i :: 0 <= i < |s| && SmartQuotesToAscii(s)[i] != s[i] ==>
      s[i] in {'“', '”', '’'}
    ensures forall i :: 0 <= i < |s| && SingleQuotesToDouble(s)[i] != s[i] ==>
      s[i] == '\'' && SingleQuotesToDouble(s)[i] == '"'
  {
  }

  /** After the first two steps no smart quote is left and every remaining `'` is escaped. */
  lemma QuoteStepsResult(s: string)
    ensures NoSmartQuotes(SingleQuotesToDouble(SmartQuotesToAscii(s)))
    ensures QuotesEscaped(SingleQuotesToDouble(SmartQuotesToAscii(s)))
  {
    var a := SmartQuotesToAscii(s);
    var b := SingleQuotesToDouble(a);
    assert forall i :: 0 <= i < |a| ==> a[i] != '“' && a[i] != '”' && a[i] != '’';
    assert forall i :: 0 <= i < |b| ==> b[i] != '“' && b[i] != '”' && b[i] != '’';
    forall i | 0 <= i < |b| && b[i] == '\''
      ensures i > 0 && b[i - 1] == '\\'
    {
      assert a[i] == '\'' && i > 0 && a[i - 1] == '\\';
      assert b[i - 1] == a[i - 1];
    }
  }

  /** Dropping trailing commas never pulls an escaped `'` away from its backslash. */
  lemma {:induction false} DropKeepsQuotesEscaped(s: string, before: bool)
    requires QuotesEscapedAfter(s, before)
    ensures QuotesEscapedAfter(DropTrailingCommas(s), before)
    decreases |s|
  {
    if s != [] {
      var n := SpaceRun(s[1..]);
      var k := if s[0] == ',' && 1 + n < |s| && IsCloser(s[1 + n]) then 2 + n else 1;
      SuffixQuotesEscaped(s, before, k);
      DropKeepsQuotesEscaped(s[k..], s[k - 1] == '\\');
      assert s[0] == '\'' ==> before;
      ConsQuotesEscaped(s[k - 1], DropTrailingCommas(s[k..]), before);
    }
  }

  /** What follows index `k` keeps its quotes escaped, given the character at `k - 1`. */
  lemma SuffixQuotesEscaped(s: string, before: bool, k: nat)
    requires QuotesEscapedAfter(s, before) && 1 <= k <= |s|
    ensures QuotesEscapedAfter(s[k..], s[k - 1] == '\\')
  {
    var t := s[k..];
    forall i | 0 <= i < |t| && t[i] == '\''
      ensures LeftIsBackslash(t, i, s[k - 1] == '\\')
    {
      assert t[i] == s[k + i];
      assert LeftIsBackslash(s, k + i, before);
      if i > 0 {
        assert t[i - 1] == s[k + i - 1];
      }
    }
  }

  lemma ConsQuotesEscaped(head: char, rest: string, before: bool)
    requires head == '\'' ==> before
    requires QuotesEscapedAfter(rest, head == '\\')
    ensures QuotesEscapedAfter([head] + rest, before)
  {
    var r := [head] + rest;
    forall i | 0 <= i < |r| && r[i] == '\''
      ensures LeftIsBackslash(r, i, before)
    {
      if i > 0 {
        assert r[i] == rest[i - 1];
        assert LeftIsBackslash(rest, i - 1, head == '\\');
        if i > 1 {
          assert r[i - 1] == rest[i - 2];
        }
      }
    }
  }

  /** A comma directly before a closing bracket is dropped. */
  lemma DropAtCloser(s: string)
    requires |s| >= 2 && s[0] == ',' && IsCloser(s[1])
    ensures DropTrailingCommas(s) == [s[1]] + DropTrailingCommas(s[2..])
  {
    assert SpaceRun(s[1..]) == 0;
  }

  /** A comma followed by a character that is neither whitespace nor a closing bracket stays. */
  lemma KeepCommaBefore(s: string)
    requires |s| >= 2 && s[0] == ',' && !IsSpace(s[1]) && !IsCloser(s[1])
    ensures DropTrailingCommas(s) == [','] + DropTrailingCommas(s[1..])
  {
    assert SpaceRun(s[1..]) == 0;
  }

  /**
   * The trailing-comma pass is not idempotent: `,,]` becomes `,]`, and a second
   * pass would turn that into `]` (likewise with `}`).
   */
  lemma DropTrailingCommasNotIdempotent(b: char)
    requires IsCloser(b)
    ensures DropTrailingCommas([',', ',', b]) == [',', b]
    ensures DropTrailingCommas([',', b]) == [b]
  {
    DropAtCloser([',', b]);
    assert [',', b][2..] == [];
    KeepCommaBefore([',', ',', b]);
    assert [',', ',', b][1..] == [',', b];
  }

  /**
   * `safe_json_load`: the direct parse when it succeeds; otherwise the parse of
   * the cleaned block, with a failing extraction raising its own error and a
   * failing re-parse raising the repair error.
   */
  function SafeJsonLoad(raw: string, parse: Parser): (r: Result<Json, string>)
    ensures parse(raw).Parsed? ==> r == Ok(parse(raw).value)
    ensures r.Err? ==> r.error == NO_JSON_OBJECT || IsPrefix(REPAIR_FAILED, r.error)
    ensures parse(raw).DecodeError? && !HasBracedSpan(raw) ==> r == Err(NO_JSON_OBJECT)
    ensures parse(raw).DecodeError? && HasBracedSpan(raw) ==>
      var cleaned := Clean(ExtractJsonBlock(raw).value);
      && (r.Ok? <==> parse(cleaned).Parsed?)
      && (r.Ok? ==> r.value == parse(cleaned).value)
      && (r.Err? ==> r.error == REPAIR_FAILED + parse(cleaned).message)
  {
    match parse(raw)
    case Parsed(v) => Ok(v)
    case DecodeError(_) =>
      match ExtractJsonBlock(raw)
      case Err(e) => Err(e)
      case Ok(block) =>
        match parse(Clean(block))
        case Parsed(v) => Ok(v)
        case DecodeError(msg) =>
          assert IsPrefix(REPAIR_FAILED, REPAIR_FAILED + msg);
          Err(REPAIR_FAILED + msg)
  }

  /** A value the repair path returns was parsed from text no longer than the reply. */
  lemma RepairedValueFromShorterText(raw: string, parse: Parser)
    requires SafeJsonLoad(raw, parse).Ok?
    ensures exists t :: |t| <= |raw| && parse(t) == Parsed(SafeJsonLoad(raw, parse).value)
  {
    if parse(raw).Parsed? {
      assert parse(raw) == Parsed(SafeJsonLoad(raw, parse).value);
    } else {
      var block := ExtractJsonBlock(raw).value;
      var k :| 0 <= k <= |raw| - |block| && OccursAt(raw, block, k);
      assert parse(Clean(block)) == Parsed(SafeJsonLoad(raw, parse).value);
    }
  }

  /** The block is found wherever it stands, when the text around it holds no braces that would widen it. */
  lemma ExtractFromChatter(before: string, block: string, after: string)
    requires |block| >= 2 && block[0] == '{' && block[|block| - 1] == '}'
    requires '{' !in before && '}' !in after
    ensures ExtractJsonBlock(before + block + after) == Ok(block)
  {
    var text := before + block + after;
    var b := |before|;
    var e := |before| + |block|;
    assert forall j :: 0 <= j < b ==> text[j] == before[j];
    assert forall j :: e <= j < |text| ==> text[j] == after[j - e];
    assert text[b] == '{' && text[e - 1] == '}';
    assert FindChar(text, '{') == b;
    assert RFindChar(text, '}') == e - 1;
    assert text[b..e] == block;
  }

  /** A character that none of the three rewrites treats specially. */
  predicate IsPlainChar(c: char)
  {
    c != '\'' && c != '\\' && c != ',' && !IsSpace(c) && !IsCloser(c) && AsciiQuote(c) == c
  }

  /** The repair of `{'k':v,}`: the quotes become double quotes and the trailing comma goes. */
  lemma CleanExample(k: char, v: char)
    requires IsPlainChar(k) && IsPlainChar(v)
    ensures Clean(['{', '\'', k, '\'', ':', v, ',', '}']) == ['{', '"', k, '"', ':', v, '}']
  {
    CleanExampleQuotes(k, v);
    CleanExampleComma(k, v);
  }

  lemma CleanExampleQuotes(k: char, v: char)
    requires IsPlainChar(k) && IsPlainChar(v)
    ensures SingleQuotesToDouble(SmartQuotesToAscii(['{', '\'', k, '\'', ':', v, ',', '}']))
      == ['{', '"', k, '"', ':', v, ',', '}']
  {
    var text := ['{', '\'', k, '\'', ':', v, ',', '}'];
    SmartQuotesKeepPlain(text);
    var r := SingleQuotesToDouble(text);
    var want := ['{', '"', k, '"', ':', v, ',', '}'];
    forall i | 0 <= i < 8
      ensures r[i] == want[i]
    {
      assert r[i] == QuoteReplaced(text[i], LeftIsBackslash(text, i, false));
    }
    assert r == want;
  }

  /** Text without smart quotes passes the smart-quote step unchanged. */
  lemma SmartQuotesKeepPlain(text: string)
    requires forall i :: 0 <= i < |text| ==> AsciiQuote(text[i]) == text[i]
    ensures SmartQuotesToAscii(text) == text
  {
  }

  lemma CleanExampleComma(k: char, v: char)
    requires IsPlainChar(k) && IsPlainChar(v)
    ensures DropTrailingCommas(['{', '"', k, '"', ':', v, ',', '}']) == ['{', '"', k, '"', ':', v, '}']
  {
    var head := ['{', '"', k, '"', ':', v];
    assert head + [',', '}'] == ['{', '"', k, '"', ':', v, ',', '}'];
    assert head + ['}'] == ['{', '"', k, '"', ':', v, '}'];
    DropFinalComma(head, '}');
  }

  /** A comma just before a closing bracket at the end of comma-free text is dropped. */
  lemma DropFinalComma(head: string, b: char)
    requires ',' !in head && IsCloser(b)
    ensures DropTrailingCommas(head + [',', b]) == head + [b]
  {
    KeptPrefix(head, [',', b]);
    DropAtCloser([',', b]);
    assert [',', b][2..] == [];
    assert [b] + [] == [b];
  }

  /** A character other than a comma is copied. */
  lemma DropKeepHead(s: string)
    requires s != [] && s[0] != ','
    ensures DropTrailingCommas(s) == [s[0]] + DropTrailingCommas(s[1..])
  {
  }

  /** Text without commas passes through the trailing-comma step unchanged. */
  lemma {:induction false} KeptPrefix(p: string, t: string)
    requires ',' !in p
    ensures DropTrailingCommas(p + t) == p + DropTrailingCommas(t)
    decreases |p|
  {
    if p == [] {
      assert p + t == t;
    } else {
      var tail := p[1..];
      assert ',' !in tail by {
        assert forall i :: 0 <= i < |tail| ==> tail[i] == p[i + 1];
      }
      HeadSplit(p, t);
      DropKeepHead(p + t);
      KeptPrefix(tail, t);
      HeadJoin(p, DropTrailingCommas(t));
    }
  }

  lemma HeadSplit(p: string, t: string)
    requires p != []
    ensures (p + t)[0] == p[0] && (p + t)[1..] == p[1..] + t
  {
  }

  lemma HeadJoin(p: string, d: string)
    requires p != []
    ensures [p[0]] + (p[1..] + d) == p + d
  {
    assert p == [p[0]] + p[1..];
  }
}

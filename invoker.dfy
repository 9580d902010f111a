/**
 * The chunker's LLM tool invoker: the retry loop around one streamed
 * completion request, collection of the newline-delimited JSON stream into
 * the reply text, and extraction of the JSON object embedded in the reply.
 * The HTTP request, `json.loads` and the JSON value itself are parameters.
 */
module Invoker {
  import opened Base
  import opened Text
  import opened Agentic

  // ---------------------------------------------------------------------------
  // stream collection
  // ---------------------------------------------------------------------------

  /**
   * What one non-empty stream line contributes: the `content` string when the
   * line parses as an object whose `content` is a string (`contentOf` stands
   * for that parse), else the raw line itself.
   */
  function LinePart(line: string, contentOf: string -> Option<string>): string
  {
    match contentOf(line)
    case Some(content) => content
    case None => line
  }

  /** The reply text after the stream has delivered `lines`: the parts of the non-empty lines, concatenated. */
  function Collected(lines: seq<string>, contentOf: string -> Option<string>): string
  {
    if lines == [] then []
    else
      var last := lines[|lines| - 1];
      Collected(lines[..|lines| - 1], contentOf) + (if last == [] then [] else LinePart(last, contentOf))
  }

  /** `"".join(parts)`. */
  function Concat(parts: seq<string>): (s: string)
    ensures |parts| == 0 ==> s == []
  {
    Join([], parts)
  }

  lemma ConcatSnoc(parts: seq<string>, x: string)
    ensures Concat(parts + [x]) == Concat(parts) + x
  {
    if |parts| > 0 {
      JoinSnoc([], parts, x);
    } else {
      assert parts + [x] == [x];
    }
  }

  /** `_collect_stream`: the parts of the non-empty lines, in order, joined with nothing between them. */
  method CollectStream(lines: seq<string>, contentOf: string -> Option<string>) returns (text: string)
    ensures text == Collected(lines, contentOf)
  {
    var parts: seq<string> := [];
    for k := 0 to |lines|
      invariant Concat(parts) == Collected(lines[..k], contentOf)
    {
      var rawLine := lines[k];
      assert lines[..k + 1][..k] == lines[..k];
      if rawLine == [] {
        continue;
      }
      var part := LinePart(rawLine, contentOf);
      ConcatSnoc(parts, part);
      parts := parts + [part];
    }
    assert lines[..|lines|] == lines;
    text := Concat(parts);
  }

  /** Collecting two stretches of the stream one after the other is collecting the whole stream. */
  lemma {:induction false} CollectedAppend(a: seq<string>, b: seq<string>, contentOf: string -> Option<string>)
    ensures Collected(a + b, contentOf) == Collected(a, contentOf) + Collected(b, contentOf)
    decreases |b|
  {
    if b == [] {
      assert a + b == a;
    } else {
      var init := b[..|b| - 1];
      assert (a + b)[..|a + b| - 1] == a + init;
      CollectedAppend(a, init, contentOf);
    }
  }

  /**
   * A single line: nothing when it is empty, its `content` when it parses as
   * an object with a string `content`, and otherwise the raw line unchanged.
   */
  lemma CollectedOne(line: string, contentOf: string -> Option<string>)
    ensures line == [] ==> Collected([line], contentOf) == []
    ensures line != [] && contentOf(line).Some? ==> Collected([line], contentOf) == contentOf(line).value
    ensures line != [] && contentOf(line).None? ==> Collected([line], contentOf) == line
  {
    assert [line][..0] == [];
  }

  /** Empty lines contribute nothing, wherever they are. */
  lemma EmptyLinesIgnored(a: seq<string>, b: seq<string>, contentOf: string -> Option<string>)
    ensures Collected(a + [[]] + b, contentOf) == Collected(a + b, contentOf)
  {
    CollectedAppend(a + [[]], b, contentOf);
    CollectedAppend(a, [[]], contentOf);
    CollectedAppend(a, b, contentOf);
    CollectedOne([], contentOf);
  }

  // ---------------------------------------------------------------------------
  // retries
  // ---------------------------------------------------------------------------

  /** The outcome of one request: the collected reply, or the message of the request exception. */
  datatype Attempt = Reply(text: string) | Failed(message: string)

  /** The first attempt number in `[from, n)` that got a reply, if any. */
  function FirstReply(attempt: nat -> Attempt, from: nat, n: int): (k: Option<nat>)
    ensures k.Some? ==> from <= k.value < n && attempt(k.value).Reply?
    ensures k.Some? ==> forall j :: from <= j < k.value ==> attempt(j).Failed?
    ensures k.None? ==> forall j :: from <= j < n ==> attempt(j).Failed?
    decreases n - from
  {
    if n <= from then None
    else if attempt(from).Reply? then Some(from)
    else FirstReply(attempt, from + 1, n)
  }

  /** `str(last_exc)`: the message of the last failed attempt, or `None` when none was made. */
  function LastFailure(attempt: nat -> Attempt, n: int): string
    requires n > 0 ==> attempt(n - 1).Failed?
  {
    if n <= 0 then "None" else attempt(n - 1).message
  }

  /** The message `call` raises once every attempt has failed. */
  function FailureMessage(retries: int, last: string): string
  {
    "ToolInvoker failed after " + IntToString(retries + 1) + " attempts: " + last
  }

  /**
   * `ToolInvoker.call`: up to `retries + 1` requests (`attempt(k)` is the
   * outcome of request `k`); the first reply is returned at once, and when all
   * fail the error names the number of attempts and the last failure.
   * `tries` is how many requests were made.
   */
  method Call(retries: int, attempt: nat -> Attempt) returns (r: Result<string>, tries: nat)
    ensures var k := FirstReply(attempt, 0, retries + 1);
      && (k.Some? ==> r == Ok(attempt(k.value).text) && tries == k.value + 1)
      && (k.None? ==> r == Err(FailureMessage(retries, LastFailure(attempt, retries + 1))) && tries == Max0(retries + 1))
  {
    var lastExc: Option<string> := None;
    tries := 0;
    var n := Max0(retries + 1);
    for a := 0 to n
      invariant tries == a
      invariant FirstReply(attempt, 0, retries + 1) == FirstReply(attempt, a, retries + 1)
      invariant a == 0 ==> lastExc.None?
      invariant a > 0 ==> lastExc == Some(attempt(a - 1).message)
    {
      tries := tries + 1;
      match attempt(a)
      case Reply(text) =>
        return Ok(text), tries;
      case Failed(message) =>
        lastExc := Some(message);
    }
    var last := if lastExc.Some? then lastExc.value else "None";
    r := Err(FailureMessage(retries, last));
  }

  /** The call succeeds exactly when one of its `retries + 1` attempts gets a reply. */
  lemma CallSucceedsIff(retries: int, attempt: nat -> Attempt)
    ensures FirstReply(attempt, 0, retries + 1).Some? <==> exists k: nat :: k < retries + 1 && attempt(k).Reply?
  {
    var f := FirstReply(attempt, 0, retries + 1);
    if f.Some? {
      assert attempt(f.value).Reply?;
    }
  }

  // ---------------------------------------------------------------------------
  // JSON extraction
  // ---------------------------------------------------------------------------

  /** The text between the first `<JSON_START>` and the last `<JSON_END>`, stripped, when both occur in that order. */
  function MarkerCandidate(text: string): Option<string>
  {
    var start := Find(text, JSON_START, 0);
    var end := RFind(text, JSON_END);
    if start != -1 && end != -1 && end > start then Some(Strip(PySlice(text, start + |JSON_START|, end)))
    else None
  }

  /** How many more `{` than `}` the string holds. */
  function Depth(s: string): int
  {
    if s == [] then 0
    else
      var c := s[|s| - 1];
      Depth(s[..|s| - 1]) + (if c == '{' then 1 else if c == '}' then -1 else 0)
  }

  /**
   * The end (exclusive) of the shortest prefix of `text[first..]` that is at
   * least `j - first` long and holds as many `}` as `{`, or -1 when there is none.
   */
  function FirstBalanced(text: string, first: nat, j: nat): (e: int)
    requires first < j
    ensures e == -1 || (j <= e <= |text| && Depth(text[first..e]) == 0)
    ensures e == -1 ==> forall k :: j <= k <= |text| ==> Depth(text[first..k]) != 0
    ensures e != -1 ==> forall k :: j <= k < e ==> Depth(text[first..k]) != 0
    decreases |text| + 1 - j
  {
    if j > |text| then -1
    else if Depth(text[first..j]) == 0 then j
    else FirstBalanced(text, first, j + 1)
  }

  /** The brace-matched candidate: the shortest balanced stretch starting at the first `{`. */
  function BraceCandidate(text: string): Option<string>
  {
    var first := Find(text, "{", 0);
    if first == -1 then None
    else
      var e := FirstBalanced(text, first, first + 1);
      if e == -1 then None else Some(text[first..e])
  }

  /**
   * `extract_json`, where `tryParse` stands for sanitising the candidate and
   * `json.loads`, giving `None` for anything that is not a non-empty object.
   * The marker candidate is tried first; otherwise only the first
   * brace-balanced stretch is parsed, and nothing after it is tried.
   */
  function ExtractJsonSpec<T>(text: string, tryParse: string -> Option<T>): Option<T>
  {
    if text == [] then None
    else
      var m := MarkerCandidate(text);
      if m.Some? && tryParse(m.value).Some? then tryParse(m.value)
      else
        var b := BraceCandidate(text);
        if b.Some? then tryParse(b.value) else None
  }

  lemma DepthSnoc(s: string, c: char)
    ensures Depth(s + [c]) == Depth(s) + (if c == '{' then 1 else if c == '}' then -1 else 0)
  {
    assert (s + [c])[..|s|] == s;
  }

  /** `extract_json`; the brace fallback keeps a running depth and stops at the first `}` that brings it back to 0. */
  method ExtractJson<T>(text: string, tryParse: string -> Option<T>) returns (obj: Option<T>)
    ensures obj == ExtractJsonSpec(text, tryParse)
  {
    if text == [] {
      return None;
    }
    var marked := MarkerCandidate(text);
    if marked.Some? {
      var parsed := tryParse(marked.value);
      if parsed.Some? {
        return parsed;
      }
    }
    var first := Find(text, "{", 0);
    if first == -1 {
      return None;
    }
    assert text[first] == text[first..first + 1][0];
    var e := MatchBraces(text, first);
    if e == -1 {
      return None;
    }
    return tryParse(text[first..e]);
  }

  /**
   * The depth counter of `extract_json`'s fallback, from the `{` at `first`:
   * the end of the stretch closed by the first `}` that brings the depth back
   * to 0, or -1 when the text ends first.
   */
  method MatchBraces(text: string, first: nat) returns (e: int)
    requires first < |text| && text[first] == '{'
    ensures e == FirstBalanced(text, first, first + 1)
  {
    var depth := 0;
    for i := first to |text|
      invariant depth == Depth(text[first..i])
      invariant i > first ==> depth >= 1
      invariant i > first ==> FirstBalanced(text, first, first + 1) == FirstBalanced(text, first, i + 1)
    {
      var ch := text[i];
      DepthSnoc(text[first..i], ch);
      assert text[first..i + 1] == text[first..i] + [ch];
      if ch == '{' {
        depth := depth + 1;
      } else if ch == '}' {
        depth := depth - 1;
        if depth == 0 {
          return i + 1;
        }
      }
    }
    return -1;
  }

  /** A `{` in a stretch of `s` is a `{` of `s`. */
  lemma SliceChar(s: string, i: int, j: int, c: char)
    requires 0 <= i <= j <= |s| && c in s[i..j]
    ensures c in s
  {
    var k :| 0 <= k < j - i && s[i..j][k] == c;
    assert s[i + k] == c;
  }

  /** Stripping only removes characters. */
  lemma StripChar(s: string, c: char)
    requires c in Strip(s)
    ensures c in s
  {
    TrimCharsSlice(s, Whitespace);
    var i := LeadCount(s, Whitespace);
    SliceChar(s, i, i + |Strip(s)|, c);
  }

  /**
   * When the parser only ever accepts text holding a `{` (a JSON object needs
   * one), there is no result for an empty text or for one without `{`.
   */
  lemma ExtractJsonNeedsBrace<T>(text: string, tryParse: string -> Option<T>)
    requires forall s :: tryParse(s).Some? ==> '{' in s
    requires '{' !in text
    ensures ExtractJsonSpec(text, tryParse) == None
  {
    var m := MarkerCandidate(text);
    if m.Some? && tryParse(m.value).Some? {
      MarkerCandidateInText(text, '{');
    }
  }

  /** Every character of the marker candidate comes from the text. */
  lemma MarkerCandidateInText(text: string, c: char)
    requires MarkerCandidate(text).Some? && c in MarkerCandidate(text).value
    ensures c in text
  {
    var start, end := Find(text, JSON_START, 0), RFind(text, JSON_END);
    var i, j := start + |JSON_START|, end;
    var piece := PySlice(text, i, j);
    StripChar(piece, c);
    SliceChar(text, i, Min(j, |text|), c);
  }

  /** The brace candidate is the stretch of the text starting at its first `{`. */
  lemma BraceCandidateStart(text: string)
    requires BraceCandidate(text).Some?
    ensures 0 <= Find(text, "{", 0) && Find(text, "{", 0) + |BraceCandidate(text).value| <= |text|
    ensures BraceCandidate(text).value == text[Find(text, "{", 0)..Find(text, "{", 0) + |BraceCandidate(text).value|]
    ensures forall k :: 0 <= k < Find(text, "{", 0) ==> text[k] != '{'
  {
    var first := Find(text, "{", 0);
    forall k | 0 <= k < first
      ensures text[k] != '{'
    {
      assert !MatchAt(text, "{", k);
      assert text[k..k + 1] == [text[k]];
    }
  }

  /**
   * The brace candidate is balanced, every shorter non-empty prefix of it
   * has more `{` than `}`, and it starts with `{` and ends with `}`.
   */
  lemma BraceCandidateBalanced(text: string)
    requires BraceCandidate(text).Some?
    ensures Depth(BraceCandidate(text).value) == 0
    ensures |BraceCandidate(text).value| >= 2
    ensures BraceCandidate(text).value[0] == '{' && BraceCandidate(text).value[|BraceCandidate(text).value| - 1] == '}'
    ensures forall k :: 0 < k < |BraceCandidate(text).value| ==> Depth(BraceCandidate(text).value[..k]) >= 1
  {
    var first := Find(text, "{", 0);
    var e := FirstBalanced(text, first, first + 1);
    var b := text[first..e];
    assert text[first..first + 1] == "{";
    BalancedPrefixes(text, first, e);
    forall k | 0 < k < |b|
      ensures Depth(b[..k]) >= 1
    {
      PrefixDepthPositive(b, k);
    }
    ClosingBrace(b);
  }

  /** The stretch `FirstBalanced` finds starts with `{` and none of its shorter non-empty prefixes is balanced. */
  lemma BalancedPrefixes(text: string, first: nat, e: int)
    requires first < |text| && text[first..first + 1] == "{"
    requires e == FirstBalanced(text, first, first + 1) && e != -1
    ensures text[first..e][0] == '{' && Depth(text[first..e]) == 0
    ensures forall j :: 1 <= j < |text[first..e]| ==> Depth(text[first..e][..j]) != 0
  {
    var b := text[first..e];
    assert b[0] == text[first];
    forall j | 1 <= j < |b|
      ensures Depth(b[..j]) != 0
    {
      assert b[..j] == text[first..first + j];
    }
  }

  /** If no prefix of `b` of length in `[1, k]` is balanced and the first one is positive, all of them are positive. */
  lemma {:induction false} PrefixDepthPositive(b: string, k: int)
    requires 0 < k < |b| && b[0] == '{'
    requires forall j :: 1 <= j < |b| ==> Depth(b[..j]) != 0
    ensures Depth(b[..k]) >= 1
    decreases k
  {
    if k == 1 {
      assert b[..1] == [] + ['{'];
      DepthSnoc([], '{');
    } else {
      PrefixDepthPositive(b, k - 1);
      assert b[..k] == b[..k - 1] + [b[k - 1]];
      DepthSnoc(b[..k - 1], b[k - 1]);
    }
  }

  /** A balanced string whose every shorter non-empty prefix is positive ends with `}`. */
  lemma ClosingBrace(b: string)
    requires |b| >= 1 && b[0] == '{' && Depth(b) == 0
    requires forall k :: 0 < k < |b| ==> Depth(b[..k]) >= 1
    ensures |b| >= 2 && b[|b| - 1] == '}'
  {
    var init := b[..|b| - 1];
    assert b == init + [b[|b| - 1]];
    DepthSnoc(init, b[|b| - 1]);
  }
}

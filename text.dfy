/**
 * The Python `str` operations the service relies on, stated on `seq<char>`:
 * `strip`, `split`, `join`, `find`, `rfind`, `lower`, `replace`, `startswith`,
 * `re.sub(r"\s+", " ", s)`, decimal formatting of integers, and `sorted` on a
 * set of strings (code-point order).
 */
module Text {

  /**
   * Python's `str.isspace()` (also what `\s` matches in `re`): the ASCII
   * controls 9-13 and 28-31, the space, U+0085, U+00A0, U+1680,
   * U+2000-U+200A, U+2028, U+2029, U+202F, U+205F and U+3000.
   */
  predicate IsSpace(c: char)
  {
    || '\t' <= c <= '\r' || '\U{1C}' <= c <= ' ' || c == '\U{85}' || c == '\U{A0}' || c == '\U{1680}'
    || '\U{2000}' <= c <= '\U{200A}' || c == '\U{2028}' || c == '\U{2029}' || c == '\U{202F}'
    || c == '\U{205F}' || c == '\U{3000}'
  }

  /** The same 29 characters as a set, for the `strip(chars)` family. */
  const Whitespace: set<char> := set c: char | '\t' <= c <= '\U{3000}' && IsSpace(c)

  lemma WhitespaceMeans(c: char)
    ensures c in Whitespace <==> IsSpace(c)
  {
  }

  // ---------------------------------------------------------------------------
  // strip
  // ---------------------------------------------------------------------------

  /** How many characters at the front of `s` belong to `cs`. */
  function LeadCount(s: string, cs: set<char>): (n: nat)
    ensures n <= |s|
    ensures s != [] && s[0] in cs ==> n >= 1
  {
    if s != [] && s[0] in cs then 1 + LeadCount(s[1..], cs) else 0
  }

  /** The leading run counted is exactly the longest prefix of `cs` characters. */
  lemma {:induction false} LeadCountFacts(s: string, cs: set<char>)
    ensures forall i :: 0 <= i < LeadCount(s, cs) ==> s[i] in cs
    ensures LeadCount(s, cs) < |s| ==> s[LeadCount(s, cs)] !in cs
  {
    if s != [] && s[0] in cs {
      LeadCountFacts(s[1..], cs);
    }
  }

  /** `s.lstrip(cs)`: drop the leading characters that belong to `cs`. */
  function TrimLeft(s: string, cs: set<char>): (r: string)
  {
    s[LeadCount(s, cs)..]
  }

  /** How many characters at the back of `s` belong to `cs`. */
  function TrailCount(s: string, cs: set<char>): (n: nat)
    ensures n <= |s|
  {
    if s != [] && s[|s| - 1] in cs then 1 + TrailCount(s[..|s| - 1], cs) else 0
  }

  /** The trailing run counted is exactly the longest suffix of `cs` characters. */
  lemma {:induction false} TrailCountFacts(s: string, cs: set<char>)
    ensures forall i :: |s| - TrailCount(s, cs) <= i < |s| ==> s[i] in cs
    ensures TrailCount(s, cs) < |s| ==> s[|s| - TrailCount(s, cs) - 1] !in cs
  {
    if s != [] && s[|s| - 1] in cs {
      TrailCountFacts(s[..|s| - 1], cs);
    }
  }

  /** `s.rstrip(cs)`: drop the trailing characters that belong to `cs`. */
  function TrimRight(s: string, cs: set<char>): (r: string)
  {
    s[..|s| - TrailCount(s, cs)]
  }

  /** `s.strip(cs)`: the slice of `s` left after dropping `cs` characters at both ends. */
  function TrimChars(s: string, cs: set<char>): (r: string)
  {
    TrimRight(TrimLeft(s, cs), cs)
  }

  /** `s.strip()` with no argument. */
  function Strip(s: string): string
  {
    TrimChars(s, Whitespace)
  }

  /** The string neither starts nor ends with whitespace. */
  predicate IsStripped(s: string)
  {
    s == [] || (!IsSpace(s[0]) && !IsSpace(s[|s| - 1]))
  }

  predicate IsBlank(s: string)
  {
    forall i :: 0 <= i < |s| ==> IsSpace(s[i])
  }

  /** `lstrip(cs)` drops a prefix of `cs` characters and leaves a string that does not start with one. */
  lemma TrimLeftFacts(s: string, cs: set<char>)
    ensures TrimLeft(s, cs) == s[LeadCount(s, cs)..]
    ensures forall k :: 0 <= k < LeadCount(s, cs) ==> s[k] in cs
    ensures TrimLeft(s, cs) != [] ==> TrimLeft(s, cs)[0] !in cs
  {
    LeadCountFacts(s, cs);
  }

  /** `rstrip(cs)` drops a suffix of `cs` characters and leaves a string that does not end with one. */
  lemma TrimRightFacts(s: string, cs: set<char>)
    ensures TrimRight(s, cs) == s[..|s| - TrailCount(s, cs)]
    ensures forall k :: |s| - TrailCount(s, cs) <= k < |s| ==> s[k] in cs
    ensures TrimRight(s, cs) != [] ==> TrimRight(s, cs)[|TrimRight(s, cs)| - 1] !in cs
  {
    TrailCountFacts(s, cs);
  }

  /** `strip(cs)` is `s[i..|s| - n]` where `i` counts the leading and `n` the trailing `cs` characters. */
  lemma TrimCharsShape(s: string, cs: set<char>)
    ensures var i := LeadCount(s, cs);
      TrimChars(s, cs) == s[i..|s| - TrailCount(s[i..], cs)]
  {
  }

  /** `strip(cs)` returns a slice of its input whose ends are not in `cs`, and removes only `cs` characters. */
  lemma TrimCharsSlice(s: string, cs: set<char>)
    ensures LeadCount(s, cs) + |TrimChars(s, cs)| <= |s|
    ensures TrimChars(s, cs) == s[LeadCount(s, cs)..LeadCount(s, cs) + |TrimChars(s, cs)|]
    ensures forall k :: 0 <= k < LeadCount(s, cs) ==> s[k] in cs
    ensures forall k :: LeadCount(s, cs) + |TrimChars(s, cs)| <= k < |s| ==> s[k] in cs
    ensures TrimChars(s, cs) == [] || (TrimChars(s, cs)[0] !in cs && TrimChars(s, cs)[|TrimChars(s, cs)| - 1] !in cs)
  {
    var i := LeadCount(s, cs);
    var l := s[i..];
    var n := TrailCount(l, cs);
    TrimCharsShape(s, cs);
    LeadCountFacts(s, cs);
    TrailCountFacts(l, cs);
    DroppedSuffix(s, i, n, cs);
  }

  lemma DroppedSuffix(s: string, i: nat, n: nat, cs: set<char>)
    requires i + n <= |s|
    requires forall k :: |s[i..]| - n <= k < |s[i..]| ==> s[i..][k] in cs
    ensures forall k :: |s| - n <= k < |s| ==> s[k] in cs
  {
    forall k | |s| - n <= k < |s|
      ensures s[k] in cs
    {
      assert s[k] == s[i..][k - i];
    }
  }

  /** The result of `strip()` is stripped, and it is empty exactly when the input is all whitespace. */
  lemma StripFacts(s: string)
    ensures IsStripped(Strip(s))
    ensures Strip(s) == [] <==> IsBlank(s)
    ensures |Strip(s)| <= |s|
  {
    TrimCharsSlice(s, Whitespace);
    var r, i := Strip(s), LeadCount(s, Whitespace);
    if r == [] {
      assert IsBlank(s);
    } else {
      assert s[i] == r[0];
    }
  }

  /** Stripping twice is stripping once. */
  lemma StripIdempotent(s: string)
    ensures Strip(Strip(s)) == Strip(s)
  {
    StripFacts(s);
    StrippedIsFixed(Strip(s));
  }

  /** A string that is already stripped is returned unchanged by `strip()`. */
  lemma StrippedIsFixed(s: string)
    requires IsStripped(s)
    ensures Strip(s) == s
  {
    if s != [] {
      WhitespaceMeans(s[0]);
      WhitespaceMeans(s[|s| - 1]);
      assert LeadCount(s, Whitespace) == 0;
      assert TrimLeft(s, Whitespace) == s;
      assert TrailCount(s, Whitespace) == 0;
    }
  }

  /** Every piece stripped, in order. */
  function StripAll(pieces: seq<string>): (ts: seq<string>)
    ensures |ts| == |pieces|
    ensures forall k :: 0 <= k < |pieces| ==> ts[k] == Strip(pieces[k])
  {
    seq(|pieces|, k requires 0 <= k < |pieces| => Strip(pieces[k]))
  }

  // ---------------------------------------------------------------------------
  // join and split
  // ---------------------------------------------------------------------------

  /** `sep.join(parts)`. */
  function Join(sep: string, parts: seq<string>): string
  {
    if |parts| == 0 then []
    else if |parts| == 1 then parts[0]
    else parts[0] + sep + Join(sep, parts[1..])
  }

  lemma {:induction false} JoinSnoc(sep: string, parts: seq<string>, x: string)
    requires |parts| > 0
    ensures Join(sep, parts + [x]) == Join(sep, parts) + sep + x
  {
    if |parts| == 1 {
      assert Join(sep, parts + [x]) == parts[0] + sep + Join(sep, [x]);
    } else {
      assert (parts + [x])[1..] == parts[1..] + [x];
      JoinSnoc(sep, parts[1..], x);
    }
  }

  lemma {:induction false} JoinAppend(sep: string, a: seq<string>, b: seq<string>)
    requires |a| > 0 && |b| > 0
    ensures Join(sep, a + b) == Join(sep, a) + sep + Join(sep, b)
  {
    if |a| == 1 {
      assert (a + b)[1..] == b;
    } else {
      assert (a + b)[1..] == a[1..] + b;
      JoinAppend(sep, a[1..], b);
    }
  }

  /** Joining non-empty stripped parts gives a non-empty string that starts with the first part and ends with the last. */
  lemma {:induction false} JoinClean(sep: string, parts: seq<string>)
    requires |parts| > 0
    requires forall k :: 0 <= k < |parts| ==> parts[k] != [] && IsStripped(parts[k])
    ensures Join(sep, parts) != [] && IsStripped(Join(sep, parts))
  {
    if |parts| > 1 {
      JoinClean(sep, parts[1..]);
      var j := Join(sep, parts);
      var tail := Join(sep, parts[1..]);
      assert j == parts[0] + sep + tail;
      assert j[0] == parts[0][0];
      assert j[|j| - 1] == tail[|tail| - 1];
    }
  }

  /** The first index of `c` in `s`. */
  function IndexOf(s: string, c: char): (i: nat)
    requires c in s
    ensures i < |s| && s[i] == c && c !in s[..i]
  {
    if s[0] == c then 0 else 1 + IndexOf(s[1..], c)
  }

  /**
   * `s.split(c)` for a one-character separator: the pieces between
   * consecutive occurrences of `c` (an empty string gives `[""]`).
   */
  function Split(s: string, c: char): (r: seq<string>)
    ensures |r| >= 1
    ensures forall k :: 0 <= k < |r| ==> c !in r[k]
    ensures Join([c], r) == s
    decreases |s|
  {
    if c !in s then [s]
    else
      var i := IndexOf(s, c);
      var rest := Split(s[i + 1..], c);
      assert ([s[..i]] + rest)[1..] == rest;
      assert s == s[..i] + [c] + s[i + 1..];
      [s[..i]] + rest
  }

  /** The first `c` of `x + [c] + y` is the one after `x` when `x` holds no `c`. */
  lemma {:induction false} IndexOfAfter(x: string, c: char, y: string)
    requires c !in x
    ensures c in x + [c] + y && IndexOf(x + [c] + y, c) == |x|
  {
    var s := x + [c] + y;
    assert s[|x|] == c;
    if x != [] {
      assert s[1..] == x[1..] + [c] + y;
      IndexOfAfter(x[1..], c, y);
    }
  }

  /** Splitting `x + [c] + y` yields `x` followed by the pieces of `y`. */
  lemma SplitCons(x: string, c: char, y: string)
    requires c !in x
    ensures Split(x + [c] + y, c) == [x] + Split(y, c)
  {
    var s := x + [c] + y;
    IndexOfAfter(x, c, y);
    assert s[..|x|] == x;
    assert s[|x| + 1..] == y;
  }

  /** Splitting a join on a separator that none of the parts contains gives the parts back. */
  lemma {:induction false} SplitJoin(parts: seq<string>, c: char)
    requires |parts| >= 1
    requires forall k :: 0 <= k < |parts| ==> c !in parts[k]
    ensures Split(Join([c], parts), c) == parts
  {
    if |parts| > 1 {
      var tail := Join([c], parts[1..]);
      assert Join([c], parts) == parts[0] + [c] + tail;
      SplitCons(parts[0], c, tail);
      SplitJoin(parts[1..], c);
      assert parts == [parts[0]] + parts[1..];
    }
  }

  // ---------------------------------------------------------------------------
  // find, rfind, substring
  // ---------------------------------------------------------------------------

  predicate MatchAt(s: string, pat: string, i: int)
  {
    0 <= i && i + |pat| <= |s| && s[i..i + |pat|] == pat
  }

  /** `s.find(pat, from)`: the lowest index at or after `from` where `pat` occurs, or -1. */
  function Find(s: string, pat: string, from: nat): (r: int)
    ensures r == -1 || (from <= r && MatchAt(s, pat, r))
    ensures r == -1 ==> forall i :: from <= i ==> !MatchAt(s, pat, i)
    ensures r != -1 ==> forall i :: from <= i < r ==> !MatchAt(s, pat, i)
    decreases |s| - from
  {
    if from + |pat| > |s| then -1
    else if s[from..from + |pat|] == pat then from
    else Find(s, pat, from + 1)
  }

  /** `s.rfind(pat)`: the highest index where `pat` occurs, or -1. */
  function RFind(s: string, pat: string): (r: int)
    ensures r == -1 || MatchAt(s, pat, r)
    ensures r == -1 ==> forall i :: !MatchAt(s, pat, i)
    ensures r != -1 ==> forall i :: r < i ==> !MatchAt(s, pat, i)
  {
    if |pat| > |s| then -1 else RFindFrom(s, pat, |s| - |pat|)
  }

  function RFindFrom(s: string, pat: string, upto: nat): (r: int)
    requires upto + |pat| <= |s|
    ensures r == -1 || (r <= upto && MatchAt(s, pat, r))
    ensures r == -1 ==> forall i :: i <= upto ==> !MatchAt(s, pat, i)
    ensures r != -1 ==> forall i :: r < i <= upto ==> !MatchAt(s, pat, i)
    decreases upto
  {
    if s[upto..upto + |pat|] == pat then upto
    else if upto == 0 then -1
    else RFindFrom(s, pat, upto - 1)
  }

  /** Python's `sub in s`. */
  predicate Contains(s: string, sub: string)
  {
    Find(s, sub, 0) != -1
  }

  lemma ContainsMeans(s: string, sub: string)
    ensures Contains(s, sub) <==> exists i :: MatchAt(s, sub, i)
  {
    if !Contains(s, sub) {
      forall i ensures !MatchAt(s, sub, i) {
        if 0 <= i {
          assert !MatchAt(s, sub, i);
        }
      }
    }
  }

  /** Python's `s[i:j]` for non-negative bounds: clamped to the string, empty when `j <= i`. */
  function PySlice(s: string, i: nat, j: nat): (r: string)
    ensures i <= j <= |s| ==> r == s[i..j]
    ensures |r| <= |s|
  {
    var hi := if j < |s| then j else |s|;
    if i >= hi then [] else s[i..hi]
  }

  /** `s.startswith(p)`. */
  predicate HasPrefix(s: string, p: string)
  {
    |p| <= |s| && s[..|p|] == p
  }

  // ---------------------------------------------------------------------------
  // character maps
  // ---------------------------------------------------------------------------

  function LowerChar(c: char): char
  {
    if 'A' <= c <= 'Z' then (c as int + 32) as char else c
  }

  /** `s.lower()` on ASCII letters. */
  function Lower(s: string): string
  {
    seq(|s|, i requires 0 <= i < |s| => LowerChar(s[i]))
  }

  /** `s.replace(a, b)` for single characters. */
  function ReplaceChar(s: string, a: char, b: char): string
  {
    seq(|s|, i requires 0 <= i < |s| => if s[i] == a then b else s[i])
  }

  /** `c.isalnum()` on ASCII: a letter or a decimal digit. */
  predicate IsAlnum(c: char)
  {
    'a' <= c <= 'z' || 'A' <= c <= 'Z' || '0' <= c <= '9'
  }

  /** `os.path.basename(p)` for `/`-separated paths: what follows the last `/`. */
  function BaseName(p: string): (r: string)
    ensures '/' !in r
    ensures |r| <= |p| && r == p[|p| - |r|..]
  {
    var i := RFind(p, "/");
    if i == -1 then
      assert forall k :: 0 <= k < |p| ==> !MatchAt(p, "/", k) && p[k..k + 1] == [p[k]];
      p
    else
      assert forall k :: i < k < |p| ==> !MatchAt(p, "/", k) && p[k..k + 1] == [p[k]];
      p[i + 1..]
  }

  // ---------------------------------------------------------------------------
  // re.sub(r"\s+", " ", s)
  // ---------------------------------------------------------------------------

  /** Every maximal run of whitespace replaced by a single space. */
  function Collapse(s: string): string
    decreases |s|
  {
    if s == [] then []
    else if IsSpace(s[0]) then [' '] + Collapse(TrimLeft(s, Whitespace))
    else [s[0]] + Collapse(s[1..])
  }

  /** The index of the first whitespace character of `s`, or `|s|`. */
  function FirstSpace(s: string): (k: nat)
    ensures k <= |s| && (k < |s| ==> IsSpace(s[k]))
    ensures forall i :: 0 <= i < k ==> !IsSpace(s[i])
  {
    if s == [] || IsSpace(s[0]) then 0 else 1 + FirstSpace(s[1..])
  }

  /** Collapsing keeps the leading word and starts the rest with its first whitespace run. */
  lemma {:induction false} CollapseLeadingWord(s: string)
    ensures Collapse(s) == s[..FirstSpace(s)] + Collapse(s[FirstSpace(s)..])
    decreases |s|
  {
    if s != [] && !IsSpace(s[0]) {
      var t := s[1..];
      var k := FirstSpace(s);
      assert k == FirstSpace(t) + 1;
      CollapseLeadingWord(t);
      assert t[..k - 1] == s[1..k] && t[k - 1..] == s[k..];
      calc {
        Collapse(s);
        [s[0]] + Collapse(t);
        [s[0]] + (s[1..k] + Collapse(s[k..]));
        ([s[0]] + s[1..k]) + Collapse(s[k..]);
        { assert s[..k] == [s[0]] + s[1..k]; }
        s[..k] + Collapse(s[k..]);
      }
    }
  }

  /** The leading word holds no space. */
  lemma LeadingWordHasNoSpace(s: string)
    ensures ' ' !in s[..FirstSpace(s)]
  {
    var w := s[..FirstSpace(s)];
    assert ' ' in Whitespace;
    forall i | 0 <= i < |w|
      ensures w[i] != ' '
    {
      assert !IsSpace(s[i]);
    }
  }

  /** The first space-separated token of a collapsed, stripped string is the leading word of the string. */
  lemma FirstTokenOfCollapse(s: string)
    requires s != [] && !IsSpace(s[0])
    ensures Split(Collapse(s), ' ')[0] == s[..FirstSpace(s)]
    ensures FirstSpace(s) >= 1
  {
    var k := FirstSpace(s);
    CollapseLeadingWord(s);
    LeadingWordHasNoSpace(s);
    var w, rest := s[..k], s[k..];
    if k < |s| {
      var more := Collapse(TrimLeft(rest, Whitespace));
      assert Collapse(s) == w + [' '] + more by {
        assert Collapse(rest) == [' '] + more;
      }
      SplitCons(w, ' ', more);
    } else {
      assert Collapse(s) == w by {
        assert rest == [];
      }
    }
  }

  // ---------------------------------------------------------------------------
  // decimal formatting
  // ---------------------------------------------------------------------------

  function DigitChar(d: nat): char
    requires d < 10
  {
    ('0' as int + d) as char
  }

  /** `str(n)` for a natural number. */
  function NatToString(n: nat): (r: string)
    ensures |r| >= 1
    ensures n >= 10 ==> |r| >= 2
  {
    if n < 10 then [DigitChar(n)] else NatToString(n / 10) + [DigitChar(n % 10)]
  }

  /** `str(i)` for any integer. */
  function IntToString(i: int): string
  {
    if i < 0 then "-" + NatToString(-i) else NatToString(i)
  }

  /** Distinct numbers print as distinct strings. */
  lemma {:induction false} NatToStringInjective(a: nat, b: nat)
    requires NatToString(a) == NatToString(b)
    ensures a == b
    decreases a
  {
    var sa, sb := NatToString(a), NatToString(b);
    if a < 10 && b < 10 {
      assert sa[0] == sb[0];
    } else if a >= 10 && b >= 10 {
      assert sa[|sa| - 1] == sb[|sb| - 1];
      assert DigitChar(a % 10) == DigitChar(b % 10);
      assert sa[..|sa| - 1] == NatToString(a / 10);
      assert sb[..|sb| - 1] == NatToString(b / 10);
      NatToStringInjective(a / 10, b / 10);
    }
  }

  // ---------------------------------------------------------------------------
  // code-point order and sorted(set(...))
  // ---------------------------------------------------------------------------

  /** Python's `a < b` on `str`: lexicographic by code point, a proper prefix first. */
  predicate StrLt(a: string, b: string)
    decreases |a|
  {
    if a == [] then b != []
    else if b == [] then false
    else if a[0] == b[0] then StrLt(a[1..], b[1..])
    else a[0] < b[0]
  }

  lemma {:induction false} StrLtIrreflexive(a: string)
    ensures !StrLt(a, a)
    decreases |a|
  {
    if a != [] {
      StrLtIrreflexive(a[1..]);
    }
  }

  lemma {:induction false} StrLtTransitive(a: string, b: string, c: string)
    requires StrLt(a, b) && StrLt(b, c)
    ensures StrLt(a, c)
    decreases |a|
  {
    if a != [] && a[0] == b[0] && b[0] == c[0] {
      StrLtTransitive(a[1..], b[1..], c[1..]);
    }
  }

  lemma {:induction false} StrLtTotal(a: string, b: string)
    requires a != b
    ensures StrLt(a, b) || StrLt(b, a)
    decreases |a|
  {
    if a != [] && b != [] && a[0] == b[0] {
      assert a == [a[0]] + a[1..] && b == [b[0]] + b[1..];
      StrLtTotal(a[1..], b[1..]);
    }
  }

  predicate StrictlySorted(s: seq<string>)
  {
    forall i, j :: 0 <= i < j < |s| ==> StrLt(s[i], s[j])
  }

  predicate IsLeast(m: string, s: set<string>)
  {
    m in s && forall x :: x in s && x != m ==> StrLt(m, x)
  }

  lemma {:induction false} LeastExists(s: set<string>)
    requires s != {}
    ensures exists m :: IsLeast(m, s)
    decreases |s|
  {
    var x :| x in s;
    if s == {x} {
      assert IsLeast(x, s);
    } else {
      var rest := s - {x};
      LeastExists(rest);
      var m :| IsLeast(m, rest);
      if StrLt(m, x) {
        forall y | y in s && y != m ensures StrLt(m, y) {
        }
        assert IsLeast(m, s);
      } else {
        StrLtTotal(m, x);
        forall y | y in s && y != x ensures StrLt(x, y) {
          if y != m {
            StrLtTransitive(x, m, y);
          }
        }
        assert IsLeast(x, s);
      }
    }
  }

  /** `sorted(list(s))` for a set of strings: strictly increasing and holding exactly the set's members. */
  method SortedList(s: set<string>) returns (r: seq<string>)
    ensures StrictlySorted(r)
    ensures |r| == |s|
    ensures forall x :: x in r <==> x in s
  {
    r := [];
    var rest := s;
    while rest != {}
      invariant StrictlySorted(r)
      invariant forall i, x :: 0 <= i < |r| && x in rest ==> StrLt(r[i], x)
      invariant forall x :: x in s <==> x in r || x in rest
      invariant forall x :: x in r ==> x !in rest
      invariant |r| + |rest| == |s|
      decreases |rest|
    {
      LeastExists(rest);
      var m :| IsLeast(m, rest);
      forall i, x | 0 <= i < |r| && x in rest - {m} ensures StrLt(r[i], x) {
      }
      r := r + [m];
      rest := rest - {m};
      forall i, x | 0 <= i < |r| && x in rest ensures StrLt(r[i], x) {
        if i == |r| - 1 {
          assert IsLeast(m, rest + {m});
        }
      }
    }
  }
}

/** The Kotlin string operations the player relies on, over `seq<char>`:
    `isWhitespace`, `isBlank`, `trim`, `startsWith`, `contains`,
    `substringAfterLast`, the first match of a `key="([^"]+)"` regular
    expression, and SQLite's BINARY collation for `ORDER BY` on text. */
module Text {
  import opened Models

  /** Kotlin's `Char.isWhitespace()`: Java's `Character.isWhitespace` or
      `Character.isSpaceChar`. */
  predicate IsWhitespace(c: char) {
    || ('\t' <= c <= '\r')
    || ('\U{1C}' <= c <= '\U{1F}')
    || c == ' '
    || c == '\U{A0}'
    || c == '\U{1680}'
    || ('\U{2000}' <= c <= '\U{200A}')
    || c == '\U{2028}' || c == '\U{2029}'
    || c == '\U{202F}' || c == '\U{205F}' || c == '\U{3000}'
  }

  /** Kotlin's `isBlank()`: every character is whitespace (true of ""). */
  predicate IsBlank(s: string) {
    forall i :: 0 <= i < |s| ==> IsWhitespace(s[i])
  }

  predicate StartsWith(s: string, prefix: string) {
    |prefix| <= |s| && s[..|prefix|] == prefix
  }

  /** `sub` occurs in `s` starting at index `i`. */
  predicate OccursAt(s: string, sub: string, i: int) {
    0 <= i && i + |sub| <= |s| && s[i..i + |sub|] == sub
  }

  /** Number of whitespace characters at the front of `s`. */
  function LeadingWhitespace(s: string): (n: nat)
    ensures n <= |s|
    ensures forall i :: 0 <= i < n ==> IsWhitespace(s[i])
    ensures n < |s| ==> !IsWhitespace(s[n])
  {
    if s == [] || !IsWhitespace(s[0]) then 0 else 1 + LeadingWhitespace(s[1..])
  }

  /** Number of whitespace characters at the end of `s`. */
  function TrailingWhitespace(s: string): (n: nat)
    ensures n <= |s|
    ensures forall i :: |s| - n <= i < |s| ==> IsWhitespace(s[i])
    ensures n < |s| ==> !IsWhitespace(s[|s| - 1 - n])
  {
    if s == [] || !IsWhitespace(s[|s| - 1]) then 0
    else 1 + TrailingWhitespace(s[..|s| - 1])
  }

  /** Kotlin's `trim()`: `s` without its leading and trailing whitespace. */
  function Trim(s: string): string {
    var rest := s[LeadingWhitespace(s)..];
    rest[..|rest| - TrailingWhitespace(rest)]
  }

  /** `Trim(s)` is the part of `s` between a whitespace prefix and a whitespace
      suffix, it neither starts nor ends with whitespace, and it is empty
      exactly when `s` is blank. */
  lemma TrimSpec(s: string)
    ensures OccursAt(s, Trim(s), LeadingWhitespace(s))
    ensures forall i :: 0 <= i < LeadingWhitespace(s) ==> IsWhitespace(s[i])
    ensures forall i :: LeadingWhitespace(s) + |Trim(s)| <= i < |s| ==> IsWhitespace(s[i])
    ensures Trim(s) != [] ==> !IsWhitespace(Trim(s)[0]) && !IsWhitespace(Trim(s)[|Trim(s)| - 1])
    ensures Trim(s) == [] <==> IsBlank(s)
  {
    var a := LeadingWhitespace(s);
    var r := Trim(s);
    assert r != [] ==> r[0] == s[a];
    assert IsBlank(s) ==> a == |s|;
  }

  /** `s` is `Trim(s)` with blank text on either side. */
  lemma TrimSurrounded(s: string)
    ensures exists a, b :: s == a + Trim(s) + b && IsBlank(a) && IsBlank(b)
  {
    TrimSpec(s);
    var n := LeadingWhitespace(s);
    var a, b := s[..n], s[n + |Trim(s)|..];
    assert s == a + Trim(s) + b;
    assert IsBlank(a) && IsBlank(b);
  }

  /** Index of the last `c` in `s`, or -1 (Kotlin's `lastIndexOf`). */
  function LastIndexOf(s: string, c: char): (r: int)
    ensures -1 <= r < |s|
    ensures r == -1 <==> c !in s
    ensures r >= 0 ==> s[r] == c && c !in s[r + 1..]
  {
    if s == [] then -1
    else if s[|s| - 1] == c then |s| - 1
    else
      var r := LastIndexOf(s[..|s| - 1], c);
      assert s == s[..|s| - 1] + [s[|s| - 1]];
      assert r >= 0 ==> s[r + 1..] == s[..|s| - 1][r + 1..] + [s[|s| - 1]];
      r
  }

  /** Kotlin's `substringAfterLast(c)`: what follows the last `c`, or the whole
      of `s` when it holds no `c`. */
  function SubstringAfterLast(s: string, c: char): (r: string)
    ensures c !in r
    ensures c !in s ==> r == s
    ensures c in s ==> |r| < |s| && s == s[..|s| - |r| - 1] + [c] + r
  {
    var k := LastIndexOf(s, c);
    if k < 0 then s
    else
      assert s == s[..k] + [c] + s[k + 1..];
      s[k + 1..]
  }

  /** Kotlin's `contains(sub)`. */
  function Contains(s: string, sub: string): (b: bool)
    ensures b <==> exists i :: OccursAt(s, sub, i)
  {
    ContainsFrom(s, sub, 0)
  }

  function ContainsFrom(s: string, sub: string, from: nat): (b: bool)
    requires from <= |s|
    ensures b <==> exists i :: from <= i && OccursAt(s, sub, i)
    decreases |s| - from
  {
    if OccursAt(s, sub, from) then true
    else if from == |s| then false
    else ContainsFrom(s, sub, from + 1)
  }

  // --- The regular expression `key="([^"]+)"` and its first match ---------

  /** The text the expression must see before the captured value. */
  function AttributeOpener(key: string): string { key + "=\"" }

  /** `key="v"` matches at index `i` of `s` with capture `v`: a non-empty run of
      characters other than `"`, closed by a `"`. */
  predicate QuotedValueAt(s: string, key: string, i: int, v: string) {
    var j := i + |AttributeOpener(key)|;
    && OccursAt(s, AttributeOpener(key), i)
    && v != [] && '"' !in v
    && OccursAt(s, v, j)
    && j + |v| < |s| && s[j + |v|] == '"'
  }

  /** Index of the first `"` at or after `j`, or `|s|` when there is none. */
  function QuoteIndex(s: string, j: nat): (e: nat)
    requires j <= |s|
    ensures j <= e <= |s|
    ensures forall k :: j <= k < e ==> s[k] != '"'
    ensures e < |s| ==> s[e] == '"'
    decreases |s| - j
  {
    if j == |s| || s[j] == '"' then j else QuoteIndex(s, j + 1)
  }

  /** The capture of a match at index `i`, if the expression matches there.
      `[^"]+` is greedy and cannot cross a `"`, so at most one match starts
      at any index: the run up to the next `"`, which must be non-empty and
      must exist. */
  function MatchAt(s: string, key: string, i: nat): Option<string> {
    var j := i + |AttributeOpener(key)|;
    if OccursAt(s, AttributeOpener(key), i) then
      var e := QuoteIndex(s, j);
      if j < e < |s| then Some(s[j..e]) else None
    else None
  }

  lemma MatchAtExact(s: string, key: string, i: nat)
    ensures forall v :: MatchAt(s, key, i) == Some(v) <==> QuotedValueAt(s, key, i, v)
  {
    var j := i + |AttributeOpener(key)|;
    forall v | QuotedValueAt(s, key, i, v)
      ensures MatchAt(s, key, i) == Some(v)
    {
      assert s[j..j + |v|] == v;
    }
    if MatchAt(s, key, i).Some? {
      var v := MatchAt(s, key, i).value;
      assert forall k :: 0 <= k < |v| ==> v[k] == s[j + k];
    }
  }

  /** The first match at an index `>= from`: where it starts and what it captures. */
  function FirstMatchFrom(s: string, key: string, from: nat): Option<(nat, string)>
    requires from <= |s|
    decreases |s| - from
  {
    match MatchAt(s, key, from)
    case Some(v) => Some((from, v))
    case None => if from == |s| then None else FirstMatchFrom(s, key, from + 1)
  }

  lemma {:induction false} FirstMatchFromSpec(s: string, key: string, from: nat)
    requires from <= |s|
    ensures var r := FirstMatchFrom(s, key, from);
            && (r.Some? ==> from <= r.value.0 && QuotedValueAt(s, key, r.value.0, r.value.1))
            && (r.Some? ==> forall j, v :: from <= j < r.value.0 ==> !QuotedValueAt(s, key, j, v))
            && (r.None? ==> forall j, v :: from <= j ==> !QuotedValueAt(s, key, j, v))
    decreases |s| - from
  {
    MatchAtExact(s, key, from);
    if MatchAt(s, key, from).None? {
      if from == |s| {
        forall j, v | from <= j ensures !QuotedValueAt(s, key, j, v) {
          if j == from {
          }
        }
      } else {
        FirstMatchFromSpec(s, key, from + 1);
      }
    }
  }

  /** Kotlin's `"""key="([^"]+)"""".toRegex().find(s)?.groupValues[1]`: the
      capture of the leftmost match, or null when nothing matches. */
  function FindQuotedValue(s: string, key: string): Option<string> {
    match FirstMatchFrom(s, key, 0)
    case Some(m) => Some(m.1)
    case None => None
  }

  /** `r` is what the first match of `key="([^"]+)"` in `s` captures: the
      value of the leftmost `key="..."` whose value is non-empty, or null when
      no such occurrence exists (an empty `key=""` is skipped and a later
      occurrence is used). */
  ghost predicate IsFirstMatch(s: string, key: string, r: Option<string>) {
    && (r.Some? ==> r.value != [] && '"' !in r.value)
    && (r.Some? ==> exists i :: QuotedValueAt(s, key, i, r.value)
                              && forall j, v :: 0 <= j < i ==> !QuotedValueAt(s, key, j, v))
    && (r.None? <==> forall i, v :: !QuotedValueAt(s, key, i, v))
  }

  /** The description pins the result down: at most one value satisfies it. */
  lemma FirstMatchUnique(s: string, key: string, r1: Option<string>, r2: Option<string>)
    requires IsFirstMatch(s, key, r1) && IsFirstMatch(s, key, r2)
    ensures r1 == r2
  {
    if r1.Some? && r2.Some? {
      var i1 :| QuotedValueAt(s, key, i1, r1.value)
                && forall j, v :: 0 <= j < i1 ==> !QuotedValueAt(s, key, j, v);
      var i2 :| QuotedValueAt(s, key, i2, r2.value)
                && forall j, v :: 0 <= j < i2 ==> !QuotedValueAt(s, key, j, v);
      assert i1 == i2;
      MatchAtExact(s, key, i1);
    }
  }

  lemma FindQuotedValueSpec(s: string, key: string)
    ensures IsFirstMatch(s, key, FindQuotedValue(s, key))
  {
    FirstMatchFromSpec(s, key, 0);
  }

  // --- SQLite's BINARY collation --------------------------------------------

  /** `a` sorts no later than `b` under `ORDER BY ... ASC` on TEXT: code-point
      lexicographic order (the order of their UTF-8 bytes), a prefix first. */
  predicate TextLe(a: string, b: string) {
    if a == [] then true
    else if b == [] then false
    else if a[0] != b[0] then a[0] < b[0]
    else TextLe(a[1..], b[1..])
  }

  lemma {:induction false} TextLeTotal(a: string, b: string)
    ensures TextLe(a, b) || TextLe(b, a)
  {
    if a != [] && b != [] && a[0] == b[0] {
      TextLeTotal(a[1..], b[1..]);
    }
  }

  lemma {:induction false} TextLeTransitive(a: string, b: string, c: string)
    requires TextLe(a, b) && TextLe(b, c)
    ensures TextLe(a, c)
  {
    if a != [] && b != [] && c != [] && a[0] == b[0] && b[0] == c[0] {
      TextLeTransitive(a[1..], b[1..], c[1..]);
    }
  }
}

/** Shared vocabulary: optional values, the outcome of an asynchronous
    request, and the handful of JavaScript string operations the front end
    relies on (`trim`, `toLowerCase`, `includes`, `replace(/\\/g, "/")`,
    `join`), restricted to ASCII text. */
module Common {

  /** `null` / `undefined` versus a present value. */
  datatype Option<+T> = None | Some(value: T)

  /** How an asynchronous request ended: with a value, or rejected with the
      `message` field of the rejection payload (`action.payload?.message`),
      which is absent when the payload is a bare string or has no message. */
  datatype Settled<+T> = Fulfilled(value: T) | Rejected(message: Option<string>)

  /** JavaScript truthiness of an optional string: present and non-empty. */
  predicate Truthy(s: Option<string>) {
    s.Some? && s.value != ""
  }

  /** `message || fallback` */
  function MessageOr(message: Option<string>, fallback: string): string {
    if Truthy(message) then message.value else fallback
  }

  /** The characters `String.prototype.trim` removes, restricted to ASCII. */
  predicate IsSpace(c: char) {
    c == ' ' || c == '\t' || c == '\n' || c == '\r' || c == '\U{000B}' || c == '\U{000C}'
  }

  /** `!s.trim()`: the string has no visible character. */
  predicate IsBlank(s: string) {
    forall i :: 0 <= i < |s| ==> IsSpace(s[i])
  }

  function TrimStart(s: string): (r: string)
    ensures |r| <= |s|
    ensures r == s[|s| - |r|..]
    ensures r != [] ==> !IsSpace(r[0])
    ensures forall i :: 0 <= i < |s| - |r| ==> IsSpace(s[i])
  {
    if s == [] || !IsSpace(s[0]) then s
    else
      var r := TrimStart(s[1..]);
      assert s[1..][|s| - 1 - |r|..] == s[|s| - |r|..];
      assert forall i :: 1 <= i < |s| - |r| ==> s[1..][i - 1] == s[i];
      r
  }

  function TrimEnd(s: string): (r: string)
    ensures |r| <= |s|
    ensures r == s[..|r|]
    ensures r != [] ==> !IsSpace(r[|r| - 1])
    ensures forall i :: |r| <= i < |s| ==> IsSpace(s[i])
  {
    if s == [] || !IsSpace(s[|s| - 1]) then s else TrimEnd(s[..|s| - 1])
  }

  /** `s.trim()` */
  function Trim(s: string): string {
    TrimEnd(TrimStart(s))
  }

  /** The validators test `!s.trim()`; it holds exactly for blank strings. */
  lemma TrimEmptyIffBlank(s: string)
    ensures Trim(s) == "" <==> IsBlank(s)
  {
    var t := TrimStart(s);
    if IsBlank(s) {
      BlankTrimsAway(s);
    } else {
      var k :| 0 <= k < |s| && !IsSpace(s[k]);
      VisibleSurvivesTrimStart(s, k);
      VisibleSurvivesTrimEnd(t);
    }
  }

  /** A blank text loses everything at the start trim. */
  lemma {:induction false} BlankTrimsAway(s: string)
    requires IsBlank(s)
    ensures TrimStart(s) == []
  {
    if s != [] {
      assert IsSpace(s[0]);
      assert forall i :: 0 <= i < |s| - 1 ==> s[1..][i] == s[i + 1];
      BlankTrimsAway(s[1..]);
    }
  }

  /** A visible character anywhere keeps something at the start trim. */
  lemma VisibleSurvivesTrimStart(s: string, k: int)
    requires 0 <= k < |s| && !IsSpace(s[k])
    ensures TrimStart(s) != []
  {
    assert k >= |s| - |TrimStart(s)|;
  }

  /** A text starting with a visible character keeps it at the end trim. */
  lemma VisibleSurvivesTrimEnd(t: string)
    requires t != [] && !IsSpace(t[0])
    ensures TrimEnd(t) != []
  {
    assert TrimEnd(t)[0] == t[0];
  }

  function LowerChar(c: char): char {
    if 'A' <= c <= 'Z' then (c as int - 'A' as int + 'a' as int) as char else c
  }

  function UpperChar(c: char): char {
    if 'a' <= c <= 'z' then (c as int - 'a' as int + 'A' as int) as char else c
  }

  /** `s.toLowerCase()` */
  function Lower(s: string): (r: string)
    ensures |r| == |s|
    ensures forall i :: 0 <= i < |s| ==> r[i] == LowerChar(s[i])
  {
    seq(|s|, i requires 0 <= i < |s| => LowerChar(s[i]))
  }

  /** `s.toUpperCase()` */
  function Upper(s: string): (r: string)
    ensures |r| == |s|
    ensures forall i :: 0 <= i < |s| ==> r[i] == UpperChar(s[i])
  {
    seq(|s|, i requires 0 <= i < |s| => UpperChar(s[i]))
  }

  /** `sub` occurs in `s` at position `i`. */
  ghost predicate OccursAt(s: string, sub: string, i: int) {
    0 <= i && i + |sub| <= |s| && s[i..i + |sub|] == sub
  }

  /** `s.startsWith(prefix)` */
  predicate StartsWith(s: string, prefix: string) {
    |prefix| <= |s| && s[..|prefix|] == prefix
  }

  /** `s.includes(sub)`, computed by scanning the start positions in order. */
  function Includes(s: string, sub: string): (r: bool)
    ensures r <==> exists i :: OccursAt(s, sub, i)
    decreases |s|
  {
    if |sub| > |s| then
      assert forall i :: !OccursAt(s, sub, i);
      false
    else if s[..|sub|] == sub then
      assert OccursAt(s, sub, 0);
      true
    else
      var rest := Includes(s[1..], sub);
      assert forall i :: 0 <= i ==> (OccursAt(s[1..], sub, i) <==> OccursAt(s, sub, i + 1)) by {
        forall i | 0 <= i
          ensures OccursAt(s[1..], sub, i) <==> OccursAt(s, sub, i + 1)
        {
          OccursShift(s, sub, i);
        }
      }
      if rest then
        assert forall i :: OccursAt(s[1..], sub, i) ==> OccursAt(s, sub, i + 1);
        true
      else
        assert forall i :: OccursAt(s, sub, i) ==> i >= 1 && OccursAt(s[1..], sub, i - 1);
        false
  }

  lemma OccursShift(s: string, sub: string, i: int)
    requires |s| >= 1 && 0 <= i
    ensures OccursAt(s[1..], sub, i) <==> OccursAt(s, sub, i + 1)
  {
    if i + |sub| <= |s| - 1 {
      assert s[1..][i..i + |sub|] == s[i + 1..i + 1 + |sub|];
    }
  }

  /** `s.replace(/\\/g, "/")`: every backslash becomes a forward slash. */
  function SlashPath(s: string): (r: string)
    ensures |r| == |s|
    ensures forall i :: 0 <= i < |s| ==> r[i] == (if s[i] == '\\' then '/' else s[i])
    ensures forall i :: 0 <= i < |r| ==> r[i] != '\\'
  {
    seq(|s|, i requires 0 <= i < |s| => if s[i] == '\\' then '/' else s[i])
  }

  /** `xs.join(sep)` */
  function Join(xs: seq<string>, sep: string): string {
    if xs == [] then "" else if |xs| == 1 then xs[0] else xs[0] + sep + Join(xs[1..], sep)
  }

  /** Length of the longest prefix of `s` without `sep`. */
  function PartLength(s: string, sep: char): (n: nat)
    ensures n <= |s|
    ensures n < |s| ==> s[n] == sep
  {
    if s == [] || s[0] == sep then 0 else 1 + PartLength(s[1..], sep)
  }

  /** `s.split(sep)` for a one-character separator: empty parts are kept, so
      there is always one part more than there are separators. */
  function Split(s: string, sep: char): (r: seq<string>)
    ensures |r| >= 1
    decreases |s|
  {
    var n := PartLength(s, sep);
    if n == |s| then [s] else [s[..n]] + Split(s[n + 1..], sep)
  }

  predicate FreeOf(w: string, sep: char) {
    forall i :: 0 <= i < |w| ==> w[i] != sep
  }

  lemma {:induction false} PartLengthOfFree(w: string, rest: string, sep: char)
    requires FreeOf(w, sep)
    requires rest == [] || rest[0] == sep
    ensures PartLength(w + rest, sep) == |w|
  {
    if w != [] {
      assert (w + rest)[1..] == w[1..] + rest;
      PartLengthOfFree(w[1..], rest, sep);
    }
  }

  /** The first part of `s` and what follows its separator. */
  lemma SplitFirst(s: string, sep: char)
    ensures var n := PartLength(s, sep);
      FreeOf(s[..n], sep) &&
      (n == |s| ==> Split(s, sep) == [s]) &&
      (n < |s| ==> Split(s, sep) == [s[..n]] + Split(s[n + 1..], sep))
  {
    PartFree(s, sep);
    var n := PartLength(s, sep);
    assert Split(s, sep) == if n == |s| then [s] else [s[..n]] + Split(s[n + 1..], sep);
  }

  /** The first part holds no separator. */
  lemma PartFree(s: string, sep: char)
    ensures FreeOf(s[..PartLength(s, sep)], sep)
  {
    var n := PartLength(s, sep);
    forall i | 0 <= i < n
      ensures s[..n][i] != sep
    {
      PartLengthPrefixFree(s, sep, i);
    }
  }

  lemma {:induction false} PartLengthPrefixFree(s: string, sep: char, i: int)
    requires 0 <= i < PartLength(s, sep)
    ensures s[i] != sep
  {
    if i > 0 {
      PartLengthPrefixFree(s[1..], sep, i - 1);
    }
  }

  /** Splitting a joined list of separator-free parts gives the parts back. */
  lemma {:induction false} SplitJoin(parts: seq<string>, sep: char)
    requires |parts| >= 1
    requires forall k :: 0 <= k < |parts| ==> FreeOf(parts[k], sep)
    ensures Split(Join(parts, [sep]), sep) == parts
  {
    if |parts| == 1 {
      PartLengthOfFree(parts[0], [], sep);
      assert parts[0] + [] == parts[0];
    } else {
      var w, tail := parts[0], Join(parts[1..], [sep]);
      var s := w + [sep] + tail;
      PartLengthOfFree(w, [sep] + tail, sep);
      assert w + ([sep] + tail) == s;
      assert s[..|w|] == w;
      assert s[|w| + 1..] == tail;
      SplitJoin(parts[1..], sep);
      assert parts == [w] + parts[1..];
    }
  }

  /** Decimal rendering of a natural number, as template literals print it. */
  function NatToString(n: nat): (r: string)
    ensures |r| >= 1
    ensures forall i :: 0 <= i < |r| ==> '0' <= r[i] <= '9'
    ensures |r| > 1 ==> r[0] != '0'
  {
    if n < 10 then [Digit(n)] else NatToString(n / 10) + [Digit(n % 10)]
  }

  function Digit(d: nat): (c: char)
    requires d < 10
    ensures '0' <= c <= '9'
  {
    ('0' as int + d) as char
  }

  /** Reading the rendered digits back gives the number. */
  function DigitsValue(s: string): int
    requires forall i :: 0 <= i < |s| ==> '0' <= s[i] <= '9'
  {
    if s == [] then 0 else 10 * DigitsValue(s[..|s| - 1]) + (s[|s| - 1] as int - '0' as int)
  }

  lemma {:induction false} NatToStringRoundTrip(n: nat)
    ensures DigitsValue(NatToString(n)) == n
  {
    if n >= 10 {
      NatToStringRoundTrip(n / 10);
      var s := NatToString(n);
      assert s[..|s| - 1] == NatToString(n / 10);
    }
  }
}

/** `capitalizeName`: every space-separated word gets an upper-case first
    letter and lower-case rest. */
module StringUtils {
  import opened Common

  /** `word.charAt(0).toUpperCase() + word.slice(1).toLowerCase()` */
  function CapitalizeWord(w: string): (r: string)
    ensures |r| == |w|
    ensures |w| > 0 ==> r[0] == UpperChar(w[0])
    ensures forall i :: 1 <= i < |w| ==> r[i] == LowerChar(w[i])
  {
    if w == [] then "" else [UpperChar(w[0])] + Lower(w[1..])
  }

  function CapitalizeWords(words: seq<string>): (r: seq<string>)
    ensures |r| == |words|
    ensures forall k :: 0 <= k < |words| ==> r[k] == CapitalizeWord(words[k])
  {
    seq(|words|, k requires 0 <= k < |words| => CapitalizeWord(words[k]))
  }

  /** What `capitalizeName` puts at position `i`: spaces stay, the first
      character of each word is upper-cased and every other one lower-cased. */
  function CapitalizedAt(s: string, i: int): char
    requires 0 <= i < |s|
  {
    if s[i] == ' ' then ' '
    else if i == 0 || s[i - 1] == ' ' then UpperChar(s[i])
    else LowerChar(s[i])
  }

  predicate CapitalizedFrom(s: string, r: string) {
    |r| == |s| && forall i :: 0 <= i < |s| ==> r[i] == CapitalizedAt(s, i)
  }

  /** `capitalizeName(str)`: an empty string gives ""; otherwise split on
      single spaces (keeping empty words), capitalize each word, join with
      single spaces. */
  function CapitalizeName(s: string): (r: string)
    ensures CapitalizedFrom(s, r)
  {
    if s == "" then ""
    else
      SplitMapJoin(s);
      Join(CapitalizeWords(Split(s, ' ')), " ")
  }

  // ---------------------------------------------------------------- properties

  lemma {:induction false} SplitMapJoin(s: string)
    ensures CapitalizedFrom(s, Join(CapitalizeWords(Split(s, ' ')), " "))
    decreases |s|
  {
    var n := PartLength(s, ' ');
    SplitFirst(s, ' ');
    var w := s[..n];
    if n == |s| {
      assert w == s;
      assert Join(CapitalizeWords(Split(s, ' ')), " ") == CapitalizeWord(s);
    } else {
      var rest := s[n + 1..];
      SplitMapJoin(rest);
      var ws := CapitalizeWords(Split(s, ' '));
      assert ws == [CapitalizeWord(w)] + CapitalizeWords(Split(rest, ' '));
      assert ws[1..] == CapitalizeWords(Split(rest, ' '));
      assert s == w + " " + rest;
      WordThenRest(w, rest, Join(CapitalizeWords(Split(rest, ' ')), " "));
    }
  }

  /** A first word, a space, and the rest: the word is capitalized on its own
      and the rest starts a new word. */
  lemma WordThenRest(w: string, rest: string, tail: string)
    requires FreeOf(w, ' ')
    requires CapitalizedFrom(rest, tail)
    ensures CapitalizedFrom(w + " " + rest, CapitalizeWord(w) + " " + tail)
  {
    var s := w + " " + rest;
    var r := CapitalizeWord(w) + " " + tail;
    var n := |w|;
    forall i | 0 <= i < |s|
      ensures r[i] == CapitalizedAt(s, i)
    {
      if i < n {
        assert s[i] == w[i];
      } else if i > n {
        assert r[i] == tail[i - n - 1];
        assert s[i] == rest[i - n - 1];
        if i - n - 1 > 0 {
          assert s[i - 1] == rest[i - n - 2];
        }
      }
    }
  }

  /** Case mapping keeps a space a space and anything else not a space, and
      mapping a mapped character again gives what mapping the original
      gives. */
  lemma CaseOfCase(c: char)
    ensures (UpperChar(c) == ' ' <==> c == ' ') && (LowerChar(c) == ' ' <==> c == ' ')
    ensures UpperChar(UpperChar(c)) == UpperChar(c) && UpperChar(LowerChar(c)) == UpperChar(c)
    ensures LowerChar(LowerChar(c)) == LowerChar(c) && LowerChar(UpperChar(c)) == LowerChar(c)
  {
  }

  /** Capitalizing keeps every space where it was and puts none elsewhere. */
  lemma SpacesKept(s: string, r: string, i: int)
    requires CapitalizedFrom(s, r) && 0 <= i < |s|
    ensures r[i] == ' ' <==> s[i] == ' '
  {
    CaseOfCase(s[i]);
  }

  /** Capitalizing twice is capitalizing once. */
  lemma CapitalizeIdempotent(s: string)
    ensures CapitalizeName(CapitalizeName(s)) == CapitalizeName(s)
  {
    var r := CapitalizeName(s);
    var rr := CapitalizeName(r);
    assert CapitalizedFrom(s, r) && CapitalizedFrom(r, rr);
    forall i | 0 <= i < |s|
      ensures rr[i] == r[i]
    {
      SpacesKept(s, r, i);
      if i > 0 {
        SpacesKept(s, r, i - 1);
      }
      CaseOfCase(s[i]);
      assert rr[i] == CapitalizedAt(r, i);
      assert r[i] == CapitalizedAt(s, i);
    }
  }

  function CountSpaces(s: string): nat {
    if s == [] then 0 else (if s[0] == ' ' then 1 else 0) + CountSpaces(s[1..])
  }

  lemma {:induction false} SameSpacesSameCount(a: string, b: string)
    requires |a| == |b|
    requires forall i :: 0 <= i < |a| ==> (a[i] == ' ' <==> b[i] == ' ')
    ensures CountSpaces(a) == CountSpaces(b)
  {
    if a != [] {
      SameSpacesSameCount(a[1..], b[1..]);
    }
  }

  lemma {:induction false} SplitCountsSpaces(s: string)
    ensures |Split(s, ' ')| == CountSpaces(s) + 1
    decreases |s|
  {
    var n := PartLength(s, ' ');
    SplitFirst(s, ' ');
    CountSpacesPrefix(s, n);
    if n < |s| {
      SplitCountsSpaces(s[n + 1..]);
      assert s[n..][1..] == s[n + 1..];
    }
  }

  lemma {:induction false} CountSpacesPrefix(s: string, n: int)
    requires 0 <= n <= |s|
    requires FreeOf(s[..n], ' ')
    ensures CountSpaces(s) == CountSpaces(s[n..])
  {
    if n > 0 {
      assert s[..n][1..] == s[1..][..n - 1];
      CountSpacesPrefix(s[1..], n - 1);
      assert s[1..][n - 1..] == s[n..];
    }
  }

  /** The output keeps the length, the spaces and so the number of words,
      empty words between repeated spaces included. */
  lemma CapitalizeKeepsWords(s: string)
    ensures |CapitalizeName(s)| == |s|
    ensures forall i :: 0 <= i < |s| ==> (CapitalizeName(s)[i] == ' ' <==> s[i] == ' ')
    ensures |Split(CapitalizeName(s), ' ')| == |Split(s, ' ')|
  {
    var r := CapitalizeName(s);
    SameSpacesSameCount(r, s);
    SplitCountsSpaces(r);
    SplitCountsSpaces(s);
  }
}

/** The string operations the serial dispatcher relies on: ASCII upper-casing
    (`str.upper`), whitespace stripping (`str.strip`) and splitting on runs of
    whitespace (`str.split()` with no separator). Whitespace is the ASCII set
    tab, line feed, vertical tab, form feed, carriage return and space. */
module Text {

  predicate IsSpace(c: char)
  {
    c == ' ' || 9 <= c as int <= 13
  }

  predicate IsLower(c: char)
  {
    'a' <= c <= 'z'
  }

  predicate AllSpace(s: string)
  {
    forall i :: 0 <= i < |s| ==> IsSpace(s[i])
  }

  /** A token as `split()` produces it: non-empty, with no whitespace in it. */
  predicate IsWord(w: string)
  {
    w != [] && forall i :: 0 <= i < |w| ==> !IsSpace(w[i])
  }

  function UpperChar(c: char): char
  {
    if IsLower(c) then (c as int - 32) as char else c
  }

  /** `s.upper()`: every lower-case ASCII letter replaced by its capital. */
  function Upper(s: string): (r: string)
    ensures |r| == |s|
    ensures forall i :: 0 <= i < |s| ==> r[i] == UpperChar(s[i])
    ensures forall i :: 0 <= i < |r| ==> !IsLower(r[i])
  {
    if s == [] then [] else [UpperChar(s[0])] + Upper(s[1..])
  }

  /** Upper-casing twice is upper-casing once, so a name that the dispatcher
      has already upper-cased is left alone by a second `upper()`. */
  lemma UpperIdempotent(s: string)
    ensures Upper(Upper(s)) == Upper(s)
  {
    assert forall i :: 0 <= i < |s| ==> Upper(Upper(s))[i] == Upper(s)[i];
  }

  /** Length of the leading run of whitespace. */
  function LeadingSpace(s: string): (n: nat)
    ensures n <= |s| && AllSpace(s[..n])
    ensures n < |s| ==> !IsSpace(s[n])
  {
    if s != [] && IsSpace(s[0]) then 1 + LeadingSpace(s[1..]) else 0
  }

  /** Length of the trailing run of whitespace. */
  function TrailingSpace(s: string): (n: nat)
    ensures n <= |s| && AllSpace(s[|s| - n..])
    ensures n < |s| ==> !IsSpace(s[|s| - 1 - n])
  {
    if s != [] && IsSpace(s[|s| - 1]) then 1 + TrailingSpace(s[..|s| - 1]) else 0
  }

  /** `s.strip()`: the string without its leading and trailing whitespace. */
  function Strip(s: string): (r: string)
    ensures exists i, j :: 0 <= i <= j <= |s| && r == s[i..j] && AllSpace(s[..i]) && AllSpace(s[j..])
    ensures r == [] || (!IsSpace(r[0]) && !IsSpace(r[|r| - 1]))
    ensures r == [] <==> AllSpace(s)
  {
    var i := LeadingSpace(s);
    var t := s[i..];
    var r := t[..|t| - TrailingSpace(t)];
    assert r == s[i..i + |r|] && AllSpace(s[i + |r|..]) by {
      assert s[i + |r|..] == t[|t| - TrailingSpace(t)..];
    }
    assert r == [] ==> AllSpace(s) by {
      if r == [] {
        assert t[|t| - TrailingSpace(t)..] == t;
        assert LeadingSpace(s) == |s|;
        assert s[..LeadingSpace(s)] == s;
      }
    }
    r
  }

  /** Length of the leading run of non-whitespace: the first token when the
      string does not start with whitespace. */
  function TokenLength(s: string): (n: nat)
    ensures n <= |s|
    ensures forall i :: 0 <= i < n ==> !IsSpace(s[i])
    ensures n < |s| ==> IsSpace(s[n])
  {
    if s == [] || IsSpace(s[0]) then 0 else 1 + TokenLength(s[1..])
  }

  /** `s.split()`: the maximal runs of non-whitespace, in order. */
  function Split(s: string): (r: seq<string>)
    ensures forall i :: 0 <= i < |r| ==> IsWord(r[i])
    ensures r == [] <==> AllSpace(s)
    decreases |s|
  {
    if s == [] then []
    else if IsSpace(s[0]) then Split(s[1..])
    else
      var n := TokenLength(s);
      [s[..n]] + Split(s[n..])
  }

  /** Words separated by single spaces: the shape of a command line. */
  function Join(ws: seq<string>): string
  {
    if |ws| == 0 then []
    else if |ws| == 1 then ws[0]
    else ws[0] + [' '] + Join(ws[1..])
  }

  lemma TokenLengthIs(s: string, n: nat)
    requires n <= |s|
    requires forall i :: 0 <= i < n ==> !IsSpace(s[i])
    requires n < |s| ==> IsSpace(s[n])
    ensures TokenLength(s) == n
  {
  }

  /** Splitting a word followed by a space and more text yields the word and
      then the split of the rest. */
  lemma SplitWordThen(w: string, rest: string)
    requires IsWord(w)
    ensures Split(w + [' '] + rest) == [w] + Split(rest)
  {
    var s := w + [' '] + rest;
    TokenLengthIs(s, |w|);
    assert s[..|w|] == w;
    assert s[|w|..] == [' '] + rest;
    assert ([' '] + rest)[1..] == rest;
  }

  lemma SplitWord(w: string)
    requires IsWord(w)
    ensures Split(w) == [w]
  {
    TokenLengthIs(w, |w|);
    assert w[..|w|] == w;
  }

  /** Round trip: splitting words joined by spaces gives the words back. */
  lemma {:induction false} SplitJoin(ws: seq<string>)
    requires forall i :: 0 <= i < |ws| ==> IsWord(ws[i])
    ensures Split(Join(ws)) == ws
  {
    if |ws| == 1 {
      SplitWord(ws[0]);
    } else if |ws| > 1 {
      SplitWordThen(ws[0], Join(ws[1..]));
      SplitJoin(ws[1..]);
    }
  }

  /** Whitespace in front of the text does not change its split. */
  lemma {:induction false} SplitDropLeading(s: string, k: nat)
    requires k <= |s| && AllSpace(s[..k])
    ensures Split(s[k..]) == Split(s)
  {
    if k > 0 {
      assert s[..k][0] == s[0];
      assert s[1..][..k - 1] == s[1..k];
      SplitDropLeading(s[1..], k - 1);
      assert s[1..][k - 1..] == s[k..];
    }
  }

  /** Whitespace after the text does not change its split. */
  lemma {:induction false} SplitDropTrailing(s: string, k: nat)
    requires k <= |s| && AllSpace(s[k..])
    ensures Split(s[..k]) == Split(s)
    decreases |s|
  {
    if k == |s| {
      assert s[..k] == s;
    } else if k == 0 {
      assert s[k..] == s;
    } else if IsSpace(s[0]) {
      assert s[..k][1..] == s[1..][..k - 1];
      assert s[1..][k - 1..] == s[k..];
      SplitDropTrailing(s[1..], k - 1);
    } else {
      var n := TokenLength(s);
      assert IsSpace(s[k]) by {
        assert s[k..][0] == s[k];
      }
      assert n <= k;
      assert n >= 1;
      TokenLengthIs(s[..k], n);
      assert s[..k][..n] == s[..n];
      assert s[..k][n..] == s[n..][..k - n];
      assert s[n..][k - n..] == s[k..];
      SplitDropTrailing(s[n..], k - n);
    }
  }

  /** Splitting the stripped line gives the same tokens as splitting the line. */
  lemma SplitStrip(s: string)
    ensures Split(Strip(s)) == Split(s)
  {
    var a := LeadingSpace(s);
    var t := s[a..];
    var b := TrailingSpace(t);
    SplitDropLeading(s, a);
    assert t[|t| - b..] == t[|t| - b..];
    SplitDropTrailing(t, |t| - b);
  }

  /** A non-empty run of whitespace separates tokens: the tokens of `a`, then
      those of `b`. So tabs and repeated spaces between words split them as a
      single space does. */
  lemma {:induction false} SplitSeparated(a: string, sep: string, b: string)
    requires sep != [] && AllSpace(sep)
    ensures Split(a + sep + b) == Split(a) + Split(b)
    decreases |a|
  {
    var s := a + sep + b;
    if a == [] {
      assert s == sep + b;
      assert s[..|sep|] == sep;
      SplitDropLeading(s, |sep|);
      assert s[|sep|..] == b;
    } else if IsSpace(a[0]) {
      assert s[1..] == a[1..] + sep + b;
      SplitSeparated(a[1..], sep, b);
    } else {
      var n := TokenLength(a);
      assert s[n] == (if n < |a| then a[n] else sep[0]) by {
        if n == |a| {
          assert s[n] == sep[0];
        }
      }
      TokenLengthIs(s, n);
      assert s[..n] == a[..n];
      assert s[n..] == a[n..] + sep + b;
      SplitSeparated(a[n..], sep, b);
    }
  }
}

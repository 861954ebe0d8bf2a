/**
 The string primitives game_agent.py relies on: `str.lower()` (ASCII letters
 only), `str.strip()`, the substring test `key in text`, and `" ".join(...)`
 with its inverse `split(" ")` as a reference definition.
 */
module Text {

  /* ---------------------------------------------------------------- lower */

  predicate IsAsciiUpper(c: char) {
    'A' <= c <= 'Z'
  }

  function LowerChar(c: char): char {
    if IsAsciiUpper(c) then (c as int + 32) as char else c
  }

  /** `s.lower()`, folding the ASCII letters A-Z only. */
  function Lower(s: string): (r: string)
    ensures |r| == |s|
    ensures forall i :: 0 <= i < |s| ==> r[i] == LowerChar(s[i])
  {
    if s == [] then [] else [LowerChar(s[0])] + Lower(s[1..])
  }

  /** Lowering leaves no upper-case letter behind, and lowering twice is lowering once. */
  lemma LowerIdempotent(s: string)
    ensures forall i :: 0 <= i < |Lower(s)| ==> !IsAsciiUpper(Lower(s)[i])
    ensures Lower(Lower(s)) == Lower(s)
  {
    var r := Lower(s);
    assert forall i :: 0 <= i < |r| ==> LowerChar(r[i]) == r[i];
  }

  /** Characters other than A-Z are untouched: a string without upper-case ASCII letters is its own lower form. */
  lemma LowerFixesLowerCase(s: string)
    requires forall i :: 0 <= i < |s| ==> !IsAsciiUpper(s[i])
    ensures Lower(s) == s
  {
  }

  /* ---------------------------------------------------------------- strip */

  /** The characters Python's `str.isspace()` accepts, which `str.strip()` removes. */
  predicate IsSpace(c: char) {
    var n := c as int;
    n == 0x20 || 0x09 <= n <= 0x0D || 0x1C <= n <= 0x1F || n == 0x85 || n == 0xA0
    || n == 0x1680 || 0x2000 <= n <= 0x200A || n == 0x2028 || n == 0x2029
    || n == 0x202F || n == 0x205F || n == 0x3000
  }

  predicate AllSpace(s: string) {
    forall i :: 0 <= i < |s| ==> IsSpace(s[i])
  }

  /** Neither end of `s` is whitespace. */
  predicate Stripped(s: string) {
    s == [] || (!IsSpace(s[0]) && !IsSpace(s[|s| - 1]))
  }

  function TrimStart(s: string): string {
    if s != [] && IsSpace(s[0]) then TrimStart(s[1..]) else s
  }

  function TrimEnd(s: string): string {
    if s != [] && IsSpace(s[|s| - 1]) then TrimEnd(s[..|s| - 1]) else s
  }

  /** `s.strip()`. */
  function Strip(s: string): string {
    TrimEnd(TrimStart(s))
  }

  /** `r` is the slice `s[i..j]` and everything cut off on either side is whitespace. */
  predicate IsTrimOf(r: string, s: string, i: int, j: int) {
    0 <= i <= j <= |s| && r == s[i..j] && AllSpace(s[..i]) && AllSpace(s[j..])
  }

  lemma {:induction false} TrimStartCuts(s: string) returns (i: nat)
    ensures i <= |s| && TrimStart(s) == s[i..] && AllSpace(s[..i])
    ensures TrimStart(s) == [] || !IsSpace(TrimStart(s)[0])
  {
    if s != [] && IsSpace(s[0]) {
      var k := TrimStartCuts(s[1..]);
      i := k + 1;
      assert s[..i] == [s[0]] + s[1..][..k];
    } else {
      i := 0;
    }
  }

  lemma {:induction false} TrimEndCuts(s: string) returns (j: nat)
    ensures j <= |s| && TrimEnd(s) == s[..j] && AllSpace(s[j..])
    ensures TrimEnd(s) == [] || !IsSpace(TrimEnd(s)[|TrimEnd(s)| - 1])
  {
    if s != [] && IsSpace(s[|s| - 1]) {
      var t := s[..|s| - 1];
      j := TrimEndCuts(t);
      assert s[j..] == t[j..] + [s[|s| - 1]];
      assert t[..j] == s[..j];
    } else {
      j := |s|;
    }
  }

  /** TrimEnd of a string that starts with a non-space keeps that first character. */
  lemma {:induction false} TrimEndKeepsHead(s: string)
    requires s != [] && !IsSpace(s[0])
    ensures TrimEnd(s) != [] && TrimEnd(s)[0] == s[0]
  {
    if IsSpace(s[|s| - 1]) {
      TrimEndKeepsHead(s[..|s| - 1]);
    }
  }

  /** `strip()` returns a slice of its input with whitespace removed from both ends and nowhere else. */
  lemma StripIsTrim(s: string)
    ensures Stripped(Strip(s))
    ensures exists i, j :: IsTrimOf(Strip(s), s, i, j)
  {
    var i := TrimStartCuts(s);
    var t := s[i..];
    var j := TrimEndCuts(t);
    if t != [] {
      TrimEndKeepsHead(t);
    }
    assert s[..i + j] == s[..i] + t[..j];
    assert s[i + j..] == t[j..];
    assert AllSpace(s[..i + j][..i]) by { assert s[..i + j][..i] == s[..i]; }
    assert IsTrimOf(Strip(s), s, i, i + j);
  }

  /** A line strips to the empty string exactly when it is all whitespace. */
  lemma StripEmptyIff(s: string)
    ensures Strip(s) == [] <==> AllSpace(s)
  {
    StripIsTrim(s);
    var i, j :| IsTrimOf(Strip(s), s, i, j);
    if Strip(s) == [] {
      assert i == j;
      forall k | 0 <= k < |s| ensures IsSpace(s[k]) {
        if k < i { assert s[k] == s[..i][k]; } else { assert s[k] == s[j..][k - j]; }
      }
    } else {
      assert s[i] == Strip(s)[0];
      assert !IsSpace(s[i]);
    }
  }

  /** A string with no whitespace at either end is left as it is; hence stripping twice is stripping once. */
  lemma StripIdempotent(s: string)
    ensures Stripped(s) ==> Strip(s) == s
    ensures Strip(Strip(s)) == Strip(s)
  {
    StripIsTrim(s);
    var r := Strip(s);
    assert Stripped(r) ==> TrimStart(r) == r;
  }

  /* ------------------------------------------------------------ substring */

  /** `pat` occurs in `text` at position `i`. */
  predicate OccursAt(text: string, pat: string, i: int) {
    0 <= i && i + |pat| <= |text| && text[i..i + |pat|] == pat
  }

  /** Python's `pat in text` for strings. */
  function Contains(text: string, pat: string): bool
    decreases |text|
  {
    if |pat| > |text| then false
    else if text[..|pat|] == pat then true
    else Contains(text[1..], pat)
  }

  /** `pat in text` holds exactly when `pat` occurs at some position of `text`. */
  lemma {:induction false} ContainsIff(text: string, pat: string)
    ensures Contains(text, pat) <==> exists i :: OccursAt(text, pat, i)
    decreases |text|
  {
    if |pat| > |text| {
    } else if text[..|pat|] == pat {
      assert OccursAt(text, pat, 0);
    } else {
      ContainsIff(text[1..], pat);
      if Contains(text[1..], pat) {
        var i :| OccursAt(text[1..], pat, i);
        assert text[1..][i..i + |pat|] == text[i + 1..i + 1 + |pat|];
        assert OccursAt(text, pat, i + 1);
      } else {
        forall i | OccursAt(text, pat, i) ensures false {
          assert i != 0;
          assert text[1..][i - 1..i - 1 + |pat|] == text[i..i + |pat|];
          assert OccursAt(text[1..], pat, i - 1);
        }
      }
    }
  }

  /** A pattern holding a character the text lacks does not occur in it. */
  lemma AbsentCharNotContained(text: string, pat: string, c: char)
    requires c in pat
    requires forall i :: 0 <= i < |text| ==> text[i] != c
    ensures !Contains(text, pat)
  {
    ContainsIff(text, pat);
  }

  /** A pattern longer than the text never occurs in it; the empty pattern always does. */
  lemma ContainsBounds(text: string, pat: string)
    ensures |pat| > |text| ==> !Contains(text, pat)
    ensures pat == [] ==> Contains(text, pat)
  {
  }

  /* ---------------------------------------------------------- join, split */

  /** `" ".join(words)`. */
  function Join(words: seq<string>): string {
    if |words| == 0 then ""
    else if |words| == 1 then words[0]
    else words[0] + " " + Join(words[1..])
  }

  /** `s.split(" ")`: the pieces between single spaces, empty pieces kept. */
  function Split(s: string): (r: seq<string>)
    ensures |r| >= 1
  {
    if s == [] then [""]
    else
      var rest := Split(s[1..]);
      if s[0] == ' ' then [""] + rest else [[s[0]] + rest[0]] + rest[1..]
  }

  predicate NoSpace(w: string) {
    forall i :: 0 <= i < |w| ==> w[i] != ' '
  }

  /** A space-free word glues onto the first piece of whatever follows it. */
  lemma {:induction false} SplitGlues(w: string, t: string)
    requires NoSpace(w)
    ensures Split(w + t) == [w + Split(t)[0]] + Split(t)[1..]
    decreases |w|
  {
    if w == [] {
      assert w + t == t;
      assert w + Split(t)[0] == Split(t)[0];
    } else {
      SplitGlues(w[1..], t);
      assert (w + t)[1..] == w[1..] + t;
      assert [w[0]] + (w[1..] + Split(t)[0]) == w + Split(t)[0];
    }
  }

  /** A space-free word followed by a space is split off as one piece. */
  lemma SplitWordSpace(w: string, t: string)
    requires NoSpace(w)
    ensures Split(w + " " + t) == [w] + Split(t)
  {
    SplitGlues(w, " " + t);
    assert w + " " + t == w + (" " + t);
    assert (" " + t)[1..] == t;
    assert w + "" == w;
  }

  /** Splitting the joined command-line words on spaces gives the words back, when no word holds a space. */
  lemma {:induction false} SplitJoin(words: seq<string>)
    requires |words| >= 1
    requires forall k :: 0 <= k < |words| ==> NoSpace(words[k])
    ensures Split(Join(words)) == words
  {
    if |words| == 1 {
      SplitGlues(words[0], "");
      assert words[0] + "" == words[0];
    } else {
      SplitJoin(words[1..]);
      SplitWordSpace(words[0], Join(words[1..]));
      assert [words[0]] + words[1..] == words;
    }
  }
}

/** The string operations the assistant and the chat handler rely on:
    Python's `str.strip()`, `str.lower()` and the substring test `p in s`. */
module Text {

  import opened Seqs

  /** The code points Python's `str.isspace` accepts, which are the ones
      `str.strip()` with no argument removes from either end. */
  predicate IsSpace(c: char)
  {
    || ('\t' <= c <= '\r')
    || ('\U{1C}' <= c <= '\U{1F}')
    || c == ' '
    || c == '\U{85}'
    || c == '\U{A0}'
    || c == '\U{1680}'
    || ('\U{2000}' <= c <= '\U{200A}')
    || c == '\U{2028}'
    || c == '\U{2029}'
    || c == '\U{202F}'
    || c == '\U{205F}'
    || c == '\U{3000}'
  }

  ghost predicate AllSpace(s: string)
  {
    forall i :: 0 <= i < |s| ==> IsSpace(s[i])
  }

  /** The number of whitespace characters `s` starts with. */
  function LeadingSpace(s: string): (n: nat)
    ensures n <= |s|
    ensures forall i :: 0 <= i < n ==> IsSpace(s[i])
    ensures n < |s| ==> !IsSpace(s[n])
  {
    if |s| > 0 && IsSpace(s[0]) then
      assert forall i :: 1 <= i < |s| ==> s[i] == s[1..][i - 1];
      1 + LeadingSpace(s[1..])
    else
      0
  }

  /** The number of whitespace characters `s` ends with. */
  function TrailingSpace(s: string): (n: nat)
    ensures n <= |s|
    ensures forall i :: |s| - n <= i < |s| ==> IsSpace(s[i])
    ensures n < |s| ==> !IsSpace(s[|s| - 1 - n])
  {
    if |s| > 0 && IsSpace(s[|s| - 1]) then
      1 + TrailingSpace(s[..|s| - 1])
    else
      0
  }

  predicate StartsWith(s: string, p: string)
  {
    |p| <= |s| && s[..|p|] == p
  }

  /** `p` occurs somewhere in `s`. */
  ghost predicate IsSubstring(p: string, s: string)
  {
    exists i :: 0 <= i <= |s| && StartsWith(s[i..], p)
  }

  /** Python's `s.strip()`: `s` without its leading and trailing whitespace. */
  function Strip(s: string): (r: string)
    ensures |r| <= |s|
    ensures r == [] <==> AllSpace(s)
    ensures r != [] ==> !IsSpace(r[0]) && !IsSpace(r[|r| - 1])
  {
    var a := LeadingSpace(s);
    var t := s[a..];
    var b := TrailingSpace(t);
    if a == |s| then
      []
    else
      assert t[0] == s[a];
      assert !AllSpace(s) by { assert !IsSpace(s[a]); }
      t[..|t| - b]
  }

  /** What `Strip` removes is whitespace at the two ends, and what it keeps
      is one contiguous piece of `s`. */
  lemma StripIsInfix(s: string)
    ensures exists a :: && 0 <= a <= |s|
                         && StartsWith(s[a..], Strip(s))
                         && AllSpace(s[..a])
                         && AllSpace(s[a + |Strip(s)|..])
  {
    var a := LeadingSpace(s);
    var t := s[a..];
    var b := TrailingSpace(t);
    var r := Strip(s);
    if a == |s| {
      assert r == [] && s[..a] == s;
      assert StartsWith(s[a..], r) && AllSpace(s[..a]) && AllSpace(s[a + |r|..]);
    } else {
      assert r == t[..|t| - b];
      assert t[..|r|] == r;
      assert s[a + |r|..] == t[|t| - b..];
      assert AllSpace(s[..a]) && AllSpace(s[a + |r|..]) && StartsWith(s[a..], r);
    }
  }

  /** Stripping an already stripped string changes nothing. */
  lemma StripIdempotent(s: string)
    ensures Strip(Strip(s)) == Strip(s)
  {
    var r := Strip(s);
    var r' := Strip(r);
    if r != [] {
      StripIsInfix(r);
      var a :| 0 <= a <= |r| && StartsWith(r[a..], r') && AllSpace(r[..a]) && AllSpace(r[a + |r'|..]);
      assert a == 0;
      assert r' == r[..|r'|];
      assert |r'| == |r|;
    }
  }

  /** Python's `c.lower()` restricted to ASCII capitals. */
  function LowerChar(c: char): char
  {
    if 'A' <= c <= 'Z' then (c as int + 32) as char else c
  }

  /** Python's `s.lower()` on the ASCII letters: same length, each capital
      replaced by its small letter. */
  function Lower(s: string): (r: string)
    ensures |r| == |s|
    ensures forall i :: 0 <= i < |s| ==> r[i] == LowerChar(s[i])
  {
    seq(|s|, i requires 0 <= i < |s| => LowerChar(s[i]))
  }

  /** Python's `p in s`, scanning the start positions of `s` left to right. */
  predicate Contains(s: string, p: string)
    decreases |s|
  {
    StartsWith(s, p) || (|s| > 0 && Contains(s[1..], p))
  }

  /** The scan finds `p` exactly when `p` occurs in `s`. */
  lemma {:induction false} ContainsIffSubstring(s: string, p: string)
    ensures Contains(s, p) <==> IsSubstring(p, s)
    decreases |s|
  {
    if StartsWith(s, p) {
      assert s[0..] == s;
    } else if |s| == 0 {
      assert !IsSubstring(p, s) by { assert s[0..] == s; }
    } else {
      ContainsIffSubstring(s[1..], p);
      if Contains(s[1..], p) {
        var j :| 0 <= j <= |s[1..]| && StartsWith(s[1..][j..], p);
        assert s[1..][j..] == s[j + 1..];
      }
      if IsSubstring(p, s) {
        var i :| 0 <= i <= |s| && StartsWith(s[i..], p);
        assert i != 0 by { assert s[0..] == s; }
        assert s[i..] == s[1..][i - 1..];
      }
    }
  }
}

/** Python's `str.strip()` on Dafny strings. */
module Text {

  /** The characters for which Python's `str.isspace()` holds; these are the
      ones `str.strip()` removes when it is called without arguments. */
  predicate IsSpace(c: char) {
    || ('\t' <= c <= '\r')
    || ('\U{1C}' <= c <= '\U{1F}')
    || c == ' '
    || c == '\U{85}'
    || c == '\U{A0}'
    || c == '\U{1680}'
    || ('\U{2000}' <= c <= '\U{200A}')
    || c == '\U{2028}'
    || c == '\U{2029}'
    || c == '\U{202F}'
    || c == '\U{205F}'
    || c == '\U{3000}'
  }

  /** A string made only of whitespace (possibly empty). */
  predicate AllSpace(s: string) {
    forall i :: 0 <= i < |s| ==> IsSpace(s[i])
  }

  /** A string that neither starts nor ends with whitespace. */
  predicate Trimmed(s: string) {
    |s| == 0 || (!IsSpace(s[0]) && !IsSpace(s[|s| - 1]))
  }

  /** Drops the leading whitespace. */
  function TrimStart(s: string): string {
    if |s| > 0 && IsSpace(s[0]) then TrimStart(s[1..]) else s
  }

  /** Drops the trailing whitespace. */
  function TrimEnd(s: string): string {
    if |s| > 0 && IsSpace(s[|s| - 1]) then TrimEnd(s[..|s| - 1]) else s
  }

  /** What TrimStart drops is all whitespace, and what it keeps is a suffix
      that does not start with whitespace. */
  lemma {:induction false} TrimStartShape(s: string)
    ensures |TrimStart(s)| <= |s| && TrimStart(s) == s[|s| - |TrimStart(s)|..]
    ensures AllSpace(s[..|s| - |TrimStart(s)|])
    ensures |TrimStart(s)| == 0 || !IsSpace(TrimStart(s)[0])
    decreases |s|
  {
    if |s| > 0 && IsSpace(s[0]) {
      var t := s[1..];
      TrimStartShape(t);
      var k := |t| - |TrimStart(t)|;
      assert s[1 + k..] == t[k..];
      assert s[..1 + k] == [s[0]] + t[..k];
    }
  }

  /** What TrimEnd drops is all whitespace, and what it keeps is a prefix
      that does not end with whitespace. */
  lemma {:induction false} TrimEndShape(s: string)
    ensures |TrimEnd(s)| <= |s| && TrimEnd(s) == s[..|TrimEnd(s)|]
    ensures AllSpace(s[|TrimEnd(s)|..])
    ensures |TrimEnd(s)| == 0 || !IsSpace(TrimEnd(s)[|TrimEnd(s)| - 1])
    decreases |s|
  {
    if |s| > 0 && IsSpace(s[|s| - 1]) {
      var t := s[..|s| - 1];
      TrimEndShape(t);
      var k := |TrimEnd(t)|;
      assert s[..k] == t[..k];
      assert s[k..] == t[k..] + [s[|s| - 1]];
    }
  }

  /** `s.strip()`. */
  function Strip(s: string): string {
    TrimEnd(TrimStart(s))
  }

  /** The stripped text neither starts nor ends with whitespace. */
  lemma StripTrimmed(s: string)
    ensures Trimmed(Strip(s))
  {
    var t := TrimStart(s);
    var r := TrimEnd(t);
    TrimStartShape(s);
    TrimEndShape(t);
    if |r| > 0 {
      assert r[0] == t[0];
    }
  }

  /** The original is the stripped text with whitespace on either side:
      `lead` and `trail` are what `strip()` removed. */
  lemma StripPadding(s: string) returns (lead: string, trail: string)
    ensures AllSpace(lead) && AllSpace(trail)
    ensures s == lead + Strip(s) + trail
  {
    var t := TrimStart(s);
    var r := TrimEnd(t);
    TrimStartShape(s);
    TrimEndShape(t);
    var k := |s| - |t|;
    lead, trail := s[..k], t[|r|..];
    assert s == lead + t;
    assert t == r + trail;
  }

  lemma {:induction false} TrimStartOfPadded(lead: string, m: string)
    requires AllSpace(lead)
    requires |m| == 0 || !IsSpace(m[0])
    ensures TrimStart(lead + m) == m
    decreases |lead|
  {
    if |lead| > 0 {
      assert (lead + m)[1..] == lead[1..] + m;
      TrimStartOfPadded(lead[1..], m);
    } else {
      assert lead + m == m;
    }
  }

  lemma {:induction false} TrimEndOfPadded(m: string, trail: string)
    requires AllSpace(trail)
    requires |m| == 0 || !IsSpace(m[|m| - 1])
    ensures TrimEnd(m + trail) == m
    decreases |trail|
  {
    if |trail| > 0 {
      assert (m + trail)[..|m + trail| - 1] == m + trail[..|trail| - 1];
      TrimEndOfPadded(m, trail[..|trail| - 1]);
    } else {
      assert m + trail == m;
    }
  }

  /** The converse of Strip's contract: whitespace padding around a trimmed
      string is exactly what `strip()` removes. */
  lemma StripOfPadded(lead: string, m: string, trail: string)
    requires AllSpace(lead) && AllSpace(trail) && Trimmed(m)
    ensures Strip(lead + m + trail) == m
  {
    if |m| == 0 {
      assert lead + m + trail == lead + trail;
      assert AllSpace(lead + trail);
      TrimStartOfPadded(lead + trail, "");
      assert lead + trail + "" == lead + trail;
      TrimEndOfPadded("", "");
    } else {
      assert lead + m + trail == lead + (m + trail);
      TrimStartOfPadded(lead, m + trail);
      TrimEndOfPadded(m, trail);
    }
  }

  /** Stripping twice is the same as stripping once. */
  lemma StripIdempotent(s: string)
    ensures Strip(Strip(s)) == Strip(s)
  {
    var r := Strip(s);
    StripTrimmed(s);
    assert AllSpace("");
    assert "" + r + "" == r;
    StripOfPadded("", r, "");
  }
}

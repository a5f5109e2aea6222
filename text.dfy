/** Case folding of strings, as used by the codecs (`str.lower()`). */
module Text {

  /** True of the letters 'A' to 'Z'. */
  predicate IsUpper(c: char)
  {
    'A' <= c <= 'Z'
  }

  /** Lower-cases one ASCII letter; every other character is left as it is. */
  function LowerChar(c: char): (r: char)
    ensures !IsUpper(r)
    ensures IsUpper(c) ==> r as int == c as int + 32
    ensures !IsUpper(c) ==> r == c
  {
    if IsUpper(c) then (c as int + 32) as char else c
  }

  /** `s.lower()`, restricted to ASCII case folding. */
  function Lower(s: string): (r: string)
    ensures |r| == |s|
    ensures forall i :: 0 <= i < |s| ==> r[i] == LowerChar(s[i])
  {
    seq(|s|, i requires 0 <= i < |s| => LowerChar(s[i]))
  }

  /** A string that lower-casing leaves unchanged. */
  predicate IsLowerCase(s: string)
  {
    forall i :: 0 <= i < |s| ==> !IsUpper(s[i])
  }

  /** Lower-casing yields a lower-case string and leaves a lower-case one unchanged. */
  lemma LowerIsLowerCase(s: string)
    ensures IsLowerCase(Lower(s))
    ensures IsLowerCase(s) ==> Lower(s) == s
  {
  }

  /** The characters Python counts as whitespace, which `str.strip()` removes from both ends. */
  predicate IsSpace(c: char)
  {
    ('\t' <= c <= '\r') || ('\U{1c}' <= c <= ' ') || c == '\U{85}' || c == '\U{a0}' || c == '\U{1680}' ||
    ('\U{2000}' <= c <= '\U{200a}') || c == '\U{2028}' || c == '\U{2029}' || c == '\U{202f}' ||
    c == '\U{205f}' || c == '\U{3000}'
  }

  /** `s.lstrip()`: the suffix of `s` left once its leading whitespace is removed. */
  function TrimStart(s: string): (r: string)
    ensures |r| <= |s| && r == s[|s| - |r|..]
    ensures forall k :: 0 <= k < |s| - |r| ==> IsSpace(s[k])
    ensures r != "" ==> !IsSpace(r[0])
  {
    if s != "" && IsSpace(s[0]) then TrimStart(s[1..]) else s
  }

  /** `s.rstrip()`: the prefix of `s` left once its trailing whitespace is removed. */
  function TrimEnd(s: string): (r: string)
    ensures |r| <= |s| && r == s[..|r|]
    ensures forall k :: |r| <= k < |s| ==> IsSpace(s[k])
    ensures r != "" ==> !IsSpace(r[|r| - 1])
  {
    if s != "" && IsSpace(s[|s| - 1]) then TrimEnd(s[..|s| - 1]) else s
  }

  /** `s` is `r` with only whitespace before it (`lead` characters) and after it. */
  predicate Surrounds(s: string, lead: nat, r: string)
  {
    lead + |r| <= |s| && r == s[lead..lead + |r|] &&
    (forall k :: 0 <= k < lead ==> IsSpace(s[k])) &&
    (forall k :: lead + |r| <= k < |s| ==> IsSpace(s[k]))
  }

  /**
   * `s.strip()`: the middle of `s` with only whitespace around it, empty exactly when `s` is
   * all whitespace; otherwise it starts and ends with a character that is not whitespace, and
   * a string that already does is left as it is.
   */
  function Strip(s: string): (r: string)
    ensures exists lead: nat :: Surrounds(s, lead, r)
    ensures r == "" <==> forall k :: 0 <= k < |s| ==> IsSpace(s[k])
    ensures r != "" ==> !IsSpace(r[0]) && !IsSpace(r[|r| - 1])
    ensures s == "" || (!IsSpace(s[0]) && !IsSpace(s[|s| - 1])) ==> r == s
  {
    TrimsSurround(s);
    TrimEnd(TrimStart(s))
  }

  /** Trimming both ends leaves the middle of `s`, after `|s| - |TrimStart(s)|` leading characters. */
  lemma TrimsSurround(s: string)
    ensures Surrounds(s, |s| - |TrimStart(s)|, TrimEnd(TrimStart(s)))
  {
    var t := TrimStart(s);
    MiddleSurrounded(s, |s| - |t|, t, TrimEnd(t));
  }

  /** A prefix `r` of the suffix `t` of `s`, with whitespace before `t` and after `r`, is surrounded by whitespace in `s`. */
  lemma MiddleSurrounded(s: string, lead: nat, t: string, r: string)
    requires lead <= |s| && t == s[lead..] && |r| <= |t| && r == t[..|r|]
    requires forall k :: 0 <= k < lead ==> IsSpace(s[k])
    requires forall k :: |r| <= k < |t| ==> IsSpace(t[k])
    ensures Surrounds(s, lead, r)
  {
    forall k | lead + |r| <= k < |s|
      ensures IsSpace(s[k])
    {
      assert t[k - lead] == s[k];
    }
  }

  /** Stripping twice is stripping once. */
  lemma StripIdempotent(s: string)
    ensures Strip(Strip(s)) == Strip(s)
  {
  }

  /** `' ja '.strip()` is 'ja', which lower-casing leaves alone. */
  lemma PaddedJaStrips()
    ensures Strip(" ja ") == "ja" && Lower("ja") == "ja"
  {
    var padded := " ja ";
    assert IsSpace(padded[0]) && padded[1..] == "ja ";
    assert !IsSpace('j') && TrimStart("ja ") == "ja ";
    assert TrimStart(padded) == "ja ";
    var tail := "ja ";
    assert IsSpace(tail[2]) && tail[..2] == "ja";
    assert !IsSpace('a') && TrimEnd("ja") == "ja";
    assert TrimEnd(tail) == "ja";
  }

  /** 'NEIN' and 'maybe' have no surrounding whitespace, so stripping keeps them; they lower-case to 'nein' and 'maybe'. */
  lemma UnpaddedTokens()
    ensures Strip("NEIN") == "NEIN" && Lower("NEIN") == "nein"
    ensures Strip("maybe") == "maybe" && Lower("maybe") == "maybe"
  {
    var nein := "NEIN";
    assert !IsSpace(nein[0]) && !IsSpace(nein[|nein| - 1]);
    var maybe := "maybe";
    assert !IsSpace(maybe[0]) && !IsSpace(maybe[|maybe| - 1]);
  }
}

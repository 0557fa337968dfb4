/**
 * The java.lang.String operations the core depends on: `trim()` followed by
 * `isEmpty()` (the blank-diagnosis test) and `equalsIgnoreCase` (name lookup),
 * the latter folded over ASCII letters only.
 */
module Text {
  import opened Wrappers

  /** String.trim() strips every leading and trailing char up to U+0020. */
  predicate IsTrimmed(c: char) {
    c <= ' '
  }

  /** Every char would be stripped by trim(). */
  predicate IsBlank(s: string) {
    forall i :: 0 <= i < |s| ==> IsTrimmed(s[i])
  }

  /** The leading run of trimmable chars removed. */
  function TrimStart(s: string): (r: string)
    ensures |r| <= |s| && r == s[|s| - |r|..]
    ensures r == [] || !IsTrimmed(r[0])
    ensures IsBlank(s[..|s| - |r|])
  {
    if s != [] && IsTrimmed(s[0]) then
      var r := TrimStart(s[1..]);
      assert s[..|s| - |r|] == [s[0]] + s[1..][..|s| - 1 - |r|];
      r
    else s
  }

  /** The trailing run of trimmable chars removed. */
  function TrimEnd(s: string): (r: string)
    ensures |r| <= |s| && r == s[..|r|]
    ensures r == [] || !IsTrimmed(r[|r| - 1])
    ensures IsBlank(s[|r|..])
  {
    if s != [] && IsTrimmed(s[|s| - 1]) then
      var r := TrimEnd(s[..|s| - 1]);
      assert s[|r|..] == s[..|s| - 1][|r|..] + [s[|s| - 1]];
      r
    else s
  }

  /** String.trim(). */
  function Trim(s: string): string {
    TrimEnd(TrimStart(s))
  }

  /** `r` is the segment of `s` at offset `k`, with only trimmable chars before and after it. */
  predicate TrimmedAt(s: string, k: int, r: string) {
    0 <= k && k + |r| <= |s| && r == s[k..k + |r|]
    && IsBlank(s[..k]) && IsBlank(s[k + |r|..])
  }

  /** trim() leaves one segment of `s`, and drops only blank runs on either side of it. */
  lemma TrimIsSegment(s: string)
    ensures TrimmedAt(s, |s| - |TrimStart(s)|, Trim(s))
  {
    TrimSegment(s, TrimStart(s), Trim(s));
  }

  /** What trim() leaves neither starts nor ends with a trimmable char. */
  lemma TrimEdges(s: string)
    ensures var r := Trim(s); r == [] || (!IsTrimmed(r[0]) && !IsTrimmed(r[|r| - 1]))
  {
    var t := TrimStart(s);
    assert Trim(s) == t[..|Trim(s)|];
  }

  /**
   * Dropping a blank leading run and then a blank trailing run leaves one
   * segment of `s`, with a blank run on each side of it.
   */
  lemma TrimSegment(s: string, t: string, r: string)
    requires |t| <= |s| && t == s[|s| - |t|..] && IsBlank(s[..|s| - |t|])
    requires |r| <= |t| && r == t[..|r|] && IsBlank(t[|r|..])
    ensures TrimmedAt(s, |s| - |t|, r)
  {
    var k := |s| - |t|;
    assert s[k + |r|..] == t[|r|..];
  }

  /** `s.trim().isEmpty()` holds exactly when every char of `s` is at most ' '. */
  lemma TrimIsEmptyIffBlank(s: string)
    ensures Trim(s) == [] <==> IsBlank(s)
  {
    var t := TrimStart(s);
    if Trim(s) == [] {
      assert IsBlank(t[0..]);
      assert s[..|s|] == s;
    } else {
      var c := Trim(s)[0];
      assert c == t[0] && !IsTrimmed(c);
      assert s[|s| - |t|] == c;
    }
  }

  /** Case folding of one char; only the ASCII letters are folded. */
  function ToLowerAscii(c: char): (r: char)
    ensures 'A' <= c <= 'Z' ==> 'a' <= r <= 'z' && r as int - c as int == 32
    ensures !('A' <= c <= 'Z') ==> r == c
    ensures !('A' <= r <= 'Z')
  {
    if 'A' <= c <= 'Z' then (c as int + 32) as char else c
  }

  /** Folding twice is folding once. */
  lemma ToLowerAsciiIdempotent(c: char)
    ensures ToLowerAscii(ToLowerAscii(c)) == ToLowerAscii(c)
  {
  }

  /** String.equalsIgnoreCase over ASCII: same length, chars equal after folding. */
  predicate EqualsIgnoreCase(a: string, b: string) {
    |a| == |b| && forall i :: 0 <= i < |a| ==> ToLowerAscii(a[i]) == ToLowerAscii(b[i])
  }

  /** No ASCII capital letter in `s`. */
  predicate NoCapitals(s: string) {
    forall i :: 0 <= i < |s| ==> !('A' <= s[i] <= 'Z')
  }

  /**
   * equalsIgnoreCase is an equivalence, and on strings without ASCII
   * capitals it is plain equality.
   */
  lemma EqualsIgnoreCaseEquivalence(a: string, b: string, c: string)
    ensures EqualsIgnoreCase(a, a)
    ensures EqualsIgnoreCase(a, b) ==> EqualsIgnoreCase(b, a)
    ensures EqualsIgnoreCase(a, b) && EqualsIgnoreCase(b, c) ==> EqualsIgnoreCase(a, c)
    ensures NoCapitals(a) && NoCapitals(b) ==> (EqualsIgnoreCase(a, b) <==> a == b)
  {
    if NoCapitals(a) && NoCapitals(b) && EqualsIgnoreCase(a, b) {
      forall i | 0 <= i < |a|
        ensures a[i] == b[i]
      {
        assert ToLowerAscii(a[i]) == ToLowerAscii(b[i]);
      }
    }
  }

  /**
   * The stream `filter(equalsIgnoreCase(name)).findFirst()` over a list of
   * names: the index of the first match, or None when nothing matches.
   */
  function FirstMatch(names: seq<string>, name: string): (r: Option<nat>)
    ensures r.None? <==> forall i :: 0 <= i < |names| ==> !EqualsIgnoreCase(names[i], name)
    ensures r.Some? ==> r.value < |names| && EqualsIgnoreCase(names[r.value], name)
    ensures r.Some? ==> forall j :: 0 <= j < r.value ==> !EqualsIgnoreCase(names[j], name)
  {
    if names == [] then None
    else if EqualsIgnoreCase(names[0], name) then Some(0)
    else match FirstMatch(names[1..], name)
      case None => None
      case Some(i) => Some(i + 1)
  }
}

/** Python string operations the application relies on, over strings of code points:
    `str.strip()`, `str.lower()`, `str.upper()`, `in`, `startswith`, `endswith`,
    `isdigit`/`islower`/`isupper` and `split('@', 1)`. */
module Text {

  import opened Wrappers

  /** The characters for which Python's `str.isspace()` holds; `strip()` removes exactly these. */
  predicate IsSpace(c: char)
  {
    || c == ' ' || ('\t' <= c <= '\r') || ('\U{1C}' <= c <= '\U{1F}')
    || c == '\U{85}' || c == '\U{A0}' || c == '\U{1680}'
    || ('\U{2000}' <= c <= '\U{200A}') || c == '\U{2028}' || c == '\U{2029}'
    || c == '\U{202F}' || c == '\U{205F}' || c == '\U{3000}'
  }

  /** `str.lstrip()`: the longest suffix of `s` that does not start with whitespace. */
  function TrimStart(s: string): (r: string)
    ensures |r| <= |s| && r == s[|s| - |r|..]
    ensures r == [] || !IsSpace(r[0])
    ensures forall i :: 0 <= i < |s| - |r| ==> IsSpace(s[i])
    decreases |s|
  {
    if |s| > 0 && IsSpace(s[0]) then TrimStart(s[1..]) else s
  }

  /** `str.rstrip()`: the longest prefix of `s` that does not end with whitespace. */
  function TrimEnd(s: string): (r: string)
    ensures |r| <= |s| && r == s[..|r|]
    ensures r == [] || !IsSpace(r[|r| - 1])
    ensures forall i :: |r| <= i < |s| ==> IsSpace(s[i])
    decreases |s|
  {
    if |s| > 0 && IsSpace(s[|s| - 1]) then TrimEnd(s[..|s| - 1]) else s
  }

  /** `r` is the slice `s[a..a + |r|]`, and everything outside it is whitespace. */
  predicate SliceAmidSpace(s: string, r: string, a: int)
  {
    0 <= a <= |s| - |r| && r == s[a..a + |r|]
    && (forall k :: 0 <= k < a ==> IsSpace(s[k]))
    && (forall k :: a + |r| <= k < |s| ==> IsSpace(s[k]))
  }

  /** `str.strip()` with no argument: a slice of `s` with whitespace only around it, and none
      at either of its ends. */
  function Strip(s: string): (r: string)
    ensures r == [] || (!IsSpace(r[0]) && !IsSpace(r[|r| - 1]))
    ensures |r| <= |s|
    ensures exists a :: SliceAmidSpace(s, r, a)
  {
    TrimmedSlice(s);
    TrimEnd(TrimStart(s))
  }

  lemma TrimmedSlice(s: string)
    ensures SliceAmidSpace(s, TrimEnd(TrimStart(s)), |s| - |TrimStart(s)|)
  {
    SliceOfSlice(s, TrimStart(s), TrimEnd(TrimStart(s)));
  }

  /** A prefix `r` of a suffix `t` of `s`, with whitespace only in what each cut dropped, is a
      slice of `s` amid whitespace. */
  lemma SliceOfSlice(s: string, t: string, r: string)
    requires |t| <= |s| && t == s[|s| - |t|..] && forall i :: 0 <= i < |s| - |t| ==> IsSpace(s[i])
    requires |r| <= |t| && r == t[..|r|] && forall i :: |r| <= i < |t| ==> IsSpace(t[i])
    ensures SliceAmidSpace(s, r, |s| - |t|)
  {
    var a := |s| - |t|;
    assert r == s[a..a + |r|] by {
      assert s[a..][..|r|] == s[a..a + |r|];
    }
    forall k | a + |r| <= k < |s|
      ensures IsSpace(s[k])
    {
      assert s[k] == t[k - a];
    }
  }



  /** A string with no whitespace at either end. */
  predicate Trimmed(s: string)
  {
    s == [] || (!IsSpace(s[0]) && !IsSpace(s[|s| - 1]))
  }

  lemma StripOfTrimmed(s: string)
    requires Trimmed(s)
    ensures Strip(s) == s
  {
    assert TrimStart(s) == s;
  }

  /** Stripping twice is stripping once. */
  lemma StripIdempotent(s: string)
    ensures Strip(Strip(s)) == Strip(s)
  {
    StripOfTrimmed(Strip(s));
  }

  /** The contract of `Strip` fixes its result: a trimmed slice with only whitespace around
      it is the stripped string. */
  lemma StripUnique(s: string, t: string, a: int)
    requires SliceAmidSpace(s, t, a) && Trimmed(t)
    ensures Strip(s) == t
  {
    var r := Strip(s);
    var b :| SliceAmidSpace(s, r, b);
    if t != [] {
      assert s[a] == t[0];
      if r == [] {
        assert false;
      }
      assert s[b] == r[0];
      assert b == a;
      assert s[a + |t| - 1] == t[|t| - 1];
      assert s[b + |r| - 1] == r[|r| - 1];
      assert |r| == |t|;
    }
  }

  /** `strip()` removes exactly the whitespace placed around a trimmed string. */
  lemma StripSurrounded(ws1: string, t: string, ws2: string)
    requires forall k :: 0 <= k < |ws1| ==> IsSpace(ws1[k])
    requires forall k :: 0 <= k < |ws2| ==> IsSpace(ws2[k])
    requires Trimmed(t)
    ensures Strip(ws1 + t + ws2) == t
  {
    var s := ws1 + t + ws2;
    var a := |ws1|;
    assert s[a..a + |t|] == t;
    forall k | 0 <= k < a
      ensures IsSpace(s[k])
    {
      assert s[k] == ws1[k];
    }
    forall k | a + |t| <= k < |s|
      ensures IsSpace(s[k])
    {
      assert s[k] == ws2[k - a - |t|];
    }
    StripUnique(s, t, a);
  }

  predicate IsAsciiUpper(c: char) { 'A' <= c <= 'Z' }
  predicate IsAsciiLower(c: char) { 'a' <= c <= 'z' }

  /** The upper-case Polish letters outside ASCII: Ą Ć Ę Ł Ń Ó Ś Ź Ż. */
  predicate IsPolishUpper(c: char)
  {
    c == 'Ą' || c == 'Ć' || c == 'Ę' || c == 'Ł' || c == 'Ń'
    || c == 'Ó' || c == 'Ś' || c == 'Ź' || c == 'Ż'
  }

  /** The lower-case Polish letters outside ASCII: ą ć ę ł ń ó ś ź ż. */
  predicate IsPolishLower(c: char)
  {
    c == 'ą' || c == 'ć' || c == 'ę' || c == 'ł' || c == 'ń'
    || c == 'ó' || c == 'ś' || c == 'ź' || c == 'ż'
  }

  /** `c.isdigit()` for the decimal digits. */
  predicate IsDigit(c: char) { '0' <= c <= '9' }

  /** `c.islower()` over the modelled alphabet. */
  predicate IsLower(c: char) { IsAsciiLower(c) || IsPolishLower(c) }

  /** `c.isupper()` over the modelled alphabet. */
  predicate IsUpper(c: char) { IsAsciiUpper(c) || IsPolishUpper(c) }

  function LowerChar(c: char): (r: char)
    ensures IsUpper(c) ==> IsLower(r)
    ensures !IsUpper(c) ==> r == c
  {
    if IsAsciiUpper(c) then c - 'A' + 'a'
    else if c == 'Ó' then 'ó'
    else if IsPolishUpper(c) then c + 1 as char
    else c
  }

  function UpperChar(c: char): (r: char)
    ensures IsLower(c) ==> IsUpper(r)
    ensures !IsLower(c) ==> r == c
    ensures !IsLower(r)
  {
    if IsAsciiLower(c) then c - 'a' + 'A'
    else if c == 'ó' then 'Ó'
    else if IsPolishLower(c) then c - 1 as char
    else c
  }

  /** A character that equals an ASCII capital or a digit when case is ignored is no
      whitespace, and `upper()` turns it into that capital or digit. */
  lemma UpperOfCaseVariant(x: char, y: char)
    requires IsAsciiUpper(y) || IsDigit(y)
    requires LowerChar(x) == LowerChar(y)
    ensures UpperChar(x) == y && !IsSpace(x)
  {
  }

  /** `str.lower()`, character by character. */
  function Lower(s: string): (r: string)
    ensures |r| == |s|
    ensures forall i :: 0 <= i < |s| ==> r[i] == LowerChar(s[i])
  {
    seq(|s|, i requires 0 <= i < |s| => LowerChar(s[i]))
  }

  /** `str.upper()`, character by character. */
  function Upper(s: string): (r: string)
    ensures |r| == |s|
    ensures forall i :: 0 <= i < |s| ==> r[i] == UpperChar(s[i])
  {
    seq(|s|, i requires 0 <= i < |s| => UpperChar(s[i]))
  }

  /** Lower-casing twice is lower-casing once. */
  lemma LowerIdempotent(s: string)
    ensures Lower(Lower(s)) == Lower(s)
  {
  }

  /** Lower-casing never turns a non-space into a space, so it keeps a string trimmed. */
  lemma LowerKeepsTrimmed(s: string)
    requires Trimmed(s)
    ensures Trimmed(Lower(s))
  {
  }

  /** Upper-casing never turns a non-space into a space, so it keeps a string trimmed. */
  lemma UpperKeepsTrimmed(s: string)
    requires Trimmed(s)
    ensures Trimmed(Upper(s))
  {
  }

  /** `needle` occurs in `hay` starting at position `i`. */
  predicate OccursAt(hay: string, needle: string, i: int)
  {
    0 <= i <= |hay| - |needle| && hay[i..i + |needle|] == needle
  }

  /** Python's `needle in hay` on strings. */
  predicate Contains(hay: string, needle: string)
  {
    exists i :: 0 <= i <= |hay| - |needle| && OccursAt(hay, needle, i)
  }

  predicate StartsWith(s: string, p: string)
  {
    |p| <= |s| && s[..|p|] == p
  }

  predicate EndsWith(s: string, p: string)
  {
    |p| <= |s| && s[|s| - |p|..] == p
  }

  /** Anything a string contains, a string containing it contains too. */
  lemma ContainsTransitive(hay: string, mid: string, needle: string)
    requires Contains(hay, mid) && Contains(mid, needle)
    ensures Contains(hay, needle)
  {
    var i :| 0 <= i <= |hay| - |mid| && OccursAt(hay, mid, i);
    var j :| 0 <= j <= |mid| - |needle| && OccursAt(mid, needle, j);
    forall k | 0 <= k < |needle|
      ensures hay[i + j..i + j + |needle|][k] == needle[k]
    {
      assert needle[k] == mid[j + k] == hay[i + j + k];
    }
    assert OccursAt(hay, needle, i + j);
  }

  /** A string contains each of its prefixes and each of its suffixes. */
  lemma ContainsPrefix(s: string, p: string)
    requires StartsWith(s, p)
    ensures Contains(s, p)
  {
    assert OccursAt(s, p, 0);
  }

  lemma ContainsSuffix(s: string, p: string)
    requires EndsWith(s, p)
    ensures Contains(s, p)
  {
    assert OccursAt(s, p, |s| - |p|);
  }

  /** The position of the first occurrence of `c` in `s`, if any (`str.find` on one character). */
  function IndexOf(s: string, c: char): (r: Option<nat>)
    ensures r.None? <==> c !in s
    ensures r.Some? ==> r.value < |s| && s[r.value] == c && c !in s[..r.value]
  {
    if |s| == 0 then None
    else if s[0] == c then Some(0)
    else match IndexOf(s[1..], c)
      case None => None
      case Some(k) => assert s[..k + 1] == [s[0]] + s[1..][..k]; Some(k + 1)
  }

  /** `s.split(sep, 1)` unpacked into two names: defined only when `sep` occurs; the
      parts around its first occurrence. */
  function SplitOnce(s: string, sep: char): (r: Option<(string, string)>)
    ensures r.None? <==> sep !in s
    ensures r.Some? ==> s == r.value.0 + [sep] + r.value.1 && sep !in r.value.0
  {
    match IndexOf(s, sep)
    case None => None
    case Some(i) =>
      assert s == s[..i] + [sep] + s[i + 1..];
      Some((s[..i], s[i + 1..]))
  }

  /** Splitting undoes joining: the separator that first occurs after `a` splits `a` from
      whatever follows it. */
  lemma SplitOnceJoined(a: string, sep: char, b: string)
    requires sep !in a
    ensures SplitOnce(a + [sep] + b, sep) == Some((a, b))
  {
    var s := a + [sep] + b;
    assert s[|a|] == sep;
    var i := IndexOf(s, sep).value;
    assert forall j :: 0 <= j < |a| ==> s[j] == a[j];
    assert s[..|a| + 1] == a + [sep];
    assert s[..i] == a;
    assert s[i + 1..] == b;
  }
}

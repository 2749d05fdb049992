/** String primitives the pages rely on: ASCII case mapping (`toLowerCase`,
    `toUpperCase` restricted to ASCII), ECMAScript `trim`, `includes` on
    strings, `replace` with a string pattern (first occurrence only), and the
    word-start test behind the regular expression `/\b\w/g`. */
module Text {

  /* ---------------- ASCII case ---------------- */

  function ToLowerChar(c: char): (r: char)
    ensures 'A' <= c <= 'Z' ==> 'a' <= r <= 'z' && r as int == c as int + 32
    ensures !('A' <= c <= 'Z') ==> r == c
  {
    if 'A' <= c <= 'Z' then (c as int + 32) as char else c
  }

  function ToUpperChar(c: char): (r: char)
    ensures 'a' <= c <= 'z' ==> 'A' <= r <= 'Z' && r as int + 32 == c as int
    ensures !('a' <= c <= 'z') ==> r == c
  {
    if 'a' <= c <= 'z' then (c as int - 32) as char else c
  }

  function ToLower(s: string): (r: string)
    ensures |r| == |s|
    ensures forall i :: 0 <= i < |s| ==> r[i] == ToLowerChar(s[i])
  {
    if |s| == 0 then [] else [ToLowerChar(s[0])] + ToLower(s[1..])
  }

  /** Upper-casing a character never changes it once lower-cased again. */
  lemma LowerOfUpper(c: char)
    ensures ToLowerChar(ToUpperChar(c)) == ToLowerChar(c)
  {
  }

  /* ---------------- substring search (`String.prototype.includes`) ---------------- */

  /** `needle` occurs in `hay` starting at index `i`. */
  ghost predicate OccursAt(hay: string, needle: string, i: int)
  {
    0 <= i && i + |needle| <= |hay| && hay[i..i + |needle|] == needle
  }

  /** Executable `hay.includes(needle)`: try every start position from the left. */
  function Contains(hay: string, needle: string): bool
    decreases |hay|
  {
    if |needle| > |hay| then false
    else if hay[..|needle|] == needle then true
    else Contains(hay[1..], needle)
  }

  /** `Contains` answers true exactly when the needle occurs at some index. */
  lemma {:induction false} ContainsIffOccurs(hay: string, needle: string)
    ensures Contains(hay, needle) <==> exists i :: OccursAt(hay, needle, i)
    decreases |hay|
  {
    if |needle| > |hay| {
      assert forall i :: !OccursAt(hay, needle, i);
    } else if hay[..|needle|] == needle {
      assert OccursAt(hay, needle, 0);
    } else {
      ContainsIffOccurs(hay[1..], needle);
      assert !OccursAt(hay, needle, 0);
      forall i | OccursAt(hay, needle, i)
        ensures OccursAt(hay[1..], needle, i - 1)
      {
        assert hay[1..][i - 1..i - 1 + |needle|] == hay[i..i + |needle|];
      }
      forall i | OccursAt(hay[1..], needle, i)
        ensures OccursAt(hay, needle, i + 1)
      {
        assert hay[1..][i..i + |needle|] == hay[i + 1..i + 1 + |needle|];
      }
    }
  }

  /** The empty string is contained in every string. */
  lemma ContainsEmpty(hay: string)
    ensures Contains(hay, "")
  {
    assert hay[..0] == "";
  }

  /* ---------------- `String.prototype.trim` ---------------- */

  /** ECMAScript WhiteSpace and LineTerminator code points: TAB, VT, FF, the
      Unicode space separators (category Zs), ZWNBSP, LF, CR, LS and PS. */
  predicate IsWhitespace(c: char)
  {
    || c == '\t' || c == '\U{000B}' || c == '\U{000C}' || c == ' ' || c == '\U{00A0}'
    || c == '\U{1680}' || ('\U{2000}' <= c <= '\U{200A}') || c == '\U{202F}' || c == '\U{205F}'
    || c == '\U{3000}' || c == '\U{FEFF}'
    || c == '\n' || c == '\r' || c == '\U{2028}' || c == '\U{2029}'
  }

  predicate AllWhitespace(s: string)
  {
    forall i :: 0 <= i < |s| ==> IsWhitespace(s[i])
  }

  /** Drops leading whitespace: the result is a suffix of `s`, what was dropped
      is all whitespace, and the result does not start with whitespace. */
  function TrimStart(s: string): (r: string)
    ensures |r| <= |s| && r == s[|s| - |r|..]
    ensures AllWhitespace(s[..|s| - |r|])
    ensures r != [] ==> !IsWhitespace(r[0])
  {
    if |s| > 0 && IsWhitespace(s[0]) then
      var t := TrimStart(s[1..]);
      assert s[..|s| - |t|] == [s[0]] + s[1..][..|s| - 1 - |t|];
      t
    else s
  }

  /** Drops trailing whitespace: the result is a prefix of `s`, what was
      dropped is all whitespace, and the result does not end with whitespace. */
  function TrimEnd(s: string): (r: string)
    ensures |r| <= |s| && r == s[..|r|]
    ensures AllWhitespace(s[|r|..])
    ensures r != [] ==> !IsWhitespace(r[|r| - 1])
  {
    if |s| > 0 && IsWhitespace(s[|s| - 1]) then
      var t := TrimEnd(s[..|s| - 1]);
      assert s[|t|..] == s[..|s| - 1][|t|..] + [s[|s| - 1]];
      t
    else s
  }

  /** `String.prototype.trim`: no longer than its input, and neither end of
      a non-empty result is whitespace. */
  function Trim(s: string): (r: string)
    ensures |r| <= |s|
    ensures r != [] ==> !IsWhitespace(r[0]) && !IsWhitespace(r[|r| - 1])
  {
    TrimEnd(TrimStart(s))
  }

  /** `trim` keeps a contiguous slice of its input, removes only whitespace
      around it, and leaves no whitespace at either end. */
  lemma TrimIsSlice(s: string)
    ensures exists i, j :: 0 <= i <= j <= |s| && Trim(s) == s[i..j]
                        && AllWhitespace(s[..i]) && AllWhitespace(s[j..])
    ensures Trim(s) != [] ==> !IsWhitespace(Trim(s)[0]) && !IsWhitespace(Trim(s)[|Trim(s)| - 1])
  {
    var i, j := TrimBounds(s);
    var t := TrimStart(s);
    if Trim(s) != [] {
      assert Trim(s)[0] == t[0];
    }
  }

  /** The bounds of the slice `trim` keeps. */
  lemma TrimBounds(s: string) returns (i: nat, j: nat)
    ensures i <= j <= |s| && Trim(s) == s[i..j]
    ensures AllWhitespace(s[..i]) && AllWhitespace(s[j..])
  {
    var t := TrimStart(s);
    i := |s| - |t|;
    var e := TrimEnd(t);
    j := i + |e|;
    SuffixSlices(s, i, |e|);
  }

  /** Slicing a suffix is slicing the whole string further along. */
  lemma SuffixSlices(s: string, i: nat, a: nat)
    requires i + a <= |s|
    ensures s[i..][..a] == s[i..i + a] && s[i..][a..] == s[i + a..]
  {
  }

  /** `item.trim()` is truthy exactly when `item` holds a non-whitespace character. */
  lemma TrimEmptyIff(s: string)
    ensures Trim(s) == [] <==> AllWhitespace(s)
  {
    var t := TrimStart(s);
    var k := |s| - |t|;
    if t == [] {
      assert s[..k] == s;
    } else {
      assert t[0] == s[k];
      assert t[0..] == t;
    }
  }

  /* ---------------- `String.prototype.replace(from, to)` with a one-character string pattern ---------------- */

  /** Index of the first occurrence of `c` in `s`, or `|s|` when absent. */
  function FirstIndex(s: string, c: char): (k: nat)
    ensures k <= |s|
    ensures forall j :: 0 <= j < k ==> s[j] != c
    ensures k < |s| ==> s[k] == c
  {
    if |s| == 0 then 0
    else if s[0] == c then 0
    else 1 + FirstIndex(s[1..], c)
  }

  /** Replaces only the first occurrence of `from` by `to`; without any
      occurrence the string is returned as it is. */
  function ReplaceFirst(s: string, from: char, to: char): (r: string)
    ensures |r| == |s|
    ensures var k := FirstIndex(s, from);
            if k < |s| then r == s[..k] + [to] + s[k + 1..] else r == s
  {
    if |s| == 0 then s
    else if s[0] == from then [to] + s[1..]
    else
      var t := ReplaceFirst(s[1..], from, to);
      var k' := FirstIndex(s[1..], from);
      assert k' < |s| - 1 ==> s[..k' + 1] == [s[0]] + s[1..][..k'] && s[k' + 2..] == s[1..][k' + 1..];
      [s[0]] + t
  }

  /* ---------------- the regular expression `/\b\w/g` ---------------- */

  /** `\w` without the `u` flag: ASCII letters, digits and underscore. */
  predicate IsWordChar(c: char)
  {
    ('a' <= c <= 'z') || ('A' <= c <= 'Z') || ('0' <= c <= '9') || c == '_'
  }

  /** Index `i` is where `\b\w` matches: a word character with no word
      character immediately before it. */
  predicate WordStart(s: string, i: int)
    requires 0 <= i < |s|
  {
    IsWordChar(s[i]) && (i == 0 || !IsWordChar(s[i - 1]))
  }

  /** `\b\w` matches at index `i` when the character before the string is
      (`afterWord`) or is not a word character. */
  predicate StartsWord(s: string, i: int, afterWord: bool)
    requires 0 <= i < |s|
  {
    IsWordChar(s[i]) && (if i == 0 then !afterWord else !IsWordChar(s[i - 1]))
  }

  /** `s.replace(/\b\w/g, l => l.toUpperCase())`: every word-initial character
      is upper-cased and every other character is kept. */
  function CapitalizeWords(s: string): (r: string)
    ensures |r| == |s|
    ensures forall i :: 0 <= i < |s| ==> r[i] == (if WordStart(s, i) then ToUpperChar(s[i]) else s[i])
  {
    var r := CapitalizeFrom(s, false);
    assert forall i :: 0 <= i < |s| ==> (WordStart(s, i) <==> StartsWord(s, i, false));
    r
  }

  /** A left-to-right scan that remembers whether the previous character was
      a word character. */
  function CapitalizeFrom(s: string, afterWord: bool): (r: string)
    ensures |r| == |s|
    ensures forall i :: 0 <= i < |s| ==> r[i] == (if StartsWord(s, i, afterWord) then ToUpperChar(s[i]) else s[i])
  {
    if |s| == 0 then []
    else
      var c := s[0];
      var head := if IsWordChar(c) && !afterWord then ToUpperChar(c) else c;
      var tail := CapitalizeFrom(s[1..], IsWordChar(c));
      assert forall i :: 1 <= i < |s| ==> (StartsWord(s[1..], i - 1, IsWordChar(c)) <==> StartsWord(s, i, afterWord));
      [head] + tail
  }
}

/**
 * Character classes and string operations shared by the Python and TypeScript code:
 * case folding, whitespace stripping, substring and suffix tests, splitting on one
 * separator character. Case folding is ASCII case folding.
 */
module Text {

  predicate IsUpper(c: char) { 'A' <= c <= 'Z' }

  predicate IsLowerLetter(c: char) { 'a' <= c <= 'z' }

  predicate IsAsciiLetter(c: char) { IsUpper(c) || IsLowerLetter(c) }

  predicate IsDigit(c: char) { '0' <= c <= '9' }

  /** The regular-expression class `\w` on ASCII: letters, digits and underscore. */
  predicate IsWordChar(c: char) { IsAsciiLetter(c) || IsDigit(c) || c == '_' }

  /** Python's `str.isspace`: the C0 separators, the ASCII blanks and the Unicode spaces. */
  predicate IsPySpace(c: char) {
    var n := c as int;
    (9 <= n <= 13) || (28 <= n <= 32) || n == 0x85 || n == 0xA0 || n == 0x1680 ||
    (0x2000 <= n <= 0x200A) || n == 0x2028 || n == 0x2029 || n == 0x202F || n == 0x205F ||
    n == 0x3000
  }

  /** ECMAScript WhiteSpace and LineTerminator, used by `trim` and by `\s`. */
  predicate IsJsSpace(c: char) {
    var n := c as int;
    (9 <= n <= 13) || n == 32 || n == 0xA0 || n == 0x1680 || (0x2000 <= n <= 0x200A) ||
    n == 0x2028 || n == 0x2029 || n == 0x202F || n == 0x205F || n == 0x3000 || n == 0xFEFF
  }

  function LowerChar(c: char): (r: char)
    ensures !IsUpper(r)
    ensures IsAsciiLetter(r) <==> IsAsciiLetter(c)
    ensures !IsUpper(c) ==> r == c
  {
    if IsUpper(c) then (c as int + 32) as char else c
  }

  function UpperChar(c: char): (r: char)
    ensures !IsLowerLetter(r)
    ensures IsAsciiLetter(r) <==> IsAsciiLetter(c)
    ensures !IsLowerLetter(c) ==> r == c
  {
    if IsLowerLetter(c) then (c as int - 32) as char else c
  }

  /** `str.lower()` / `String.prototype.toLowerCase()` on ASCII letters. */
  function Lower(s: string): (r: string)
    ensures |r| == |s|
    ensures forall i :: 0 <= i < |s| ==> r[i] == LowerChar(s[i])
  {
    seq(|s|, i requires 0 <= i < |s| => LowerChar(s[i]))
  }

  predicate IsLowercase(s: string) {
    forall i :: 0 <= i < |s| ==> !IsUpper(s[i])
  }

  /** Python's `str.capitalize()`: the first character upper case, the others lower case. */
  function Capitalize(s: string): (r: string)
    ensures |r| == |s|
    ensures r != [] ==> !IsLowerLetter(r[0])
    ensures forall i :: 1 <= i < |r| ==> !IsUpper(r[i])
    ensures forall i :: 0 <= i < |s| ==> LowerChar(r[i]) == LowerChar(s[i])
  {
    if s == [] then [] else [UpperChar(s[0])] + Lower(s[1..])
  }

  lemma LowerIsLowercase(s: string)
    ensures IsLowercase(Lower(s))
    ensures IsLowercase(s) ==> Lower(s) == s
  {
  }

  /** Lower-casing changes letters only. */
  lemma LowerKeepsOthers(s: string, c: char)
    requires !IsAsciiLetter(c)
    ensures c in Lower(s) <==> c in s
  {
    if c in s {
      var i :| 0 <= i < |s| && s[i] == c;
      assert Lower(s)[i] == c;
    }
    if c in Lower(s) {
      var i :| 0 <= i < |s| && Lower(s)[i] == c;
      assert s[i] == c;
    }
  }

  lemma LowerAppend(a: string, b: string)
    ensures Lower(a + b) == Lower(a) + Lower(b)
  {
    assert forall i :: 0 <= i < |a + b| ==> Lower(a + b)[i] == (Lower(a) + Lower(b))[i];
  }

  /** `p` occurs in `s` as a contiguous piece (Python's `p in s`). */
  predicate IsSubstring(p: string, s: string) {
    exists i :: 0 <= i <= |s| && StartsWith(s[i..], p)
  }

  predicate StartsWith(s: string, prefix: string) {
    |prefix| <= |s| && s[..|prefix|] == prefix
  }

  predicate EndsWith(s: string, suffix: string) {
    |suffix| <= |s| && s[|s| - |suffix|..] == suffix
  }

  /** Whose notion of whitespace a strip uses. */
  datatype Flavour = Python | JavaScript

  predicate IsSpace(c: char, f: Flavour) {
    if f.Python? then IsPySpace(c) else IsJsSpace(c)
  }

  /** Every character of `s` is whitespace. */
  predicate IsBlank(s: string, f: Flavour) {
    forall i :: 0 <= i < |s| ==> IsSpace(s[i], f)
  }

  function DropLeading(s: string, f: Flavour): (r: string)
    ensures |r| <= |s| && r == s[|s| - |r|..]
    ensures r != [] ==> !IsSpace(r[0], f)
    ensures r == [] <==> IsBlank(s, f)
    ensures IsBlank(s[..|s| - |r|], f)
  {
    if s != [] && IsSpace(s[0], f) then DropLeading(s[1..], f) else s
  }

  function DropTrailing(s: string, f: Flavour): (r: string)
    ensures |r| <= |s| && r == s[..|r|]
    ensures r != [] ==> !IsSpace(r[|r| - 1], f)
    ensures r == [] <==> IsBlank(s, f)
    ensures IsBlank(s[|r|..], f)
  {
    if s != [] && IsSpace(s[|s| - 1], f) then DropTrailing(s[..|s| - 1], f) else s
  }

  /** Removes leading and trailing whitespace: `s` less a blank prefix and a blank suffix. */
  function Strip(s: string, f: Flavour): (r: string)
    ensures IsTrimmed(r, f)
    ensures r == [] <==> IsBlank(s, f)
    ensures exists a, b :: 0 <= a <= b <= |s| && r == s[a..b] && IsBlank(s[..a], f) && IsBlank(s[b..], f)
  {
    var lead := DropLeading(s, f);
    var a := |s| - |lead|;
    var r := DropTrailing(lead, f);
    var b := a + |r|;
    SliceOfSlice(s, a, |r|);
    assert IsBlank(s[..a], f) && IsBlank(s[b..], f);
    r
  }

  /** Cutting `s[a..]` at `n` cuts `s` at `a + n`. */
  lemma SliceOfSlice(s: string, a: nat, n: nat)
    requires a + n <= |s|
    ensures s[a..][..n] == s[a..a + n] && s[a..][n..] == s[a + n..]
  {
  }

  /** No whitespace at either end. */
  predicate IsTrimmed(s: string, f: Flavour) {
    s != [] ==> !IsSpace(s[0], f) && !IsSpace(s[|s| - 1], f)
  }

  /** Names that are non-empty and have no whitespace at either end. */
  predicate AllStripped(cs: seq<string>) {
    forall k :: 0 <= k < |cs| ==> cs[k] != "" && IsTrimmed(cs[k], Python)
  }

  lemma AllStrippedAppend(a: seq<string>, b: seq<string>)
    requires AllStripped(a) && AllStripped(b)
    ensures AllStripped(a + b)
  {
    forall k | 0 <= k < |a + b|
      ensures (a + b)[k] != "" && IsTrimmed((a + b)[k], Python)
    {
      if k < |a| {
        assert (a + b)[k] == a[k];
      } else {
        assert (a + b)[k] == b[k - |a|];
      }
    }
  }

  lemma AllStrippedSingle(x: string)
    requires x != "" && IsTrimmed(x, Python)
    ensures AllStripped([x])
  {
  }

  /** Python's `str.strip()`. */
  function PyStrip(s: string): string { Strip(s, Python) }

  /** JavaScript's `String.prototype.trim()`. */
  function JsTrim(s: string): string { Strip(s, JavaScript) }

  /** Python's `str.split(sep)` for a one-character separator. */
  function SplitOn(s: string, sep: char): (parts: seq<string>)
    ensures |parts| >= 1
    ensures forall k :: 0 <= k < |parts| ==> sep !in parts[k]
  {
    if s == [] then [""]
    else
      var rest := SplitOn(s[1..], sep);
      if s[0] == sep then [""] + rest else [[s[0]] + rest[0]] + rest[1..]
  }

  /** `sep.join(parts)`. */
  function Join(parts: seq<string>, sep: char): string {
    if parts == [] then ""
    else if |parts| == 1 then parts[0]
    else parts[0] + [sep] + Join(parts[1..], sep)
  }

  /** Splitting and joining again gives back the text. */
  lemma {:induction false} JoinSplitOn(s: string, sep: char)
    ensures Join(SplitOn(s, sep), sep) == s
  {
    if s != [] {
      var rest := SplitOn(s[1..], sep);
      JoinSplitOn(s[1..], sep);
      if s[0] == sep {
        assert SplitOn(s, sep)[1..] == rest;
      } else {
        var parts := SplitOn(s, sep);
        assert parts[1..] == rest[1..];
        if |rest| > 1 {
          assert Join(rest, sep) == rest[0] + [sep] + Join(rest[1..], sep);
        }
      }
    }
  }

  /** Pieces that do not contain the separator are recovered by splitting their join. */
  lemma {:induction false} SplitOnJoin(parts: seq<string>, sep: char)
    requires |parts| >= 1
    requires forall k :: 0 <= k < |parts| ==> sep !in parts[k]
    ensures SplitOn(Join(parts, sep), sep) == parts
  {
    if |parts| == 1 {
      SplitOnNoSeparator(parts[0], sep);
    } else {
      SplitOnJoin(parts[1..], sep);
      SplitOnPrefix(parts[0], Join(parts[1..], sep), sep);
      assert [parts[0]] + parts[1..] == parts;
    }
  }

  lemma {:induction false} SplitOnNoSeparator(s: string, sep: char)
    requires sep !in s
    ensures SplitOn(s, sep) == [s]
  {
    if s != [] {
      SplitOnNoSeparator(s[1..], sep);
      assert [s[0]] + s[1..] == s;
    }
  }

  /** Splitting `a + sep + b` where `a` has no separator: `a` is the first piece. */
  lemma {:induction false} SplitOnPrefix(a: string, b: string, sep: char)
    requires sep !in a
    ensures SplitOn(a + [sep] + b, sep) == [a] + SplitOn(b, sep)
  {
    if a == [] {
      assert ([sep] + b)[1..] == b;
    } else {
      SplitOnPrefix(a[1..], b, sep);
      assert (a + [sep] + b)[1..] == a[1..] + [sep] + b;
      assert (a + [sep] + b)[0] == a[0];
      assert [a[0]] + a[1..] == a;
    }
  }

  /** The first position of `c` in `s`. */
  function IndexOf(s: string, c: char): (k: nat)
    requires c in s
    ensures k < |s| && s[k] == c && c !in s[..k]
  {
    if s[0] == c then 0 else IndexOf(s[1..], c) + 1
  }

  /** The last position of `c` in `s`, or -1 (`str.rfind` / `String.prototype.lastIndexOf`). */
  function LastIndexOf(s: string, c: char): (k: int)
    ensures -1 <= k < |s|
    ensures k >= 0 ==> s[k] == c
    ensures forall j :: k < j < |s| ==> s[j] != c
  {
    if s == [] then -1
    else if s[|s| - 1] == c then |s| - 1
    else LastIndexOf(s[..|s| - 1], c)
  }

  /** Stripping leaves text without whitespace at its ends unchanged. */
  lemma StripTrimmed(s: string, f: Flavour)
    requires IsTrimmed(s, f)
    ensures Strip(s, f) == s
  {
  }

  predicate NoDuplicates<T(==)>(s: seq<T>) {
    forall i, j :: 0 <= i < j < |s| ==> s[i] != s[j]
  }

  /** `sub` is `s` with some elements left out, the rest in their order. */
  predicate IsSubsequence<T(==)>(sub: seq<T>, s: seq<T>)
    decreases |s|
  {
    if sub == [] then true
    else if s == [] then false
    else if sub[|sub| - 1] == s[|s| - 1] then IsSubsequence(sub[..|sub| - 1], s[..|s| - 1])
    else IsSubsequence(sub, s[..|s| - 1])
  }

  /** Appending to the longer sequence keeps a subsequence a subsequence. */
  lemma {:induction false} SubsequenceOfPrefix<T>(sub: seq<T>, s: seq<T>, x: T)
    requires IsSubsequence(sub, s)
    ensures IsSubsequence(sub, s + [x])
    decreases |s|, 1
  {
    var t := s + [x];
    assert t[..|t| - 1] == s;
    if sub != [] && sub[|sub| - 1] == x {
      SubsequenceDropLast(sub, s);
    }
  }

  /** Dropping the last element of a subsequence keeps it a subsequence. */
  lemma {:induction false} SubsequenceDropLast<T>(sub: seq<T>, s: seq<T>)
    requires sub != [] && IsSubsequence(sub, s)
    ensures IsSubsequence(sub[..|sub| - 1], s)
    decreases |s|, 0
  {
    var init := s[..|s| - 1];
    assert init + [s[|s| - 1]] == s;
    if sub[|sub| - 1] == s[|s| - 1] {
      SubsequenceOfPrefix(sub[..|sub| - 1], init, s[|s| - 1]);
    } else {
      SubsequenceDropLast(sub, init);
      SubsequenceOfPrefix(sub[..|sub| - 1], init, s[|s| - 1]);
    }
  }

  /** `s[:n]`: the first `n` elements, or all of them when there are fewer. */
  function FirstN<T>(s: seq<T>, n: nat): (r: seq<T>)
    ensures |r| == if |s| < n then |s| else n
    ensures r == s[..|r|]
  {
    if |s| < n then s else s[..n]
  }

  /** `s[-n:]` for positive `n`: the last `n` elements, or all of them when there are fewer. */
  function LastN<T>(s: seq<T>, n: nat): (r: seq<T>)
    requires n > 0
    ensures |r| == if |s| < n then |s| else n
    ensures r == s[|s| - |r|..]
  {
    if |s| <= n then s else s[|s| - n..]
  }
}

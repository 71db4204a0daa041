/**
 * Strings as JavaScript sees them: character classes of its regular expressions,
 * `includes`/`indexOf`, `split` on one character, `join`, `trim`, ASCII
 * `toLowerCase`, and decimal rendering of integers.
 */
module Text {

  /** JavaScript's WhiteSpace and LineTerminator code points: what `\s` matches and `trim` strips. */
  predicate IsSpace(c: char) {
    c == '\t' || c == '\n' || c == '\U{000B}' || c == '\U{000C}' || c == '\r' || c == ' '
    || c == '\U{00A0}' || c == '\U{1680}' || ('\U{2000}' <= c <= '\U{200A}')
    || c == '\U{2028}' || c == '\U{2029}' || c == '\U{202F}' || c == '\U{205F}'
    || c == '\U{3000}' || c == '\U{FEFF}'
  }

  /** The characters a regular-expression `.` does not match. */
  predicate IsLineTerminator(c: char) {
    c == '\n' || c == '\r' || c == '\U{2028}' || c == '\U{2029}'
  }

  predicate IsLower(c: char) { 'a' <= c <= 'z' }
  predicate IsUpper(c: char) { 'A' <= c <= 'Z' }
  predicate IsDigit(c: char) { '0' <= c <= '9' }
  /** `[a-zA-Z0-9]` */
  predicate IsAlnum(c: char) { IsLower(c) || IsUpper(c) || IsDigit(c) }
  /** `\w`, that is `[a-zA-Z0-9_]` */
  predicate IsWordChar(c: char) { IsAlnum(c) || c == '_' }
  /** `[a-zA-Z_]`, the first character of an identifier in the naming patterns */
  predicate IsIdentStart(c: char) { IsLower(c) || IsUpper(c) || c == '_' }

  /** `toLowerCase` on one character, for the ASCII letters only. */
  function LowerChar(c: char): (r: char)
    ensures IsUpper(c) ==> IsLower(r)
    ensures !IsUpper(c) ==> r == c
  {
    if IsUpper(c) then (c as int + 32) as char else c
  }

  /** `toLowerCase`, ASCII letters only. */
  function Lower(s: string): (r: string)
    ensures |r| == |s|
    ensures forall k :: 0 <= k < |s| ==> r[k] == LowerChar(s[k])
  {
    if s == [] then [] else [LowerChar(s[0])] + Lower(s[1..])
  }

  /** Lower-casing is decided character by character. */
  lemma LowerByChars(s: string, lit: string)
    requires |s| == |lit|
    requires forall k :: 0 <= k < |s| ==> LowerChar(s[k]) == lit[k]
    ensures Lower(s) == lit
  {
  }

  /** A string no upper-case ASCII letter occurs in. */
  predicate IsLowerCased(s: string) {
    forall k :: 0 <= k < |s| ==> !IsUpper(s[k])
  }

  lemma LowerOfLowerCased(s: string)
    requires IsLowerCased(s)
    ensures Lower(s) == s
  {
  }

  /** Length of the longest run of characters satisfying `p` that starts at `i`
      (a greedy `p*` in a regular expression). */
  function Run(s: string, i: nat, p: char -> bool): (n: nat)
    requires i <= |s|
    ensures i + n <= |s|
    ensures forall k :: i <= k < i + n ==> p(s[k])
    ensures i + n < |s| ==> !p(s[i + n])
    decreases |s| - i
  {
    if i < |s| && p(s[i]) then 1 + Run(s, i + 1, p) else 0
  }

  /** A run whose characters and whose end are known has that length. */
  lemma {:induction false} RunLength(s: string, i: nat, p: char -> bool, n: nat)
    requires i + n <= |s|
    requires forall k :: i <= k < i + n ==> p(s[k])
    requires i + n == |s| || !p(s[i + n])
    ensures Run(s, i, p) == n
    decreases n
  {
    if n > 0 {
      RunLength(s, i + 1, p, n - 1);
    }
  }

  /** `lit` occurs in `s` at position `i`. */
  predicate StartsAt(s: string, i: nat, lit: string) {
    i + |lit| <= |s| && s[i..i + |lit|] == lit
  }

  /** The case-insensitive (`/i`) match of the lower-case literal `lit` at position `i`.
      JavaScript folds case through upper-casing and never maps a non-ASCII character
      onto an ASCII one, so for ASCII literals ASCII folding is exact. */
  predicate StartsAtIgnoringCase(s: string, i: nat, lit: string) {
    i + |lit| <= |s| && Lower(s[i..i + |lit|]) == lit
  }

  /** An occurrence of a concatenation is an occurrence of each part, one after the other. */
  lemma StartsAtSplit(s: string, i: nat, x: string, y: string)
    requires StartsAt(s, i, x + y)
    ensures StartsAt(s, i, x) && StartsAt(s, i + |x|, y)
  {
    assert s[i..i + |x|] == s[i..i + |x + y|][..|x|];
    assert s[i + |x|..i + |x| + |y|] == s[i..i + |x + y|][|x|..];
  }

  /** An exact occurrence of a lower-case literal is a case-insensitive one. */
  lemma ExactIsIgnoringCase(s: string, i: nat, lit: string)
    requires StartsAt(s, i, lit) && IsLowerCased(lit)
    ensures StartsAtIgnoringCase(s, i, lit)
  {
    LowerOfLowerCased(lit);
  }

  /** The characters of an occurrence, one by one. */
  lemma StartsAtChars(s: string, i: nat, lit: string)
    requires StartsAt(s, i, lit)
    ensures forall k :: i <= k < i + |lit| ==> s[k] == lit[k - i]
  {
    forall k | i <= k < i + |lit|
      ensures s[k] == lit[k - i]
    {
      assert s[i..i + |lit|][k - i] == s[k];
    }
  }

  /** An occurrence of a literal is an occurrence of each of its prefixes. */
  lemma StartsAtPrefix(s: string, i: nat, lit: string, n: nat)
    requires StartsAt(s, i, lit) && n <= |lit|
    ensures StartsAt(s, i, lit[..n])
  {
    assert s[i..i + n] == s[i..i + |lit|][..n];
  }

  /** `s.includes(lit)` */
  predicate Contains(s: string, lit: string) {
    exists i :: 0 <= i <= |s| && StartsAt(s, i, lit)
  }

  /** First position at or after `i` where `lit` occurs, or -1. */
  function IndexOfFrom(s: string, lit: string, i: nat): (r: int)
    ensures r == -1 || (i <= r <= |s| && StartsAt(s, r, lit))
    ensures r >= 0 ==> forall k :: i <= k < r ==> !StartsAt(s, k, lit)
    ensures r == -1 ==> forall k :: i <= k <= |s| ==> !StartsAt(s, k, lit)
    decreases |s| + 1 - i
  {
    if i > |s| then -1
    else if StartsAt(s, i, lit) then i
    else IndexOfFrom(s, lit, i + 1)
  }

  /** `s.indexOf(lit)`: the first occurrence of `lit`, or -1 when there is none. */
  function IndexOf(s: string, lit: string): (r: int)
    ensures -1 <= r <= |s|
    ensures r >= 0 ==> StartsAt(s, r, lit)
    ensures r >= 0 ==> forall k :: 0 <= k < r ==> !StartsAt(s, k, lit)
    ensures r < 0 <==> !Contains(s, lit)
  {
    IndexOfFrom(s, lit, 0)
  }

  /** Last position at or before `i` where `lit` occurs, or -1. */
  function LastIndexOfFrom(s: string, lit: string, i: int): (r: int)
    requires i <= |s|
    ensures r == -1 || (0 <= r <= i && StartsAt(s, r, lit))
    ensures forall k :: r < k <= i && 0 <= k ==> !StartsAt(s, k, lit)
    decreases i + 1
  {
    if i < 0 then -1
    else if StartsAt(s, i, lit) then i
    else LastIndexOfFrom(s, lit, i - 1)
  }

  /** `s.lastIndexOf(lit)`: the last occurrence of `lit`, or -1 when there is none. */
  function LastIndexOf(s: string, lit: string): (r: int)
    ensures -1 <= r <= |s|
    ensures r >= 0 ==> StartsAt(s, r, lit)
    ensures forall k :: r < k <= |s| && 0 <= k ==> !StartsAt(s, k, lit)
    ensures r < 0 <==> !Contains(s, lit)
  {
    LastIndexOfFrom(s, lit, |s|)
  }

  /** An occurrence inside a slice is an occurrence in the whole string, shifted. */
  lemma StartsAtSlice(s: string, a: nat, b: nat, k: nat, lit: string)
    requires a <= k && k + |lit| <= b <= |s|
    ensures StartsAt(s[a..b], k - a, lit) <==> StartsAt(s, k, lit)
  {
    var x, y := s[a..b][k - a..k - a + |lit|], s[k..k + |lit|];
    forall t | 0 <= t < |lit| ensures x[t] == y[t] {
    }
    assert x == y;
  }

  /** Whatever occurs in a prefix occurs in every longer prefix. */
  lemma ContainsPrefixMono(s: string, lit: string, a: nat, b: nat)
    requires a <= b <= |s|
    requires Contains(s[..a], lit)
    ensures Contains(s[..b], lit)
  {
    var i :| 0 <= i <= a && StartsAt(s[..a], i, lit);
    assert s[..b][i..i + |lit|] == s[..a][i..i + |lit|];
    assert StartsAt(s[..b], i, lit);
  }

  /** An occurrence in either part of a concatenation is an occurrence in the whole. */
  lemma ContainsConcat(x: string, y: string, lit: string)
    requires Contains(x, lit) || Contains(y, lit)
    ensures Contains(x + y, lit)
  {
    if Contains(x, lit) {
      var i :| 0 <= i <= |x| && StartsAt(x, i, lit);
      assert (x + y)[i..i + |lit|] == x[i..i + |lit|];
      assert StartsAt(x + y, i, lit);
    } else {
      var i :| 0 <= i <= |y| && StartsAt(y, i, lit);
      assert (x + y)[|x| + i..|x| + i + |lit|] == y[i..i + |lit|];
      assert StartsAt(x + y, |x| + i, lit);
    }
  }

  /** A literal occurs in any text that has it in the middle. */
  lemma ContainsMiddle(x: string, lit: string, y: string)
    ensures Contains(x + lit + y, lit)
  {
    assert (x + lit + y)[|x|..|x| + |lit|] == lit;
    assert StartsAt(x + lit + y, |x|, lit);
  }

  /** A literal shorter than the text it is sought in, found at a known place. */
  lemma ContainsAt(s: string, i: nat, lit: string)
    requires StartsAt(s, i, lit)
    ensures Contains(s, lit)
  {
  }

  /** A single character occurs in `s` exactly when it is an element of `s`. */
  lemma ContainsChar(s: string, c: char)
    ensures Contains(s, [c]) <==> c in s
  {
    if Contains(s, [c]) {
      var k :| 0 <= k <= |s| && StartsAt(s, k, [c]);
      assert s[k] == c;
    }
    if c in s {
      var k :| 0 <= k < |s| && s[k] == c;
      assert StartsAt(s, k, [c]);
    }
  }

  /** Position of the first `c` in `s`, or -1. */
  function Find(s: string, c: char): (r: int)
    ensures -1 <= r < |s|
    ensures r < 0 ==> c !in s
    ensures r >= 0 ==> s[r] == c && c !in s[..r]
  {
    if s == [] then -1
    else if s[0] == c then 0
    else
      var k := Find(s[1..], c);
      if k < 0 then -1
      else
        assert s[..k + 1] == [s[0]] + s[1..][..k];
        k + 1
  }

  /** `s.split(sep)` for a one-character separator. */
  function Split(s: string, sep: char): (parts: seq<string>)
    ensures |parts| >= 1
    ensures forall k :: 0 <= k < |parts| ==> sep !in parts[k]
    decreases |s|
  {
    var k := Find(s, sep);
    if k < 0 then [s]
    else
      var rest := Split(s[k + 1..], sep);
      var parts := [s[..k]] + rest;
      assert forall j :: 0 <= j < |parts| ==> sep !in parts[j] by {
        forall j | 0 <= j < |parts|
          ensures sep !in parts[j]
        {
          if j > 0 {
            assert parts[j] == rest[j - 1];
          }
        }
      }
      parts
  }

  /** `parts.join(sep)` */
  function Join(parts: seq<string>, sep: char): string {
    if |parts| == 0 then ""
    else if |parts| == 1 then parts[0]
    else parts[0] + [sep] + Join(parts[1..], sep)
  }

  /** Joining the pieces of a split gives back the string. */
  lemma {:induction false} JoinSplit(s: string, sep: char)
    ensures Join(Split(s, sep), sep) == s
    decreases |s|
  {
    var k := Find(s, sep);
    if k >= 0 {
      var rest := s[k + 1..];
      JoinSplit(rest, sep);
      SplitAtFirst(s, sep, k);
      JoinCons(s[..k], Split(rest, sep), sep);
      Reassemble(s, k);
    }
  }

  /** Splitting at the first separator: the piece before it, then the split of the rest. */
  lemma SplitAtFirst(s: string, sep: char, k: int)
    requires k == Find(s, sep) && k >= 0
    ensures Split(s, sep) == [s[..k]] + Split(s[k + 1..], sep)
  {
  }

  /** A string is the text before position `k`, the character there, and the text after. */
  lemma Reassemble(s: string, k: nat)
    requires k < |s|
    ensures s[..k] + [s[k]] + s[k + 1..] == s
  {
  }

  /** Joining a piece in front of at least one more puts the separator between them. */
  lemma JoinCons(x: string, rest: seq<string>, sep: char)
    requires |rest| >= 1
    ensures Join([x] + rest, sep) == x + [sep] + Join(rest, sep)
  {
    assert ([x] + rest)[1..] == rest;
  }

  /** Splitting a join of separator-free pieces gives back the pieces. */
  lemma {:induction false} SplitJoin(parts: seq<string>, sep: char)
    requires |parts| >= 1
    requires forall k :: 0 <= k < |parts| ==> sep !in parts[k]
    ensures Split(Join(parts, sep), sep) == parts
  {
    if |parts| > 1 {
      var rest := Join(parts[1..], sep);
      var s := parts[0] + [sep] + rest;
      var p := |parts[0]|;
      assert s[p] == sep;
      assert s[..p] == parts[0];
      var k := Find(s, sep);
      assert k == p by {
        assert forall j :: 0 <= j < p ==> s[j] == parts[0][j];
      }
      assert s[p + 1..] == rest;
      SplitJoin(parts[1..], sep);
    }
  }

  /** A character in none of the pieces, other than the separator, is not in their join. */
  lemma {:induction false} JoinFree(parts: seq<string>, sep: char, c: char)
    requires c != sep
    requires forall k :: 0 <= k < |parts| ==> c !in parts[k]
    ensures c !in Join(parts, sep)
  {
    if |parts| > 1 {
      JoinFree(parts[1..], sep, c);
      assert Join(parts, sep) == parts[0] + [sep] + Join(parts[1..], sep);
    }
  }

  /** A join starts with its first piece. */
  lemma JoinHead(parts: seq<string>, sep: char)
    requires |parts| >= 1
    ensures |Join(parts, sep)| >= |parts[0]| && Join(parts, sep)[..|parts[0]|] == parts[0]
  {
    if |parts| > 1 {
      assert Join(parts, sep) == parts[0] + ([sep] + Join(parts[1..], sep));
    }
  }

  /** `s.split(sep)` has one more piece than `s` has separators. */
  lemma {:induction false} SplitCount(s: string, sep: char)
    ensures |Split(s, sep)| == multiset(s)[sep] + 1
    decreases |s|
  {
    var k := Find(s, sep);
    if k >= 0 {
      SplitCount(s[k + 1..], sep);
      assert s == s[..k] + [sep] + s[k + 1..];
      assert multiset(s[..k])[sep] == 0;
    } else {
      assert multiset(s)[sep] == 0;
    }
  }

  /** `s` with its leading whitespace removed. */
  function TrimStart(s: string): (r: string)
    ensures |r| <= |s| && r == s[|s| - |r|..]
    ensures r == [] || !IsSpace(r[0])
    ensures forall k :: 0 <= k < |s| - |r| ==> IsSpace(s[k])
  {
    if |s| > 0 && IsSpace(s[0]) then TrimStart(s[1..]) else s
  }

  /** `s` with its trailing whitespace removed. */
  function TrimEnd(s: string): (r: string)
    ensures |r| <= |s| && r == s[..|r|]
    ensures r == [] || !IsSpace(r[|r| - 1])
    ensures forall k :: |r| <= k < |s| ==> IsSpace(s[k])
  {
    if |s| > 0 && IsSpace(s[|s| - 1]) then TrimEnd(s[..|s| - 1]) else s
  }

  /** `s.trim()`: what lies between the leading and the trailing whitespace. */
  function Trim(s: string): (r: string)
    ensures |r| <= |s|
    ensures r == [] || (!IsSpace(r[0]) && !IsSpace(r[|r| - 1]))
  {
    TrimEnd(TrimStart(s))
  }

  /** `trim` is the empty string exactly for all-whitespace strings. */
  lemma TrimEmpty(s: string)
    ensures Trim(s) == [] <==> forall k :: 0 <= k < |s| ==> IsSpace(s[k])
  {
    var t := TrimStart(s);
    if Trim(s) == [] {
      assert t == [];
    }
  }

  /** A string that neither starts nor ends with whitespace is its own `trim`. */
  lemma TrimUnchanged(s: string)
    requires s == [] || (!IsSpace(s[0]) && !IsSpace(s[|s| - 1]))
    ensures Trim(s) == s
  {
  }

  /**
   * `s.length` in JavaScript, which counts UTF-16 code units: a character above U+FFFF
   * is a surrogate pair and counts twice.
   */
  function Utf16Length(s: string): (n: nat)
    ensures |s| <= n <= 2 * |s|
  {
    if s == [] then 0 else Utf16Length(s[..|s| - 1]) + (if s[|s| - 1] as int > 0xFFFF then 2 else 1)
  }

  /** Below U+10000 every character is one code unit, so the two lengths agree. */
  lemma {:induction false} Utf16LengthBasic(s: string)
    requires forall k :: 0 <= k < |s| ==> s[k] as int <= 0xFFFF
    ensures Utf16Length(s) == |s|
  {
    if s != [] {
      Utf16LengthBasic(s[..|s| - 1]);
    }
  }

  /** Above U+FFFF every character is two code units. */
  lemma {:induction false} Utf16LengthAstral(s: string)
    requires forall k :: 0 <= k < |s| ==> s[k] as int > 0xFFFF
    ensures Utf16Length(s) == 2 * |s|
  {
    if s != [] {
      Utf16LengthAstral(s[..|s| - 1]);
    }
  }

  function DigitChar(d: nat): (c: char)
    requires d < 10
    ensures IsDigit(c)
  {
    ('0' as int + d) as char
  }

  /** Decimal rendering of a natural number, as `String(n)` writes it. */
  function NatToString(n: nat): (r: string)
    ensures |r| >= 1
    ensures forall k :: 0 <= k < |r| ==> IsDigit(r[k])
  {
    if n < 10 then [DigitChar(n)] else NatToString(n / 10) + [DigitChar(n % 10)]
  }

  /** Decimal rendering of an integer, with a leading `-` for negatives. */
  function IntToString(n: int): (r: string)
    ensures |r| >= 1
    ensures forall k :: 0 <= k < |r| ==> IsDigit(r[k]) || r[k] == '-'
  {
    if n < 0 then "-" + NatToString(-n) else NatToString(n)
  }
}

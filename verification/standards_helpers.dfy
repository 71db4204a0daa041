/**
 * The helper methods of the development standards checker: the three naming-convention
 * tests and `getMostCommon`, the most frequent indentation width.
 */
module StandardsHelpers {
  import opened Text

  /** Every character of `s` satisfies `p`. */
  function All(s: string, p: char -> bool): (b: bool)
    ensures b <==> forall k :: 0 <= k < |s| ==> p(s[k])
  {
    s == [] || (p(s[0]) && All(s[1..], p))
  }

  /** `[A-Z0-9_]` */
  predicate IsConstantChar(c: char) { IsUpper(c) || IsDigit(c) || c == '_' }

  /** `isCamelCase`: the name matches `^[a-z][a-zA-Z0-9]*$`. */
  function IsCamelCase(name: string): (b: bool)
    ensures b <==> |name| > 0 && IsLower(name[0]) && forall k :: 1 <= k < |name| ==> IsAlnum(name[k])
  {
    |name| > 0 && IsLower(name[0]) && All(name[1..], IsAlnum)
  }

  /** `isPascalCase`: the name matches `^[A-Z][a-zA-Z0-9]*$`. */
  function IsPascalCase(name: string): (b: bool)
    ensures b <==> |name| > 0 && IsUpper(name[0]) && forall k :: 1 <= k < |name| ==> IsAlnum(name[k])
  {
    |name| > 0 && IsUpper(name[0]) && All(name[1..], IsAlnum)
  }

  /** `isUpperCase`: the name matches `^[A-Z_][A-Z0-9_]*$`. */
  function IsUpperCase(name: string): (b: bool)
    ensures b <==> |name| > 0 && (IsUpper(name[0]) || name[0] == '_')
                   && forall k :: 1 <= k < |name| ==> IsConstantChar(name[k])
  {
    |name| > 0 && (IsUpper(name[0]) || name[0] == '_') && All(name[1..], IsConstantChar)
  }

  /** No convention accepts the empty name. */
  lemma EmptyNameRejected()
    ensures !IsCamelCase("") && !IsPascalCase("") && !IsUpperCase("")
  {
  }

  /** `My_Var` satisfies none of the conventions: a checker flags it as a variable. */
  lemma MixedNameRejected()
    ensures !IsCamelCase("My_Var") && !IsPascalCase("My_Var") && !IsUpperCase("My_Var")
  {
    var n := "My_Var";
    assert n[0] == 'M' && n[2] == '_' && n[4] == 'a';
  }

  /** `_` and `MAX_SIZE` are UPPER_CASE. */
  lemma ConstantNamesAccepted()
    ensures IsUpperCase("_") && IsUpperCase("MAX_SIZE")
  {
    var n := "MAX_SIZE";
    assert n[1..] == "AX_SIZE";
    assert All(n[1..], IsConstantChar) by {
      forall k | 0 <= k < |n[1..]| ensures IsConstantChar(n[1..][k]) {
        assert n[1..][k] in "AX_SIZE";
      }
    }
  }

  /** camelCase excludes both other conventions; PascalCase and UPPER_CASE share only names without lower-case letters or underscores. */
  lemma ConventionsOverlap(name: string)
    ensures IsCamelCase(name) ==> !IsPascalCase(name) && !IsUpperCase(name)
    ensures IsPascalCase(name) && IsUpperCase(name) <==>
      |name| > 0 && IsUpper(name[0]) && forall k :: 1 <= k < |name| ==> IsUpper(name[k]) || IsDigit(name[k])
  {
  }

  /** How often `x` occurs in `xs`: `frequency[x]` once the counting loop is done. */
  function Frequency(xs: seq<nat>, x: nat): nat {
    multiset(xs)[x]
  }

  /**
   * `c` wins against `b` in the reduce over the frequency table: it is strictly more
   * frequent, or just as frequent and larger (keys come in ascending order and a tie
   * hands the accumulator to the later key).
   */
  predicate Outranks(xs: seq<nat>, c: nat, b: nat) {
    Frequency(xs, c) > Frequency(xs, b) || (Frequency(xs, c) == Frequency(xs, b) && c > b)
  }

  /** The candidate that no other candidate outranks. */
  function BestOf(xs: seq<nat>, candidates: seq<nat>): (r: nat)
    requires |candidates| > 0
    ensures r in candidates
    ensures forall c :: c in candidates ==> !Outranks(xs, c, r)
  {
    if |candidates| == 1 then candidates[0]
    else
      var b := BestOf(xs, candidates[1..]);
      assert forall c :: c in candidates ==> c == candidates[0] || c in candidates[1..];
      if Outranks(xs, candidates[0], b) then candidates[0] else b
  }

  /** A most frequent element, the largest one among equally frequent ones. */
  predicate IsMostCommon(xs: seq<nat>, r: nat) {
    && r in xs
    && (forall x :: x in xs ==> Frequency(xs, x) <= Frequency(xs, r))
    && (forall x :: x in xs && Frequency(xs, x) == Frequency(xs, r) ==> x <= r)
  }

  /** The value `getMostCommon` returns on a non-empty list. */
  function MostCommon(xs: seq<nat>): (r: nat)
    requires |xs| > 0
    ensures IsMostCommon(xs, r)
  {
    BestOf(xs, xs)
  }

  /** The most common element is determined: at most one value is most common. */
  lemma MostCommonUnique(xs: seq<nat>, r: nat)
    requires IsMostCommon(xs, r)
    ensures r == MostCommon(xs)
  {
    var m := MostCommon(xs);
    assert Frequency(xs, r) == Frequency(xs, m);
  }

  /** On a tie the larger width wins: `getMostCommon([2, 4])` is 4. */
  lemma MostCommonTie()
    ensures MostCommon([2, 4]) == 4
  {
    var xs: seq<nat> := [2, 4];
    assert multiset(xs)[2] == 1 && multiset(xs)[4] == 1;
    assert 4 in xs;
    MostCommonUnique(xs, 4);
  }

  /**
   * `getMostCommon`: counts every item into a frequency table, then reduces the
   * table's keys, which JavaScript enumerates in ascending numeric order for integer
   * keys, keeping the accumulator only when it is strictly more frequent.
   */
  method GetMostCommon(arr: seq<nat>) returns (r: nat)
    requires |arr| > 0
    ensures IsMostCommon(arr, r)
    ensures r == MostCommon(arr)
  {
    var frequency: map<nat, nat> := map[];
    var top: nat := 0;
    for k := 0 to |arr|
      invariant forall x :: x in frequency <==> x in arr[..k]
      invariant forall x :: x in frequency ==> frequency[x] == Frequency(arr[..k], x)
      invariant forall x :: x in arr[..k] ==> x <= top
    {
      var item := arr[k];
      frequency := frequency[item := (if item in frequency then frequency[item] else 0) + 1];
      if item > top {
        top := item;
      }
      assert arr[..k + 1] == arr[..k] + [item];
    }
    assert arr[..|arr|] == arr;
    var started := false;
    var best: nat := 0;
    for v := 0 to top + 1
      invariant started <==> exists x :: x in arr && x < v
      invariant started ==> best in arr && best < v
      invariant started ==> forall x :: x in arr && x < v ==> !Outranks(arr, x, best)
    {
      if v in frequency {
        if !started {
          best, started := v, true;
        } else if !(frequency[best] > frequency[v]) {
          best := v;
        }
      }
    }
    assert arr[0] in arr;
    r := best;
    MostCommonUnique(arr, r);
  }
}

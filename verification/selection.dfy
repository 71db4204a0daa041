/**
 * Lists built by a row of `if (condition) list.push(entry)` statements, and
 * `filter(Boolean).length`, which counts the conditions that hold.
 */
module Selection {

  /**
   * `flags.filter(Boolean).length`, also `checks.filter(c => c.passed).length` over the
   * checks' verdicts: all flags hold exactly when every one is counted.
   */
  function CountTrue(flags: seq<bool>): (n: nat)
    ensures n <= |flags|
    ensures n == |flags| <==> forall k :: 0 <= k < |flags| ==> flags[k]
  {
    if flags == [] then 0
    else
      assert forall k :: 1 <= k < |flags| ==> flags[k] == flags[1..][k - 1];
      (if flags[0] then 1 else 0) + CountTrue(flags[1..])
  }

  /** Counting a flag in front of a list adds one exactly when the flag holds. */
  lemma CountTrueCons(b: bool, flags: seq<bool>)
    ensures CountTrue([b] + flags) == (if b then 1 else 0) + CountTrue(flags)
  {
    assert ([b] + flags)[1..] == flags;
  }

  /** `if (condition) list.push(entry)`: the entry is added at the end exactly when the condition holds. */
  function PushIf<T>(list: seq<T>, condition: bool, entry: T): (r: seq<T>)
    ensures |r| == |list| + (if condition then 1 else 0)
    ensures r[..|list|] == list
    ensures condition ==> r[|list|] == entry
  {
    if condition then list + [entry] else list
  }

  /** An entry is in the extended list exactly when it was already there or was just pushed. */
  lemma PushIfMembers<T>(list: seq<T>, condition: bool, entry: T, x: T)
    ensures x in PushIf(list, condition, entry) <==> x in list || (condition && x == entry)
  {
  }
}

/** Locating the first element of a sequence that fails a check. */
module Search {

  /** The index of the first element of `s` that satisfies `bad`, or `|s|` when there is none.
      It is characterised completely by its contract. */
  function FirstWhere<T>(s: seq<T>, bad: T -> bool): (k: nat)
    ensures k <= |s|
    ensures forall i :: 0 <= i < k ==> !bad(s[i])
    ensures k < |s| ==> bad(s[k])
  {
    if |s| == 0 then 0
    else if bad(s[0]) then 0
    else 1 + FirstWhere(s[1..], bad)
  }

  /** Any index with the characterising property is the one FirstWhere finds. */
  lemma FirstWhereIs<T>(s: seq<T>, bad: T -> bool, k: nat)
    requires k <= |s|
    requires forall i :: 0 <= i < k ==> !bad(s[i])
    requires k < |s| ==> bad(s[k])
    ensures FirstWhere(s, bad) == k
  {
  }
}

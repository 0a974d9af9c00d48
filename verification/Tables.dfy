/** What the two servers and the namespace display share: lists without repetition, and removal from a table whose
    last entry takes the place of the removed one. */
module Tables {

  /** What recv does on a readable descriptor. */
  datatype Recv = Error | Closed | Data

  ghost predicate NoRepeat<T>(s: seq<T>) {
    forall i, j :: 0 <= i < j < |s| ==> s[i] != s[j]
  }

  lemma NoRepeatAppend<T>(a: seq<T>, b: seq<T>)
    requires NoRepeat(a) && NoRepeat(b) && forall x :: x in a ==> x !in b
    ensures NoRepeat(a + b)
  {
    forall i, j | 0 <= i < j < |a + b|
      ensures (a + b)[i] != (a + b)[j]
    {
      if i < |a| <= j { assert a[i] in a && b[j - |a|] in b; }
    }
  }

  function SwapRemove<T>(t: seq<T>, i: nat): seq<T>
    requires i < |t|
  {
    if i == |t| - 1 then t[..i] else t[..|t| - 1][i := t[|t| - 1]]
  }
}

/** Lists of ids without repetition, and the removal of one id by a scan from the front. */
module Lists {

  predicate Distinct(list: seq<nat>) {
    forall i, j | 0 <= i < j < |list| :: list[i] != list[j]
  }

  /** The list without the first occurrence of x. */
  function Without(list: seq<nat>, x: nat): seq<nat> {
    if list == [] then []
    else if list[0] == x then list[1..]
    else [list[0]] + Without(list[1..], x)
  }

  lemma {:induction false} WithoutMembers(list: seq<nat>, x: nat)
    requires Distinct(list)
    ensures Distinct(Without(list, x))
    ensures forall y :: y in Without(list, x) <==> y in list && y != x
    ensures x in list ==> |Without(list, x)| == |list| - 1
    ensures x !in list ==> Without(list, x) == list
    decreases |list|
  {
    if list != [] {
      WithoutMembers(list[1..], x);
      assert list[0] !in list[1..];
      assert forall y :: y in list <==> y == list[0] || y in list[1..];
    }
  }

  lemma {:induction false} WithoutAt(list: seq<nat>, i: nat, x: nat)
    requires i < |list| && list[i] == x && x !in list[..i]
    ensures Without(list, x) == list[..i] + list[i + 1..]
    decreases i
  {
    if i > 0 {
      assert list[0] == list[..i][0];
      assert list[1..][..i - 1] == list[..i][1..];
      WithoutAt(list[1..], i - 1, x);
      assert list[..i] + list[i + 1..] == [list[0]] + (list[1..][..i - 1] + list[1..][i..]);
    }
  }

  lemma {:induction false} WithoutMissing(list: seq<nat>, x: nat)
    requires x !in list
    ensures Without(list, x) == list
    decreases |list|
  {
    if list != [] {
      WithoutMissing(list[1..], x);
    }
  }
}

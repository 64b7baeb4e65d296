/** Small types and counting facts used by several components. */
module Types {

  datatype Option<+T> = None | Some(value: T)

  /** The sum of `weight` over a sequence. */
  function Sum<T>(weight: T -> nat, s: seq<T>): nat {
    if s == [] then 0 else Sum(weight, s[..|s| - 1]) + weight(s[|s| - 1])
  }

  lemma {:induction false} SumUpdate<T>(weight: T -> nat, s: seq<T>, i: nat, x: T)
    requires i < |s|
    ensures Sum(weight, s[i := x]) + weight(s[i]) == Sum(weight, s) + weight(x)
  {
    var last := |s| - 1;
    if i == last {
      assert s[i := x][..last] == s[..last];
    } else {
      assert s[i := x][..last] == s[..last][i := x];
      SumUpdate(weight, s[..last], i, x);
    }
  }

  lemma {:induction false} SumZero<T>(weight: T -> nat, s: seq<T>)
    ensures Sum(weight, s) == 0 <==> forall i :: 0 <= i < |s| ==> weight(s[i]) == 0
  {
    if s != [] {
      var last := |s| - 1;
      SumZero(weight, s[..last]);
      assert forall i :: 0 <= i < last ==> s[..last][i] == s[i];
    }
  }

  /** With weights of at most one, an element without weight keeps the sum below the length. */
  lemma {:induction false} SumBelow<T>(weight: T -> nat, s: seq<T>, i: nat)
    requires i < |s| && weight(s[i]) == 0
    requires forall x :: weight(x) <= 1
    ensures Sum(weight, s) < |s|
  {
    var last := |s| - 1;
    if i < last {
      SumBelow(weight, s[..last], i);
    } else {
      SumAtMost(weight, s[..last]);
    }
  }

  lemma {:induction false} SumAtMost<T>(weight: T -> nat, s: seq<T>)
    requires forall x :: weight(x) <= 1
    ensures Sum(weight, s) <= |s|
  {
    if s != [] {
      SumAtMost(weight, s[..|s| - 1]);
    }
  }

  /** No element occurs twice. */
  predicate Distinct<T(==)>(s: seq<T>) {
    forall i, j :: 0 <= i < j < |s| ==> s[i] != s[j]
  }

  /** How far `a` is above `b`, if it is. */
  function Rise(a: nat, b: nat): nat {
    if a > b then a - b else 0
  }
}

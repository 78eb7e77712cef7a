/** Sequences without repeated elements. */
module Sequences {

  predicate NoRepeat<T(==)>(q: seq<T>) {
    forall i, j :: 0 <= i < j < |q| ==> q[i] != q[j]
  }

  lemma NoRepeatStep<T>(base: seq<T>, x: T)
    ensures NoRepeat(base + [x]) <==> NoRepeat(base) && x !in base
  {
    var q := base + [x];
    if NoRepeat(q) {
      forall i, j | 0 <= i < j < |base| ensures base[i] != base[j] { assert q[i] != q[j]; }
      forall i | 0 <= i < |base| ensures base[i] != x { assert q[i] != q[|base|]; }
    }
  }

  lemma NoRepeatAppend<T>(a: seq<T>, b: seq<T>)
    requires NoRepeat(a) && NoRepeat(b) && forall x | x in a :: x !in b
    ensures NoRepeat(a + b)
  {
    var q := a + b;
    forall i, j | 0 <= i < j < |q| ensures q[i] != q[j] {
      if i < |a| <= j { assert a[i] in a && b[j - |a|] in b; }
    }
  }
}

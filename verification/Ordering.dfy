/** Lexicographic order, as Python compares strings and tuples of strings, and the
    sorted listing of a finite set under a strict total order.
 */
module Ordering {

  ghost predicate StrictTotal<T(!new)>(less: (T, T) -> bool) {
    && (forall x :: !less(x, x))
    && (forall x, y, z :: less(x, y) && less(y, z) ==> less(x, z))
    && (forall x, y :: less(x, y) || x == y || less(y, x))
  }

  predicate LexLess<T(==)>(less: (T, T) -> bool, a: seq<T>, b: seq<T>)
    decreases |a|
  {
    b != [] && (a == [] || less(a[0], b[0]) || (a[0] == b[0] && LexLess(less, a[1..], b[1..])))
  }

  predicate CharLess(a: char, b: char) { a < b }

  predicate StringLess(a: string, b: string) { LexLess(CharLess, a, b) }

  predicate PathLess(a: seq<string>, b: seq<string>) { LexLess(StringLess, a, b) }

  /** What the order means: at the first difference the smaller element, or nothing more, comes first. */
  lemma {:induction false} LexMeans<T(!new)>(less: (T, T) -> bool, a: seq<T>, b: seq<T>)
    ensures LexLess(less, a, b) <==>
              exists k :: 0 <= k <= |a| && k < |b| && a[..k] == b[..k] && (k == |a| || less(a[k], b[k]))
    decreases |a|
  {
    if b != [] && a != [] {
      LexMeans(less, a[1..], b[1..]);
      if LexLess(less, a, b) {
        if less(a[0], b[0]) {
          assert a[..0] == b[..0];
        } else {
          var k :| 0 <= k <= |a[1..]| && k < |b[1..]| && a[1..][..k] == b[1..][..k]
                   && (k == |a[1..]| || less(a[1..][k], b[1..][k]));
          assert a[..k + 1] == [a[0]] + a[1..][..k] && b[..k + 1] == [b[0]] + b[1..][..k];
          assert k + 1 <= |a| && k + 1 < |b| && a[..k + 1] == b[..k + 1] && (k + 1 == |a| || less(a[k + 1], b[k + 1]));
        }
      }
      if exists k :: 0 <= k <= |a| && k < |b| && a[..k] == b[..k] && (k == |a| || less(a[k], b[k])) {
        var k :| 0 <= k <= |a| && k < |b| && a[..k] == b[..k] && (k == |a| || less(a[k], b[k]));
        if k > 0 {
          assert a[0] == a[..k][0] == b[..k][0] == b[0];
          assert a[1..][..k - 1] == a[..k][1..] && b[1..][..k - 1] == b[..k][1..];
        }
      }
    } else if b != [] {
      assert a[..0] == b[..0];
    }
  }

  /** Strings are compared character by character, by code point. */
  lemma StringLessMeans(a: string, b: string)
    ensures StringLess(a, b) <==>
              exists k :: 0 <= k <= |a| && k < |b| && a[..k] == b[..k] && (k == |a| || a[k] < b[k])
  {
    LexMeans(CharLess, a, b);
    assert forall k | 0 <= k < |a| && k < |b| :: CharLess(a[k], b[k]) <==> a[k] < b[k];
  }

  lemma {:induction false} LexIrreflexive<T(!new)>(less: (T, T) -> bool, a: seq<T>)
    requires StrictTotal(less)
    ensures !LexLess(less, a, a)
    decreases |a|
  {
    if a != [] { LexIrreflexive(less, a[1..]); }
  }

  lemma {:induction false} LexTransitive<T(!new)>(less: (T, T) -> bool, a: seq<T>, b: seq<T>, c: seq<T>)
    requires StrictTotal(less) && LexLess(less, a, b) && LexLess(less, b, c)
    ensures LexLess(less, a, c)
    decreases |a|
  {
    if a != [] && a[0] == b[0] && b[0] == c[0] && !less(a[0], b[0]) && !less(b[0], c[0]) {
      LexTransitive(less, a[1..], b[1..], c[1..]);
    }
  }

  lemma {:induction false} LexTotal<T(!new)>(less: (T, T) -> bool, a: seq<T>, b: seq<T>)
    requires StrictTotal(less)
    ensures LexLess(less, a, b) || a == b || LexLess(less, b, a)
    decreases |a|
  {
    if a != [] && b != [] && a[0] == b[0] {
      LexTotal(less, a[1..], b[1..]);
      assert a[1..] == b[1..] ==> a == [a[0]] + a[1..] == [b[0]] + b[1..] == b;
    }
  }

  /** The order on same-length sequences survives appending one more element. */
  lemma {:induction false} LexAppend<T(!new)>(less: (T, T) -> bool, a: seq<T>, b: seq<T>, x: T)
    requires StrictTotal(less) && |a| == |b|
    ensures LexLess(less, a, b) <==> LexLess(less, a + [x], b + [x])
    decreases |a|
  {
    if a == [] {
      assert a + [x] == b + [x];
      LexIrreflexive(less, a + [x]);
    } else {
      assert (a + [x])[1..] == a[1..] + [x] && (b + [x])[1..] == b[1..] + [x];
      LexAppend(less, a[1..], b[1..], x);
    }
  }

  lemma StringOrder()
    ensures StrictTotal(StringLess)
  {
    assert StrictTotal(CharLess);
    forall x: string ensures !StringLess(x, x) { LexIrreflexive(CharLess, x); }
    forall x, y, z | StringLess(x, y) && StringLess(y, z) ensures StringLess(x, z) {
      LexTransitive(CharLess, x, y, z);
    }
    forall x, y ensures StringLess(x, y) || x == y || StringLess(y, x) { LexTotal(CharLess, x, y); }
  }

  lemma PathOrder()
    ensures StrictTotal(PathLess)
  {
    StringOrder();
    forall x: seq<string> ensures !PathLess(x, x) { LexIrreflexive(StringLess, x); }
    forall x, y, z | PathLess(x, y) && PathLess(y, z) ensures PathLess(x, z) {
      LexTransitive(StringLess, x, y, z);
    }
    forall x, y ensures PathLess(x, y) || x == y || PathLess(y, x) { LexTotal(StringLess, x, y); }
  }

  ghost predicate IsLeast<T(!new)>(less: (T, T) -> bool, s: set<T>, m: T) {
    m in s && forall x | x in s :: x == m || less(m, x)
  }

  lemma LeastOfOneMore<T(!new)>(less: (T, T) -> bool, s: set<T>, a: T, r: T)
    requires StrictTotal(less) && a in s && IsLeast(less, s - {a}, r)
    ensures IsLeast(less, s, if less(r, a) then r else a)
  {
    forall x | x in s ensures x == a || x in s - {a} {}
  }

  /** A non-empty finite set has a least element. */
  lemma {:induction false} LeastExists<T(!new)>(less: (T, T) -> bool, s: set<T>)
    requires StrictTotal(less) && s != {}
    ensures exists m :: IsLeast(less, s, m)
    decreases |s|
  {
    hide StrictTotal;
    var a :| a in s;
    if s == {a} {
      assert IsLeast(less, s, a);
    } else {
      var rest := s - {a};
      LeastExists(less, rest);
      var r :| IsLeast(less, rest, r);
      LeastOfOneMore(less, s, a, r);
    }
  }

  ghost function Least<T(!new)>(less: (T, T) -> bool, s: set<T>): (m: T)
    requires StrictTotal(less) && s != {}
    ensures m in s && forall x | x in s :: x == m || less(m, x)
  {
    LeastExists(less, s);
    var m :| IsLeast(less, s, m);
    m
  }

  lemma LeastUnique<T(!new)>(less: (T, T) -> bool, s: set<T>, m: T)
    requires StrictTotal(less) && m in s && forall x | x in s :: x == m || less(m, x)
    ensures m == Least(less, s)
  {
  }

  /** The elements of a finite set from least to greatest. */
  ghost function Sorted<T(!new)>(less: (T, T) -> bool, s: set<T>): (r: seq<T>)
    requires StrictTotal(less)
    ensures forall x :: x in r <==> x in s
    decreases |s|
  {
    if s == {} then []
    else
      var m := Least(less, s);
      [m] + Sorted(less, s - {m})
  }

  lemma {:induction false} SortedAscends<T(!new)>(less: (T, T) -> bool, s: set<T>, i: nat, j: nat)
    requires StrictTotal(less) && i < j < |Sorted(less, s)|
    ensures less(Sorted(less, s)[i], Sorted(less, s)[j])
    decreases |s|
  {
    var m := Least(less, s);
    var rest := Sorted(less, s - {m});
    assert Sorted(less, s) == [m] + rest;
    if i == 0 {
      assert rest[j - 1] in rest;
    } else {
      SortedAscends(less, s - {m}, i - 1, j - 1);
    }
  }

  /** The elements of a sequence that belong to a set, in order. */
  ghost function Keep<T(!new)>(r: seq<T>, kept: set<T>): (k: seq<T>)
    ensures forall x :: x in k <==> x in r && x in kept
  {
    if r == [] then [] else Keep(r[..|r| - 1], kept) + if r[|r| - 1] in kept then [r[|r| - 1]] else []
  }

  lemma {:induction false} KeepCons<T(!new)>(x: T, r: seq<T>, kept: set<T>)
    ensures Keep([x] + r, kept) == (if x in kept then [x] else []) + Keep(r, kept)
  {
    if r == [] {
      assert ([x] + r)[..0] == [];
    } else {
      assert ([x] + r)[..|r|] == [x] + r[..|r| - 1];
      KeepCons(x, r[..|r| - 1], kept);
    }
  }

  /** Dropping elements after sorting is sorting what is left. */
  lemma {:induction false} KeepSorted<T(!new)>(less: (T, T) -> bool, s: set<T>, kept: set<T>)
    requires StrictTotal(less)
    ensures Keep(Sorted(less, s), kept) == Sorted(less, s * kept)
    decreases |s|
  {
    if s == {} {
      assert s * kept == {};
    } else {
      var m := Least(less, s);
      KeepSorted(less, s - {m}, kept);
      KeepCons(m, Sorted(less, s - {m}), kept);
      if m in kept {
        LeastUnique(less, s * kept, m);
        assert (s - {m}) * kept == s * kept - {m};
      } else {
        assert (s - {m}) * kept == s * kept;
      }
    }
  }

  method SelectLeast<T(==,!new)>(less: (T, T) -> bool, s: set<T>) returns (m: T)
    requires StrictTotal(less) && s != {}
    ensures m == Least(less, s)
  {
    m :| m in s;
    var todo := s - {m};
    while todo != {}
      invariant m in s && m !in todo && todo <= s
      invariant forall x | x in s && x !in todo :: x == m || less(m, x)
      decreases |todo|
    {
      var x :| x in todo;
      todo := todo - {x};
      if less(x, m) { m := x; }
    }
    LeastUnique(less, s, m);
  }

  /** Python's `sorted` over distinct keys: the listing does not depend on the order in
      which the set hands out its elements. */
  method SortedList<T(==,!new)>(less: (T, T) -> bool, s: set<T>) returns (r: seq<T>)
    requires StrictTotal(less)
    ensures r == Sorted(less, s)
  {
    r := [];
    var rest := s;
    while rest != {}
      invariant Sorted(less, s) == r + Sorted(less, rest)
      decreases |rest|
    {
      var m := SelectLeast(less, rest);
      assert r + ([m] + Sorted(less, rest - {m})) == (r + [m]) + Sorted(less, rest - {m});
      r, rest := r + [m], rest - {m};
    }
  }

  /** A listing of a set of strings in ascending order. */
  ghost predicate ListsStrings(r: seq<string>, s: set<string>) {
    && (forall x :: x in r <==> x in s)
    && forall i, j :: 0 <= i < j < |r| ==> StringLess(r[i], r[j])
  }

  method SortedStrings(s: set<string>) returns (r: seq<string>)
    ensures ListsStrings(r, s)
  {
    StringOrder();
    r := SortedList(StringLess, s);
    forall i, j | 0 <= i < j < |r| ensures StringLess(r[i], r[j]) { SortedAscends(StringLess, s, i, j); }
  }
}

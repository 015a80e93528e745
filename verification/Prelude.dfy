/** Datatypes shared by every module: nullable columns and failing operations. */
module Prelude {
  datatype Option<+T> = None | Some(value: T)

  datatype Result<+T, +E> = Ok(value: T) | Err(error: E)

  function Min(a: int, b: int): int {
    if a <= b then a else b
  }

  function Max(a: int, b: int): int {
    if a >= b then a else b
  }

  function PowerOfTwo(n: nat): int {
    if n == 0 then 1 else 2 * PowerOfTwo(n - 1)
  }

  lemma {:induction false} PowerIsPositive(n: nat)
    ensures PowerOfTwo(n) > 0
  {
    if n > 0 { PowerIsPositive(n - 1); }
  }

  lemma Member<T>(s: set<T>) returns (x: T)
    requires s != {}
    ensures x in s
  {
    x :| x in s;
  }

  predicate IsMax(s: set<int>, m: int) {
    m in s && forall x :: x in s ==> x <= m
  }

  lemma {:induction false} MaxExists(s: set<int>) returns (m: int)
    requires s != {}
    ensures IsMax(s, m)
    decreases |s|
  {
    var x := Member(s);
    m := x;
    var rest := s - {x};
    assert forall y :: y in s ==> y == x || y in rest;
    if rest != {} {
      var n := MaxExists(rest);
      if n > x { m := n; }
    }
  }

  function MaxOf(s: set<int>): (m: int)
    ensures s != {} ==> IsMax(s, m)
  {
    if s == {} then 0 else
      assert exists m :: IsMax(s, m) by { var m := MaxExists(s); }
      var m :| m in s && forall x :: x in s ==> x <= m; m
  }
}

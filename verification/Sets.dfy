/** Choosing members of finite sets. */
module Sets {
  /** Some member of a non-empty set. */
  ghost function Pick<T>(s: set<T>): (x: T)
    requires s != {}
    ensures x in s
  {
    var x :| x in s;
    x
  }

  /** Any member of a non-empty set, as an iteration over a map picks its next key. */
  method AnyOf<T(==)>(s: set<T>) returns (x: T)
    requires s != {}
    ensures x in s
  {
    x :| x in s;
  }

  lemma {:induction false} SubsetSize<T>(a: set<T>, b: set<T>)
    requires a <= b
    ensures |a| <= |b|
    decreases b
  {
    if b - a == {} {
      assert b == (b - a) + a;
    } else {
      var x := Pick(b - a);
      SubsetSize(a, b - {x});
    }
  }
}

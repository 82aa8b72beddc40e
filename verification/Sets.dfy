/** Sizes of finite sets, and lists without repeats. */
module Sets {

  ghost predicate NoDup<T(!new)>(s: seq<T>) {
    forall i, j | 0 <= i < j < |s| :: s[i] != s[j]
  }

  lemma {:induction false} NoDupSize<T(!new)>(s: seq<T>)
    requires NoDup(s)
    ensures |(set x | x in s)| == |s|
  {
    if s != [] {
      var n := |s| - 1;
      NoDupSize(s[..n]);
      assert (set x | x in s) == (set x | x in s[..n]) + {s[n]};
      assert s[n] !in s[..n];
    }
  }

  lemma {:induction false} SubsetSize<T>(a: set<T>, b: set<T>)
    requires a <= b
    ensures |a| <= |b|
    ensures |a| == |b| ==> a == b
  {
    if a != {} {
      var x :| x in a;
      SubsetSize(a - {x}, b - {x});
      assert a == a - {x} + {x} && b == b - {x} + {x};
    }
  }

  /** A list longer than the set it draws from repeats an element. */
  lemma Pigeonhole<T(!new)>(s: seq<T>, r: set<T>) returns (i: nat, j: nat)
    requires (forall x | x in s :: x in r) && |s| > |r|
    ensures i < j < |s| && s[i] == s[j]
  {
    if NoDup(s) {
      NoDupSize(s);
      SubsetSize((set x | x in s), r);
      assert false;
    } else {
      i, j :| 0 <= i < j < |s| && s[i] == s[j];
    }
  }
}

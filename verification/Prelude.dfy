/** Small generic datatypes and facts shared by the other modules. */
module Prelude {

  datatype Option<+T> = None | Some(value: T)

  datatype Result<+T, +E> = Success(value: T) | Failure(error: E)

  lemma {:induction false} SubsetCard<T>(a: set<T>, b: set<T>)
    requires a <= b
    ensures |a| <= |b|
    ensures |a| == |b| ==> a == b
  {
    if a != {} {
      var x :| x in a;
      SubsetCard(a - {x}, b - {x});
    }
  }

  predicate Distinct<T(==)>(s: seq<T>) {
    forall i, j :: 0 <= i < j < |s| ==> s[i] != s[j]
  }

  lemma {:induction false} DistinctCard<T>(s: seq<T>)
    requires Distinct(s)
    ensures |set x | x in s| == |s|
  {
    if s != [] {
      var rest := s[..|s| - 1];
      DistinctCard(rest);
      assert (set x | x in s) == (set x | x in rest) + {s[|s| - 1]};
    }
  }

  lemma CountTwice<T>(s: seq<T>, i: nat, j: nat)
    requires i < j < |s| && s[i] == s[j]
    ensures multiset(s)[s[i]] >= 2
  {
    assert s == s[..j] + s[j..];
    assert s[..j][i] in multiset(s[..j]) && s[j..][0] in multiset(s[j..]);
  }

  lemma {:induction false} BoundNat(s: set<nat>) returns (n: nat)
    ensures forall x :: x in s ==> x < n
  {
    n := 0;
    if s != {} {
      var x :| x in s;
      var m := BoundNat(s - {x});
      n := if m <= x then x + 1 else m;
      assert s == (s - {x}) + {x};
    }
  }

  lemma FreshNat(s: set<nat>) returns (n: nat)
    ensures n !in s
  {
    n := BoundNat(s);
  }

  lemma {:induction false} BoundLength(s: set<string>) returns (n: nat)
    ensures forall x :: x in s ==> |x| < n
  {
    n := 0;
    if s != {} {
      var x :| x in s;
      var m := BoundLength(s - {x});
      n := if m <= |x| then |x| + 1 else m;
      assert s == (s - {x}) + {x};
    }
  }

  lemma FreshString(s: set<string>) returns (x: string)
    ensures x !in s && x != ""
  {
    var n := BoundLength(s);
    x := seq(n + 1, _ => 'x');
  }
}

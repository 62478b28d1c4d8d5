/**
 The byte-wise lexicographic order on strings that Go's `<` and
 `sort.Strings` use, and the sorting built on it: the ascending listing of
 a set of strings and a stable insertion sort of a sequence by a string key.
 */
module Order {

  /** `a` sorts before or equal to `b`. */
  predicate LessEq(a: string, b: string)
  {
    |a| == 0 || (|b| > 0 && (a[0] < b[0] || (a[0] == b[0] && LessEq(a[1..], b[1..]))))
  }

  lemma LessEqReflexive(a: string)
    ensures LessEq(a, a)
  {
  }

  lemma LessEqTotal(a: string, b: string)
    ensures LessEq(a, b) || LessEq(b, a)
  {
  }

  lemma LessEqAntisymmetric(a: string, b: string)
    requires LessEq(a, b) && LessEq(b, a)
    ensures a == b
  {
    if |a| > 0 && |b| > 0 {
      LessEqAntisymmetric(a[1..], b[1..]);
      assert a == [a[0]] + a[1..] && b == [b[0]] + b[1..];
    }
  }

  lemma LessEqTransitive(a: string, b: string, c: string)
    requires LessEq(a, b) && LessEq(b, c)
    ensures LessEq(a, c)
  {
    if |a| > 0 && |b| > 0 && |c| > 0 && a[0] == b[0] == c[0] {
      LessEqTransitive(a[1..], b[1..], c[1..]);
    }
  }

  lemma LessEqOrder()
    ensures forall a, b :: LessEq(a, b) || LessEq(b, a)
    ensures forall a, b :: LessEq(a, b) && LessEq(b, a) ==> a == b
    ensures forall a, b, c :: LessEq(a, b) && LessEq(b, c) ==> LessEq(a, c)
  {
    forall a, b ensures LessEq(a, b) || LessEq(b, a) {
      LessEqTotal(a, b);
    }
    forall a, b | LessEq(a, b) && LessEq(b, a) ensures a == b {
      LessEqAntisymmetric(a, b);
    }
    forall a, b, c | LessEq(a, b) && LessEq(b, c) ensures LessEq(a, c) {
      LessEqTransitive(a, b, c);
    }
  }

  lemma {:induction false} LeastExists(s: set<string>)
    requires s != {}
    ensures exists m :: m in s && forall y :: y in s ==> LessEq(m, y)
    decreases |s|
  {
    var z :| z in s;
    LessEqReflexive(z);
    if s == {z} {
      assert forall y :: y in s ==> y == z;
    } else {
      LeastExists(s - {z});
      var m :| m in s - {z} && forall y :: y in s - {z} ==> LessEq(m, y);
      if LessEq(m, z) {
        assert forall y :: y in s ==> LessEq(m, y);
      } else {
        LessEqTotal(m, z);
        forall y | y in s
          ensures LessEq(z, y)
        {
          if y != z {
            LessEqTransitive(z, m, y);
          }
        }
      }
    }
  }

  /** The smallest string of a non-empty set. */
  function Least(s: set<string>): (m: string)
    requires s != {}
    ensures m in s
    ensures forall y :: y in s ==> LessEq(m, y)
  {
    LeastExists(s);
    LessEqOrder();
    var m :| m in s && forall y :: y in s ==> LessEq(m, y);
    m
  }

  /** Strictly ascending: sorted and free of duplicates. */
  predicate Ascending(xs: seq<string>)
  {
    forall i, j :: 0 <= i < j < |xs| ==> LessEq(xs[i], xs[j]) && xs[i] != xs[j]
  }

  /** The elements of a finite set of strings, in ascending order. */
  function SortedElements(s: set<string>): (r: seq<string>)
    ensures |r| == |s|
    ensures forall x :: x in r <==> x in s
    ensures Ascending(r)
    decreases |s|
  {
    if s == {} then []
    else
      var m := Least(s);
      var rest := SortedElements(s - {m});
      var r := [m] + rest;
      assert forall i :: 0 <= i < |rest| ==> rest[i] in s - {m};
      assert forall i :: 0 < i < |r| ==> r[i] == rest[i - 1];
      assert forall x :: x in r <==> x == m || x in rest;
      r
  }

  /** Ordered by `key`, equal keys in any order. */
  predicate SortedBy<T>(xs: seq<T>, key: T -> string)
  {
    forall i, j :: 0 <= i < j < |xs| ==> LessEq(key(xs[i]), key(xs[j]))
  }

  function Insert<T>(x: T, xs: seq<T>, key: T -> string): (r: seq<T>)
    requires SortedBy(xs, key)
    ensures SortedBy(r, key)
    ensures multiset(r) == multiset(xs) + multiset{x}
  {
    if |xs| == 0 then [x]
    else if LessEq(key(x), key(xs[0])) then
      assert forall j :: 0 < j < |xs| ==> LessEq(key(x), key(xs[j])) by {
        forall j | 0 < j < |xs| ensures LessEq(key(x), key(xs[j])) {
          LessEqTransitive(key(x), key(xs[0]), key(xs[j]));
        }
      }
      [x] + xs
    else
      var rest := Insert(x, xs[1..], key);
      LessEqTotal(key(x), key(xs[0]));
      assert xs == [xs[0]] + xs[1..];
      assert forall i :: 0 <= i < |rest| ==> LessEq(key(xs[0]), key(rest[i])) by {
        forall i | 0 <= i < |rest| ensures LessEq(key(xs[0]), key(rest[i])) {
          assert multiset(rest)[rest[i]] > 0;
          assert rest[i] == x || rest[i] in xs[1..];
        }
      }
      [xs[0]] + rest
  }

  /** A stable insertion sort by `key`: a sorted permutation of `xs`. */
  function SortBy<T>(xs: seq<T>, key: T -> string): (r: seq<T>)
    ensures SortedBy(r, key)
    ensures multiset(r) == multiset(xs)
  {
    if |xs| == 0 then []
    else
      assert xs == xs[..|xs| - 1] + [xs[|xs| - 1]];
      Insert(xs[|xs| - 1], SortBy(xs[..|xs| - 1], key), key)
  }

  /** Two sorted permutations start with the same element when keys determine elements. */
  lemma SameFirst<T>(s: seq<T>, t: seq<T>, key: T -> string)
    requires |s| > 0
    requires SortedBy(s, key) && SortedBy(t, key)
    requires multiset(s) == multiset(t)
    requires forall x, y :: x in s && y in s && key(x) == key(y) ==> x == y
    ensures |t| > 0 && s[0] == t[0]
  {
    assert s[0] in multiset(t);
    assert t[0] in multiset(s);
    var i :| 0 <= i < |t| && t[i] == s[0];
    var j :| 0 <= j < |s| && s[j] == t[0];
    LessEqReflexive(key(s[0]));
    LessEqReflexive(key(t[0]));
    assert LessEq(key(t[0]), key(s[0]));
    assert LessEq(key(s[0]), key(t[0]));
    LessEqAntisymmetric(key(s[0]), key(t[0]));
  }

  lemma TailsPermute<T>(s: seq<T>, t: seq<T>)
    requires |s| > 0 && |t| > 0 && s[0] == t[0]
    requires multiset(s) == multiset(t)
    ensures multiset(s[1..]) == multiset(t[1..])
  {
    assert s == [s[0]] + s[1..];
    assert t == [t[0]] + t[1..];
    assert multiset(s[1..]) == multiset(s) - multiset{s[0]};
    assert multiset(t[1..]) == multiset(t) - multiset{t[0]};
  }

  /**
   When equal keys imply equal elements, a sequence has only one sorted
   arrangement: any two sorted permutations of it coincide.
   */
  lemma {:induction false} SortedPermutationUnique<T>(s: seq<T>, t: seq<T>, key: T -> string)
    requires SortedBy(s, key) && SortedBy(t, key)
    requires multiset(s) == multiset(t)
    requires forall x, y :: x in s && y in s && key(x) == key(y) ==> x == y
    ensures s == t
    decreases |s|
  {
    if |s| == 0 {
      assert |t| == |multiset(t)| == 0;
    } else {
      SameFirst(s, t, key);
      TailsPermute(s, t);
      assert forall x :: x in s[1..] ==> x in s;
      SortedPermutationUnique(s[1..], t[1..], key);
      assert s == [s[0]] + s[1..] && t == [t[0]] + t[1..];
    }
  }
}

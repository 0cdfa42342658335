// std::map with std::string keys: the elements in the order of their names, in which the map
// is iterated and which the stub's vectors follow.
module Names {
  import opened Common

  // operator< of std::string, which compares bytes without sign
  predicate Less(a: Str, b: Str) {
    b != [] && (a == [] || a[0] < b[0] || (a[0] == b[0] && Less(a[1..], b[1..])))
  }

  // a and b first differ at place n, where a has the smaller byte or ends.
  predicate FirstDiffer(a: Str, b: Str, n: nat) {
    n <= |a| && n < |b| && a[..n] == b[..n] && (n == |a| || a[n] < b[n])
  }

  lemma {:induction false} DifferIsLess(a: Str, b: Str, n: nat)
    requires FirstDiffer(a, b, n)
    ensures Less(a, b)
  {
    if n > 0 {
      assert a[0] == a[..n][0] && b[0] == b[..n][0];
      assert a[1..][..n - 1] == a[..n][1..] && b[1..][..n - 1] == b[..n][1..];
      DifferIsLess(a[1..], b[1..], n - 1);
    }
  }

  lemma {:induction false} LessIsDiffer(a: Str, b: Str) returns (n: nat)
    requires Less(a, b)
    ensures FirstDiffer(a, b, n)
  {
    n := 0;
    if a != [] && a[0] == b[0] {
      var k := LessIsDiffer(a[1..], b[1..]);
      n := k + 1;
      assert a[..n] == [a[0]] + a[1..][..k] && b[..n] == [b[0]] + b[1..][..k];
    }
  }

  // The order of names is that of their first difference.
  lemma LessAtFirstDifference(a: Str, b: Str)
    ensures Less(a, b) <==> exists n: nat :: FirstDiffer(a, b, n)
  {
    if Less(a, b) {
      var n := LessIsDiffer(a, b);
    }
    forall n: nat | FirstDiffer(a, b, n)
      ensures Less(a, b)
    {
      DifferIsLess(a, b, n);
    }
  }

  lemma {:induction false} LessTransitive(a: Str, b: Str, c: Str)
    requires Less(a, b) && Less(b, c)
    ensures Less(a, c)
  {
    if a != [] && a[0] == b[0] == c[0] {
      LessTransitive(a[1..], b[1..], c[1..]);
    }
  }

  lemma {:induction false} LessTotal(a: Str, b: Str)
    ensures (Less(a, b) && a != b && !Less(b, a)) || a == b || (Less(b, a) && a != b && !Less(a, b))
    ensures !Less(a, a)
  {
    if a != [] && b != [] {
      LessTotal(a[1..], b[1..]);
      assert a == [a[0]] + a[1..] && b == [b[0]] + b[1..];
    }
    if a != [] {
      LessTotal(a[1..], a[1..]);
    }
  }

  // An element of the map, with the key it is kept under.
  ghost predicate Sorted<T(!new)>(key: T -> Str, xs: seq<T>) {
    |xs| < 2 || (Less(key(xs[0]), key(xs[1])) && Sorted(key, xs[1..]))
  }

  // The distance of find(name) from begin(); that of end() when there is none.
  function IndexOf<T>(key: T -> Str, xs: seq<T>, name: Str): (i: nat)
    ensures i <= |xs| && (i < |xs| ==> key(xs[i]) == name)
    ensures forall j :: 0 <= j < i ==> key(xs[j]) != name
  {
    if xs == [] || key(xs[0]) == name then 0 else 1 + IndexOf(key, xs[1..], name)
  }

  // insert under a new name
  function Insert<T>(key: T -> Str, xs: seq<T>, x: T): seq<T> {
    if xs == [] || Less(key(x), key(xs[0])) then [x] + xs else [xs[0]] + Insert(key, xs[1..], x)
  }

  lemma {:induction false} SortedPair<T(!new)>(key: T -> Str, xs: seq<T>, i: nat, j: nat)
    requires Sorted(key, xs) && i < j < |xs|
    ensures Less(key(xs[i]), key(xs[j]))
  {
    if i > 0 {
      SortedPair(key, xs[1..], i - 1, j - 1);
    } else if j > 1 {
      SortedPair(key, xs[1..], 0, j - 1);
      LessTransitive(key(xs[0]), key(xs[1]), key(xs[j]));
    }
  }

  // In a map every element is found under its own name, at its own place.
  lemma FoundAt<T(!new)>(key: T -> Str, xs: seq<T>, i: nat)
    requires Sorted(key, xs) && i < |xs|
    ensures IndexOf(key, xs, key(xs[i])) == i
  {
    var j := IndexOf(key, xs, key(xs[i]));
    if j < i {
      LessTotal(key(xs[j]), key(xs[i]));
      SortedPair(key, xs, j, i);
    }
  }

  // Inserting a new name keeps the order and adds this element, with none lost.
  lemma {:induction false} InsertKeeps<T(!new)>(key: T -> Str, xs: seq<T>, x: T)
    requires Sorted(key, xs) && IndexOf(key, xs, key(x)) == |xs|
    ensures Sorted(key, Insert(key, xs, x)) && multiset(Insert(key, xs, x)) == multiset(xs) + multiset{x}
    ensures Insert(key, xs, x) != []
    ensures Insert(key, xs, x)[0] == if xs == [] || Less(key(x), key(xs[0])) then x else xs[0]
  {
    var r := Insert(key, xs, x);
    if xs == [] || Less(key(x), key(xs[0])) {
      assert r[1..] == xs;
    } else {
      LessTotal(key(x), key(xs[0]));
      InsertKeeps(key, xs[1..], x);
      assert r[1..] == Insert(key, xs[1..], x);
      assert xs == [xs[0]] + xs[1..];
    }
  }

  lemma LeastFirst<T(!new)>(key: T -> Str, xs: seq<T>, x: T)
    requires Sorted(key, xs) && x in xs
    ensures x == xs[0] || Less(key(xs[0]), key(x))
  {
    var j :| 0 <= j < |xs| && xs[j] == x;
    if j > 0 {
      SortedPair(key, xs, 0, j);
    }
  }

  lemma MultisetTail<T>(xs: seq<T>)
    requires xs != []
    ensures multiset(xs[1..]) == multiset(xs) - multiset{xs[0]}
  {
    assert xs == [xs[0]] + xs[1..];
  }

  // The order does not depend on the order of insertion: a map is determined by its elements.
  lemma {:induction false} SortedUnique<T(!new)>(key: T -> Str, xs: seq<T>, ys: seq<T>)
    requires Sorted(key, xs) && Sorted(key, ys) && multiset(xs) == multiset(ys)
    ensures xs == ys
  {
    hide Less;
    assert |multiset(xs)| == |xs| && |multiset(ys)| == |ys|;
    if xs != [] {
      assert xs[0] in multiset(ys) && ys[0] in multiset(xs);
      LeastFirst(key, xs, ys[0]);
      LeastFirst(key, ys, xs[0]);
      LessTotal(key(xs[0]), key(ys[0]));
      MultisetTail(xs);
      MultisetTail(ys);
      SortedUnique(key, xs[1..], ys[1..]);
    }
  }
}

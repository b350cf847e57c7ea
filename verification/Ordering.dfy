/** Orders and sorting: strings compare character by character (which is also the
    byte order of their UTF-8), and a stable sort by key. */
module Ordering {

  predicate Less(a: string, b: string) {
    b != "" && (a == "" || a[0] < b[0] || (a[0] == b[0] && Less(a[1..], b[1..])))
  }

  lemma {:induction false} LessIrreflexive(a: string)
    ensures !Less(a, a)
  {
    if a != "" { LessIrreflexive(a[1..]); }
  }

  lemma {:induction false} LessTotal(a: string, b: string)
    ensures Less(a, b) || Less(b, a) || a == b
  {
    if a != "" && b != "" && a[0] == b[0] {
      LessTotal(a[1..], b[1..]);
      assert a == [a[0]] + a[1..] && b == [b[0]] + b[1..];
    }
  }

  lemma {:induction false} LessTransitive(a: string, b: string, c: string)
    requires Less(a, b) && Less(b, c)
    ensures Less(a, c)
  {
    if a != "" && a[0] == b[0] && b[0] == c[0] { LessTransitive(a[1..], b[1..], c[1..]); }
  }

  /** One string is below another if it is a proper front part of it, or smaller at the
      first character in which they differ. */
  lemma {:induction false} LessIff(a: string, b: string)
    ensures Less(a, b) <==> exists k: nat :: DiffersAt(a, b, k)
    decreases |a|
  {
    if a != "" && b != "" && a[0] == b[0] {
      var a', b' := a[1..], b[1..];
      LessIff(a', b');
      if k: nat :| DiffersAt(a', b', k) { DiffersLater(a, b, k + 1); }
      if k: nat :| DiffersAt(a, b, k) { DiffersLater(a, b, k); }
    } else if b != "" && (a == "" || a[0] < b[0]) {
      assert DiffersAt(a, b, 0);
    } else {
      forall k: nat
        ensures !DiffersAt(a, b, k)
      {
        if 0 < k <= |a| && k <= |b| { assert a[..k][0] == a[0] && b[..k][0] == b[0]; }
      }
    }
  }

  lemma {:induction false} DiffersLater(a: string, b: string, k: nat)
    requires a != "" && b != "" && a[0] == b[0]
    ensures !DiffersAt(a, b, 0)
    ensures k > 0 ==> (DiffersAt(a, b, k) <==> DiffersAt(a[1..], b[1..], k - 1))
  {
    var a', b' := a[1..], b[1..];
    if 0 < k <= |a| && k <= |b| {
      FrontMoved(a, k);
      FrontMoved(b, k);
      assert k < |a| ==> a'[k - 1] == a[k];
      assert k < |b| ==> b'[k - 1] == b[k];
    }
  }

  lemma {:induction false} FrontMoved(s: string, k: nat)
    requires 0 < k <= |s|
    ensures s[..k] == [s[0]] + s[1..][..k - 1] && s[1..][..k - 1] == s[..k][1..]
  {}

  predicate DiffersAt(a: string, b: string, k: nat) {
    k <= |a| && k < |b| && a[..k] == b[..k] && (k == |a| || a[k] < b[k])
  }

  /** What a list is sorted by: a number, then a name. */
  datatype Key = Key(order: int, name: string)

  predicate KeyLess(a: Key, b: Key) {
    a.order < b.order || (a.order == b.order && Less(a.name, b.name))
  }

  lemma {:induction false} KeyLessIsStrictTotal(a: Key, b: Key, c: Key)
    ensures !KeyLess(a, a)
    ensures KeyLess(a, b) || KeyLess(b, a) || a == b
    ensures KeyLess(a, b) && KeyLess(b, c) ==> KeyLess(a, c)
    ensures !KeyLess(b, a) && !KeyLess(c, b) ==> !KeyLess(c, a)
  {
    LessIrreflexive(a.name);
    LessTotal(a.name, b.name);
    LessTotal(b.name, c.name);
    if a.order == b.order == c.order && Less(a.name, b.name) && Less(b.name, c.name) {
      LessTransitive(a.name, b.name, c.name);
    }
    if a.order == b.order == c.order && Less(c.name, a.name) {
      if Less(a.name, b.name) { LessTransitive(c.name, a.name, b.name); }
    }
  }

  // -------------------------------------------------------------------- sorting

  /** Put `x` in front of the first element that is not below it. */
  function Insert<T>(x: T, ys: seq<T>, key: T -> Key): seq<T> {
    if ys == [] || !KeyLess(key(ys[0]), key(x)) then [x] + ys
    else [ys[0]] + Insert(x, ys[1..], key)
  }

  /** Stable: of two elements with one key the earlier stays in front. */
  function Sort<T>(xs: seq<T>, key: T -> Key): seq<T> {
    if xs == [] then [] else Insert(xs[0], Sort(xs[1..], key), key)
  }

  ghost predicate IsSorted<T>(xs: seq<T>, key: T -> Key) {
    forall i, j :: 0 <= i < j < |xs| ==> !KeyLess(key(xs[j]), key(xs[i]))
  }

  lemma {:induction false} InsertKeeps<T>(x: T, ys: seq<T>, key: T -> Key)
    requires IsSorted(ys, key)
    ensures IsSorted(Insert(x, ys, key), key) && multiset(Insert(x, ys, key)) == multiset{x} + multiset(ys)
  {
    var r := Insert(x, ys, key);
    if ys == [] || !KeyLess(key(ys[0]), key(x)) {
      forall i, j | 0 <= i < j < |r|
        ensures !KeyLess(key(r[j]), key(r[i]))
      {
        if i == 0 && j > 1 {
          KeyLessIsStrictTotal(key(x), key(ys[0]), key(ys[j - 1]));
        }
      }
    } else {
      var t := ys[1..];
      InsertKeeps(x, t, key);
      var rest := Insert(x, t, key);
      assert ys == [ys[0]] + t;
      forall j | 0 <= j < |rest|
        ensures !KeyLess(key(rest[j]), key(ys[0]))
      {
        assert rest[j] in multiset(rest);
        KeyLessIsStrictTotal(key(ys[0]), key(x), key(x));
        if rest[j] in t {
          var k :| 0 <= k < |t| && t[k] == rest[j];
          assert ys[k + 1] == rest[j];
        } else {
          assert rest[j] == x;
          KeyLessIsStrictTotal(key(ys[0]), key(x), key(ys[0]));
        }
      }
      assert r == [ys[0]] + rest;
      assert IsSorted(r, key);
    }
  }

  lemma {:induction false} SortSorts<T>(xs: seq<T>, key: T -> Key)
    ensures IsSorted(Sort(xs, key), key) && multiset(Sort(xs, key)) == multiset(xs)
  {
    if xs != [] {
      SortSorts(xs[1..], key);
      InsertKeeps(xs[0], Sort(xs[1..], key), key);
      assert xs == [xs[0]] + xs[1..];
    }
  }

  /** Elements with one key are one element. */
  ghost predicate KeysDetermine<T>(xs: seq<T>, key: T -> Key) {
    forall x, y :: x in xs && y in xs && key(x) == key(y) ==> x == y
  }

  /** The first of a sorted list is not above any of its elements. */
  lemma {:induction false} HeadIsLeast<T>(xs: seq<T>, x: T, key: T -> Key)
    requires IsSorted(xs, key) && x in xs
    ensures !KeyLess(key(x), key(xs[0]))
  {
    var i :| 0 <= i < |xs| && xs[i] == x;
    KeyLessIsStrictTotal(key(x), key(x), key(x));
  }

  lemma {:induction false} SameHead<T>(xs: seq<T>, ys: seq<T>, key: T -> Key)
    requires IsSorted(xs, key) && IsSorted(ys, key) && multiset(xs) == multiset(ys) && KeysDetermine(xs, key)
    requires xs != [] && ys != []
    ensures xs[0] == ys[0]
  {
    var a, b := xs[0], ys[0];
    assert b in multiset(xs) && a in multiset(ys);
    HeadIsLeast(xs, b, key);
    HeadIsLeast(ys, a, key);
    KeyLessIsStrictTotal(key(a), key(b), key(a));
  }

  lemma {:induction false} TailMultiset<T>(xs: seq<T>)
    requires xs != []
    ensures multiset(xs[1..]) == multiset(xs) - multiset{xs[0]}
  {
    assert xs == [xs[0]] + xs[1..];
  }

  lemma {:induction false} SortedIsUnique<T>(xs: seq<T>, ys: seq<T>, key: T -> Key)
    requires IsSorted(xs, key) && IsSorted(ys, key) && multiset(xs) == multiset(ys) && KeysDetermine(xs, key)
    ensures xs == ys
    decreases |xs|
  {
    assert |xs| == |multiset(xs)| && |multiset(ys)| == |ys|;
    if xs != [] {
      SameHead(xs, ys, key);
      TailMultiset(xs);
      TailMultiset(ys);
      assert KeysDetermine(xs[1..], key) by { assert forall x :: x in xs[1..] ==> x in xs; }
      SortedIsUnique(xs[1..], ys[1..], key);
      assert xs == [xs[0]] + xs[1..] && ys == [ys[0]] + ys[1..];
    }
  }

  /** Where keys determine elements the sorted list does not depend on the order
      they came in. */
  lemma {:induction false} SortIgnoresOrder<T>(xs: seq<T>, ys: seq<T>, key: T -> Key)
    requires multiset(xs) == multiset(ys) && KeysDetermine(xs, key)
    ensures Sort(xs, key) == Sort(ys, key)
  {
    SortSorts(xs, key);
    SortSorts(ys, key);
    var a := Sort(xs, key);
    forall x, y | x in a && y in a && key(x) == key(y)
      ensures x == y
    {
      assert x in multiset(xs) && y in multiset(xs);
    }
    SortedIsUnique(a, Sort(ys, key), key);
  }

  /** Two different elements with one key keep the order they came in. */
  lemma {:induction false} SortKeepsTies<T>(x: T, y: T, key: T -> Key)
    requires key(x) == key(y)
    ensures Sort([x, y], key) == [x, y]
  {
    KeyLessIsStrictTotal(key(x), key(x), key(x));
    assert [x, y][1..] == [y] && [y][1..] == [];
    assert Sort([y], key) == [y];
    assert Insert(x, [y], key) == [x] + [y];
  }

  /** A sorted list ascends: by number, and by name where numbers are equal. */
  lemma {:induction false} SortAscends<T>(xs: seq<T>, key: T -> Key, i: nat, j: nat)
    requires i < j < |Sort(xs, key)|
    ensures var a, b := key(Sort(xs, key)[i]), key(Sort(xs, key)[j]);
            || a.order < b.order
            || (a.order == b.order && (a.name == b.name || exists k: nat :: DiffersAt(a.name, b.name, k)))
  {
    SortSorts(xs, key);
    var a, b := key(Sort(xs, key)[i]), key(Sort(xs, key)[j]);
    assert !KeyLess(b, a);
    LessTotal(a.name, b.name);
    LessIff(a.name, b.name);
  }
}

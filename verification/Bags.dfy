/** Permutations and sorting: what Go's map iteration and sort.Slice leave open, and what they fix. */
module Bags {
  import opened Strings

  /** `order` visits every key exactly once: one possible order of Go's `range` over a map. */
  ghost predicate Enumerates<K(!new)>(order: seq<K>, keys: set<K>) {
    && (forall k :: k in order <==> k in keys)
    && (forall i, j :: 0 <= i < j < |order| ==> order[i] != order[j])
  }

  /** Go's `range` over a map: some order, nothing more is promised. */
  method IterationOrder<K(!new, ==)>(keys: set<K>) returns (order: seq<K>)
    ensures Enumerates(order, keys)
  {
    order := [];
    var rest := keys;
    while rest != {}
      invariant rest <= keys
      invariant forall i :: 0 <= i < |order| ==> order[i] in keys - rest
      invariant forall k :: k in keys - rest ==> k in order
      invariant forall i, j :: 0 <= i < j < |order| ==> order[i] != order[j]
      decreases |rest|
    {
      var k :| k in rest;
      ghost var before := order;
      order := order + [k];
      rest := rest - {k};
      assert order[|before|] == k;
      assert forall x :: x in before ==> x in order;
    }
  }

  /** A finite set has an enumeration. */
  lemma {:induction false} SomeOrder(keys: set<string>) returns (order: seq<string>)
    ensures Enumerates(order, keys)
  {
    if keys == {} {
      order := [];
    } else {
      var k :| k in keys;
      order := SomeOrder(keys - {k});
      order := [k] + order;
    }
  }

  function Without<T>(s: seq<T>, i: nat): seq<T>
    requires i < |s|
  {
    s[..i] + s[i + 1..]
  }

  lemma WithoutBag<T>(s: seq<T>, i: nat)
    requires i < |s|
    ensures multiset(s) == multiset(Without(s, i)) + multiset{s[i]}
  {
    assert s == s[..i] + [s[i]] + s[i + 1..];
  }

  lemma IndexOf<T>(x: T, s: seq<T>) returns (i: nat)
    requires x in s
    ensures i < |s| && s[i] == x
  {
    i :| i < |s| && s[i] == x;
  }

  lemma HeadBag<T>(s: seq<T>)
    requires s != []
    ensures multiset(s) == multiset{s[0]} + multiset(s[1..])
  {
    assert s == [s[0]] + s[1..];
  }

  /** Two sequences with one bag have the same members. */
  lemma BagMembers<T>(a: seq<T>, b: seq<T>, x: T)
    requires multiset(a) == multiset(b)
    ensures x in a <==> x in b
  {
    assert x in a <==> x in multiset(a);
    assert x in b <==> x in multiset(b);
  }

  /** Dropping a key from an enumeration enumerates the remaining keys. */
  lemma EnumeratesWithout<K(!new)>(order: seq<K>, keys: set<K>, i: nat)
    requires Enumerates(order, keys) && i < |order|
    ensures Enumerates(Without(order, i), keys - {order[i]})
  {
    var rest := Without(order, i);
    assert forall j :: 0 <= j < |rest| ==> rest[j] == (if j < i then order[j] else order[j + 1]);
    forall k
      ensures k in rest <==> k in keys - {order[i]}
    {
      if k in keys && k != order[i] {
        var j := IndexOf(k, order);
        assert rest[if j < i then j else j - 1] == k;
      }
    }
  }

  lemma Assoc<T>(a: seq<T>, b: seq<T>, c: seq<T>)
    ensures (a + b) + c == a + (b + c)
  {
  }

  // ----- collecting from a sequence -----

  function Picked<A, B>(pick: A -> Option<B>, a: A): seq<B> {
    match pick(a)
    case Some(b) => [b]
    case None => []
  }

  function Collect<A, B>(pick: A -> Option<B>, s: seq<A>): seq<B> {
    if s == [] then [] else Picked(pick, s[0]) + Collect(pick, s[1..])
  }

  predicate All<A>(p: A -> bool, s: seq<A>) {
    forall i :: 0 <= i < |s| ==> p(s[i])
  }

  lemma {:induction false} CollectAppend<A, B>(pick: A -> Option<B>, a: seq<A>, b: seq<A>)
    ensures Collect(pick, a + b) == Collect(pick, a) + Collect(pick, b)
  {
    if a == [] {
      assert a + b == b;
    } else {
      CollectAppend(pick, a[1..], b);
      assert (a + b)[1..] == a[1..] + b;
      Assoc(Picked(pick, a[0]), Collect(pick, a[1..]), Collect(pick, b));
    }
  }

  /** What is collected depends, as a bag, on the bag collected from. */
  lemma {:induction false} CollectBag<A, B>(pick: A -> Option<B>, a: seq<A>, b: seq<A>)
    requires multiset(a) == multiset(b)
    ensures multiset(Collect(pick, a)) == multiset(Collect(pick, b))
  {
    assert |a| == |multiset(a)| == |multiset(b)| == |b|;
    if a != [] {
      BagMembers(a, b, a[0]);
      var i := IndexOf(a[0], b);
      HeadBag(a);
      WithoutBag(b, i);
      assert multiset(a[1..]) == multiset(a) - multiset{a[0]} == multiset(Without(b, i));
      CollectBag(pick, a[1..], Without(b, i));
      CollectWithout(pick, b, i);
    }
  }

  lemma CollectWithout<A, B>(pick: A -> Option<B>, s: seq<A>, i: nat)
    requires i < |s|
    ensures multiset(Collect(pick, s)) == multiset(Picked(pick, s[i])) + multiset(Collect(pick, Without(s, i)))
  {
    var head, tail := s[..i], s[i..];
    assert s == head + tail;
    assert tail[1..] == s[i + 1..];
    CollectAppend(pick, head, tail);
    CollectAppend(pick, head, s[i + 1..]);
    BagOfThree(Collect(pick, head), Picked(pick, s[i]), Collect(pick, s[i + 1..]));
  }

  lemma BagOfThree<T>(a: seq<T>, b: seq<T>, c: seq<T>)
    ensures multiset(a + (b + c)) == multiset(b) + multiset(a + c)
  {
  }

  lemma {:induction false} CollectMember<A, B>(pick: A -> Option<B>, s: seq<A>, k: nat) returns (i: nat)
    requires k < |Collect(pick, s)|
    ensures i < |s| && pick(s[i]) == Some(Collect(pick, s)[k])
  {
    if k < |Picked(pick, s[0])| {
      i := 0;
    } else {
      i := CollectMember(pick, s[1..], k - |Picked(pick, s[0])|);
      i := i + 1;
    }
  }

  lemma {:induction false} CollectIndex<A, B>(pick: A -> Option<B>, s: seq<A>, i: nat) returns (k: nat)
    requires i < |s| && pick(s[i]).Some?
    ensures k < |Collect(pick, s)| && Collect(pick, s)[k] == pick(s[i]).value
  {
    if i == 0 {
      k := 0;
    } else {
      k := CollectIndex(pick, s[1..], i - 1);
      k := k + |Picked(pick, s[0])|;
    }
  }

  lemma {:induction false} CollectSameLength<A, B, C>(f: A -> Option<B>, g: A -> Option<C>, s: seq<A>)
    requires forall i :: 0 <= i < |s| ==> (f(s[i]).Some? <==> g(s[i]).Some?)
    ensures |Collect(f, s)| == |Collect(g, s)|
  {
    if s != [] {
      CollectSameLength(f, g, s[1..]);
    }
  }

  lemma {:induction false} CollectFewer<A, B, C>(f: A -> Option<B>, g: A -> Option<C>, s: seq<A>)
    requires forall i :: 0 <= i < |s| && f(s[i]).Some? ==> g(s[i]).Some?
    ensures |Collect(f, s)| <= |Collect(g, s)|
    ensures |Collect(f, s)| == |Collect(g, s)| <==> forall i :: 0 <= i < |s| && g(s[i]).Some? ==> f(s[i]).Some?
  {
    if s != [] {
      CollectFewer(f, g, s[1..]);
      assert forall i :: 0 < i < |s| ==> s[i] == s[1..][i - 1];
      if forall i :: 0 <= i < |s[1..]| && g(s[1..][i]).Some? ==> f(s[1..][i]).Some? {
        assert forall i :: 0 < i < |s| && g(s[i]).Some? ==> f(s[i]).Some?;
      } else {
        var i :| 0 <= i < |s[1..]| && g(s[1..][i]).Some? && f(s[1..][i]).None?;
        assert s[i + 1] == s[1..][i];
      }
    }
  }

  lemma CollectSnoc<A, B>(pick: A -> Option<B>, s: seq<A>, k: nat)
    requires k < |s|
    ensures Collect(pick, s[..k + 1]) == Collect(pick, s[..k]) + Picked(pick, s[k])
  {
    assert s[..k + 1] == s[..k] + [s[k]];
    CollectAppend(pick, s[..k], [s[k]]);
  }

  lemma AllSnoc<A>(p: A -> bool, s: seq<A>, k: nat)
    requires k < |s| && All(p, s[..k]) && p(s[k])
    ensures All(p, s[..k + 1])
  {
    assert s[..k + 1] == s[..k] + [s[k]];
  }

  lemma AllAppend<A>(p: A -> bool, a: seq<A>, b: seq<A>)
    ensures All(p, a + b) <==> All(p, a) && All(p, b)
  {
    assert forall i :: 0 <= i < |a| ==> (a + b)[i] == a[i];
    assert forall i :: 0 <= i < |b| ==> (a + b)[|a| + i] == b[i];
  }

  // ----- sorting by a string key -----

  /** What sort.Slice guarantees for `less(i, j) = key(i) < key(j)`; ties may come out in any order. */
  ghost predicate SortedBy<T>(key: T -> string, s: seq<T>) {
    forall i, j :: 0 <= i < j < |s| ==> !LexLess(key(s[j]), key(s[i]))
  }

  ghost predicate StrictlySortedBy<T>(key: T -> string, s: seq<T>) {
    forall i, j :: 0 <= i < j < |s| ==> LexLess(key(s[i]), key(s[j]))
  }

  function Insert<T>(key: T -> string, x: T, s: seq<T>): seq<T> {
    if s == [] || !LexLess(key(s[0]), key(x)) then [x] + s else [s[0]] + Insert(key, x, s[1..])
  }

  function InsertionSort<T>(key: T -> string, s: seq<T>): seq<T> {
    if s == [] then [] else Insert(key, s[0], InsertionSort(key, s[1..]))
  }

  lemma {:induction false} InsertCorrect<T>(key: T -> string, x: T, s: seq<T>)
    requires SortedBy(key, s)
    ensures SortedBy(key, Insert(key, x, s))
    ensures multiset(Insert(key, x, s)) == multiset(s) + multiset{x}
  {
    var r := Insert(key, x, s);
    if s == [] || !LexLess(key(s[0]), key(x)) {
      forall j | 1 <= j < |r|
        ensures !LexLess(key(r[j]), key(x))
      {
        if LexLess(key(r[j]), key(x)) {
          NotLessTransitive(key(s[0]), key(x), key(r[j]));
        }
      }
    } else {
      var rest := Insert(key, x, s[1..]);
      InsertCorrect(key, x, s[1..]);
      HeadBag(s);
      assert multiset(rest) == multiset(s[1..]) + multiset{x};
      forall j | 0 <= j < |rest|
        ensures !LexLess(key(rest[j]), key(s[0]))
      {
        LexTrichotomy(key(s[0]), key(x));
        assert rest[j] in multiset(rest);
        assert rest[j] == x || rest[j] in s[1..];
      }
    }
  }

  /** a <= b and b <= c give a <= c, written with the strict order Go offers. */
  lemma NotLessTransitive(a: string, b: string, c: string)
    requires !LexLess(a, b) && LexLess(c, b)
    ensures LexLess(c, a)
  {
    LexTrichotomy(a, b);
    if a != b {
      LexTransitive(c, b, a);
    }
  }

  lemma {:induction false} InsertionSortCorrect<T>(key: T -> string, s: seq<T>)
    ensures SortedBy(key, InsertionSort(key, s))
    ensures multiset(InsertionSort(key, s)) == multiset(s)
  {
    if s != [] {
      InsertionSortCorrect(key, s[1..]);
      InsertCorrect(key, s[0], InsertionSort(key, s[1..]));
      HeadBag(s);
    }
  }

  /** sort.Slice and slices.Sorted: callers may rely on the contract only. */
  method Sort<T>(key: T -> string, s: seq<T>) returns (r: seq<T>)
    ensures SortedBy(key, r)
    ensures multiset(r) == multiset(s)
  {
    r := InsertionSort(key, s);
    InsertionSortCorrect(key, s);
  }

  /** Members with equal keys are equal, so an unstable sort cannot be told from a stable one. */
  ghost predicate KeyDetermines<T>(key: T -> string, s: seq<T>) {
    forall i, j :: 0 <= i < |s| && 0 <= j < |s| && key(s[i]) == key(s[j]) ==> s[i] == s[j]
  }

  /** The sorted permutation is unique as soon as keys determine members. */
  lemma {:induction false} SortedUnique<T>(key: T -> string, a: seq<T>, b: seq<T>)
    requires SortedBy(key, a) && SortedBy(key, b)
    requires multiset(a) == multiset(b)
    requires KeyDetermines(key, a)
    ensures a == b
  {
    assert |a| == |multiset(a)| == |multiset(b)| == |b|;
    if a != [] {
      assert a[0] in multiset(a);
      var i := IndexOf(a[0], b);
      assert b[0] in multiset(b);
      var j := IndexOf(b[0], a);
      LexTrichotomy(key(a[0]), key(b[0]));
      assert !LexLess(key(b[i]), key(b[0]));
      assert !LexLess(key(a[j]), key(a[0]));
      assert a[0] == a[j] == b[0];
      HeadBag(a);
      HeadBag(b);
      assert multiset(a[1..]) == multiset(a) - multiset{a[0]};
      assert multiset(b[1..]) == multiset(b) - multiset{b[0]};
      SortedUnique(key, a[1..], b[1..]);
    }
  }

  /** Without that, two ties can trade places: the result is sorted, has the same members, and differs. */
  lemma TiesSwap<T>(key: T -> string, a: seq<T>, i: nat, j: nat) returns (b: seq<T>)
    requires SortedBy(key, a)
    requires i < j < |a| && key(a[i]) == key(a[j]) && a[i] != a[j]
    ensures SortedBy(key, b) && multiset(b) == multiset(a) && |b| == |a|
    ensures b[i] == a[j] && a != b
  {
    b := a[i := a[j]][j := a[i]];
    forall k | i <= k <= j
      ensures key(a[k]) == key(a[i])
    {
      LexTrichotomy(key(a[k]), key(a[i]));
    }
    assert forall k :: 0 <= k < |a| ==> key(b[k]) == key(a[k]);
  }

  // ----- pairwise distinct keys -----

  ghost predicate DistinctBy<T>(key: T -> string, s: seq<T>) {
    forall i, j :: 0 <= i < j < |s| ==> key(s[i]) != key(s[j])
  }

  lemma TwiceInBag<T>(s: seq<T>, i: nat, j: nat)
    requires i < j < |s| && s[i] == s[j]
    ensures multiset(s)[s[i]] >= 2
  {
    WithoutBag(s, j);
    assert Without(s, j)[i] == s[i];
  }

  lemma TwiceAt<T>(s: seq<T>, x: T) returns (i: nat, j: nat)
    requires multiset(s)[x] >= 2
    ensures i < j < |s| && s[i] == s[j] == x
  {
    assert x in multiset(s);
    var a := IndexOf(x, s);
    WithoutBag(s, a);
    assert x in multiset(Without(s, a));
    var b := IndexOf(x, Without(s, a));
    if b < a {
      i, j := b, a;
    } else {
      i, j := a, b + 1;
    }
  }

  /** Distinct keys are a property of the bag. */
  lemma DistinctBag<T>(key: T -> string, a: seq<T>, b: seq<T>)
    requires DistinctBy(key, a) && multiset(a) == multiset(b)
    ensures DistinctBy(key, b)
  {
    forall i, j | 0 <= i < j < |b|
      ensures key(b[i]) != key(b[j])
    {
      if key(b[i]) == key(b[j]) {
        BagMembers(a, b, b[i]);
        BagMembers(a, b, b[j]);
        var m := IndexOf(b[i], a);
        var n := IndexOf(b[j], a);
        assert m == n;
        TwiceInBag(b, i, j);
        var x, y := TwiceAt(a, b[i]);
      }
    }
  }

  lemma DistinctSorted<T>(key: T -> string, s: seq<T>)
    requires DistinctBy(key, s) && SortedBy(key, s)
    ensures StrictlySortedBy(key, s)
  {
    forall i, j | 0 <= i < j < |s| ensures LexLess(key(s[i]), key(s[j])) {
      LexTrichotomy(key(s[i]), key(s[j]));
    }
  }

  /** Two enumerations of one set are permutations of each other. */
  lemma EnumerationBag<T(!new)>(a: seq<T>, b: seq<T>, members: set<T>)
    requires Enumerates(a, members) && Enumerates(b, members)
    ensures multiset(a) == multiset(b)
  {
    forall x ensures multiset(a)[x] == multiset(b)[x] {
      assert x in a <==> x in multiset(a);
      assert x in b <==> x in multiset(b);
      if multiset(a)[x] >= 2 {
        var i, j := TwiceAt(a, x);
      }
      if multiset(b)[x] >= 2 {
        var i, j := TwiceAt(b, x);
      }
    }
  }
}

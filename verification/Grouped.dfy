/**
 * Collecting from a map of lists: the shape of a Go loop that ranges over a map, ranges over each list, appends what
 * it picks to one slice and sorts the slice by a string key. Map order and sort are unstable; this module settles
 * what that leaves open.
 */
module Grouped {
  import opened Strings
  import opened Bags

  function InOrder<R>(groups: map<string, seq<R>>, order: seq<string>): seq<R>
    requires forall i :: 0 <= i < |order| ==> order[i] in groups
  {
    if order == [] then [] else groups[order[0]] + InOrder(groups, order[1..])
  }

  predicate At<R>(groups: map<string, seq<R>>, group: string, i: int) {
    group in groups && 0 <= i < |groups[group]|
  }

  lemma {:induction false} InOrderAppend<R>(groups: map<string, seq<R>>, a: seq<string>, b: seq<string>)
    requires forall i :: 0 <= i < |a| ==> a[i] in groups
    requires forall i :: 0 <= i < |b| ==> b[i] in groups
    ensures forall i :: 0 <= i < |a + b| ==> (a + b)[i] in groups
    ensures InOrder(groups, a + b) == InOrder(groups, a) + InOrder(groups, b)
  {
    if a == [] {
      assert a + b == b;
    } else {
      InOrderAppend(groups, a[1..], b);
      assert (a + b)[1..] == a[1..] + b;
    }
  }

  lemma {:induction false} InOrderMember<R>(groups: map<string, seq<R>>, order: seq<string>, i: nat)
      returns (group: string, k: nat)
    requires forall j :: 0 <= j < |order| ==> order[j] in groups
    requires i < |InOrder(groups, order)|
    ensures group in order && k < |groups[group]|
    ensures groups[group][k] == InOrder(groups, order)[i]
  {
    if i < |groups[order[0]]| {
      group, k := order[0], i;
    } else {
      group, k := InOrderMember(groups, order[1..], i - |groups[order[0]]|);
    }
  }

  lemma {:induction false} InOrderIndex<R>(groups: map<string, seq<R>>, order: seq<string>, n: nat, k: nat)
      returns (i: nat)
    requires forall j :: 0 <= j < |order| ==> order[j] in groups
    requires n < |order| && k < |groups[order[n]]|
    ensures i < |InOrder(groups, order)| && InOrder(groups, order)[i] == groups[order[n]][k]
  {
    if n == 0 {
      i := k;
    } else {
      i := InOrderIndex(groups, order[1..], n - 1, k);
      i := i + |groups[order[0]]|;
    }
  }

  lemma InOrderSnoc<R>(groups: map<string, seq<R>>, order: seq<string>, n: nat)
    requires forall j :: 0 <= j < |order| ==> order[j] in groups
    requires n < |order|
    ensures InOrder(groups, order[..n + 1]) == InOrder(groups, order[..n]) + groups[order[n]]
  {
    assert order[..n + 1] == order[..n] + [order[n]];
    InOrderAppend(groups, order[..n], [order[n]]);
    assert InOrder(groups, [order[n]]) == groups[order[n]];
  }

  lemma InOrderWithout<R>(groups: map<string, seq<R>>, order: seq<string>, i: nat)
    requires forall j :: 0 <= j < |order| ==> order[j] in groups
    requires i < |order|
    ensures forall j :: 0 <= j < |Without(order, i)| ==> Without(order, i)[j] in groups
    ensures multiset(InOrder(groups, order)) == multiset(groups[order[i]]) + multiset(InOrder(groups, Without(order, i)))
  {
    var head, tail := order[..i], order[i..];
    assert order == head + tail;
    assert tail[1..] == order[i + 1..];
    InOrderAppend(groups, head, tail);
    InOrderAppend(groups, head, order[i + 1..]);
    BagOfThree(InOrder(groups, head), groups[order[i]], InOrder(groups, order[i + 1..]));
  }

  /** As a bag, what is visited does not depend on the order of the visit. */
  lemma {:induction false} InOrderBag<R>(groups: map<string, seq<R>>, keys: set<string>, o1: seq<string>, o2: seq<string>)
    requires keys <= groups.Keys
    requires Enumerates(o1, keys) && Enumerates(o2, keys)
    ensures multiset(InOrder(groups, o1)) == multiset(InOrder(groups, o2))
  {
    assert |o2| > 0 ==> o2[0] in keys && o2[0] in o1;
    if o1 != [] {
      var k := o1[0];
      assert k in o2;
      var i := IndexOf(k, o2);
      EnumeratesWithout(o1, keys, 0);
      EnumeratesWithout(o2, keys, i);
      assert Without(o1, 0) == o1[1..];
      InOrderBag(groups, keys - {k}, o1[1..], Without(o2, i));
      InOrderWithout(groups, o2, i);
    }
  }

  // ----- the slice after the loops and the sort -----

  ghost predicate SortedPicks<R, T>(groups: map<string, seq<R>>, pick: R -> Option<T>, key: T -> string,
                                    order: seq<string>, ts: seq<T>) {
    && Enumerates(order, groups.Keys)
    && SortedBy(key, ts)
    && multiset(ts) == multiset(Collect(pick, InOrder(groups, order)))
  }

  lemma AllGroups<R>(groups: map<string, seq<R>>, p: R -> bool, order: seq<string>)
    requires Enumerates(order, groups.Keys)
    ensures All(p, InOrder(groups, order)) <==> forall g, i :: At(groups, g, i) ==> p(groups[g][i])
  {
    if forall g, i :: At(groups, g, i) ==> p(groups[g][i]) {
      forall i | 0 <= i < |InOrder(groups, order)| ensures p(InOrder(groups, order)[i]) {
        var g, k := InOrderMember(groups, order, i);
        assert At(groups, g, k);
      }
    }
    if All(p, InOrder(groups, order)) {
      forall g, k | At(groups, g, k) ensures p(groups[g][k]) {
        var n := IndexOf(g, order);
        var i := InOrderIndex(groups, order, n, k);
      }
    }
  }

  /** Where a sorted pick comes from. */
  lemma PickOrigin<R, T>(groups: map<string, seq<R>>, pick: R -> Option<T>, key: T -> string,
                         order: seq<string>, ts: seq<T>, n: nat) returns (g: string, i: nat)
    requires SortedPicks(groups, pick, key, order, ts) && n < |ts|
    ensures At(groups, g, i) && pick(groups[g][i]) == Some(ts[n])
  {
    var found := Collect(pick, InOrder(groups, order));
    BagMembers(ts, found, ts[n]);
    var k := IndexOf(ts[n], found);
    var m := CollectMember(pick, InOrder(groups, order), k);
    g, i := InOrderMember(groups, order, m);
  }

  /** Every pick is in the sorted list. */
  lemma PickListed<R, T>(groups: map<string, seq<R>>, pick: R -> Option<T>, key: T -> string,
                         order: seq<string>, ts: seq<T>, g: string, i: nat) returns (n: nat)
    requires SortedPicks(groups, pick, key, order, ts)
    requires At(groups, g, i) && pick(groups[g][i]).Some?
    ensures n < |ts| && ts[n] == pick(groups[g][i]).value
  {
    var m := IndexOf(g, order);
    var k := InOrderIndex(groups, order, m, i);
    var j := CollectIndex(pick, InOrder(groups, order), k);
    BagMembers(ts, Collect(pick, InOrder(groups, order)), pick(groups[g][i]).value);
    n := IndexOf(pick(groups[g][i]).value, ts);
  }

  /** Picks with one key are one pick. */
  ghost predicate PicksAgree<R, T>(groups: map<string, seq<R>>, pick: R -> Option<T>, key: T -> string) {
    forall g, i, h, j ::
      At(groups, g, i) && At(groups, h, j) && pick(groups[g][i]).Some? && pick(groups[h][j]).Some?
      && key(pick(groups[g][i]).value) == key(pick(groups[h][j]).value)
      ==> pick(groups[g][i]) == pick(groups[h][j])
  }

  /** Two places never yield the same key. */
  ghost predicate PicksDistinct<R, T>(groups: map<string, seq<R>>, pick: R -> Option<T>, key: T -> string) {
    forall g, i, h, j ::
      At(groups, g, i) && At(groups, h, j) && (g, i) != (h, j)
      && pick(groups[g][i]).Some? && pick(groups[h][j]).Some?
      ==> key(pick(groups[g][i]).value) != key(pick(groups[h][j]).value)
  }

  lemma AgreeingPicksSortOnce<R, T>(groups: map<string, seq<R>>, pick: R -> Option<T>, key: T -> string,
                                    o1: seq<string>, t1: seq<T>, o2: seq<string>, t2: seq<T>)
    requires SortedPicks(groups, pick, key, o1, t1) && SortedPicks(groups, pick, key, o2, t2)
    requires PicksAgree(groups, pick, key)
    ensures t1 == t2
  {
    InOrderBag(groups, groups.Keys, o1, o2);
    CollectBag(pick, InOrder(groups, o1), InOrder(groups, o2));
    forall i, j | 0 <= i < |t1| && 0 <= j < |t1| && key(t1[i]) == key(t1[j])
      ensures t1[i] == t1[j]
    {
      var g, m := PickOrigin(groups, pick, key, o1, t1, i);
      var h, n := PickOrigin(groups, pick, key, o1, t1, j);
    }
    SortedUnique(key, t1, t2);
  }

  lemma DisagreeingPicksSortTwice<R, T>(groups: map<string, seq<R>>, pick: R -> Option<T>, key: T -> string)
      returns (order: seq<string>, t1: seq<T>, t2: seq<T>, m: nat)
    requires !PicksAgree(groups, pick, key)
    ensures SortedPicks(groups, pick, key, order, t1) && SortedPicks(groups, pick, key, order, t2)
    ensures m < |t1| == |t2| && t1[m] != t2[m]
  {
    order, t1 := SomePicks(groups, pick, key);
    var g, i, h, j :|
      At(groups, g, i) && At(groups, h, j) && pick(groups[g][i]).Some? && pick(groups[h][j]).Some?
      && key(pick(groups[g][i]).value) == key(pick(groups[h][j]).value)
      && pick(groups[g][i]) != pick(groups[h][j]);
    m := PickListed(groups, pick, key, order, t1, g, i);
    var n := PickListed(groups, pick, key, order, t1, h, j);
    if n < m {
      m, n := n, m;
    }
    t2 := TiesSwap(key, t1, m, n);
  }

  lemma SomePicks<R, T>(groups: map<string, seq<R>>, pick: R -> Option<T>, key: T -> string)
      returns (order: seq<string>, ts: seq<T>)
    ensures SortedPicks(groups, pick, key, order, ts)
  {
    order := SomeOrder(groups.Keys);
    ts := InsertionSort(key, Collect(pick, InOrder(groups, order)));
    InsertionSortCorrect(key, Collect(pick, InOrder(groups, order)));
  }

  // ----- distinct keys -----

  ghost predicate Apart<R, T>(pick: R -> Option<T>, key: T -> string, a: seq<R>, b: seq<R>) {
    forall i, j :: 0 <= i < |a| && 0 <= j < |b| && pick(a[i]).Some? && pick(b[j]).Some?
      ==> key(pick(a[i]).value) != key(pick(b[j]).value)
  }

  lemma {:induction false} CollectDistinct<R, T>(pick: R -> Option<T>, key: T -> string, s: seq<R>)
    requires forall i, j :: 0 <= i < j < |s| && pick(s[i]).Some? && pick(s[j]).Some?
               ==> key(pick(s[i]).value) != key(pick(s[j]).value)
    ensures DistinctBy(key, Collect(pick, s))
  {
    if s != [] {
      CollectDistinct(pick, key, s[1..]);
      var rest := Collect(pick, s[1..]);
      forall k | 0 <= k < |rest| && pick(s[0]).Some?
        ensures key(rest[k]) != key(pick(s[0]).value)
      {
        var i := CollectMember(pick, s[1..], k);
        assert s[1..][i] == s[i + 1];
      }
    }
  }

  lemma DistinctAppend<R, T>(pick: R -> Option<T>, key: T -> string, a: seq<R>, b: seq<R>)
    requires DistinctBy(key, Collect(pick, a)) && DistinctBy(key, Collect(pick, b))
    requires Apart(pick, key, a, b)
    ensures DistinctBy(key, Collect(pick, a + b))
  {
    CollectAppend(pick, a, b);
    var ca, cb := Collect(pick, a), Collect(pick, b);
    forall i, j | 0 <= i < |ca| && 0 <= j < |cb|
      ensures key(ca[i]) != key(cb[j])
    {
      var m := CollectMember(pick, a, i);
      var n := CollectMember(pick, b, j);
    }
  }

  lemma {:induction false} InOrderDistinct<R, T>(groups: map<string, seq<R>>, pick: R -> Option<T>, key: T -> string,
                                                 keys: set<string>, order: seq<string>)
    requires keys <= groups.Keys && Enumerates(order, keys)
    requires PicksDistinct(groups, pick, key)
    ensures DistinctBy(key, Collect(pick, InOrder(groups, order)))
  {
    if order != [] {
      var g := order[0];
      EnumeratesWithout(order, keys, 0);
      assert Without(order, 0) == order[1..];
      var rest := InOrder(groups, order[1..]);
      InOrderDistinct(groups, pick, key, keys - {g}, order[1..]);
      assert forall i, j :: 0 <= i < j < |groups[g]| ==> At(groups, g, i) && At(groups, g, j);
      CollectDistinct(pick, key, groups[g]);
      forall i, j | 0 <= i < |groups[g]| && 0 <= j < |rest| && pick(groups[g][i]).Some? && pick(rest[j]).Some?
        ensures key(pick(groups[g][i]).value) != key(pick(rest[j]).value)
      {
        var h, k := InOrderMember(groups, order[1..], j);
        assert At(groups, g, i) && At(groups, h, k);
      }
      DistinctAppend(pick, key, groups[g], rest);
    }
  }

  /** With distinct keys the sorted slice is strictly ascending. */
  lemma DistinctPicksAscend<R, T>(groups: map<string, seq<R>>, pick: R -> Option<T>, key: T -> string,
                                  order: seq<string>, ts: seq<T>)
    requires SortedPicks(groups, pick, key, order, ts) && PicksDistinct(groups, pick, key)
    ensures StrictlySortedBy(key, ts)
  {
    InOrderDistinct(groups, pick, key, groups.Keys, order);
    DistinctBag(key, Collect(pick, InOrder(groups, order)), ts);
    DistinctSorted(key, ts);
  }
}

/** Optional values and the few string operations of Go's standard library that the operator relies on. */
module Strings {

  datatype Option<+T> = None | Some(value: T)

  /** Go's `<` on strings. Bytewise order of UTF-8 text is the order of its code points. */
  predicate LexLess(a: string, b: string) {
    if |b| == 0 then false
    else if |a| == 0 then true
    else a[0] < b[0] || (a[0] == b[0] && LexLess(a[1..], b[1..]))
  }

  /** Exactly one of a < b, a == b and b < a holds. */
  lemma {:induction false} LexTrichotomy(a: string, b: string)
    ensures LexLess(a, b) || a == b || LexLess(b, a)
    ensures !(LexLess(a, b) && LexLess(b, a))
    ensures a == b ==> !LexLess(a, b)
  {
    if |a| > 0 && |b| > 0 {
      LexTrichotomy(a[1..], b[1..]);
      assert a[0] == b[0] && a[1..] == b[1..] ==> a == [a[0]] + a[1..] == [b[0]] + b[1..] == b;
    }
  }

  lemma {:induction false} LexTransitive(a: string, b: string, c: string)
    requires LexLess(a, b) && LexLess(b, c)
    ensures LexLess(a, c)
  {
    if |a| > 0 && a[0] == b[0] == c[0] {
      LexTransitive(a[1..], b[1..], c[1..]);
    }
  }

  /** The order is the dictionary's: the first difference decides, and a proper prefix comes first. */
  lemma {:induction false} LexLessMeans(a: string, b: string)
    ensures LexLess(a, b) <==> exists i :: Precedes(a, b, i)
  {
    if |a| > 0 && |b| > 0 && a[0] == b[0] {
      LexLessMeans(a[1..], b[1..]);
      if k :| Precedes(a[1..], b[1..], k) {
        PrecedesShift(a, b, k + 1);
      }
      if i :| Precedes(a, b, i) {
        PrecedesShift(a, b, i);
      }
    } else if LexLess(a, b) {
      assert Precedes(a, b, 0);
    }
  }

  /** `a` and `b` first differ at position `i`, in favour of `a`. */
  predicate Precedes(a: string, b: string, i: int) {
    FirstDifference(a, b, i) && (i == |a| || (i < |b| && a[i] < b[i]))
  }

  lemma PrecedesShift(a: string, b: string, i: int)
    requires |a| > 0 && |b| > 0 && a[0] == b[0]
    ensures Precedes(a, b, i) <==> Precedes(a[1..], b[1..], i - 1)
  {
    assert forall j :: 0 < j < |a| ==> a[j] == a[1..][j - 1];
    assert forall j :: 0 < j < |b| ==> b[j] == b[1..][j - 1];
    assert forall j :: 0 <= j < |a| - 1 ==> a[1..][j] == a[j + 1];
    assert forall j :: 0 <= j < |b| - 1 ==> b[1..][j] == b[j + 1];
  }

  /** `a` and `b` agree before position `i` and not beyond. */
  predicate FirstDifference(a: string, b: string, i: int) {
    && 0 <= i <= |a| && i <= |b| && (forall j :: 0 <= j < i ==> a[j] == b[j])
    && (i < |a| || i < |b|) && (i < |a| && i < |b| ==> a[i] != b[i])
  }

  /** Two characters fold together exactly when they are equal or the two cases of one ASCII letter. */
  lemma FoldMeans(c: char, d: char)
    ensures Fold(c) == Fold(d) <==>
            || c == d
            || ('a' <= c <= 'z' && d as int == c as int - 32)
            || ('a' <= d <= 'z' && c as int == d as int - 32)
  {
  }

  /** strings.TrimPrefix */
  function TrimPrefix(s: string, prefix: string): string {
    if prefix <= s then s[|prefix|..] else s
  }

  /** One side of strings.EqualFold, on ASCII letters. */
  function Fold(c: char): char {
    if 'A' <= c <= 'Z' then c - 'A' + 'a' else c
  }

  predicate EqualFold(a: string, b: string) {
    |a| == |b| && forall i :: 0 <= i < |a| ==> Fold(a[i]) == Fold(b[i])
  }

  /** White space as strings.TrimSpace sees it (unicode.IsSpace on Latin-1). */
  predicate IsSpace(c: char) {
    c in "\t\n\r " || c == '\U{0B}' || c == '\U{0C}' || c == '\U{85}' || c == '\U{A0}'
  }

  function TrimSpace(s: string): string {
    if |s| > 0 && IsSpace(s[0]) then TrimSpace(s[1..])
    else if |s| > 0 && IsSpace(s[|s| - 1]) then TrimSpace(s[..|s| - 1])
    else s
  }

  /** The key the operator builds for a (name, type) pair: both parts joined by a NUL character. */
  function NulJoin(name: string, typ: string): string {
    name + ['\0'] + typ
  }

  /** As long as names carry no NUL, the joined key identifies the pair, whatever the types contain. */
  lemma {:induction false} NulJoinInjective(n1: string, t1: string, n2: string, t2: string)
    requires '\0' !in n1 && '\0' !in n2
    requires NulJoin(n1, t1) == NulJoin(n2, t2)
    ensures n1 == n2 && t1 == t2
  {
    var k1, k2 := NulJoin(n1, t1), NulJoin(n2, t2);
    assert k1[|n1|] == '\0' && k2[|n2|] == '\0';
    assert forall i :: 0 <= i < |n1| ==> k1[i] == n1[i];
    assert forall i :: 0 <= i < |n2| ==> k2[i] == n2[i];
    assert k1[..|n1|] == n1 && k2[..|n2|] == n2;
    assert k1[|n1| + 1..] == t1 && k2[|n2| + 1..] == t2;
  }

  /** The guard matters: with a NUL inside a name two different pairs share one key. */
  lemma NulJoinCollides()
    ensures NulJoin("a", "b\0c") == NulJoin("a\0b", "c") && "a" != "a\0b"
  {
    assert NulJoin("a", "b\0c") == ['a', '\0', 'b', '\0', 'c'];
    assert NulJoin("a\0b", "c") == ['a', '\0', 'b', '\0', 'c'];
  }
}

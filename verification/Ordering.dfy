/** The order JavaScript's comparators give to the sort keys of this system, and
    the stable sort that `Array.prototype.sort` performs with it. */
module Ordering {

  /** Strict lexicographic order by character; below U+10000 that is the order by UTF-16 code unit. */
  predicate Less(a: string, b: string) {
    |b| > 0 && (|a| == 0 || a[0] < b[0] || (a[0] == b[0] && Less(a[1..], b[1..])))
  }

  lemma {:induction false} LessTotal(a: string, b: string)
    ensures a == b || Less(a, b) || Less(b, a)
  {
    if |a| > 0 && |b| > 0 && a[0] == b[0] {
      LessTotal(a[1..], b[1..]);
      assert a == [a[0]] + a[1..] && b == [b[0]] + b[1..];
    }
  }

  lemma {:induction false} LessAsymmetric(a: string, b: string)
    ensures !(Less(a, b) && Less(b, a))
  {
    if |a| > 0 && |b| > 0 && a[0] == b[0] {
      LessAsymmetric(a[1..], b[1..]);
    }
  }

  lemma {:induction false} LessTransitive(a: string, b: string, c: string)
    requires Less(a, b) && Less(b, c)
    ensures Less(a, c)
  {
    if |a| > 0 && a[0] == b[0] == c[0] {
      LessTransitive(a[1..], b[1..], c[1..]);
    }
  }

  datatype Keyed<T> = Keyed(key: string, value: T)

  ghost predicate Sorted<T>(s: seq<Keyed<T>>) {
    forall i, j :: 0 <= i < j < |s| ==> !Less(s[j].key, s[i].key)
  }

  ghost predicate DistinctKeys<T>(s: seq<Keyed<T>>) {
    forall i, j :: 0 <= i < j < |s| ==> s[i].key != s[j].key
  }

  /** Places `x` before the first element whose key is not smaller, so that equal keys keep their order. */
  function Insert<T>(x: Keyed<T>, s: seq<Keyed<T>>): (r: seq<Keyed<T>>)
    ensures multiset(r) == multiset{x} + multiset(s)
  {
    if |s| > 0 && Less(s[0].key, x.key) then
      assert s == [s[0]] + s[1..];
      [s[0]] + Insert(x, s[1..])
    else
      [x] + s
  }

  function SortByKey<T>(s: seq<Keyed<T>>): (r: seq<Keyed<T>>)
    ensures multiset(r) == multiset(s)
    ensures |r| == |s|
  {
    if |s| == 0 then [] else
      assert s == [s[0]] + s[1..];
      var r := Insert(s[0], SortByKey(s[1..]));
      assert |multiset(r)| == |multiset(s)|;
      r
  }

  lemma AheadOfSorted<T>(x: Keyed<T>, s: seq<Keyed<T>>)
    requires Sorted(s) && (|s| == 0 || !Less(s[0].key, x.key))
    ensures Sorted([x] + s)
  {
    forall j | 0 <= j < |s| ensures !Less(s[j].key, x.key) {
      LessTotal(s[0].key, s[j].key);
      if Less(s[j].key, x.key) && Less(s[0].key, s[j].key) {
        LessTransitive(s[0].key, s[j].key, x.key);
      }
    }
  }

  lemma {:induction false} InsertKeepsSorted<T>(x: Keyed<T>, s: seq<Keyed<T>>)
    requires Sorted(s)
    ensures Sorted(Insert(x, s))
  {
    if |s| > 0 && Less(s[0].key, x.key) {
      var t := Insert(x, s[1..]);
      InsertKeepsSorted(x, s[1..]);
      LessAsymmetric(s[0].key, x.key);
      forall j | 0 <= j < |t| ensures !Less(t[j].key, s[0].key) {
        assert t[j] in multiset(t);
        assert t[j] == x || t[j] in s[1..];
      }
    } else {
      AheadOfSorted(x, s);
    }
  }

  lemma {:induction false} SortSorts<T>(s: seq<Keyed<T>>)
    ensures Sorted(SortByKey(s))
  {
    if |s| > 0 {
      SortSorts(s[1..]);
      InsertKeepsSorted(s[0], SortByKey(s[1..]));
    }
  }

  lemma SameElements<T>(s: seq<T>, t: seq<T>, i: nat) returns (j: nat)
    requires multiset(s) == multiset(t)
    requires i < |s|
    ensures j < |t| && t[j] == s[i]
  {
    assert s[i] in multiset(t);
    j :| 0 <= j < |t| && t[j] == s[i];
  }

  /** Two sorted listings of the same elements under pairwise different keys are the same listing. */
  lemma {:induction false} SortedListingUnique<T>(s: seq<Keyed<T>>, t: seq<Keyed<T>>)
    requires Sorted(s) && Sorted(t) && DistinctKeys(s)
    requires multiset(s) == multiset(t)
    ensures s == t
  {
    assert |multiset(s)| == |multiset(t)|;
    if |s| > 0 {
      SmallestComesFirst(s, t);
      SameRest(s, t);
      SortedListingUnique(s[1..], t[1..]);
      assert s == [s[0]] + s[1..] && t == [t[0]] + t[1..];
    }
  }

  lemma SameRest<T>(s: seq<T>, t: seq<T>)
    requires |s| > 0 && |t| > 0 && s[0] == t[0]
    requires multiset(s) == multiset(t)
    ensures multiset(s[1..]) == multiset(t[1..])
  {
    assert s == [s[0]] + s[1..] && t == [t[0]] + t[1..];
    assert multiset(s[1..]) == multiset(s) - multiset{s[0]};
    assert multiset(t[1..]) == multiset(t) - multiset{t[0]};
  }

  lemma SmallestComesFirst<T>(s: seq<Keyed<T>>, t: seq<Keyed<T>>)
    requires Sorted(s) && Sorted(t) && DistinctKeys(s)
    requires multiset(s) == multiset(t)
    requires |s| > 0 && |t| > 0
    ensures s[0] == t[0]
  {
    var j := SameElements(s, t, 0);
    var i := SameElements(t, s, 0);
    LessTotal(s[0].key, s[i].key);
  }

  /** With different keys, the sorted listing does not depend on the order the elements arrive in. */
  lemma SortIgnoresArrivalOrder<T>(s: seq<Keyed<T>>, t: seq<Keyed<T>>)
    requires DistinctKeys(s)
    requires multiset(s) == multiset(t)
    ensures SortByKey(s) == SortByKey(t)
  {
    SortSorts(s);
    SortSorts(t);
    PermutationKeepsDistinct(s, SortByKey(s));
    SortedListingUnique(SortByKey(s), SortByKey(t));
  }

  lemma PermutationKeepsDistinct<T>(s: seq<Keyed<T>>, r: seq<Keyed<T>>)
    requires DistinctKeys(s)
    requires multiset(r) == multiset(s)
    ensures DistinctKeys(r)
  {
    forall i, j | 0 <= i < j < |r| ensures r[i].key != r[j].key {
      var x := SameElements(r, s, i);
      var y := SameElements(r, s, j);
      if x == y {
        assert r == r[..i] + [r[i]] + r[i+1..j] + [r[j]] + r[j+1..];
        assert multiset(r)[r[i]] >= 2;
        OccursOnce(s, x);
      }
    }
  }

  lemma OccursOnce<T>(s: seq<Keyed<T>>, x: nat)
    requires DistinctKeys(s) && x < |s|
    ensures multiset(s)[s[x]] == 1
  {
    assert s == s[..x] + [s[x]] + s[x+1..];
    assert s[x] !in multiset(s[..x]) && s[x] !in multiset(s[x+1..]);
  }

  // ---------------------------------------------------------------- equal keys keep their order

  function OfKey<T>(s: seq<Keyed<T>>, key: string): seq<Keyed<T>> {
    if s == [] then [] else IfKey(s[0], key) + OfKey(s[1..], key)
  }

  function IfKey<T>(x: Keyed<T>, key: string): seq<Keyed<T>> {
    if x.key == key then [x] else []
  }

  lemma OfKeyOfCons<T>(x: Keyed<T>, s: seq<Keyed<T>>, key: string)
    ensures OfKey([x] + s, key) == IfKey(x, key) + OfKey(s, key)
  {
    assert ([x] + s)[1..] == s;
  }

  lemma DifferentKeysPass<T>(x: Keyed<T>, y: Keyed<T>, s: seq<Keyed<T>>, key: string)
    requires x.key != y.key
    ensures IfKey(y, key) + (IfKey(x, key) + s) == IfKey(x, key) + (IfKey(y, key) + s)
  {
  }

  lemma {:induction false} InsertedFirst<T>(x: Keyed<T>, s: seq<Keyed<T>>, key: string)
    ensures OfKey(Insert(x, s), key) == IfKey(x, key) + OfKey(s, key)
  {
    if |s| > 0 && Less(s[0].key, x.key) {
      InsertedFirst(x, s[1..], key);
      LessAsymmetric(s[0].key, x.key);
      OfKeyOfCons(s[0], Insert(x, s[1..]), key);
      DifferentKeysPass(x, s[0], OfKey(s[1..], key), key);
      InsertPasses(x, s);
    } else {
      OfKeyOfCons(x, s, key);
    }
  }

  lemma InsertPasses<T>(x: Keyed<T>, s: seq<Keyed<T>>)
    requires |s| > 0 && Less(s[0].key, x.key)
    ensures Insert(x, s) == [s[0]] + Insert(x, s[1..])
  {
  }

  lemma {:induction false} SortIsStable<T>(s: seq<Keyed<T>>, key: string)
    ensures OfKey(SortByKey(s), key) == OfKey(s, key)
  {
    if |s| > 0 {
      SortIsStable(s[1..], key);
      InsertedFirst(s[0], SortByKey(s[1..]), key);
    }
  }
}

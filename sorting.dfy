/** The `sort.Sort` calls of the workspace code, over a sort.Interface whose Less
    compares one string key with Go's `<`. Go's sort is not stable; the function
    here is one insertion sort, and what callers are promised is only that the
    result is ordered by the key and is a permutation of the input. */
module Sorting {
  import opened Text

  /** Ascending by key: no later element has a key smaller than an earlier one. */
  predicate SortedBy<T>(s: seq<T>, key: T -> string)
  {
    forall i, j :: 0 <= i < j < |s| ==> !Less(key(s[j]), key(s[i]))
  }

  /** x placed after every element whose key is not greater than its own. */
  function Insert<T>(x: T, s: seq<T>, key: T -> string): (r: seq<T>)
    requires SortedBy(s, key)
    ensures multiset(r) == multiset(s) + multiset{x}
    ensures SortedBy(r, key)
  {
    if s == [] then [x]
    else if Less(key(x), key(s[0])) then
      InsertFront(x, s, key);
      [x] + s
    else
      var t := Insert(x, s[1..], key);
      InsertAfter(x, s, t, key);
      [s[0]] + t
  }

  /** An element smaller than the head of an ordered sequence may go in front. */
  lemma InsertFront<T>(x: T, s: seq<T>, key: T -> string)
    requires SortedBy(s, key) && s != [] && Less(key(x), key(s[0]))
    ensures SortedBy([x] + s, key)
  {
    forall j | 0 <= j < |s| ensures !Less(key(s[j]), key(x)) {
      if j > 0 { LessThenAtMost(key(x), key(s[0]), key(s[j])); } else { LessAsymmetric(key(x), key(s[0])); }
    }
    ConsSorted(x, s, key);
  }

  /** An element not above any element of an ordered sequence may go in front. */
  lemma ConsSorted<T>(h: T, t: seq<T>, key: T -> string)
    requires SortedBy(t, key)
    requires forall j :: 0 <= j < |t| ==> !Less(key(t[j]), key(h))
    ensures SortedBy([h] + t, key)
  {
    var r := [h] + t;
    forall i, j | 0 <= i < j < |r| ensures !Less(key(r[j]), key(r[i])) {
      if i > 0 { assert r[i] == t[i - 1] && r[j] == t[j - 1]; } else { assert r[j] == t[j - 1]; }
    }
  }

  /** The head of an ordered sequence, not greater than x, stays in front of the
      ordered insertion of x into the rest. */
  lemma InsertAfter<T>(x: T, s: seq<T>, t: seq<T>, key: T -> string)
    requires SortedBy(s, key) && s != [] && !Less(key(x), key(s[0]))
    requires SortedBy(t, key) && multiset(t) == multiset(s[1..]) + multiset{x}
    ensures multiset([s[0]] + t) == multiset(s) + multiset{x}
    ensures SortedBy([s[0]] + t, key)
  {
    HeadBelowInsertion(x, s, t, key);
    ConsSorted(s[0], t, key);
    assert s == [s[0]] + s[1..];
  }

  /** No element of the insertion of x into the rest of s lies below the head of s. */
  lemma HeadBelowInsertion<T>(x: T, s: seq<T>, t: seq<T>, key: T -> string)
    requires SortedBy(s, key) && s != [] && !Less(key(x), key(s[0]))
    requires multiset(t) == multiset(s[1..]) + multiset{x}
    ensures forall j :: 0 <= j < |t| ==> !Less(key(t[j]), key(s[0]))
  {
    forall j | 0 <= j < |t| ensures !Less(key(t[j]), key(s[0])) {
      assert t[j] in multiset(t);
      if t[j] == x {
        if key(x) != key(s[0]) { LessTotal(key(x), key(s[0])); }
        else { LessIrreflexive(key(x)); }
      } else {
        assert t[j] in multiset(s[1..]);
        var k :| 1 <= k < |s| && s[k] == t[j];
      }
    }
  }

  /** The elements of s in ascending order of their keys. */
  function SortBy<T>(s: seq<T>, key: T -> string): (r: seq<T>)
    ensures multiset(r) == multiset(s)
    ensures SortedBy(r, key)
  {
    if s == [] then []
    else
      assert s == [s[0]] + s[1..];
      Insert(s[0], SortBy(s[1..], key), key)
  }

  /** Applying f to each element. */
  function MapSeq<A, B>(s: seq<A>, f: A -> B): (r: seq<B>)
    ensures |r| == |s|
  {
    if s == [] then [] else [f(s[0])] + MapSeq(s[1..], f)
  }

  /** The mapped sequence holds f of each element at the element's position. */
  lemma {:induction false} MapSeqAt<A, B>(s: seq<A>, f: A -> B)
    ensures forall i :: 0 <= i < |s| ==> MapSeq(s, f)[i] == f(s[i])
  {
    if s != [] {
      MapSeqAt(s[1..], f);
    }
  }

  lemma {:induction false} MapSeqConcat<A, B>(a: seq<A>, b: seq<A>, f: A -> B)
    ensures MapSeq(a + b, f) == MapSeq(a, f) + MapSeq(b, f)
  {
    if a != [] {
      MapSeqConcat(a[1..], b, f);
      assert (a + b)[1..] == a[1..] + b;
    } else {
      assert a + b == b;
    }
  }

  /** A permutation stays a permutation after mapping. */
  lemma {:induction false} MapSeqPermutation<A, B>(s: seq<A>, t: seq<A>, f: A -> B)
    requires multiset(s) == multiset(t)
    ensures multiset(MapSeq(s, f)) == multiset(MapSeq(t, f))
    decreases |s|
  {
    if s != [] {
      var k := PermutedHead(s, t);
      MapSeqPermutation(s[1..], t[..k] + t[k + 1..], f);
      MapSeqRemove(t, k, f);
      MapSeqHead(s, f);
    }
  }

  /** The head of s sits somewhere in a permutation t of s, and the rests are
      permutations of each other. */
  lemma PermutedHead<A>(s: seq<A>, t: seq<A>) returns (k: int)
    requires multiset(s) == multiset(t) && s != []
    ensures 0 <= k < |t| && t[k] == s[0]
    ensures multiset(s[1..]) == multiset(t[..k] + t[k + 1..])
  {
    assert s[0] in t by {
      assert s[0] in s;
      assert s[0] in multiset(s);
    }
    k :| 0 <= k < |t| && t[k] == s[0];
    MultisetRemove(t, k);
    MultisetTail(s);
  }

  /** Mapping s counts f of its head once more than mapping its tail. */
  lemma MapSeqHead<A, B>(s: seq<A>, f: A -> B)
    requires s != []
    ensures multiset(MapSeq(s, f)) == multiset(MapSeq(s[1..], f)) + multiset{f(s[0])}
  {
    assert MapSeq(s, f) == [f(s[0])] + MapSeq(s[1..], f);
  }

  /** Taking out the element at k takes one occurrence of it out of the multiset. */
  lemma MultisetRemove<A>(t: seq<A>, k: int)
    requires 0 <= k < |t|
    ensures multiset(t[..k] + t[k + 1..]) == multiset(t) - multiset{t[k]}
  {
    Decompose(t, k);
  }

  lemma Decompose<A>(t: seq<A>, k: int)
    requires 0 <= k < |t|
    ensures t == t[..k] + [t[k]] + t[k + 1..]
  {
  }

  /** Mapping, then counting, the element at k apart from the others. */
  lemma MapSeqRemove<A, B>(t: seq<A>, k: int, f: A -> B)
    requires 0 <= k < |t|
    ensures multiset(MapSeq(t, f)) == multiset(MapSeq(t[..k] + t[k + 1..], f)) + multiset{f(t[k])}
  {
    var a, b := t[..k], t[k + 1..];
    Decompose(t, k);
    MapSeqConcat(a + [t[k]], b, f);
    MapSeqConcat(a, [t[k]], f);
    MapSeqConcat(a, b, f);
    assert MapSeq([t[k]], f) == [f(t[k])];
  }

  /** The key sort.Strings orders by: the string itself. */
  function Self(s: string): string
  {
    s
  }

  /** Two ascending sequences without repeated keys that hold the same elements
      are equal: once the keys are distinct, the sorted order is unique. */
  lemma {:induction false} SortedUnique(s: seq<string>, t: seq<string>)
    requires SortedBy(s, Self) && SortedBy(t, Self)
    requires multiset(s) == multiset(t)
    requires forall i, j :: 0 <= i < j < |s| ==> s[i] != s[j]
    ensures s == t
    decreases |s|
  {
    if s != [] {
      HeadsEqual(s, t);
      MultisetTail(s);
      MultisetTail(t);
      SortedTail(s, Self);
      SortedTail(t, Self);
      DistinctTail(s);
      SortedUnique(s[1..], t[1..]);
      SameHeadAndTail(s, t);
    }
  }

  /** The tail's multiset is the whole one less the head. */
  lemma MultisetTail<T>(s: seq<T>)
    requires s != []
    ensures multiset(s[1..]) == multiset(s) - multiset{s[0]}
  {
    assert s == [s[0]] + s[1..];
  }

  /** Sequences with equal heads and equal tails are equal. */
  lemma SameHeadAndTail<T>(s: seq<T>, t: seq<T>)
    requires s != [] && t != [] && s[0] == t[0] && s[1..] == t[1..]
    ensures s == t
  {
    assert s == [s[0]] + s[1..] && t == [t[0]] + t[1..];
  }

  /** The tail of an ordered sequence is ordered. */
  lemma SortedTail<T>(s: seq<T>, key: T -> string)
    requires SortedBy(s, key) && s != []
    ensures SortedBy(s[1..], key)
  {
    var r := s[1..];
    forall i, j | 0 <= i < j < |r| ensures !Less(key(r[j]), key(r[i])) {
      assert r[i] == s[i + 1] && r[j] == s[j + 1];
    }
  }

  /** The tail of a duplicate-free sequence is duplicate-free. */
  lemma DistinctTail(s: seq<string>)
    requires forall i, j :: 0 <= i < j < |s| ==> s[i] != s[j]
    requires s != []
    ensures forall i, j :: 0 <= i < j < |s[1..]| ==> s[1..][i] != s[1..][j]
  {
    var r := s[1..];
    forall i, j | 0 <= i < j < |r| ensures r[i] != r[j] {
      assert r[i] == s[i + 1] && r[j] == s[j + 1];
    }
  }

  /** Ascending sequences with the same elements start with the same (least) element. */
  lemma HeadsEqual(s: seq<string>, t: seq<string>)
    requires SortedBy(s, Self) && SortedBy(t, Self)
    requires multiset(s) == multiset(t) && s != []
    ensures t != [] && s[0] == t[0]
  {
    assert s[0] in t by {
      assert s[0] in s;
      assert s[0] in multiset(s);
    }
    assert t[0] in s by {
      assert t[0] in t;
      assert t[0] in multiset(t);
    }
    if s[0] != t[0] {
      var a :| 0 <= a < |t| && t[a] == s[0];
      var b :| 0 <= b < |s| && s[b] == t[0];
      assert a > 0 && b > 0;
      assert !Less(Self(t[a]), Self(t[0]));
      assert !Less(Self(s[b]), Self(s[0]));
      LessTotal(s[0], t[0]);
    }
  }
}

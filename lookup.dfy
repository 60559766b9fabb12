/** The first-match searches shared by FindProject, FindSystem and FindFile:
    a range loop that returns the first element whose Identifier equals id. */
module Lookup {
  import opened Wrappers

  /** i is the first position of s whose key is id. */
  predicate FirstMatch<T>(s: seq<T>, key: T -> string, id: string, i: int)
  {
    0 <= i < |s| && key(s[i]) == id && forall j :: 0 <= j < i ==> key(s[j]) != id
  }

  /** No element of s has key id. */
  predicate NoMatch<T>(s: seq<T>, key: T -> string, id: string)
  {
    forall i :: 0 <= i < |s| ==> key(s[i]) != id
  }

  /** The loop of the Find methods: the element at the first position whose key is
      id, or None (Go's nil) when no element has that key. */
  method FindFirst<T>(s: seq<T>, key: T -> string, id: string) returns (r: Option<T>)
    ensures r.None? <==> NoMatch(s, key, id)
    ensures r.Some? ==> exists i :: FirstMatch(s, key, id, i) && r.value == s[i]
  {
    var i := 0;
    while i < |s|
      invariant 0 <= i <= |s|
      invariant forall j :: 0 <= j < i ==> key(s[j]) != id
    {
      if key(s[i]) == id {
        assert FirstMatch(s, key, id, i);
        return Some(s[i]);
      }
      i := i + 1;
    }
    return None;
  }

  /** At most one position is the first match, so the element found is determined. */
  lemma FirstMatchUnique<T>(s: seq<T>, key: T -> string, id: string, i: int, j: int)
    requires FirstMatch(s, key, id, i) && FirstMatch(s, key, id, j)
    ensures i == j
  {
  }

  /** A key that occurs is found: NoMatch fails exactly when some position matches. */
  lemma {:induction false} SomeMatchHasFirst<T>(s: seq<T>, key: T -> string, id: string, k: int)
    requires 0 <= k < |s| && key(s[k]) == id
    ensures exists i :: 0 <= i <= k && FirstMatch(s, key, id, i)
    decreases k
  {
    if exists j :: 0 <= j < k && key(s[j]) == id {
      var j :| 0 <= j < k && key(s[j]) == id;
      SomeMatchHasFirst(s, key, id, j);
    } else {
      assert FirstMatch(s, key, id, k);
    }
  }

  /** Appending keeps an existing first match and otherwise makes the new last
      element the first match exactly when its key is id. */
  lemma FirstMatchAppend<T>(s: seq<T>, x: T, key: T -> string, id: string, i: int)
    ensures FirstMatch(s + [x], key, id, i) <==>
      FirstMatch(s, key, id, i) || (NoMatch(s, key, id) && key(x) == id && i == |s|)
  {
    var t := s + [x];
    assert forall j :: 0 <= j < |s| ==> t[j] == s[j];
  }
}

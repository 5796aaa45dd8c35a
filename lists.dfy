/*
 * The List<T> operations the server uses on its in-memory lists:
 * IndexOf/Contains, Remove (first occurrence) and RemoveAt.
 */
module Lists {

  /** Position of the first occurrence of x, or |s| when x does not occur. */
  function IndexOf<T(==)>(s: seq<T>, x: T): (i: nat)
    ensures i <= |s|
    ensures i < |s| <==> x in s
    ensures i < |s| ==> s[i] == x
    ensures forall j :: 0 <= j < i ==> s[j] != x
  {
    if |s| == 0 then 0
    else if s[0] == x then 0
    else 1 + IndexOf(s[1..], x)
  }

  /** The first position holding x is the one before which x never occurs. */
  lemma IndexOfUnique<T>(s: seq<T>, x: T, j: nat)
    requires j < |s| && s[j] == x
    requires forall k :: 0 <= k < j ==> s[k] != x
    ensures IndexOf(s, x) == j
  {
  }

  /** List.RemoveAt(i) */
  function RemoveAt<T>(s: seq<T>, i: nat): (r: seq<T>)
    requires i < |s|
    ensures |r| == |s| - 1
    ensures forall j :: 0 <= j < i ==> r[j] == s[j]
    ensures forall j :: i <= j < |r| ==> r[j] == s[j + 1]
  {
    s[..i] + s[i + 1..]
  }

  /** List.Remove(x): drops the first occurrence of x, if any. */
  function RemoveFirst<T(==)>(s: seq<T>, x: T): seq<T>
  {
    if x in s then RemoveAt(s, IndexOf(s, x)) else s
  }

  /** Removing the first occurrence takes exactly one copy of x out of the
    * list and keeps the order of everything else. */
  lemma RemoveFirstMultiset<T>(s: seq<T>, x: T)
    requires x in s
    ensures |RemoveFirst(s, x)| == |s| - 1
    ensures multiset(RemoveFirst(s, x)) == multiset(s) - multiset{x}
  {
    var i := IndexOf(s, x);
    var a, b := s[..i], s[i + 1..];
    assert s == a + [x] + b;
    assert multiset(s) == multiset(a) + multiset{x} + multiset(b);
    assert RemoveFirst(s, x) == a + b;
    assert multiset(a + b) == multiset(a) + multiset(b);
  }

  /** Appending an absent element and then removing it restores the list. */
  lemma {:induction false} RemoveFirstAfterAppend<T>(s: seq<T>, x: T)
    requires x !in s
    ensures RemoveFirst(s + [x], x) == s
  {
    var t := s + [x];
    assert IndexOf(t, x) == |s| by {
      assert t[|s|] == x;
      assert forall j :: 0 <= j < |s| ==> t[j] == s[j];
    }
    assert t[..|s|] == s;
  }

  /** Removing an element whose first occurrence is known splits the list
    * around it. */
  lemma RemoveFirstMiddle<T>(a: seq<T>, x: T, b: seq<T>)
    requires x !in a
    ensures RemoveFirst(a + [x] + b, x) == a + b
  {
    var t := a + [x] + b;
    assert t[|a|] == x;
    IndexOfUnique(t, x, |a|);
    assert t[..|a|] == a && t[|a| + 1..] == b;
  }

  /** The map once each of the keys has been deleted from it, in turn. */
  function WithoutKeys<K(!new), V>(m: map<K, V>, keys: seq<K>): (r: map<K, V>)
    ensures forall k :: k in r <==> k in m && k !in keys
    ensures forall k :: k in r ==> r[k] == m[k]
    decreases |keys|
  {
    if |keys| == 0 then m
    else WithoutKeys(m, keys[..|keys| - 1]) - {keys[|keys| - 1]}
  }

  /** No element occurs twice (a directory listing names each file once). */
  predicate Distinct<T(==)>(s: seq<T>)
  {
    forall i, j :: 0 <= i < j < |s| ==> s[i] != s[j]
  }

  /** Appending in two steps appends the concatenation. */
  lemma AppendAssociates<T>(a: seq<T>, b: seq<T>, c: seq<T>)
    ensures (a + b) + c == a + (b + c)
  {
  }
}

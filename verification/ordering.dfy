/**
 * Sequence helpers shared by the server and the client model: descending
 * ordering by an integer key (`ORDER BY ... DESC`, `Array.prototype.sort`),
 * the first-occurrence filter of `filter((x, i, self) => self.indexOf(x) === i)`,
 * and the extraction of a table's rows into a sorted list.
 */
module Ordering {

  /** Non-increasing by `key`. */
  predicate SortedDesc<T>(s: seq<T>, key: T -> int) {
    forall i, j :: 0 <= i < j < |s| ==> key(s[i]) >= key(s[j])
  }

  /** The place a stable insertion puts `x`: after every element whose key is at least x's. */
  function InsertPos<T>(x: T, s: seq<T>, key: T -> int): (i: nat)
    ensures i <= |s|
    ensures forall j :: 0 <= j < i ==> key(s[j]) >= key(x)
    ensures i < |s| ==> key(s[i]) < key(x)
  {
    if s == [] || key(s[0]) < key(x) then 0 else 1 + InsertPos(x, s[1..], key)
  }

  /** Inserting into a sorted list keeps it sorted and adds exactly one element. */
  function InsertDesc<T(!new)>(x: T, s: seq<T>, key: T -> int): (r: seq<T>)
    requires SortedDesc(s, key)
    ensures SortedDesc(r, key)
    ensures multiset(r) == multiset(s) + multiset{x}
    ensures |r| == |s| + 1
    ensures forall y :: y in r <==> y == x || y in s
  {
    var i := InsertPos(x, s, key);
    InsertAtSorted(x, s, key, i);
    InsertAtContents(x, s, i);
    s[..i] + [x] + s[i..]
  }

  /** Putting `x` between the elements whose keys are at least its own and those whose keys
      are smaller keeps the list sorted. */
  lemma InsertAtSorted<T>(x: T, s: seq<T>, key: T -> int, i: nat)
    requires SortedDesc(s, key) && i <= |s|
    requires forall j :: 0 <= j < i ==> key(s[j]) >= key(x)
    requires i < |s| ==> key(s[i]) < key(x)
    ensures SortedDesc(s[..i] + [x] + s[i..], key)
  {
    var r := s[..i] + [x] + s[i..];
    forall p, q | 0 <= p < q < |r| ensures key(r[p]) >= key(r[q]) {
      if q < i {
        assert r[p] == s[p] && r[q] == s[q];
      } else if q == i {
        assert r[p] == s[p];
      } else if p == i {
        assert r[q] == s[q - 1] && key(s[q - 1]) <= key(s[i]);
      } else if p < i {
        assert r[p] == s[p] && r[q] == s[q - 1] && key(s[q - 1]) <= key(s[i]);
      } else {
        assert r[p] == s[p - 1] && r[q] == s[q - 1];
      }
    }
  }

  /** Inserting at any position adds exactly `x`. */
  lemma InsertAtContents<T>(x: T, s: seq<T>, i: nat)
    requires i <= |s|
    ensures multiset(s[..i] + [x] + s[i..]) == multiset(s) + multiset{x}
    ensures forall y :: y in s[..i] + [x] + s[i..] <==> y == x || y in s
  {
    assert s == s[..i] + s[i..];
    assert multiset(s[..i] + [x] + s[i..]) == multiset(s[..i]) + multiset{x} + multiset(s[i..]);
  }

  /** Insertion sort, non-increasing by `key`. */
  function SortDesc<T(!new)>(s: seq<T>, key: T -> int): (r: seq<T>)
    ensures SortedDesc(r, key)
    ensures multiset(r) == multiset(s)
    ensures |r| == |s|
    ensures forall y :: y in r <==> y in s
  {
    if s == [] then []
    else
      assert s == [s[0]] + s[1..];
      var rest := SortDesc(s[1..], key);
      assert forall y :: y in s <==> y == s[0] || y in s[1..];
      InsertDesc(s[0], rest, key)
  }

  /** Keeps each value at its first occurrence only. */
  function FirstOccurrences<T(==,!new)>(s: seq<T>): (r: seq<T>)
    ensures forall y :: y in r <==> y in s
    ensures forall i, j :: 0 <= i < j < |r| ==> r[i] != r[j]
  {
    if s == [] then []
    else
      var init := s[..|s| - 1];
      var last := s[|s| - 1];
      assert s == init + [last];
      var prefix := FirstOccurrences(init);
      if last in init then prefix else prefix + [last]
  }

  /** No two elements share an id. */
  predicate DistinctIds<T>(s: seq<T>, id: T -> string) {
    forall i, j :: 0 <= i < j < |s| ==> id(s[i]) != id(s[j])
  }

  /** Dropping the head keeps the ids distinct, and no later element shares the head's id. */
  lemma DistinctIdsTail<T>(s: seq<T>, id: T -> string)
    requires s != [] && DistinctIds(s, id)
    ensures DistinctIds(s[1..], id)
    ensures forall y :: y in s[1..] ==> id(y) != id(s[0])
  {
    forall y | y in s[1..] ensures id(y) != id(s[0]) {
      var j :| 0 <= j < |s[1..]| && s[1..][j] == y;
      assert s[j + 1] == y;
    }
  }

  /** A head whose id no element of the rest has keeps the ids distinct. */
  lemma DistinctIdsCons<T>(x: T, s: seq<T>, id: T -> string)
    requires DistinctIds(s, id)
    requires forall y :: y in s ==> id(y) != id(x)
    ensures DistinctIds([x] + s, id)
  {
    var r := [x] + s;
    forall p, q | 0 <= p < q < |r| ensures id(r[p]) != id(r[q]) {
      assert r[q] == s[q - 1];
      if p > 0 {
        assert r[p] == s[p - 1];
      }
    }
  }

  /** Inserting an element whose id is new keeps the ids distinct. */
  lemma InsertKeepsIdsDistinct<T(!new)>(x: T, s: seq<T>, key: T -> int, id: T -> string)
    requires SortedDesc(s, key)
    requires DistinctIds(s, id)
    requires forall y :: y in s ==> id(y) != id(x)
    ensures DistinctIds(InsertDesc(x, s, key), id)
  {
    var i := InsertPos(x, s, key);
    assert InsertDesc(x, s, key) == s[..i] + [x] + s[i..];
    InsertAtDistinct(x, s, id, i);
  }

  /** Putting an element with a new id anywhere keeps the ids distinct. */
  lemma InsertAtDistinct<T>(x: T, s: seq<T>, id: T -> string, i: nat)
    requires i <= |s|
    requires DistinctIds(s, id)
    requires forall j :: 0 <= j < |s| ==> id(s[j]) != id(x)
    ensures DistinctIds(s[..i] + [x] + s[i..], id)
  {
    var r := s[..i] + [x] + s[i..];
    forall p, q | 0 <= p < q < |r| ensures id(r[p]) != id(r[q]) {
      if q < i {
        assert r[p] == s[p] && r[q] == s[q];
      } else if q == i {
        assert r[p] == s[p];
      } else if p == i {
        assert r[q] == s[q - 1];
      } else if p < i {
        assert r[p] == s[p] && r[q] == s[q - 1];
      } else {
        assert r[p] == s[p - 1] && r[q] == s[q - 1];
      }
    }
  }

  /** Every row of table `m` (keyed by `id`) that satisfies `keep`, as a list without
      repeated ids and non-increasing by `key`: a `SELECT ... WHERE ... ORDER BY key DESC`. */
  method SelectSorted<T(!new)>(m: map<string, T>, id: T -> string, keep: T -> bool, key: T -> int)
    returns (r: seq<T>)
    requires forall k :: k in m ==> id(m[k]) == k
    ensures forall x :: x in r <==> id(x) in m && m[id(x)] == x && keep(x)
    ensures DistinctIds(r, id)
    ensures SortedDesc(r, key)
  {
    var pending := m.Keys;
    r := [];
    while pending != {}
      invariant pending <= m.Keys
      invariant forall x :: x in r <==> id(x) in m && m[id(x)] == x && keep(x) && id(x) !in pending
      invariant DistinctIds(r, id)
      invariant SortedDesc(r, key)
      decreases pending
    {
      var k :| k in pending;
      pending := pending - {k};
      if keep(m[k]) {
        InsertKeepsIdsDistinct(m[k], r, key, id);
        r := InsertDesc(m[k], r, key);
      }
    }
  }
}

/** Value types and sequence operations shared by the client stores and the
    server controllers: JavaScript's `filter`, LINQ's `Where`, `Take` and
    `OrderBy` all reduce to the functions below. */
module Common {

  datatype Option<+T> = None | Some(value: T)

  /** `Array.prototype.filter` / LINQ `Where`: the elements satisfying
      `keep`, in their original order. */
  function Filter<T>(s: seq<T>, keep: T -> bool): (r: seq<T>)
    ensures |r| <= |s|
  {
    if s == [] then []
    else (if keep(s[0]) then [s[0]] else []) + Filter(s[1..], keep)
  }

  /** The kept elements are exactly the elements of `s` that satisfy
      `keep`. */
  lemma {:induction false} FilterMembers<T>(s: seq<T>, keep: T -> bool)
    ensures forall x :: x in Filter(s, keep) ==> x in s && keep(x)
    ensures forall x :: x in s && keep(x) ==> x in Filter(s, keep)
  {
    if s != [] {
      FilterMembers(s[1..], keep);
      assert s == [s[0]] + s[1..];
    }
  }

  /** Filtering a concatenation filters each part: the relative order of
      the kept elements is the order they had in the input. */
  lemma {:induction false} FilterAppend<T>(a: seq<T>, b: seq<T>, keep: T -> bool)
    ensures Filter(a + b, keep) == Filter(a, keep) + Filter(b, keep)
  {
    if a == [] {
      assert a + b == b;
    } else {
      var head := if keep(a[0]) then [a[0]] else [];
      assert (a + b)[0] == a[0] && (a + b)[1..] == a[1..] + b;
      assert Filter(a + b, keep) == head + Filter(a[1..] + b, keep);
      FilterAppend(a[1..], b, keep);
      assert Filter(a, keep) == head + Filter(a[1..], keep);
    }
  }

  /** When nothing is dropped, the input comes back unchanged. */
  lemma {:induction false} FilterKeepsAll<T>(s: seq<T>, keep: T -> bool)
    requires forall i :: 0 <= i < |s| ==> keep(s[i])
    ensures Filter(s, keep) == s
  {
    if s != [] {
      FilterKeepsAll(s[1..], keep);
    }
  }

  /** Every kept value keeps its multiplicity; every dropped value is gone. */
  lemma {:induction false} FilterCount<T>(s: seq<T>, keep: T -> bool, x: T)
    ensures multiset(Filter(s, keep))[x] == if keep(x) then multiset(s)[x] else 0
  {
    if s != [] {
      FilterCount(s[1..], keep, x);
      assert s == [s[0]] + s[1..];
    }
  }

  /** LINQ `Take(n)`: the first `n` elements, or all of them when fewer. */
  function Take<T>(s: seq<T>, n: nat): (r: seq<T>)
    ensures |r| == if |s| <= n then |s| else n
    ensures r == s[..|r|]
  {
    if |s| <= n then s else s[..n]
  }

  /** The keys of `s` are in non-decreasing order. */
  ghost predicate SortedBy<T>(s: seq<T>, key: T -> int)
  {
    forall i, j :: 0 <= i < j < |s| ==> key(s[i]) <= key(s[j])
  }

  /** A sorted sequence stays sorted under a head whose key is not larger
      than the first key. */
  lemma SortedCons<T>(a: T, r: seq<T>, key: T -> int)
    requires SortedBy(r, key) && (r != [] ==> key(a) <= key(r[0]))
    ensures SortedBy([a] + r, key)
  {
    var t := [a] + r;
    forall i, j | 0 <= i < j < |t| ensures key(t[i]) <= key(t[j]) {
      if i == 0 {
        assert t[j] == r[j - 1];
        assert key(r[0]) <= key(r[j - 1]);
      } else {
        assert t[i] == r[i - 1] && t[j] == r[j - 1];
      }
    }
  }

  /** The tail of a sorted sequence is sorted, and its head key is not
      smaller than the first key. */
  lemma SortedTail<T>(s: seq<T>, key: T -> int)
    requires SortedBy(s, key) && s != []
    ensures SortedBy(s[1..], key)
    ensures |s| > 1 ==> key(s[0]) <= key(s[1..][0])
  {
    var t := s[1..];
    forall i, j | 0 <= i < j < |t| ensures key(t[i]) <= key(t[j]) {
      assert t[i] == s[i + 1] && t[j] == s[j + 1];
    }
  }

  /** Places `x` before the first element whose key is not smaller. */
  function InsertBy<T>(x: T, s: seq<T>, key: T -> int): (r: seq<T>)
    ensures |r| == |s| + 1 && (r[0] == x || (s != [] && r[0] == s[0]))
  {
    if s == [] || key(x) <= key(s[0]) then [x] + s
    else [s[0]] + InsertBy(x, s[1..], key)
  }

  /** Inserting into a sorted sequence keeps it sorted. */
  lemma {:induction false} InsertBySorted<T>(x: T, s: seq<T>, key: T -> int)
    requires SortedBy(s, key)
    ensures SortedBy(InsertBy(x, s, key), key)
  {
    if s == [] || key(x) <= key(s[0]) {
      SortedCons(x, s, key);
    } else {
      SortedTail(s, key);
      InsertBySorted(x, s[1..], key);
      SortedCons(s[0], InsertBy(x, s[1..], key), key);
    }
  }

  /** Inserting adds `x` and loses nothing. */
  lemma {:induction false} InsertByPermutes<T>(x: T, s: seq<T>, key: T -> int)
    ensures multiset(InsertBy(x, s, key)) == multiset(s) + multiset{x}
  {
    if s != [] && key(x) > key(s[0]) {
      var rest := InsertBy(x, s[1..], key);
      InsertByPermutes(x, s[1..], key);
      assert multiset([s[0]] + rest) == multiset{s[0]} + multiset(rest);
      assert s == [s[0]] + s[1..];
    }
  }

  /** LINQ `OrderBy(key)`: a permutation of `s` sorted by `key`. */
  function SortBy<T>(s: seq<T>, key: T -> int): (r: seq<T>)
    ensures SortedBy(r, key)
    ensures multiset(r) == multiset(s)
  {
    if s == [] then []
    else
      var rest := SortBy(s[1..], key);
      InsertBySorted(s[0], rest, key);
      InsertByPermutes(s[0], rest, key);
      assert s == [s[0]] + s[1..];
      InsertBy(s[0], rest, key)
  }

  /** `Array.prototype.map` / LINQ `Select`. */
  function MapSeq<A, B>(s: seq<A>, f: A -> B): (r: seq<B>)
    ensures |r| == |s|
    ensures forall i :: 0 <= i < |s| ==> r[i] == f(s[i])
  {
    seq(|s|, i requires 0 <= i < |s| => f(s[i]))
  }

  /** `List.IndexOf`: the first index holding `x`, or -1. */
  function IndexOf<T(==)>(s: seq<T>, x: T): (i: int)
    ensures -1 <= i < |s|
    ensures i >= 0 ==> s[i] == x && forall j :: 0 <= j < i ==> s[j] != x
    ensures i == -1 <==> x !in s
  {
    if s == [] then -1
    else if s[0] == x then 0
    else
      var k := IndexOf(s[1..], x);
      if k == -1 then -1 else k + 1
  }

  /** No two elements share a key. */
  ghost predicate DistinctBy<T, K>(s: seq<T>, key: T -> K)
  {
    forall i, j :: 0 <= i < j < |s| ==> key(s[i]) != key(s[j])
  }

  /** Filtering cannot create a repeated key. */
  lemma {:induction false} FilterDistinct<T, K>(s: seq<T>, keep: T -> bool, key: T -> K)
    requires DistinctBy(s, key)
    ensures DistinctBy(Filter(s, keep), key)
  {
    if s != [] {
      FilterDistinct(s[1..], keep, key);
      var rest := Filter(s[1..], keep);
      FilterMembers(s[1..], keep);
      forall j | 0 <= j < |rest| ensures key(s[0]) != key(rest[j]) {
        assert rest[j] in rest;
        assert rest[j] in s[1..];
      }
    }
  }

  /** Sequences with the same multiset hold the same elements. */
  lemma SameElements<T>(a: seq<T>, b: seq<T>)
    requires multiset(a) == multiset(b)
    ensures forall x :: x in a <==> x in b
  {
    forall x ensures x in a <==> x in b {
      assert x in a <==> x in multiset(a);
      assert x in b <==> x in multiset(b);
    }
  }

  /** Filtering out exactly one position deletes that position. */
  lemma FilterRemoveAt<T>(s: seq<T>, k: nat, keep: T -> bool)
    requires k < |s| && !keep(s[k])
    requires forall i :: 0 <= i < |s| && i != k ==> keep(s[i])
    ensures Filter(s, keep) == s[..k] + s[k + 1..]
  {
    KeepsAround(s, k, keep);
    FilterDropOne(s[..k], s[k], s[k + 1..], keep);
    assert s == s[..k] + [s[k]] + s[k + 1..];
  }

  /** Everything before and after position `k` passes the filter. */
  lemma KeepsAround<T>(s: seq<T>, k: nat, keep: T -> bool)
    requires k < |s|
    requires forall i :: 0 <= i < |s| && i != k ==> keep(s[i])
    ensures Filter(s[..k], keep) == s[..k] && Filter(s[k + 1..], keep) == s[k + 1..]
  {
    var front, back := s[..k], s[k + 1..];
    forall i | 0 <= i < |front| ensures keep(front[i]) {
      assert front[i] == s[i];
    }
    forall i | 0 <= i < |back| ensures keep(back[i]) {
      assert back[i] == s[k + 1 + i];
    }
    FilterKeepsAll(front, keep);
    FilterKeepsAll(back, keep);
  }

  /** A dropped element between two kept parts disappears. */
  lemma FilterDropOne<T>(front: seq<T>, x: T, back: seq<T>, keep: T -> bool)
    requires !keep(x) && Filter(front, keep) == front && Filter(back, keep) == back
    ensures Filter(front + [x] + back, keep) == front + back
  {
    var tail := [x] + back;
    assert tail[1..] == back;
    assert Filter(tail, keep) == back;
    assert front + [x] + back == front + tail;
    FilterAppend(front, tail, keep);
  }

  /** An element whose key no other element shares occurs once. */
  lemma OccursOnce<T, K>(s: seq<T>, a: nat, key: T -> K)
    requires a < |s| && DistinctBy(s, key)
    ensures multiset(s)[s[a]] == 1
  {
    var x, head, tail := s[a], s[..a], s[a + 1..];
    assert x !in head by {
      forall y | y in head ensures y != x {
        var k :| 0 <= k < |head| && head[k] == y;
        assert y == s[k];
      }
    }
    assert x !in tail by {
      forall y | y in tail ensures y != x {
        var k :| 0 <= k < |tail| && tail[k] == y;
        assert y == s[a + 1 + k];
      }
    }
    assert s == head + [x] + tail;
    assert multiset(s) == multiset(head) + multiset{x} + multiset(tail);
  }

  /** An element at two positions occurs at least twice. */
  lemma OccursTwice<T>(s: seq<T>, i: nat, j: nat)
    requires i < j < |s| && s[i] == s[j]
    ensures multiset(s)[s[i]] >= 2
  {
    assert s == s[..i] + [s[i]] + s[i + 1..j] + [s[j]] + s[j + 1..];
    assert multiset(s) == multiset(s[..i]) + multiset{s[i]} + multiset(s[i + 1..j]) + multiset{s[j]} + multiset(s[j + 1..]);
  }

  /** Reordering cannot create a repeated key. */
  lemma PermutationDistinct<T, K>(a: seq<T>, b: seq<T>, key: T -> K)
    requires multiset(a) == multiset(b) && DistinctBy(a, key)
    ensures DistinctBy(b, key)
  {
    forall i, j | 0 <= i < j < |b| ensures key(b[i]) != key(b[j]) {
      if key(b[i]) == key(b[j]) {
        assert b[i] in multiset(a) by { assert b[i] in multiset(b); }
        assert b[j] in multiset(a) by { assert b[j] in multiset(b); }
        var p :| 0 <= p < |a| && a[p] == b[i];
        var q :| 0 <= q < |a| && a[q] == b[j];
        assert p == q;
        OccursOnce(a, p, key);
        OccursTwice(b, i, j);
        assert false;
      }
    }
  }
}

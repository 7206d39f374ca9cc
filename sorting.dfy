/**
 * The ordering both Go packages hand to `sort.Slice`: a descending order on
 * a key that may fail to read. `Before(key, a, b)` is the comparator of
 * internal/collector/collector.go ("a's CPU read and b's both succeed and
 * a's is larger"); the comparator of internal/metrics/metrics.go is the same
 * one over a key that always reads.
 *
 * `sort.Slice` itself is library code; `SortDesc` is an insertion sort that
 * stands in for it. What callers may rely on is what is proved here: the
 * result is a permutation of the input, and, when every key reads, no later
 * element sorts before an earlier one.
 */
module Sorting {
  import opened Wrappers

  /** The comparator: `a` goes before `b`. */
  predicate Before<T>(key: T -> Option<real>, a: T, b: T) {
    key(a).Some? && key(b).Some? && key(a).value > key(b).value
  }

  /** Every key in `s` reads. */
  ghost predicate AllKeyed<T>(key: T -> Option<real>, s: seq<T>) {
    forall i :: 0 <= i < |s| ==> key(s[i]).Some?
  }

  /** No element sorts before one that precedes it. */
  ghost predicate Sorted<T>(key: T -> Option<real>, s: seq<T>) {
    forall i, j :: 0 <= i < j < |s| ==> !Before(key, s[j], s[i])
  }

  /** Inserts `x` in front of the first element it goes before. */
  function Insert<T>(key: T -> Option<real>, x: T, s: seq<T>): (r: seq<T>)
    ensures multiset(r) == multiset(s) + multiset{x}
  {
    if s == [] then [x]
    else if Before(key, x, s[0]) then [x] + s
    else
      assert s == [s[0]] + s[1..];
      [s[0]] + Insert(key, x, s[1..])
  }

  /** Insertion sort by the comparator: always a permutation of `s`. */
  function SortDesc<T>(key: T -> Option<real>, s: seq<T>): (r: seq<T>)
    ensures multiset(r) == multiset(s)
  {
    if s == [] then []
    else
      assert s == [s[0]] + s[1..];
      Insert(key, s[0], SortDesc(key, s[1..]))
  }

  /** The tail of a sorted, fully keyed sequence is sorted and fully keyed. */
  lemma SortedTail<T>(key: T -> Option<real>, s: seq<T>)
    requires s != [] && AllKeyed(key, s) && Sorted(key, s)
    ensures AllKeyed(key, s[1..]) && Sorted(key, s[1..])
    ensures forall k :: 0 <= k < |s| - 1 ==> !Before(key, s[1..][k], s[0])
  {
    forall i | 0 <= i < |s| - 1 ensures key(s[1..][i]).Some? && !Before(key, s[1..][i], s[0]) {
      assert s[1..][i] == s[i + 1];
    }
    forall i, j | 0 <= i < j < |s| - 1 ensures !Before(key, s[1..][j], s[1..][i]) {
      assert s[1..][i] == s[i + 1] && s[1..][j] == s[j + 1];
    }
  }

  /** A head that nothing in a sorted tail goes before extends it. */
  lemma SortedCons<T>(key: T -> Option<real>, h: T, t: seq<T>)
    requires key(h).Some? && AllKeyed(key, t) && Sorted(key, t)
    requires forall k :: 0 <= k < |t| ==> !Before(key, t[k], h)
    ensures AllKeyed(key, [h] + t) && Sorted(key, [h] + t)
  {
    var r := [h] + t;
    forall i | 0 <= i < |r| ensures key(r[i]).Some? {
      if i > 0 { assert r[i] == t[i - 1]; }
    }
    forall i, j | 0 <= i < j < |r| ensures !Before(key, r[j], r[i]) {
      assert r[j] == t[j - 1];
      if i > 0 { assert r[i] == t[i - 1]; }
    }
  }

  /** Every element of `Insert(key, x, s)` is `x` or an element of `s`. */
  lemma InsertFrom<T>(key: T -> Option<real>, x: T, s: seq<T>, k: nat)
    requires k < |Insert(key, x, s)|
    ensures Insert(key, x, s)[k] == x || Insert(key, x, s)[k] in s
  {
    var r := Insert(key, x, s);
    assert r[k] in multiset(r);
    assert r[k] in multiset(s) + multiset{x};
  }

  lemma {:induction false} InsertSorted<T>(key: T -> Option<real>, x: T, s: seq<T>)
    requires AllKeyed(key, s) && key(x).Some? && Sorted(key, s)
    ensures AllKeyed(key, Insert(key, x, s)) && Sorted(key, Insert(key, x, s))
  {
    if s == [] {
      assert Insert(key, x, s) == [x];
    } else if Before(key, x, s[0]) {
      forall k | 0 <= k < |s| ensures !Before(key, s[k], x) {
        if k > 0 { assert !Before(key, s[k], s[0]); }
      }
      SortedCons(key, x, s);
    } else {
      var t := s[1..];
      SortedTail(key, s);
      InsertSorted(key, x, t);
      var rest := Insert(key, x, t);
      forall k | 0 <= k < |rest| ensures !Before(key, rest[k], s[0]) {
        InsertFrom(key, x, t, k);
        if rest[k] != x {
          var m :| 0 <= m < |t| && t[m] == rest[k];
        }
      }
      SortedCons(key, s[0], rest);
    }
  }

  /** When every key reads, the sort really sorts. */
  lemma {:induction false} SortDescSorted<T>(key: T -> Option<real>, s: seq<T>)
    requires AllKeyed(key, s)
    ensures AllKeyed(key, SortDesc(key, s)) && Sorted(key, SortDesc(key, s))
  {
    if s != [] {
      assert AllKeyed(key, s[1..]) by {
        forall i | 0 <= i < |s[1..]| ensures key(s[1..][i]).Some? {
          assert s[1..][i] == s[i + 1];
        }
      }
      SortDescSorted(key, s[1..]);
      InsertSorted(key, s[0], SortDesc(key, s[1..]));
    }
  }

  /**
   * In a sorted, fully keyed sequence cut at `n`, every element kept has a
   * key at least that of every element dropped.
   */
  lemma PrefixDominates<T>(key: T -> Option<real>, s: seq<T>, n: nat)
    requires AllKeyed(key, s) && Sorted(key, s) && n <= |s|
    ensures forall a, b :: a in s[..n] && b in s[n..] ==> key(b).value <= key(a).value
  {
    forall a, b | a in s[..n] && b in s[n..] ensures key(b).value <= key(a).value {
      var i :| 0 <= i < n && s[..n][i] == a;
      var j :| 0 <= j < |s| - n && s[n..][j] == b;
      assert s[i] == a && s[n + j] == b;
      assert !Before(key, s[n + j], s[i]);
    }
  }
}

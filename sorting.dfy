/**
 * Rust's `sort_by` with a comparator that puts larger keys first, as the
 * process tools call it. The library sort is stable; it is modelled as a
 * stable insertion sort over an abstract integer key, and the lemmas state
 * what makes it the sort the tools rely on: the result is ordered by
 * descending key, is a permutation of the input, and keeps the input order
 * among entries with equal keys.
 */
module Sorting {

  /** `x` goes after every leading entry whose key is at least its own. */
  function Insert<T>(x: T, s: seq<T>, key: T -> int): (r: seq<T>)
    ensures |r| == |s| + 1
  {
    if |s| == 0 then [x]
    else if key(s[0]) >= key(x) then [s[0]] + Insert(x, s[1..], key)
    else [x] + s
  }

  /** The stable descending sort of `s` by `key`. */
  function SortDesc<T>(s: seq<T>, key: T -> int): (r: seq<T>)
    ensures |r| == |s|
  {
    if |s| == 0 then [] else Insert(s[|s| - 1], SortDesc(s[..|s| - 1], key), key)
  }

  predicate Descending<T>(s: seq<T>, key: T -> int) {
    forall i, j :: 0 <= i < j < |s| ==> key(s[i]) >= key(s[j])
  }

  /** The entries of `s` whose key is `v`, in order. */
  function WithKey<T>(s: seq<T>, key: T -> int, v: int): seq<T> {
    if |s| == 0 then [] else (if key(s[0]) == v then [s[0]] else []) + WithKey(s[1..], key, v)
  }

  lemma {:induction false} InsertCount<T>(x: T, s: seq<T>, key: T -> int)
    ensures multiset(Insert(x, s, key)) == multiset(s) + multiset{x}
    ensures |Insert(x, s, key)| == |s| + 1
  {
    if |s| > 0 {
      assert s == [s[0]] + s[1..];
      if key(s[0]) >= key(x) {
        InsertCount(x, s[1..], key);
      }
    }
  }

  /** Inserting keeps every key at or below a bound that `x` and all of `s` respect. */
  lemma {:induction false} InsertBound<T>(x: T, s: seq<T>, key: T -> int, b: int)
    requires key(x) <= b
    requires forall i :: 0 <= i < |s| ==> key(s[i]) <= b
    ensures forall k :: 0 <= k < |Insert(x, s, key)| ==> key(Insert(x, s, key)[k]) <= b
  {
    if |s| > 0 && key(s[0]) >= key(x) {
      InsertBound(x, s[1..], key, b);
    }
  }

  lemma DescendingCons<T>(h: T, rest: seq<T>, key: T -> int)
    requires Descending(rest, key)
    requires forall k :: 0 <= k < |rest| ==> key(rest[k]) <= key(h)
    ensures Descending([h] + rest, key)
  {
    var t := [h] + rest;
    forall i, j | 0 <= i < j < |t| ensures key(t[i]) >= key(t[j]) {
      assert t[j] == rest[j - 1];
      if i > 0 {
        assert t[i] == rest[i - 1];
      }
    }
  }

  lemma {:induction false} InsertDescending<T>(x: T, s: seq<T>, key: T -> int)
    requires Descending(s, key)
    ensures Descending(Insert(x, s, key), key)
  {
    if |s| > 0 {
      if key(s[0]) >= key(x) {
        var rest := Insert(x, s[1..], key);
        DescendingTail(s, key);
        InsertDescending(x, s[1..], key);
        assert forall i :: 0 <= i < |s[1..]| ==> key(s[1..][i]) <= key(s[0]) by {
          forall i | 0 <= i < |s[1..]| ensures key(s[1..][i]) <= key(s[0]) {
            assert s[1..][i] == s[i + 1];
          }
        }
        InsertBound(x, s[1..], key, key(s[0]));
        DescendingCons(s[0], rest, key);
      } else {
        DescendingCons(x, s, key);
      }
    }
  }

  /** The sorted sequence is ordered by descending key and is a permutation of the input. */
  lemma {:induction false} SortDescFacts<T>(s: seq<T>, key: T -> int)
    ensures Descending(SortDesc(s, key), key)
    ensures multiset(SortDesc(s, key)) == multiset(s)
    ensures |SortDesc(s, key)| == |s|
  {
    if |s| > 0 {
      var init := s[..|s| - 1];
      SortDescFacts(init, key);
      InsertCount(s[|s| - 1], SortDesc(init, key), key);
      InsertDescending(s[|s| - 1], SortDesc(init, key), key);
      assert init + [s[|s| - 1]] == s;
    }
  }

  /** The multiset half of `SortDescFacts`, for callers that need nothing about the order. */
  lemma SortDescPermutes<T>(s: seq<T>, key: T -> int)
    ensures multiset(SortDesc(s, key)) == multiset(s)
  {
    SortDescFacts(s, key);
  }

  lemma {:induction false} WithKeyAppend<T>(a: seq<T>, b: seq<T>, key: T -> int, v: int)
    ensures WithKey(a + b, key, v) == WithKey(a, key, v) + WithKey(b, key, v)
  {
    if |a| > 0 {
      assert (a + b)[1..] == a[1..] + b;
      WithKeyAppend(a[1..], b, key, v);
    } else {
      assert a + b == b;
    }
  }

  lemma {:induction false} WithKeyNone<T>(s: seq<T>, key: T -> int, v: int)
    requires forall i :: 0 <= i < |s| ==> key(s[i]) != v
    ensures WithKey(s, key, v) == []
  {
    if |s| > 0 {
      WithKeyNone(s[1..], key, v);
    }
  }

  lemma DescendingTail<T>(s: seq<T>, key: T -> int)
    requires |s| > 0 && Descending(s, key)
    ensures Descending(s[1..], key)
    ensures forall i :: 0 <= i < |s| ==> key(s[i]) <= key(s[0])
  {
    forall i, j | 0 <= i < j < |s| - 1 ensures key(s[1..][i]) >= key(s[1..][j]) {
      assert s[1..][i] == s[i + 1] && s[1..][j] == s[j + 1];
    }
  }

  lemma WithKeyCons<T>(h: T, t: seq<T>, key: T -> int, v: int)
    ensures WithKey([h] + t, key, v) == (if key(h) == v then [h] else []) + WithKey(t, key, v)
  {
    assert ([h] + t)[0] == h && ([h] + t)[1..] == t;
  }

  lemma {:induction false} WithKeyInsert<T>(x: T, s: seq<T>, key: T -> int, v: int)
    requires Descending(s, key)
    ensures WithKey(Insert(x, s, key), key, v) == WithKey(s, key, v) + (if key(x) == v then [x] else [])
  {
    var tail: seq<T> := if key(x) == v then [x] else [];
    if |s| == 0 {
      WithKeyCons(x, [], key, v);
      assert [x] + [] == [x];
    } else {
      DescendingTail(s, key);
      WithKeyCons(s[0], s[1..], key, v);
      assert [s[0]] + s[1..] == s;
      var head: seq<T> := if key(s[0]) == v then [s[0]] else [];
      if key(s[0]) >= key(x) {
        WithKeyInsert(x, s[1..], key, v);
        WithKeyCons(s[0], Insert(x, s[1..], key), key, v);
        calc {
          WithKey(Insert(x, s, key), key, v);
          head + WithKey(Insert(x, s[1..], key), key, v);
          head + (WithKey(s[1..], key, v) + tail);
          (head + WithKey(s[1..], key, v)) + tail;
        }
      } else {
        WithKeyCons(x, s, key, v);
        if key(x) == v {
          WithKeyNone(s, key, v);
        }
      }
    }
  }

  /** Stability: among entries with any one key, the sorted sequence keeps the input order. */
  lemma {:induction false} SortDescStable<T>(s: seq<T>, key: T -> int, v: int)
    ensures WithKey(SortDesc(s, key), key, v) == WithKey(s, key, v)
  {
    if |s| > 0 {
      var init, last := s[..|s| - 1], s[|s| - 1];
      SortDescFacts(init, key);
      SortDescStable(init, key, v);
      WithKeyInsert(last, SortDesc(init, key), key, v);
      assert init + [last] == s;
      WithKeyAppend(init, [last], key, v);
      assert [last][1..] == [];
    }
  }

  /** A prefix of the sorted sequence is still descending and takes each entry at most as often as the input holds it. */
  lemma SortedPrefix<T>(s: seq<T>, key: T -> int, m: nat)
    requires m <= |s|
    ensures Descending(SortDesc(s, key)[..m], key)
    ensures multiset(SortDesc(s, key)[..m]) <= multiset(s)
  {
    var sorted := SortDesc(s, key);
    SortDescFacts(s, key);
    DescendingPrefix(sorted, key, m);
    PrefixMultiset(sorted, m);
  }

  lemma DescendingPrefix<T>(s: seq<T>, key: T -> int, m: nat)
    requires m <= |s| && Descending(s, key)
    ensures Descending(s[..m], key)
  {
    var pre := s[..m];
    forall i, j | 0 <= i < j < |pre| ensures key(pre[i]) >= key(pre[j]) {
      assert pre[i] == s[i] && pre[j] == s[j];
    }
  }

  lemma PrefixMultiset<T>(s: seq<T>, m: nat)
    requires m <= |s|
    ensures multiset(s[..m]) <= multiset(s)
  {
    assert s == s[..m] + s[m..];
    assert multiset(s) == multiset(s[..m]) + multiset(s[m..]);
  }

  /** In a descending sequence every entry of a prefix has a key at least that of every entry after it. */
  lemma PrefixDominates<T>(s: seq<T>, key: T -> int, n: nat, x: T, y: T)
    requires Descending(s, key) && n <= |s|
    requires x in s[..n] && y in s[n..]
    ensures key(x) >= key(y)
  {
    var i :| 0 <= i < n && s[..n][i] == x;
    var j :| 0 <= j < |s| - n && s[n..][j] == y;
    assert s[i] == x && s[n + j] == y;
  }
}

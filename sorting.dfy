/** `items.sort((a, b) => key(b) - key(a))`: JavaScript's `Array.prototype.sort`
    is stable, so with this comparator it orders by descending key and keeps
    the stored order among equal keys. Modelled as an insertion sort whose
    result is characterised by three properties (order, permutation,
    stability), which together determine it uniquely. */
module Sorting {

  /** Keys never increase along `s`. */
  predicate NonIncreasing<T>(s: seq<T>, key: T -> int) {
    forall i, j :: 0 <= i < j < |s| ==> key(s[i]) >= key(s[j])
  }

  /** The elements of `s` whose key is `k`, in their order in `s`. */
  function WithKey<T>(s: seq<T>, key: T -> int, k: int): (r: seq<T>)
    ensures |r| <= |s|
  {
    if s == [] then [] else (if key(s[0]) == k then [s[0]] else []) + WithKey(s[1..], key, k)
  }

  /** Puts `x` before the first element whose key is not greater than its own. */
  function Insert<T>(x: T, s: seq<T>, key: T -> int): (r: seq<T>)
    ensures |r| == |s| + 1
    ensures multiset(r) == multiset(s) + multiset{x}
  {
    if s == [] then [x]
    else if key(x) >= key(s[0]) then [x] + s
    else
      assert s == [s[0]] + s[1..];
      [s[0]] + Insert(x, s[1..], key)
  }

  /** Every key in `s` is at most `v`. */
  predicate KeysAtMost<T>(s: seq<T>, key: T -> int, v: int) {
    forall i :: 0 <= i < |s| ==> key(s[i]) <= v
  }

  /** Putting `y` in front of a non-increasing list whose keys are at most
      `key(y)` keeps it non-increasing. */
  lemma ConsSorted<T>(y: T, s: seq<T>, key: T -> int)
    requires NonIncreasing(s, key) && KeysAtMost(s, key, key(y))
    ensures NonIncreasing([y] + s, key)
  {
    var r := [y] + s;
    forall i, j | 0 <= i < j < |r| ensures key(r[i]) >= key(r[j]) {
      assert r[j] == s[j - 1];
      if i > 0 {
        assert r[i] == s[i - 1];
      }
    }
  }

  /** Insertion into a non-increasing list keeps it non-increasing. */
  lemma {:induction false} InsertSorted<T>(x: T, s: seq<T>, key: T -> int)
    requires NonIncreasing(s, key)
    ensures NonIncreasing(Insert(x, s, key), key)
  {
    if s == [] {
    } else if key(x) >= key(s[0]) {
      ConsSorted(x, s, key);
    } else {
      var tail := s[1..];
      var rest := Insert(x, tail, key);
      InsertSorted(x, tail, key);
      forall j | 0 <= j < |rest| ensures key(rest[j]) <= key(s[0]) {
        assert rest[j] in multiset(rest);
        if rest[j] != x {
          assert rest[j] in multiset(tail);
          var m :| 0 <= m < |tail| && tail[m] == rest[j];
          assert tail[m] == s[m + 1];
        }
      }
      ConsSorted(s[0], rest, key);
    }
  }

  /** Insertion keeps `x` ahead of the elements that share its key. */
  lemma {:induction false} InsertWithKey<T>(x: T, s: seq<T>, key: T -> int, k: int)
    ensures WithKey(Insert(x, s, key), key, k) == WithKey([x] + s, key, k)
  {
    if s != [] && key(x) < key(s[0]) {
      InsertWithKey(x, s[1..], key, k);
      InsertWithKeyStep(x, s, key, k);
    }
  }

  /** The step of `InsertWithKey` past an element with a greater key. */
  lemma InsertWithKeyStep<T>(x: T, s: seq<T>, key: T -> int, k: int)
    requires s != [] && key(x) < key(s[0])
    requires WithKey(Insert(x, s[1..], key), key, k) == WithKey([x] + s[1..], key, k)
    ensures WithKey(Insert(x, s, key), key, k) == WithKey([x] + s, key, k)
  {
    var y, tail := s[0], s[1..];
    var rest := Insert(x, tail, key);
    var hx := if key(x) == k then [x] else [];
    var hy := if key(y) == k then [y] else [];
    calc {
      WithKey(Insert(x, s, key), key, k);
    == { assert Insert(x, s, key) == [y] + rest; }
      WithKey([y] + rest, key, k);
    == { WithKeyCons(y, rest, key, k); }
      hy + WithKey(rest, key, k);
    ==
      hy + WithKey([x] + tail, key, k);
    == { WithKeyCons(x, tail, key, k); }
      hy + (hx + WithKey(tail, key, k));
    == { SwapEmpty(hx, hy, WithKey(tail, key, k)); }
      hx + (hy + WithKey(tail, key, k));
    == { WithKeyCons(y, tail, key, k); assert [y] + tail == s; }
      hx + WithKey(s, key, k);
    == { WithKeyCons(x, s, key, k); }
      WithKey([x] + s, key, k);
    }
  }

  /** One of two prefixes is empty, so their order does not matter. */
  lemma SwapEmpty<T>(h: seq<T>, g: seq<T>, w: seq<T>)
    requires h == [] || g == []
    ensures g + (h + w) == h + (g + w)
  {
    if h == [] {
      assert h + w == w;
      assert h + (g + w) == g + w;
    } else {
      assert g + (h + w) == h + w;
      assert g + w == w;
    }
  }

  /** The key class of `[y] + s`: `y` if it has the key, then that of `s`. */
  lemma WithKeyCons<T>(y: T, s: seq<T>, key: T -> int, k: int)
    ensures WithKey([y] + s, key, k) == (if key(y) == k then [y] else []) + WithKey(s, key, k)
  {
    assert ([y] + s)[1..] == s;
  }

  /** The stable descending sort. */
  function SortDescending<T>(s: seq<T>, key: T -> int): (r: seq<T>)
    ensures |r| == |s|
    ensures NonIncreasing(r, key)
    ensures multiset(r) == multiset(s)
    ensures forall k :: WithKey(r, key, k) == WithKey(s, key, k)
  {
    if s == [] then []
    else
      var rest := SortDescending(s[1..], key);
      assert s == [s[0]] + s[1..];
      InsertSorted(s[0], rest, key);
      InsertKeepsClasses(s, rest, key);
      Insert(s[0], rest, key)
  }

  /** Inserting the head of `s` into a list with the key classes of its tail
      gives the key classes of `s`. */
  lemma InsertKeepsClasses<T>(s: seq<T>, rest: seq<T>, key: T -> int)
    requires s != []
    requires forall k :: WithKey(rest, key, k) == WithKey(s[1..], key, k)
    ensures forall k :: WithKey(Insert(s[0], rest, key), key, k) == WithKey(s, key, k)
  {
    forall k ensures WithKey(Insert(s[0], rest, key), key, k) == WithKey(s, key, k) {
      var h := if key(s[0]) == k then [s[0]] else [];
      calc {
        WithKey(Insert(s[0], rest, key), key, k);
      == { InsertWithKey(s[0], rest, key, k); }
        WithKey([s[0]] + rest, key, k);
      == { WithKeyCons(s[0], rest, key, k); }
        h + WithKey(rest, key, k);
      ==
        h + WithKey(s[1..], key, k);
      == { WithKeyCons(s[0], s[1..], key, k); assert [s[0]] + s[1..] == s; }
        WithKey(s, key, k);
      }
    }
  }

  /** Only elements of `s` with key `k` are picked. */
  lemma {:induction false} WithKeyMember<T>(s: seq<T>, key: T -> int, k: int, y: T)
    requires y in WithKey(s, key, k)
    ensures y in s && key(y) == k
  {
    if s != [] && !(key(s[0]) == k && y == s[0]) {
      WithKeyMember(s[1..], key, k, y);
    }
  }

  /** The first element of a non-empty list heads the elements sharing its key. */
  lemma WithKeyHead<T>(s: seq<T>, key: T -> int)
    requires s != []
    ensures WithKey(s, key, key(s[0])) == [s[0]] + WithKey(s[1..], key, key(s[0]))
  {
  }

  /** Dropping the head removes it from its own key class only. */
  lemma WithKeyTail<T>(s: seq<T>, key: T -> int, k: int)
    requires s != []
    ensures WithKey(s[1..], key, k) == if key(s[0]) == k then WithKey(s, key, k)[1..] else WithKey(s, key, k)
  {
  }

  lemma NonIncreasingTail<T>(s: seq<T>, key: T -> int)
    requires s != [] && NonIncreasing(s, key)
    ensures NonIncreasing(s[1..], key)
  {
    forall i, j | 0 <= i < j < |s| - 1 ensures key(s[1..][i]) >= key(s[1..][j]) {
      assert s[1..][i] == s[i + 1] && s[1..][j] == s[j + 1];
    }
  }

  /** The order, permutation and stability properties determine a sort
      completely: two non-increasing lists that agree on every key class are
      equal. So `SortDescending` is the only result a stable sort can give. */
  lemma {:induction false} StableSortUnique<T>(a: seq<T>, b: seq<T>, key: T -> int)
    requires NonIncreasing(a, key) && NonIncreasing(b, key)
    requires forall k :: WithKey(a, key, k) == WithKey(b, key, k)
    ensures a == b
    decreases |a|
  {
    if a == [] {
      if b != [] {
        WithKeyHead(b, key);
      }
    } else {
      SameHead(a, b, key);
      SameTails(a, b, key);
      NonIncreasingTail(a, key);
      NonIncreasingTail(b, key);
      StableSortUnique(a[1..], b[1..], key);
      assert a == [a[0]] + a[1..] && b == [b[0]] + b[1..];
    }
  }

  /** Two non-increasing lists that agree on every key class start alike: the
      head of each is in the other, so their keys are equal, and it heads its
      key class in both. */
  lemma SameHead<T>(a: seq<T>, b: seq<T>, key: T -> int)
    requires a != [] && NonIncreasing(a, key) && NonIncreasing(b, key)
    requires forall k :: WithKey(a, key, k) == WithKey(b, key, k)
    ensures b != [] && a[0] == b[0]
  {
    var ka := key(a[0]);
    WithKeyHead(a, key);
    assert WithKey(b, key, ka) != [];
    assert b != [];
    var kb := key(b[0]);
    WithKeyHead(b, key);
    assert kb <= ka by {
      assert b[0] in WithKey(a, key, kb);
      WithKeyMember(a, key, kb, b[0]);
      var i :| 0 <= i < |a| && a[i] == b[0];
      assert key(a[0]) >= key(a[i]);
    }
    assert ka <= kb by {
      assert a[0] in WithKey(b, key, ka);
      WithKeyMember(b, key, ka, a[0]);
      var j :| 0 <= j < |b| && b[j] == a[0];
      assert key(b[0]) >= key(b[j]);
    }
    assert a[0] == WithKey(a, key, ka)[0] == WithKey(b, key, ka)[0] == b[0];
  }

  /** Equal heads leave tails that agree on every key class. */
  lemma SameTails<T>(a: seq<T>, b: seq<T>, key: T -> int)
    requires a != [] && b != [] && a[0] == b[0]
    requires forall k :: WithKey(a, key, k) == WithKey(b, key, k)
    ensures forall k :: WithKey(a[1..], key, k) == WithKey(b[1..], key, k)
  {
    forall k ensures WithKey(a[1..], key, k) == WithKey(b[1..], key, k) {
      WithKeyTail(a, key, k);
      WithKeyTail(b, key, k);
    }
  }

  /** Any non-increasing rearrangement that keeps the stored order within each
      key is the result of `SortDescending`. */
  lemma SortDescendingIsTheStableSort<T>(s: seq<T>, r: seq<T>, key: T -> int)
    requires NonIncreasing(r, key)
    requires forall k :: WithKey(r, key, k) == WithKey(s, key, k)
    ensures r == SortDescending(s, key)
  {
    StableSortUnique(r, SortDescending(s, key), key);
  }
}

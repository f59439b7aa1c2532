/**
 * Operations on the Python lists the tracker stores: counting occurrences,
 * repetition, and `list.remove`, which deletes only the first occurrence.
 */
module Lists {

  /** The number of occurrences of `x` in `s`. */
  function Count<T(==)>(s: seq<T>, x: T): nat
  {
    multiset(s)[x]
  }

  lemma CountCons<T>(x: T, s: seq<T>, y: T)
    ensures Count([x] + s, y) == Count(s, y) + (if y == x then 1 else 0)
  {
    assert multiset([x] + s) == multiset([x]) + multiset(s);
  }

  lemma CountSnoc<T>(s: seq<T>, x: T, y: T)
    ensures Count(s + [x], y) == Count(s, y) + (if y == x then 1 else 0)
  {
    assert multiset(s + [x]) == multiset(s) + multiset([x]);
  }

  lemma CountPositive<T>(s: seq<T>, x: T)
    ensures Count(s, x) > 0 <==> x in s
  {
  }

  /** One more copy in front of a run of copies. */
  lemma PrependRepeat<T>(h: seq<T>, x: T, n: nat)
    ensures h + [x] + Repeat(x, n) == h + Repeat(x, n + 1)
  {
    assert Repeat(x, n + 1) == [x] + Repeat(x, n);
    assert h + [x] + Repeat(x, n) == h + ([x] + Repeat(x, n));
  }

  /** `n` copies of `x`. */
  function Repeat<T>(x: T, n: nat): (r: seq<T>)
    ensures |r| == n
  {
    if n == 0 then [] else [x] + Repeat(x, n - 1)
  }

  lemma {:induction false} RepeatCount<T>(x: T, n: nat, y: T)
    ensures Count(Repeat(x, n), y) == if y == x then n else 0
  {
    if n > 0 {
      RepeatCount(x, n - 1, y);
      assert Repeat(x, n) == [x] + Repeat(x, n - 1);
      assert multiset(Repeat(x, n)) == multiset([x]) + multiset(Repeat(x, n - 1));
    }
  }

  /**
   * Python's `list.remove(x)`: scans from the front and deletes the first
   * element equal to `x`. On a list without `x` Python raises ValueError;
   * callers check membership first and model that exception themselves.
   */
  function RemoveFirst<T(==)>(s: seq<T>, x: T): (r: seq<T>)
    requires x in s
    ensures |r| == |s| - 1
  {
    if s[0] == x then s[1..] else [s[0]] + RemoveFirst(s[1..], x)
  }

  /** `RemoveFirst` takes away exactly one `x` and nothing else. */
  lemma {:induction false} RemoveFirstMultiset<T>(s: seq<T>, x: T)
    requires x in s
    ensures multiset(RemoveFirst(s, x)) == multiset(s) - multiset{x}
  {
    assert s == [s[0]] + s[1..];
    if s[0] != x {
      RemoveFirstMultiset(s[1..], x);
    }
  }

  /**
   * `RemoveFirst` deletes the first occurrence and keeps the order of
   * everything else: with no `x` before it, the `x` after `pre` is the one removed.
   */
  lemma {:induction false} RemoveFirstIsFirst<T>(pre: seq<T>, x: T, post: seq<T>)
    requires x !in pre
    ensures RemoveFirst(pre + [x] + post, x) == pre + post
    decreases |pre|
  {
    var s := pre + [x] + post;
    if pre == [] {
      assert s == [x] + post;
      assert s[0] == x && s[1..] == post;
    } else {
      var tail := pre[1..] + [x] + post;
      assert s == [pre[0]] + tail;
      assert s[0] == pre[0] && s[1..] == tail;
      assert s[0] != x;
      assert RemoveFirst(s, x) == [s[0]] + RemoveFirst(tail, x);
      RemoveFirstIsFirst(pre[1..], x, post);
      assert pre == [pre[0]] + pre[1..];
    }
  }

  /** `s` with every occurrence of `x` taken out and the order of the rest kept. */
  function Without<T(==)>(s: seq<T>, x: T): (r: seq<T>)
    ensures x !in r
    decreases |s|
  {
    if s == [] then [] else (if s[0] == x then [] else [s[0]]) + Without(s[1..], x)
  }

  /** Removing the first `x` does not disturb the order of the other elements. */
  lemma {:induction false} WithoutRemoveFirst<T>(s: seq<T>, x: T)
    requires x in s
    ensures Without(RemoveFirst(s, x), x) == Without(s, x)
    decreases |s|
  {
    if s[0] != x {
      var r := RemoveFirst(s[1..], x);
      WithoutRemoveFirst(s[1..], x);
      assert ([s[0]] + r)[0] == s[0] && ([s[0]] + r)[1..] == r;
    }
  }

  /** A list without `x` is its own `Without`. */
  lemma {:induction false} WithoutAbsent<T>(s: seq<T>, x: T)
    requires x !in s
    ensures Without(s, x) == s
    decreases |s|
  {
    if s != [] {
      WithoutAbsent(s[1..], x);
      assert s == [s[0]] + s[1..];
    }
  }
}

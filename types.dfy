/** Shared value types: fixed-width integers, optional values, errors, and
    the order-preserving filter that models Rust's `retain`/`extract_if`
    and JavaScript's `Array.prototype.filter`. */
module Types {

  /** Rust's `u32`. */
  const U32_LIMIT: int := 0x1_0000_0000
  type U32 = x: int | 0 <= x < 0x1_0000_0000

  /** `u32::wrapping_add(1)`: the successor modulo 2^32. */
  function WrappingInc(x: U32): (r: U32)
    ensures r == (x + 1) % U32_LIMIT
    ensures r == 0 <==> x == U32_LIMIT - 1
  {
    if x == U32_LIMIT - 1 then 0 else x + 1
  }

  datatype Option<+T> = None | Some(value: T)

  datatype Result<+T, +E> = Ok(value: T) | Err(error: E)

  /** A command a bot sends to the server (tokyo's `GameCommand`). */
  datatype Command = Rotate(angle: real) | Throttle(throttle: real) | Fire

  function Get<K, V>(m: map<K, V>, k: K, default: V): V
  {
    if k in m then m[k] else default
  }

  /** The elements of `s` that satisfy `keep`, in their original order. */
  function Filter<T>(s: seq<T>, keep: T -> bool): (r: seq<T>)
    ensures |r| <= |s|
    decreases |s|
  {
    if s == [] then []
    else Filter(s[..|s| - 1], keep) + (if keep(s[|s| - 1]) then [s[|s| - 1]] else [])
  }

  /** Everything `Filter` keeps satisfies `keep`. */
  lemma {:induction false} FilterSatisfies<T>(s: seq<T>, keep: T -> bool)
    ensures forall k :: 0 <= k < |Filter(s, keep)| ==> keep(Filter(s, keep)[k])
    decreases |s|
  {
    if s != [] {
      FilterSatisfies(s[..|s| - 1], keep);
    }
  }

  /** `Filter` keeps exactly the elements of `s` that satisfy `keep`. */
  lemma {:induction false} FilterMembers<T>(s: seq<T>, keep: T -> bool)
    ensures forall k :: 0 <= k < |Filter(s, keep)| ==> Filter(s, keep)[k] in s && keep(Filter(s, keep)[k])
    ensures forall k :: 0 <= k < |s| && keep(s[k]) ==> s[k] in Filter(s, keep)
    decreases |s|
  {
    if s != [] {
      var s' := s[..|s| - 1];
      FilterMembers(s', keep);
      assert s == s' + [s[|s| - 1]];
      forall k | 0 <= k < |s| && keep(s[k])
        ensures s[k] in Filter(s, keep)
      {
        if k < |s'| {
          assert s[k] == s'[k];
        }
      }
    }
  }

  lemma FilterAppend<T>(s: seq<T>, x: T, keep: T -> bool)
    ensures Filter(s + [x], keep) == Filter(s, keep) + (if keep(x) then [x] else [])
  {
    assert (s + [x])[..|s + [x]| - 1] == s;
  }

  /** `s` with `f` applied to every element, in order. */
  function Map<T, U>(s: seq<T>, f: T -> U): (r: seq<U>)
    ensures |r| == |s|
    ensures forall k :: 0 <= k < |s| ==> r[k] == f(s[k])
    decreases |s|
  {
    if s == [] then [] else Map(s[..|s| - 1], f) + [f(s[|s| - 1])]
  }

  lemma MapConcat<T, U>(a: seq<T>, b: seq<T>, f: T -> U)
    ensures Map(a + b, f) == Map(a, f) + Map(b, f)
  {
  }

  lemma MapMap<T, U, V>(s: seq<T>, f: T -> U, g: U -> V, h: T -> V)
    requires forall x :: h(x) == g(f(x))
    ensures Map(Map(s, f), g) == Map(s, h)
  {
  }

  /** The keys of the first `n` elements of `s`, counted with multiplicity. */
  function BagOf<T, K>(s: seq<T>, key: T -> K, n: nat): multiset<K>
    requires n <= |s|
  {
    if n == 0 then multiset{} else BagOf(s, key, n - 1) + multiset{key(s[n - 1])}
  }

  /** The keys of the elements of `s`, counted with multiplicity. */
  function Bag<T, K>(s: seq<T>, key: T -> K): multiset<K>
  {
    BagOf(s, key, |s|)
  }

  /** Only the first `n` elements count towards `BagOf(s, key, n)`. */
  lemma {:induction false} BagOfPrefix<T, K>(s: seq<T>, t: seq<T>, key: T -> K, n: nat)
    requires n <= |s| && n <= |t|
    requires forall k :: 0 <= k < n ==> s[k] == t[k]
    ensures BagOf(s, key, n) == BagOf(t, key, n)
  {
    if n > 0 {
      BagOfPrefix(s, t, key, n - 1);
    }
  }

  lemma BagSnoc<T, K>(a: seq<T>, x: T, key: T -> K)
    ensures Bag(a + [x], key) == Bag(a, key) + multiset{key(x)}
  {
    BagOfPrefix(a + [x], a, key, |a|);
  }

  lemma {:induction false} BagConcat<T, K>(a: seq<T>, b: seq<T>, key: T -> K)
    ensures Bag(a + b, key) == Bag(a, key) + Bag(b, key)
    decreases |b|
  {
    if b == [] {
      assert a + b == a;
    } else {
      var b' := b[..|b| - 1];
      var x := b[|b| - 1];
      assert a + b == (a + b') + [x];
      BagSnoc(a + b', x, key);
      BagSnoc(b', x, key);
      assert b == b' + [x];
      BagConcat(a, b', key);
    }
  }

  /** `Bag` is the multiset of the mapped sequence. */
  lemma {:induction false} BagIsMultiset<T, K>(s: seq<T>, key: T -> K)
    ensures Bag(s, key) == multiset(Map(s, key))
    decreases |s|
  {
    if s != [] {
      var s' := s[..|s| - 1];
      BagIsMultiset(s', key);
      BagOfPrefix(s, s', key, |s'|);
    }
  }

  /** Mapping through a function that keeps the key keeps the bag. */
  lemma {:induction false} BagOfMap<T, U, K>(s: seq<T>, f: T -> U, key: U -> K, key0: T -> K, n: nat)
    requires n <= |s|
    requires forall x :: key(f(x)) == key0(x)
    ensures BagOf(Map(s, f), key, n) == BagOf(s, key0, n)
  {
    if n > 0 {
      BagOfMap(s, f, key, key0, n - 1);
    }
  }

  lemma BagMap<T, U, K>(s: seq<T>, f: T -> U, key: U -> K, key0: T -> K)
    requires forall x :: key(f(x)) == key0(x)
    ensures Bag(Map(s, f), key) == Bag(s, key0)
  {
    BagOfMap(s, f, key, key0, |s|);
  }

  /** Filtering by `keep` and by its negation splits the bag of `s`. */
  lemma {:induction false} BagPartition<T, K>(s: seq<T>, keep: T -> bool, drop: T -> bool,
                                             key: T -> K)
    requires forall x :: drop(x) == !keep(x)
    ensures Bag(Filter(s, keep), key) + Bag(Filter(s, drop), key) == Bag(s, key)
    decreases |s|
  {
    if s != [] {
      var s' := s[..|s| - 1];
      var x := s[|s| - 1];
      BagPartition(s', keep, drop, key);
      assert s == s' + [x];
      BagSnoc(s', x, key);
      if keep(x) {
        assert Filter(s, keep) == Filter(s', keep) + [x];
        assert Filter(s, drop) == Filter(s', drop);
        BagSnoc(Filter(s', keep), x, key);
      } else {
        assert Filter(s, keep) == Filter(s', keep);
        assert Filter(s, drop) == Filter(s', drop) + [x];
        BagSnoc(Filter(s', drop), x, key);
      }
    }
  }

  /** `Vec::remove(i)`: `s` without its element at `i`, the later elements
      shifted down by one. */
  function RemoveAt<T>(s: seq<T>, i: nat): (r: seq<T>)
    requires i < |s|
    ensures |r| == |s| - 1
    ensures forall k :: 0 <= k < i ==> r[k] == s[k]
    ensures forall k :: i <= k < |r| ==> r[k] == s[k + 1]
  {
    seq(|s| - 1, k requires 0 <= k < |s| - 1 => if k < i then s[k] else s[k + 1])
  }

  /** `r` is `s` with the element at `i` taken out: the first `m - 1`
      elements of `r` hold the keys of the first `m` of `s` but one. */
  lemma {:induction false} BagOfShift<T, K>(s: seq<T>, r: seq<T>, i: nat, key: T -> K, m: nat)
    requires i < m <= |s| && |r| == |s| - 1
    requires forall k :: 0 <= k < i ==> r[k] == s[k]
    requires forall k :: i <= k < |r| ==> r[k] == s[k + 1]
    ensures BagOf(r, key, m - 1) + multiset{key(s[i])} == BagOf(s, key, m)
  {
    if m == i + 1 {
      BagOfPrefix(r, s, key, i);
    } else {
      BagOfShift(s, r, i, key, m - 1);
    }
  }

  /** Removing the element at `i` takes its key out of the bag. */
  lemma BagRemoveAt<T, K>(s: seq<T>, i: nat, key: T -> K)
    requires i < |s|
    ensures Bag(RemoveAt(s, i), key) == Bag(s, key) - multiset{key(s[i])}
  {
    BagOfShift(s, RemoveAt(s, i), i, key, |s|);
  }

  /** `n` copies of `x`. */
  function Copies<T>(x: T, n: nat): (r: seq<T>)
    ensures |r| == n
    ensures forall k :: 0 <= k < n ==> r[k] == x
  {
    seq(n, _ => x)
  }

  /** The number of occurrences of `x` in `s`. */
  function Count<T(==)>(s: seq<T>, x: T): (n: nat)
    ensures n <= |s|
    ensures n == 0 <==> x !in s
    decreases |s|
  {
    if s == [] then 0
    else Count(s[..|s| - 1], x) + (if s[|s| - 1] == x then 1 else 0)
  }
}

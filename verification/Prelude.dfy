/** Small shared vocabulary: optional values and bounds. */
module Prelude {
  datatype Option<+T> = None | Some(value: T)

  function Max(a: int, b: int): int { if a >= b then a else b }

  function Min(a: int, b: int): int { if a <= b then a else b }

  function MaxR(a: real, b: real): real { if a >= b then a else b }

  function AbsR(a: real): real { if a >= 0.0 then a else -a }

  /** The largest element of a non-empty sequence. */
  function MaxOf(ts: seq<int>): (m: int)
    requires ts != []
    ensures m in ts && forall t | t in ts :: t <= m
  {
    if |ts| == 1 then ts[0]
    else
      assert forall t | t in ts :: t == ts[0] || t in ts[1..];
      Max(ts[0], MaxOf(ts[1..]))
  }

  function Once(b: bool): nat { if b then 1 else 0 }

  function Front<T>(s: seq<T>): seq<T>
    requires s != []
  {
    s[..|s| - 1]
  }

  function Last<T>(s: seq<T>): T
    requires s != []
  {
    s[|s| - 1]
  }

  function Reversed<T>(s: seq<T>): (r: seq<T>)
    ensures |r| == |s|
  {
    if s == [] then [] else [s[|s| - 1]] + Reversed(s[..|s| - 1])
  }

  lemma {:induction false} ReversedAt<T>(s: seq<T>, i: nat)
    requires i < |s|
    ensures Reversed(s)[i] == s[|s| - 1 - i]
  {
    if i == 0 {
    } else {
      ReversedAt(s[..|s| - 1], i - 1);
    }
  }

  lemma ReversedTwice<T>(s: seq<T>)
    ensures Reversed(Reversed(s)) == s
  {
    forall i | 0 <= i < |s| ensures Reversed(Reversed(s))[i] == s[i] {
      ReversedAt(Reversed(s), i);
      ReversedAt(s, |s| - 1 - i);
    }
  }

  /** Pushing at one end of a list is pushing at the other end of its reverse. */
  lemma {:induction false} ReversedPush<T>(s: seq<T>, x: T)
    ensures Reversed([x] + s) == Reversed(s) + [x]
    ensures Reversed(s + [x]) == [x] + Reversed(s)
  {
    assert (s + [x])[..|s|] == s;
    if s == [] {
      assert [x] + s == [x];
    } else {
      ReversedPush(s[..|s| - 1], x);
      assert ([x] + s)[..|s|] == [x] + s[..|s| - 1];
    }
  }

  function Iterate<T>(f: T -> T, x: T, n: nat): T { if n == 0 then x else f(Iterate(f, x, n - 1)) }

  lemma {:induction false} IterateMore<T>(f: T -> T, x: T, m: nat, n: nat)
    ensures Iterate(f, Iterate(f, x, m), n) == Iterate(f, x, m + n)
  {
    if n == 0 {
    } else {
      IterateMore(f, x, m, n - 1);
    }
  }

  /** Two lists of the same elements: where the last one of the first stands in the second. */
  lemma Locate<T>(a: seq<T>, b: seq<T>) returns (l: seq<T>, r: seq<T>)
    requires a != [] && multiset(a) == multiset(b)
    ensures b == l + [Last(a)] + r && multiset(Front(a)) == multiset(l + r)
  {
    assert a == Front(a) + [Last(a)];
    assert Last(a) in multiset(b);
    var k :| 0 <= k < |b| && b[k] == Last(a);
    l, r := b[..k], b[k + 1..];
    assert b == l + [Last(a)] + r;
    DropOne(Front(a), Last(a), l, r);
  }

  lemma DropOne<T>(init: seq<T>, x: T, l: seq<T>, r: seq<T>)
    requires multiset(init + [x]) == multiset(l + [x] + r)
    ensures multiset(init) == multiset(l + r)
  {
    assert multiset(init) == multiset(init + [x]) - multiset{x};
    assert multiset(l + r) == multiset(l + [x] + r) - multiset{x};
  }

  // ---- Arithmetic ----

  lemma MulMono(a: int, b: int, d: nat)
    requires a <= b
    ensures a * d <= b * d
  {}

  /** The quotient is pinned by its bounds, so no later proof needs to reason about division. */
  lemma DivUnique(x: nat, d: nat, k: nat)
    requires d > 0 && k * d <= x < k * d + d
    ensures x / d == k
  {
    var q, r := x / d, x % d;
    assert x == q * d + r;
    if q < k { MulMono(q + 1, k, d); }
    if q > k { MulMono(k + 1, q, d); }
  }

  /** h mod n (PickIsMod), written by repeated subtraction to keep division out of the proofs. */
  function Pick(h: nat, n: nat): (r: nat)
    requires n > 0
    ensures r < n
  {
    if h < n then h else Pick(h - n, n)
  }

  lemma {:induction false} PickIsMod(h: nat, n: nat)
    requires n > 0
    ensures Pick(h, n) == h % n
  {
    var q := PickMultiple(h, n);
    DivUnique(h, n, q);
  }

  lemma {:induction false} PickMultiple(h: nat, n: nat) returns (q: nat)
    requires n > 0
    ensures h == q * n + Pick(h, n)
  {
    if h < n {
      q := 0;
    } else {
      var k := PickMultiple(h - n, n);
      q := k + 1;
      assert q * n == k * n + n;
    }
  }
}

/** Key rotation (internal/providers/keyring.go): distinct keys handed out round robin by a 64-bit counter. */
module Keyrings {
  const WRAP: nat := 0x1_0000_0000_0000_0000

  // ---------------------------------------------------------------- the keys of a ring

  /** The keys without empty ones and repetitions, in order of first occurrence. */
  function Unique(keys: seq<string>): seq<string> {
    if keys == [] then []
    else
      var init, last := keys[..|keys| - 1], keys[|keys| - 1];
      if last == "" || last in init then Unique(init) else Unique(init) + [last]
  }

  ghost predicate AllDifferent(keys: seq<string>) {
    forall i, j :: 0 <= i < j < |keys| ==> keys[i] != keys[j]
  }

  ghost predicate FirstAt(keys: seq<string>, x: string, i: nat) {
    i < |keys| && keys[i] == x && x !in keys[..i]
  }

  lemma {:induction false} UniqueKeepsEachKeyOnce(keys: seq<string>)
    ensures AllDifferent(Unique(keys))
    ensures forall x :: x in Unique(keys) <==> x != "" && x in keys
  {
    if keys != [] {
      var init := keys[..|keys| - 1];
      UniqueKeepsEachKeyOnce(init);
      assert keys == init + [keys[|keys| - 1]];
    }
  }

  /** Of two keys, the one that was configured first comes first. */
  lemma {:induction false} UniqueKeepsOrder(keys: seq<string>, a: nat, b: nat, i: nat, j: nat)
    requires a < b < |Unique(keys)| && FirstAt(keys, Unique(keys)[a], i) && FirstAt(keys, Unique(keys)[b], j)
    ensures i < j
  {
    var n := |keys| - 1;
    var init := keys[..n];
    UniqueKeepsEachKeyOnce(init);
    assert keys == init + [keys[n]];
    assert Unique(keys)[a] in Unique(init);
    assert i < n by {
      assert Unique(keys)[a] in init;
    }
    if b < |Unique(init)| {
      assert Unique(keys)[b] in Unique(init) && Unique(keys)[b] in init;
      assert j < n;
      assert init[..i] == keys[..i] && init[..j] == keys[..j];
      UniqueKeepsOrder(init, a, b, i, j);
    } else {
      assert Unique(keys)[b] == keys[n] && keys[n] !in init;
      assert forall l :: 0 <= l < n ==> keys[l] in init;
    }
  }

  class Keyring {
    const keys: seq<string>
    var next: nat

    ghost predicate Valid()
      reads this
    {
      keys != [] && AllDifferent(keys) && next < WRAP
    }

    constructor (keys: seq<string>)
      requires keys != [] && AllDifferent(keys)
      ensures Valid() && this.keys == keys && next == 0
    {
      this.keys, next := keys, 0;
    }
  }

  /** No ring if no usable key remains. */
  method NewKeyring(keys: seq<string>) returns (ring: Keyring?)
    ensures ring == null <==> forall x :: x in keys ==> x == ""
    ensures ring != null ==> fresh(ring) && ring.Valid() && ring.keys == Unique(keys) && ring.next == 0
  {
    var unique: seq<string> := [];
    var seen: set<string> := {};
    for i := 0 to |keys|
      invariant unique == Unique(keys[..i])
      invariant forall x :: x in seen <==> x != "" && x in keys[..i]
    {
      assert keys[..i + 1][..i] == keys[..i];
      var key := keys[i];
      if key == "" {
        continue;
      }
      if key in seen {
        continue;
      }
      seen := seen + {key};
      unique := unique + [key];
    }
    assert keys[..|keys|] == keys;
    UniqueKeepsEachKeyOnce(keys);
    if |unique| == 0 {
      forall x | x in keys ensures x == "" {
        assert x !in Unique(keys);
      }
      return null;
    }
    assert unique[0] in Unique(keys);
    ring := new Keyring(unique);
  }

  /** The 64-bit counter wraps around. */
  function Succ(counter: nat): nat {
    if counter + 1 == WRAP then 0 else counter + 1
  }

  /** A nil ring has no key; a single key needs no counter; otherwise the counter picks the key and moves on. */
  method Next(ring: Keyring?) returns (key: string)
    requires ring != null ==> ring.Valid()
    modifies ring
    ensures ring == null ==> key == ""
    ensures ring != null ==> ring.Valid() && key == Drawn(ring.keys, old(ring.next))
    ensures ring != null ==> ring.next == if |ring.keys| == 1 then old(ring.next) else Succ(old(ring.next))
  {
    if ring == null {
      return "";
    }
    if |ring.keys| == 1 {
      return ring.keys[0];
    }
    var i := ring.next;
    ring.next := Succ(i);
    return ring.keys[i % |ring.keys|];
  }

  // ---------------------------------------------------------------- many calls

  function Drawn(keys: seq<string>, counter: nat): string
    requires keys != []
  {
    keys[counter % |keys|]
  }

  /** What m calls in a row hand out. */
  function Draws(keys: seq<string>, counter: nat, m: nat): (drawn: seq<string>)
    requires keys != []
    ensures |drawn| == m
    decreases m
  {
    if m == 0 then [] else [Drawn(keys, counter)] + Draws(keys, Succ(counter), m - 1)
  }

  lemma {:induction false} OneKeyDraws(keys: seq<string>, c: nat, d: nat, m: nat)
    requires |keys| == 1
    ensures Draws(keys, c, m) == Draws(keys, d, m)
    decreases m
  {
    if m > 0 {
      OneKeyDraws(keys, Succ(c), Succ(d), m - 1);
    }
  }

  /** Any number of Next calls in a row draws these keys. */
  method CallNext(ring: Keyring, m: nat) returns (drawn: seq<string>)
    requires ring.Valid()
    modifies ring
    ensures ring.Valid() && drawn == Draws(ring.keys, old(ring.next), m)
  {
    drawn := [];
    for i := 0 to m
      invariant ring.Valid() && drawn + Draws(ring.keys, ring.next, m - i) == Draws(ring.keys, old(ring.next), m)
    {
      ghost var counter := ring.next;
      var key := Next(ring);
      if |ring.keys| == 1 {
        OneKeyDraws(ring.keys, Succ(counter), ring.next, m - i - 1);
      }
      assert Draws(ring.keys, counter, m - i) == [key] + Draws(ring.keys, ring.next, m - i - 1);
      drawn := drawn + [key];
    }
  }

  function Count(s: seq<string>, x: string): nat {
    if s == [] then 0 else (if s[0] == x then 1 else 0) + Count(s[1..], x)
  }

  // ---------------------------------------------------------------- division

  lemma MultiplesAreApart(d: int, n: int)
    requires n > 0
    ensures d == 0 || d * n >= n || d * n <= -n
  {
    if d >= 1 {
      assert (d - 1) * n >= 0;
      assert d * n == (d - 1) * n + n;
    } else if d <= -1 {
      assert (-1 - d) * n >= 0;
      assert d * n == -((-1 - d) * n) - n;
    }
  }

  lemma QuotientIs(c: nat, n: nat, q: nat, r: nat)
    requires n > 0 && r < n && c == q * n + r
    ensures c / n == q && c % n == r
  {
    var q', r' := c / n, c % n;
    assert c == q' * n + r';
    assert (q - q') * n == q * n - q' * n;
    MultiplesAreApart(q - q', n);
  }

  lemma NextQuotient(c: nat, n: nat)
    requires n > 0
    ensures c % n + 1 < n ==> (c + 1) / n == c / n && (c + 1) % n == c % n + 1
    ensures c % n + 1 >= n ==> (c + 1) / n == c / n + 1 && (c + 1) % n == 0
  {
    var q, r := c / n, c % n;
    assert c == q * n + r;
    if r + 1 < n {
      QuotientIs(c + 1, n, q, r + 1);
    } else {
      assert (q + 1) * n == q * n + n;
      QuotientIs(c + 1, n, q + 1, 0);
    }
  }

  // ---------------------------------------------------------------- fairness

  /** The number of counters below c that pick the k-th of n keys. */
  function PicksBelow(c: nat, n: nat, k: nat): nat
    requires k < n
  {
    c / n + if c % n > k then 1 else 0
  }

  lemma PickOneMore(c: nat, n: nat, k: nat)
    requires k < n
    ensures PicksBelow(c + 1, n, k) == PicksBelow(c, n, k) + if c % n == k then 1 else 0
  {
    NextQuotient(c, n);
  }

  lemma SuccKeepsRemainder(counter: nat, v: nat, n: nat)
    requires n > 0 && counter % n == v % n && (counter + 1 < WRAP || WRAP % n == 0)
    ensures Succ(counter) % n == (v + 1) % n
  {
    NextQuotient(counter, n);
    NextQuotient(v, n);
  }

  /** Counting as if the counter were `v` and did not wrap. */
  lemma {:induction false} CountIsPicks(keys: seq<string>, counter: nat, v: nat, m: nat, k: nat)
    requires AllDifferent(keys) && k < |keys| && counter % |keys| == v % |keys|
    requires counter + m <= WRAP || WRAP % |keys| == 0
    ensures Count(Draws(keys, counter, m), keys[k]) == PicksBelow(v + m, |keys|, k) - PicksBelow(v, |keys|, k)
    decreases m
  {
    if m > 0 {
      var rest := Draws(keys, Succ(counter), m - 1);
      assert Draws(keys, counter, m)[1..] == rest;
      PickOneMore(v, |keys|, k);
      if m > 1 || WRAP % |keys| == 0 {
        SuccKeepsRemainder(counter, v, |keys|);
        CountIsPicks(keys, Succ(counter), v + 1, m - 1, k);
      }
    }
  }

  /** The count lies between the two roundings of m / n. */
  predicate Fair(count: int, m: nat, n: nat)
    requires n > 0
  {
    m / n <= count <= m / n + if m % n == 0 then 0 else 1
  }

  lemma PicksAreFair(start: nat, m: nat, n: nat, k: nat)
    requires k < n
    ensures Fair(PicksBelow(start + m, n, k) - PicksBelow(start, n, k), m, n)
  {
    var q, r, a, b := start / n, start % n, m / n, m % n;
    SumQuotient(start, m, n);
    if r + b < n {
      assert PicksBelow(start + m, n, k) == q + a + if r + b > k then 1 else 0;
    } else {
      assert PicksBelow(start + m, n, k) == q + a + 1 + if r + b - n > k then 1 else 0;
    }
  }

  lemma SumQuotient(c: nat, d: nat, n: nat)
    requires n > 0
    ensures c % n + d % n < n ==> (c + d) / n == c / n + d / n && (c + d) % n == c % n + d % n
    ensures c % n + d % n >= n ==> (c + d) / n == c / n + d / n + 1 && (c + d) % n == c % n + d % n - n
  {
    SumOfParts(c, d, n, c / n, c % n, d / n, d % n);
  }

  lemma SumOfParts(c: nat, d: nat, n: nat, q: nat, r: nat, a: nat, b: nat)
    requires r < n && b < n && c == q * n + r && d == a * n + b
    ensures r + b < n ==> (c + d) / n == q + a && (c + d) % n == r + b
    ensures r + b >= n ==> (c + d) / n == q + a + 1 && (c + d) % n == r + b - n
  {
    Distribute(q, a, n);
    Distribute(q + a, 1, n);
    if r + b < n {
      QuotientIs(c + d, n, q + a, r + b);
    } else {
      QuotientIs(c + d, n, q + a + 1, r + b - n);
    }
  }

  lemma Distribute(a: int, b: int, n: int)
    ensures (a + b) * n == a * n + b * n
  {
  }

  /** Any m calls in a row hand out each of n keys m / n times, rounded down or up, as long as the counter does not
      wrap. */
  lemma RotationIsFair(keys: seq<string>, start: nat, m: nat, k: nat)
    requires AllDifferent(keys) && k < |keys| && start + m <= WRAP
    ensures Fair(Count(Draws(keys, start, m), keys[k]), m, |keys|)
  {
    CountIsPicks(keys, start, start, m, k);
    PicksAreFair(start, m, |keys|, k);
  }

  lemma {:induction false} CountSees(s: seq<string>, x: string, i: nat)
    requires i < |s| && s[i] == x
    ensures Count(s, x) >= 1
  {
    if i > 0 {
      CountSees(s[1..], x, i - 1);
    }
  }

  lemma {:induction false} DrawAfterWrap(keys: seq<string>, start: nat, m: nat)
    requires keys != [] && start < WRAP && start + m == WRAP
    ensures Draws(keys, start, m + 1)[m] == keys[0]
    decreases m
  {
    var rest := Draws(keys, Succ(start), m);
    assert Draws(keys, start, m + 1)[m] == rest[m - 1];
    if m > 1 {
      DrawAfterWrap(keys, start + 1, m - 1);
    } else {
      assert Draws(keys, 0, 1)[0] == Drawn(keys, 0);
    }
  }

  ghost predicate AlwaysFair(keys: seq<string>)
    requires keys != []
  {
    forall start: nat, m: nat, k: nat :: start < WRAP && k < |keys| ==>
      Fair(Count(Draws(keys, start, m), keys[k]), m, |keys|)
  }

  /** A run of no more calls than keys, with the first key on both sides of the wrap. */
  lemma WrapIsUnfair(keys: seq<string>, start: nat, r: nat)
    requires 0 < r < |keys| && start + r == WRAP && start % |keys| == 0
    ensures !Fair(Count(Draws(keys, start, r + 1), keys[0]), r + 1, |keys|)
  {
    var s := Draws(keys, start, r + 1);
    DrawAfterWrap(keys, start, r);
    assert s[1..][r - 1] == keys[0];
    CountSees(s[1..], keys[0], r - 1);
    assert Count(s, keys[0]) >= 2;
    if r + 1 < |keys| {
      QuotientIs(r + 1, |keys|, 0, r + 1);
    } else {
      QuotientIs(r + 1, |keys|, 1, 0);
    }
  }

  /** Past the wrap the first key can come again too early: rotation is always fair only if the number of keys divides
      2^64. */
  lemma FairAcrossTheWrapIff(keys: seq<string>)
    requires AllDifferent(keys) && 0 < |keys| < WRAP
    ensures AlwaysFair(keys) <==> WRAP % |keys| == 0
  {
    if WRAP % |keys| == 0 {
      forall start: nat, m: nat, k: nat | start < WRAP && k < |keys|
        ensures Fair(Count(Draws(keys, start, m), keys[k]), m, |keys|)
      {
        CountIsPicks(keys, start, start, m, k);
        PicksAreFair(start, m, |keys|, k);
      }
    } else {
      var r := WRAP % |keys|;
      MultipleBelow(WRAP, |keys|);
      WrapIsUnfair(keys, WRAP - r, r);
    }
  }

  lemma MultipleBelow(c: nat, n: nat)
    requires n > 0
    ensures c % n <= c && (c - c % n) % n == 0
  {
    var q, r := c / n, c % n;
    assert c == q * n + r;
    QuotientIs(c - r, n, q, 0);
  }

  /** With three keys, the two calls around the wrap hand out the same one. */
  lemma ThreeKeysAtTheWrap(keys: seq<string>)
    requires |keys| == 3
    ensures Draws(keys, WRAP - 1, 2) == [keys[0], keys[0]]
  {
    assert Draws(keys, 0, 1) == [Drawn(keys, 0)];
    assert (WRAP - 1) % 3 == 0;
  }

  lemma {:induction false} DrawsFrom(keys: seq<string>, start: nat, m: nat, k: nat)
    requires keys != [] && k < m && start + m <= WRAP
    ensures Draws(keys, start, m)[k] == keys[(start + k) % |keys|]
    decreases m
  {
    if k > 0 {
      DrawsFrom(keys, start + 1, m - 1, k - 1);
      assert start + 1 + (k - 1) == start + k;
    }
  }

  /** A new ring hands out its keys in their order, and then again. */
  lemma NewRingDrawsInOrder(keys: seq<string>, m: nat, k: nat)
    requires keys != [] && k < m <= WRAP
    ensures Draws(keys, 0, m)[k] == keys[k % |keys|]
  {
    DrawsFrom(keys, 0, m, k);
  }
}

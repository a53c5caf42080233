/** The connection pool: round robin over a wrapping 64-bit counter. */
module Pool {
  import opened Machine

  /** The connection handed out by acquire number `i`, in a pool of `n`, with a counter modulo `m`. */
  function Slot(m: nat, n: nat, i: nat): nat
    requires m > 0 && n > 0
  {
    i % m % n
  }

  /** How often connection `j` was handed out in the first `k` acquires. */
  function Count(m: nat, n: nat, k: nat, j: nat): nat
    requires m > 0 && n > 0
  {
    if k == 0 then 0 else Count(m, n, k - 1, j) + if Slot(m, n, k - 1) == j then 1 else 0
  }

  /** The count of one stretch that does not wrap. */
  function Stretch(n: nat, k: nat, j: nat): nat
    requires n > 0
  {
    k / n + if j < k % n then 1 else 0
  }

  lemma StretchStep(n: nat, k: nat, j: nat)
    requires n > 0 && j < n
    ensures Stretch(n, k + 1, j) == Stretch(n, k, j) + if k % n == j then 1 else 0
  {
    var q, r := k / n, k % n;
    assert k == n * q + r;
    if r + 1 < n {
      DivMod(n, q, r + 1);
    } else {
      assert k + 1 == n * (q + 1) by {
        assert n * (q + 1) == n * q + n;
      }
      DivMod(n, q + 1, 0);
    }
  }

  lemma DivMod(n: nat, q: nat, r: nat)
    requires r < n
    ensures (n * q + r) / n == q && (n * q + r) % n == r
  {
    var k := n * q + r;
    var a, b := k / n, k % n;
    assert k == n * a + b;
    assert n * (q - a) == b - r;
    assert q - a >= 1 ==> n * (q - a) >= n;
    assert q - a <= -1 ==> n * (q - a) + n <= 0;
  }

  /** Full turns of the counter, then what is left. */
  function Closed(m: nat, n: nat, q: nat, r: nat, j: nat): nat
    requires n > 0
  {
    q * Stretch(n, m, j) + Stretch(n, r, j)
  }

  lemma ClosedWraps(m: nat, n: nat, q: nat, j: nat)
    requires n > 0
    ensures Closed(m, n, q, m, j) == Closed(m, n, q + 1, 0, j)
  {
    DivMod(n, 0, 0);
    assert (q + 1) * Stretch(n, m, j) == q * Stretch(n, m, j) + Stretch(n, m, j);
  }

  /** Division and remainder of the next number. */
  lemma NextDivMod(m: nat, k: nat)
    requires m > 0
    ensures if k % m + 1 < m then (k + 1) / m == k / m && (k + 1) % m == k % m + 1
            else (k + 1) / m == k / m + 1 && (k + 1) % m == 0
  {
    var q, r := k / m, k % m;
    assert k == m * q + r;
    if r + 1 < m {
      DivMod(m, q, r + 1);
    } else {
      assert m * (q + 1) == m * q + m;
      DivMod(m, q + 1, 0);
    }
  }

  lemma {:induction false} CountIs(m: nat, n: nat, k: nat, j: nat)
    requires m > 0 && n > 0 && j < n
    ensures Count(m, n, k, j) == Closed(m, n, k / m, k % m, j)
  {
    if k == 0 {
      DivMod(m, 0, 0);
      DivMod(n, 0, 0);
    } else {
      var q, r := (k - 1) / m, (k - 1) % m;
      CountIs(m, n, k - 1, j);
      StretchStep(n, r, j);
      NextDivMod(m, k - 1);
      assert Count(m, n, k, j) == Closed(m, n, q, r + 1, j);
      if r + 1 == m {
        ClosedWraps(m, n, q, j);
      }
    }
  }

  lemma ClosedSpread(m: nat, n: nat, q: nat, r: nat, i: nat, j: nat)
    requires i <= j < n
    ensures 0 <= Closed(m, n, q, r, i) - Closed(m, n, q, r, j) <= 1 + q
    ensures m % n == 0 || q == 0 ==> Closed(m, n, q, r, i) - Closed(m, n, q, r, j) <= 1
  {
    var d := Stretch(n, m, i) - Stretch(n, m, j);
    assert d == 0 || d == 1;
    assert m % n == 0 ==> d == 0;
    assert q * Stretch(n, m, i) - q * Stretch(n, m, j) == q * d;
  }

  /** Earlier connections are ahead, by at most one more than the number of times the counter wrapped. */
  lemma Spread(m: nat, n: nat, k: nat, i: nat, j: nat)
    requires m > 0 && i <= j < n
    ensures 0 <= Count(m, n, k, i) - Count(m, n, k, j) <= 1 + k / m
    ensures m % n == 0 || k <= m ==> Count(m, n, k, i) - Count(m, n, k, j) <= 1
  {
    hide Count, Closed;
    CountIs(m, n, k, i);
    CountIs(m, n, k, j);
    ClosedSpread(m, n, k / m, k % m, i, j);
    if k < m {
      DivMod(m, 0, k);
    } else if k == m {
      OneTurn(m, n, i);
      OneTurn(m, n, j);
      ClosedSpread(m, n, 0, m, i, j);
    }
  }

  lemma OneTurn(m: nat, n: nat, j: nat)
    requires m > 0 && j < n
    ensures Count(m, n, m, j) == Closed(m, n, 0, m, j)
  {
    CountIs(m, n, m, j);
    DivMod(m, 1, 0);
    ClosedWraps(m, n, 0, j);
  }

  function Gap(m: nat, n: nat, k: nat, i: nat, j: nat): int
    requires m > 0 && n > 0
  {
    Count(m, n, k, i) - Count(m, n, k, j)
  }

  /** Balanced round robin at machine width: any two connections' hand-out counts differ by at most one
      while the counter has not wrapped more than once around, and by at most `1 + k / 2^64` ever. */
  lemma Balanced(n: nat, k: nat, i: nat, j: nat)
    requires i < n && j < n
    ensures -(1 + k / TWO_64) <= Gap(TWO_64, n, k, i, j) <= 1 + k / TWO_64
    ensures k <= TWO_64 || TWO_64 % n == 0 ==> -1 <= Gap(TWO_64, n, k, i, j) <= 1
  {
    if i <= j {
      Spread(TWO_64, n, k, i, j);
    } else {
      Spread(TWO_64, n, k, j, i);
    }
  }

  ghost predicate BalancedForever(m: nat, n: nat)
    requires m > 0 && n > 0
  {
    forall k: nat, i: nat, j: nat | i < n && j < n :: -1 <= Gap(m, n, k, i, j) <= 1
  }

  /** The counts stay within one of each other for good exactly when the pool size divides 2^64. */
  lemma BalancedForeverExactly(n: nat)
    requires n > 0
    ensures BalancedForever(TWO_64, n) <==> TWO_64 % n == 0
  {
    if TWO_64 % n == 0 {
      forall k: nat, i: nat, j: nat | i < n && j < n ensures -1 <= Gap(TWO_64, n, k, i, j) <= 1 {
        Balanced(n, k, i, j);
      }
    } else {
      Drifts(TWO_64, n);
    }
  }

  /** After two turns of the counter, the first connection is two ahead of the last. */
  lemma Drifts(m: nat, n: nat)
    requires m > 0 && n > 0 && m % n != 0
    ensures Gap(m, n, 2 * m, 0, n - 1) == 2
  {
    DivMod(m, 2, 0);
    CountIs(m, n, 2 * m, 0);
    CountIs(m, n, 2 * m, n - 1);
    DivMod(n, 0, 0);
  }

  // ---------------------------------------------------------------- the pool

  /** `handed` is what the first `|handed|` acquires from `pool` return, with a counter modulo `m`. */
  predicate RoundRobin(m: nat, pool: seq<nat>, handed: seq<nat>)
    requires m > 0
  {
    pool != [] && forall i | 0 <= i < |handed| :: handed[i] == pool[Slot(m, |pool|, i)]
  }

  predicate Distinct(pool: seq<nat>) {
    forall i, j | 0 <= i < j < |pool| :: pool[i] != pool[j]
  }

  lemma {:induction false} HandedOutCount(m: nat, pool: seq<nat>, handed: seq<nat>, j: nat)
    requires m > 0 && RoundRobin(m, pool, handed) && Distinct(pool) && j < |pool|
    ensures multiset(handed)[pool[j]] == Count(m, |pool|, |handed|, j)
  {
    if handed != [] {
      var n := |handed| - 1;
      HandedOutCount(m, pool, handed[..n], j);
      assert handed == handed[..n] + [handed[n]];
      var slot := Slot(m, |pool|, n);
      assert handed[n] == pool[slot];
      hide Slot;
      assert handed[n] == pool[j] <==> slot == j;
    }
  }

  /** The balance, read off the log of acquires: how often each connection was returned. */
  lemma HandOutsBalanced(pool: seq<nat>, handed: seq<nat>, i: nat, j: nat)
    requires RoundRobin(TWO_64, pool, handed) && Distinct(pool) && i < |pool| && j < |pool|
    ensures multiset(handed)[pool[i]] <= multiset(handed)[pool[j]] + 1 + |handed| / TWO_64
    ensures |handed| <= TWO_64 || TWO_64 % |pool| == 0 ==> multiset(handed)[pool[i]] <= multiset(handed)[pool[j]] + 1
  {
    HandedOutCount(TWO_64, pool, handed, i);
    HandedOutCount(TWO_64, pool, handed, j);
    Balanced(|pool|, |handed|, i, j);
  }

  datatype PoolError = EmptyPool | OpenFailed(attempt: nat)

  datatype Opened = Ready(connections: seq<nat>) | Failed(error: PoolError)

  /** The constructor's loop: `size` connections are opened in order, `isOpen` being the server's answers.
      A size of zero and the first connection that does not open are errors. */
  method Open(size: nat, isOpen: nat -> bool) returns (r: Opened)
    ensures r == Failed(EmptyPool) <==> size == 0
    ensures r.Ready? <==> size > 0 && forall i | 0 <= i < size :: isOpen(i)
    ensures r.Ready? ==> |r.connections| == size && forall i | 0 <= i < size :: r.connections[i] == i
    ensures r.Failed? && r.error.OpenFailed? ==>
      r.error.attempt < size && !isOpen(r.error.attempt) && forall i | 0 <= i < r.error.attempt :: isOpen(i)
  {
    if size == 0 {
      return Failed(EmptyPool);
    }
    var connections: seq<nat> := [];
    for i := 0 to size
      invariant |connections| == i && forall j | 0 <= j < i :: connections[j] == j && isOpen(j)
    {
      if !isOpen(i) {
        return Failed(OpenFailed(i));
      }
      connections := connections + [i];
    }
    r := Ready(connections);
  }

  class PostgresPool {
    const pool: seq<nat>
    var next: nat
    /** Everything handed out so far. */
    ghost var handedOut: seq<nat>

    ghost predicate Valid()
      reads this
    {
      next == Wrap(|handedOut|) && RoundRobin(TWO_64, pool, handedOut)
    }

    constructor (connections: seq<nat>)
      requires connections != []
      ensures Valid() && pool == connections && handedOut == []
    {
      pool := connections;
      next := 0;
      handedOut := [];
    }

    method Acquire() returns (connection: nat)
      requires Valid()
      modifies this
      ensures Valid()
      ensures connection == pool[Slot(TWO_64, |pool|, |old(handedOut)|)]
      ensures handedOut == old(handedOut) + [connection]
    {
      var index := next % |pool|;
      next := Wrap(next + 1);
      connection := pool[index];
      handedOut := handedOut + [connection];
    }
  }
}

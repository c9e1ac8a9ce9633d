/**
 Round-robin placement: easyrpc/server/io_service_pool.hpp, and the requests that the server makes
 of it (its acceptor first, 17-18, then one per connection, 140-152 of easyrpc/server/server.hpp).
 */
module Placement {

  /** How many of the requests 0..k-1 a pool of `n` services gives to service `j`. */
  function Handed(k: nat, n: nat, j: nat): nat
    requires n > 0
  {
    if k == 0 then 0 else Handed(k - 1, n, j) + if (k - 1) % n == j then 1 else 0
  }

  lemma {:induction false} HandedIs(k: nat, n: nat, j: nat)
    requires n > 0 && j < n
    ensures Handed(k, n, j) == k / n + if j < k % n then 1 else 0
  {
    if k == 0 {
      DivUnique(0, n, 0, 0);
    } else {
      HandedIs(k - 1, n, j);
      DivSucc(k - 1, n);
      OneMore((k - 1) / n, (k - 1) % n, k / n, k % n, n, j);
    }
  }

  /** The step from quotient and remainder of k - 1 to those of k, as plain numbers. */
  lemma OneMore(q: nat, r: nat, q': nat, r': nat, n: nat, j: nat)
    requires j < n && r < n && if r == n - 1 then q' == q + 1 && r' == 0 else q' == q && r' == r + 1
    ensures q + (if j < r then 1 else 0) + (if r == j then 1 else 0) == q' + if j < r' then 1 else 0
  {
  }

  lemma DivSucc(k: nat, n: nat)
    requires n > 0
    ensures if k % n == n - 1 then (k + 1) / n == k / n + 1 && (k + 1) % n == 0
            else (k + 1) / n == k / n && (k + 1) % n == k % n + 1
  {
    var q, r := k / n, k % n;
    assert k == q * n + r;
    if r == n - 1 {
      assert k + 1 == (q + 1) * n;
      DivUnique(k + 1, n, q + 1, 0);
    } else {
      DivUnique(k + 1, n, q, r + 1);
    }
  }

  lemma DivUnique(a: nat, n: nat, q: nat, r: nat)
    requires n > 0 && r < n && a == q * n + r
    ensures a / n == q && a % n == r
  {
    var q', r' := a / n, a % n;
    assert a == q' * n + r';
    Spread(q, q', n);
    Spread(q', q, n);
  }

  lemma {:induction false} Spread(p: nat, q: nat, n: nat)
    ensures p < q ==> p * n + n <= q * n
  {
    if p < q {
      assert q * n == (q - 1) * n + n;
      Spread(p, q - 1, n);
    }
  }

  /** After any number of requests, two services have been handed out counts that differ by at most 1. */
  lemma Balanced(k: nat, n: nat, i: nat, j: nat)
    requires n > 0 && i < n && j < n
    ensures -1 <= Handed(k, n, i) - Handed(k, n, j) <= 1
  {
    HandedIs(k, n, i);
    HandedIs(k, n, j);
  }

  class IoServicePool {
    var services: nat            // size of ios_vec_
    var nextIoService: nat
    ghost var handed: seq<nat>   // the services returned so far

    ghost predicate Valid()
      reads this
    {
      && services > 0
      && nextIoService == |handed| % services
      && forall i :: 0 <= i < |handed| ==> handed[i] == i % services
    }

    constructor ()
      ensures services == 0 && nextIoService == 0 && handed == []
    {
      services, nextIoService, handed := 0, 0, [];
    }

    /** 20-34; false stands for the exception. */
    method Init(poolSize: nat) returns (ok: bool)
      requires services == 0 && nextIoService == 0 && handed == []
      modifies this
      ensures ok == (poolSize > 0) && handed == []
      ensures ok ==> Valid() && services == poolSize
    {
      if poolSize == 0 {
        return false;
      }
      var i := 0;
      while i < poolSize
        invariant i <= poolSize && services == i && nextIoService == 0 && handed == []
      {
        services := services + 1;
        i := i + 1;
      }
      ok := true;
    }

    /** 51-60. */
    method GetIoService() returns (ios: nat)
      requires Valid()
      modifies this
      ensures Valid() && services == old(services)
      ensures ios == |old(handed)| % services && handed == old(handed) + [ios]
    {
      ios := nextIoService;
      DivSucc(|handed|, services);
      nextIoService := nextIoService + 1;
      if nextIoService == services {
        nextIoService := 0;
      }
      handed := handed + [ios];
    }
  }

  /** The counts in a recorded history are those of Handed. */
  function Count(handed: seq<nat>, j: nat): nat {
    if handed == [] then 0 else Count(handed[..|handed| - 1], j) + if handed[|handed| - 1] == j then 1 else 0
  }

  lemma {:induction false} CountIsHanded(handed: seq<nat>, n: nat, j: nat)
    requires n > 0 && forall i :: 0 <= i < |handed| ==> handed[i] == i % n
    ensures Count(handed, j) == Handed(|handed|, n, j)
  {
    if handed != [] {
      CountIsHanded(handed[..|handed| - 1], n, j);
    }
  }

  /** In every run of a pool any two services are balanced, the acceptor's request included. */
  lemma PoolIsBalanced(pool: IoServicePool, i: nat, j: nat)
    requires pool.Valid() && i < pool.services && j < pool.services
    ensures -1 <= Count(pool.handed, i) - Count(pool.handed, j) <= 1
  {
    CountIsHanded(pool.handed, pool.services, i);
    CountIsHanded(pool.handed, pool.services, j);
    Balanced(|pool.handed|, pool.services, i, j);
  }

  /** The acceptor takes service 0 (17-18); connection number i (from 0) is placed on service (i + 1) mod n. */
  class Server {
    const iosPool: IoServicePool
    var acceptorService: nat
    var placed: seq<nat>

    ghost predicate Valid()
      reads this, iosPool
    {
      && iosPool.Valid() && acceptorService == 0 && iosPool.handed == [acceptorService] + placed
    }

    constructor (pool: IoServicePool)
      requires pool.Valid() && pool.handed == []
      modifies pool
      ensures Valid() && iosPool == pool && placed == [] && pool.services == old(pool.services)
    {
      iosPool := pool;
      placed := [];
      DivUnique(0, pool.services, 0, 0);
      var ios := pool.GetIoService();
      acceptorService := ios;
    }

    /** 140-152: one accepted connection. */
    method Accept() returns (ios: nat)
      requires Valid()
      modifies this, iosPool
      ensures Valid() && acceptorService == old(acceptorService)
      ensures ios == (|old(placed)| + 1) % iosPool.services && placed == old(placed) + [ios]
    {
      ios := iosPool.GetIoService();
      placed := placed + [ios];
    }
  }
}

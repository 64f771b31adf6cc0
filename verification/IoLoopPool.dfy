// The round-robin choice of an event loop (common/libtools/IoLoopPool.cpp:64-78, 123-141).
module IoLoopPool {

  // The event loops themselves run elsewhere.
  class IoLoop {
  }

  // The picks that a pool of k loops makes in n calls: the loops in turn.
  function Turns(k: nat, n: nat): (picks: seq<nat>)
    requires k > 0
    ensures |picks| == n && forall i :: 0 <= i < n ==> picks[i] == i % k
  {
    seq(n, i => i % k)
  }

  function Count(picks: seq<nat>, j: nat): (n: nat)
  {
    if |picks| == 0 then 0
    else Count(picks[..|picks| - 1], j) + if picks[|picks| - 1] == j then 1 else 0
  }

  lemma Quotient(n: int, k: int, q: int, r: int)
    requires 0 <= r < k && n == k * q + r
    ensures n / k == q && n % k == r
  {
    var d: int := n / k - q;
    assert k * d + n % k == r;
    OnlyMultiple(k, d);
  }

  lemma OnlyMultiple(k: int, d: int)
    requires -k < k * d < k
    ensures d == 0
  {
  }

  lemma SumQuotient(a: nat, b: nat, k: nat)
    requires k > 0
    ensures if a % k + b % k < k then (a + b) / k == a / k + b / k && (a + b) % k == a % k + b % k
            else (a + b) / k == a / k + b / k + 1 && (a + b) % k == a % k + b % k - k
  {
    Parts(a, b, k, a / k, a % k, b / k, b % k);
  }

  lemma Parts(a: nat, b: nat, k: nat, q1: int, r1: nat, q2: int, r2: nat)
    requires r1 < k && r2 < k && a == k * q1 + r1 && b == k * q2 + r2
    ensures if r1 + r2 < k then (a + b) / k == q1 + q2 && (a + b) % k == r1 + r2
            else (a + b) / k == q1 + q2 + 1 && (a + b) % k == r1 + r2 - k
  {
    if r1 + r2 < k {
      Distribute(k, q1, q2);
      Quotient(a + b, k, q1 + q2, r1 + r2);
    } else {
      Distribute(k, q1, q2);
      Distribute(k, q1 + q2, 1);
      Quotient(a + b, k, q1 + q2 + 1, r1 + r2 - k);
    }
  }

  lemma Distribute(k: int, p: int, q: int)
    ensures k * (p + q) == k * p + k * q
  {
  }

  lemma SmallQuotient(k: nat)
    requires k > 0
    ensures if k == 1 then 1 / k == 1 && 1 % k == 0 else 1 / k == 0 && 1 % k == 1
  {
    if k > 1 {
      Quotient(1, k, 0, 1);
    }
  }

  // After n picks, loop j was picked n / k times, and once more if its turn has come in
  // the round that is under way.
  lemma {:induction false} TurnsAreFair(k: nat, n: nat, j: nat)
    requires j < k
    ensures Count(Turns(k, n), j) == n / k + if j < n % k then 1 else 0
  {
    if n == 0 {
    } else {
      TurnsAreFair(k, n - 1, j);
      SumQuotient(n - 1, 1, k);
      SmallQuotient(k);
      assert Turns(k, n)[..n - 1] == Turns(k, n - 1);
    }
  }

  lemma {:induction false} CountOfConcatenation(p: seq<nat>, q: seq<nat>, j: nat)
    ensures Count(p + q, j) == Count(p, j) + Count(q, j)
    decreases |q|
  {
    if |q| == 0 {
      assert p + q == p;
    } else {
      CountOfConcatenation(p, q[..|q| - 1], j);
      assert (p + q)[..|p + q| - 1] == p + q[..|q| - 1];
    }
  }

  lemma {:induction false} CountIsMultiplicity(picks: seq<nat>, j: nat)
    ensures Count(picks, j) == multiset(picks)[j]
    decreases |picks|
  {
    if |picks| > 0 {
      CountIsMultiplicity(picks[..|picks| - 1], j);
      assert picks == picks[..|picks| - 1] + [picks[|picks| - 1]];
    }
  }

  // The same from any state on: in any n consecutive picks, every loop is picked floor(n/k)
  // or ceil(n/k) times.
  lemma WindowsAreFair(k: nat, start: nat, n: nat, j: nat)
    requires j < k
    ensures var c := Count(Turns(k, start + n)[start..], j); c == n / k || (c == n / k + 1 && n % k != 0)
  {
    var all := Turns(k, start + n);
    assert all[..start] == Turns(k, start) && all == all[..start] + all[start..];
    CountOfConcatenation(all[..start], all[start..], j);
    TurnsAreFair(k, start, j);
    TurnsAreFair(k, start + n, j);
    SumQuotient(start, n, k);
  }

  class IoLoopPool {
    const loops: seq<IoLoop>
    var nextIndex: nat
    ghost var picks: seq<nat>

    // The index is where the picks so far have led.
    ghost predicate Valid()
      reads this
    {
      && 0 < |loops| < 0x1_0000_0000
      && nextIndex < |loops|
      && picks == Turns(|loops|, |picks|)
      && nextIndex == |picks| % |loops|
    }

    // The source asserts that the pool is not empty; its size has 32 bits.
    constructor (poolSize: nat)
      requires 0 < poolSize < 0x1_0000_0000
      ensures Valid() && |loops| == poolSize && picks == []
      ensures forall i, j :: 0 <= i < j < |loops| ==> loops[i] != loops[j]
    {
      var all: seq<IoLoop> := [];
      while |all| < poolSize
        invariant |all| <= poolSize
        invariant forall i, j :: 0 <= i < j < |all| ==> all[i] != all[j]
        invariant forall i :: 0 <= i < |all| ==> fresh(all[i])
        decreases poolSize - |all|
      {
        var loop := new IoLoop;
        all := all + [loop];
      }
      loops := all;
      nextIndex := 0;
      picks := [];
    }

    // get_next_loop and get_next_loop_ptr.
    method GetNextLoop() returns (loop: IoLoop)
      requires Valid()
      modifies this
      ensures Valid() && loop == loops[old(nextIndex)]
      ensures picks == old(picks) + [old(nextIndex)]
    {
      SumQuotient(|picks|, 1, |loops|);
      SmallQuotient(|loops|);
      loop := loops[nextIndex];
      picks := picks + [nextIndex];
      nextIndex := nextIndex + 1;
      if nextIndex == |loops| {
        nextIndex := 0;
      }
    }

    // The fairness of the picks, for every reachable pool.
    lemma PicksAreFair(j: nat)
      requires Valid() && j < |loops|
      ensures Count(picks, j) == |picks| / |loops| + if j < |picks| % |loops| then 1 else 0
    {
      TurnsAreFair(|loops|, |picks|, j);
    }
  }
}

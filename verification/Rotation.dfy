/**
 Fair routing: the buckets that a counter modulo their number picks, and the
 wrap-to-zero cursor of the C server that refines it.
 */
module Rotation {

  /** How many of the first k turns fall to slot i of n. */
  function Turns(k: nat, n: nat, i: nat): nat
    requires i < n
  {
    if k == 0 then 0 else Turns(k - 1, n, i) + if (k - 1) % n == i then 1 else 0
  }

  lemma NextTurn(k: nat, n: nat)
    requires n > 0
    ensures (k + 1) % n == if k % n == n - 1 then 0 else k % n + 1
    ensures (k + 1) / n == if k % n == n - 1 then k / n + 1 else k / n
  {
    var q, r := k / n, k % n;
    assert k == q * n + r;
    if r == n - 1 { DivideIs(k + 1, n, q + 1, 0); } else { DivideIs(k + 1, n, q, r + 1); }
  }

  lemma DivideIs(k: nat, n: nat, q: nat, r: nat)
    requires n > 0 && r < n && k == q * n + r
    ensures k / n == q && k % n == r
  {
    var d := k / n - q;
    assert k == (k / n) * n + k % n;
    assert (k / n) * n - q * n == d * n;
    assert (d >= 1 ==> d * n >= n) && (d <= -1 ==> d * n + n <= 0);
  }

  /** The first slots, as many as the remainder, are one turn ahead. */
  lemma {:induction false} TurnsByRounds(k: nat, n: nat, i: nat)
    requires i < n
    ensures Turns(k, n, i) == k / n + if i < k % n then 1 else 0
  {
    if k == 0 {
      DivideIs(0, n, 0, 0);
    } else {
      TurnsByRounds(k - 1, n, i);
      NextTurn(k - 1, n);
    }
  }

  lemma Ceiling(k: nat, n: nat, i: nat)
    requires i < n && i < k
    ensures (k - i + n - 1) / n == k / n + if i < k % n then 1 else 0
  {
    var q, r := k / n, k % n;
    assert k == q * n + r;
    if i < r {
      assert (q + 1) * n == q * n + n;
      DivideIs(k - i + n - 1, n, q + 1, r - i - 1);
    } else {
      DivideIs(k - i + n - 1, n, q, r - i + n - 1);
    }
  }

  /** After k turns slot i has had ceil((k - i) / n), and none before its first. */
  lemma TurnsAreCeilings(k: nat, n: nat, i: nat)
    requires i < n
    ensures Turns(k, n, i) == if k > i then (k - i + n - 1) / n else 0
  {
    TurnsByRounds(k, n, i);
    hide Turns;
    if k > i { Ceiling(k, n, i); } else { DivideIs(k, n, 0, k); }
  }

  /** No slot is ever more than one turn ahead of another, and the turns add up. */
  lemma TurnsAreFair(k: nat, n: nat, i: nat, j: nat)
    requires i < n && j < n
    ensures -1 <= Turns(k, n, i) - Turns(k, n, j) <= 1
  {
    TurnsByRounds(k, n, i);
    TurnsByRounds(k, n, j);
  }

  /** The hand-off of an accepted client by the main thread of the C server. */
  class MainThread {
    const numThreads: nat
    var curThread: nat
    const given: array<nat>        // clients handed to each thread
    ghost var taken: nat           // clients added in all

    /** The cursor is the number of clients modulo the threads, and every thread has had its turns. */
    ghost predicate Valid()
      reads this, given
    {
      && 0 < numThreads == given.Length
      && curThread == taken % numThreads
      && forall i :: 0 <= i < numThreads ==> given[i] == Turns(taken, numThreads, i)
    }

    constructor (numThreads: nat)
      requires numThreads > 0
      ensures Valid() && taken == 0 && this.numThreads == numThreads && fresh(given)
    {
      this.numThreads, curThread, taken := numThreads, 0, 0;
      given := new nat[numThreads](_ => 0);
      new;
      DivideIs(0, numThreads, 0, 0);
    }

    /** added: whether epoll_ctl took the client; if not, the cursor stays. */
    method HandOff(added: bool)
      requires Valid()
      modifies this, given
      ensures Valid() && taken == old(taken) + if added then 1 else 0
      ensures forall i :: 0 <= i < numThreads ==>
                given[i] == old(given[i]) + if added && i == old(curThread) then 1 else 0
    {
      if !added { return; }
      given[curThread] := given[curThread] + 1;
      curThread := if curThread == numThreads - 1 then 0 else curThread + 1;
      NextTurn(taken, numThreads);
      taken := taken + 1;
    }
  }
}

/** Index arithmetic for the two circular buffers: the frame list, which
    the transmitter steps through one frame per tick (main.py:201-203), and
    the audio track, which the callback reads round and round. */
module Cyclic {

  /** `i += 1; if i >= n: i = 0`. */
  function Next(i: nat, n: nat): (r: nat)
    ensures r == i + 1 || r == 0
    ensures n > 0 ==> r < n
  {
    if i + 1 >= n then 0 else i + 1
  }

  /** Inside the buffer, stepping is addition modulo its length: no index is
      skipped and none reaches the length. */
  lemma NextIsModular(i: nat, n: nat)
    requires i < n
    ensures Next(i, n) == (i + 1) % n
    ensures Next(i, n) < n
  {
    if i + 1 == n {
      assert (i + 1) % n == 0;
    } else {
      assert (i + 1) % n == i + 1;
    }
  }

  /** The index after k steps. */
  function Steps(i: nat, k: nat, n: nat): nat
    decreases k
  {
    if k == 0 then i else Steps(Next(i, n), k - 1, n)
  }

  /** The indices visited by k steps, starting with i itself. */
  function Cycle(i: nat, k: nat, n: nat): (r: seq<nat>)
    ensures |r| == k
    decreases k
  {
    if k == 0 then [] else [i] + Cycle(Next(i, n), k - 1, n)
  }

  /** k steps from inside the buffer move k places round it. */
  lemma {:induction false} StepsIsModular(i: nat, k: nat, n: nat)
    requires i < n
    ensures Steps(i, k, n) == (i + k) % n
    decreases k
  {
    if k == 0 {
      ModUnique(i, n, 0, i);
    } else if i + 1 < n {
      StepsIsModular(i + 1, k - 1, n);
      assert i + 1 + (k - 1) == i + k;
    } else {
      StepsIsModular(0, k - 1, n);
      assert i + k == (k - 1) + n;
      ModSubtract(i + k, n);
    }
  }

  /** The j-th index visited is i + j modulo the length. */
  lemma {:induction false} CycleIsModular(i: nat, k: nat, n: nat)
    requires i < n
    ensures Cycle(i, k, n) == seq(k, j => (i + j) % n)
    decreases k
  {
    if k > 0 {
      var next := Next(i, n);
      NextIsModular(i, n);
      CycleIsModular(next, k - 1, n);
      var got := Cycle(i, k, n);
      var rest := Cycle(next, k - 1, n);
      assert got == [i] + rest;
      ModUnique(i, n, 0, i);
      forall j | 0 <= j < k
        ensures got[j] == (i + j) % n
      {
        if j > 0 {
          CycleElement(i, j, n, rest[j - 1]);
        }
      }
    }
  }

  /** One element of CycleIsModular: what index j - 1 visited from the next
      index is, index j visited from i is. */
  lemma CycleElement(i: nat, j: nat, n: nat, x: nat)
    requires i < n && j > 0
    requires x == (Next(i, n) + (j - 1)) % n
    ensures x == (i + j) % n
  {
    if i + 1 < n {
      assert Next(i, n) + (j - 1) == i + j;
    } else {
      assert Next(i, n) + (j - 1) == i + j - n;
      ModSubtract(i + j, n);
    }
  }

  /** Reducing an offset before adding to it does not change the residue. */
  lemma ModShift(a: nat, b: nat, n: nat)
    requires n > 0
    ensures ((a % n) + b) % n == (a + b) % n
  {
    var q, r := a / n, a % n;
    var q2, r2 := (r + b) / n, (r + b) % n;
    assert a == q * n + r;
    assert r + b == q2 * n + r2;
    assert (q + q2) * n == q * n + q2 * n;
    ModUnique(a + b, n, q + q2, r2);
  }

  /** Below twice the modulus, reducing subtracts it at most once. */
  lemma ModBelowTwice(a: nat, n: nat)
    requires a < 2 * n
    ensures a % n == if a < n then a else a - n
  {
    if a >= n {
      ModSubtract(a, n);
    }
  }

  lemma ModSubtract(a: nat, n: nat)
    requires 0 < n <= a
    ensures a % n == (a - n) % n
  {
    var q, r := a / n, a % n;
    assert a == q * n + r;
    assert a - n == (q - 1) * n + r by {
      assert (q - 1) * n == q * n - n;
    }
    ModUnique(a - n, n, q - 1, r);
  }

  /** Euclidean division has exactly one remainder. */
  lemma ModUnique(a: int, n: int, q: int, r: int)
    requires n > 0 && 0 <= r < n && a == q * n + r
    ensures a % n == r
  {
    var q', r' := a / n, a % n;
    assert (q - q') * n == r' - r;
    if q > q' {
      MulAtLeast(q - q', n);
    } else if q < q' {
      MulAtLeast(q' - q, n);
    }
  }

  lemma {:induction false} MulAtLeast(k: int, n: int)
    requires k >= 1 && n > 0
    ensures k * n >= n
  {
    if k > 1 {
      MulAtLeast(k - 1, n);
    }
  }
}

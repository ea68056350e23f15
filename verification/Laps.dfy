/** Positions on a circle of `n` slots: facts about remainders that the ring and the wheel share. */
module Laps {

  lemma Multiple(n: nat, k: int)
    requires n > 0
    ensures n * k >= n || n * k <= 0
  {
    if k >= 1 { assert n * k == n * (k - 1) + n; }
  }

  /** Numbers in the same slot are a whole lap apart. */
  lemma LapApart(a: int, b: int, n: nat)
    requires n > 0 && a % n == b % n && a < b
    ensures a + n <= b
  {
    assert a == n * (a / n) + a % n && b == n * (b / n) + b % n;
    assert n * (b / n - a / n) == n * (b / n) - n * (a / n);
    Multiple(n, b / n - a / n);
  }

  lemma NextLap(a: int, n: nat)
    requires n > 0
    ensures (a + n) % n == a % n
  {
    var q, q' := a / n, (a + n) / n;
    assert a == n * q + a % n && a + n == n * q' + (a + n) % n;
    assert n * (1 + q - q') == n + n * q - n * q' && n * (q' - q - 1) == n * q' - n * q - n;
    Multiple(n, 1 + q - q');
    Multiple(n, q' - q - 1);
  }

  lemma {:induction false} AddLaps(a: int, n: nat, k: nat)
    requires n > 0
    ensures (n * k + a) % n == a % n
  {
    if k == 0 {
      assert n * k == 0;
    } else {
      AddLaps(a, n, k - 1);
      assert n * k == n * (k - 1) + n;
      NextLap(n * (k - 1) + a, n);
    }
  }
}

/** Bitwise operations on unsigned numbers, from the lowest bit up. */
module Bits {
  import opened Laps

  function Pow2(k: nat): (r: nat)
    ensures r >= 1
  {
    if k == 0 then 1 else 2 * Pow2(k - 1)
  }

  function And(a: nat, b: nat): nat {
    if a == 0 then 0 else (if a % 2 == 1 && b % 2 == 1 then 1 else 0) + 2 * And(a / 2, b / 2)
  }

  function Or(a: nat, b: nat): nat
    decreases a + b
  {
    if a == 0 && b == 0 then 0 else (if a % 2 == 1 || b % 2 == 1 then 1 else 0) + 2 * Or(a / 2, b / 2)
  }

  function Shr(a: nat, k: nat): nat {
    if k == 0 then a else Shr(a / 2, k - 1)
  }

  /** The number of bits up to the highest one set. */
  function Length(a: nat): nat {
    if a == 0 then 0 else 1 + Length(a / 2)
  }

  function Ones(k: nat): nat {
    Pow2(k) - 1
  }

  function Min(a: nat, b: nat): nat {
    if a <= b then a else b
  }

  lemma {:induction false} Pow2Grows(j: nat, k: nat)
    requires j < k
    ensures Pow2(j) < Pow2(k)
  {
    if j < k - 1 { Pow2Grows(j, k - 1); }
  }

  lemma {:induction false} Pow2Adds(j: nat, k: nat)
    ensures Pow2(j + k) == Pow2(j) * Pow2(k)
  {
    if j > 0 {
      Pow2Adds(j - 1, k);
      assert Pow2(j) * Pow2(k) == 2 * (Pow2(j - 1) * Pow2(k));
    }
  }

  lemma {:induction false} LengthBounds(a: nat)
    ensures a < Pow2(Length(a)) && (a > 0 ==> Length(a) > 0 && Pow2(Length(a) - 1) <= a)
  {
    if a > 0 { LengthBounds(a / 2); }
  }

  lemma {:induction false} LengthFits(a: nat, k: nat)
    requires a < Pow2(k)
    ensures Length(a) <= k
  {
    if a > 0 { LengthFits(a / 2, k - 1); }
  }

  lemma {:induction false} ShrShr(a: nat, j: nat, k: nat)
    ensures Shr(Shr(a, j), k) == Shr(a, j + k)
  {
    if j > 0 { ShrShr(a / 2, j - 1, k); }
  }

  lemma {:induction false} ShrOr(a: nat, b: nat, k: nat)
    ensures Shr(Or(a, b), k) == Or(Shr(a, k), Shr(b, k))
  {
    if k > 0 {
      assert Or(a, b) / 2 == Or(a / 2, b / 2);
      ShrOr(a / 2, b / 2, k - 1);
    }
  }

  lemma {:induction false} ShrOnes(m: nat, k: nat)
    ensures Shr(Ones(m), k) == Ones(if k <= m then m - k else 0)
  {
    if k > 0 {
      if m == 0 { ShrOnes(0, k - 1); } else { ShrOnes(m - 1, k - 1); }
    }
  }

  lemma {:induction false} TopBit(a: nat)
    requires a > 0
    ensures Shr(a, Length(a) - 1) == 1
  {
    if a > 1 { TopBit(a / 2); }
  }

  lemma OnesHalved(m: nat)
    requires m > 0
    ensures Ones(m) % 2 == 1 && Ones(m) / 2 == Ones(m - 1)
  {
  }

  lemma {:induction false} OrBelow(m: nat, n: nat)
    requires n <= m
    ensures Or(Ones(m), Ones(n)) == Ones(m)
  {
    if m > 0 {
      OnesHalved(m);
      if n > 0 { OnesHalved(n); }
      OrBelow(m - 1, if n == 0 then 0 else n - 1);
      assert Ones(0) == 0;
      assert Ones(m) == 1 + 2 * Ones(m - 1);
      hide Ones;
    }
  }

  /** Ones at the bottom that reach up to the ones at the top fill the number. */
  lemma {:induction false} OrFills(x: nat, k: nat, m: nat, n: nat)
    requires Shr(x, k) == Ones(m) && k <= n <= m + k
    ensures Or(x, Ones(n)) == Ones(m + k)
  {
    if k == 0 { OrBelow(m, n); } else { OrFills(x / 2, k - 1, m, n - 1); }
  }

  /** A number of `l` bits whose top `k` bits are set has its top 2k bits set after a |= a >> k. */
  lemma SmearStep(a: nat, l: nat, k: nat)
    requires k > 0 && Shr(a, l - Min(k, l)) == Ones(Min(k, l))
    ensures Shr(Or(a, Shr(a, k)), l - Min(2 * k, l)) == Ones(Min(2 * k, l))
  {
    hide Or, Shr, Ones;
    if l <= k {
      assert Shr(a, 0) == a by { ShrZero(a); }
      ShrOnes(l, k);
      OrBelow(l, 0);
      ShrZero(Or(a, Shr(a, k)));
    } else {
      var j := l - Min(2 * k, l);
      ShrOr(a, Shr(a, k), j);
      ShrShr(a, k, j);
      var x := Shr(a, j);
      ShrShr(a, j, l - k - j);
      if j > 0 {
        OrFills(x, k, k, k);
      } else {
        ShrShr(a, l - k, 2 * k - l);
        ShrOnes(k, 2 * k - l);
        OrFills(x, l - k, k, l - k);
      }
    }
  }

  lemma ShrZero(a: nat)
    ensures Shr(a, 0) == a
  {
  }

  /** Masking with a power of two less one is the remainder. */
  lemma {:induction false} MaskIsRemainder(p: nat, k: nat)
    ensures And(p, Ones(k)) == p % Pow2(k)
  {
    if p == 0 || k == 0 {
      NothingMasked(p);
    } else {
      MaskIsRemainder(p / 2, k - 1);
      OnesHalved(k);
      RemainderHalved(p, Pow2(k - 1));
      hide Ones;
    }
  }

  lemma RemainderHalved(p: nat, q: nat)
    requires q > 0
    ensures p % (2 * q) == p % 2 + 2 * (p / 2 % q)
  {
    var d, r := p / 2 / q, p / 2 % q;
    assert p / 2 == q * d + r;
    assert (2 * q) * d == 2 * (q * d);
    AddLaps(2 * r + p % 2, 2 * q, d);
    Small(2 * r + p % 2, 2 * q);
  }

  lemma Small(a: nat, n: nat)
    requires a < n
    ensures a % n == a
  {
  }

  lemma {:induction false} NothingMasked(p: nat)
    ensures And(p, 0) == 0
  {
    if p > 0 { NothingMasked(p / 2); }
  }
}

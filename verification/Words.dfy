/**
 Machine words as natural numbers and their bits.  `w + Pow2(i)` on a clear bit i and
 `w - Pow2(i)` on a set one are `w | (1 << i)` and `w & ~(1 << i)`.
 */
module Words {

  function Pow2(i: nat): (r: nat)
    ensures r >= 1
  {
    if i == 0 then 1 else 2 * Pow2(i - 1)
  }

  predicate Bit(w: nat, i: nat) {
    if i == 0 then w % 2 == 1 else Bit(w / 2, i - 1)
  }

  lemma {:induction false} SetBit(w: nat, i: nat, j: nat)
    requires !Bit(w, i)
    ensures Bit(w + Pow2(i), j) <==> (j == i || Bit(w, j))
    decreases i
  {
    if i > 0 {
      assert (w + Pow2(i)) / 2 == w / 2 + Pow2(i - 1);
      if j > 0 {
        SetBit(w / 2, i - 1, j - 1);
      }
    } else if j > 0 {
      assert (w + 1) / 2 == w / 2;
    }
  }

  lemma {:induction false} BitValue(w: nat, i: nat)
    requires Bit(w, i)
    ensures w >= Pow2(i) && !Bit(w - Pow2(i), i)
    decreases i
  {
    if i > 0 {
      BitValue(w / 2, i - 1);
      assert (w - Pow2(i)) / 2 == w / 2 - Pow2(i - 1);
    }
  }

  lemma ClearBit(w: nat, i: nat, j: nat)
    requires Bit(w, i)
    ensures w >= Pow2(i)
    ensures Bit(w - Pow2(i), j) <==> (j != i && Bit(w, j))
  {
    BitValue(w, i);
    SetBit(w - Pow2(i), i, j);
  }

  lemma {:induction false} SomeClearBit(w: nat, n: nat) returns (i: nat)
    requires w < Pow2(n) - 1
    ensures i < n && !Bit(w, i)
    decreases n
  {
    if w % 2 == 0 {
      i := 0;
    } else {
      i := SomeClearBit(w / 2, n - 1);
      i := i + 1;
    }
  }

  lemma {:induction false} SomeSetBit(w: nat, n: nat) returns (i: nat)
    requires 0 < w < Pow2(n)
    ensures i < n && Bit(w, i)
    decreases n
  {
    if w % 2 == 1 {
      i := 0;
    } else {
      i := SomeSetBit(w / 2, n - 1);
      i := i + 1;
    }
  }

  /** Setting a clear bit below n keeps the word within n bits. */
  lemma {:induction false} SetBitBound(w: nat, i: nat, n: nat)
    requires w < Pow2(n) && i < n && !Bit(w, i)
    ensures w + Pow2(i) < Pow2(n)
    decreases n
  {
    assert Pow2(n) == 2 * Pow2(n - 1);
    if i > 0 {
      SetBitBound(w / 2, i - 1, n - 1);
      assert Pow2(i) == 2 * Pow2(i - 1);
    }
  }

  /** The bits of 2^k - 1 are 0 .. k-1. */
  lemma {:induction false} LowOnes(k: nat, i: nat)
    ensures Bit(Pow2(k) - 1, i) <==> i < k
    decreases k
  {
    if k == 0 {
      ZeroBit(i);
    } else if i > 0 {
      assert (Pow2(k) - 1) / 2 == Pow2(k - 1) - 1;
      LowOnes(k - 1, i - 1);
    }
  }

  lemma {:induction false} ZeroBit(i: nat)
    ensures !Bit(0, i)
    decreases i
  {
    if i > 0 { ZeroBit(i - 1); }
  }

  /** Bit i of a word placed s bits up. */
  lemma {:induction false} ShiftedBit(w: nat, low: nat, s: nat, i: nat)
    requires low < Pow2(s)
    ensures Bit(w * Pow2(s) + low, s + i) <==> Bit(w, i)
    decreases s
  {
    if s > 0 {
      assert w * Pow2(s) == 2 * (w * Pow2(s - 1));
      assert (w * Pow2(s) + low) / 2 == w * Pow2(s - 1) + low / 2;
      ShiftedBit(w, low / 2, s - 1, i);
    }
  }

  lemma {:induction false} PowAdd(a: nat, b: nat)
    ensures Pow2(a + b) == Pow2(a) * Pow2(b)
    decreases a
  {
    if a > 0 {
      PowAdd(a - 1, b);
      assert Pow2(a + b) == 2 * Pow2(a - 1 + b);
    }
  }

  lemma {:induction false} PowMono(a: nat, b: nat)
    requires a <= b
    ensures Pow2(a) <= Pow2(b)
    decreases b - a
  {
    if a < b { PowMono(a, b - 1); }
  }

  /** A word of at least 2^h has a bit at or above h. */
  lemma {:induction false} SomeHighBit(w: nat, h: nat, n: nat) returns (i: nat)
    requires Pow2(h) <= w < Pow2(n)
    ensures h <= i < n && Bit(w, i)
    decreases h
  {
    if h == 0 {
      i := SomeSetBit(w, n);
    } else {
      assert n > 0;
      i := SomeHighBit(w / 2, h - 1, n - 1);
      i := i + 1;
    }
  }

  lemma {:induction false} NoHighBit(w: nat, h: nat, i: nat)
    requires w < Pow2(h) && h <= i
    ensures !Bit(w, i)
    decreases h
  {
    if h == 0 { ZeroBit(i); } else { NoHighBit(w / 2, h - 1, i - 1); }
  }
}

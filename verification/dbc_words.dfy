/** Unsigned 64-bit words as numbers, with C's shifts and bitwise operators defined on their binary
    digits, and the laws that reduce every word expression of the signal codec to single bits. */
module DbcWords {
  import opened Powers

  const RANGE: nat := 0x1_0000_0000_0000_0000

  type Word = n: nat | n < RANGE
  type Byte = n: nat | n < 256

  /** Binary digit i of n. */
  predicate Bit(n: nat, i: nat) {
    if i == 0 then n % 2 == 1 else Bit(n / 2, i - 1)
  }

  function Shr(n: nat, k: nat): (r: nat)
    ensures r <= n
  {
    if k == 0 then n else Shr(n / 2, k - 1)
  }

  /** The bits shifted out on the left are lost. */
  function Shl(n: Word, k: nat): Word
    decreases k
  {
    if k == 0 then n else Shl((2 * n) % RANGE, k - 1)
  }

  function And(a: nat, b: nat): (r: nat)
    ensures r <= a && r <= b
  {
    if a == 0 || b == 0 then 0
    else 2 * And(a / 2, b / 2) + (if a % 2 == 1 && b % 2 == 1 then 1 else 0)
  }

  function Or(a: nat, b: nat): nat {
    if a == 0 then b else if b == 0 then a
    else 2 * Or(a / 2, b / 2) + (if a % 2 == 1 || b % 2 == 1 then 1 else 0)
  }

  function Not(a: Word): Word { RANGE - 1 - a }

  /** Unsigned subtraction. */
  function Minus(a: Word, b: Word): Word { (a - b) % RANGE }

  // ----- bits of the operators -----

  lemma {:induction false} ZeroBits(i: nat)
    ensures !Bit(0, i)
  {
    if i > 0 { ZeroBits(i - 1); }
  }

  lemma {:induction false} ShrBits(n: nat, k: nat, i: nat)
    ensures Bit(Shr(n, k), i) == Bit(n, i + k)
  {
    if k > 0 { ShrBits(n / 2, k - 1, i); }
  }

  lemma {:induction false} AndBits(a: nat, b: nat, i: nat)
    ensures Bit(And(a, b), i) == (Bit(a, i) && Bit(b, i))
  {
    if a == 0 || b == 0 {
      ZeroBits(i);
    } else if i > 0 {
      AndBits(a / 2, b / 2, i - 1);
    }
  }

  lemma {:induction false} OrBits(a: nat, b: nat, i: nat)
    ensures Bit(Or(a, b), i) == (Bit(a, i) || Bit(b, i))
  {
    if a == 0 || b == 0 {
      ZeroBits(i);
    } else if i > 0 {
      OrBits(a / 2, b / 2, i - 1);
    }
  }

  lemma {:induction false} OrBound(a: nat, b: nat, k: nat)
    requires a < Pow2(k) && b < Pow2(k)
    ensures Or(a, b) < Pow2(k)
  {
    if a != 0 && b != 0 {
      OrBound(a / 2, b / 2, k - 1);
    }
  }

  lemma {:induction false} HighBits(n: nat, k: nat, i: nat)
    requires n < Pow2(k) && i >= k
    ensures !Bit(n, i)
  {
    if k == 0 { ZeroBits(i); } else { HighBits(n / 2, k - 1, i - 1); }
  }

  /** Numbers of at most k digits with the same digits are equal. */
  lemma {:induction false} SameBits(a: nat, b: nat, k: nat)
    requires a < Pow2(k) && b < Pow2(k)
    requires forall i :: 0 <= i < k ==> Bit(a, i) == Bit(b, i)
    ensures a == b
  {
    if k > 0 {
      assert Bit(a, 0) == Bit(b, 0);
      forall i | 0 <= i < k - 1
        ensures Bit(a / 2, i) == Bit(b / 2, i)
      {
        assert Bit(a, i + 1) == Bit(b, i + 1);
      }
      SameBits(a / 2, b / 2, k - 1);
    }
  }

  /** A nonzero number of at most k digits has a digit that is set. */
  lemma {:induction false} SomeBit(n: nat, k: nat) returns (i: nat)
    requires 0 < n < Pow2(k)
    ensures i < k && Bit(n, i)
  {
    if n % 2 == 1 {
      i := 0;
    } else {
      var j := SomeBit(n / 2, k - 1);
      i := j + 1;
    }
  }

  lemma {:induction false} MaskBits(k: nat, i: nat)
    ensures Bit(Pow2(k) - 1, i) == (i < k)
  {
    if k == 0 {
      ZeroBits(i);
    } else if i > 0 {
      assert (Pow2(k) - 1) / 2 == Pow2(k - 1) - 1;
      MaskBits(k - 1, i - 1);
    }
  }

  /** Two numbers laid side by side: x in the low k digits, y above. */
  lemma {:induction false} JoinBits(x: nat, y: nat, k: nat, i: nat)
    requires x < Pow2(k)
    ensures Bit(x + Pow2(k) * y, i) == if i < k then Bit(x, i) else Bit(y, i - k)
  {
    if k > 0 {
      var p := Pow2(k - 1);
      assert Pow2(k) * y == 2 * (p * y);
      assert (x + Pow2(k) * y) / 2 == x / 2 + p * y;
      assert (x + Pow2(k) * y) % 2 == x % 2;
      if i > 0 { JoinBits(x / 2, y, k - 1, i - 1); }
    }
  }

  lemma Pow2Values()
    ensures Pow2(8) == 256 && Pow2(64) == RANGE
  {
    assert Pow2(8) == 256;
    assert Pow2(16) == Pow2(8) * 256;
    assert Pow2(24) == Pow2(16) * 256;
    assert Pow2(32) == Pow2(24) * 256;
    assert Pow2(40) == Pow2(32) * 256;
    assert Pow2(48) == Pow2(40) * 256;
    assert Pow2(56) == Pow2(48) * 256;
    assert Pow2(64) == Pow2(56) * 256;
  }

  lemma {:induction false} Pow2Adds(a: nat, b: nat)
    ensures Pow2(a + b) == Pow2(a) * Pow2(b)
  {
    if a > 0 {
      Pow2Adds(a - 1, b);
      assert Pow2(a) * Pow2(b) == 2 * (Pow2(a - 1) * Pow2(b));
    }
  }

  lemma {:induction false} Pow2Grows(a: nat, b: nat)
    requires a <= b
    ensures Pow2(a) <= Pow2(b)
  {
    if a < b { Pow2Grows(a, b - 1); }
  }

  lemma {:induction false} WordHighBits(n: Word, i: nat)
    requires i >= 64
    ensures !Bit(n, i)
  {
    Pow2Values();
    HighBits(n, 64, i);
  }

  lemma SameWords(a: Word, b: Word)
    requires forall i :: 0 <= i < 64 ==> Bit(a, i) == Bit(b, i)
    ensures a == b
  {
    Pow2Values();
    SameBits(a, b, 64);
  }

  lemma {:induction false} TimesTwoBits(n: Word, i: nat)
    ensures Bit((2 * n) % RANGE, i) == (0 < i < 64 && Bit(n, i - 1))
  {
    var half: nat := 0x8000_0000_0000_0000;
    var low, top := n % half, n / half;
    assert n == low + half * top && top < 2;
    assert (2 * n) % RANGE == 2 * low;
    Pow2Values();
    if i > 0 {
      assert Bit(2 * low, i) == Bit(low, i - 1);
      assert Pow2(63) == half;
      JoinBits(low, top, 63, i - 1);
      if i >= 64 { HighBits(low, 63, i - 1); }
    }
  }

  lemma {:induction false} ShlBits(n: Word, k: nat, i: nat)
    ensures Bit(Shl(n, k), i) == (k <= i < 64 && Bit(n, i - k))
    decreases k
  {
    if k == 0 {
      if i >= 64 { WordHighBits(n, i); }
    } else {
      ShlBits((2 * n) % RANGE, k - 1, i);
      if k - 1 <= i { TimesTwoBits(n, i - (k - 1)); }
    }
  }

  lemma {:induction false} NotDigits(a: nat, k: nat, i: nat)
    requires a < Pow2(k) && i < k
    ensures Bit(Pow2(k) - 1 - a, i) == !Bit(a, i)
  {
    if i > 0 {
      assert (Pow2(k) - 1 - a) / 2 == Pow2(k - 1) - 1 - a / 2;
      NotDigits(a / 2, k - 1, i - 1);
    }
  }

  lemma NotBits(a: Word, i: nat)
    requires i < 64
    ensures Bit(Not(a), i) == !Bit(a, i)
  {
    Pow2Values();
    NotDigits(a, 64, i);
  }

  lemma {:induction false} ShlOne(k: nat)
    requires k < 64
    ensures Shl(1, k) == Pow2(k) < RANGE
  {
    Pow2Values();
    Pow2Grows(k, 63);
    forall i | 0 <= i < 64
      ensures Bit(Shl(1, k), i) == Bit(Pow2(k), i)
    {
      ShlBits(1, k, i);
      OneBit(k, i);
      if i >= k { SmallOne(i - k); }
    }
    SameWords(Shl(1, k), Pow2(k));
  }

  lemma {:induction false} SmallOne(i: nat)
    ensures Bit(1, i) == (i == 0)
  {
    if i > 0 { ZeroBits(i - 1); }
  }

  lemma {:induction false} OneBit(k: nat, i: nat)
    ensures Bit(Pow2(k), i) == (i == k)
  {
    if k == 0 {
      SmallOne(i);
    } else if i > 0 {
      OneBit(k - 1, i - 1);
    }
  }
}

/** Numbers as rows of bits: the bit operators of C on unsigned words. */
module Bits {

  /** `word >> i` */
  function ShiftRight(word: nat, i: nat): nat {
    if i == 0 then word else ShiftRight(word / 2, i - 1)
  }

  predicate Bit(word: nat, i: nat) {
    ShiftRight(word, i) % 2 == 1
  }

  /** `1 << i` */
  function OneBit(i: nat): (w: nat)
    ensures w > 0
  {
    if i == 0 then 1 else 2 * OneBit(i - 1)
  }

  /** `v | w` */
  function Or(v: nat, w: nat): nat {
    if v == 0 then w else 2 * Or(v / 2, w / 2) + (if v % 2 == 1 then 1 else w % 2)
  }

  /** `v & w` */
  function And(v: nat, w: nat): nat {
    if v == 0 then 0 else 2 * And(v / 2, w / 2) + (if v % 2 == 1 then w % 2 else 0)
  }

  /** `~w` on `width` bits. */
  function Not(w: nat, width: nat): nat
    requires w < OneBit(width)
  {
    OneBit(width) - 1 - w
  }

  lemma {:induction false} ZeroHasNoBit(i: nat)
    ensures !Bit(0, i)
  {
    if i > 0 {
      ZeroHasNoBit(i - 1);
    }
  }

  lemma {:induction false} BitOfOneBit(i: nat, j: nat)
    ensures Bit(OneBit(i), j) <==> i == j
  {
    if i == 0 && j > 0 {
      ZeroHasNoBit(j - 1);
    } else if i > 0 && j > 0 {
      BitOfOneBit(i - 1, j - 1);
    }
  }

  lemma {:induction false} BitOfOr(v: nat, w: nat, j: nat)
    ensures Bit(Or(v, w), j) <==> Bit(v, j) || Bit(w, j)
  {
    if v == 0 {
      ZeroHasNoBit(j);
    } else if j > 0 {
      BitOfOr(v / 2, w / 2, j - 1);
    }
  }

  lemma {:induction false} BitOfAnd(v: nat, w: nat, j: nat)
    ensures Bit(And(v, w), j) <==> Bit(v, j) && Bit(w, j)
  {
    if v == 0 {
      ZeroHasNoBit(j);
    } else if j > 0 {
      BitOfAnd(v / 2, w / 2, j - 1);
    }
  }

  lemma {:induction false} BitOfNot(w: nat, width: nat, j: nat)
    requires w < OneBit(width) && j < width
    ensures Bit(Not(w, width), j) <==> !Bit(w, j)
  {
    if j > 0 {
      assert Not(w, width) / 2 == Not(w / 2, width - 1);
      BitOfNot(w / 2, width - 1, j - 1);
    }
  }

  lemma {:induction false} OrFits(v: nat, w: nat, width: nat)
    requires v < OneBit(width) && w < OneBit(width)
    ensures Or(v, w) < OneBit(width)
  {
    if v > 0 {
      OrFits(v / 2, w / 2, width - 1);
    }
  }

  lemma {:induction false} AndFits(v: nat, w: nat)
    ensures And(v, w) <= v
  {
    if v > 0 {
      AndFits(v / 2, w / 2);
    }
  }

  lemma {:induction false} OneBitGrows(i: nat, width: nat)
    requires i < width
    ensures OneBit(i) < OneBit(width)
  {
    if i + 1 < width {
      OneBitGrows(i, width - 1);
    }
  }

  lemma {:induction false} BitsDecide(v: nat, w: nat, width: nat)
    requires v < OneBit(width) && w < OneBit(width)
    requires forall j: nat :: j < width ==> (Bit(v, j) <==> Bit(w, j))
    ensures v == w
  {
    if width > 0 {
      assert Bit(v, 0) <==> Bit(w, 0);
      forall j: nat | j < width - 1 ensures Bit(v / 2, j) <==> Bit(w / 2, j) {
        assert Bit(v, j + 1) <==> Bit(w, j + 1);
      }
      BitsDecide(v / 2, w / 2, width - 1);
    }
  }

  lemma {:induction false} NoBitAbove(w: nat, i: nat)
    requires w < OneBit(i)
    ensures !Bit(w, i)
  {
    if i > 0 {
      NoBitAbove(w / 2, i - 1);
    }
  }

  // ---- The remainder by a power of two

  /** The remainder of `x` by `a`. */
  function Rem(x: nat, a: nat): (r: nat)
    requires a > 0
    ensures r < a
  {
    if x < a then x else Rem(x - a, a)
  }

  lemma {:induction false} RemOfHalf(x: nat, a: nat)
    requires a > 0
    ensures Rem(x, 2 * a) == 2 * Rem(x / 2, a) + x % 2
  {
    if x >= 2 * a {
      RemOfHalf(x - 2 * a, a);
    }
  }

  lemma {:induction false} AndZero(x: nat)
    ensures And(x, 0) == 0
  {
    if x > 0 {
      AndZero(x / 2);
    }
  }

  lemma {:induction false} RemOfOne(x: nat)
    ensures Rem(x, 1) == 0
  {
    if x > 0 {
      RemOfOne(x - 1);
    }
  }

  /** Masking with one less than a power of two gives the remainder. */
  lemma {:induction false} MaskIsRem(x: nat, k: nat)
    ensures And(x, OneBit(k) - 1) == Rem(x, OneBit(k))
  {
    if k == 0 {
      AndZero(x);
      RemOfOne(x);
    } else {
      var a := OneBit(k - 1);
      RemOfHalf(x, a);
      assert (2 * a - 1) / 2 == a - 1;
      MaskIsRem(x / 2, k - 1);
    }
  }
}

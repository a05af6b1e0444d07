/** Bytes as eight bits, least significant first, and the byte operations bitmaps are built from. */
module Bytes {
  type Byte = bv8

  /** `1 << k` */
  function One(k: nat): Byte
    requires k < 8
  {
    if k == 0 then 1 else if k == 1 then 2 else if k == 2 then 4 else if k == 3 then 8
    else if k == 4 then 16 else if k == 5 then 32 else if k == 6 then 64 else 128
  }

  function Shl(b: Byte, k: nat): Byte
    requires k < 8
  {
    if k == 0 then b else if k == 1 then b << 1 else if k == 2 then b << 2 else if k == 3 then b << 3
    else if k == 4 then b << 4 else if k == 5 then b << 5 else if k == 6 then b << 6 else b << 7
  }

  function Shr(b: Byte, k: nat): Byte
    requires k < 8
  {
    if k == 0 then b else if k == 1 then b >> 1 else if k == 2 then b >> 2 else if k == 3 then b >> 3
    else if k == 4 then b >> 4 else if k == 5 then b >> 5 else if k == 6 then b >> 6 else b >> 7
  }

  /** Whether bit `k` is set. */
  predicate Bit(b: Byte, k: nat)
    requires k < 8
  {
    Shr(b, k) & 1 != 0
  }

  lemma BitOfOr(a: Byte, b: Byte, k: nat)
    requires k < 8
    ensures Bit(a | b, k) <==> Bit(a, k) || Bit(b, k)
  {
    if k < 2 {
    } else if k < 4 {
    } else if k < 6 {
    }
  }

  lemma BitOfLow(b: Byte, n: nat, k: nat)
    requires n < 8 && k < 8
    ensures Bit(b & (One(n) - 1), k) <==> k < n && Bit(b, k)
  {
  }

  lemma BitOfHigh(b: Byte, n: nat, k: nat)
    requires n < 8 && k < 8
    ensures Bit(b & Shl(0xFF, n), k) <==> k >= n && Bit(b, k)
    ensures Bit(b | Shl(0xFF, n), k) <==> k >= n || Bit(b, k)
  {
  }

  lemma BitOfShl(b: Byte, n: nat, k: nat)
    requires n < 8 && k < 8
    ensures Bit(Shl(b, n), k) <==> k >= n && Bit(b, k - n)
  {
  }

  lemma BitOfShr(b: Byte, n: nat, k: nat)
    requires n < 8 && k < 8
    ensures Bit(Shr(b, n), k) <==> k + n < 8 && Bit(b, k + n)
  {
  }

  lemma BitOfSet(b: Byte, n: nat, k: nat)
    requires n < 8 && k < 8
    ensures Bit(b | One(n), k) <==> k == n || Bit(b, k)
  {
  }

  lemma BitOfOne(n: nat, k: nat)
    requires n < 8 && k < 8
    ensures Bit(One(n), k) <==> k == n
  {
  }

  lemma BitOfFlip(b: Byte, n: nat, k: nat)
    requires n < 8 && k < 8
    ensures Bit(b ^ One(n), k) <==> (if k == n then !Bit(b, k) else Bit(b, k))
  {
    if n < 2 {
    } else if n < 4 {
    } else if n < 6 {
    }
  }

  lemma BitsDecide(a: Byte, b: Byte)
    requires forall k :: 0 <= k < 8 ==> Bit(a, k) == Bit(b, k)
    ensures a == b
  {
    assert Bit(a, 0) == Bit(b, 0) && Bit(a, 1) == Bit(b, 1) && Bit(a, 2) == Bit(b, 2) && Bit(a, 3) == Bit(b, 3);
    assert Bit(a, 4) == Bit(b, 4) && Bit(a, 5) == Bit(b, 5) && Bit(a, 6) == Bit(b, 6) && Bit(a, 7) == Bit(b, 7);
  }

  lemma BitOfConstant(k: nat)
    requires k < 8
    ensures !Bit(0, k) && Bit(0xFF, k)
  {
  }

  function TrailingZeros(b: Byte): (n: nat)
    requires b != 0
    ensures n < 8 && Bit(b, n) && forall k :: 0 <= k < n ==> !Bit(b, k)
  {
    if Bit(b, 0) then 0 else if Bit(b, 1) then 1 else if Bit(b, 2) then 2 else if Bit(b, 3) then 3
    else if Bit(b, 4) then 4 else if Bit(b, 5) then 5 else if Bit(b, 6) then 6 else 7
  }
}

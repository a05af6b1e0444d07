/** Walking over the set bits of a byte array. */
module SetPositions {
  import opened Basics
  import opened Bytes
  import opened BitSets

  /** The set positions from `k` on, in increasing order. */
  function PositionsFrom(bytes: seq<Byte>, k: nat): seq<nat>
    decreases 8 * |bytes| - k
  {
    if k >= 8 * |bytes| then []
    else (if BitAt(bytes, k) then [k] else []) + PositionsFrom(bytes, k + 1)
  }

  /** They are exactly the set positions at or above `k`, and strictly increasing. */
  lemma {:induction false} PositionsAreExact(bytes: seq<Byte>, k: nat)
    ensures forall p :: p in PositionsFrom(bytes, k) <==> k <= p < 8 * |bytes| && BitAt(bytes, p)
    ensures forall i, j :: 0 <= i < j < |PositionsFrom(bytes, k)| ==>
            PositionsFrom(bytes, k)[i] < PositionsFrom(bytes, k)[j]
    decreases 8 * |bytes| - k
  {
    hide BitAt;
    if k < 8 * |bytes| {
      PositionsAreExact(bytes, k + 1);
      var more := PositionsFrom(bytes, k + 1);
      var all := PositionsFrom(bytes, k);
      assert all == (if BitAt(bytes, k) then [k] else []) + more;
      forall i, j | 0 <= i < j < |all| ensures all[i] < all[j] {
        if BitAt(bytes, k) {
          assert all[j] == more[j - 1] && more[j - 1] in more;
        }
      }
    }
  }

  /** Positions that are not set can be skipped. */
  lemma {:induction false} SkipUnset(bytes: seq<Byte>, k: nat, next: nat)
    requires k <= next && forall p :: k <= p < next && p < 8 * |bytes| ==> !BitAt(bytes, p)
    ensures PositionsFrom(bytes, k) == PositionsFrom(bytes, next)
    decreases next - k
  {
    hide BitAt;
    if k < next {
      SkipUnset(bytes, k + 1, next);
    }
  }

  class Iter {
    const bytes: seq<Byte>
    var byteIdx: nat
    var inProgress: Byte
    /** No position below this one is still to come. */
    ghost var next: nat

    /** `inProgress` holds the bits of the current byte that are still to come. */
    ghost predicate Valid()
      reads this
    {
      && 8 * byteIdx <= next <= 8 * byteIdx + 8
      && (byteIdx >= |bytes| ==> inProgress == 0)
      && (byteIdx < |bytes| ==> forall k :: 0 <= k < 8 ==>
            (Bit(inProgress, k) <==> 8 * byteIdx + k >= next && Bit(bytes[byteIdx], k)))
    }

    ghost function Remaining(): seq<nat>
      reads this
    {
      PositionsFrom(bytes, next)
    }

    constructor (bytes: seq<Byte>, offset: nat)
      ensures Valid() && this.bytes == bytes && Remaining() == PositionsFrom(bytes, offset)
    {
      var byteIdx := offset / 8;
      var b := if byteIdx < |bytes| then bytes[byteIdx] else 0;
      this.bytes, this.byteIdx, next := bytes, byteIdx, offset;
      inProgress := b & Shl(0xFF, offset % 8);
      new;
      hide Bit, Shl;
      forall k | 0 <= k < 8 ensures Bit(inProgress, k) <==> 8 * byteIdx + k >= next && Bit(b, k) {
        BitOfHigh(b, offset % 8, k);
      }
      if byteIdx >= |bytes| {
        NothingLeft(offset % 8);
      }
    }

    method Next() returns (r: Option<nat>)
      requires Valid()
      modifies this
      ensures Valid()
      ensures if old(Remaining()) == [] then r == None && Remaining() == []
              else r == Some(old(Remaining())[0]) && Remaining() == old(Remaining())[1..]
    {
      hide Bit, One;
      while inProgress == 0
        invariant Valid() && Remaining() == old(Remaining())
        decreases |bytes| - byteIdx
      {
        ZeroHasNoBits();
        SkipByte(bytes, next, byteIdx);
        byteIdx, next := byteIdx + 1, 8 * byteIdx + 8;
        if byteIdx >= |bytes| {
          return None;
        }
        inProgress := bytes[byteIdx];
      }
      var bitPos := TrailingZeros(inProgress);
      ghost var before := inProgress;
      inProgress := inProgress ^ One(bitPos);
      var pos := byteIdx * 8 + bitPos;
      TakeFirst(bytes, next, byteIdx, before, bitPos);
      forall k | 0 <= k < 8 ensures Bit(inProgress, k) <==> 8 * byteIdx + k >= pos + 1 && Bit(bytes[byteIdx], k) {
        BitOfFlip(before, bitPos, k);
      }
      next := pos + 1;
      r := Some(pos);
    }
  }

  lemma NothingLeft(n: nat)
    requires n < 8
    ensures 0 & Shl(0xFF, n) == 0
  {
  }

  lemma ZeroHasNoBits()
    ensures forall k :: 0 <= k < 8 ==> !Bit(0, k)
  {
    forall k | 0 <= k < 8 ensures !Bit(0, k) {
      BitOfConstant(k);
    }
  }

  lemma SkipByte(bytes: seq<Byte>, next: nat, byteIdx: nat)
    requires 8 * byteIdx <= next <= 8 * byteIdx + 8
    requires byteIdx < |bytes| ==> forall k :: 0 <= k < 8 && 8 * byteIdx + k >= next ==> !Bit(bytes[byteIdx], k)
    ensures PositionsFrom(bytes, next) == PositionsFrom(bytes, 8 * byteIdx + 8)
    ensures byteIdx >= |bytes| - 1 ==> PositionsFrom(bytes, next) == []
  {
    hide Bit;
    forall p | next <= p < 8 * byteIdx + 8 && p < 8 * |bytes| ensures !BitAt(bytes, p) {
      assert p / 8 == byteIdx && p == 8 * byteIdx + p % 8;
    }
    SkipUnset(bytes, next, 8 * byteIdx + 8);
  }

  /** The lowest bit still to come is the next position. */
  lemma TakeFirst(bytes: seq<Byte>, next: nat, byteIdx: nat, inProgress: Byte, bitPos: nat)
    requires byteIdx < |bytes| && 8 * byteIdx <= next <= 8 * byteIdx + 8 && bitPos < 8
    requires forall k :: 0 <= k < 8 ==> (Bit(inProgress, k) <==> 8 * byteIdx + k >= next && Bit(bytes[byteIdx], k))
    requires Bit(inProgress, bitPos) && forall k :: 0 <= k < bitPos ==> !Bit(inProgress, k)
    ensures PositionsFrom(bytes, next) == [8 * byteIdx + bitPos] + PositionsFrom(bytes, 8 * byteIdx + bitPos + 1)
  {
    hide Bit;
    var pos := 8 * byteIdx + bitPos;
    assert pos / 8 == byteIdx && pos % 8 == bitPos;
    forall p | next <= p < pos ensures !BitAt(bytes, p) {
      assert p / 8 == byteIdx && p == 8 * byteIdx + p % 8;
    }
    SkipUnset(bytes, next, pos);
    assert BitAt(bytes, pos);
  }
}

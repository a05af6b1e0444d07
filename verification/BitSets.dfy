/** The bit set: a sequence of booleans packed eight to a byte, padded with zeros. */
module BitSets {
  import opened Bytes

  // ---------------------------------------------------------------------------------------------
  // Packed sequences
  // ---------------------------------------------------------------------------------------------

  predicate BitAt(bytes: seq<Byte>, i: nat)
    requires i < 8 * |bytes|
  {
    Bit(bytes[i / 8], i % 8)
  }

  /** All the bits of `bytes`. */
  function AllBits(bytes: seq<Byte>): (bits: seq<bool>)
    ensures |bits| == 8 * |bytes|
    ensures forall i :: 0 <= i < |bits| ==> bits[i] == BitAt(bytes, i)
  {
    seq(8 * |bytes|, i requires 0 <= i < 8 * |bytes| => BitAt(bytes, i))
  }

  /** `bytes` holds exactly `bits`: no byte too many, and zeros behind the last bit. */
  predicate Packs(bytes: seq<Byte>, bits: seq<bool>) {
    && |bytes| == (|bits| + 7) / 8
    && forall i :: 0 <= i < 8 * |bytes| ==> (BitAt(bytes, i) <==> i < |bits| && bits[i])
  }

  /** Equal bit sequences have identical bytes. */
  lemma PackedBytesAreUnique(a: seq<Byte>, b: seq<Byte>, bits: seq<bool>)
    requires Packs(a, bits) && Packs(b, bits)
    ensures a == b
  {
    forall n | 0 <= n < |a| ensures a[n] == b[n] {
      forall k | 0 <= k < 8 ensures Bit(a[n], k) == Bit(b[n], k) {
        var i := 8 * n + k;
        assert i / 8 == n && i % 8 == k;
        assert BitAt(a, i) == BitAt(b, i);
      }
      BitsDecide(a[n], b[n]);
    }
  }

  lemma BitAtAppend(a: seq<Byte>, b: seq<Byte>, i: nat)
    requires i < 8 * |a + b|
    ensures BitAt(a + b, i) == if i < 8 * |a| then BitAt(a, i) else BitAt(b, i - 8 * |a|)
  {
    if i >= 8 * |a| {
      assert (i - 8 * |a|) / 8 == i / 8 - |a| && (i - 8 * |a|) % 8 == i % 8;
    }
  }

  lemma BitAtOne(b: Byte, k: nat)
    requires k < 8
    ensures BitAt([b], k) == Bit(b, k)
  {
  }

  /** Whole bytes behind whole bytes. */
  lemma AppendAligned(bytes: seq<Byte>, bits: seq<bool>, more: seq<Byte>)
    requires Packs(bytes, bits) && |bits| % 8 == 0
    ensures Packs(bytes + more, bits + AllBits(more))
  {
    hide BitAt;
    forall i | 0 <= i < 8 * |bytes + more|
      ensures BitAt(bytes + more, i) <==> i < |bits + AllBits(more)| && (bits + AllBits(more))[i]
    {
      BitAtAppend(bytes, more, i);
    }
  }

  function LowBits(b: Byte, n: nat): (bits: seq<bool>)
    requires n <= 8
    ensures |bits| == n && forall k :: 0 <= k < n ==> bits[k] == Bit(b, k)
  {
    seq(n, k requires 0 <= k < n => Bit(b, k))
  }

  /** The first bits of a byte behind whole bytes. */
  lemma AppendPart(bytes: seq<Byte>, bits: seq<bool>, b: Byte, n: nat)
    requires Packs(bytes, bits) && |bits| % 8 == 0 && 0 < n < 8
    ensures Packs(bytes + [b & (One(n) - 1)], bits + LowBits(b, n))
  {
    hide BitAt, Bit, One;
    var masked := b & (One(n) - 1);
    var bytes', bits' := bytes + [masked], bits + LowBits(b, n);
    forall i | 0 <= i < 8 * |bytes'| ensures BitAt(bytes', i) <==> i < |bits'| && bits'[i] {
      BitAtAppend(bytes, [masked], i);
      if i >= 8 * |bytes| {
        BitAtOne(masked, i - 8 * |bytes|);
        BitOfLow(b, n, i - 8 * |bytes|);
      }
    }
  }

  function OrLast(bytes: seq<Byte>, b: Byte): (r: seq<Byte>)
    requires bytes != []
    ensures |r| == |bytes|
  {
    bytes[|bytes| - 1 := bytes[|bytes| - 1] | b]
  }

  lemma BitAtOrLast(bytes: seq<Byte>, b: Byte, i: nat)
    requires bytes != [] && i < 8 * |bytes|
    ensures BitAt(OrLast(bytes, b), i) <==> BitAt(bytes, i) || (i / 8 == |bytes| - 1 && Bit(b, i % 8))
  {
    hide Bit;
    if i / 8 == |bytes| - 1 {
      BitOfOr(bytes[|bytes| - 1], b, i % 8);
    }
  }

  /** A byte behind a partial byte: its low bits fill that byte up, the others start the next. */
  lemma AppendSkewed(bytes: seq<Byte>, bits: seq<bool>, b: Byte)
    requires Packs(bytes, bits) && |bits| % 8 != 0
    ensures var skew := |bits| % 8;
            Packs(OrLast(bytes, Shl(b, skew)) + [Shr(b, 8 - skew)], bits + LowBits(b, 8))
  {
    hide BitAt, Bit, Shl, Shr, OrLast;
    var skew := |bits| % 8;
    var low, high := OrLast(bytes, Shl(b, skew)), Shr(b, 8 - skew);
    var bytes', bits' := low + [high], bits + LowBits(b, 8);
    forall i | 0 <= i < 8 * |bytes'| ensures BitAt(bytes', i) <==> i < |bits'| && bits'[i] {
      BitAtAppend(low, [high], i);
      if i < 8 * |bytes| {
        FilledByte(bytes, bits, b, i);
      } else {
        BitAtOne(high, i - 8 * |bytes|);
        BitOfShr(b, 8 - skew, i - 8 * |bytes|);
      }
    }
  }

  /** Filling up the last byte with the low bits of `b`. */
  lemma FilledByte(bytes: seq<Byte>, bits: seq<bool>, b: Byte, i: nat)
    requires Packs(bytes, bits) && |bits| % 8 != 0 && i < 8 * |bytes|
    ensures var skew := |bits| % 8;
            BitAt(OrLast(bytes, Shl(b, skew)), i) <==> if i < |bits| then bits[i] else Bit(b, i - |bits|)
  {
    hide BitAt, Bit, Shl, OrLast;
    var skew := |bits| % 8;
    BitAtOrLast(bytes, Shl(b, skew), i);
    assert i >= |bits| ==> i / 8 == |bytes| - 1;
    if i / 8 == |bytes| - 1 {
      BitOfShl(b, skew, i % 8);
      assert i % 8 - skew == i - |bits|;
    }
  }

  /** The low bits of a byte as far as they fit into the partial last byte. */
  lemma PartFilled(bytes: seq<Byte>, bits: seq<bool>, b: Byte, n: nat, i: nat)
    requires Packs(bytes, bits) && |bits| % 8 != 0 && 0 < n < 8 && i < 8 * |bytes|
    ensures var bits' := bits + LowBits(b, n);
            BitAt(OrLast(bytes, Shl(b & (One(n) - 1), |bits| % 8)), i) <==> i < |bits'| && bits'[i]
  {
    hide BitAt, Bit, Shl, One, OrLast;
    FilledByte(bytes, bits, b & (One(n) - 1), i);
    if i >= |bits| {
      BitOfLow(b, n, i - |bits|);
    }
  }

  lemma PartSpilled(bits: seq<bool>, b: Byte, n: nat, k: nat)
    requires |bits| % 8 != 0 && 0 < n < 8 && k < 8
    ensures var skew, bits' := |bits| % 8, bits + LowBits(b, n); var i := 8 * ((|bits| + 7) / 8) + k;
            BitAt([Shr(b & (One(n) - 1), 8 - skew)], k) <==> i < |bits'| && bits'[i]
  {
    hide BitAt, Bit, Shr, One;
    var skew, masked := |bits| % 8, b & (One(n) - 1);
    BitAtOne(Shr(masked, 8 - skew), k);
    BitOfShr(masked, 8 - skew, k);
    if k + (8 - skew) < 8 {
      BitOfLow(b, n, k + (8 - skew));
    }
  }

  /** The first bits of a byte behind a partial byte; they may or may not need another byte. */
  lemma AppendSkewedPart(bytes: seq<Byte>, bits: seq<bool>, b: Byte, n: nat)
    requires Packs(bytes, bits) && |bits| % 8 != 0 && 0 < n < 8
    ensures var skew := |bits| % 8; var masked := b & (One(n) - 1); var low := OrLast(bytes, Shl(masked, skew));
            Packs(if n > 8 - skew then low + [Shr(masked, 8 - skew)] else low, bits + LowBits(b, n))
  {
    hide BitAt, Bit, Shl, Shr, One, OrLast, LowBits;
    var skew := |bits| % 8;
    var masked := b & (One(n) - 1);
    var low, high := OrLast(bytes, Shl(masked, skew)), Shr(masked, 8 - skew);
    var bytes', bits' := if n > 8 - skew then low + [high] else low, bits + LowBits(b, n);
    forall i | 0 <= i < 8 * |bytes'| ensures BitAt(bytes', i) <==> i < |bits'| && bits'[i] {
      if n > 8 - skew {
        BitAtAppend(low, [high], i);
      }
      if i < 8 * |bytes| {
        PartFilled(bytes, bits, b, n, i);
      } else {
        PartSpilled(bits, b, n, i - 8 * |bytes|);
      }
    }
  }

  // ---------------------------------------------------------------------------------------------
  // Packing
  // ---------------------------------------------------------------------------------------------

  /** At most eight bits as a byte. */
  function PackByte(bits: seq<bool>): Byte
    requires |bits| <= 8
  {
    if bits == [] then 0
    else PackByte(bits[..|bits| - 1]) | if bits[|bits| - 1] then One(|bits| - 1) else 0
  }

  lemma {:induction false} BitOfPacked(bits: seq<bool>, k: nat)
    requires |bits| <= 8 && k < 8
    ensures Bit(PackByte(bits), k) <==> k < |bits| && bits[k]
  {
    hide Bit, One;
    BitOfConstant(k);
    if bits != [] {
      var init := bits[..|bits| - 1];
      BitOfPacked(init, k);
      BitOfOr(PackByte(init), if bits[|bits| - 1] then One(|bits| - 1) else 0, k);
      BitOfOne(|bits| - 1, k);
    }
  }

  /** The bits from `8 * n` on that make up byte `n`. */
  function Slice8(bits: seq<bool>, n: nat): (r: seq<bool>)
    requires 8 * n <= |bits|
    ensures |r| <= 8
  {
    if 8 * n + 8 <= |bits| then bits[8 * n..8 * n + 8] else bits[8 * n..]
  }

  function Pack(bits: seq<bool>): seq<Byte> {
    seq((|bits| + 7) / 8, n requires 0 <= n < (|bits| + 7) / 8 => PackByte(Slice8(bits, n)))
  }

  /** Every bit sequence can be packed. */
  lemma PackPacks(bits: seq<bool>)
    ensures Packs(Pack(bits), bits)
  {
    hide Bit, PackByte;
    forall i | 0 <= i < 8 * |Pack(bits)| ensures BitAt(Pack(bits), i) <==> i < |bits| && bits[i] {
      BitOfPacked(Slice8(bits, i / 8), i % 8);
    }
  }

  // ---------------------------------------------------------------------------------------------
  // Resizing
  // ---------------------------------------------------------------------------------------------

  function Repeat<T>(x: T, n: nat): (r: seq<T>)
    ensures |r| == n && forall k :: 0 <= k < n ==> r[k] == x
  {
    seq(n, _ => x)
  }

  /** `Vec::resize`: cuts off, or fills up with `b`. */
  function Resize(bytes: seq<Byte>, n: nat, b: Byte): (r: seq<Byte>)
    ensures |r| == n && forall k :: 0 <= k < n ==> r[k] == if k < |bytes| then bytes[k] else b
  {
    if n <= |bytes| then bytes[..n] else bytes + Repeat(b, n - |bytes|)
  }

  lemma AppendUnsetPacks(bytes: seq<Byte>, bits: seq<bool>, count: nat)
    requires Packs(bytes, bits)
    ensures Packs(Resize(bytes, (|bits| + count + 7) / 8, 0), bits + Repeat(false, count))
  {
    hide Bit;
    var bytes' := Resize(bytes, (|bits| + count + 7) / 8, 0);
    forall i | 0 <= i < 8 * |bytes'| ensures BitAt(bytes', i) <==> i < |bits| && bits[i] {
      if i < 8 * |bytes| {
        assert BitAt(bytes', i) == BitAt(bytes, i);
      } else {
        BitOfConstant(i % 8);
      }
    }
  }

  /** The last byte cut down to its low `n` bits, or left alone for `n == 0`. */
  function MaskLast(bytes: seq<Byte>, n: nat): (r: seq<Byte>)
    requires n < 8 && (n > 0 ==> bytes != [])
    ensures |r| == |bytes|
  {
    if n == 0 then bytes else bytes[|bytes| - 1 := bytes[|bytes| - 1] & (One(n) - 1)]
  }

  lemma BitAtMaskLast(bytes: seq<Byte>, n: nat, i: nat)
    requires n < 8 && (n > 0 ==> bytes != []) && i < 8 * |bytes|
    ensures BitAt(MaskLast(bytes, n), i) <==> BitAt(bytes, i) && (n == 0 || i / 8 < |bytes| - 1 || i % 8 < n)
  {
    hide Bit, One;
    if n > 0 && i / 8 == |bytes| - 1 {
      BitOfLow(bytes[|bytes| - 1], n, i % 8);
    }
  }

  /** All bits of `bytes` set as in `bits` as far as `bits` goes, nothing said about the others. */
  predicate Holds(bytes: seq<Byte>, bits: seq<bool>) {
    && |bytes| == (|bits| + 7) / 8
    && forall i :: 0 <= i < |bits| ==> BitAt(bytes, i) == bits[i]
  }

  /** Masking the last byte clears what is behind the last bit. */
  lemma MaskPacks(bytes: seq<Byte>, bits: seq<bool>)
    requires Holds(bytes, bits)
    ensures Packs(MaskLast(bytes, |bits| % 8), bits)
  {
    hide Bit, One;
    var n := |bits| % 8;
    var bytes' := MaskLast(bytes, n);
    forall i | 0 <= i < 8 * |bytes'| ensures BitAt(bytes', i) <==> i < |bits| && bits[i] {
      BitAtMaskLast(bytes, n, i);
    }
  }

  /** The first `n` bits, with unset ones behind if there are fewer. */
  function Fit(bits: seq<bool>, n: nat): (r: seq<bool>)
    ensures |r| == n
  {
    if n <= |bits| then bits[..n] else bits + Repeat(false, n - |bits|)
  }

  lemma TruncatePacks(bytes: seq<Byte>, bits: seq<bool>, n: nat)
    requires Packs(bytes, bits) && (n + 7) / 8 <= |bytes|
    ensures Packs(MaskLast(bytes[..(n + 7) / 8], n % 8), Fit(bits, n))
  {
    hide Bit, MaskLast;
    var bytes', bits' := bytes[..(n + 7) / 8], Fit(bits, n);
    forall i | 0 <= i < n ensures BitAt(bytes', i) == bits'[i] {
      assert BitAt(bytes', i) == BitAt(bytes, i);
    }
    MaskPacks(bytes', bits');
  }

  /** The rest of the last byte filled up with ones, then whole bytes of ones, then cut off. */
  lemma AppendSetPacks(bytes: seq<Byte>, bits: seq<bool>, count: nat)
    requires Packs(bytes, bits)
    ensures var skew, n := |bits| % 8, |bits| + count;
            var filled := if skew != 0 then OrLast(bytes, Shl(0xFF, skew)) else bytes;
            Packs(MaskLast(Resize(filled, (n + 7) / 8, 0xFF), n % 8), bits + Repeat(true, count))
  {
    hide Bit, Shl, OrLast, MaskLast;
    var skew := |bits| % 8;
    var filled := if skew != 0 then OrLast(bytes, Shl(0xFF, skew)) else bytes;
    var bytes', bits' := Resize(filled, (|bits| + count + 7) / 8, 0xFF), bits + Repeat(true, count);
    forall i | 0 <= i < |bits'| ensures BitAt(bytes', i) == bits'[i] {
      BitOfConstant(i % 8);
      if i < 8 * |bytes| {
        assert BitAt(bytes', i) == BitAt(filled, i);
        if skew != 0 {
          FilledByte(bytes, bits, 0xFF, i);
          if i >= |bits| {
            BitOfConstant(i - |bits|);
          }
        }
      }
    }
    MaskPacks(bytes', bits');
  }

  // ---------------------------------------------------------------------------------------------
  // The bit set
  // ---------------------------------------------------------------------------------------------

  /** The bits a whole run of bytes adds, byte by byte. */
  lemma AllBitsAppend(a: seq<Byte>, b: Byte)
    ensures AllBits(a + [b]) == AllBits(a) + LowBits(b, 8)
  {
    hide Bit, BitAt;
    forall i | 0 <= i < 8 * |a + [b]| ensures AllBits(a + [b])[i] == (AllBits(a) + LowBits(b, 8))[i] {
      BitAtAppend(a, [b], i);
      if i >= 8 * |a| {
        BitAtOne(b, i - 8 * |a|);
      }
    }
  }

  /** `count` bits of `bytes`: the whole bytes and the first bits of the last one. */
  lemma BitsSplit(bytes: seq<Byte>, count: nat)
    requires |bytes| == (count + 7) / 8
    ensures var whole := count / 8;
            AllBits(bytes)[..count] == AllBits(bytes[..whole])
              + if count % 8 == 0 then [] else LowBits(bytes[whole], count % 8)
  {
    hide Bit;
    var whole := count / 8;
    forall i | 0 <= i < count
      ensures AllBits(bytes)[i] == if i < 8 * whole then AllBits(bytes[..whole])[i]
                                   else LowBits(bytes[whole], count % 8)[i - 8 * whole]
    {
      assert BitAt(bytes, i) == Bit(bytes[i / 8], i % 8);
    }
  }

  class BitSet {
    var buffer: seq<Byte>
    var len: nat

    /** The bits the set stands for. */
    ghost function Contents(): (bits: seq<bool>)
      requires len <= 8 * |buffer|
      reads this
      ensures |bits| == len
    {
      AllBits(buffer)[..len]
    }

    /** The buffer is as long as it must be and its padding is zero. */
    ghost predicate Valid()
      reads this
    {
      len <= 8 * |buffer| && Packs(buffer, Contents())
    }

    constructor ()
      ensures Valid() && Contents() == []
    {
      buffer, len := [], 0;
    }

    constructor WithSize(count: nat)
      ensures Valid() && Contents() == Repeat(false, count)
    {
      buffer, len := [], 0;
      new;
      AppendUnset(count);
    }

    method AppendUnset(count: nat)
      requires Valid()
      modifies this
      ensures Valid() && Contents() == old(Contents()) + Repeat(false, count)
    {
      ghost var bits := Contents();
      len := len + count;
      buffer := Resize(buffer, (len + 7) / 8, 0);
      AppendUnsetPacks(old(buffer), bits, count);
      ContentsArePacked(buffer, bits + Repeat(false, count));
    }

    method AppendSet(count: nat)
      requires Valid()
      modifies this
      ensures Valid() && Contents() == old(Contents()) + Repeat(true, count)
    {
      hide Bit, Shl, One, BitAt, AllBits, Packs, OrLast, Resize;
      ghost var bits := Contents();
      PackedLength(buffer, bits);
      AppendSetPacks(buffer, bits, count);
      var newLen := len + count;
      var skew := len % 8;
      if skew != 0 {
        buffer := OrLast(buffer, Shl(0xFF, skew));
      }
      buffer := Resize(buffer, (newLen + 7) / 8, 0xFF);
      buffer := MaskLast(buffer, newLen % 8);
      len := newLen;
      ContentsArePacked(buffer, bits + Repeat(true, count));
    }

    /** Cutting down to `newLen` bits. A longer length is only good as far as the buffer goes: beyond it the last byte
        is masked all the same, and the set is not valid. */
    method Truncate(newLen: nat)
      requires Valid() && (newLen % 8 != 0 ==> buffer != [])
      modifies this
      ensures len == newLen && (Valid() <==> (newLen + 7) / 8 <= |old(buffer)|)
      ensures newLen <= old(len) ==> Valid() && Contents() == old(Contents())[..newLen]
      ensures old(len) < newLen && Valid() ==> Contents() == old(Contents()) + Repeat(false, newLen - old(len))
      ensures |buffer| == if (newLen + 7) / 8 < |old(buffer)| then (newLen + 7) / 8 else |old(buffer)|
      ensures forall i :: 0 <= i < 8 * |buffer| ==>
                (BitAt(buffer, i) <==>
                 BitAt(old(buffer), i) && (newLen % 8 == 0 || i / 8 < |buffer| - 1 || i % 8 < newLen % 8))
    {
      hide Bit, One, BitAt, AllBits, Packs, MaskLast;
      ghost var bits := Contents();
      PackedLength(buffer, bits);
      var newBufLen := (newLen + 7) / 8;
      if newBufLen < |buffer| {
        buffer := buffer[..newBufLen];
      }
      ghost var cut := buffer;
      buffer := MaskLast(buffer, newLen % 8);
      forall i | 0 <= i < 8 * |buffer|
        ensures BitAt(buffer, i) <==>
                BitAt(old(buffer), i) && (newLen % 8 == 0 || i / 8 < |buffer| - 1 || i % 8 < newLen % 8)
      {
        BitAtMaskLast(cut, newLen % 8, i);
        BitAtPrefix(old(buffer), |cut|, i);
        assert cut == old(buffer)[..|cut|];
      }
      len := newLen;
      if newBufLen <= |old(buffer)| {
        assert old(buffer)[..newBufLen] == if newBufLen < |old(buffer)| then old(buffer)[..newBufLen] else old(buffer);
        TruncatePacks(old(buffer), bits, newLen);
        ContentsArePacked(buffer, Fit(bits, newLen));
      }
    }

    /** The branch of `AppendBits` for a set that ends at a byte boundary. */
    method AppendBytes(count: nat, toSet: seq<Byte>, ghost bits: seq<bool>)
      requires Packs(buffer, bits) && |bits| % 8 == 0 && |toSet| == (count + 7) / 8
      modifies this`buffer
      ensures Packs(buffer, bits + AllBits(toSet)[..count])
    {
      hide Bit, One, BitAt, AllBits, Packs, LowBits;
      BitsSplit(toSet, count);
      var wholeBytes, overrun := count / 8, count % 8;
      ghost var bits' := bits + AllBits(toSet[..wholeBytes]);
      AppendAligned(buffer, bits, toSet[..wholeBytes]);
      buffer := buffer + toSet[..wholeBytes];
      if overrun > 0 {
        var masked := toSet[wholeBytes] & (One(overrun) - 1);
        AppendPart(buffer, bits', toSet[wholeBytes], overrun);
        assert bits' + LowBits(toSet[wholeBytes], overrun) == bits + AllBits(toSet)[..count];
        buffer := buffer + [masked];
      } else {
        assert bits' == bits + AllBits(toSet)[..count];
      }
    }

    method AppendShiftedByte(b: Byte, skew: nat, ghost bits: seq<bool>)
      requires Packs(buffer, bits) && skew == |bits| % 8 != 0
      modifies this`buffer
      ensures Packs(buffer, bits + LowBits(b, 8))
    {
      hide Bit, Shl, Shr, BitAt, Packs, OrLast, LowBits;
      PackedLength(buffer, bits);
      AppendSkewed(buffer, bits, b);
      var low, high := Shl(b, skew), Shr(b, 8 - skew);
      buffer := OrLast(buffer, low);
      buffer := buffer + [high];
    }

    /** The branch for a set that ends within a byte: every byte is cut in two. */
    method AppendShifted(count: nat, toSet: seq<Byte>, skew: nat, ghost bits: seq<bool>)
      requires Packs(buffer, bits) && skew == |bits| % 8 != 0 && |toSet| == (count + 7) / 8
      modifies this`buffer
      ensures Packs(buffer, bits + AllBits(toSet)[..count])
    {
      hide Bit, Shl, Shr, One, BitAt, AllBits, Packs, OrLast, LowBits;
      var wholeBytes, overrun := count / 8, count % 8;
      NoBits();
      ghost var bits' := bits;
      assert toSet[..0] == [] && bits + [] == bits;
      for i := 0 to wholeBytes
        invariant Packs(buffer, bits') && bits' == bits + AllBits(toSet[..i]) && |bits'| % 8 == skew
      {
        AppendShiftedByte(toSet[i], skew, bits');
        AllBitsAppend(toSet[..i], toSet[i]);
        assert toSet[..i + 1] == toSet[..i] + [toSet[i]];
        bits' := bits' + LowBits(toSet[i], 8);
      }
      BitsSplit(toSet, count);
      if overrun > 0 {
        PackedLength(buffer, bits');
        AppendSkewedPart(buffer, bits', toSet[wholeBytes], overrun);
        assert bits' + LowBits(toSet[wholeBytes], overrun) == bits + AllBits(toSet)[..count];
        var masked := toSet[wholeBytes] & (One(overrun) - 1);
        buffer := OrLast(buffer, Shl(masked, skew));
        if overrun > 8 - skew {
          buffer := buffer + [Shr(masked, 8 - skew)];
        }
      } else {
        assert bits' == bits + AllBits(toSet)[..count];
      }
    }

    /** Appends the first `count` of the bits packed in `toSet`. */
    method AppendBits(count: nat, toSet: seq<Byte>)
      requires Valid() && |toSet| == (count + 7) / 8
      modifies this
      ensures Valid() && Contents() == old(Contents()) + AllBits(toSet)[..count]
    {
      hide BitAt, AllBits, Packs;
      ghost var bits := Contents();
      if len % 8 == 0 {
        AppendBytes(count, toSet, bits);
      } else {
        AppendShifted(count, toSet, len % 8, bits);
      }
      len := len + count;
      ContentsArePacked(buffer, bits + AllBits(toSet)[..count]);
      PackedLength(buffer, bits + AllBits(toSet)[..count]);
    }

    method ExtendFrom(other: BitSet)
      requires Valid() && other.Valid() && other != this
      modifies this
      ensures Valid() && Contents() == old(Contents()) + other.Contents()
    {
      PackedLength(other.buffer, other.Contents());
      AppendBits(other.len, other.buffer);
    }

    /** Appends bits `start..end` of `other`; its padding counts as unset bits. */
    method ExtendFromRange(other: BitSet, start: nat, end: nat)
      requires Valid() && other.Valid() && other != this && start <= end
      requires start < end ==> (end + 7) / 8 <= |other.buffer|
      modifies this
      ensures Valid()
      ensures Contents() == old(Contents()) + if start == end then [] else Fit(other.Contents(), end)[start..]
    {
      hide Bit, Shr, BitAt, AllBits, Packs;
      var count := end - start;
      if count == 0 {
        return;
      }
      ContentsFit(other.buffer, other.Contents(), end);
      var startByte, endByte, skew := start / 8, (end + 7) / 8, start % 8;
      if skew == 0 {
        AlignedRange(other.buffer, start, end);
        AppendBits(count, other.buffer[startByte..endByte]);
      } else if startByte + 1 == endByte {
        RangeInByte(other.buffer, start, end);
        AppendBits(count, [Shr(other.buffer[startByte], skew)]);
      } else {
        var offset := 8 - skew;
        RangeAcrossBytes(other.buffer, start, end);
        AppendBits(offset, [Shr(other.buffer[startByte], skew)]);
        AppendBits(count - offset, other.buffer[startByte + 1..endByte]);
      }
    }

    /** Sets one bit. The position behind the last bit is let through, and then breaks the padding. */
    method Set(idx: nat)
      requires Valid() && idx <= len && idx / 8 < |buffer|
      modifies this
      ensures len == old(len) && (Valid() <==> idx < len)
      ensures idx < len ==> Contents() == old(Contents())[idx := true]
    {
      hide Bit, One;
      ghost var bits := Contents();
      var byteIdx, bitIdx := idx / 8, idx % 8;
      buffer := buffer[byteIdx := buffer[byteIdx] | One(bitIdx)];
      forall i: nat | i < 8 * |buffer| ensures BitAt(buffer, i) <==> i == idx || BitAt(old(buffer), i) {
        BitOfSet(old(buffer)[byteIdx], bitIdx, i % 8);
      }
      if idx < len {
        ContentsArePacked(buffer, bits[idx := true]);
      } else {
        assert BitAt(buffer, idx);
      }
    }

    method Get(idx: nat) returns (r: bool)
      requires Valid() && idx <= len && idx / 8 < |buffer|
      ensures r <==> idx < len && Contents()[idx]
    {
      var byteIdx, bitIdx := idx / 8, idx % 8;
      assert BitAt(buffer, idx) <==> idx < len && Contents()[idx];
      r := Shr(buffer[byteIdx], bitIdx) & 1 != 0;
    }

    /** What the check for all bits set says: it leaves out the last full byte before a partial one. */
    method IsAllSet() returns (r: bool)
      requires Valid()
      ensures r <==> SeemsAllSet(Contents())
    {
      ghost var bits := Contents();
      hide Bit, Shl, AllBits, Packs, SeemsAllSet;
      PackedLength(buffer, bits);
      EmptyIsNotAllSet();
      if len == 0 {
        return false;
      }
      var fullBlocks := if len / 8 > 0 then len / 8 - 1 else 0;
      for k := 0 to fullBlocks
        invariant forall j :: 0 <= j < k ==> buffer[j] == 0xFF
      {
        if buffer[k] != 0xFF {
          SomeUnset(buffer, bits, k);
          return false;
        }
      }
      var mask := if len % 8 != 0 then !Shl(0xFF, len % 8) else 0xFF;
      r := buffer[|buffer| - 1] == mask;
      LastByteDecides(buffer, bits, fullBlocks, mask);
    }

    method IsAllUnset() returns (r: bool)
      requires Valid()
      ensures r <==> forall i :: 0 <= i < len ==> !Contents()[i]
    {
      for k := 0 to |buffer|
        invariant forall j :: 0 <= j < k ==> buffer[j] == 0
      {
        if buffer[k] != 0 {
          var bit := TrailingZeros(buffer[k]);
          assert (8 * k + bit) / 8 == k && (8 * k + bit) % 8 == bit;
          assert BitAt(buffer, 8 * k + bit);
          assert Contents()[8 * k + bit];
          return false;
        }
      }
      forall i | 0 <= i < len ensures !Contents()[i] {
        BitOfConstant(i % 8);
        assert BitAt(buffer, i) == Contents()[i];
      }
      r := true;
    }
  }

  // ---------------------------------------------------------------------------------------------
  // Ranges
  // ---------------------------------------------------------------------------------------------

  lemma NoBits()
    ensures AllBits([]) == []
  {
  }

  lemma ContentsFit(bytes: seq<Byte>, bits: seq<bool>, end: nat)
    requires Packs(bytes, bits) && end <= 8 * |bytes|
    ensures AllBits(bytes)[..end] == Fit(bits, end)
  {
    hide BitAt;
  }

  lemma AlignedRange(bytes: seq<Byte>, start: nat, end: nat)
    requires start < end <= 8 * |bytes| && start % 8 == 0
    ensures var startByte, endByte := start / 8, (end + 7) / 8;
            && endByte - startByte == (end - start + 7) / 8 && endByte <= |bytes|
            && AllBits(bytes[startByte..endByte])[..end - start] == AllBits(bytes)[..end][start..]
  {
    hide Bit;
    var part := bytes[start / 8..(end + 7) / 8];
    forall i | 0 <= i < end - start ensures BitAt(part, i) == BitAt(bytes, start + i) {
      assert (start + i) / 8 == start / 8 + i / 8 && (start + i) % 8 == i % 8;
    }
  }

  lemma ShiftedByte(bytes: seq<Byte>, start: nat, k: nat)
    requires start < 8 * |bytes| && start % 8 + k < 8
    ensures AllBits([Shr(bytes[start / 8], start % 8)])[k] == AllBits(bytes)[start + k]
  {
    hide Bit, Shr;
    assert (start + k) / 8 == start / 8 && (start + k) % 8 == start % 8 + k;
    BitAtOne(Shr(bytes[start / 8], start % 8), k);
    BitOfShr(bytes[start / 8], start % 8, k);
  }

  lemma RangeInByte(bytes: seq<Byte>, start: nat, end: nat)
    requires start < end <= 8 * |bytes| && start % 8 != 0 && start / 8 + 1 == (end + 7) / 8
    ensures end - start < 8 && AllBits([Shr(bytes[start / 8], start % 8)])[..end - start]
            == AllBits(bytes)[..end][start..]
  {
    hide BitAt, AllBits, Shr;
    forall k | 0 <= k < end - start
      ensures AllBits([Shr(bytes[start / 8], start % 8)])[k] == AllBits(bytes)[start + k]
    {
      ShiftedByte(bytes, start, k);
    }
  }

  lemma SameRange(a: seq<bool>, b: seq<bool>, start: nat, n: nat)
    requires n <= |a| && start + n <= |b| && forall k :: 0 <= k < n ==> a[k] == b[start + k]
    ensures a[..n] == b[start..start + n]
  {
  }

  lemma RangeAcrossBytes(bytes: seq<Byte>, start: nat, end: nat)
    requires start < end <= 8 * |bytes| && start % 8 != 0 && start / 8 + 1 < (end + 7) / 8
    ensures var startByte, endByte, offset := start / 8, (end + 7) / 8, 8 - start % 8;
            && offset < end - start && endByte <= |bytes| && endByte - startByte - 1 == (end - start - offset + 7) / 8
            && AllBits([Shr(bytes[startByte], start % 8)])[..offset]
               + AllBits(bytes[startByte + 1..endByte])[..end - start - offset] == AllBits(bytes)[..end][start..]
  {
    hide BitAt, AllBits, Shr;
    var startByte, endByte, offset := start / 8, (end + 7) / 8, 8 - start % 8;
    var mid := 8 * (startByte + 1);
    assert mid == start + offset && mid / 8 == startByte + 1;
    AlignedRange(bytes, mid, end);
    forall k | 0 <= k < offset
      ensures AllBits([Shr(bytes[startByte], start % 8)])[k] == AllBits(bytes)[start + k]
    {
      ShiftedByte(bytes, start, k);
    }
    var first, all := AllBits([Shr(bytes[startByte], start % 8)]), AllBits(bytes);
    SameRange(first, all, start, offset);
    assert all[..end][start..] == all[start..mid] + all[..end][mid..];
  }

  // ---------------------------------------------------------------------------------------------
  // All bits set
  // ---------------------------------------------------------------------------------------------

  predicate AllSet(bits: seq<bool>) {
    forall i :: 0 <= i < |bits| ==> bits[i]
  }

  /** All bits but the ones in the byte before a partial last byte are set. */
  predicate SeemsAllSet(bits: seq<bool>) {
    bits != [] && forall i :: 0 <= i < |bits| ==> bits[i] || (|bits| % 8 != 0 && i / 8 == |bits| / 8 - 1)
  }

  lemma EmptyIsNotAllSet()
    ensures !SeemsAllSet([])
  {
  }

  lemma SomeUnset(bytes: seq<Byte>, bits: seq<bool>, k: nat)
    requires Packs(bytes, bits) && k < |bits| / 8 - 1 && bytes[k] != 0xFF
    ensures !SeemsAllSet(bits)
  {
    ByteIsFull(bytes[k]);
    var j :| 0 <= j < 8 && !Bit(bytes[k], j);
    assert (8 * k + j) / 8 == k && (8 * k + j) % 8 == j;
    assert !BitAt(bytes, 8 * k + j);
    assert !bits[8 * k + j];
  }

  lemma ByteIsFull(b: Byte)
    ensures b == 0xFF <==> forall j :: 0 <= j < 8 ==> Bit(b, j)
  {
    if forall j :: 0 <= j < 8 ==> Bit(b, j) {
      forall j | 0 <= j < 8 ensures Bit(b, j) == Bit(0xFF, j) {
        BitOfConstant(j);
      }
      BitsDecide(b, 0xFF);
    }
    if b == 0xFF {
      forall j | 0 <= j < 8 ensures Bit(b, j) {
        BitOfConstant(j);
      }
    }
  }

  lemma LowMask(n: nat, j: nat)
    requires n < 8 && j < 8
    ensures Bit(!Shl(0xFF, n), j) <==> j < n
  {
  }

  predicate ByteSet(bits: seq<bool>, k: nat) {
    forall i :: 0 <= i < |bits| && i / 8 == k ==> bits[i]
  }

  lemma LastByteBits(bytes: seq<Byte>, bits: seq<bool>, mask: Byte, j: nat)
    requires Packs(bytes, bits) && bits != [] && j < 8
    requires mask == if |bits| % 8 != 0 then !Shl(0xFF, |bits| % 8) else 0xFF
    ensures var i := 8 * (|bytes| - 1) + j;
            && (Bit(mask, j) <==> i < |bits|) && (Bit(bytes[|bytes| - 1], j) <==> i < |bits| && bits[i])
  {
    hide Bit, Shl;
    var i, n := 8 * (|bytes| - 1) + j, |bits| % 8;
    assert i / 8 == |bytes| - 1 && i % 8 == j;
    assert BitAt(bytes, i) == Bit(bytes[|bytes| - 1], j);
    if n != 0 {
      LowMask(n, j);
    } else {
      BitOfConstant(j);
    }
  }

  /** The last byte passes exactly if its bits are set. */
  lemma LastByteSet(bytes: seq<Byte>, bits: seq<bool>)
    requires Packs(bytes, bits) && bits != []
    ensures var mask := if |bits| % 8 != 0 then !Shl(0xFF, |bits| % 8) else 0xFF;
            bytes[|bytes| - 1] == mask <==> ByteSet(bits, |bytes| - 1)
  {
    hide Bit, Shl, BitAt;
    var last := |bytes| - 1;
    var mask := if |bits| % 8 != 0 then !Shl(0xFF, |bits| % 8) else 0xFF;
    if ByteSet(bits, last) {
      forall j | 0 <= j < 8 ensures Bit(bytes[last], j) == Bit(mask, j) {
        LastByteBits(bytes, bits, mask, j);
        assert (8 * last + j) / 8 == last;
      }
      BitsDecide(bytes[last], mask);
    }
    if bytes[last] == mask {
      forall i | 0 <= i < |bits| && i / 8 == last ensures bits[i] {
        LastByteBits(bytes, bits, mask, i % 8);
      }
    }
  }

  lemma BytesSet(bytes: seq<Byte>, bits: seq<bool>, n: nat)
    requires Packs(bytes, bits) && bits != [] && n == (if |bits| / 8 > 0 then |bits| / 8 - 1 else 0)
    requires forall k :: 0 <= k < n ==> bytes[k] == 0xFF
    ensures SeemsAllSet(bits) <==> ByteSet(bits, |bytes| - 1)
  {
    hide Bit;
    forall i | 0 <= i < |bits| && i / 8 < n ensures bits[i] {
      BitOfConstant(i % 8);
      assert BitAt(bytes, i);
    }
    if ByteSet(bits, |bytes| - 1) {
      forall i | 0 <= i < |bits| ensures bits[i] || (|bits| % 8 != 0 && i / 8 == |bits| / 8 - 1) {
        assert i / 8 < n || i / 8 == |bytes| - 1 || (|bits| % 8 != 0 && i / 8 == |bits| / 8 - 1);
      }
    }
    if SeemsAllSet(bits) {
      forall i | 0 <= i < |bits| && i / 8 == |bytes| - 1 ensures bits[i] {
      }
    }
  }

  function AllButOne(n: nat, k: nat): (bits: seq<bool>)
    ensures |bits| == n && forall i :: 0 <= i < n ==> bits[i] == (i != k)
  {
    seq(n, i => i != k)
  }

  /** Nine bits, the first of them unset, pass for all set. */
  lemma NineBitsPass()
    ensures SeemsAllSet([false, true, true, true, true, true, true, true, true])
    ensures !AllSet([false, true, true, true, true, true, true, true, true])
  {
    var bits := [false, true, true, true, true, true, true, true, true];
    assert !bits[0];
  }

  /** All bits set is never denied, and for a length the answer is right for every non-empty content exactly if
      the length is below eight or a multiple of eight. */
  lemma AllSetIsRightIff(n: nat)
    requires n > 0
    ensures forall bits: seq<bool> :: |bits| == n && AllSet(bits) ==> SeemsAllSet(bits)
    ensures (forall bits: seq<bool> :: |bits| == n ==> (SeemsAllSet(bits) <==> AllSet(bits))) <==> n < 8 || n % 8 == 0
  {
    if n >= 8 && n % 8 != 0 {
      var k := 8 * (n / 8 - 1);
      var bits := AllButOne(n, k);
      assert k / 8 == n / 8 - 1 && !bits[k];
      assert SeemsAllSet(bits) && !AllSet(bits);
    } else {
      forall bits: seq<bool> | |bits| == n ensures SeemsAllSet(bits) <==> AllSet(bits) {
      }
    }
  }

  lemma BitAtPrefix(bytes: seq<Byte>, n: nat, i: nat)
    requires n <= |bytes| && i < 8 * n
    ensures BitAt(bytes[..n], i) == BitAt(bytes, i)
  {
  }

  lemma LastByteDecides(bytes: seq<Byte>, bits: seq<bool>, n: nat, mask: Byte)
    requires Packs(bytes, bits) && bits != [] && n == (if |bits| / 8 > 0 then |bits| / 8 - 1 else 0)
    requires forall k :: 0 <= k < n ==> bytes[k] == 0xFF
    requires mask == if |bits| % 8 != 0 then !Shl(0xFF, |bits| % 8) else 0xFF
    ensures SeemsAllSet(bits) <==> bytes[|bytes| - 1] == mask
  {
    hide Bit, Shl, BitAt, SeemsAllSet, ByteSet;
    LastByteSet(bytes, bits);
    BytesSet(bytes, bits, n);
  }

  lemma PackedLength(bytes: seq<Byte>, bits: seq<bool>)
    requires Packs(bytes, bits)
    ensures |bytes| == (|bits| + 7) / 8
  {
  }

  /** Bits that are packed are the ones read from the bytes. */
  lemma ContentsArePacked(bytes: seq<Byte>, bits: seq<bool>)
    requires Packs(bytes, bits)
    ensures AllBits(bytes)[..|bits|] == bits
  {
    hide BitAt;
  }
}

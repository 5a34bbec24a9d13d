/**
 * The null mask of an entry column (internal_types/src/entry.rs): one bit
 * per row, most significant bit first, a set bit meaning "null". Rows are
 * numbered from 1 when the mask is read.
 */
module EntryNullMask {
  import opened Wrappers
  import opened Rows

  const BitsInByte: nat := 8
  const LeftMostBitTrue: bv8 := 128

  /** Bit `j` of a byte, counting from the most significant bit. */
  predicate MsbBit(b: bv8, j: nat)
    requires j < 8
  {
    b & (LeftMostBitTrue >> j) != 0
  }

  /**
   * `is_null_value`: whether row `row` (1-based) is null. Without a mask no
   * row is null; rows past the end of the mask are null; otherwise row `r`
   * is bit `(r-1) % 8` of byte `(r-1) / 8`. Row 0 underflows the byte index
   * in the source, hence the precondition.
   */
  function IsNullValue(row: nat, mask: Option<seq<bv8>>): (r: bool)
    requires row >= 1
    ensures mask.None? ==> !r
    ensures mask.Some? && (row - 1) / 8 >= |mask.value| ==> r
    ensures mask.Some? && (row - 1) / 8 < |mask.value| ==>
              r == MsbBit(mask.value[(row - 1) / 8], (row - 1) % 8)
  {
    match mask
    case None => false
    case Some(bytes) =>
      var (b, p) := NullPlace(row);
      if b >= |bytes| then true
      else bytes[b] & (LeftMostBitTrue >> (p - 1)) > 0
  }

  /**
   * The byte and the 1-based bit position `is_null_value` computes for row
   * `row`: a row that is a multiple of 8 is the last bit of the byte before.
   */
  function NullPlace(row: nat): (r: (nat, nat))
    requires row >= 1
    ensures r.0 == (row - 1) / 8 && 1 <= r.1 <= 8 && r.1 - 1 == (row - 1) % 8
  {
    var position := row % BitsInByte;
    var byte := row / BitsInByte;
    if position == 0 then (byte - 1, BitsInByte) else (byte, position)
  }

  /** Flag `i` of `bits`, false past the end. */
  predicate Has(bits: seq<bool>, i: nat)
  {
    i < |bits| && bits[i]
  }

  /** Byte `k` of the packed form of `bits`: flags 8k .. 8k+7, most significant first. */
  function PackByte(bits: seq<bool>, k: nat): bv8
  {
    (if Has(bits, 8 * k) then 128 else 0) |
    (if Has(bits, 8 * k + 1) then 64 else 0) |
    (if Has(bits, 8 * k + 2) then 32 else 0) |
    (if Has(bits, 8 * k + 3) then 16 else 0) |
    (if Has(bits, 8 * k + 4) then 8 else 0) |
    (if Has(bits, 8 * k + 5) then 4 else 0) |
    (if Has(bits, 8 * k + 6) then 2 else 0) |
    (if Has(bits, 8 * k + 7) then 1 else 0)
  }

  lemma PackByteBit(bits: seq<bool>, k: nat, j: nat)
    requires j < 8
    ensures MsbBit(PackByte(bits, k), j) == Has(bits, 8 * k + j)
  {
    var b := PackByte(bits, k);
    if j == 0 { assert MsbBit(b, 0) == Has(bits, 8 * k); }
    else if j == 1 { assert MsbBit(b, 1) == Has(bits, 8 * k + 1); }
    else if j == 2 { assert MsbBit(b, 2) == Has(bits, 8 * k + 2); }
    else if j == 3 { assert MsbBit(b, 3) == Has(bits, 8 * k + 3); }
    else if j == 4 { assert MsbBit(b, 4) == Has(bits, 8 * k + 4); }
    else if j == 5 { assert MsbBit(b, 5) == Has(bits, 8 * k + 5); }
    else if j == 6 { assert MsbBit(b, 6) == Has(bits, 8 * k + 6); }
    else { assert MsbBit(b, 7) == Has(bits, 8 * k + 7); }
  }

  /** Number of bytes the builder holds for `n` rows: at least one. */
  function MaskLen(n: nat): nat
  {
    if n == 0 then 1 else (n + 7) / 8
  }

  /** The bytes `NullMaskBuilder` holds after pushing `bits`. */
  function PackNullMask(bits: seq<bool>): (r: seq<bv8>)
    ensures |r| == MaskLen(|bits|)
  {
    seq(MaskLen(|bits|), k requires 0 <= k => PackByte(bits, k))
  }

  /** Reading the packed mask back with `is_null_value` yields the pushed flags. */
  lemma PackNullMaskReads(bits: seq<bool>, i: nat)
    requires i < |bits|
    ensures IsNullValue(i + 1, Some(PackNullMask(bits))) == bits[i]
  {
    PackByteBit(bits, i / 8, i % 8);
  }

  /** A byte wholly past the flags is zero. */
  lemma PackByteBeyond(bits: seq<bool>, k: nat)
    requires 8 * k >= |bits|
    ensures PackByte(bits, k) == 0
  {
  }

  /** Appending a flag leaves every byte but the one receiving it alone. */
  lemma PackByteOther(bits: seq<bool>, x: bool, k: nat)
    requires k != |bits| / 8
    ensures PackByte(bits + [x], k) == PackByte(bits, k)
  {
    forall i | 8 * k <= i < 8 * k + 8 ensures Has(bits + [x], i) == Has(bits, i) {
      assert i / 8 == k;
    }
  }

  /** The byte receiving an appended flag gains exactly that bit, which was clear. */
  lemma PackByteNew(bits: seq<bool>, x: bool)
    ensures !MsbBit(PackByte(bits, |bits| / 8), |bits| % 8)
    ensures PackByte(bits + [x], |bits| / 8) ==
              if x then PackByte(bits, |bits| / 8) + (LeftMostBitTrue >> (|bits| % 8))
              else PackByte(bits, |bits| / 8)
  {
    var k, p := |bits| / 8, |bits| % 8;
    PackByteBit(bits, k, p);
    if x {
      var old_, new_ := PackByte(bits, k), PackByte(bits + [x], k);
      AddClearBit(old_, p);
      forall j | 0 <= j < 8 ensures MsbBit(new_, j) == MsbBit(old_ + (LeftMostBitTrue >> p), j) {
        PackByteBit(bits + [x], k, j);
        PackByteBit(bits, k, j);
      }
      BitsDetermineByte(new_, old_ + (LeftMostBitTrue >> p));
    } else {
      forall i | 8 * k <= i < 8 * k + 8 ensures Has(bits + [x], i) == Has(bits, i) {
      }
    }
  }

  /** The packed form after appending one flag. */
  lemma PackPush(bits: seq<bool>, x: bool)
    ensures PackNullMask(bits + [x]) ==
              if |bits| % 8 == 0 && |bits| > 0
              then PackNullMask(bits) + [PackByte(bits + [x], |bits| / 8)]
              else PackNullMask(bits)[|bits| / 8 := PackByte(bits + [x], |bits| / 8)]
  {
    var a, b := PackNullMask(bits + [x]), PackNullMask(bits);
    forall k | 0 <= k < |a| && k != |bits| / 8 ensures a[k] == PackByte(bits, k) {
      PackByteOther(bits, x, k);
    }
  }

  /** Where the next flag goes, given the builder's byte count and position. */
  lemma BuilderArith(n: nat, m: nat, pos: nat)
    requires m == MaskLen(n) && 1 <= pos <= 9 && n == 8 * m - 8 + pos - 1
    ensures pos <= 8 ==> n / 8 == m - 1 && n % 8 == pos - 1 && !(n % 8 == 0 && n > 0)
    ensures pos == 9 ==> n / 8 == m && n % 8 == 0 && n > 0
    ensures MaskLen(n + 1) == if pos == 9 then m + 1 else m
  {
    if pos <= 8 {
      assert n == 8 * (m - 1) + (pos - 1);
    } else {
      assert n == 8 * m;
      assert (n + 8) / 8 == m + 1;
    }
  }

  /** A flag pushed when the last byte is full goes to the first slot of a fresh zero byte. */
  lemma PushIntoFreshByte(bits: seq<bool>, bytes: seq<bv8>, x: bool)
    requires bytes == PackNullMask(bits) && |bits| == 8 * |bytes|
    ensures PackNullMask(bits + [x]) ==
              if x then (bytes + [0])[|bytes| := 0 + LeftMostBitTrue] else bytes + [0]
  {
    BuilderArith(|bits|, |bytes|, 9);
    var k := |bits| / 8;
    PackByteNew(bits, x);
    PackPush(bits, x);
    PackByteBeyond(bits, k);
    assert PackNullMask(bits + [x]) == bytes + [PackByte(bits + [x], k)];
  }

  /** A flag pushed at 1-based `position` of the last byte sets that slot when it is null. */
  lemma PushIntoLastByte(bits: seq<bool>, bytes: seq<bv8>, position: nat, x: bool)
    requires bytes == PackNullMask(bits) && 1 <= position <= 8
    requires |bits| == 8 * |bytes| - 8 + position - 1
    ensures x ==> (bytes[|bytes| - 1] as int) + ((LeftMostBitTrue >> (position - 1)) as int) < 256
    ensures PackNullMask(bits + [x]) ==
              if x then bytes[|bytes| - 1 := bytes[|bytes| - 1] + (LeftMostBitTrue >> (position - 1))] else bytes
  {
    BuilderArith(|bits|, |bytes|, position);
    var k, p := |bits| / 8, |bits| % 8;
    assert k == |bytes| - 1 && p == position - 1;
    PackPush(bits, x);
    var b := PackByte(bits, k);
    assert bytes[k] == b;
    PackByteNew(bits, x);
    assert LeftMostBitTrue >> p == LeftMostBitTrue >> (position - 1);
    if x {
      AddClearBit(b, p);
    }
  }

  /** Two bytes with the same eight bits are equal. */
  lemma BitsDetermineByte(x: bv8, y: bv8)
    requires forall j :: 0 <= j < 8 ==> MsbBit(x, j) == MsbBit(y, j)
    ensures x == y
  {
    assert MsbBit(x, 0) == MsbBit(y, 0) && MsbBit(x, 1) == MsbBit(y, 1);
    assert MsbBit(x, 2) == MsbBit(y, 2) && MsbBit(x, 3) == MsbBit(y, 3);
    assert MsbBit(x, 4) == MsbBit(y, 4) && MsbBit(x, 5) == MsbBit(y, 5);
    assert MsbBit(x, 6) == MsbBit(y, 6) && MsbBit(x, 7) == MsbBit(y, 7);
  }

  /** Adding two bytes with no bit in common is their bitwise or. */
  lemma NoCarry(b: bv8, v: bv8)
    requires b & v == 0
    ensures b + v == b | v
    ensures (b as int) + (v as int) < 256
  {
  }

  /** A bit of an or is set when it is set in either operand. */
  lemma OrBit(b: bv8, v: bv8, j: nat)
    requires j < 8
    ensures MsbBit(b | v, j) == (MsbBit(b, j) || MsbBit(v, j))
  {
  }

  /** The mask of slot `p` has that slot's bit and no other. */
  lemma SingleBit(p: nat, j: nat)
    requires p < 8 && j < 8
    ensures MsbBit(LeftMostBitTrue >> p, j) == (j == p)
  {
  }

  /** Adding a bit that is clear sets exactly that bit and cannot overflow. */
  lemma AddClearBit(b: bv8, p: nat)
    requires p < 8 && !MsbBit(b, p)
    ensures (b as int) + ((LeftMostBitTrue >> p) as int) < 256
    ensures forall j :: 0 <= j < 8 ==> MsbBit(b + (LeftMostBitTrue >> p), j) == (j == p || MsbBit(b, j))
  {
    var v := LeftMostBitTrue >> p;
    NoCarry(b, v);
    forall j | 0 <= j < 8 ensures MsbBit(b + v, j) == (j == p || MsbBit(b, j)) {
      OrBit(b, v, j);
      SingleBit(p, j);
    }
  }

  /**
   * `NullMaskBuilder`: packs one null flag per row into bytes, most
   * significant bit first; `position` is the 1-based slot of the next flag
   * in the last byte (9 once that byte is full).
   */
  class NullMaskBuilder {
    var bytes: seq<bv8>
    var position: nat
    ghost var pushed: seq<bool>

    ghost predicate Valid()
      reads this
    {
      && bytes == PackNullMask(pushed)
      && 1 <= position <= 9
      && |pushed| == 8 * |bytes| - 8 + position - 1
    }

    /** `NullMaskBuilder::new`: one empty byte, no rows. */
    constructor ()
      ensures Valid() && pushed == []
    {
      bytes := [0];
      position := 1;
      pushed := [];
    }

    /** `push`: records one more row, null or not. */
    method Push(isNull: bool)
      requires Valid()
      modifies this
      ensures Valid() && pushed == old(pushed) + [isNull]
    {
      if position > BitsInByte {
        PushIntoFreshByte(pushed, bytes, isNull);
        bytes := bytes + [0];
        position := 1;
      } else {
        PushIntoLastByte(pushed, bytes, position, isNull);
      }
      if isNull {
        var last := |bytes| - 1;
        var val: bv8 := LeftMostBitTrue >> (position - 1);
        bytes := bytes[last := bytes[last] + val];
      }
      position := position + 1;
      pushed := pushed + [isNull];
    }

    /** `row_count`: the number of rows pushed so far. */
    function RowCount(): (r: nat)
      reads this
      requires Valid()
      ensures r == |pushed|
    {
      |bytes| * BitsInByte - BitsInByte + position - 1
    }

    /** `to_bool_vec`: reading rows 1..=row_count back gives the pushed flags. */
    function ToBoolVec(): (r: seq<bool>)
      reads this
      requires Valid()
      ensures r == pushed
    {
      var mask := bytes;
      var r := seq(RowCount(), i requires 0 <= i => IsNullValue(i + 1, Some(mask)));
      assert forall i :: 0 <= i < |r| ==> r[i] == pushed[i] by {
        forall i | 0 <= i < |r| ensures r[i] == pushed[i] { PackNullMaskReads(pushed, i); }
      }
      r
    }

    /** `has_nulls`: some byte is non-zero exactly when some pushed row is null. */
    method HasNulls() returns (r: bool)
      requires Valid()
      ensures r <==> true in pushed
    {
      var k := 0;
      while k < |bytes|
        invariant k <= |bytes|
        invariant forall i :: 0 <= i < |pushed| && i / 8 < k ==> !pushed[i]
      {
        if bytes[k] > 0 {
          var j := NonZeroHasBit(bytes[k]);
          PackByteBit(pushed, k, j);
          assert pushed[8 * k + j];
          return true;
        }
        forall i | 0 <= i < |pushed| && i / 8 == k ensures !pushed[i] {
          PackByteBit(pushed, k, i % 8);
        }
        k := k + 1;
      }
      return false;
    }
  }

  /** Set bits among the first `j` bits of a byte. */
  function PartialPop(b: bv8, j: nat): nat
    requires j <= 8
  {
    if j == 0 then 0 else PartialPop(b, j - 1) + (if MsbBit(b, j - 1) then 1 else 0)
  }

  /** `u8::count_ones`. */
  function PopCount(b: bv8): nat
  {
    PartialPop(b, 8)
  }

  /** The sum of `count_ones` over a mask's bytes. */
  function CountOnes(bytes: seq<bv8>): nat
  {
    if bytes == [] then 0 else CountOnes(bytes[..|bytes| - 1]) + PopCount(bytes[|bytes| - 1])
  }

  lemma {:induction false} PartialPopByte(bits: seq<bool>, k: nat, j: nat)
    requires j <= 8 && 8 * k <= |bits|
    ensures Rank(bits, Min(8 * k + j, |bits|)) == Rank(bits, 8 * k) + PartialPop(PackByte(bits, k), j)
  {
    if j > 0 {
      PartialPopByte(bits, k, j - 1);
      PackByteBit(bits, k, j - 1);
      if 8 * k + j - 1 < |bits| { RankStep(bits, 8 * k + j - 1); }
    }
  }

  function Min(a: nat, b: nat): nat { if a < b then a else b }

  lemma {:induction false} CountOnesPrefix(bits: seq<bool>, k: nat)
    requires k <= MaskLen(|bits|)
    ensures CountOnes(PackNullMask(bits)[..k]) == Rank(bits, Min(8 * k, |bits|))
  {
    var mask := PackNullMask(bits);
    if k > 0 {
      CountOnesPrefix(bits, k - 1);
      assert mask[..k][..k - 1] == mask[..k - 1];
      PartialPopByte(bits, k - 1, 8);
    }
  }

  /** The set bits of the packed mask are exactly the null rows. */
  lemma CountOnesPack(bits: seq<bool>)
    ensures CountOnes(PackNullMask(bits)) == CountTrue(bits)
  {
    var mask := PackNullMask(bits);
    CountOnesPrefix(bits, |mask|);
    assert mask[..|mask|] == mask;
    RankAll(bits);
  }

  /** A non-zero byte has a set bit. */
  lemma NonZeroHasBit(b: bv8) returns (j: nat)
    requires b > 0
    ensures j < 8 && MsbBit(b, j)
  {
    if MsbBit(b, 0) { j := 0; }
    else if MsbBit(b, 1) { j := 1; }
    else if MsbBit(b, 2) { j := 2; }
    else if MsbBit(b, 3) { j := 3; }
    else if MsbBit(b, 4) { j := 4; }
    else if MsbBit(b, 5) { j := 5; }
    else if MsbBit(b, 6) { j := 6; }
    else { j := 7; }
  }
}

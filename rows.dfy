/**
 * Row placement shared by the write path and the entry readers: a batch
 * carries its non-null values densely, and row `i` of the batch holds the
 * value whose index is the number of non-null rows before `i`.
 */
module Rows {
  import opened Wrappers

  /** Number of set flags. */
  function CountTrue(bits: seq<bool>): nat
  {
    if bits == [] then 0
    else CountTrue(bits[..|bits| - 1]) + (if bits[|bits| - 1] then 1 else 0)
  }

  lemma {:induction false} CountTrueBound(bits: seq<bool>)
    ensures CountTrue(bits) <= |bits|
  {
    if bits != [] { CountTrueBound(bits[..|bits| - 1]); }
  }

  /** The rank of row `i`: how many set rows precede it. */
  function Rank(bits: seq<bool>, i: nat): nat
    requires i <= |bits|
  {
    CountTrue(bits[..i])
  }

  lemma RankStep(bits: seq<bool>, i: nat)
    requires i < |bits|
    ensures Rank(bits, i + 1) == Rank(bits, i) + (if bits[i] then 1 else 0)
  {
    assert bits[..i + 1][..i] == bits[..i];
  }

  lemma RankAll(bits: seq<bool>)
    ensures Rank(bits, |bits|) == CountTrue(bits)
  {
    assert bits[..|bits|] == bits;
  }

  lemma {:induction false} RankMonotone(bits: seq<bool>, i: nat, j: nat)
    requires i <= j <= |bits|
    ensures Rank(bits, i) <= Rank(bits, j)
  {
    if i < j {
      RankMonotone(bits, i, j - 1);
      RankStep(bits, j - 1);
    }
  }

  /** What row `i` holds when the values are placed on the set rows in order. */
  function ScatterAt<T>(bits: seq<bool>, values: seq<T>, d: T, i: nat): T
    requires i < |bits|
  {
    if bits[i] && Rank(bits, i) < |values| then values[Rank(bits, i)] else d
  }

  /**
   * The rows obtained by placing the k-th value on the k-th set row; rows
   * that are not set, or set rows left without a value, hold `d`.
   */
  function Scatter<T>(bits: seq<bool>, values: seq<T>, d: T): (r: seq<T>)
    ensures |r| == |bits|
  {
    seq(|bits|, i requires 0 <= i < |bits| => ScatterAt(bits, values, d, i))
  }

  /** The values held by the set rows, in row order. */
  function Gather<T>(bits: seq<bool>, rows: seq<T>): seq<T>
    requires |bits| == |rows|
  {
    if bits == [] then []
    else
      var n := |bits| - 1;
      Gather(bits[..n], rows[..n]) + (if bits[n] then [rows[n]] else [])
  }

  /**
   * Scatter and Gather are inverse: reading the set rows back yields the
   * values, in order, when there is one value per set row.
   */
  lemma {:induction false} GatherScatter<T>(bits: seq<bool>, values: seq<T>, d: T)
    requires |values| == CountTrue(bits)
    ensures Gather(bits, Scatter(bits, values, d)) == values
  {
    if bits != [] {
      var n := |bits| - 1;
      var init := bits[..n];
      var c := CountTrue(init);
      var rows := Scatter(bits, values, d);
      var initRows := Scatter(init, values[..c], d);
      forall i | 0 <= i < n ensures rows[..n][i] == initRows[i] {
        assert init[..i] == bits[..i];
        RankStep(init, i);
        RankMonotone(init, i + 1, n);
        RankAll(init);
        assert init[i] ==> Rank(init, i) < c;
      }
      assert rows[..n] == initRows;
      GatherScatter(init, values[..c], d);
      if bits[n] {
        assert bits[..n] == init;
        assert rows[n] == values[c];
        assert values == values[..c] + [values[c]];
      } else {
        assert values[..c] == values;
      }
    }
  }

  function Wrap<T>(values: seq<T>): (r: seq<Option<T>>)
    ensures |r| == |values| && forall i :: 0 <= i < |values| ==> r[i] == Some(values[i])
  {
    seq(|values|, i requires 0 <= i < |values| => Some(values[i]))
  }

  function Negate(bits: seq<bool>): (r: seq<bool>)
    ensures |r| == |bits| && forall i :: 0 <= i < |bits| ==> r[i] == !bits[i]
  {
    seq(|bits|, i requires 0 <= i < |bits| => !bits[i])
  }

  lemma {:induction false} CountNegate(bits: seq<bool>)
    ensures CountTrue(Negate(bits)) == |bits| - CountTrue(bits)
  {
    if bits != [] {
      var n := |bits| - 1;
      CountNegate(bits[..n]);
      assert Negate(bits)[..n] == Negate(bits[..n]);
      CountTrueBound(bits[..n]);
    }
  }

  /** A set row has fewer set rows before it than there are set rows. */
  lemma EnoughValues(bits: seq<bool>, n: nat, i: nat)
    requires n == CountTrue(bits) && i < |bits| && bits[i]
    ensures Rank(bits, i) < n
  {
    RankAll(bits);
    RankStep(bits, i);
    RankMonotone(bits, i + 1, |bits|);
  }

  /**
   * Rows appended after the last one leave the earlier rows as they were,
   * when every set row among them already has its value.
   */
  lemma ScatterPrefix<T>(bits: seq<bool>, more: seq<bool>, values: seq<T>, extra: seq<T>, d: T)
    requires CountTrue(bits) <= |values|
    ensures Scatter(bits + more, values + extra, d)[..|bits|] == Scatter(bits, values, d)
  {
    forall i | 0 <= i < |bits|
      ensures Scatter(bits + more, values + extra, d)[i] == Scatter(bits, values, d)[i]
    {
      assert (bits + more)[..i] == bits[..i];
      if bits[i] { EnoughValues(bits, CountTrue(bits), i); }
    }
  }

  /**
   * One more row: a set row takes the next value, an unset row holds `d`;
   * the rows before it are unchanged.
   */
  lemma ScatterSnoc<T>(bits: seq<bool>, values: seq<T>, b: bool, extra: seq<T>, d: T)
    requires |values| == CountTrue(bits) && |extra| == (if b then 1 else 0)
    ensures Scatter(bits + [b], values + extra, d) == Scatter(bits, values, d) + [if b then extra[0] else d]
  {
    ScatterPrefix(bits, [b], values, extra, d);
    RankAll(bits);
    assert (bits + [b])[..|bits|] == bits;
  }

  /** Unset rows appended after the last one hold `d`. */
  lemma ScatterPad<T>(bits: seq<bool>, n: nat, values: seq<T>, d: T)
    requires CountTrue(bits) <= |values|
    ensures Scatter(bits + seq(n, _ => false), values, d) == Scatter(bits, values, d) + seq(n, _ => d)
  {
    ScatterPrefix(bits, seq(n, _ => false), values, [], d);
    assert values + [] == values;
  }
}

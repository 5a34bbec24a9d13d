/**
 * The orders in which the model's ordered maps (Rust `BTreeMap`s and
 * `BTreeSet`s) keep their keys: byte-wise string order, the order of an
 * optional shard id, and unsigned integers.
 */
module Orders {
  import opened Wrappers

  /** A strict total order on a key type. */
  ghost predicate StrictTotalOrder<K(!new)>(lt: (K, K) -> bool)
  {
    && (forall a :: !lt(a, a))
    && (forall a, b, c :: lt(a, b) && lt(b, c) ==> lt(a, c))
    && (forall a, b :: a == b || lt(a, b) || lt(b, a))
  }

  /** Lexicographic order on strings, the order of Rust's `str`. */
  predicate StrLt(a: string, b: string)
  {
    if a == [] then b != []
    else if b == [] then false
    else if a[0] != b[0] then a[0] < b[0]
    else StrLt(a[1..], b[1..])
  }

  lemma {:induction false} StrLtIrreflexive(a: string)
    ensures !StrLt(a, a)
  {
    if a != [] { StrLtIrreflexive(a[1..]); }
  }

  lemma {:induction false} StrLtTransitive(a: string, b: string, c: string)
    requires StrLt(a, b) && StrLt(b, c)
    ensures StrLt(a, c)
  {
    if a != [] && b != [] && c != [] && a[0] == b[0] && b[0] == c[0] {
      StrLtTransitive(a[1..], b[1..], c[1..]);
    }
  }

  lemma {:induction false} StrLtTotal(a: string, b: string)
    ensures a == b || StrLt(a, b) || StrLt(b, a)
  {
    if a != [] && b != [] && a[0] == b[0] {
      StrLtTotal(a[1..], b[1..]);
      if a[1..] == b[1..] {
        assert a == [a[0]] + a[1..] && b == [b[0]] + b[1..];
      }
    }
  }

  lemma StrLtIsStrictTotalOrder()
    ensures StrictTotalOrder(StrLt)
  {
    forall a ensures !StrLt(a, a) { StrLtIrreflexive(a); }
    forall a, b, c | StrLt(a, b) && StrLt(b, c) ensures StrLt(a, c) {
      StrLtTransitive(a, b, c);
    }
    forall a, b ensures a == b || StrLt(a, b) || StrLt(b, a) { StrLtTotal(a, b); }
  }

  /** Unsigned integers in their natural order. */
  predicate NatLt(a: nat, b: nat) { a < b }

  lemma NatLtIsStrictTotalOrder()
    ensures StrictTotalOrder(NatLt)
  {
  }

  /** `Option<u32>` as Rust derives `Ord` for it: `None` before every `Some`. */
  predicate OptLt(a: Option<nat>, b: Option<nat>)
  {
    match (a, b)
    case (None, Some(_)) => true
    case (Some(x), Some(y)) => x < y
    case _ => false
  }

  lemma OptLtIsStrictTotalOrder()
    ensures StrictTotalOrder(OptLt)
  {
  }
}

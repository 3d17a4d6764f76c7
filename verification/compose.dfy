/**
 * Composition (`src/compose.rs`): applying one delta after another yields a
 * single delta with the same effect. Attributes compose through a caller
 * supplied `combine` (the attribute type's `Compose` implementation).
 */
module Composition {
  import opened Wrappers
  import opened Ops
  import opened Deltas
  import opened Iters

  /** `LastWriteWins<T>`: an attribute value that a later write replaces. */
  datatype LastWriteWins<V> = LastWriteWins(value: V)

  /** `Compose for LastWriteWins`: the later value. */
  function ComposeLww<V>(lhs: LastWriteWins<V>, rhs: LastWriteWins<V>): (r: LastWriteWins<V>)
  {
    rhs
  }

  /** `Compose for ()`. */
  function ComposeUnit(lhs: (), rhs: ()): (r: ())
  {
    lhs
  }

  /**
   * `Compose for Option<T>`: two present values compose, a single present
   * value is kept, and two absent values stay absent.
   */
  function ComposeOption<A>(combine: (A, A) -> A, lhs: Option<A>, rhs: Option<A>): (r: Option<A>)
    ensures r.None? <==> lhs.None? && rhs.None?
    ensures lhs.Some? && rhs.Some? ==> r == Some(combine(lhs.value, rhs.value))
    ensures lhs.Some? != rhs.Some? ==> r == lhs.Or(rhs)
  {
    match (lhs, rhs)
    case (Some(l), Some(r)) => Some(combine(l, r))
    case (Some(l), None) => Some(l)
    case (None, Some(r)) => Some(r)
    case (None, None) => None
  }

  /** With last-write-wins values, composing optional attributes keeps the later present one. */
  lemma ComposeOptionLww<V>(lhs: Option<LastWriteWins<V>>, rhs: Option<LastWriteWins<V>>)
    ensures ComposeOption(ComposeLww, lhs, rhs) == rhs.Or(lhs)
  {
  }

  /** Absent attributes are a two-sided identity of `ComposeOption`. */
  lemma ComposeOptionIdentity<A>(combine: (A, A) -> A, x: Option<A>)
    ensures ComposeOption(combine, None, x) == x && ComposeOption(combine, x, None) == x
  {
  }

  /** `ComposeOption` inherits associativity from the attribute type. */
  lemma ComposeOptionAssociative<A>(combine: (A, A) -> A, x: Option<A>, y: Option<A>, z: Option<A>)
    requires forall a, b, c :: combine(combine(a, b), c) == combine(a, combine(b, c))
    ensures ComposeOption(combine, ComposeOption(combine, x, y), z) == ComposeOption(combine, x, ComposeOption(combine, y, z))
  {
    if x.Some? && y.Some? && z.Some? {
      assert combine(combine(x.value, y.value), z.value) == combine(x.value, combine(y.value, z.value));
    }
  }

  /**
   * `Compose for &mut Op`: one step of composing two ops in place. Returns
   * the output op and what remains of the left and the right op.
   * An insert on the right is emitted first and consumes nothing on the
   * left; a delete on the left is emitted before anything on the right is
   * consumed. Otherwise both sides give up their common prefix of length
   * `k = min(len lhs, len rhs)`: an insert that the right retains keeps its
   * content with the attributes composed, an insert that the right deletes
   * vanishes, a retain that the right retains composes attributes, and a
   * retain that the right deletes becomes that delete.
   */
  function ComposeOp<T, A>(combine: (A, A) -> A, lhs: Op<T, A>, rhs: Op<T, A>): (r: (Op<T, A>, Op<T, A>, Op<T, A>))
    ensures rhs.Insert? ==> r.0 == rhs && r.1 == lhs && r.2 == EmptyInsert()
    ensures lhs.Delete? && !rhs.Insert? ==> r.0 == lhs && r.1 == DefaultOp() && r.2 == rhs
    ensures !lhs.Delete? && !rhs.Insert? ==>
      var k := Min(Len(lhs), Len(rhs));
      && r.1 == Split(lhs, k).1 && r.2 == Split(rhs, k).1
      && (lhs.Insert? && rhs.Retain? ==> r.0 == Insert(lhs.insert[..k], ComposeOption(combine, lhs.attributes, rhs.attributes)))
      && (lhs.Insert? && rhs.Delete? ==> r.0 == DefaultOp())
      && (lhs.Retain? && rhs.Retain? ==> r.0 == Retain(k, ComposeOption(combine, lhs.attributes, rhs.attributes)))
      && (lhs.Retain? && rhs.Delete? ==> r.0 == Delete(k))
  {
    match (lhs, rhs)
    case (_, Insert(_, _)) => (rhs, lhs, EmptyInsert())
    case (Delete(_), _) => (lhs, DefaultOp(), rhs)
    case (Insert(_, _), Retain(_, _)) =>
      var s := SplitBoth(lhs, rhs);
      (Insert(s.lhsPrefix.insert, ComposeOption(combine, s.lhsPrefix.attributes, s.rhsPrefix.attributes)), s.lhsRest, s.rhsRest)
    case (Insert(_, _), Delete(_)) =>
      var s := SplitBoth(lhs, rhs);
      (DefaultOp(), s.lhsRest, s.rhsRest)
    case (Retain(_, _), Retain(_, _)) =>
      var s := SplitBoth(lhs, rhs);
      (Retain(s.lhsPrefix.retain, ComposeOption(combine, s.lhsPrefix.attributes, s.rhsPrefix.attributes)), s.lhsRest, s.rhsRest)
    case (Retain(_, _), Delete(_)) =>
      var s := SplitBoth(lhs, rhs);
      (s.rhsPrefix, s.lhsRest, s.rhsRest)
  }

  /** The closure `|a, b| a.compose(b)` handed to `zip_mut`. */
  function ComposeStep<T, A>(combine: (A, A) -> A): StepFn<T, A>
  {
    (a, b) => ComposeOp(combine, a, b)
  }

  /** Composing two ops never grows either, always consumes something, and stays within `usize`. */
  lemma ComposeStepShrinks<T(!new), A(!new)>(combine: (A, A) -> A)
    ensures Shrinks(ComposeStep<T, A>(combine)) && KeepsFit(ComposeStep<T, A>(combine))
  {
    var f := ComposeStep<T, A>(combine);
    forall a, b ensures Len(f(a, b).1) <= Len(a) && Len(f(a, b).2) <= Len(b)
      && (Len(a) > 0 && Len(b) > 0 ==> Len(f(a, b).1) + Len(f(a, b).2) < Len(a) + Len(b))
      && (Fits(a) && Fits(b) ==> Fits(f(a, b).0) && Fits(f(a, b).1) && Fits(f(a, b).2))
    {
      var r := ComposeOp(combine, a, b);
      assert f(a, b) == r;
    }
  }

  /**
   * `Compose for Delta`: zip both deltas through `ComposeOp`, push the
   * outputs, then push whatever is left of the left delta followed by
   * whatever is left of the right one, and chop trailing plain retains.
   * The source assumes nothing about the lengths: a longer left delta keeps
   * its tail, a longer right delta applies its tail beyond the left's end.
   */
  function Compose<T(!new), A(==,!new)>(combine: (A, A) -> A, lhs: Delta<T, A>, rhs: Delta<T, A>): (r: Delta<T, A>)
    requires AllFit(lhs) && AllFit(rhs)
    ensures AllSized(r)
    ensures |r| > 0 ==> !(r[|r| - 1].Retain? && r[|r| - 1].attributes.None?)
  {
    ComposeStepShrinks<T, A>(combine);
    var z := Zip(NewIter(lhs), NewIter(rhs), ComposeStep(combine));
    ZipSized(z.0, z.1, z.2);
    Assemble(z.0, Drain(z.1) + Drain(z.2))
  }
}

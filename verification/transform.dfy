/**
 * Transformation (`src/transform.rs`): rebasing one delta over a concurrent
 * one. `Transform(lhs, rhs, priority)` returns `rhs` rewritten to apply after
 * `lhs`; `priority` says whether `lhs` wins when both insert at the same place.
 */
module Transformation {
  import opened Wrappers
  import opened Ops
  import opened Deltas
  import opened Iters
  import opened Composition

  /**
   * `Transform for &mut Op`: one step of rebasing the right op over the left
   * op. Returns the rebased output and what remains of the left and right op.
   * An insert on the left becomes a retain over its length (unless both
   * insert and the left lacks priority); an insert on the right is kept as
   * is. Otherwise both give up their common prefix of length
   * `k = min(len lhs, len rhs)`: two retains keep a retain whose attributes
   * prefer the side with priority, a delete on the right stays a delete
   * over a retain, and anything the left already deleted disappears.
   */
  function TransformOp<T, A>(lhs: Op<T, A>, rhs: Op<T, A>, priority: bool): (r: (Op<T, A>, Op<T, A>, Op<T, A>))
    ensures lhs.Insert? && (priority || !rhs.Insert?) ==>
      r.0 == Retain(|lhs.insert|, None) && r.1 == EmptyInsert() && r.2 == rhs
    ensures rhs.Insert? && !(lhs.Insert? && priority) ==>
      r.0 == rhs && r.1 == lhs && r.2 == EmptyInsert()
    ensures !lhs.Insert? && !rhs.Insert? ==>
      var k := Min(Len(lhs), Len(rhs));
      && r.1 == Split(lhs, k).1 && r.2 == Split(rhs, k).1
      && (lhs.Retain? && rhs.Retain? ==>
            r.0 == Retain(k, if priority then lhs.attributes.Or(rhs.attributes) else rhs.attributes.Or(lhs.attributes)))
      && (lhs.Retain? && rhs.Delete? ==> r.0 == Delete(k))
      && (lhs.Delete? ==> r.0 == DefaultOp())
  {
    match (lhs, rhs)
    case (Insert(_, _), Insert(_, _)) =>
      if priority then (AsRetain(lhs), EmptyInsert(), rhs) else (rhs, lhs, EmptyInsert())
    case (Insert(_, _), _) => (AsRetain(lhs), EmptyInsert(), rhs)
    case (_, Insert(_, _)) => (rhs, lhs, EmptyInsert())
    case (Retain(_, _), Retain(_, _)) =>
      var s := SplitBoth(lhs, rhs);
      (if priority then RetainOr(s.lhsPrefix, s.rhsPrefix) else RetainOr(s.rhsPrefix, s.lhsPrefix), s.lhsRest, s.rhsRest)
    case (Retain(_, _), Delete(_)) =>
      var s := SplitBoth(lhs, rhs);
      (s.rhsPrefix, s.lhsRest, s.rhsRest)
    case (Delete(_), _) =>
      var s := SplitBoth(lhs, rhs);
      (DefaultOp(), s.lhsRest, s.rhsRest)
  }

  /** The closure `|a, b| a.transform(b, priority)` handed to `zip_mut`. */
  function TransformStep<T, A>(priority: bool): StepFn<T, A>
  {
    (a, b) => TransformOp(a, b, priority)
  }

  /** Transforming two ops never grows either, always consumes something, and stays within `usize`. */
  lemma TransformStepShrinks<T(!new), A(!new)>(priority: bool)
    ensures Shrinks(TransformStep<T, A>(priority)) && KeepsFit(TransformStep<T, A>(priority))
  {
    var f := TransformStep<T, A>(priority);
    forall a, b ensures Len(f(a, b).1) <= Len(a) && Len(f(a, b).2) <= Len(b)
      && (Len(a) > 0 && Len(b) > 0 ==> Len(f(a, b).1) + Len(f(a, b).2) < Len(a) + Len(b))
      && (Fits(a) && Fits(b) ==> Fits(f(a, b).0) && Fits(f(a, b).1) && Fits(f(a, b).2))
    {
      var r := TransformOp(a, b, priority);
      assert f(a, b) == r;
    }
  }

  /**
   * `Transform for Delta`: zip both deltas through `TransformOp`, push the
   * outputs, then push whatever is left of the right delta (what is left of
   * the left delta is dropped), and chop trailing plain retains.
   */
  function Transform<T(!new), A(==,!new)>(lhs: Delta<T, A>, rhs: Delta<T, A>, priority: bool): (r: Delta<T, A>)
    requires AllFit(lhs) && AllFit(rhs)
    ensures AllSized(r)
    ensures |r| > 0 ==> !(r[|r| - 1].Retain? && r[|r| - 1].attributes.None?)
  {
    TransformStepShrinks<T, A>(priority);
    var z := Zip(NewIter(lhs), NewIter(rhs), TransformStep(priority));
    ZipSized(z.0, z.1, z.2);
    Assemble(z.0, Drain(z.2))
  }
}

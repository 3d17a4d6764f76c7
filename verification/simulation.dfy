/**
 * The op-level algorithms agree with the unit-level ones. One step of
 * `ComposeOp` or `TransformOp` emits the units that `ComposeUnits` or
 * `TransformUnits` emit for the elements the step consumes; `zip_mut`
 * repeats such steps; and the pushes and chop at the end turn the result
 * into the normal form. So the delta that `Compose` (`src/compose.rs`) or
 * `Transform` (`src/transform.rs`) returns is the normal delta of the
 * unit-level result.
 */
module Simulation {
  import opened Wrappers
  import opened Ops
  import opened Lists
  import opened Units
  import opened Canonical
  import opened Algebra
  import opened Deltas
  import opened Iters
  import opened Composition
  import opened Transformation
  import opened Normalization

  /** No unit deletes. */
  predicate NoDel<T, A>(v: List<Unit<T, A>>)
  {
    match v
    case Nil => true
    case Cons(u, t) => !u.UDel? && NoDel(t)
  }

  /** `ComposeElem` along two lists, element by element. */
  function ComposePaired<T, A>(combine: (A, A) -> A, X: List<Unit<T, A>>, Y: List<Unit<T, A>>): List<Unit<T, A>>
  {
    match (X, Y)
    case (Cons(x, X'), Cons(y, Y')) => Prepend(ComposeElem(combine, x, y), ComposePaired(combine, X', Y'))
    case _ => Nil
  }

  /** `TransformElem` along two lists, element by element. */
  function TransformPaired<T, A>(X: List<Unit<T, A>>, Y: List<Unit<T, A>>, priority: bool): List<Unit<T, A>>
  {
    match (X, Y)
    case (Cons(x, X'), Cons(y, Y')) => Prepend(TransformElem(x, y, priority), TransformPaired(X', Y', priority))
    case _ => Nil
  }

  /** Equally long runs with nothing deleted on the left and nothing inserted on the right compose pairwise. */
  lemma {:induction false} ComposePairedPrefix<T, A>(combine: (A, A) -> A, X1: List<Unit<T, A>>, Y1: List<Unit<T, A>>, P: List<Unit<T, A>>, Q: List<Unit<T, A>>)
    requires Length(X1) == Length(Y1) && NoDel(X1) && NoIns(Y1)
    ensures ComposeUnits(combine, Append(X1, P), Append(Y1, Q))
         == Append(ComposePaired(combine, X1, Y1), ComposeUnits(combine, P, Q))
  {
    match (X1, Y1)
    case (Nil, Nil) =>
    case (Cons(_, X'), Cons(_, Y')) => ComposePairedPrefix(combine, X', Y', P, Q);
  }

  /** Equally long runs with nothing inserted on either side transform pairwise. */
  lemma {:induction false} TransformPairedPrefix<T, A>(X1: List<Unit<T, A>>, Y1: List<Unit<T, A>>, P: List<Unit<T, A>>, Q: List<Unit<T, A>>, priority: bool)
    requires Length(X1) == Length(Y1) && NoIns(X1) && NoIns(Y1)
    ensures TransformUnits(Append(X1, P), Append(Y1, Q), priority)
         == Append(TransformPaired(X1, Y1, priority), TransformUnits(P, Q, priority))
  {
    match (X1, Y1)
    case (Nil, Nil) =>
    case (Cons(_, X'), Cons(_, Y')) => TransformPairedPrefix(X', Y', P, Q, priority);
  }

  /** Inserts on the left become plain retains, as long as the right side does not win a tie. */
  lemma {:induction false} TransformInsertsLeft<T, A>(I: List<Unit<T, A>>, P: List<Unit<T, A>>, Y: List<Unit<T, A>>, priority: bool)
    requires AllIns(I) && Y.Cons? && (priority || !Y.head.UIns?)
    ensures TransformUnits(Append(I, P), Y, priority) == Append(Repeat(Length(I), URet(None)), TransformUnits(P, Y, priority))
  {
    match I
    case Nil =>
    case Cons(_, I') => TransformInsertsLeft(I', P, Y, priority);
  }

  /** Inserts on the right are kept, as long as the left side does not win a tie. */
  lemma {:induction false} TransformInsertsRight<T, A>(X: List<Unit<T, A>>, I: List<Unit<T, A>>, Q: List<Unit<T, A>>, priority: bool)
    requires AllIns(I) && X.Cons? && !(priority && X.head.UIns?)
    ensures TransformUnits(X, Append(I, Q), priority) == Append(I, TransformUnits(X, Q, priority))
  {
    match I
    case Nil =>
    case Cons(_, I') => TransformInsertsRight(X, I', Q, priority);
  }

  lemma {:induction false} ComposePairedRepeat<T, A>(combine: (A, A) -> A, n: nat, x: Unit<T, A>, y: Unit<T, A>)
    ensures ComposePaired(combine, Repeat(n, x), Repeat(n, y))
         == if ComposeElem(combine, x, y).Some? then Repeat(n, ComposeElem(combine, x, y).value) else Nil
  {
    if n > 0 {
      ComposePairedRepeat(combine, n - 1, x, y);
    }
  }

  lemma {:induction false} ComposePairedInsert<T, A>(combine: (A, A) -> A, content: seq<T>, attrs: Option<A>, y: Unit<T, A>)
    ensures y.URet? ==> (ComposePaired(combine, InsUnits(content, attrs), Repeat(|content|, y))
                      == InsUnits(content, ComposeOption(combine, attrs, y.attrs)))
    ensures y.UDel? ==> ComposePaired(combine, InsUnits(content, attrs), Repeat(|content|, y)) == Nil
    decreases |content|
  {
    if |content| > 0 {
      ComposePairedInsert(combine, content[1..], attrs, y);
    }
  }

  lemma {:induction false} TransformPairedRepeat<T, A>(n: nat, x: Unit<T, A>, y: Unit<T, A>, priority: bool)
    ensures TransformPaired(Repeat(n, x), Repeat(n, y), priority)
         == if TransformElem(x, y, priority).Some? then Repeat(n, TransformElem(x, y, priority).value) else Nil
  {
    if n > 0 {
      TransformPairedRepeat(n - 1, x, y, priority);
    }
  }

  lemma {:induction false} InsUnitsNoDel<T, A>(content: seq<T>, attrs: Option<A>)
    ensures NoDel(InsUnits(content, attrs))
    decreases |content|
  {
    if |content| > 0 {
      InsUnitsNoDel(content[1..], attrs);
    }
  }

  lemma {:induction false} RepeatNoDel<T, A>(n: nat, u: Unit<T, A>)
    requires !u.UDel?
    ensures NoDel(Repeat(n, u))
  {
    if n > 0 {
      RepeatNoDel(n - 1, u);
    }
  }

  /** The prefix `split` takes off an op, as units. */
  lemma SplitPrefixUnits<T, A>(op: Op<T, A>, k: nat)
    requires k <= Len(op)
    ensures Split(op, k).0 == match op
      case Insert(content, attributes) => Insert(content[..k], attributes)
      case Retain(_, attributes) => Retain(k, attributes)
      case Delete(_) => Delete(k)
    ensures Expand(op) == Append(Expand(Split(op, k).0), Expand(Split(op, k).1))
  {
    var (p, r) := Split(op, k);
    ExpandSplit(op, p, r);
    if op.Insert? {
      assert op.insert[..k] == (p.insert + r.insert)[..k];
    }
  }

  /**
   * One step of `ComposeOp` on two non-empty ops emits exactly the units
   * unit composition emits for the elements it consumes.
   */
  lemma ComposeOpExpand<T, A>(combine: (A, A) -> A, x: Op<T, A>, y: Op<T, A>, P: List<Unit<T, A>>, Q: List<Unit<T, A>>)
    requires Len(x) > 0 && Len(y) > 0
    ensures var r := ComposeOp(combine, x, y);
      Append(Expand(r.0), ComposeUnits(combine, Append(Expand(r.1), P), Append(Expand(r.2), Q)))
      == ComposeUnits(combine, Append(Expand(x), P), Append(Expand(y), Q))
  {
    var r := ComposeOp(combine, x, y);
    ExpandKinds(x);
    ExpandKinds(y);
    ExpandHead(y);
    if y.Insert? {
      ComposeInsertsFirst(combine, Append(Expand(x), P), Expand(y), Q);
    } else if x.Delete? {
      ComposeDeletesFirst(combine, Expand(x), P, Append(Expand(y), Q));
    } else {
      var k := Min(Len(x), Len(y));
      SplitPrefixUnits(x, k);
      SplitPrefixUnits(y, k);
      var x1, y1 := Split(x, k).0, Split(y, k).0;
      ExpandLength(x1);
      ExpandLength(y1);
      ExpandKinds(y1);
      AppendAssoc(Expand(x1), Expand(r.1), P);
      AppendAssoc(Expand(y1), Expand(r.2), Q);
      match x
      case Insert(content, attributes) =>
        InsUnitsNoDel(x1.insert, attributes);
        ComposePairedPrefix(combine, Expand(x1), Expand(y1), Append(Expand(r.1), P), Append(Expand(r.2), Q));
        if y.Retain? {
          ComposePairedInsert(combine, x1.insert, attributes, Unit<T, A>.URet(y.attributes));
        } else {
          ComposePairedInsert(combine, x1.insert, attributes, Unit<T, A>.UDel);
        }
      case Retain(_, attributes) =>
        RepeatNoDel(k, Unit<T, A>.URet(attributes));
        ComposePairedPrefix(combine, Expand(x1), Expand(y1), Append(Expand(r.1), P), Append(Expand(r.2), Q));
        if y.Retain? {
          ComposePairedRepeat(combine, k, Unit<T, A>.URet(attributes), Unit<T, A>.URet(y.attributes));
        } else {
          ComposePairedRepeat(combine, k, Unit<T, A>.URet(attributes), Unit<T, A>.UDel);
        }
    }
  }

  /**
   * One step of `TransformOp` on two non-empty ops emits exactly the units
   * unit transformation emits for the elements it consumes.
   */
  lemma TransformOpExpand<T, A>(x: Op<T, A>, y: Op<T, A>, P: List<Unit<T, A>>, Q: List<Unit<T, A>>, priority: bool)
    requires Len(x) > 0 && Len(y) > 0
    ensures var r := TransformOp(x, y, priority);
      Append(Expand(r.0), TransformUnits(Append(Expand(r.1), P), Append(Expand(r.2), Q), priority))
      == TransformUnits(Append(Expand(x), P), Append(Expand(y), Q), priority)
  {
    var r := TransformOp(x, y, priority);
    ExpandKinds(x);
    ExpandKinds(y);
    ExpandHead(x);
    ExpandHead(y);
    if x.Insert? && (priority || !y.Insert?) {
      InsUnitsLength(x.insert, x.attributes);
      TransformInsertsLeft(Expand(x), P, Append(Expand(y), Q), priority);
    } else if y.Insert? {
      TransformInsertsRight(Append(Expand(x), P), Expand(y), Q, priority);
    } else {
      var k := Min(Len(x), Len(y));
      SplitPrefixUnits(x, k);
      SplitPrefixUnits(y, k);
      var x1, y1 := Split(x, k).0, Split(y, k).0;
      ExpandLength(x1);
      ExpandLength(y1);
      ExpandKinds(x1);
      ExpandKinds(y1);
      AppendAssoc(Expand(x1), Expand(r.1), P);
      AppendAssoc(Expand(y1), Expand(r.2), Q);
      TransformPairedPrefix(Expand(x1), Expand(y1), Append(Expand(r.1), P), Append(Expand(r.2), Q), priority);
      var u: Unit<T, A> := if x.Retain? then URet(x.attributes) else UDel;
      var v: Unit<T, A> := if y.Retain? then URet(y.attributes) else UDel;
      TransformPairedRepeat(k, u, v, priority);
    }
  }

  /** Unit-level counterpart of a step function. */
  type UnitFn<!T, !A> = (List<Unit<T, A>>, List<Unit<T, A>>) -> List<Unit<T, A>>

  /** Every step of `f` on non-empty ops emits what `g` emits for the consumed elements. */
  ghost predicate Simulates<T(!new), A(!new)>(f: StepFn<T, A>, g: UnitFn<T, A>)
  {
    forall x, y, P, Q :: Len(x) > 0 && Len(y) > 0 ==>
      Append(Expand(f(x, y).0), g(Append(Expand(f(x, y).1), P), Append(Expand(f(x, y).2), Q)))
      == g(Append(Expand(x), P), Append(Expand(y), Q))
  }

  lemma ComposeSimulates<T(!new), A(!new)>(combine: (A, A) -> A)
    ensures Simulates(ComposeStep<T, A>(combine), (X, Y) => ComposeUnits(combine, X, Y))
  {
    forall x: Op<T, A>, y: Op<T, A>, P: List<Unit<T, A>>, Q: List<Unit<T, A>> | Len(x) > 0 && Len(y) > 0
      ensures var r := ComposeStep(combine)(x, y);
        Append(Expand(r.0), ComposeUnits(combine, Append(Expand(r.1), P), Append(Expand(r.2), Q)))
        == ComposeUnits(combine, Append(Expand(x), P), Append(Expand(y), Q))
    {
      ComposeOpExpand(combine, x, y, P, Q);
    }
  }

  lemma TransformSimulates<T(!new), A(!new)>(priority: bool)
    ensures Simulates(TransformStep<T, A>(priority), (X, Y) => TransformUnits(X, Y, priority))
  {
    forall x: Op<T, A>, y: Op<T, A>, P: List<Unit<T, A>>, Q: List<Unit<T, A>> | Len(x) > 0 && Len(y) > 0
      ensures var r := TransformStep(priority)(x, y);
        Append(Expand(r.0), TransformUnits(Append(Expand(r.1), P), Append(Expand(r.2), Q), priority))
        == TransformUnits(Append(Expand(x), P), Append(Expand(y), Q), priority)
    {
      TransformOpExpand(x, y, P, Q, priority);
    }
  }

  /** The units an iterator holds: those of its partial op, then those of the rest. */
  lemma ExpandLeftover<T, A>(op: Op<T, A>, rest: seq<Op<T, A>>)
    ensures ExpandAll(Leftover(Iter(Some(op), rest))) == Append(Expand(op), ExpandAll(rest))
  {
    ExpandLength(op);
    if Len(op) > 0 {
      assert ([op] + rest)[1..] == rest;
    } else {
      assert Expand(op) == Nil;
      assert [] + rest == rest;
    }
  }

  /** Over ops that are not empty, `next_mut` hands out a non-empty op and keeps the rest free of empty ops. */
  lemma NextMutNonEmpty<T, A>(it: Iter<T, A>)
    requires NoEmpty(it.rest)
    ensures NextMut(it).0.Some? ==> Len(NextMut(it).0.value) > 0
    ensures NoEmpty(NextMut(it).1.rest)
  {
    var r := NextMut(it);
    if r.1.rest != it.rest {
      assert forall i :: 0 <= i < |r.1.rest| ==> r.1.rest[i] == it.rest[i + 1];
    }
  }

  /**
   * `zip_mut` with a step function that simulates `g` emits the units `g`
   * emits for everything both iterators consumed.
   */
  lemma {:induction false} ZipSimulates<T(!new), A(!new)>(f: StepFn<T, A>, g: UnitFn<T, A>, a: Iter<T, A>, b: Iter<T, A>)
    requires Shrinks(f) && KeepsFit(f) && Simulates(f, g)
    requires IterFits(a) && IterFits(b) && NoEmpty(a.rest) && NoEmpty(b.rest)
    ensures var z := Zip(a, b, f);
      Append(ExpandAll(z.0), g(ExpandAll(Leftover(z.1)), ExpandAll(Leftover(z.2))))
      == g(ExpandAll(Leftover(a)), ExpandAll(Leftover(b)))
    decreases Weight(a) + Weight(b)
  {
    var (x, a1) := NextMut(a);
    var (y, b1) := NextMut(b);
    NextMutNonEmpty(a);
    NextMutNonEmpty(b);
    if x.Some? && y.Some? {
      var step := f(x.value, y.value);
      var a2 := Iter(Some(step.1), a1.rest);
      var b2 := Iter(Some(step.2), b1.rest);
      assert Weight(a2) <= Weight(a1) && Weight(b2) <= Weight(b1);
      ZipSimulates(f, g, a2, b2);
      var (outs, a3, b3) := Zip(a2, b2, f);
      ExpandLeftover(step.1, a1.rest);
      ExpandLeftover(step.2, b1.rest);
      ExpandLeftover(x.value, a1.rest);
      ExpandLeftover(y.value, b1.rest);
      assert ([step.0] + outs)[1..] == outs;
      AppendAssoc(Expand(step.0), ExpandAll(outs), g(ExpandAll(Leftover(a3)), ExpandAll(Leftover(b3))));
    }
  }

  /**
   * After the zip, one side is used up: composing the leftovers is
   * concatenating them, and assembling gives the normal form.
   */
  lemma ComposeTail<T, A>(combine: (A, A) -> A, outs: seq<Op<T, A>>, left: seq<Op<T, A>>, right: seq<Op<T, A>>, X: List<Unit<T, A>>, Y: List<Unit<T, A>>)
    requires AllSized(outs) && AllSized(left + right)
    requires left == [] || right == []
    requires Append(ExpandAll(outs), ComposeUnits(combine, ExpandAll(left), ExpandAll(right))) == ComposeUnits(combine, X, Y)
    ensures IsNormal(Assemble(outs, left + right))
    ensures ExpandAll(Assemble(outs, left + right)) == Normalize(ComposeUnits(combine, X, Y))
  {
    AssembleExpand(outs, left + right);
    ExpandAllAppend(outs, left + right);
    ExpandAllAppend(left, right);
    if left == [] {
      ComposeNilLeft(combine, ExpandAll(right));
    } else {
      AppendNil(ExpandAll(left));
    }
  }

  /**
   * After the zip, either the rebased side is used up, or the base is and
   * what remains of the rebased side is kept as it is.
   */
  lemma TransformTail<T, A>(outs: seq<Op<T, A>>, left: seq<Op<T, A>>, right: seq<Op<T, A>>, X: List<Unit<T, A>>, Y: List<Unit<T, A>>, priority: bool)
    requires AllSized(outs) && AllSized(right)
    requires left == [] || right == []
    requires Append(ExpandAll(outs), TransformUnits(ExpandAll(left), ExpandAll(right), priority)) == TransformUnits(X, Y, priority)
    ensures IsNormal(Assemble(outs, right))
    ensures ExpandAll(Assemble(outs, right)) == Normalize(TransformUnits(X, Y, priority))
  {
    AssembleExpand(outs, right);
    if right != [] {
      ExpandAllAppend(outs, right);
    } else {
      assert outs + right == outs;
      AppendNil(ExpandAll(outs));
    }
  }

  /**
   * `Compose for Delta` computes unit composition: the result is the normal
   * delta whose units are the normal form of the composed units.
   */
  lemma ComposeExpand<T(!new), A(!new)>(combine: (A, A) -> A, lhs: Delta<T, A>, rhs: Delta<T, A>)
    requires AllFit(lhs) && AllFit(rhs) && NoEmpty(lhs) && NoEmpty(rhs)
    ensures IsNormal(Compose(combine, lhs, rhs))
    ensures ExpandAll(Compose(combine, lhs, rhs)) == Normalize(ComposeUnits(combine, ExpandAll(lhs), ExpandAll(rhs)))
  {
    var f := ComposeStep<T, A>(combine);
    var g: UnitFn<T, A> := (X, Y) => ComposeUnits(combine, X, Y);
    ComposeStepShrinks<T, A>(combine);
    ComposeSimulates<T, A>(combine);
    var z := Zip(NewIter(lhs), NewIter(rhs), f);
    ZipSimulates(f, g, NewIter(lhs), NewIter(rhs));
    ZipSized(z.0, z.1, z.2);
    ComposeTail(combine, z.0, Leftover(z.1), Leftover(z.2), ExpandAll(lhs), ExpandAll(rhs));
  }

  /**
   * `Transform for Delta` computes unit transformation: the result is the
   * normal delta whose units are the normal form of the rebased units.
   */
  lemma TransformExpand<T(!new), A(!new)>(lhs: Delta<T, A>, rhs: Delta<T, A>, priority: bool)
    requires AllFit(lhs) && AllFit(rhs) && NoEmpty(lhs) && NoEmpty(rhs)
    ensures IsNormal(Transform(lhs, rhs, priority))
    ensures ExpandAll(Transform(lhs, rhs, priority)) == Normalize(TransformUnits(ExpandAll(lhs), ExpandAll(rhs), priority))
  {
    var f := TransformStep<T, A>(priority);
    var g: UnitFn<T, A> := (X, Y) => TransformUnits(X, Y, priority);
    TransformStepShrinks<T, A>(priority);
    TransformSimulates<T, A>(priority);
    var z := Zip(NewIter(lhs), NewIter(rhs), f);
    ZipSimulates(f, g, NewIter(lhs), NewIter(rhs));
    ZipSized(z.0, z.1, z.2);
    TransformTail(z.0, Leftover(z.1), Leftover(z.2), ExpandAll(lhs), ExpandAll(rhs), priority);
  }
}

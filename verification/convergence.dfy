/**
 * The library's promise (`src/lib.rs` tests, `fuzz/fuzz_targets/end_to_end.rs`):
 * when two users edit the same document concurrently, each applying their
 * own delta and then the other's delta rebased over theirs, both end with
 * the same delta, op for op. Proved for every attribute composition in
 * which the later present attribute wins, which covers `LastWriteWins` and
 * the unit attribute `()`.
 */
module Convergence {
  import opened Wrappers
  import opened Ops
  import opened Lists
  import opened Units
  import opened Canonical
  import opened Algebra
  import opened Deltas
  import opened Iters
  import opened Composition
  import opened Transformation
  import opened Normalization
  import opened Simulation

  lemma LaterWinsAssociative<A(!new)>(combine: (A, A) -> A)
    requires LaterWins(combine)
    ensures forall a, b, c :: combine(combine(a, b), c) == combine(a, combine(b, c))
  {
  }

  /** `()` has a single value, so its composition lets the later value win. */
  lemma UnitLaterWins()
    ensures LaterWins(ComposeUnit)
  {
    forall a: (), b: () ensures ComposeUnit(a, b) == b {
    }
  }

  lemma LwwLaterWins<V(!new)>()
    ensures LaterWins(ComposeLww<V>)
  {
  }

  /** Composition adds no inserted elements beyond those of its inputs. */
  lemma ComposeInsertedLen<T(!new), A(!new)>(combine: (A, A) -> A, lhs: Delta<T, A>, rhs: Delta<T, A>)
    requires AllFit(lhs) && AllFit(rhs) && NoEmpty(lhs) && NoEmpty(rhs)
    ensures InsertedLen(Compose(combine, lhs, rhs)) <= InsertedLen(lhs) + InsertedLen(rhs)
  {
    ComposeExpand(combine, lhs, rhs);
    InsertedLenUnits(Compose(combine, lhs, rhs));
    InsertedLenUnits(lhs);
    InsertedLenUnits(rhs);
    NormalizeInsCount(ComposeUnits(combine, ExpandAll(lhs), ExpandAll(rhs)));
    ComposeInsCount(combine, ExpandAll(lhs), ExpandAll(rhs));
  }

  /** A rebased delta inserts no more elements than the original. */
  lemma TransformInsertedLen<T(!new), A(!new)>(lhs: Delta<T, A>, rhs: Delta<T, A>, priority: bool)
    requires AllFit(lhs) && AllFit(rhs) && NoEmpty(lhs) && NoEmpty(rhs)
    ensures InsertedLen(Transform(lhs, rhs, priority)) <= InsertedLen(rhs)
  {
    TransformExpand(lhs, rhs, priority);
    InsertedLenUnits(Transform(lhs, rhs, priority));
    InsertedLenUnits(rhs);
    NormalizeInsCount(TransformUnits(ExpandAll(lhs), ExpandAll(rhs), priority));
    TransformInsCount(ExpandAll(lhs), ExpandAll(rhs), priority);
  }

  /**
   * Composition of deltas is associative: composing `x` with `y` and then
   * with `z` gives exactly the delta of composing `x` with the composition
   * of `y` and `z`, whenever the attribute composition is associative.
   */
  lemma ComposeDeltasAssociative<T(!new), A(!new)>(combine: (A, A) -> A, x: Delta<T, A>, y: Delta<T, A>, z: Delta<T, A>)
    requires forall a, b, c :: combine(combine(a, b), c) == combine(a, combine(b, c))
    requires AllSized(x) && AllSized(y) && AllSized(z)
    requires NoEmpty(x) && NoEmpty(y) && NoEmpty(z)
    requires InsertedLen(x) + InsertedLen(y) + InsertedLen(z) <= USIZE_MAX
    ensures AllFit(x) && AllFit(y) && AllFit(z)
    ensures AllFit(Compose(combine, x, y)) && AllFit(Compose(combine, y, z))
    ensures Compose(combine, Compose(combine, x, y), z) == Compose(combine, x, Compose(combine, y, z))
  {
    FitsByInsertedLen(x);
    FitsByInsertedLen(y);
    FitsByInsertedLen(z);
    var xy, yz := Compose(combine, x, y), Compose(combine, y, z);
    ComposeExpand(combine, x, y);
    ComposeExpand(combine, y, z);
    ComposeInsertedLen(combine, x, y);
    ComposeInsertedLen(combine, y, z);
    FitsByInsertedLen(xy);
    FitsByInsertedLen(yz);
    ComposeExpand(combine, xy, z);
    ComposeExpand(combine, x, yz);
    var X, Y, Z := ExpandAll(x), ExpandAll(y), ExpandAll(z);
    ComposeNormalLeft(combine, ComposeUnits(combine, X, Y), Z);
    ComposeNormalRight(combine, X, ComposeUnits(combine, Y, Z));
    ComposeAssociative(combine, X, Y, Z);
    ExpandInjective(Compose(combine, xy, z), Compose(combine, x, yz));
  }

  /**
   * A retain without attributes is a right identity of composition on the
   * deltas composition produces (normal and chopped): `compose` keeps the
   * lhs leftover, and a retain reaching past the end of the lhs is trimmed
   * by `chop`, so its length does not matter.
   */
  lemma ComposeRetainIdentity<T(!new), A(!new)>(combine: (A, A) -> A, d: Delta<T, A>, n: nat)
    requires IsNormal(d) && AllFit(d) && ExpandAll(d) == Normalize(ExpandAll(d))
    requires n <= USIZE_MAX
    ensures AllFit(BuildRetain<T, A>([], n, None))
    ensures Compose(combine, d, BuildRetain([], n, None)) == d
  {
    var r: Delta<T, A> := BuildRetain([], n, None);
    if n == 0 {
      assert r == [];
    } else {
      assert r == [Retain(n, None)];
      ExpandAllSingle<T, A>(Retain(n, None));
    }
    assert ExpandAll(r) == Repeat(n, URet(None));
    ComposeExpand(combine, d, r);
    ComposePlainRetainsRight(combine, ExpandAll(d), n);
    ExpandInjective(Compose(combine, d, r), d);
  }

  /**
   * One user's side: the document after `mine`, then `theirs` rebased over
   * `mine`, as units in normal form.
   */
  lemma OneSide<T(!new), A(!new)>(combine: (A, A) -> A, before: Delta<T, A>, mine: Delta<T, A>, theirs: Delta<T, A>, priority: bool)
    requires LaterWins(combine)
    requires AllFit(before) && AllFit(mine) && AllFit(theirs)
    requires NoEmpty(before) && NoEmpty(mine) && NoEmpty(theirs)
    requires InsertedLen(before) + InsertedLen(mine) + InsertedLen(theirs) <= USIZE_MAX
    ensures AllFit(Compose(combine, before, mine)) && AllFit(Transform(mine, theirs, priority))
    ensures var r := Compose(combine, Compose(combine, before, mine), Transform(mine, theirs, priority));
      && IsNormal(r)
      && ExpandAll(r) == Normalize(ComposeUnits(combine, ExpandAll(before),
           Normalize(ComposeUnits(combine, ExpandAll(mine), TransformUnits(ExpandAll(mine), ExpandAll(theirs), priority)))))
  {
    var B, M, O := ExpandAll(before), ExpandAll(mine), ExpandAll(theirs);
    var c := Compose(combine, before, mine);
    var t := Transform(mine, theirs, priority);
    ComposeExpand(combine, before, mine);
    TransformExpand(mine, theirs, priority);
    ComposeInsertedLen(combine, before, mine);
    TransformInsertedLen(mine, theirs, priority);
    FitsByInsertedLen(c);
    FitsByInsertedLen(t);
    ComposeExpand(combine, c, t);
    var U := TransformUnits(M, O, priority);
    ComposeNormal(combine, ComposeUnits(combine, B, M), U);
    LaterWinsAssociative(combine);
    ComposeAssociative(combine, B, M, U);
    ComposeNormalRight(combine, B, ComposeUnits(combine, M, U));
  }

  /**
   * Convergence: applying Alice's delta and then Bob's rebased over it (Alice
   * has priority) gives exactly the delta obtained by applying Bob's and then
   * Alice's rebased over it (Bob without priority).
   */
  lemma Converges<T(!new), A(!new)>(combine: (A, A) -> A, before: Delta<T, A>, alice: Delta<T, A>, bob: Delta<T, A>)
    requires LaterWins(combine)
    requires AllFit(before) && AllFit(alice) && AllFit(bob)
    requires NoEmpty(before) && NoEmpty(alice) && NoEmpty(bob)
    requires InsertedLen(before) + InsertedLen(alice) + InsertedLen(bob) <= USIZE_MAX
    ensures AllFit(Compose(combine, before, alice)) && AllFit(Transform(alice, bob, true))
    ensures AllFit(Compose(combine, before, bob)) && AllFit(Transform(bob, alice, false))
    ensures Compose(combine, Compose(combine, before, alice), Transform(alice, bob, true))
         == Compose(combine, Compose(combine, before, bob), Transform(bob, alice, false))
  {
    OneSide(combine, before, alice, bob, true);
    OneSide(combine, before, bob, alice, false);
    TransformConverges(combine, ExpandAll(alice), ExpandAll(bob));
    ExpandInjective(Compose(combine, Compose(combine, before, alice), Transform(alice, bob, true)),
                    Compose(combine, Compose(combine, before, bob), Transform(bob, alice, false)));
  }

  /**
   * The assertion of the end-to-end tests: both users' results are defined
   * (every op fits in `usize`) and equal.
   */
  ghost predicate EndToEndHolds<T(!new), A(!new)>(combine: (A, A) -> A, before: Delta<T, A>, alice: Delta<T, A>, bob: Delta<T, A>)
  {
    && AllFit(before) && AllFit(alice) && AllFit(bob)
    && AllFit(Compose(combine, before, alice)) && AllFit(Transform(alice, bob, true))
    && AllFit(Compose(combine, before, bob)) && AllFit(Transform(bob, alice, false))
    && Compose(combine, Compose(combine, before, alice), Transform(alice, bob, true))
       == Compose(combine, Compose(combine, before, bob), Transform(bob, alice, false))
  }

  /** `from_iter` keeps the inserted elements. */
  lemma FromIterInsertedLen<T, A>(ops: seq<Op<T, A>>)
    requires AllSized(ops)
    ensures InsertedLen(FromIter(ops)) == InsertedLen(ops)
  {
    ExtendExpand([], ops);
    ReorderFromNil(ExpandAll(ops));
    ReorderInsCount(ExpandAll(ops));
    InsertedLenUnits(FromIter(ops));
    InsertedLenUnits(ops);
  }

  lemma {:induction false} ReorderInsCount<T, A>(w: List<Unit<T, A>>)
    ensures InsCount(Reorder(w)) == InsCount(w)
  {
    match w
    case Nil =>
    case Cons(x, t) =>
      ReorderInsCount(t);
      if x.UDel? {
        DeleteAfterInsertsInsCount(Reorder(t));
      }
  }

  /**
   * The fuzz target: three arbitrary deltas of strings with
   * `LastWriteWins<usize>` attributes, normalised by `from_iter`, converge.
   * Inserted text has to fit in memory.
   */
  lemma EndToEnd(before: seq<Op<char, LastWriteWins<nat>>>, alice: seq<Op<char, LastWriteWins<nat>>>, bob: seq<Op<char, LastWriteWins<nat>>>)
    requires AllSized(before) && AllSized(alice) && AllSized(bob)
    requires InsertedLen(before) + InsertedLen(alice) + InsertedLen(bob) <= USIZE_MAX
    ensures AllFit(FromIter(before)) && AllFit(FromIter(alice)) && AllFit(FromIter(bob))
    ensures var b, a, c := FromIter(before), FromIter(alice), FromIter(bob);
      && AllFit(Compose(ComposeLww, b, a)) && AllFit(Transform(a, c, true))
      && AllFit(Compose(ComposeLww, b, c)) && AllFit(Transform(c, a, false))
      && Compose(ComposeLww, Compose(ComposeLww, b, a), Transform(a, c, true))
         == Compose(ComposeLww, Compose(ComposeLww, b, c), Transform(c, a, false))
  {
    var b, a, c := FromIter(before), FromIter(alice), FromIter(bob);
    FromIterInsertedLen(before);
    FromIterInsertedLen(alice);
    FromIterInsertedLen(bob);
    FitsByInsertedLen(b);
    FitsByInsertedLen(a);
    FitsByInsertedLen(c);
    Converges(ComposeLww, b, a, c);
  }
}

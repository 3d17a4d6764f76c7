/**
 * The op iterator of `src/iter.rs`: a cursor over a delta's ops that can hold
 * a partly consumed op, and `zip_mut`, which walks two such cursors in step.
 */
module Iters {
  import opened Wrappers
  import opened Ops
  import opened Deltas

  /** `Iter<T, A>`: the op being consumed (if any) and the ops not reached yet. */
  datatype Iter<T, A> = Iter(partial: Option<Op<T, A>>, rest: seq<Op<T, A>>)

  /** An op fits in `usize`: every Rust `String`, `Vec` and count does. */
  predicate Fits<T, A>(op: Op<T, A>)
  {
    Len(op) <= USIZE_MAX
  }

  ghost predicate AllFit<T, A>(ops: seq<Op<T, A>>)
  {
    forall i :: 0 <= i < |ops| ==> Fits(ops[i])
  }

  ghost predicate IterFits<T, A>(it: Iter<T, A>)
  {
    (it.partial.Some? ==> Fits(it.partial.value)) && AllFit(it.rest)
  }

  /** `Iter::new`: nothing partly consumed yet. */
  function NewIter<T, A>(ops: seq<Op<T, A>>): (r: Iter<T, A>)
    ensures Leftover(r) == ops
  {
    Iter(None, ops)
  }

  /** Everything the iterator still holds: a non-empty partial op, then the rest. */
  function Leftover<T, A>(it: Iter<T, A>): seq<Op<T, A>>
  {
    (if it.partial.Some? && Len(it.partial.value) > 0 then [it.partial.value] else []) + it.rest
  }

  /** Sum of the lengths still held, plus one per op not reached yet. */
  function RestWeight<T, A>(ops: seq<Op<T, A>>): nat
  {
    if |ops| == 0 then 0 else Len(ops[0]) + 1 + RestWeight(ops[1..])
  }

  function Weight<T, A>(it: Iter<T, A>): nat
  {
    (if it.partial.Some? then Len(it.partial.value) else 0) + RestWeight(it.rest)
  }

  /**
   * `Iter::next_mut`: hands out the partial op while it is non-empty;
   * otherwise loads the next underlying op into the partial slot and hands
   * that out. The handed-out op is the one the caller may consume in place.
   */
  function NextMut<T, A>(it: Iter<T, A>): (r: (Option<Op<T, A>>, Iter<T, A>))
    ensures r.0.Some? ==> r.1.partial == r.0
    ensures r.0.None? <==> Leftover(it) == []
    ensures r.0.Some? && Len(r.0.value) > 0 ==> Leftover(r.1) == Leftover(it)
    ensures r.0.None? ==> Leftover(r.1) == []
    ensures r.0.Some? ==> (r.1 == it && Len(r.0.value) > 0) || Weight(r.1) < Weight(it)
    ensures r.1.rest == it.rest || (|it.rest| > 0 && r.1.rest == it.rest[1..])
    ensures IterFits(it) ==> IterFits(r.1)
  {
    if it.partial.Some? && Len(it.partial.value) > 0 then
      (it.partial, it)
    else if |it.rest| == 0 then
      (None, Iter(None, []))
    else
      (Some(it.rest[0]), Iter(Some(it.rest[0]), it.rest[1..]))
  }

  /**
   * `Iterator::next`: yields a non-empty partial op first, silently skips an
   * empty one, and then yields the underlying ops.
   */
  function Next<T, A>(it: Iter<T, A>): (r: (Option<Op<T, A>>, Iter<T, A>))
    ensures r.0.None? <==> Leftover(it) == []
    ensures r.0.Some? ==> Leftover(it) == [r.0.value] + Leftover(r.1)
    ensures r.0.Some? ==> Weight(r.1) < Weight(it)
  {
    var rest := it.rest;
    if it.partial.Some? && Len(it.partial.value) > 0 then
      (it.partial, Iter(None, rest))
    else if |rest| == 0 then
      (None, Iter(None, []))
    else
      (Some(rest[0]), Iter(None, rest[1..]))
  }

  /** Draining an iterator with `next` yields exactly its leftover. */
  function Drain<T, A>(it: Iter<T, A>): (r: seq<Op<T, A>>)
    ensures r == Leftover(it)
    decreases Weight(it)
  {
    var (x, it') := Next(it);
    if x.None? then [] else [x.value] + Drain(it')
  }

  /** The in-place map given to `zip_mut`: an output op and both remainders. */
  type StepFn<!T, !A> = (Op<T, A>, Op<T, A>) -> (Op<T, A>, Op<T, A>, Op<T, A>)

  /** The map never grows an op, and consumes something from two non-empty ops. */
  ghost predicate Shrinks<T(!new), A(!new)>(f: StepFn<T, A>)
  {
    forall a, b ::
      && Len(f(a, b).1) <= Len(a) && Len(f(a, b).2) <= Len(b)
      && (Len(a) > 0 && Len(b) > 0 ==> Len(f(a, b).1) + Len(f(a, b).2) < Len(a) + Len(b))
  }

  /** The map keeps every op within `usize`. */
  ghost predicate KeepsFit<T(!new), A(!new)>(f: StepFn<T, A>)
  {
    forall a, b :: Fits(a) && Fits(b) ==> Fits(f(a, b).0) && Fits(f(a, b).1) && Fits(f(a, b).2)
  }

  /**
   * `Iter::zip_mut`: while both cursors hand out an op, apply the map and
   * keep the remainders as the new partial ops. Returns the outputs and both
   * cursors; it stops as soon as either side is exhausted, so the other may
   * still hold ops.
   */
  function Zip<T(!new), A(!new)>(a: Iter<T, A>, b: Iter<T, A>, f: StepFn<T, A>): (r: (seq<Op<T, A>>, Iter<T, A>, Iter<T, A>))
    requires Shrinks(f) && KeepsFit(f) && IterFits(a) && IterFits(b)
    ensures Leftover(r.1) == [] || Leftover(r.2) == []
    ensures Leftover(a) != [] && Leftover(b) != [] ==> |r.0| > 0
    ensures Leftover(a) == [] || Leftover(b) == [] ==> r.0 == []
    ensures AllFit(r.0) && IterFits(r.1) && IterFits(r.2)
    decreases Weight(a) + Weight(b)
  {
    var (x, a1) := NextMut(a);
    var (y, b1) := NextMut(b);
    if x.Some? && y.Some? then
      var step := f(x.value, y.value);
      var a2 := Iter(Some(step.1), a1.rest);
      var b2 := Iter(Some(step.2), b1.rest);
      assert Weight(a2) <= Weight(a1) && Weight(b2) <= Weight(b1);
      var (outs, a3, b3) := Zip(a2, b2, f);
      ([step.0] + outs, a3, b3)
    else
      ([], a1, b1)
  }

  /** What `Zip` hands back from fitting inputs is `usize`-sized, and so are both leftovers. */
  lemma ZipSized<T, A>(outs: seq<Op<T, A>>, a: Iter<T, A>, b: Iter<T, A>)
    requires AllFit(outs) && IterFits(a) && IterFits(b)
    ensures AllSized(outs) && AllSized(Leftover(a)) && AllSized(Leftover(b))
    ensures AllSized(Leftover(a) + Leftover(b))
  {
    var l := Leftover(a) + Leftover(b);
    assert forall i :: 0 <= i < |l| ==> Fits(l[i]);
  }
}

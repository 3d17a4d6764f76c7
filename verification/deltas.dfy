/**
 * A delta and its normalisation (`src/delta.rs`): `push` drops empty ops,
 * merges an op into a compatible last op, keeps inserts in front of deletes
 * and splits a merged retain or delete that would overflow `usize`.
 */
module Deltas {
  import opened Wrappers
  import opened Ops

  /** `Delta<T, A>`: the ordered operations it owns. */
  type Delta<T, A> = seq<Op<T, A>>

  /** Sum of the lengths of all ops (inserts, retains and deletes alike). */
  function TotalLen<T, A>(d: Delta<T, A>): nat
  {
    if |d| == 0 then 0 else TotalLen(d[..|d| - 1]) + Len(d[|d| - 1])
  }

  ghost predicate AllSized<T, A>(d: Delta<T, A>)
  {
    forall i :: 0 <= i < |d| ==> Sized(d[i])
  }

  /** No op of length zero is stored. */
  ghost predicate NoEmpty<T, A>(d: Delta<T, A>)
  {
    forall i :: 0 <= i < |d| ==> Len(d[i]) > 0
  }

  /** An insert never directly follows a delete. */
  ghost predicate InsertsBeforeDeletes<T, A>(d: Delta<T, A>)
  {
    forall i :: 0 < i < |d| ==> !(d[i - 1].Delete? && d[i].Insert?)
  }

  lemma {:induction false} TotalLenAppend<T, A>(a: Delta<T, A>, b: Delta<T, A>)
    ensures TotalLen(a + b) == TotalLen(a) + TotalLen(b)
    decreases |b|
  {
    if |b| == 0 {
      assert a + b == a;
    } else {
      assert (a + b)[..|a + b| - 1] == a + b[..|b| - 1];
      TotalLenAppend(a, b[..|b| - 1]);
    }
  }

  /** Rust's `usize::overflowing_add`: the wrapped sum and whether it wrapped. */
  function OverflowingAdd(a: nat, b: nat): (r: (nat, bool))
    requires a <= USIZE_MAX && b <= USIZE_MAX
    ensures r.1 <==> a + b > USIZE_MAX
    ensures r.0 == if r.1 then a + b - USIZE_MODULUS else a + b
    ensures r.0 <= USIZE_MAX
  {
    ((a + b) % USIZE_MODULUS, a + b >= USIZE_MODULUS)
  }

  /**
   * The tail `push` leaves in place of the last op `last` when `op` is pushed
   * after it (and `op` is not an insert following a delete). An insert with
   * the same attributes as a last insert is concatenated onto it; a retain
   * with the same attributes as a last retain, and any delete after a last
   * delete, add their counts, saturating at `usize::MAX` and spilling the
   * rest into a new op. Anything else is appended.
   */
  function Merge<T, A(==)>(last: Op<T, A>, op: Op<T, A>): (r: seq<Op<T, A>>)
    requires Sized(last) && Sized(op)
    ensures 1 <= |r| <= 2 && forall i :: 0 <= i < |r| ==> Sized(r[i])
    ensures TotalLen(r) == Len(last) + Len(op)
    ensures |r| == 2 && r != [last, op] ==>
      && (last.Retain? || last.Delete?) && Len(last) + Len(op) > USIZE_MAX
      && r[0] == (if last.Retain? then Retain(USIZE_MAX, last.attributes) else Delete(USIZE_MAX))
  {
    TotalLenShort<T, A>();
    match last
    case Insert(content, attributes) =>
      if op.Insert? && op.attributes == attributes then
        [Insert(content + op.insert, attributes)]
      else
        [last, op]
    case Retain(n, attributes) =>
      if op.Retain? && op.attributes == attributes then
        var (sum, overflow) := OverflowingAdd(n, op.retain);
        if !overflow then [Retain(sum, attributes)]
        else [Retain(USIZE_MAX, attributes), Retain(sum + 1, op.attributes)]
      else
        [last, op]
    case Delete(n) =>
      if op.Delete? then
        var (sum, overflow) := OverflowingAdd(n, op.delete);
        if !overflow then [Delete(sum)]
        else [Delete(USIZE_MAX), Delete(sum + 1)]
      else
        [last, op]
  }

  /**
   * `Delta::push`. An empty op is dropped, an insert pushed after a delete
   * is pushed before that delete instead, and otherwise the op is merged into
   * the last one where possible (`Merge`).
   */
  function Push<T, A(==)>(d: Delta<T, A>, op: Op<T, A>): (r: Delta<T, A>)
    requires AllSized(d) && Sized(op)
    ensures AllSized(r)
    ensures Len(op) == 0 ==> r == d
    ensures Len(op) > 0 ==> |r| > 0
    decreases if op.Delete? then 0 else 1, |d|
  {
    if Len(op) == 0 then d
    else if |d| == 0 then [op]
    else
      var init, last := d[..|d| - 1], d[|d| - 1];
      if last.Delete? && op.Insert? then Push(Push(init, op), last)
      else init + Merge(last, op)
  }

  /** Pushing never loses or invents length: the total grows by exactly the op's length. */
  lemma {:induction false} PushTotalLen<T, A>(d: Delta<T, A>, op: Op<T, A>)
    requires AllSized(d) && Sized(op)
    ensures TotalLen(Push(d, op)) == TotalLen(d) + Len(op)
    decreases if op.Delete? then 0 else 1, |d|
  {
    if Len(op) == 0 {
    } else if |d| == 0 {
      assert [op][..0] == [];
    } else {
      var init, last := d[..|d| - 1], d[|d| - 1];
      assert d == init + [last];
      TotalLenSnoc(init, last);
      if last.Delete? && op.Insert? {
        PushTotalLen(init, op);
        PushTotalLen(Push(init, op), last);
      } else {
        TotalLenAppend(init, Merge(last, op));
      }
    }
  }

  lemma TotalLenShort<T, A>()
    ensures forall a: Op<T, A> :: TotalLen([a]) == Len(a)
    ensures forall a: Op<T, A>, b: Op<T, A> :: TotalLen([a, b]) == Len(a) + Len(b)
  {
    forall a: Op<T, A>, b: Op<T, A> ensures TotalLen([a, b]) == Len(a) + Len(b) {
      TotalLenSnoc([], a);
      TotalLenSnoc([a], b);
      assert [a] + [b] == [a, b];
    }
  }

  lemma TotalLenSnoc<T, A>(d: Delta<T, A>, op: Op<T, A>)
    ensures TotalLen(d + [op]) == TotalLen(d) + Len(op)
  {
    assert (d + [op])[..|d|] == d;
  }

  /** Pushing keeps a delta free of empty ops and of inserts directly after deletes. */
  lemma {:induction false} PushKeepsNormal<T, A>(d: Delta<T, A>, op: Op<T, A>)
    requires AllSized(d) && Sized(op)
    ensures NoEmpty(d) ==> NoEmpty(Push(d, op))
    ensures InsertsBeforeDeletes(d) ==> InsertsBeforeDeletes(Push(d, op))
    decreases if op.Delete? then 0 else 1, |d|
  {
    if Len(op) > 0 && |d| > 0 {
      var init, last := d[..|d| - 1], d[|d| - 1];
      if last.Delete? && op.Insert? {
        PushKeepsNormal(init, op);
        PushKeepsNormal(Push(init, op), last);
      }
    }
  }

  /** `Extend for Delta`: pushes every op in order. */
  function Extend<T, A(==)>(d: Delta<T, A>, ops: seq<Op<T, A>>): (r: Delta<T, A>)
    requires AllSized(d) && AllSized(ops)
    ensures AllSized(r)
    decreases |ops|
  {
    if |ops| == 0 then d else Extend(Push(d, ops[0]), ops[1..])
  }

  lemma {:induction false} ExtendTotalLen<T, A>(d: Delta<T, A>, ops: seq<Op<T, A>>)
    requires AllSized(d) && AllSized(ops)
    ensures TotalLen(Extend(d, ops)) == TotalLen(d) + TotalLen(ops)
    decreases |ops|
  {
    if |ops| > 0 {
      PushTotalLen(d, ops[0]);
      ExtendTotalLen(Push(d, ops[0]), ops[1..]);
      assert ops == [ops[0]] + ops[1..];
      TotalLenAppend([ops[0]], ops[1..]);
      assert [ops[0]][..0] == [];
    }
  }

  lemma {:induction false} ExtendKeepsNormal<T, A>(d: Delta<T, A>, ops: seq<Op<T, A>>)
    requires AllSized(d) && AllSized(ops)
    ensures NoEmpty(d) ==> NoEmpty(Extend(d, ops))
    ensures InsertsBeforeDeletes(d) ==> InsertsBeforeDeletes(Extend(d, ops))
    decreases |ops|
  {
    if |ops| > 0 {
      PushKeepsNormal(d, ops[0]);
      ExtendKeepsNormal(Push(d, ops[0]), ops[1..]);
    }
  }

  /**
   * `FromIterator for Delta`: extends an empty delta. The result stores no
   * empty op, no insert directly after a delete, and has the input's total length.
   */
  function FromIter<T, A(==)>(ops: seq<Op<T, A>>): (r: Delta<T, A>)
    requires AllSized(ops)
    ensures AllSized(r) && NoEmpty(r) && InsertsBeforeDeletes(r)
    ensures TotalLen(r) == TotalLen(ops)
  {
    ExtendKeepsNormal([], ops);
    ExtendTotalLen([], ops);
    Extend([], ops)
  }

  /**
   * `Delta::chop`: pops trailing retains without attributes, stopping at the
   * first retain with attributes or any other op.
   */
  function Chop<T, A>(d: Delta<T, A>): (r: Delta<T, A>)
    ensures |r| <= |d| && r == d[..|r|]
    ensures forall i :: |r| <= i < |d| ==> d[i].Retain? && d[i].attributes.None?
    ensures |r| > 0 ==> !(r[|r| - 1].Retain? && r[|r| - 1].attributes.None?)
    decreases |d|
  {
    if |d| > 0 && d[|d| - 1].Retain? && d[|d| - 1].attributes.None? then
      Chop(d[..|d| - 1])
    else
      d
  }

  /**
   * The common end of `compose` and `transform`: push the zipped outputs,
   * then the leftovers, and chop the trailing plain retains.
   */
  function Assemble<T, A(==)>(outs: seq<Op<T, A>>, tail: seq<Op<T, A>>): (r: Delta<T, A>)
    requires AllSized(outs) && AllSized(tail)
    ensures AllSized(r)
    ensures |r| > 0 ==> !(r[|r| - 1].Retain? && r[|r| - 1].attributes.None?)
  {
    var e := Extend(Extend([], outs), tail);
    var r := Chop(e);
    assert forall i :: 0 <= i < |r| ==> r[i] == e[i];
    r
  }

  /** `Delta::insert`: the builder pushes one insert. */
  function BuildInsert<T, A(==)>(d: Delta<T, A>, content: seq<T>, attributes: Option<A>): (r: Delta<T, A>)
    requires AllSized(d)
    ensures TotalLen(r) == TotalLen(d) + |content|
  {
    PushTotalLen(d, Insert(content, attributes));
    Push(d, Insert(content, attributes))
  }

  /** `Delta::retain`: the builder pushes one retain. */
  function BuildRetain<T, A(==)>(d: Delta<T, A>, n: nat, attributes: Option<A>): (r: Delta<T, A>)
    requires AllSized(d) && n <= USIZE_MAX
    ensures TotalLen(r) == TotalLen(d) + n
  {
    PushTotalLen(d, Retain(n, attributes));
    Push(d, Retain(n, attributes))
  }

  /** `Delta::delete`: the builder pushes one delete. */
  function BuildDelete<T, A(==)>(d: Delta<T, A>, n: nat): (r: Delta<T, A>)
    requires AllSized(d) && n <= USIZE_MAX
    ensures TotalLen(r) == TotalLen(d) + n
  {
    PushTotalLen(d, Delete(n));
    Push(d, Delete(n))
  }
}

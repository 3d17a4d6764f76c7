/**
 * Element-level reference semantics. An op stands for one unit per element
 * it covers: an inserted element, a retained element (with the attributes
 * the retain applies) or a deleted element. Composition and transformation
 * of deltas are defined one element at a time on these units, and the
 * op-level algorithms are proved to agree with those definitions.
 */
module Units {
  import opened Wrappers
  import opened Ops
  import opened Lists

  /** What an op does to a single element. */
  datatype Unit<T, A> = UIns(elem: T, attrs: Option<A>) | URet(attrs: Option<A>) | UDel

  /** One inserting unit per element of `content`. */
  function InsUnits<T, A>(content: seq<T>, attrs: Option<A>): List<Unit<T, A>>
  {
    if |content| == 0 then Nil else Cons(UIns(content[0], attrs), InsUnits(content[1..], attrs))
  }

  /** The units an op stands for, in order. */
  function Expand<T, A>(op: Op<T, A>): List<Unit<T, A>>
  {
    match op
    case Insert(content, attributes) => InsUnits(content, attributes)
    case Retain(n, attributes) => Repeat(n, URet(attributes))
    case Delete(n) => Repeat(n, UDel)
  }

  /** The units a sequence of ops stands for. */
  function ExpandAll<T, A>(ops: seq<Op<T, A>>): List<Unit<T, A>>
  {
    if |ops| == 0 then Nil else Append(Expand(ops[0]), ExpandAll(ops[1..]))
  }

  lemma {:induction false} InsUnitsLength<T, A>(content: seq<T>, attrs: Option<A>)
    ensures Length(InsUnits(content, attrs)) == |content|
    decreases |content|
  {
    if |content| > 0 {
      InsUnitsLength(content[1..], attrs);
    }
  }

  /** An op stands for exactly as many units as it covers elements. */
  lemma ExpandLength<T, A>(op: Op<T, A>)
    ensures Length(Expand(op)) == Len(op)
  {
    match op
    case Insert(content, attributes) => InsUnitsLength(content, attributes);
    case Retain(n, attributes) => LengthRepeat(n, Unit<T, A>.URet(attributes));
    case Delete(n) => LengthRepeat(n, Unit<T, A>.UDel);
  }

  lemma {:induction false} InsUnitsAppend<T, A>(a: seq<T>, b: seq<T>, attrs: Option<A>)
    ensures InsUnits(a + b, attrs) == Append(InsUnits(a, attrs), InsUnits(b, attrs))
    decreases |a|
  {
    if |a| == 0 {
      assert a + b == b;
    } else {
      assert (a + b)[1..] == a[1..] + b;
      InsUnitsAppend(a[1..], b, attrs);
    }
  }

  /** Splitting an op splits its units at the same place. */
  lemma ExpandSplit<T, A>(op: Op<T, A>, prefix: Op<T, A>, rest: Op<T, A>)
    requires IsSplitOf(op, prefix, rest)
    ensures Expand(op) == Append(Expand(prefix), Expand(rest))
  {
    match op
    case Insert(content, attributes) => InsUnitsAppend(prefix.insert, rest.insert, attributes);
    case Retain(n, attributes) => RepeatAdd(prefix.retain, rest.retain, Unit<T, A>.URet(attributes));
    case Delete(n) => RepeatAdd(prefix.delete, rest.delete, Unit<T, A>.UDel);
  }

  lemma {:induction false} ExpandAllAppend<T, A>(a: seq<Op<T, A>>, b: seq<Op<T, A>>)
    ensures ExpandAll(a + b) == Append(ExpandAll(a), ExpandAll(b))
    decreases |a|
  {
    if |a| == 0 {
      assert a + b == b;
    } else {
      assert (a + b)[1..] == a[1..] + b;
      ExpandAllAppend(a[1..], b);
      AppendAssoc(Expand(a[0]), ExpandAll(a[1..]), ExpandAll(b));
    }
  }

  lemma ExpandAllSingle<T, A>(op: Op<T, A>)
    ensures ExpandAll([op]) == Expand(op)
  {
    assert [op][1..] == [];
    AppendNil(Expand(op));
  }

  /** The units of `d` with one more op at the end. */
  lemma ExpandAllSnoc<T, A>(d: seq<Op<T, A>>, op: Op<T, A>)
    ensures ExpandAll(d + [op]) == Append(ExpandAll(d), Expand(op))
  {
    ExpandAllAppend(d, [op]);
    ExpandAllSingle(op);
  }

  /** Number of inserted elements among some units. */
  function InsCount<T, A>(v: List<Unit<T, A>>): nat
  {
    match v
    case Nil => 0
    case Cons(u, t) => (if u.UIns? then 1 else 0) + InsCount(t)
  }

  lemma {:induction false} InsCountAppend<T, A>(a: List<Unit<T, A>>, b: List<Unit<T, A>>)
    ensures InsCount(Append(a, b)) == InsCount(a) + InsCount(b)
  {
    match a
    case Nil =>
    case Cons(_, t) => InsCountAppend(t, b);
  }
}

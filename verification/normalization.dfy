/**
 * What `push`, `extend` and `chop` (`src/delta.rs`) do to the units a delta
 * stands for, and why a delta built by them is determined by its units.
 * Pushing an op appends its units the way `ReorderSnoc` does, chopping
 * strips trailing plain retains, so a delta assembled by `compose` or
 * `transform` stands for the normal form of the units pushed into it. Such
 * a delta never holds two neighbouring ops of one class except where a
 * retain or delete was saturated at `usize::MAX`, and two of them with the
 * same units are equal.
 */
module Normalization {
  import opened Wrappers
  import opened Ops
  import opened Lists
  import opened Units
  import opened Canonical
  import opened Deltas
  import opened Iters

  lemma {:induction false} InsUnitsKinds<T, A>(content: seq<T>, attrs: Option<A>)
    ensures AllIns(InsUnits(content, attrs)) && !EndsInDel(InsUnits(content, attrs))
    ensures Strip(InsUnits(content, attrs)) == InsUnits(content, attrs)
    ensures InsCount(InsUnits(content, attrs)) == |content|
    decreases |content|
  {
    if |content| > 0 {
      InsUnitsKinds(content[1..], attrs);
    }
  }

  lemma {:induction false} RepeatKinds<T, A>(n: nat, u: Unit<T, A>)
    ensures !u.UIns? ==> NoIns(Repeat(n, u)) && InsCount(Repeat(n, u)) == 0
    ensures u.UDel? ==> AllDel(Repeat(n, u))
    ensures n > 0 ==> (EndsInDel(Repeat(n, u)) <==> u.UDel?)
    ensures IsPlainRetain(u) ==> Strip(Repeat(n, u)) == Nil
    ensures !IsPlainRetain(u) ==> Strip(Repeat(n, u)) == Repeat(n, u)
  {
    if n > 0 {
      RepeatKinds(n - 1, u);
    }
  }

  /** Which units an op stands for: inserts for an insert, deletes for a delete, never a mix. */
  lemma ExpandKinds<T, A>(op: Op<T, A>)
    ensures op.Insert? ==> AllIns(Expand(op)) && InsCount(Expand(op)) == |op.insert|
    ensures !op.Insert? ==> NoIns(Expand(op)) && InsCount(Expand(op)) == 0
    ensures op.Delete? ==> AllDel(Expand(op))
    ensures Len(op) > 0 ==> (EndsInDel(Expand(op)) <==> op.Delete?)
    ensures op.Retain? && op.attributes.None? ==> Strip(Expand(op)) == Nil
    ensures !(op.Retain? && op.attributes.None?) ==> Strip(Expand(op)) == Expand(op)
  {
    match op
    case Insert(content, attributes) => InsUnitsKinds(content, attributes);
    case Retain(n, attributes) => RepeatKinds(n, Unit<T, A>.URet(attributes));
    case Delete(n) => RepeatKinds(n, Unit<T, A>.UDel);
  }

  lemma ExpandAllPair<T, A>(a: Op<T, A>, b: Op<T, A>)
    ensures ExpandAll([a, b]) == Append(Expand(a), Expand(b))
  {
    assert [a, b][1..] == [b];
    ExpandAllSingle(b);
  }

  /** Merging the last op with a pushed one keeps their units, in order. */
  lemma MergeExpand<T, A>(last: Op<T, A>, op: Op<T, A>)
    requires Sized(last) && Sized(op)
    ensures ExpandAll(Merge(last, op)) == Append(Expand(last), Expand(op))
  {
    var m := Merge(last, op);
    if |m| == 1 {
      ExpandAllSingle(m[0]);
      match last
      case Insert(content, attributes) => InsUnitsAppend(content, op.insert, attributes);
      case Retain(n, attributes) => RepeatAdd(n, op.retain, Unit<T, A>.URet(attributes));
      case Delete(n) => RepeatAdd(n, op.delete, Unit<T, A>.UDel);
    } else {
      ExpandAllPair(m[0], m[1]);
      if m != [last, op] {
        match last
        case Retain(n, attributes) =>
          RepeatAdd(n, op.retain, Unit<T, A>.URet(attributes));
          RepeatAdd(USIZE_MAX, m[1].retain, Unit<T, A>.URet(attributes));
        case Delete(n) =>
          RepeatAdd(n, op.delete, Unit<T, A>.UDel);
          RepeatAdd(USIZE_MAX, m[1].delete, Unit<T, A>.UDel);
      }
    }
  }

  /**
   * Pushing an op appends its units, except that inserted units go in front
   * of the deletes at the end.
   */
  lemma {:induction false} PushExpand<T, A>(d: Delta<T, A>, op: Op<T, A>)
    requires AllSized(d) && Sized(op) && NoEmpty(d)
    ensures ExpandAll(Push(d, op)) == ReorderSnocAll(ExpandAll(d), Expand(op))
    decreases if op.Delete? then 0 else 1, |d|
  {
    ExpandKinds(op);
    ExpandLength(op);
    if Len(op) == 0 {
    } else if |d| == 0 {
      ExpandAllSingle(op);
      if op.Insert? {
        ReorderSnocAllInserts(Nil, Expand(op));
      } else {
        ReorderSnocAllNoInserts(Nil, Expand(op));
      }
    } else {
      var init, last := d[..|d| - 1], d[|d| - 1];
      assert d == init + [last];
      ExpandAllSnoc(init, last);
      ExpandKinds(last);
      if last.Delete? && op.Insert? {
        PushExpand(init, op);
        PushKeepsNormal(init, op);
        PushExpand(Push(init, op), last);
        ReorderSnocAllNoInserts(ExpandAll(Push(init, op)), Expand(last));
        ReorderSnocAllPastDeletes(ExpandAll(init), Expand(last), Expand(op));
      } else {
        MergeExpand(last, op);
        ExpandAllAppend(init, Merge(last, op));
        AppendAssoc(ExpandAll(init), Expand(last), Expand(op));
        if op.Insert? {
          EndsInDelAppend(ExpandAll(init), Expand(last));
          ReorderSnocAllInserts(ExpandAll(d), Expand(op));
        } else {
          ReorderSnocAllNoInserts(ExpandAll(d), Expand(op));
        }
      }
    }
  }

  /** Extending pushes the units of every op in turn. */
  lemma {:induction false} ExtendExpand<T, A>(d: Delta<T, A>, ops: seq<Op<T, A>>)
    requires AllSized(d) && AllSized(ops) && NoEmpty(d)
    ensures ExpandAll(Extend(d, ops)) == ReorderSnocAll(ExpandAll(d), ExpandAll(ops))
    decreases |ops|
  {
    if |ops| > 0 {
      PushExpand(d, ops[0]);
      PushKeepsNormal(d, ops[0]);
      ExtendExpand(Push(d, ops[0]), ops[1..]);
      ReorderSnocAllAppend(ExpandAll(d), Expand(ops[0]), ExpandAll(ops[1..]));
    }
  }

  lemma {:induction false} StripAppend<T, A>(a: List<Unit<T, A>>, b: List<Unit<T, A>>)
    ensures Strip(Append(a, b)) == if Strip(b).Nil? then Strip(a) else Append(a, Strip(b))
  {
    match a
    case Nil =>
    case Cons(_, t) => StripAppend(t, b);
  }

  /** Chopping strips the trailing plain retains from the units. */
  lemma {:induction false} ChopExpand<T, A>(d: Delta<T, A>)
    requires NoEmpty(d)
    ensures ExpandAll(Chop(d)) == Strip(ExpandAll(d))
    decreases |d|
  {
    if |d| > 0 {
      var init, last := d[..|d| - 1], d[|d| - 1];
      assert d == init + [last];
      ExpandAllSnoc(init, last);
      ExpandKinds(last);
      ExpandLength(last);
      StripAppend(ExpandAll(init), Expand(last));
      if last.Retain? && last.attributes.None? {
        ChopExpand(init);
      }
    }
  }

  /** What neighbouring ops `push` would have merged share. */
  datatype Class<A> = InsClass(Option<A>) | RetClass(Option<A>) | DelClass

  function OpClass<T, A>(op: Op<T, A>): Class<A>
  {
    match op
    case Insert(_, attributes) => InsClass(attributes)
    case Retain(_, attributes) => RetClass(attributes)
    case Delete(_) => DelClass
  }

  function UnitClass<T, A>(u: Unit<T, A>): Class<A>
  {
    match u
    case UIns(_, attrs) => InsClass(attrs)
    case URet(attrs) => RetClass(attrs)
    case UDel => DelClass
  }

  /** Two neighbouring ops `push` leaves apart: different classes, or a first op saturated at `usize::MAX`. */
  ghost predicate Apart<T, A>(a: Op<T, A>, b: Op<T, A>)
  {
    OpClass(a) != OpClass(b) || (!a.Insert? && Len(a) == USIZE_MAX)
  }

  ghost predicate Chunked<T, A>(d: Delta<T, A>)
  {
    forall i :: 0 < i < |d| ==> Apart(d[i - 1], d[i])
  }

  /** The deltas `push` builds: `usize`-sized, no empty op, nothing left unmerged. */
  ghost predicate IsNormal<T, A>(d: Delta<T, A>)
  {
    AllSized(d) && NoEmpty(d) && Chunked(d)
  }

  lemma ChunkedAppend<T, A>(a: Delta<T, A>, b: Delta<T, A>)
    requires Chunked(a) && Chunked(b) && (|a| > 0 && |b| > 0 ==> Apart(a[|a| - 1], b[0]))
    ensures Chunked(a + b)
  {
    forall i | 0 < i < |a + b|
      ensures Apart((a + b)[i - 1], (a + b)[i])
    {
      if i > |a| {
        assert (a + b)[i - 1] == b[i - 1 - |a|];
      }
    }
  }

  /** The ops `Merge` leaves start with the last op's class and are apart from each other. */
  lemma MergeChunked<T, A>(last: Op<T, A>, op: Op<T, A>)
    requires Sized(last) && Sized(op)
    ensures OpClass(Merge(last, op)[0]) == OpClass(last)
    ensures Chunked(Merge(last, op))
  {
  }

  /** Pushing leaves no two neighbouring ops unmerged. */
  lemma {:induction false} PushKeepsChunked<T, A>(d: Delta<T, A>, op: Op<T, A>)
    requires AllSized(d) && Sized(op) && Chunked(d)
    ensures Chunked(Push(d, op))
    decreases if op.Delete? then 0 else 1, |d|
  {
    if Len(op) > 0 && |d| > 0 {
      var init, last := d[..|d| - 1], d[|d| - 1];
      assert Chunked(init) by {
        forall i | 0 < i < |init| ensures Apart(init[i - 1], init[i]) {
          assert init[i - 1] == d[i - 1] && init[i] == d[i];
        }
      }
      if last.Delete? && op.Insert? {
        PushKeepsChunked(init, op);
        PushKeepsChunked(Push(init, op), last);
      } else {
        MergeChunked(last, op);
        if |init| > 0 {
          assert Apart(d[|d| - 2], d[|d| - 1]);
        }
        ChunkedAppend(init, Merge(last, op));
      }
    }
  }

  lemma {:induction false} ExtendKeepsChunked<T, A>(d: Delta<T, A>, ops: seq<Op<T, A>>)
    requires AllSized(d) && AllSized(ops) && Chunked(d)
    ensures Chunked(Extend(d, ops))
    decreases |ops|
  {
    if |ops| > 0 {
      PushKeepsChunked(d, ops[0]);
      ExtendKeepsChunked(Push(d, ops[0]), ops[1..]);
    }
  }

  /**
   * The end of `compose` and `transform` stands for the normal form of the
   * units pushed into it, and is a normal delta.
   */
  lemma AssembleExpand<T, A>(outs: seq<Op<T, A>>, tail: seq<Op<T, A>>)
    requires AllSized(outs) && AllSized(tail)
    ensures IsNormal(Assemble(outs, tail))
    ensures ExpandAll(Assemble(outs, tail)) == Normalize(ExpandAll(outs + tail))
  {
    var e1 := Extend([], outs);
    var e := Extend(e1, tail);
    ExtendKeepsNormal([], outs);
    ExtendKeepsNormal(e1, tail);
    ExtendKeepsChunked([], outs);
    ExtendKeepsChunked(e1, tail);
    ExtendExpand([], outs);
    ExtendExpand(e1, tail);
    ReorderSnocAllAppend(Nil, ExpandAll(outs), ExpandAll(tail));
    ExpandAllAppend(outs, tail);
    ReorderFromNil(ExpandAll(outs + tail));
    ChopExpand(e);
    StripReorder(ExpandAll(outs + tail));
    var r := Chop(e);
    assert forall i :: 0 <= i < |r| ==> r[i] == e[i];
  }

  /** Number of leading units of class `c`. */
  ghost function RunLen<T, A>(v: List<Unit<T, A>>, c: Class<A>): nat
  {
    match v
    case Nil => 0
    case Cons(u, t) => if UnitClass(u) == c then 1 + RunLen(t, c) else 0
  }

  lemma {:induction false} RunLenInsUnits<T, A>(content: seq<T>, attrs: Option<A>, w: List<Unit<T, A>>)
    ensures RunLen(Append(InsUnits(content, attrs), w), InsClass(attrs)) == |content| + RunLen(w, InsClass(attrs))
    decreases |content|
  {
    if |content| > 0 {
      RunLenInsUnits(content[1..], attrs, w);
    }
  }

  lemma {:induction false} RunLenRepeat<T, A>(n: nat, u: Unit<T, A>, w: List<Unit<T, A>>)
    ensures RunLen(Append(Repeat(n, u), w), UnitClass(u)) == n + RunLen(w, UnitClass(u))
  {
    if n > 0 {
      RunLenRepeat(n - 1, u, w);
    }
  }

  /** The units of an op form a run of its class. */
  lemma RunLenExpand<T, A>(op: Op<T, A>, w: List<Unit<T, A>>)
    ensures RunLen(Append(Expand(op), w), OpClass(op)) == Len(op) + RunLen(w, OpClass(op))
  {
    match op
    case Insert(content, attributes) => RunLenInsUnits(content, attributes, w);
    case Retain(n, attributes) => RunLenRepeat(n, Unit<T, A>.URet(attributes), w);
    case Delete(n) => RunLenRepeat(n, Unit<T, A>.UDel, w);
  }

  /** The first unit of a non-empty op has the op's class. */
  lemma ExpandHead<T, A>(op: Op<T, A>)
    requires Len(op) > 0
    ensures Expand(op).Cons? && UnitClass(Expand(op).head) == OpClass(op)
  {
    ExpandLength(op);
  }

  /**
   * In a normal delta the run of the first op's class is exactly that op,
   * unless the op is a retain or delete saturated at `usize::MAX`.
   */
  lemma RunLenHead<T, A>(d: Delta<T, A>)
    requires IsNormal(d) && |d| > 0
    ensures var n := RunLen(ExpandAll(d), OpClass(d[0]));
      n == Len(d[0]) || (!d[0].Insert? && Len(d[0]) == USIZE_MAX && n >= USIZE_MAX)
  {
    RunLenExpand(d[0], ExpandAll(d[1..]));
    if |d| > 1 && OpClass(d[1]) != OpClass(d[0]) {
      ExpandHead(d[1]);
      assert Apart(d[0], d[1]);
    } else if |d| > 1 {
      assert Apart(d[0], d[1]);
    }
  }

  lemma {:induction false} InsUnitsInjective<T, A>(a: seq<T>, b: seq<T>, attrs: Option<A>)
    requires InsUnits(a, attrs) == InsUnits(b, attrs)
    ensures a == b
    decreases |a|
  {
    InsUnitsLength(a, attrs);
    InsUnitsLength(b, attrs);
    if |a| > 0 {
      InsUnitsInjective(a[1..], b[1..], attrs);
      assert a == [a[0]] + a[1..] && b == [b[0]] + b[1..];
    }
  }

  /** A non-empty op is determined by its units. */
  lemma ExpandOpInjective<T, A>(a: Op<T, A>, b: Op<T, A>)
    requires Len(a) > 0 && Len(b) > 0 && Expand(a) == Expand(b)
    ensures a == b
  {
    ExpandHead(a);
    ExpandHead(b);
    ExpandLength(a);
    ExpandLength(b);
    if a.Insert? {
      InsUnitsInjective(a.insert, b.insert, a.attributes);
    }
  }

  /** Two normal deltas with the same units are the same delta. */
  lemma {:induction false} ExpandInjective<T, A>(d1: Delta<T, A>, d2: Delta<T, A>)
    requires IsNormal(d1) && IsNormal(d2) && ExpandAll(d1) == ExpandAll(d2)
    ensures d1 == d2
    decreases |d1|
  {
    if |d1| > 0 && |d2| == 0 {
      ExpandHead(d1[0]);
      assert false;
    } else if |d1| == 0 && |d2| > 0 {
      ExpandHead(d2[0]);
      assert false;
    } else if |d1| > 0 {
      var a, b := d1[0], d2[0];
      ExpandHead(a);
      ExpandHead(b);
      assert OpClass(a) == OpClass(b);
      RunLenHead(d1);
      RunLenHead(d2);
      assert Len(a) == Len(b);
      ExpandLength(a);
      ExpandLength(b);
      AppendCancel(Expand(a), ExpandAll(d1[1..]), Expand(b), ExpandAll(d2[1..]));
      ExpandOpInjective(a, b);
      assert IsNormal(d1[1..]) by {
        forall i | 0 < i < |d1[1..]| ensures Apart(d1[1..][i - 1], d1[1..][i]) {
          assert Apart(d1[i], d1[i + 1]);
        }
      }
      assert IsNormal(d2[1..]) by {
        forall i | 0 < i < |d2[1..]| ensures Apart(d2[1..][i - 1], d2[1..][i]) {
          assert Apart(d2[i], d2[i + 1]);
        }
      }
      ExpandInjective(d1[1..], d2[1..]);
      assert d1 == [a] + d1[1..] && d2 == [b] + d2[1..];
    }
  }

  /** Number of inserted elements in a delta. */
  function InsertedLen<T, A>(d: Delta<T, A>): nat
  {
    if |d| == 0 then 0 else (if d[0].Insert? then |d[0].insert| else 0) + InsertedLen(d[1..])
  }

  lemma {:induction false} InsertedLenUnits<T, A>(d: Delta<T, A>)
    ensures InsertedLen(d) == InsCount(ExpandAll(d))
    decreases |d|
  {
    if |d| > 0 {
      ExpandKinds(d[0]);
      InsCountAppend(Expand(d[0]), ExpandAll(d[1..]));
      InsertedLenUnits(d[1..]);
    }
  }

  /** A `usize`-sized delta whose inserts fit in memory fits in `usize` everywhere. */
  lemma {:induction false} FitsByInsertedLen<T, A>(d: Delta<T, A>)
    requires AllSized(d) && InsertedLen(d) <= USIZE_MAX
    ensures AllFit(d)
    decreases |d|
  {
    if |d| > 0 {
      FitsByInsertedLen(d[1..]);
      forall i | 0 <= i < |d| ensures Fits(d[i]) {
        if i > 0 {
          assert d[i] == d[1..][i - 1];
        }
      }
    }
  }
}

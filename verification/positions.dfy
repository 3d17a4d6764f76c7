/**
 * The position transform (`Transform<usize> for &Delta` in
 * `src/transform.rs`): where a cursor at `index` in the document before a
 * delta ends up after it. With `priority`, an insert exactly at the cursor
 * goes after the cursor; without, before it.
 */
module Positions {
  import opened Wrappers
  import opened Ops
  import opened Deltas
  import opened Lists
  import opened Units

  /**
   * Element-level meaning of the position transform: the number of units of
   * the new document placed before a cursor that has `k` elements of the old
   * document before it. Retained elements before the cursor count, deleted
   * ones do not, inserts count when they come before the cursor or sit at
   * it without priority, and past the last unit the document is unchanged.
   */
  function ShiftedIndex<T, A>(u: List<Unit<T, A>>, k: nat, priority: bool): nat
  {
    match u
    case Nil => k
    case Cons(UIns(_, _), t) => (if k > 0 || !priority then 1 else 0) + ShiftedIndex(t, k, priority)
    case Cons(URet(_), t) => if k == 0 then 0 else 1 + ShiftedIndex(t, k - 1, priority)
    case Cons(UDel, t) => ShiftedIndex(t, if k == 0 then 0 else k - 1, priority)
  }

  /** Once the cursor is reached, a priority cursor stays put. */
  lemma {:induction false} ShiftedIndexAtCursor<T, A>(u: List<Unit<T, A>>)
    ensures ShiftedIndex(u, 0, true) == 0
  {
    if u.Cons? {
      ShiftedIndexAtCursor(u.tail);
    }
  }

  /** The units of one op at the front: how the cursor moves over a whole op. */
  lemma {:induction false} ShiftedIndexOp<T, A>(op: Op<T, A>, u: List<Unit<T, A>>, k: nat, priority: bool)
    ensures op.Insert? ==> (ShiftedIndex(Append(Expand(op), u), k, priority) ==
      (if k > 0 || !priority then Len(op) else 0) + ShiftedIndex(u, k, priority))
    ensures op.Retain? ==> (ShiftedIndex(Append(Expand(op), u), k, priority) ==
      (if Len(op) <= k then Len(op) + ShiftedIndex(u, k - Len(op), priority) else k))
    ensures op.Delete? ==> (ShiftedIndex(Append(Expand(op), u), k, priority) ==
      ShiftedIndex(u, k - Min(Len(op), k), priority))
    decreases Len(op)
  {
    if Len(op) > 0 {
      var op' := match op
        case Insert(c, a) => Insert(c[1..], a)
        case Retain(n, a) => Retain(n - 1, a)
        case Delete(n) => Delete(n - 1);
      assert Expand(op') == Expand(op).tail;
      match op
      case Insert(_, _) =>
        ShiftedIndexOp(op', u, k, priority);
      case Retain(_, _) =>
        if k > 0 {
          ShiftedIndexOp(op', u, k - 1, priority);
        }
      case Delete(_) =>
        ShiftedIndexOp(op', u, if k == 0 then 0 else k - 1, priority);
    } else {
      assert Expand(op) == Nil;
    }
  }

  /**
   * What the loop of `TransformIndex` still has to produce: while the
   * cursor has not been passed, the offset plus the shift over the units
   * left; once it has, the index itself.
   */
  function Pending<T, A>(u: List<Unit<T, A>>, index: nat, offset: nat, priority: bool): nat
  {
    if offset <= index then offset + ShiftedIndex(u, index - offset, priority) else index
  }

  /**
   * One iteration of the position transform's loop over the op `op`: an
   * insert before the cursor (or at it, without priority) moves the cursor
   * by its length, a retain only moves the offset, and a delete pulls the
   * cursor back by the part of it that lies before the cursor.
   */
  function IndexStep<T, A>(op: Op<T, A>, index: nat, offset: nat, priority: bool): (r: (nat, nat))
    requires offset <= index
  {
    match op
    case Insert(content, _) =>
      (if offset < index || !priority then index + |content| else index, offset + |content|)
    case Retain(n, _) => (index, offset + n)
    case Delete(n) => (index - Min(n, index - offset), offset)
  }

  /** One iteration of the loop keeps `Pending` unchanged. */
  lemma PendingStep<T, A>(op: Op<T, A>, u: List<Unit<T, A>>, index: nat, offset: nat, priority: bool)
    requires offset <= index
    ensures var (index', offset') := IndexStep(op, index, offset, priority);
      Pending(Append(Expand(op), u), index, offset, priority) == Pending(u, index', offset', priority)
  {
    ShiftedIndexOp(op, u, index - offset, priority);
    if op.Insert? && offset == index && priority && Len(op) > 0 {
      ShiftedIndexAtCursor(u);
    }
  }

  lemma ExpandAllFrom<T, A>(d: seq<Op<T, A>>, i: nat)
    requires i < |d|
    ensures ExpandAll(d[i..]) == Append(Expand(d[i]), ExpandAll(d[i + 1..]))
  {
    assert d[i..][1..] == d[i + 1..];
  }

  /**
   * The position transform with the guard compared against the running
   * index (`offset <= index`, as in Quill's `transformPosition`). The cursor
   * never falls behind the offset, so `index - offset` cannot underflow, and
   * the result is the element-level `ShiftedIndex`.
   */
  method TransformIndex<T, A>(d: Delta<T, A>, rhs: nat, priority: bool) returns (index: nat)
    ensures index == ShiftedIndex(ExpandAll(d), rhs, priority)
  {
    index := rhs;
    var offset: nat := 0;
    var i := 0;
    while i < |d| && offset <= index
      invariant 0 <= i <= |d|
      invariant ShiftedIndex(ExpandAll(d), rhs, priority) == Pending(ExpandAll(d[i..]), index, offset, priority)
      decreases |d| - i
    {
      ExpandAllFrom(d, i);
      PendingStep(d[i], ExpandAll(d[i + 1..]), index, offset, priority);
      index, offset := IndexStep(d[i], index, offset, priority).0, IndexStep(d[i], index, offset, priority).1;
      i := i + 1;
    }
    if i == |d| && offset <= index {
      assert d[i..] == [];
    }
  }

  /**
   * The position transform as the source writes it: the loop stops once
   * `offset` passes the ORIGINAL index `rhs`, not the running `index`. A
   * delete met while `index < offset` makes `index - offset` underflow, and
   * an insert or retain can make `index +=` or `offset +=` overflow `usize`;
   * each panics in a debug build, and that outcome is `None` here. Without
   * deletes, and with `rhs` plus all the lengths within `usize`, it succeeds.
   */
  function TransformIndexAsWritten<T, A>(d: Delta<T, A>, rhs: nat, priority: bool): (r: Option<nat>)
    ensures (forall i :: 0 <= i < |d| ==> !d[i].Delete?) && rhs + TotalLen(d) <= USIZE_MAX ==> r.Some?
  {
    AsWrittenLoop(d, rhs, rhs, 0, priority)
  }

  /** The loop of `TransformIndexAsWritten` from the op `d[0]` on. */
  function AsWrittenLoop<T, A>(d: Delta<T, A>, rhs: nat, index: nat, offset: nat, priority: bool): (r: Option<nat>)
    ensures ((forall i :: 0 <= i < |d| ==> !d[i].Delete?)
      && index + TotalLen(d) <= USIZE_MAX && offset + TotalLen(d) <= USIZE_MAX) ==> r.Some?
    decreases |d|
  {
    if |d| == 0 || offset > rhs then Some(index)
    else
      TotalLenFront(d);
      match d[0]
      case Insert(content, _) =>
        var index' := if offset < index || !priority then index + |content| else index;
        if index' > USIZE_MAX || offset + |content| > USIZE_MAX then None
        else AsWrittenLoop(d[1..], rhs, index', offset + |content|, priority)
      case Retain(n, _) =>
        if offset + n > USIZE_MAX then None
        else AsWrittenLoop(d[1..], rhs, index, offset + n, priority)
      case Delete(n) =>
        if index < offset then None
        else AsWrittenLoop(d[1..], rhs, index - Min(n, index - offset), offset, priority)
  }

  lemma TotalLenFront<T, A>(d: Delta<T, A>)
    requires |d| > 0
    ensures TotalLen(d) == Len(d[0]) + TotalLen(d[1..])
  {
    assert d == [d[0]] + d[1..];
    TotalLenAppend([d[0]], d[1..]);
    assert [d[0]][..0] == [];
  }

  /** `Delta::new().retain(2, ()).insert("A", ())`, the delta of two cursor tests. */
  lemma CursorDeltaBuilt()
    ensures BuildInsert<char, ()>(BuildRetain([], 2, Some(())), "A", Some(())) == [Retain(2, Some(())), Insert("A", Some(()))]
    ensures ExpandAll<char, ()>([Retain(2, Some(())), Insert("A", Some(()))])
      == Append(Expand<char, ()>(Retain(2, Some(()))), Expand<char, ()>(Insert("A", Some(()))))
  {
    var r: Op<char, ()> := Retain(2, Some(()));
    var a: Op<char, ()> := Insert("A", Some(()));
    assert BuildRetain<char, ()>([], 2, Some(())) == [r];
    assert [r][..0] == [];
    assert Push([r], a) == [] + Merge(r, a);
    ExpandAllAppend([r], [a]);
    ExpandAllSingle(r);
    ExpandAllSingle(a);
  }

  /** `test_insert_before_position`: an insert before the cursor shifts it, whatever the priority. */
  lemma InsertBeforePosition(priority: bool)
    ensures var d := BuildInsert<char, ()>([], "A", Some(()));
      ShiftedIndex(ExpandAll(d), 2, priority) == 3 && TransformIndexAsWritten(d, 2, priority) == Some(3)
  {
    var a: Op<char, ()> := Insert("A", Some(()));
    var d := BuildInsert<char, ()>([], "A", Some(()));
    assert d == [a];
    ExpandAllSingle(a);
    AppendNil(Expand(a));
    ShiftedIndexOp(a, Nil, 2, priority);
    assert d[1..] == [];
    assert AsWrittenLoop(d[1..], 2, 3, 1, priority) == Some(3);
  }

  /** `test_insert_after_position`: an insert after the cursor leaves it, whatever the priority. */
  lemma InsertAfterPosition(priority: bool)
    ensures var d := BuildInsert<char, ()>(BuildRetain([], 2, Some(())), "A", Some(()));
      ShiftedIndex(ExpandAll(d), 1, priority) == 1 && TransformIndexAsWritten(d, 1, priority) == Some(1)
  {
    var r: Op<char, ()> := Retain(2, Some(()));
    var a: Op<char, ()> := Insert("A", Some(()));
    var d := [r, a];
    CursorDeltaBuilt();
    ShiftedIndexOp(r, Expand(a), 1, priority);
    assert AsWrittenLoop(d[1..], 1, 1, 2, priority) == Some(1);
  }

  /** `test_insert_at_position`: an insert at the cursor goes after it with priority, before it without. */
  lemma InsertAtPosition(priority: bool)
    ensures var d := BuildInsert<char, ()>(BuildRetain([], 2, Some(())), "A", Some(()));
      var expected := if priority then 2 else 3;
      ShiftedIndex(ExpandAll(d), 2, priority) == expected && TransformIndexAsWritten(d, 2, priority) == Some(expected)
  {
    var r: Op<char, ()> := Retain(2, Some(()));
    var a: Op<char, ()> := Insert("A", Some(()));
    var d := [r, a];
    CursorDeltaBuilt();
    ShiftedIndexOp(r, Expand(a), 2, priority);
    AppendNil(Expand(a));
    ShiftedIndexOp(a, Nil, 0, priority);
    assert d[1..][1..] == [];
    if priority {
      assert AsWrittenLoop(d[1..][1..], 2, 2, 3, true) == Some(2);
      assert AsWrittenLoop(d[1..], 2, 2, 2, true) == Some(2);
    } else {
      assert AsWrittenLoop(d[1..][1..], 2, 3, 3, false) == Some(3);
      assert AsWrittenLoop(d[1..], 2, 2, 2, false) == Some(3);
    }
  }

  /**
   * With the source's guard, a delete reached after the cursor was pulled
   * back behind the offset underflows `index - offset`: deleting 3, keeping
   * 3 and deleting 1 with the cursor at 5 reaches `2 - 3`. The intended
   * answer is 2.
   */
  lemma AsWrittenUnderflows()
    ensures TransformIndexAsWritten<char, ()>([Delete(3), Retain(3, None), Delete(1)], 5, true) == None
    ensures ShiftedIndex<char, ()>(ExpandAll([Delete(3), Retain(3, None), Delete(1)]), 5, true) == 2
  {
    var d: Delta<char, ()> := [Delete(3), Retain(3, None), Delete(1)];
    assert ExpandAll(d) == Append(Expand(d[0]), Append(Expand(d[1]), Expand(d[2]))) by {
      ExpandAllSingle<char, ()>(Delete(1));
      assert d[1..][1..] == [Delete(1)];
    }
    ShiftedIndexOp(d[0], Append(Expand(d[1]), Expand(d[2])), 5, true);
    ShiftedIndexOp(d[1], Expand(d[2]), 2, true);
    assert d[1..][1..] == [Delete(1)];
    assert AsWrittenLoop(d[1..][1..], 5, 2, 3, true) == None;
    assert AsWrittenLoop(d[1..], 5, 2, 0, true) == None;
  }

  /**
   * With the source's guard, the loop stops once the offset passes the
   * original index although the shifted cursor is still ahead: inserting
   * "AB", keeping 1 and inserting "C" with the cursor at 1 and no priority
   * gives 3, while the insert at the cursor should move it to 4.
   */
  lemma AsWrittenStopsEarly()
    ensures TransformIndexAsWritten<char, ()>([Insert("AB", None), Retain(1, None), Insert("C", None)], 1, false) == Some(3)
    ensures ShiftedIndex<char, ()>(ExpandAll([Insert("AB", None), Retain(1, None), Insert("C", None)]), 1, false) == 4
  {
    var d: Delta<char, ()> := [Insert("AB", None), Retain(1, None), Insert("C", None)];
    assert ExpandAll(d) == Cons(UIns('A', None), Cons(UIns('B', None), Cons(URet(None), Cons(UIns('C', None), Nil)))) by {
      ExpandAllSingle<char, ()>(Insert("C", None));
      ExpandAllAppend<char, ()>([Retain(1, None)], [Insert("C", None)]);
      ExpandAllAppend<char, ()>([Insert("AB", None)], [Retain(1, None), Insert("C", None)]);
      ExpandAllSingle<char, ()>(Insert("AB", None));
      ExpandAllSingle<char, ()>(Retain(1, None));
    }
  }

  /**
   * With the source's `usize` arithmetic, retaining 5 and then `usize::MAX`
   * elements overflows `offset += retain.len()` before the cursor at 10 is
   * passed.
   */
  lemma AsWrittenOverflows()
    ensures TransformIndexAsWritten<char, ()>([Retain(5, None), Retain(USIZE_MAX, Some(())), Insert("x", None)], 10, true) == None
  {
    var d: Delta<char, ()> := [Retain(5, None), Retain(USIZE_MAX, Some(())), Insert("x", None)];
    assert AsWrittenLoop(d[1..], 10, 10, 5, true) == None;
  }
}

/**
 * The normal form of a unit list. `Delta::push` moves an insert in front of
 * the deletes just before it, and `Delta::chop` drops trailing retains
 * without attributes. `Normalize` does the same to units: every delete moves
 * past the inserts that follow it, and trailing plain retains disappear.
 * Deltas whose units have the same normal form have the same effect on a
 * document, and the convergence theorem is first proved up to this form.
 */
module Canonical {
  import opened Wrappers
  import opened Lists
  import opened Units

  /** A retain without attributes: what `chop` removes at the end. */
  predicate IsPlainRetain<T, A>(u: Unit<T, A>)
  {
    u.URet? && u.attrs.None?
  }

  predicate AllIns<T, A>(v: List<Unit<T, A>>)
  {
    match v
    case Nil => true
    case Cons(u, t) => u.UIns? && AllIns(t)
  }

  predicate AllDel<T, A>(v: List<Unit<T, A>>)
  {
    match v
    case Nil => true
    case Cons(u, t) => u.UDel? && AllDel(t)
  }

  /** No unit inserts. */
  predicate NoIns<T, A>(v: List<Unit<T, A>>)
  {
    match v
    case Nil => true
    case Cons(u, t) => !u.UIns? && NoIns(t)
  }

  /** The last unit deletes. */
  predicate EndsInDel<T, A>(v: List<Unit<T, A>>)
  {
    match v
    case Nil => false
    case Cons(u, t) => if t.Nil? then u.UDel? else EndsInDel(t)
  }

  /** A delete placed after the inserts at the front of `v`. */
  function DeleteAfterInserts<T, A>(v: List<Unit<T, A>>): List<Unit<T, A>>
  {
    match v
    case Nil => Cons(UDel, Nil)
    case Cons(u, t) => if u.UIns? then Cons(u, DeleteAfterInserts(t)) else Cons(UDel, v)
  }

  /** An insert placed before the deletes at the end of `v`. */
  function InsertBeforeDeletes<T, A>(v: List<Unit<T, A>>, x: Unit<T, A>): List<Unit<T, A>>
  {
    match v
    case Nil => Cons(x, Nil)
    case Cons(u, t) => if AllDel(v) then Cons(x, v) else Cons(u, InsertBeforeDeletes(t, x))
  }

  /** Prepending a unit, keeping every insert in front of the deletes around it. */
  function ReorderCons<T, A>(x: Unit<T, A>, v: List<Unit<T, A>>): List<Unit<T, A>>
  {
    if x.UDel? then DeleteAfterInserts(v) else Cons(x, v)
  }

  /** Appending a unit the way `push` does: an insert goes before the trailing deletes. */
  function ReorderSnoc<T, A>(v: List<Unit<T, A>>, x: Unit<T, A>): List<Unit<T, A>>
  {
    if x.UIns? then InsertBeforeDeletes(v, x) else Append(v, Cons(x, Nil))
  }

  /** `ReorderSnoc` of every unit of `xs` in turn. */
  function ReorderSnocAll<T, A>(v: List<Unit<T, A>>, xs: List<Unit<T, A>>): List<Unit<T, A>>
    decreases xs
  {
    match xs
    case Nil => v
    case Cons(x, t) => ReorderSnocAll(ReorderSnoc(v, x), t)
  }

  /** Every delete moved past the inserts that follow it. */
  function Reorder<T, A>(w: List<Unit<T, A>>): List<Unit<T, A>>
  {
    match w
    case Nil => Nil
    case Cons(x, t) => ReorderCons(x, Reorder(t))
  }

  /** Trailing plain retains removed: the unit-level `chop`. */
  function Strip<T, A>(v: List<Unit<T, A>>): List<Unit<T, A>>
  {
    match v
    case Nil => Nil
    case Cons(u, t) => if IsPlainRetain(u) && Strip(t).Nil? then Nil else Cons(u, Strip(t))
  }

  /** Prepending a unit to a normal list and normalising again. */
  function NormalCons<T, A>(x: Unit<T, A>, v: List<Unit<T, A>>): List<Unit<T, A>>
  {
    if x.UDel? then DeleteAfterInserts(v)
    else if IsPlainRetain(x) && v.Nil? then Nil
    else Cons(x, v)
  }

  /** The normal form: deletes after the inserts that follow them, no trailing plain retain. */
  function Normalize<T, A>(w: List<Unit<T, A>>): List<Unit<T, A>>
  {
    match w
    case Nil => Nil
    case Cons(x, t) => NormalCons(x, Normalize(t))
  }

  /** Inserts alone are already in normal form. */
  lemma {:induction false} NormalizeInserts<T, A>(w: List<Unit<T, A>>)
    requires AllIns(w)
    ensures Normalize(w) == w
  {
    if w.Cons? {
      NormalizeInserts(w.tail);
    }
  }

  /** The run of inserts at the front. */
  function TakeIns<T, A>(v: List<Unit<T, A>>): List<Unit<T, A>>
  {
    match v
    case Nil => Nil
    case Cons(u, t) => if u.UIns? then Cons(u, TakeIns(t)) else Nil
  }

  /** What follows the run of inserts at the front. */
  function DropIns<T, A>(v: List<Unit<T, A>>): List<Unit<T, A>>
  {
    match v
    case Nil => Nil
    case Cons(u, t) => if u.UIns? then DropIns(t) else v
  }

  /** A list is its leading inserts followed by the rest, and the delete goes between them. */
  lemma {:induction false} TakeDropIns<T, A>(v: List<Unit<T, A>>)
    ensures AllIns(TakeIns(v)) && v == Append(TakeIns(v), DropIns(v))
    ensures DeleteAfterInserts(v) == Append(TakeIns(v), Cons(UDel, DropIns(v)))
  {
    match v
    case Nil =>
    case Cons(u, t) => TakeDropIns(t);
  }

  /** Lists with the same normal form keep it under a common prefix. */
  lemma {:induction false} NormalizeCongruence<T, A>(p: List<Unit<T, A>>, a: List<Unit<T, A>>, b: List<Unit<T, A>>)
    requires Normalize(a) == Normalize(b)
    ensures Normalize(Append(p, a)) == Normalize(Append(p, b))
  {
    match p
    case Nil =>
    case Cons(_, t) => NormalizeCongruence(t, a, b);
  }

  /** A delete and the insert right after it may trade places. */
  lemma NormalizeSwap<T, A>(y: Unit<T, A>, w: List<Unit<T, A>>)
    requires y.UIns?
    ensures Normalize(Cons(UDel, Cons(y, w))) == Normalize(Cons(y, Cons(UDel, w)))
  {
  }

  /** A delete may move past any run of inserts after it. */
  lemma {:induction false} NormalizeDeletePastInserts<T, A>(ins: List<Unit<T, A>>, w: List<Unit<T, A>>)
    requires AllIns(ins)
    ensures Normalize(Cons(UDel, Append(ins, w))) == Normalize(Append(ins, Cons(UDel, w)))
  {
    match ins
    case Nil =>
    case Cons(y, t) =>
      NormalizeDeletePastInserts(t, w);
      NormalizeSwap(y, Append(t, w));
  }

  /** A normal list starts with its inserts, after which no insert follows directly. */
  lemma {:induction false} NormalizeFixDelete<T, A>(v: List<Unit<T, A>>)
    requires Normalize(v) == v
    ensures Normalize(DeleteAfterInserts(v)) == DeleteAfterInserts(v)
  {
    match v
    case Nil =>
    case Cons(u, t) =>
      if u.UIns? {
        assert Normalize(t) == t;
        NormalizeFixDelete(t);
      }
  }

  lemma NormalizeFixCons<T, A>(x: Unit<T, A>, v: List<Unit<T, A>>)
    requires Normalize(v) == v
    ensures Normalize(NormalCons(x, v)) == NormalCons(x, v)
  {
    if x.UDel? {
      NormalizeFixDelete(v);
    }
  }

  /** Normalising twice is normalising once. */
  lemma {:induction false} NormalizeIdempotent<T, A>(w: List<Unit<T, A>>)
    ensures Normalize(Normalize(w)) == Normalize(w)
  {
    match w
    case Nil =>
    case Cons(x, t) =>
      NormalizeIdempotent(t);
      NormalizeFixCons(x, Normalize(t));
  }

  /** Moving a delete past the inserts that follow it keeps the number of inserts. */
  lemma {:induction false} DeleteAfterInsertsInsCount<T, A>(v: List<Unit<T, A>>)
    ensures InsCount(DeleteAfterInserts(v)) == InsCount(v)
  {
    match v
    case Nil =>
    case Cons(u, t) => DeleteAfterInsertsInsCount(t);
  }

  /** Normalising neither adds nor removes inserted elements. */
  lemma {:induction false} NormalizeInsCount<T, A>(w: List<Unit<T, A>>)
    ensures InsCount(Normalize(w)) == InsCount(w)
  {
    match w
    case Nil =>
    case Cons(x, t) =>
      NormalizeInsCount(t);
      if x.UDel? {
        DeleteAfterInsertsInsCount(Normalize(t));
      }
  }

  lemma {:induction false} StripDeleteAfterInserts<T, A>(v: List<Unit<T, A>>)
    ensures Strip(DeleteAfterInserts(v)) == DeleteAfterInserts(Strip(v))
  {
    match v
    case Nil =>
    case Cons(u, t) =>
      if u.UIns? {
        StripDeleteAfterInserts(t);
      }
  }

  /** Prepending a unit commutes with stripping, as `NormalCons` describes. */
  lemma StripReorderCons<T, A>(x: Unit<T, A>, v: List<Unit<T, A>>)
    ensures Strip(ReorderCons(x, v)) == NormalCons(x, Strip(v))
  {
    if x.UDel? {
      StripDeleteAfterInserts(v);
    }
  }

  /** The normal form is the reordered list with trailing plain retains stripped. */
  lemma {:induction false} StripReorder<T, A>(w: List<Unit<T, A>>)
    ensures Strip(Reorder(w)) == Normalize(w)
  {
    match w
    case Nil =>
    case Cons(x, t) =>
      StripReorder(t);
      StripReorderCons(x, Reorder(t));
  }

  lemma {:induction false} InsertBeforeDeletesCommutes<T, A>(v: List<Unit<T, A>>, x: Unit<T, A>)
    requires x.UIns?
    ensures DeleteAfterInserts(InsertBeforeDeletes(v, x)) == InsertBeforeDeletes(DeleteAfterInserts(v), x)
  {
    match v
    case Nil =>
    case Cons(u, t) =>
      if u.UIns? {
        InsertBeforeDeletesCommutes(t, x);
      }
  }

  lemma {:induction false} DeleteAfterInsertsSnoc<T, A>(v: List<Unit<T, A>>, x: Unit<T, A>)
    requires !x.UIns?
    ensures DeleteAfterInserts(Append(v, Cons(x, Nil))) == Append(DeleteAfterInserts(v), Cons(x, Nil))
  {
    match v
    case Nil =>
    case Cons(u, t) =>
      if u.UIns? {
        DeleteAfterInsertsSnoc(t, x);
      }
  }

  /** Prepending and appending a unit commute. */
  lemma ReorderSnocCommutes<T, A>(y: Unit<T, A>, v: List<Unit<T, A>>, x: Unit<T, A>)
    ensures ReorderCons(y, ReorderSnoc(v, x)) == ReorderSnoc(ReorderCons(y, v), x)
  {
    if y.UDel? && x.UIns? {
      InsertBeforeDeletesCommutes(v, x);
    } else if y.UDel? {
      DeleteAfterInsertsSnoc(v, x);
    }
  }

  /** Reordering a longer list is appending its last unit the way `push` does. */
  lemma {:induction false} ReorderAppendUnit<T, A>(w: List<Unit<T, A>>, x: Unit<T, A>)
    ensures Reorder(Append(w, Cons(x, Nil))) == ReorderSnoc(Reorder(w), x)
  {
    match w
    case Nil =>
    case Cons(y, t) =>
      ReorderAppendUnit(t, x);
      ReorderSnocCommutes(y, Reorder(t), x);
  }

  /** Reordering is the left fold of `ReorderSnoc`. */
  lemma {:induction false} ReorderAppend<T, A>(w: List<Unit<T, A>>, xs: List<Unit<T, A>>)
    ensures Reorder(Append(w, xs)) == ReorderSnocAll(Reorder(w), xs)
    decreases xs
  {
    match xs
    case Nil =>
      AppendNil(w);
    case Cons(x, t) =>
      ReorderAppendUnit(w, x);
      ReorderAppend(Append(w, Cons(x, Nil)), t);
      AppendAssoc(w, Cons(x, Nil), t);
  }

  /** Reordering a list is appending its units one by one to nothing. */
  lemma ReorderFromNil<T, A>(w: List<Unit<T, A>>)
    ensures Reorder(w) == ReorderSnocAll(Nil, w)
  {
    ReorderAppend(Nil, w);
  }

  lemma {:induction false} ReorderSnocAllAppend<T, A>(v: List<Unit<T, A>>, a: List<Unit<T, A>>, b: List<Unit<T, A>>)
    ensures ReorderSnocAll(v, Append(a, b)) == ReorderSnocAll(ReorderSnocAll(v, a), b)
    decreases a
  {
    match a
    case Nil =>
    case Cons(x, t) => ReorderSnocAllAppend(ReorderSnoc(v, x), t, b);
  }

  /** Appending units that insert nothing is plain concatenation. */
  lemma {:induction false} ReorderSnocAllNoInserts<T, A>(v: List<Unit<T, A>>, xs: List<Unit<T, A>>)
    requires NoIns(xs)
    ensures ReorderSnocAll(v, xs) == Append(v, xs)
    decreases xs
  {
    match xs
    case Nil =>
      AppendNil(v);
    case Cons(x, t) =>
      ReorderSnocAllNoInserts(Append(v, Cons(x, Nil)), t);
      AppendAssoc(v, Cons(x, Nil), t);
  }

  lemma {:induction false} InsertBeforeDeletesNoDelete<T, A>(v: List<Unit<T, A>>, x: Unit<T, A>)
    requires !EndsInDel(v)
    ensures InsertBeforeDeletes(v, x) == Append(v, Cons(x, Nil))
  {
    match v
    case Nil =>
    case Cons(u, t) =>
      if t.Cons? {
        InsertBeforeDeletesNoDelete(t, x);
      }
  }

  lemma {:induction false} EndsInDelAppend<T, A>(a: List<Unit<T, A>>, b: List<Unit<T, A>>)
    ensures EndsInDel(Append(a, b)) == if b.Nil? then EndsInDel(a) else EndsInDel(b)
  {
    match a
    case Nil =>
    case Cons(u, t) =>
      EndsInDelAppend(t, b);
      if b.Nil? {
        AppendNil(t);
      }
  }

  /** Appending inserts after a list that does not end in a delete is plain concatenation. */
  lemma {:induction false} ReorderSnocAllInserts<T, A>(v: List<Unit<T, A>>, xs: List<Unit<T, A>>)
    requires AllIns(xs) && !EndsInDel(v)
    ensures ReorderSnocAll(v, xs) == Append(v, xs)
    decreases xs
  {
    match xs
    case Nil =>
      AppendNil(v);
    case Cons(x, t) =>
      InsertBeforeDeletesNoDelete(v, x);
      EndsInDelAppend(v, Cons(x, Nil));
      ReorderSnocAllInserts(Append(v, Cons(x, Nil)), t);
      AppendAssoc(v, Cons(x, Nil), t);
  }

  lemma {:induction false} AllDelAppend<T, A>(a: List<Unit<T, A>>, b: List<Unit<T, A>>)
    requires AllDel(b)
    ensures AllDel(Append(a, b)) == AllDel(a)
  {
    match a
    case Nil =>
    case Cons(_, t) => AllDelAppend(t, b);
  }

  lemma {:induction false} InsertBeforeDeletesPastDeletes<T, A>(v: List<Unit<T, A>>, dels: List<Unit<T, A>>, x: Unit<T, A>)
    requires AllDel(dels)
    ensures InsertBeforeDeletes(Append(v, dels), x) == Append(InsertBeforeDeletes(v, x), dels)
  {
    AllDelAppend(v, dels);
    match v
    case Nil =>
    case Cons(u, t) =>
      if !AllDel(v) {
        InsertBeforeDeletesPastDeletes(t, dels, x);
      }
  }

  /** Inserts appended after some trailing deletes go before them, as if the deletes came last. */
  lemma {:induction false} ReorderSnocAllPastDeletes<T, A>(v: List<Unit<T, A>>, dels: List<Unit<T, A>>, xs: List<Unit<T, A>>)
    requires AllDel(dels) && AllIns(xs)
    ensures ReorderSnocAll(Append(v, dels), xs) == Append(ReorderSnocAll(v, xs), dels)
    decreases xs
  {
    match xs
    case Nil =>
    case Cons(x, t) =>
      InsertBeforeDeletesPastDeletes(v, dels, x);
      ReorderSnocAllPastDeletes(InsertBeforeDeletes(v, x), dels, t);
  }
}

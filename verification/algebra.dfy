/**
 * Composition and transformation one element at a time. `ComposeUnits`
 * and `TransformUnits` follow the op-pair rules of `src/compose.rs` and
 * `src/transform.rs` with every op cut down to a single element, and with the
 * same treatment of a side that runs out first. Their algebra is proved
 * here: composition is associative, it respects the normal form of either
 * argument, and with last-write-wins attributes transformation satisfies the
 * convergence property TP1 up to the normal form.
 */
module Algebra {
  import opened Wrappers
  import opened Lists
  import opened Units
  import opened Canonical
  import opened Composition

  /** An optional unit in front of a list. */
  function Prepend<T, A>(o: Option<Unit<T, A>>, v: List<Unit<T, A>>): List<Unit<T, A>>
  {
    if o.Some? then Cons(o.value, v) else v
  }

  /**
   * One element of `ComposeOp` for an element the left side inserts or
   * retains and the right side retains or deletes: a retained insert keeps
   * its element with composed attributes, a deleted insert vanishes, a
   * retained retain composes attributes, and a deleted retain is a delete.
   */
  function ComposeElem<T, A>(combine: (A, A) -> A, x: Unit<T, A>, y: Unit<T, A>): Option<Unit<T, A>>
  {
    match (x, y)
    case (UIns(e, a), URet(b)) => Some(UIns(e, ComposeOption(combine, a, b)))
    case (URet(a), URet(b)) => Some(URet(ComposeOption(combine, a, b)))
    case (URet(_), UDel) => Some(UDel)
    case _ => None
  }

  /**
   * `compose` on units. An insert on the right comes first; once the right
   * side is used up the rest of the left is kept, and once the left side is
   * used up the rest of the right is kept; a delete on the left is emitted
   * before the right side is consulted; otherwise one element of each side
   * is combined by `ComposeElem`.
   */
  function ComposeUnits<T, A>(combine: (A, A) -> A, X: List<Unit<T, A>>, Y: List<Unit<T, A>>): List<Unit<T, A>>
    decreases X, Y
  {
    match Y
    case Nil => X
    case Cons(y, Y') =>
      if y.UIns? then Cons(y, ComposeUnits(combine, X, Y'))
      else match X
        case Nil => Y
        case Cons(x, X') =>
          if x.UDel? then Cons(UDel, ComposeUnits(combine, X', Y))
          else Prepend(ComposeElem(combine, x, y), ComposeUnits(combine, X', Y'))
  }

  /**
   * One element of `TransformOp` when neither side inserts: two retains
   * keep a retain whose attributes prefer the side with priority, a delete
   * on the right over a retain stays, and an element the left side deleted
   * is gone.
   */
  function TransformElem<T, A>(x: Unit<T, A>, y: Unit<T, A>, priority: bool): Option<Unit<T, A>>
  {
    match (x, y)
    case (URet(a), URet(b)) => Some(URet(if priority then a.Or(b) else b.Or(a)))
    case (URet(_), UDel) => Some(UDel)
    case _ => None
  }

  /**
   * `transform` on units: `Y` rebased over `X`. An insert on the left
   * becomes a plain retain unless both sides insert and the left lacks
   * priority; an insert on the right is kept; otherwise one element of each
   * side is rebased by `TransformElem`. What is left of `Y` once `X` is used
   * up is kept, and what is left of `X` is dropped.
   */
  function TransformUnits<T, A>(X: List<Unit<T, A>>, Y: List<Unit<T, A>>, priority: bool): List<Unit<T, A>>
    decreases X, Y
  {
    match Y
    case Nil => Nil
    case Cons(y, Y') =>
      match X
      case Nil => Y
      case Cons(x, X') =>
        if x.UIns? && (priority || !y.UIns?) then Cons(URet(None), TransformUnits(X', Y, priority))
        else if y.UIns? then Cons(y, TransformUnits(X, Y', priority))
        else Prepend(TransformElem(x, y, priority), TransformUnits(X', Y', priority))
  }

  /** Composing after nothing gives the right side. */
  lemma {:induction false} ComposeNilLeft<T, A>(combine: (A, A) -> A, Y: List<Unit<T, A>>)
    ensures ComposeUnits(combine, Nil, Y) == Y
  {
    match Y
    case Nil =>
    case Cons(y, Y') =>
      if y.UIns? {
        ComposeNilLeft(combine, Y');
      }
  }

  /** Inserts at the front of the right side come out first, untouched. */
  lemma {:induction false} ComposeInsertsFirst<T, A>(combine: (A, A) -> A, X: List<Unit<T, A>>, ins: List<Unit<T, A>>, Z: List<Unit<T, A>>)
    requires AllIns(ins)
    ensures ComposeUnits(combine, X, Append(ins, Z)) == Append(ins, ComposeUnits(combine, X, Z))
  {
    match ins
    case Nil =>
    case Cons(_, t) => ComposeInsertsFirst(combine, X, t, Z);
  }

  /** Deletes at the front of the left side come out first when the right side does not start with an insert. */
  lemma {:induction false} ComposeDeletesFirst<T, A>(combine: (A, A) -> A, dels: List<Unit<T, A>>, X: List<Unit<T, A>>, Y: List<Unit<T, A>>)
    requires AllDel(dels) && (Y.Nil? || !Y.head.UIns?)
    ensures ComposeUnits(combine, Append(dels, X), Y) == Append(dels, ComposeUnits(combine, X, Y))
  {
    match dels
    case Nil =>
    case Cons(_, t) => ComposeDeletesFirst(combine, t, X, Y);
  }

  /** Composition of units is associative when the attribute composition is. */
  lemma {:induction false} ComposeAssociative<T, A>(combine: (A, A) -> A, X: List<Unit<T, A>>, Y: List<Unit<T, A>>, Z: List<Unit<T, A>>)
    requires forall a, b, c :: combine(combine(a, b), c) == combine(a, combine(b, c))
    ensures ComposeUnits(combine, ComposeUnits(combine, X, Y), Z) == ComposeUnits(combine, X, ComposeUnits(combine, Y, Z))
    decreases Z, Y, X
  {
    match Z
    case Nil =>
    case Cons(z, Z') =>
      if z.UIns? {
        ComposeAssociative(combine, X, Y, Z');
      } else {
        match Y
        case Nil =>
          ComposeNilLeft(combine, Z);
        case Cons(y, Y') =>
          if y.UIns? {
            ComposeAssociative(combine, X, Y', Z');
          } else {
            match X
            case Nil =>
              ComposeNilLeft(combine, Y);
              ComposeNilLeft(combine, ComposeUnits(combine, Y, Z));
            case Cons(x, X') =>
              if x.UDel? {
                ComposeAssociative(combine, X', Y, Z);
              } else if y.UDel? {
                ComposeAssociative(combine, X', Y', Z);
              } else {
                ComposeAssociative(combine, X', Y', Z');
                if z.URet? {
                  ComposeOptionAssociative(combine, x.attrs, y.attrs, z.attrs);
                }
              }
          }
      }
  }

  /**
   * A delete on the left side may be moved to the front of the result,
   * past the inserts before it: up to the normal form, composing with it is
   * deleting first.
   */
  lemma {:induction false} DeleteShiftLeft<T, A>(combine: (A, A) -> A, P: List<Unit<T, A>>, Q: List<Unit<T, A>>, Z: List<Unit<T, A>>)
    requires AllIns(P)
    ensures Normalize(ComposeUnits(combine, Append(P, Cons(UDel, Q)), Z))
         == Normalize(Cons(UDel, ComposeUnits(combine, Append(P, Q), Z)))
    decreases Z
  {
    var W := Append(P, Cons(UDel, Q));
    var PQ := Append(P, Q);
    match Z
    case Nil =>
      NormalizeDeletePastInserts(P, Q);
    case Cons(z, Z') =>
      if z.UIns? {
        DeleteShiftLeft(combine, P, Q, Z');
        NormalizeSwap(z, ComposeUnits(combine, PQ, Z'));
      } else if P.Cons? {
        DeleteShiftLeft(combine, P.tail, Q, Z');
        if z.URet? {
          var h := UIns(P.head.elem, ComposeOption(combine, P.head.attrs, z.attrs));
          NormalizeSwap(h, ComposeUnits(combine, Append(P.tail, Q), Z'));
        }
      }
  }

  /** The mirror image of `DeleteShiftLeft` on the right side. */
  lemma {:induction false} DeleteShiftRight<T, A>(combine: (A, A) -> A, X: List<Unit<T, A>>, I: List<Unit<T, A>>, W: List<Unit<T, A>>)
    requires AllIns(I)
    ensures Normalize(ComposeUnits(combine, X, Cons(UDel, Append(I, W))))
         == Normalize(Append(I, ComposeUnits(combine, X, Cons(UDel, W))))
    decreases X
  {
    match X
    case Nil =>
      NormalizeDeletePastInserts(I, W);
    case Cons(x, X') =>
      if x.UDel? {
        DeleteShiftRight(combine, X', I, W);
        NormalizeDeletePastInserts(I, ComposeUnits(combine, X', Cons(UDel, W)));
      } else if x.UIns? {
        ComposeInsertsFirst(combine, X', I, W);
      } else {
        ComposeInsertsFirst(combine, X', I, W);
        NormalizeDeletePastInserts(I, ComposeUnits(combine, X', W));
      }
  }

  /** Retaining one more element without attributes at the end changes nothing. */
  lemma {:induction false} ComposePlainRetainRight<T, A>(combine: (A, A) -> A, X: List<Unit<T, A>>)
    ensures Normalize(ComposeUnits(combine, X, Cons(URet(None), Nil))) == Normalize(X)
  {
    match X
    case Nil =>
    case Cons(x, X') =>
      if x.UDel? {
        ComposePlainRetainRight(combine, X');
      }
  }

  /** Composing after a single plain retain changes nothing. */
  lemma {:induction false} ComposePlainRetainLeft<T, A>(combine: (A, A) -> A, Y: List<Unit<T, A>>)
    ensures Normalize(ComposeUnits(combine, Cons(URet(None), Nil), Y)) == Normalize(Y)
  {
    match Y
    case Nil =>
    case Cons(y, Y') =>
      if y.UIns? {
        ComposePlainRetainLeft(combine, Y');
      } else {
        ComposeNilLeft(combine, Y');
      }
  }

  /** Plain retains alone normalise to nothing: `chop` removes them all. */
  lemma {:induction false} NormalizePlainRetains<T, A>(n: nat)
    ensures Normalize(Repeat(n, Unit<T, A>.URet(None))) == Nil
  {
    if n > 0 {
      NormalizePlainRetains<T, A>(n - 1);
    }
  }

  /**
   * Composing with any number of plain retains changes nothing up to the
   * normal form: retained elements keep their attributes, and retains past
   * the end of the left side are trimmed.
   */
  lemma {:induction false} ComposePlainRetainsRight<T, A>(combine: (A, A) -> A, X: List<Unit<T, A>>, n: nat)
    ensures Normalize(ComposeUnits(combine, X, Repeat(n, URet(None)))) == Normalize(X)
    decreases X, n
  {
    match X
    case Nil =>
      ComposeNilLeft(combine, Repeat(n, Unit<T, A>.URet(None)));
      NormalizePlainRetains<T, A>(n);
    case Cons(x, X') =>
      if n > 0 {
        if x.UDel? {
          ComposePlainRetainsRight(combine, X', n);
        } else {
          ComposePlainRetainsRight(combine, X', n - 1);
        }
      }
  }

  /** Composition only sees the normal form of its right side. */
  lemma {:induction false} ComposeNormalRight<T, A>(combine: (A, A) -> A, X: List<Unit<T, A>>, Y: List<Unit<T, A>>)
    ensures Normalize(ComposeUnits(combine, X, Y)) == Normalize(ComposeUnits(combine, X, Normalize(Y)))
    decreases Length(X) + Length(Y), 1
  {
    match Y
    case Nil =>
    case Cons(y, Y') =>
      ComposeNormalTailRight(combine, X, y, Y');
      ComposeNormalConsRight(combine, X, y, Normalize(Y'));
  }

  lemma {:induction false} ComposeNormalTailRight<T, A>(combine: (A, A) -> A, X: List<Unit<T, A>>, y: Unit<T, A>, Y': List<Unit<T, A>>)
    ensures Normalize(ComposeUnits(combine, X, Cons(y, Y'))) == Normalize(ComposeUnits(combine, X, Cons(y, Normalize(Y'))))
    decreases Length(X) + Length(Y') + 1, 0
  {
    if y.UIns? {
      ComposeNormalRight(combine, X, Y');
    } else {
      match X
      case Nil =>
        NormalizeIdempotent(Y');
      case Cons(x, X') =>
        if x.UDel? {
          ComposeNormalTailRight(combine, X', y, Y');
        } else {
          ComposeNormalRight(combine, X', Y');
        }
    }
  }

  lemma ComposeNormalConsRight<T, A>(combine: (A, A) -> A, X: List<Unit<T, A>>, y: Unit<T, A>, V: List<Unit<T, A>>)
    ensures Normalize(ComposeUnits(combine, X, Cons(y, V))) == Normalize(ComposeUnits(combine, X, NormalCons(y, V)))
  {
    if y.UDel? {
      TakeDropIns(V);
      DeleteShiftRight(combine, X, TakeIns(V), DropIns(V));
      ComposeInsertsFirst(combine, X, TakeIns(V), Cons(UDel, DropIns(V)));
    } else if IsPlainRetain(y) && V.Nil? {
      ComposePlainRetainRight(combine, X);
    }
  }

  /** Composition only sees the normal form of its left side. */
  lemma {:induction false} ComposeNormalLeft<T, A>(combine: (A, A) -> A, X: List<Unit<T, A>>, Y: List<Unit<T, A>>)
    ensures Normalize(ComposeUnits(combine, X, Y)) == Normalize(ComposeUnits(combine, Normalize(X), Y))
    decreases Length(X) + Length(Y), 1
  {
    match X
    case Nil =>
    case Cons(x, X') =>
      ComposeNormalTailLeft(combine, x, X', Y);
      ComposeNormalConsLeft(combine, x, Normalize(X'), Y);
  }

  lemma {:induction false} ComposeNormalTailLeft<T, A>(combine: (A, A) -> A, x: Unit<T, A>, X': List<Unit<T, A>>, Y: List<Unit<T, A>>)
    ensures Normalize(ComposeUnits(combine, Cons(x, X'), Y)) == Normalize(ComposeUnits(combine, Cons(x, Normalize(X')), Y))
    decreases Length(X') + 1 + Length(Y), 0
  {
    match Y
    case Nil =>
      NormalizeIdempotent(X');
    case Cons(y, Y') =>
      if y.UIns? {
        ComposeNormalTailLeft(combine, x, X', Y');
      } else if x.UDel? {
        ComposeNormalLeft(combine, X', Y);
      } else {
        ComposeNormalLeft(combine, X', Y');
      }
  }

  lemma ComposeNormalConsLeft<T, A>(combine: (A, A) -> A, x: Unit<T, A>, V: List<Unit<T, A>>, Y: List<Unit<T, A>>)
    ensures Normalize(ComposeUnits(combine, Cons(x, V), Y)) == Normalize(ComposeUnits(combine, NormalCons(x, V), Y))
  {
    if x.UDel? {
      TakeDropIns(V);
      DeleteShiftLeft(combine, Nil, V, Y);
      DeleteShiftLeft(combine, TakeIns(V), DropIns(V), Y);
    } else if IsPlainRetain(x) && V.Nil? {
      ComposePlainRetainLeft(combine, Y);
      ComposeNilLeft(combine, Y);
    }
  }

  /** Up to the normal form, composition only sees the normal forms of both sides. */
  lemma ComposeNormal<T, A>(combine: (A, A) -> A, X: List<Unit<T, A>>, Y: List<Unit<T, A>>)
    ensures Normalize(ComposeUnits(combine, Normalize(X), Normalize(Y))) == Normalize(ComposeUnits(combine, X, Y))
  {
    ComposeNormalLeft(combine, X, Normalize(Y));
    ComposeNormalRight(combine, X, Y);
  }

  /** With last-write-wins attributes, the later present attribute wins. */
  ghost predicate LaterWins<A(!new)>(combine: (A, A) -> A)
  {
    forall a, b :: combine(a, b) == b
  }

  /**
   * TP1 up to the normal form: composing `X` with `Y` rebased over `X`
   * (with priority) has the effect of composing `Y` with `X` rebased over
   * `Y` (without priority).
   */
  lemma {:induction false} TransformConverges<T, A(!new)>(combine: (A, A) -> A, X: List<Unit<T, A>>, Y: List<Unit<T, A>>)
    requires LaterWins(combine)
    ensures Normalize(ComposeUnits(combine, X, TransformUnits(X, Y, true)))
         == Normalize(ComposeUnits(combine, Y, TransformUnits(Y, X, false)))
    decreases X, Y
  {
    match (X, Y)
    case (Nil, _) =>
      ComposeNilLeft(combine, Y);
    case (_, Nil) =>
      ComposeNilLeft(combine, X);
    case (Cons(x, X'), Cons(y, Y')) =>
      if x.UIns? {
        TransformConverges(combine, X', Y);
      } else if y.UIns? {
        TransformConverges(combine, X, Y');
      } else {
        TransformConverges(combine, X', Y');
        if x.UDel? {
          DeleteShiftLeft(combine, Nil, X', TransformUnits(X, Y, true));
        }
        if y.UDel? {
          DeleteShiftLeft(combine, Nil, Y', TransformUnits(Y, X, false));
        }
      }
  }

  /** Composition never creates inserted elements. */
  lemma {:induction false} ComposeInsCount<T, A>(combine: (A, A) -> A, X: List<Unit<T, A>>, Y: List<Unit<T, A>>)
    ensures InsCount(ComposeUnits(combine, X, Y)) <= InsCount(X) + InsCount(Y)
    decreases X, Y
  {
    match Y
    case Nil =>
    case Cons(y, Y') =>
      if y.UIns? {
        ComposeInsCount(combine, X, Y');
      } else {
        match X
        case Nil =>
        case Cons(x, X') =>
          if x.UDel? {
            ComposeInsCount(combine, X', Y);
          } else {
            ComposeInsCount(combine, X', Y');
          }
      }
  }

  /** A rebased delta inserts no more than the original. */
  lemma {:induction false} TransformInsCount<T, A>(X: List<Unit<T, A>>, Y: List<Unit<T, A>>, priority: bool)
    ensures InsCount(TransformUnits(X, Y, priority)) <= InsCount(Y)
    decreases X, Y
  {
    match Y
    case Nil =>
    case Cons(y, Y') =>
      match X
      case Nil =>
      case Cons(x, X') =>
        if x.UIns? && (priority || !y.UIns?) {
          TransformInsCount(X', Y, priority);
        } else if y.UIns? {
          TransformInsCount(X, Y', priority);
        } else {
          TransformInsCount(X', Y', priority);
        }
  }
}

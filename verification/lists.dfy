/**
 * Cons lists. The element-level semantics works on these rather than on
 * `seq`, so that its proofs are plain structural inductions.
 */
module Lists {
  datatype List<X> = Nil | Cons(head: X, tail: List<X>)

  function Length<X>(l: List<X>): nat
  {
    match l
    case Nil => 0
    case Cons(_, t) => 1 + Length(t)
  }

  function Append<X>(a: List<X>, b: List<X>): List<X>
  {
    match a
    case Nil => b
    case Cons(x, t) => Cons(x, Append(t, b))
  }

  /** `n` copies of `x`. */
  function Repeat<X>(n: nat, x: X): List<X>
  {
    if n == 0 then Nil else Cons(x, Repeat(n - 1, x))
  }

  lemma {:induction false} AppendNil<X>(a: List<X>)
    ensures Append(a, Nil) == a
  {
    match a
    case Nil =>
    case Cons(_, t) => AppendNil(t);
  }

  lemma {:induction false} AppendAssoc<X>(a: List<X>, b: List<X>, c: List<X>)
    ensures Append(Append(a, b), c) == Append(a, Append(b, c))
  {
    match a
    case Nil =>
    case Cons(_, t) => AppendAssoc(t, b, c);
  }

  lemma {:induction false} LengthAppend<X>(a: List<X>, b: List<X>)
    ensures Length(Append(a, b)) == Length(a) + Length(b)
  {
    match a
    case Nil =>
    case Cons(_, t) => LengthAppend(t, b);
  }

  lemma {:induction false} LengthRepeat<X>(n: nat, x: X)
    ensures Length(Repeat(n, x)) == n
  {
    if n > 0 {
      LengthRepeat(n - 1, x);
    }
  }

  lemma {:induction false} RepeatAdd<X>(m: nat, n: nat, x: X)
    ensures Repeat(m + n, x) == Append(Repeat(m, x), Repeat(n, x))
  {
    if m > 0 {
      RepeatAdd(m - 1, n, x);
    }
  }

  /** Two splittings of one list with equally long first parts are the same splitting. */
  lemma {:induction false} AppendCancel<X>(a1: List<X>, b1: List<X>, a2: List<X>, b2: List<X>)
    requires Length(a1) == Length(a2) && Append(a1, b1) == Append(a2, b2)
    ensures a1 == a2 && b1 == b2
  {
    match a1
    case Nil =>
      assert a2.Nil?;
    case Cons(_, t1) =>
      AppendCancel(t1, b1, a2.tail, b2);
  }
}

/**
 * The operations of a delta (`src/op.rs`, `src/ops.rs`): insert some content,
 * retain a number of elements (optionally re-attributing them), or delete a
 * number of elements; their lengths, and how they are split in two.
 */
module Ops {
  import opened Wrappers

  /** Largest value of Rust's `usize` on a 64-bit target. */
  const USIZE_MAX: nat := 0xFFFF_FFFF_FFFF_FFFF

  /** `usize::MAX + 1`: the modulus of `usize` arithmetic. */
  const USIZE_MODULUS: nat := 0x1_0000_0000_0000_0000

  /**
   * `Op<T, A>`; content is a sequence of `T` and attributes are optional.
   * The three payload structs of the source (`Insert`, `Retain`, `Delete`)
   * are folded into the variants.
   */
  datatype Op<T, A> =
    | Insert(insert: seq<T>, attributes: Option<A>)
    | Retain(retain: nat, attributes: Option<A>)
    | Delete(delete: nat)

  /** The smaller of two counts. */
  function Min(a: nat, b: nat): nat
  {
    if a <= b then a else b
  }

  /** `Len for Op`: the number of elements the operation covers. */
  function Len<T, A>(op: Op<T, A>): nat
  {
    match op
    case Insert(content, _) => |content|
    case Retain(n, _) => n
    case Delete(n) => n
  }

  /** A `usize`-sized retain/delete count (inserts are bounded by memory only). */
  predicate Sized<T, A>(op: Op<T, A>)
  {
    op.Insert? || Len(op) <= USIZE_MAX
  }

  predicate SameKind<T, A>(a: Op<T, A>, b: Op<T, A>)
  {
    (a.Insert? && b.Insert?) || (a.Retain? && b.Retain?) || (a.Delete? && b.Delete?)
  }

  /** The two parts of a split op, in the order (removed prefix, remainder). */
  ghost predicate IsSplitOf<T, A>(op: Op<T, A>, prefix: Op<T, A>, rest: Op<T, A>)
  {
    && SameKind(prefix, op) && SameKind(rest, op)
    && Len(prefix) + Len(rest) == Len(op)
    && (op.Insert? ==> prefix.insert + rest.insert == op.insert)
    && (!op.Delete? ==> prefix.attributes == op.attributes && rest.attributes == op.attributes)
  }

  /** `Default for Op`: an empty delete. */
  function DefaultOp<T, A>(): (r: Op<T, A>)
    ensures Len(r) == 0 && r.Delete?
  {
    Delete(0)
  }

  /** The default `Insert` struct: empty content, no attributes (what `mem::take` leaves). */
  function EmptyInsert<T, A>(): (r: Op<T, A>)
    ensures Len(r) == 0 && r.Insert? && r.attributes == None
  {
    Insert([], None)
  }

  /**
   * `Split for Insert`: the first `n` elements (all of them when `n` is past
   * the end) are removed and returned; both halves keep the attributes.
   */
  function SplitInsert<T, A>(op: Op<T, A>, n: nat): (r: (Op<T, A>, Op<T, A>))
    requires op.Insert?
    ensures IsSplitOf(op, r.0, r.1)
    ensures Len(r.0) == if n <= Len(op) then n else Len(op)
  {
    var k := if n <= |op.insert| then n else |op.insert|;
    (Insert(op.insert[..k], op.attributes), Insert(op.insert[k..], op.attributes))
  }

  /** `Split for Retain`: `self.retain -= len`, which the source requires not to underflow. */
  function SplitRetain<T, A>(op: Op<T, A>, n: nat): (r: (Op<T, A>, Op<T, A>))
    requires op.Retain? && n <= op.retain
    ensures IsSplitOf(op, r.0, r.1)
    ensures Len(r.0) == n
  {
    (Retain(n, op.attributes), Retain(op.retain - n, op.attributes))
  }

  /** `Split for Delete`: `self.delete -= len`, which the source requires not to underflow. */
  function SplitDelete<T, A>(op: Op<T, A>, n: nat): (r: (Op<T, A>, Op<T, A>))
    requires op.Delete? && n <= op.delete
    ensures IsSplitOf(op, r.0, r.1)
    ensures Len(r.0) == n
  {
    (Delete(n), Delete(op.delete - n))
  }

  /**
   * `Split for Op`: clamps `n` to the op's length and splits; splitting past
   * the end returns the whole op and leaves an empty remainder.
   */
  function Split<T, A>(op: Op<T, A>, n: nat): (r: (Op<T, A>, Op<T, A>))
    ensures IsSplitOf(op, r.0, r.1)
    ensures Len(r.0) == if n <= Len(op) then n else Len(op)
    ensures Len(op) <= n ==> r.0 == op && Len(r.1) == 0
  {
    var k := if n <= Len(op) then n else Len(op);
    match op
    case Insert(_, _) => SplitInsert(op, k)
    case Retain(_, _) => SplitRetain(op, k)
    case Delete(_) => SplitDelete(op, k)
  }

  /** The four results of the free function `split(lhs, rhs)`. */
  datatype SplitPair<T, A> = SplitPair(lhsPrefix: Op<T, A>, rhsPrefix: Op<T, A>, lhsRest: Op<T, A>, rhsRest: Op<T, A>)

  /**
   * `split(lhs, rhs)`: removes the common length `min(len lhs, len rhs)` from
   * both ops and returns the two prefixes; at least one side is used up.
   */
  function SplitBoth<T, A>(lhs: Op<T, A>, rhs: Op<T, A>): (r: SplitPair<T, A>)
    ensures IsSplitOf(lhs, r.lhsPrefix, r.lhsRest) && IsSplitOf(rhs, r.rhsPrefix, r.rhsRest)
    ensures Len(r.lhsPrefix) == Len(r.rhsPrefix)
    ensures Len(r.lhsPrefix) <= Len(lhs) && Len(r.lhsPrefix) <= Len(rhs)
    ensures Len(r.lhsRest) == 0 || Len(r.rhsRest) == 0
  {
    var k := if Len(lhs) <= Len(rhs) then Len(lhs) else Len(rhs);
    var (lp, lr) := Split(lhs, k);
    var (rp, rr) := Split(rhs, k);
    SplitPair(lp, rp, lr, rr)
  }

  /** `Insert::as_retain`: a retain over the insert's length, without attributes. */
  function AsRetain<T, A>(op: Op<T, A>): (r: Op<T, A>)
    requires op.Insert?
    ensures r.Retain? && Len(r) == Len(op) && r.attributes == None
  {
    Retain(|op.insert|, None)
  }

  /** `Retain::or`: the receiver's length, its attributes if any, else the other's. */
  function RetainOr<T, A>(op: Op<T, A>, other: Op<T, A>): (r: Op<T, A>)
    requires op.Retain? && other.Retain?
    ensures r.Retain? && r.retain == op.retain
    ensures op.attributes.Some? ==> r.attributes == op.attributes
    ensures op.attributes.None? ==> r.attributes == other.attributes
  {
    Retain(op.retain, op.attributes.Or(other.attributes))
  }
}

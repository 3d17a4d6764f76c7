/**
 * The `push` tests of `src/delta.rs`: each delta is built with the same
 * calls as the test, and its ops, in the order `into_iter` yields them, are
 * the ones the test expects.
 */
module PushTests {
  import opened Wrappers
  import opened Ops
  import opened Deltas

  /** Pushing onto an empty delta stores the op, unless it is empty. */
  lemma PushFirst<T, A>(op: Op<T, A>)
    requires Sized(op) && Len(op) > 0
    ensures Push([], op) == [op]
  {
  }

  /** Pushing onto a single op merges with it, unless an insert follows a delete. */
  lemma PushSecond<T, A>(first: Op<T, A>, op: Op<T, A>)
    requires Sized(first) && Sized(op) && Len(op) > 0
    requires !(first.Delete? && op.Insert?)
    ensures Push([first], op) == Merge(first, op)
  {
    assert [first][..0] == [];
  }

  /** Two pushes onto an empty delta leave what merging the two ops leaves. */
  lemma PushedTwice<T, A>(d: Delta<T, A>, first: Op<T, A>, op: Op<T, A>)
    requires Sized(first) && Sized(op) && Len(first) > 0 && Len(op) > 0
    requires !(first.Delete? && op.Insert?)
    requires d == Push(Push([], first), op)
    ensures d == Merge(first, op)
  {
    PushFirst(first);
    PushSecond(first, op);
  }

  /** Ops of different kinds, or with different attributes, are not merged. */
  lemma MergeApart<T, A>(last: Op<T, A>, op: Op<T, A>)
    requires Sized(last) && Sized(op)
    requires last.Insert? && op.Insert? ==> last.attributes != op.attributes
    requires last.Retain? && op.Retain? ==> last.attributes != op.attributes
    requires !(last.Delete? && op.Delete?)
    ensures Merge(last, op) == [last, op]
  {
  }

  /** Inserts with equal attributes concatenate. */
  lemma MergeInserts<T, A>(c1: seq<T>, c2: seq<T>, a: Option<A>)
    ensures Merge(Insert(c1, a), Insert(c2, a)) == [Insert(c1 + c2, a)]
  {
  }

  /** Retains with equal attributes add up while the sum fits in `usize`. */
  lemma MergeRetains<T, A>(n: nat, m: nat, a: Option<A>)
    requires n + m <= USIZE_MAX
    ensures Merge<T, A>(Retain(n, a), Retain(m, a)) == [Retain(n + m, a)]
  {
  }

  /** Retains whose sum passes `usize::MAX` fill one retain and spill the rest into a second. */
  lemma MergeRetainsOverflow<T, A>(n: nat, m: nat, a: Option<A>)
    requires n <= USIZE_MAX && m <= USIZE_MAX && n + m > USIZE_MAX
    ensures Merge<T, A>(Retain(n, a), Retain(m, a)) == [Retain(USIZE_MAX, a), Retain(n + m - USIZE_MAX, a)]
  {
  }

  /** Deletes add up while the sum fits in `usize`. */
  lemma MergeDeletes<T, A>(n: nat, m: nat)
    requires n + m <= USIZE_MAX
    ensures Merge<T, A>(Delete(n), Delete(m)) == [Delete(n + m)]
  {
  }

  /** `test_push_insert_insert_same`: inserts with the same attributes concatenate. */
  lemma InsertInsertSame(d: Delta<char, ()>)
    requires d == BuildInsert(BuildInsert([], "a", None), "b", None)
    ensures d == [Insert("ab", None)]
  {
    PushedTwice<char, ()>(d, Insert("a", None), Insert("b", None));
    MergeInserts<char, ()>("a", "b", None);
    Concat();
  }

  lemma Concat()
    ensures "a" + "b" == "ab"
  {
    assert ("a" + "b")[1] == 'b';
  }

  /** `test_push_insert_insert_diff`: inserts with different attributes stay apart. */
  lemma InsertInsertDiff(d: Delta<char, bool>)
    requires d == BuildInsert(BuildInsert([], "a", Some(false)), "b", Some(true))
    ensures d == [Insert("a", Some(false)), Insert("b", Some(true))]
  {
    PushedTwice<char, bool>(d, Insert("a", Some(false)), Insert("b", Some(true)));
    MergeApart<char, bool>(Insert("a", Some(false)), Insert("b", Some(true)));
  }

  /** `test_push_insert_retain`: a retain after an insert is appended. */
  lemma InsertRetain(d: Delta<char, ()>)
    requires d == BuildRetain(BuildInsert([], "a", Some(())), 1, Some(()))
    ensures d == [Insert("a", Some(())), Retain(1, Some(()))]
  {
    PushedTwice<char, ()>(d, Insert("a", Some(())), Retain(1, Some(())));
    MergeApart<char, ()>(Insert("a", Some(())), Retain(1, Some(())));
  }

  /** `test_push_insert_delete`: a delete after an insert is appended. */
  lemma InsertDelete(d: Delta<char, ()>)
    requires d == BuildDelete(BuildInsert([], "a", None), 1)
    ensures d == [Insert("a", None), Delete(1)]
  {
    PushedTwice<char, ()>(d, Insert("a", None), Delete(1));
    MergeApart<char, ()>(Insert("a", None), Delete(1));
  }

  /** `test_push_retain_insert`: an insert after a retain is appended. */
  lemma RetainInsert(d: Delta<char, ()>)
    requires d == BuildInsert(BuildRetain([], 1, None), "a", None)
    ensures d == [Retain(1, None), Insert("a", None)]
  {
    PushedTwice<char, ()>(d, Retain(1, None), Insert("a", None));
    MergeApart<char, ()>(Retain(1, None), Insert("a", None));
  }

  /** `test_push_retain_retain_same`: retains with the same attributes add up. */
  lemma RetainRetainSame(d: Delta<char, ()>)
    requires d == BuildRetain(BuildRetain([], 1, None), 2, None)
    ensures d == [Retain(3, None)]
  {
    PushedTwice<char, ()>(d, Retain(1, None), Retain(2, None));
    MergeRetains<char, ()>(1, 2, None);
  }

  /** `test_push_retain_retain_diff`: retains with different attributes stay apart. */
  lemma RetainRetainDiff(d: Delta<char, bool>)
    requires d == BuildRetain(BuildRetain([], 1, Some(false)), 2, Some(true))
    ensures d == [Retain(1, Some(false)), Retain(2, Some(true))]
  {
    PushedTwice<char, bool>(d, Retain(1, Some(false)), Retain(2, Some(true)));
    MergeApart<char, bool>(Retain(1, Some(false)), Retain(2, Some(true)));
  }

  /** `test_push_retain_delete`: a delete after a retain is appended. */
  lemma RetainDelete(d: Delta<char, ()>)
    requires d == BuildDelete(BuildRetain([], 1, None), 1)
    ensures d == [Retain(1, None), Delete(1)]
  {
    PushedTwice<char, ()>(d, Retain(1, None), Delete(1));
    MergeApart<char, ()>(Retain(1, None), Delete(1));
  }

  /** `test_push_delete_insert`: an insert pushed after a delete goes before it. */
  lemma DeleteInsert(d: Delta<char, ()>)
    requires d == BuildInsert(BuildDelete([], 1), "a", None)
    ensures d == [Insert("a", None), Delete(1)]
  {
    var i: Op<char, ()> := Insert("a", None);
    var x: Op<char, ()> := Delete(1);
    PushFirst(x);
    assert [x][..0] == [];
    assert d == Push(Push([], i), x);
    PushedTwice(d, i, x);
    MergeApart(i, x);
  }

  /** `test_push_delete_retain`: a retain after a delete is appended. */
  lemma DeleteRetain(d: Delta<char, ()>)
    requires d == BuildRetain(BuildDelete([], 1), 1, None)
    ensures d == [Delete(1), Retain(1, None)]
  {
    PushedTwice<char, ()>(d, Delete(1), Retain(1, None));
    MergeApart<char, ()>(Delete(1), Retain(1, None));
  }

  /** `test_push_delete_delete`: deletes add up. */
  lemma DeleteDelete(d: Delta<char, ()>)
    requires d == BuildDelete(BuildDelete([], 1), 1)
    ensures d == [Delete(2)]
  {
    PushedTwice<char, ()>(d, Delete(1), Delete(1));
    MergeDeletes<char, ()>(1, 1);
  }

  /**
   * `test_overflow`: retains of `usize::MAX - 4` and 8 add up past
   * `usize::MAX`; the first saturates and the wrapped sum plus one, 4,
   * spills into a second retain.
   */
  lemma Overflow(d: Delta<char, ()>)
    requires d == Push(Push([], Retain(USIZE_MAX - 4, None)), Retain(8, None))
    ensures d == [Retain(USIZE_MAX, None), Retain(4, None)]
  {
    PushedTwice<char, ()>(d, Retain(USIZE_MAX - 4, None), Retain(8, None));
    MergeRetainsOverflow<char, ()>(USIZE_MAX - 4, 8, None);
  }
}

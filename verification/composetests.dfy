/**
 * The composition tests of `src/compose.rs`, each built with the same
 * builder calls as the test. A composed delta is pinned down by its units:
 * it is the normal delta holding the normal form of the element-level
 * composition.
 */
module ComposeTests {
  import opened Wrappers
  import opened Ops
  import opened Lists
  import opened Units
  import opened Canonical
  import opened Algebra
  import opened Deltas
  import opened Iters
  import opened Composition
  import opened Normalization
  import opened Simulation
  import opened Convergence
  import PushTests

  /** A delta equals the composition exactly when it is normal and holds the composed units in normal form. */
  lemma ComposeByUnits<T(!new), A(!new)>(combine: (A, A) -> A, lhs: Delta<T, A>, rhs: Delta<T, A>, expected: Delta<T, A>)
    requires AllFit(lhs) && AllFit(rhs) && NoEmpty(lhs) && NoEmpty(rhs)
    requires IsNormal(expected)
    requires ExpandAll(expected) == Normalize(ComposeUnits(combine, ExpandAll(lhs), ExpandAll(rhs)))
    ensures Compose(combine, lhs, rhs) == expected
  {
    ComposeExpand(combine, lhs, rhs);
    ExpandInjective(Compose(combine, lhs, rhs), expected);
  }

  /** The attributes of the composition tests: an optional bold flag, where a later flag wins. */
  datatype Attributes = Attributes(bold: Option<bool>)

  function ComposeAttributes(lhs: Attributes, rhs: Attributes): Attributes
  {
    Attributes(rhs.bold.Or(lhs.bold))
  }

  /** `Attributes::bold()`, as the builders receive it. */
  const Bold: Option<Attributes> := Some(Attributes(Some(true)))

  /** Pushing an op that cannot merge with the last one appends it, and its units follow. */
  lemma PushApart<T, A>(d: Delta<T, A>, op: Op<T, A>)
    requires AllSized(d) && Sized(op) && Len(op) > 0 && |d| > 0
    requires !(d[|d| - 1].Delete? && op.Insert?)
    requires d[|d| - 1].Insert? && op.Insert? ==> d[|d| - 1].attributes != op.attributes
    requires d[|d| - 1].Retain? && op.Retain? ==> d[|d| - 1].attributes != op.attributes
    requires !(d[|d| - 1].Delete? && op.Delete?)
    ensures Push(d, op) == d + [op]
    ensures ExpandAll(d + [op]) == Append(ExpandAll(d), Expand(op))
  {
    var last := d[|d| - 1];
    PushTests.MergeApart(last, op);
    assert d[..|d| - 1] + [last, op] == d + [op];
    ExpandAllSnoc(d, op);
  }

  /** `test_insert_insert`: an insert on the right comes first. */
  lemma InsertInsert(a: Delta<char, ()>, b: Delta<char, ()>, expected: Delta<char, ()>)
    requires a == BuildInsert([], "A", Some(()))
    requires b == BuildInsert([], "B", Some(()))
    requires expected == BuildInsert([], "BA", Some(()))
    ensures AllFit(a) && AllFit(b)
    ensures Compose(ComposeUnit, a, b) == expected
  {
    assert a == [Insert("A", Some(()))];
    assert b == [Insert("B", Some(()))];
    assert expected == [Insert("BA", Some(()))];
    ExpandAllSingle(a[0]);
    ExpandAllSingle(b[0]);
    ExpandAllSingle(expected[0]);
    ComposeByUnits(ComposeUnit, a, b, expected);
  }

  /** `test_insert_retain`: retaining an inserted element keeps it. */
  lemma InsertRetain(a: Delta<char, ()>, b: Delta<char, ()>, expected: Delta<char, ()>)
    requires a == BuildInsert([], "A", Some(()))
    requires b == BuildRetain([], 1, Some(()))
    requires expected == BuildInsert([], "A", Some(()))
    ensures AllFit(a) && AllFit(b)
    ensures Compose(ComposeUnit, a, b) == expected
  {
    assert a == [Insert("A", Some(()))];
    assert b == [Retain(1, Some(()))];
    ExpandAllSingle(a[0]);
    ExpandAllSingle(b[0]);
    assert ExpandAll(a) == Cons(UIns('A', Some(())), Nil);
    ComposeByUnits(ComposeUnit, a, b, expected);
  }

  /** `test_insert_delete`: deleting an inserted element leaves nothing. */
  lemma InsertDelete(a: Delta<char, ()>, b: Delta<char, ()>)
    requires a == BuildInsert([], "A", Some(()))
    requires b == BuildDelete([], 1)
    ensures AllFit(a) && AllFit(b)
    ensures Compose(ComposeUnit, a, b) == []
  {
    assert a == [Insert("A", Some(()))];
    assert b == [Delete(1)];
    ExpandAllSingle(a[0]);
    ExpandAllSingle(b[0]);
    ComposeByUnits(ComposeUnit, a, b, []);
  }

  /** `test_retain_insert`: an insert on the right goes before a re-attributed element. */
  lemma RetainInsert(a: Delta<char, Attributes>, b: Delta<char, Attributes>, expected: Delta<char, Attributes>)
    requires a == BuildRetain([], 1, Bold)
    requires b == BuildInsert([], "A", None)
    requires expected == BuildRetain(BuildInsert([], "A", None), 1, Bold)
    ensures AllFit(a) && AllFit(b)
    ensures Compose(ComposeAttributes, a, b) == expected
  {
    var r: Op<char, Attributes> := Retain(1, Bold);
    var i: Op<char, Attributes> := Insert("A", None);
    assert a == [r];
    assert b == [i];
    PushTests.PushFirst(i);
    PushApart([i], r);
    RetainInsertBuilt(a, b, expected);
  }

  lemma RetainInsertBuilt(a: Delta<char, Attributes>, b: Delta<char, Attributes>, expected: Delta<char, Attributes>)
    requires a == [Retain(1, Bold)]
    requires b == [Insert("A", None)]
    requires expected == [Insert("A", None), Retain(1, Bold)]
    ensures AllFit(a) && AllFit(b)
    ensures Compose(ComposeAttributes, a, b) == expected
  {
    ExpandAllSingle(a[0]);
    ExpandAllSingle(b[0]);
    ExpandAllPair(expected[0], expected[1]);
    assert ExpandAll(expected) == Cons(UIns('A', None), Cons(URet(Bold), Nil));
    ComposeByUnits(ComposeAttributes, a, b, expected);
  }

  /** `test_retain_retain`: the right side's attributes win, over its whole length. */
  lemma RetainRetain(a: Delta<char, Attributes>, b: Delta<char, Attributes>, expected: Delta<char, Attributes>)
    requires a == BuildRetain([], 1, None)
    requires b == BuildRetain([], 2, Bold)
    requires expected == BuildRetain([], 2, Bold)
    ensures AllFit(a) && AllFit(b)
    ensures Compose(ComposeAttributes, a, b) == expected
  {
    assert a == [Retain(1, None)];
    assert b == [Retain(2, Bold)];
    ExpandAllSingle(a[0]);
    ExpandAllSingle(b[0]);
    var R: Unit<char, Attributes> := URet(Bold);
    assert ExpandAll(b) == Cons(R, Cons(R, Nil));
    assert ComposeUnits(ComposeAttributes, ExpandAll(a), ExpandAll(b)) == Cons(R, Cons(R, Nil));
    ComposeByUnits(ComposeAttributes, a, b, expected);
  }

  /** `test_retain_delete`: deleting a retained element deletes it. */
  lemma RetainDelete(a: Delta<char, ()>, b: Delta<char, ()>, expected: Delta<char, ()>)
    requires a == BuildRetain([], 1, Some(()))
    requires b == BuildDelete([], 1)
    requires expected == BuildDelete([], 1)
    ensures AllFit(a) && AllFit(b)
    ensures Compose(ComposeUnit, a, b) == expected
  {
    assert a == [Retain(1, Some(()))];
    assert b == [Delete(1)];
    ExpandAllSingle(a[0]);
    ExpandAllSingle(b[0]);
    ComposeByUnits(ComposeUnit, a, b, expected);
  }

  /** `test_delete_insert`: an insert on the right goes before a delete on the left. */
  lemma DeleteInsert(a: Delta<char, ()>, b: Delta<char, ()>, expected: Delta<char, ()>)
    requires a == BuildDelete([], 1)
    requires b == BuildInsert([], "B", Some(()))
    requires expected == BuildDelete(BuildInsert([], "B", Some(())), 1)
    ensures AllFit(a) && AllFit(b)
    ensures Compose(ComposeUnit, a, b) == expected
  {
    var x: Op<char, ()> := Delete(1);
    var i: Op<char, ()> := Insert("B", Some(()));
    assert a == [x];
    assert b == [i];
    PushTests.PushFirst(i);
    PushApart([i], x);
    DeleteInsertBuilt(a, b, expected);
  }

  lemma DeleteInsertBuilt(a: Delta<char, ()>, b: Delta<char, ()>, expected: Delta<char, ()>)
    requires a == [Delete(1)]
    requires b == [Insert("B", Some(()))]
    requires expected == [Insert("B", Some(())), Delete(1)]
    ensures AllFit(a) && AllFit(b)
    ensures Compose(ComposeUnit, a, b) == expected
  {
    ExpandAllSingle(a[0]);
    ExpandAllSingle(b[0]);
    ExpandAllPair(expected[0], expected[1]);
    assert ExpandAll(expected) == Cons(UIns('B', Some(())), Cons(UDel, Nil));
    ComposeByUnits(ComposeUnit, a, b, expected);
  }

  /** `test_delete_retain`: a delete on the left stays in front of a re-attributed element. */
  lemma DeleteRetain(a: Delta<char, Attributes>, b: Delta<char, Attributes>, expected: Delta<char, Attributes>)
    requires a == BuildDelete([], 1)
    requires b == BuildRetain([], 1, Bold)
    requires expected == BuildRetain(BuildDelete([], 1), 1, Bold)
    ensures AllFit(a) && AllFit(b)
    ensures Compose(ComposeAttributes, a, b) == expected
  {
    var x: Op<char, Attributes> := Delete(1);
    var r: Op<char, Attributes> := Retain(1, Bold);
    assert a == [x];
    assert b == [r];
    PushTests.PushFirst(x);
    PushApart([x], r);
    DeleteRetainBuilt(a, b, expected);
  }

  lemma DeleteRetainBuilt(a: Delta<char, Attributes>, b: Delta<char, Attributes>, expected: Delta<char, Attributes>)
    requires a == [Delete(1)]
    requires b == [Retain(1, Bold)]
    requires expected == [Delete(1), Retain(1, Bold)]
    ensures AllFit(a) && AllFit(b)
    ensures Compose(ComposeAttributes, a, b) == expected
  {
    ExpandAllSingle(a[0]);
    ExpandAllSingle(b[0]);
    ExpandAllPair(expected[0], expected[1]);
    assert ExpandAll(expected) == Cons(UDel, Cons(URet(Bold), Nil));
    ComposeByUnits(ComposeAttributes, a, b, expected);
  }

  /** `test_delete_delete`: a delete on the left comes first, then the right one's. */
  lemma DeleteDelete(a: Delta<char, ()>, b: Delta<char, ()>, expected: Delta<char, ()>)
    requires a == BuildDelete([], 1)
    requires b == BuildDelete([], 2)
    requires expected == BuildDelete([], 3)
    ensures AllFit(a) && AllFit(b)
    ensures Compose(ComposeUnit, a, b) == expected
  {
    assert a == [Delete(1)];
    assert b == [Delete(2)];
    assert expected == [Delete(3)];
    ExpandAllSingle(a[0]);
    ExpandAllSingle(b[0]);
    ExpandAllSingle(expected[0]);
    ComposeByUnits(ComposeUnit, a, b, expected);
  }

  /** `test_insert_mid`: an insert after three retained elements lands inside the inserted text. */
  lemma InsertMid(a: Delta<char, ()>, b: Delta<char, ()>, expected: Delta<char, ()>)
    requires a == BuildInsert([], "Hello", Some(()))
    requires b == BuildInsert(BuildRetain([], 3, Some(())), "X", Some(()))
    requires expected == BuildInsert([], "HelXlo", Some(()))
    ensures AllFit(a) && AllFit(b)
    ensures Compose(ComposeUnit, a, b) == expected
  {
    assert a == [Insert("Hello", Some(()))];
    assert b == [Retain(3, Some(())), Insert("X", Some(()))];
    assert expected == [Insert("HelXlo", Some(()))];
    InsertMidBuilt(a, b, expected);
  }

  lemma InsertMidBuilt(a: Delta<char, ()>, b: Delta<char, ()>, expected: Delta<char, ()>)
    requires a == [Insert("Hello", Some(()))]
    requires b == [Retain(3, Some(())), Insert("X", Some(()))]
    requires expected == [Insert("HelXlo", Some(()))]
    ensures AllFit(a) && AllFit(b)
    ensures Compose(ComposeUnit, a, b) == expected
  {
    ExpandAllSingle(a[0]);
    ExpandAllPair(b[0], b[1]);
    ExpandAllSingle(expected[0]);
    InsertMidUnits();
    ComposeByUnits(ComposeUnit, a, b, expected);
  }

  /** `test_delete_all`: deleting past everything deletes the retained elements only. */
  lemma DeleteAll(a: Delta<char, ()>, b: Delta<char, ()>, expected: Delta<char, ()>)
    requires a == BuildInsert(BuildRetain([], 4, Some(())), "Hello", Some(()))
    requires b == BuildDelete([], 9)
    requires expected == BuildDelete([], 4)
    ensures AllFit(a) && AllFit(b)
    ensures Compose(ComposeUnit, a, b) == expected
  {
    assert a == [Retain(4, Some(())), Insert("Hello", Some(()))];
    assert b == [Delete(9)];
    assert expected == [Delete(4)];
    DeleteAllBuilt(a, b, expected);
  }

  lemma DeleteAllBuilt(a: Delta<char, ()>, b: Delta<char, ()>, expected: Delta<char, ()>)
    requires a == [Retain(4, Some(())), Insert("Hello", Some(()))]
    requires b == [Delete(9)]
    requires expected == [Delete(4)]
    ensures AllFit(a) && AllFit(b)
    ensures Compose(ComposeUnit, a, b) == expected
  {
    ExpandAllPair(a[0], a[1]);
    ExpandAllSingle(b[0]);
    ExpandAllSingle(expected[0]);
    DeleteAllUnits();
    ComposeByUnits(ComposeUnit, a, b, expected);
  }

  /** `test_over_retain`: a retain longer than the document is trimmed. */
  lemma OverRetain(a: Delta<char, ()>, b: Delta<char, ()>)
    requires a == BuildInsert([], "Hello", None)
    requires b == BuildRetain([], 10, None)
    ensures AllFit(a) && AllFit(b)
    ensures Compose(ComposeUnit, a, b) == a
  {
    assert a == [Insert("Hello", None)];
    ExpandAllSingle(a[0]);
    InsUnitsKinds<char, ()>("Hello", None);
    NormalizeInserts(ExpandAll(a));
    ComposeRetainIdentity(ComposeUnit, a, 10);
  }

  /** The units of the three inserts the optimization tests start from, followed by `rest`. */
  function AbcUnits(rest: List<Unit<char, Attributes>>): List<Unit<char, Attributes>>
  {
    Cons(UIns('A', Bold), Cons(UIns('B', None), Cons(UIns('C', Bold), rest)))
  }

  /** `Delta::new().insert("A", bold).insert("B", None).insert("C", bold)`, where no two inserts merge. */
  lemma BoldPlainBold(d: Delta<char, Attributes>)
    requires d == BuildInsert(BuildInsert(BuildInsert([], "A", Bold), "B", None), "C", Bold)
    ensures d == [Insert("A", Bold), Insert("B", None), Insert("C", Bold)]
    ensures ExpandAll(d) == AbcUnits(Nil)
  {
    var a: Op<char, Attributes> := Insert("A", Bold);
    var b: Op<char, Attributes> := Insert("B", None);
    var c: Op<char, Attributes> := Insert("C", Bold);
    PushTests.PushFirst(a);
    ExpandAllSingle(a);
    PushApart([a], b);
    assert [a] + [b] == [a, b];
    PushApart([a, b], c);
    assert [a, b] + [c] == [a, b, c];
  }

  /** Two pushes of ops that cannot merge leave both, in order. */
  lemma BuiltApart<T, A>(d: Delta<T, A>, first: Op<T, A>, op: Op<T, A>)
    requires Sized(first) && Sized(op) && Len(first) > 0 && Len(op) > 0
    requires !(first.Delete? && op.Insert?)
    requires first.Insert? && op.Insert? ==> first.attributes != op.attributes
    requires first.Retain? && op.Retain? ==> first.attributes != op.attributes
    requires !(first.Delete? && op.Delete?)
    requires d == Push(Push([], first), op)
    ensures d == [first, op]
    ensures ExpandAll(d) == Append(Expand(first), Expand(op))
  {
    PushTests.PushedTwice(d, first, op);
    PushTests.MergeApart(first, op);
    ExpandAllPair(first, op);
  }

  /** `test_retain_start_optimization`: the new insert lands after the three inserts, before the delete. */
  lemma StartOptimization(a: Delta<char, Attributes>, b: Delta<char, Attributes>, expected: Delta<char, Attributes>)
    requires a == BuildDelete(BuildInsert(BuildInsert(BuildInsert([], "A", Bold), "B", None), "C", Bold), 1)
    requires b == BuildInsert(BuildRetain([], 3, None), "D", None)
    requires expected == BuildDelete(BuildInsert(BuildInsert(BuildInsert(BuildInsert([], "A", Bold), "B", None), "C", Bold), "D", None), 1)
    ensures AllFit(a) && AllFit(b)
    ensures Compose(ComposeAttributes, a, b) == expected
  {
    var abc := BuildInsert(BuildInsert(BuildInsert([], "A", Bold), "B", None), "C", Bold);
    BoldPlainBold(abc);
    StartOptimizationLhs(abc, a);
    BuiltApart<char, Attributes>(b, Retain(3, None), Insert("D", None));
    StartOptimizationExpected(abc, expected);
    StartOptimizationBuilt(a, b, expected);
  }

  lemma StartOptimizationLhs(abc: Delta<char, Attributes>, a: Delta<char, Attributes>)
    requires abc == [Insert("A", Bold), Insert("B", None), Insert("C", Bold)]
    requires ExpandAll(abc) == AbcUnits(Nil)
    requires a == BuildDelete(abc, 1)
    ensures a == [Insert("A", Bold), Insert("B", None), Insert("C", Bold), Delete(1)]
    ensures ExpandAll(a) == AbcUnits(Cons(UDel, Nil))
  {
    PushApart(abc, Delete(1));
  }

  lemma StartOptimizationExpected(abc: Delta<char, Attributes>, expected: Delta<char, Attributes>)
    requires abc == [Insert("A", Bold), Insert("B", None), Insert("C", Bold)]
    requires ExpandAll(abc) == AbcUnits(Nil)
    requires expected == BuildDelete(BuildInsert(abc, "D", None), 1)
    ensures expected == [Insert("A", Bold), Insert("B", None), Insert("C", Bold), Insert("D", None), Delete(1)]
    ensures ExpandAll(expected) == AbcUnits(Cons(UIns('D', None), Cons(UDel, Nil)))
  {
    var i: Op<char, Attributes> := Insert("D", None);
    PushApart(abc, i);
    PushApart(abc + [i], Delete(1));
  }

  lemma StartOptimizationBuilt(a: Delta<char, Attributes>, b: Delta<char, Attributes>, expected: Delta<char, Attributes>)
    requires a == [Insert("A", Bold), Insert("B", None), Insert("C", Bold), Delete(1)]
    requires ExpandAll(a) == AbcUnits(Cons(UDel, Nil))
    requires b == [Retain(3, None), Insert("D", None)]
    requires ExpandAll(b) == Append(Expand<char, Attributes>(Retain(3, None)), Expand<char, Attributes>(Insert("D", None)))
    requires expected == [Insert("A", Bold), Insert("B", None), Insert("C", Bold), Insert("D", None), Delete(1)]
    requires ExpandAll(expected) == AbcUnits(Cons(UIns('D', None), Cons(UDel, Nil)))
    ensures AllFit(a) && AllFit(b)
    ensures Compose(ComposeAttributes, a, b) == expected
  {
    RetainsThenD();
    StartOptimizationFacts(a, b, expected);
    StartOptimizationUnits();
    ComposeByUnits(ComposeAttributes, a, b, expected);
  }

  /** The units of a retain of three or four elements followed by the insert of "D". */
  lemma RetainsThenD()
    ensures var R, D := Unit<char, Attributes>.URet(None), UIns('D', None);
      Append(Expand<char, Attributes>(Retain(3, None)), Expand(Insert("D", None))) == Cons(R, Cons(R, Cons(R, Cons(D, Nil))))
    ensures var R, D := Unit<char, Attributes>.URet(None), UIns('D', None);
      Append(Expand<char, Attributes>(Retain(4, None)), Expand(Insert("D", None))) == Cons(R, Cons(R, Cons(R, Cons(R, Cons(D, Nil)))))
  {
  }

  lemma StartOptimizationFacts(a: Delta<char, Attributes>, b: Delta<char, Attributes>, expected: Delta<char, Attributes>)
    requires a == [Insert("A", Bold), Insert("B", None), Insert("C", Bold), Delete(1)]
    requires b == [Retain(3, None), Insert("D", None)]
    requires expected == [Insert("A", Bold), Insert("B", None), Insert("C", Bold), Insert("D", None), Delete(1)]
    ensures AllFit(a) && AllFit(b) && NoEmpty(a) && NoEmpty(b)
    ensures IsNormal(expected)
  {
  }

  lemma StartOptimizationUnits()
    ensures var R := Unit<char, Attributes>.URet(None);
      Normalize(ComposeUnits(ComposeAttributes, AbcUnits(Cons(UDel, Nil)), Cons(R, Cons(R, Cons(R, Cons(UIns('D', None), Nil))))))
      == AbcUnits(Cons(UIns('D', None), Cons(UDel, Nil)))
  {
  }

  /** `test_retain_start_optimization_split`: the insert lands inside the retain, which is split around it. */
  lemma StartOptimizationSplit(a: Delta<char, Attributes>, b: Delta<char, Attributes>, expected: Delta<char, Attributes>)
    requires a == BuildDelete(BuildRetain(BuildInsert(BuildInsert(BuildInsert([], "A", Bold), "B", None), "C", Bold), 5, None), 1)
    requires b == BuildInsert(BuildRetain([], 4, None), "D", None)
    requires expected == BuildDelete(BuildRetain(BuildInsert(BuildRetain(
      BuildInsert(BuildInsert(BuildInsert([], "A", Bold), "B", None), "C", Bold), 1, None), "D", None), 4, None), 1)
    ensures AllFit(a) && AllFit(b)
    ensures Compose(ComposeAttributes, a, b) == expected
  {
    var abc := BuildInsert(BuildInsert(BuildInsert([], "A", Bold), "B", None), "C", Bold);
    BoldPlainBold(abc);
    StartOptimizationSplitLhs(abc, a);
    BuiltApart<char, Attributes>(b, Retain(4, None), Insert("D", None));
    StartOptimizationSplitExpected(abc, expected);
    StartOptimizationSplitBuilt(a, b, expected);
  }

  lemma StartOptimizationSplitLhs(abc: Delta<char, Attributes>, a: Delta<char, Attributes>)
    requires abc == [Insert("A", Bold), Insert("B", None), Insert("C", Bold)]
    requires ExpandAll(abc) == AbcUnits(Nil)
    requires a == BuildDelete(BuildRetain(abc, 5, None), 1)
    ensures a == [Insert("A", Bold), Insert("B", None), Insert("C", Bold), Retain(5, None), Delete(1)]
    ensures var R := URet(None);
      ExpandAll(a) == AbcUnits(Cons(R, Cons(R, Cons(R, Cons(R, Cons(R, Cons(UDel, Nil)))))))
  {
    var r: Op<char, Attributes> := Retain(5, None);
    PushApart(abc, r);
    PushApart(abc + [r], Delete(1));
  }

  lemma StartOptimizationSplitExpected(abc: Delta<char, Attributes>, expected: Delta<char, Attributes>)
    requires abc == [Insert("A", Bold), Insert("B", None), Insert("C", Bold)]
    requires ExpandAll(abc) == AbcUnits(Nil)
    requires expected == BuildDelete(BuildRetain(BuildInsert(BuildRetain(abc, 1, None), "D", None), 4, None), 1)
    ensures expected == [Insert("A", Bold), Insert("B", None), Insert("C", Bold), Retain(1, None), Insert("D", None), Retain(4, None), Delete(1)]
    ensures var R := URet(None);
      ExpandAll(expected) == AbcUnits(Cons(R, Cons(UIns('D', None), Cons(R, Cons(R, Cons(R, Cons(R, Cons(UDel, Nil))))))))
  {
    var mid := BuildInsert(BuildRetain(abc, 1, None), "D", None);
    RetainThenD(abc, mid);
    var r4: Op<char, Attributes> := Retain(4, None);
    PushApart(mid, r4);
    PushApart(mid + [r4], Delete(1));
  }

  lemma RetainThenD(abc: Delta<char, Attributes>, mid: Delta<char, Attributes>)
    requires abc == [Insert("A", Bold), Insert("B", None), Insert("C", Bold)]
    requires ExpandAll(abc) == AbcUnits(Nil)
    requires mid == BuildInsert(BuildRetain(abc, 1, None), "D", None)
    ensures mid == [Insert("A", Bold), Insert("B", None), Insert("C", Bold), Retain(1, None), Insert("D", None)]
    ensures ExpandAll(mid) == AbcUnits(Cons(URet(None), Cons(UIns('D', None), Nil)))
  {
    var r1: Op<char, Attributes> := Retain(1, None);
    PushApart(abc, r1);
    PushApart(abc + [r1], Insert("D", None));
  }

  lemma StartOptimizationSplitBuilt(a: Delta<char, Attributes>, b: Delta<char, Attributes>, expected: Delta<char, Attributes>)
    requires a == [Insert("A", Bold), Insert("B", None), Insert("C", Bold), Retain(5, None), Delete(1)]
    requires var R := URet(None);
      ExpandAll(a) == AbcUnits(Cons(R, Cons(R, Cons(R, Cons(R, Cons(R, Cons(UDel, Nil)))))))
    requires b == [Retain(4, None), Insert("D", None)]
    requires ExpandAll(b) == Append(Expand<char, Attributes>(Retain(4, None)), Expand<char, Attributes>(Insert("D", None)))
    requires expected == [Insert("A", Bold), Insert("B", None), Insert("C", Bold), Retain(1, None), Insert("D", None), Retain(4, None), Delete(1)]
    requires var R := URet(None);
      ExpandAll(expected) == AbcUnits(Cons(R, Cons(UIns('D', None), Cons(R, Cons(R, Cons(R, Cons(R, Cons(UDel, Nil))))))))
    ensures AllFit(a) && AllFit(b)
    ensures Compose(ComposeAttributes, a, b) == expected
  {
    RetainsThenD();
    StartOptimizationSplitFacts(a, b, expected);
    StartOptimizationSplitUnits();
    ComposeByUnits(ComposeAttributes, a, b, expected);
  }

  lemma StartOptimizationSplitFacts(a: Delta<char, Attributes>, b: Delta<char, Attributes>, expected: Delta<char, Attributes>)
    requires a == [Insert("A", Bold), Insert("B", None), Insert("C", Bold), Retain(5, None), Delete(1)]
    requires b == [Retain(4, None), Insert("D", None)]
    requires expected == [Insert("A", Bold), Insert("B", None), Insert("C", Bold), Retain(1, None), Insert("D", None), Retain(4, None), Delete(1)]
    ensures AllFit(a) && AllFit(b) && NoEmpty(a) && NoEmpty(b)
    ensures IsNormal(expected)
  {
  }

  lemma StartOptimizationSplitUnits()
    ensures var R, D, X := Unit<char, Attributes>.URet(None), UIns('D', None), UDel;
      var tail := Cons(R, Cons(R, Cons(R, Cons(R, Cons(X, Nil)))));
      Normalize(ComposeUnits(ComposeAttributes, AbcUnits(Cons(R, tail)), Cons(R, Cons(R, Cons(R, Cons(R, Cons(D, Nil)))))))
      == AbcUnits(Cons(R, Cons(D, tail)))
  {
    var R, D, X := Unit<char, Attributes>.URet(None), UIns('D', None), UDel;
    var tail := Cons(R, Cons(R, Cons(R, Cons(R, Cons(X, Nil)))));
    assert ComposeUnits(ComposeAttributes, tail, Cons(D, Nil)) == Cons(D, tail);
    assert Normalize(tail) == tail;
  }

  /** `test_retain_end_optimization`: deleting the first insert leaves the other two as they were. */
  lemma EndOptimization(a: Delta<char, Attributes>, b: Delta<char, Attributes>, expected: Delta<char, Attributes>)
    requires a == BuildInsert(BuildInsert(BuildInsert([], "A", Bold), "B", None), "C", Bold)
    requires b == BuildDelete([], 1)
    requires expected == BuildInsert(BuildInsert([], "B", None), "C", Bold)
    ensures AllFit(a) && AllFit(b)
    ensures Compose(ComposeAttributes, a, b) == expected
  {
    BoldPlainBold(a);
    var x: Op<char, Attributes> := Delete(1);
    PushTests.PushFirst(x);
    ExpandAllSingle(x);
    BuiltApart<char, Attributes>(expected, Insert("B", None), Insert("C", Bold));
    EndOptimizationBuilt(a, b, expected);
  }

  lemma EndOptimizationBuilt(a: Delta<char, Attributes>, b: Delta<char, Attributes>, expected: Delta<char, Attributes>)
    requires a == [Insert("A", Bold), Insert("B", None), Insert("C", Bold)]
    requires ExpandAll(a) == AbcUnits(Nil)
    requires b == [Delete(1)]
    requires ExpandAll(b) == Expand<char, Attributes>(Delete(1))
    requires expected == [Insert("B", None), Insert("C", Bold)]
    requires ExpandAll(expected) == Append(Expand<char, Attributes>(Insert("B", None)), Expand<char, Attributes>(Insert("C", Bold)))
    ensures AllFit(a) && AllFit(b)
    ensures Compose(ComposeAttributes, a, b) == expected
  {
    assert ExpandAll(b) == Cons(UDel, Nil);
    assert ExpandAll(expected) == Cons(UIns('B', None), Cons(UIns('C', Bold), Nil));
    assert ComposeUnits(ComposeAttributes, ExpandAll(a), ExpandAll(b)) == ExpandAll(expected);
    assert AllIns(ExpandAll(expected));
    NormalizeInserts(ExpandAll(expected));
    ComposeByUnits(ComposeAttributes, a, b, expected);
  }

  /** `test_retain_end_optimization_join`: deleting the second insert lets the first and third join. */
  lemma EndOptimizationJoin(a: Delta<char, Attributes>, b: Delta<char, Attributes>, expected: Delta<char, Attributes>)
    requires a == BuildInsert(BuildInsert(BuildInsert(BuildInsert(BuildInsert(BuildInsert([],
      "A", Bold), "B", None), "C", Bold), "D", None), "E", Bold), "F", None)
    requires b == BuildDelete(BuildRetain([], 1, None), 1)
    requires expected == BuildInsert(BuildInsert(BuildInsert(BuildInsert([], "AC", Bold), "D", None), "E", Bold), "F", None)
    ensures AllFit(a) && AllFit(b)
    ensures Compose(ComposeAttributes, a, b) == expected
  {
    var abc := BuildInsert(BuildInsert(BuildInsert([], "A", Bold), "B", None), "C", Bold);
    BoldPlainBold(abc);
    var ac: Delta<char, Attributes> := BuildInsert([], "AC", Bold);
    PushTests.PushFirst<char, Attributes>(Insert("AC", Bold));
    ExpandAllSingle<char, Attributes>(Insert("AC", Bold));
    ThenDEF(abc, a);
    ThenDEF(ac, expected);
    BuiltApart<char, Attributes>(b, Retain(1, None), Delete(1));
    EndOptimizationJoinBuilt(a, b, expected);
  }

  /** Three more inserts, "D" plain, "E" bold and "F" plain, after a delta ending in a bold insert. */
  lemma ThenDEF(d: Delta<char, Attributes>, e: Delta<char, Attributes>)
    requires AllSized(d) && |d| > 0 && d[|d| - 1].Insert? && d[|d| - 1].attributes == Bold
    requires e == BuildInsert(BuildInsert(BuildInsert(d, "D", None), "E", Bold), "F", None)
    ensures e == d + [Insert("D", None), Insert("E", Bold), Insert("F", None)]
    ensures ExpandAll(e) == Append(ExpandAll(d), Cons(UIns('D', None), Cons(UIns('E', Bold), Cons(UIns('F', None), Nil))))
  {
    var x: Op<char, Attributes> := Insert("D", None);
    var y: Op<char, Attributes> := Insert("E", Bold);
    var z: Op<char, Attributes> := Insert("F", None);
    PushApart(d, x);
    PushApart(d + [x], y);
    PushApart(d + [x] + [y], z);
    assert d + [x] + [y] + [z] == d + [x, y, z];
    ExpandAllAppend(d, [x, y, z]);
    assert [x, y, z][1..] == [y, z];
    ExpandAllPair(y, z);
  }

  lemma EndOptimizationJoinBuilt(a: Delta<char, Attributes>, b: Delta<char, Attributes>, expected: Delta<char, Attributes>)
    requires a == [Insert("A", Bold), Insert("B", None), Insert("C", Bold)] + [Insert("D", None), Insert("E", Bold), Insert("F", None)]
    requires ExpandAll(a) == Append(AbcUnits(Nil), Cons(UIns('D', None), Cons(UIns('E', Bold), Cons(UIns('F', None), Nil))))
    requires b == [Retain(1, None), Delete(1)]
    requires ExpandAll(b) == Append(Expand<char, Attributes>(Retain(1, None)), Expand<char, Attributes>(Delete(1)))
    requires expected == [Insert("AC", Bold)] + [Insert("D", None), Insert("E", Bold), Insert("F", None)]
    requires ExpandAll(expected) == Append(Expand<char, Attributes>(Insert("AC", Bold)), Cons(UIns('D', None), Cons(UIns('E', Bold), Cons(UIns('F', None), Nil))))
    ensures AllFit(a) && AllFit(b)
    ensures Compose(ComposeAttributes, a, b) == expected
  {
    var rest := Cons(UIns('D', None), Cons(UIns('E', Bold), Cons(UIns('F', None), Nil)));
    assert InsUnits("AC", Bold) == Cons(UIns('A', Bold), Cons(UIns('C', Bold), Nil));
    assert ExpandAll(a) == AbcUnits(rest);
    assert ExpandAll(b) == Cons(URet(None), Cons(UDel, Nil));
    assert ExpandAll(expected) == Cons(UIns('A', Bold), Cons(UIns('C', Bold), rest));
    assert ComposeUnits(ComposeAttributes, ExpandAll(a), ExpandAll(b)) == ExpandAll(expected);
    assert AllIns(ExpandAll(expected));
    NormalizeInserts(ExpandAll(expected));
    ComposeByUnits(ComposeAttributes, a, b, expected);
  }

  lemma InsertMidUnits()
    ensures var s := Some(());
      Normalize(ComposeUnits(ComposeUnit, InsUnits("Hello", s), Append(Repeat(3, URet(s)), InsUnits("X", s))))
      == InsUnits("HelXlo", s)
  {
    var s := Some(());
    var H, E, L, X, O := UIns('H', s), UIns('e', s), UIns('l', s), UIns('X', s), UIns('o', s);
    var R: Unit<char, ()> := URet(s);
    assert InsUnits("Hello", s) == Cons(H, Cons(E, Cons(L, Cons(L, Cons(O, Nil)))));
    assert InsUnits("HelXlo", s) == Cons(H, Cons(E, Cons(L, Cons(X, Cons(L, Cons(O, Nil))))));
    assert Append(Repeat(3, R), InsUnits("X", s)) == Cons(R, Cons(R, Cons(R, Cons(X, Nil))));
    var w := Cons(H, Cons(E, Cons(L, Cons(X, Cons(L, Cons(O, Nil))))));
    assert ComposeUnits(ComposeUnit, Cons(H, Cons(E, Cons(L, Cons(L, Cons(O, Nil))))), Cons(R, Cons(R, Cons(R, Cons(X, Nil))))) == w;
    InsUnitsKinds("HelXlo", s);
    NormalizeInserts(w);
  }

  lemma DeleteAllUnits()
    ensures var s := Some(());
      Normalize(ComposeUnits(ComposeUnit, Append(Repeat(4, URet(s)), InsUnits("Hello", s)), Repeat(9, UDel)))
      == Repeat<Unit<char, ()>>(4, UDel)
  {
    var s := Some(());
    var R: Unit<char, ()> := URet(s);
    var ins := InsUnits("Hello", s);
    InsUnitsKinds("Hello", s);
    assert Repeat(9, Unit<char, ()>.UDel) == Append(Repeat(4, UDel), Repeat(5, UDel)) by {
      RepeatAdd(4, 5, Unit<char, ()>.UDel);
    }
    DeletedRetains(4, ins, Repeat(5, UDel));
    InsertsDeleted(ins, 5);
    ComposeNilLeft(ComposeUnit, Repeat<Unit<char, ()>>(0, UDel));
    NormalizeDeletes<char, ()>(4);
  }

  /** Retained elements that are deleted become deletes, emitted in front. */
  lemma {:induction false} DeletedRetains(n: nat, X: List<Unit<char, ()>>, Y: List<Unit<char, ()>>)
    ensures ComposeUnits(ComposeUnit, Append(Repeat(n, URet(Some(()))), X), Append(Repeat(n, UDel), Y))
      == Append(Repeat(n, UDel), ComposeUnits(ComposeUnit, X, Y))
  {
    if n > 0 {
      DeletedRetains(n - 1, X, Y);
    }
  }

  /** Deleted inserts vanish. */
  lemma {:induction false} InsertsDeleted(X: List<Unit<char, ()>>, n: nat)
    requires AllIns(X) && Length(X) == n
    ensures ComposeUnits(ComposeUnit, X, Repeat(n, UDel)) == Nil
  {
    if n > 0 {
      InsertsDeleted(X.tail, n - 1);
    }
  }

  lemma {:induction false} NormalizeDeletes<T, A>(n: nat)
    ensures Normalize(Repeat(n, Unit<T, A>.UDel)) == Repeat(n, UDel)
  {
    if n > 0 {
      NormalizeDeletes<T, A>(n - 1);
    }
  }
}

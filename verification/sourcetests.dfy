/**
 * The end-to-end tests of `src/lib.rs`, each built with the same builder
 * calls as the test and shown to converge. The builders take
 * `impl Into<Option<A>>`, so `retain(5, ())` is a retain with attributes
 * `Some(())` and `retain(4, None)` one without.
 */
module SourceTests {
  import opened Wrappers
  import opened Ops
  import opened Deltas
  import opened Iters
  import opened Composition
  import opened Normalization
  import opened Convergence

  /** Convergence for deltas of text with the unit attribute. */
  lemma UnitConverges(before: Delta<char, ()>, alice: Delta<char, ()>, bob: Delta<char, ()>)
    requires AllFit(before) && AllFit(alice) && AllFit(bob)
    requires NoEmpty(before) && NoEmpty(alice) && NoEmpty(bob)
    requires InsertedLen(before) + InsertedLen(alice) + InsertedLen(bob) <= USIZE_MAX
    ensures EndToEndHolds(ComposeUnit, before, alice, bob)
  {
    UnitLaterWins();
    Converges(ComposeUnit, before, alice, bob);
  }

  /** Convergence for deltas of text with `LastWriteWins<usize>` attributes. */
  lemma LwwConverges(before: Delta<char, LastWriteWins<nat>>, alice: Delta<char, LastWriteWins<nat>>, bob: Delta<char, LastWriteWins<nat>>)
    requires AllFit(before) && AllFit(alice) && AllFit(bob)
    requires NoEmpty(before) && NoEmpty(alice) && NoEmpty(bob)
    requires InsertedLen(before) + InsertedLen(alice) + InsertedLen(bob) <= USIZE_MAX
    ensures EndToEndHolds(ComposeLww, before, alice, bob)
  {
    LwwLaterWins<nat>();
    Converges(ComposeLww, before, alice, bob);
  }

  /** `test_end_to_end`: Alice adds a comma, Bob an exclamation mark. */
  lemma HelloWorld(before: Delta<char, ()>, alice: Delta<char, ()>, bob: Delta<char, ()>)
    requires before == BuildInsert([], "Hello World", Some(()))
    requires alice == BuildInsert(BuildRetain([], 5, Some(())), ",", Some(()))
    requires bob == BuildInsert(BuildRetain([], 11, Some(())), "!", Some(()))
    ensures EndToEndHolds(ComposeUnit, before, alice, bob)
  {
    assert before == [Insert("Hello World", Some(()))];
    assert alice == [Retain(5, Some(())), Insert(",", Some(()))];
    assert bob == [Retain(11, Some(())), Insert("!", Some(()))];
    UnitConverges(before, alice, bob);
  }

  /** `test_end_to_end_insert_retain_1`: Alice retains far past the end of the document. */
  lemma RetainPastEnd(before: Delta<char, ()>, alice: Delta<char, ()>, bob: Delta<char, ()>)
    requires before == BuildInsert([], "0123456", Some(()))
    requires alice == BuildInsert(BuildRetain([], 1000, Some(())), "6", Some(()))
    requires bob == BuildInsert([], "ABCD", Some(()))
    ensures EndToEndHolds(ComposeUnit, before, alice, bob)
  {
    assert before == [Insert("0123456", Some(()))];
    assert alice == [Retain(1000, Some(())), Insert("6", Some(()))];
    assert bob == [Insert("ABCD", Some(()))];
    UnitConverges(before, alice, bob);
  }

  /** `test_end_to_end_insert_retain_2`: the document itself starts with a retain. */
  lemma RetainThenInsert(before: Delta<char, ()>, alice: Delta<char, ()>, bob: Delta<char, ()>)
    requires before == BuildInsert(BuildRetain([], 5, Some(())), "ABCD", Some(()))
    requires alice == BuildInsert(BuildRetain([], 5, Some(())), "ABCD", Some(()))
    requires bob == BuildInsert([], "ABC", Some(()))
    ensures EndToEndHolds(ComposeUnit, before, alice, bob)
  {
    assert before == [Retain(5, Some(())), Insert("ABCD", Some(()))];
    assert alice == before;
    assert bob == [Insert("ABC", Some(()))];
    UnitConverges(before, alice, bob);
  }

  /**
   * `test_end_to_end_insert_retain_3`: retains of `usize::MAX / 3` saturate
   * at `usize::MAX` when pushed, and Bob deletes `usize::MAX / 3` elements.
   */
  lemma SaturatedRetains(before: Delta<char, ()>, alice: Delta<char, ()>, bob: Delta<char, ()>)
    requires before == BuildRetain(BuildRetain(BuildRetain(BuildRetain(BuildRetain([],
      USIZE_MAX / 3, Some(())), USIZE_MAX / 3, Some(())), USIZE_MAX / 3, Some(())), USIZE_MAX / 3, Some(())), 1429, Some(()))
    requires alice == BuildInsert([], "Hello, World!", Some(()))
    requires bob == BuildDelete(BuildInsert([], "Hello, World!", Some(())), USIZE_MAX / 3)
    ensures EndToEndHolds(ComposeUnit, before, alice, bob)
  {
    SaturatedBuild(before);
    assert alice == [Insert("Hello, World!", Some(()))];
    assert bob == [Insert("Hello, World!", Some(())), Delete(USIZE_MAX / 3)];
    SaturatedConverges(before, alice, bob);
  }

  /** Four pushes of `usize::MAX / 3` fill one retain and spill into a second. */
  lemma SaturatedBuild(before: Delta<char, ()>)
    requires before == BuildRetain(BuildRetain(BuildRetain(BuildRetain(BuildRetain([],
      USIZE_MAX / 3, Some(())), USIZE_MAX / 3, Some(())), USIZE_MAX / 3, Some(())), USIZE_MAX / 3, Some(())), 1429, Some(()))
    ensures before == [Retain(USIZE_MAX, Some(())), Retain(USIZE_MAX / 3 + 1429, Some(()))]
  {
    var third := USIZE_MAX / 3;
    var r1: Delta<char, ()> := BuildRetain([], third, Some(()));
    assert r1 == [Retain(third, Some(()))];
    var r2 := BuildRetain(r1, third, Some(()));
    assert r2 == [Retain(2 * third, Some(()))];
    var r3 := BuildRetain(r2, third, Some(()));
    assert r3 == [Retain(USIZE_MAX, Some(()))];
    var r4 := BuildRetain(r3, third, Some(()));
    assert r4 == [Retain(USIZE_MAX, Some(())), Retain(third, Some(()))];
  }

  lemma SaturatedConverges(before: Delta<char, ()>, alice: Delta<char, ()>, bob: Delta<char, ()>)
    requires before == [Retain(USIZE_MAX, Some(())), Retain(USIZE_MAX / 3 + 1429, Some(()))]
    requires alice == [Insert("Hello, World!", Some(()))]
    requires bob == [Insert("Hello, World!", Some(())), Delete(USIZE_MAX / 3)]
    ensures EndToEndHolds(ComposeUnit, before, alice, bob)
  {
    assert InsertedLen(before[1..]) == 0;
    assert InsertedLen(before) == 0;
    assert InsertedLen(alice) == 13;
    assert InsertedLen(bob[1..]) == 0;
    assert InsertedLen(bob) == 13;
    UnitConverges(before, alice, bob);
  }

  /** `test_end_to_end_insert_retain_4`: Alice re-attributes past the end, Bob does nothing. */
  lemma AttributesPastEnd(before: Delta<char, LastWriteWins<nat>>, alice: Delta<char, LastWriteWins<nat>>, bob: Delta<char, LastWriteWins<nat>>)
    requires before == BuildInsert([], "Hello, World!", Some(LastWriteWins(42)))
    requires alice == BuildRetain([], 128, Some(LastWriteWins(1)))
    requires bob == []
    ensures EndToEndHolds(ComposeLww, before, alice, bob)
  {
    assert before == [Insert("Hello, World!", Some(LastWriteWins(42)))];
    assert alice == [Retain(128, Some(LastWriteWins(1)))];
    LwwConverges(before, alice, bob);
  }

  /** `test_end_to_end_insert_retain_5`: both re-attribute the same element of an empty document. */
  lemma ConflictingAttributes(before: Delta<char, LastWriteWins<nat>>, alice: Delta<char, LastWriteWins<nat>>, bob: Delta<char, LastWriteWins<nat>>)
    requires before == []
    requires alice == BuildRetain([], 1, Some(LastWriteWins(0)))
    requires bob == BuildRetain([], 1, Some(LastWriteWins(42)))
    ensures EndToEndHolds(ComposeLww, before, alice, bob)
  {
    assert alice == [Retain(1, Some(LastWriteWins(0)))];
    assert bob == [Retain(1, Some(LastWriteWins(42)))];
    LwwConverges(before, alice, bob);
  }

  /** `test_end_to_end_insert_retain_6`: a plain retain against a re-attributing one. */
  lemma PlainAgainstAttributed(before: Delta<char, LastWriteWins<nat>>, alice: Delta<char, LastWriteWins<nat>>, bob: Delta<char, LastWriteWins<nat>>)
    requires before == []
    requires alice == BuildRetain([], 4, None)
    requires bob == BuildRetain([], 100, Some(LastWriteWins(0)))
    ensures EndToEndHolds(ComposeLww, before, alice, bob)
  {
    assert alice == [Retain(4, None)];
    assert bob == [Retain(100, Some(LastWriteWins(0)))];
    LwwConverges(before, alice, bob);
  }
}

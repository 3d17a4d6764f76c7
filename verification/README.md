# Kyte operational transformation, modelled in Dafny

Kyte is a Rust library for operational transformation (OT) over Quill-style
deltas. A delta is a sequence of operations. Each operation inserts content,
retains a number of elements (optionally re-attributing them) or deletes a
number of elements. Two deltas compose into one delta with the same effect.
A delta can be rebased over a concurrent delta ("transform"). A cursor
position can be moved across a delta. The library's promise is convergence:
two users who apply their own edit and then the other's transformed edit end
with the same result.

This project models the core of the library as pure Dafny functions and
proves properties of them:

| file | module | source |
|---|---|---|
| `wrappers.dfy` | `Wrappers` | Rust's `Option` and `Option::or` |
| `ops.dfy` | `Ops` | `src/op.rs`, `src/ops.rs`: ops, lengths, splits |
| `deltas.dfy` | `Deltas` | `src/delta.rs`: `push`, `extend`, `from_iter`, `chop`, builders |
| `iters.dfy` | `Iters` | `src/iter.rs`: the partial-op iterator and `zip_mut` |
| `compose.dfy` | `Composition` | `src/compose.rs` |
| `transform.dfy` | `Transformation` | `src/transform.rs`, delta transform |
| `positions.dfy` | `Positions` | `src/transform.rs`, position transform |
| `lists.dfy` | `Lists` | inductive lists used by the element-level semantics |
| `units.dfy` | `Units` | element-level view of a delta: one unit per inserted, retained or deleted element |
| `canonical.dfy` | `Canonical` | the normal form of a unit sequence: deletes after adjacent inserts, no trailing plain retains |
| `algebra.dfy` | `Algebra` | composition and transformation element by element, and their algebra |
| `normalization.dfy` | `Normalization` | `push`, `extend` and `chop` compute the normal form, and normal deltas are determined by their units |
| `simulation.dfy` | `Simulation` | each op-pair rule, and the whole zip, compute the element-level operation |
| `convergence.dfy` | `Convergence` | the convergence theorem and the fuzz target |
| `sourcetests.dfy` | `SourceTests` | the end-to-end tests of `src/lib.rs` |
| `composetests.dfy` | `ComposeTests` | the composition tests of `src/compose.rs` |
| `pushtests.dfy` | `PushTests` | the `push` tests of `src/delta.rs` |

The convergence proof works element by element. A delta expands into units
(`Units.ExpandAll`); composition and transformation of deltas are shown to
compute element-level composition and transformation followed by the normal
form (`Simulation.ComposeExpand`, `Simulation.TransformExpand`). The
element-level operations converge (`Algebra.TransformConverges`), and a
delta produced by `push` and `chop` is determined by its units
(`Normalization.ExpandInjective`), so both users end with the same ops.

`usize` is modelled as `nat` bounded by `USIZE_MAX` (a 64-bit target). The
wrap-around of `overflowing_add` in `push` is written out. Attribute
composition (the `Compose` trait on attribute types) is passed in as a
function `combine`.

## Model

| member | source | states |
|---|---|---|
| `Ops.Split` | src/op.rs:79-93 | splitting clamps to the op's length; the two parts keep the kind and the attributes, their lengths add up, insert contents concatenate back; splitting past the end leaves an empty remainder |
| `Ops.SplitInsert` | src/ops.rs:69-83 | the first `n` elements (all of them when `n` is too large) are removed; both parts keep the attributes |
| `Ops.SplitRetain` | src/ops.rs:137-148 | the removed part has exactly `n`; the source requires `n` not to exceed the count |
| `Ops.SplitDelete` | src/ops.rs:183-189 | the removed part has exactly `n`; the source requires `n` not to exceed the count |
| `Ops.SplitBoth` | src/op.rs:15-23 | both ops lose a prefix of the same length, the shorter one is used up |
| `Ops.AsRetain` | src/ops.rs:52-57 | a retain over the insert's length, without attributes |
| `Ops.RetainOr` | src/ops.rs:121-128 | the receiver's count; its attributes when present, else the other's |
| `Ops.Len` | src/op.rs:42-53 | no contract of its own; `Units.ExpandLength` proves that it counts the elements the op covers |
| `Units.ExpandLength` | src/op.rs:42-53 | an op covers exactly `Len` elements: the inserted content, or the retained or deleted count |
| `Ops.DefaultOp` | src/op.rs:55-59 | the default op is an empty delete |
| `Deltas.OverflowingAdd` | src/delta.rs:110-119 | the wrapped sum and the overflow flag of `usize` addition |
| `Deltas.Merge` | src/delta.rs:90-144 | the ops that replace the last one keep the combined length; when two ops are left other than the pair as pushed, the sum of a retain or delete pair overflowed and the first is saturated at `usize::MAX` |
| `Deltas.Push` | src/delta.rs:80-146 | pushing an empty op leaves the delta unchanged; otherwise the result is non-empty; either way it stays `usize`-sized. What it holds is stated by `Normalization.PushExpand` and `Normalization.PushKeepsChunked` |
| `Deltas.PushTotalLen` | src/delta.rs:80-146 | pushing adds exactly the op's length to the delta's total |
| `Deltas.PushKeepsNormal` | src/delta.rs:80-146 | pushing never stores an empty op and never leaves an insert directly after a delete |
| `Deltas.Extend` | src/delta.rs:149-160 | extending keeps every op `usize`-sized; what it holds is stated by `Normalization.ExtendExpand` and `Deltas.ExtendTotalLen` |
| `Deltas.ExtendTotalLen` | src/delta.rs:149-160 | extending adds exactly the pushed ops' total length |
| `Deltas.FromIter` | src/delta.rs:162-175 | the collected delta has no empty op, no insert right after a delete, and the total length of its input |
| `Deltas.Chop` | src/delta.rs:60-70 | the result is a prefix; everything removed is a retain without attributes; the last op kept is not one |
| `Deltas.BuildInsert` | src/delta.rs:28-35 | the builder adds the content's length |
| `Deltas.BuildRetain` | src/delta.rs:41-48 | the builder adds the count |
| `Deltas.BuildDelete` | src/delta.rs:51-54 | the builder adds the count |
| `Iters.NewIter` | src/iter.rs:18-23 | a new iterator holds exactly the given ops, with no partial op in front |
| `Iters.NextMut` | src/iter.rs:29-37 | hands out a non-empty partial op, otherwise loads the next op into the partial slot; `None` exactly when nothing is left |
| `Iters.Next` | src/iter.rs:67-72 | yields the non-empty partial op first, then the underlying ops; `None` exactly when nothing is left |
| `Iters.Drain` | src/iter.rs:67-72 | draining with `next` yields exactly what the iterator still holds |
| `Iters.Zip` | src/iter.rs:45-57 | stops only when one side is exhausted; produces at least one output when both sides hold ops |
| `Composition.ComposeLww` | src/compose.rs:45-51 | no contract of its own; `Convergence.LwwLaterWins` proves for all values that the later one wins |
| `Composition.ComposeUnit` | src/compose.rs:53-59 | no contract of its own; `Convergence.UnitLaterWins` proves for all values that the later one wins |
| `Composition.ComposeOption` | src/compose.rs:61-75 | two present values compose, a single one is kept, two absent stay absent |
| `Composition.ComposeOptionLww` | src/compose.rs:45-51 | with last-write-wins values the later present attribute wins |
| `Composition.ComposeOptionAssociative` | src/compose.rs:61-75 | option composition is associative when the attribute composition is |
| `Composition.ComposeOp` | src/compose.rs:77-191 | the nine op-pair rules of composition |
| `Composition.ComposeStepShrinks` | src/compose.rs:200-210 | each compose step consumes input and stays within `usize`, so the zip ends |
| `Composition.Compose` | src/compose.rs:193-211 | the composed delta is `usize`-sized and does not end in a plain retain |
| `Transformation.TransformOp` | src/transform.rs:40-203 | the nine op-pair rules of transformation, with priority deciding equal-position inserts and retain attributes |
| `Transformation.TransformStepShrinks` | src/transform.rs:212-222 | each transform step consumes input and stays within `usize`, so the zip ends |
| `Transformation.Transform` | src/transform.rs:205-223 | the rebased delta is `usize`-sized and does not end in a plain retain |
| `Positions.TransformIndex` | src/transform.rs:225-261 | the corrected position transform equals the element-level cursor shift |
| `Positions.TransformIndexAsWritten` | src/transform.rs:225-261 | the source's loop, `None` where a debug build panics (`index - offset` underflows, or `index +=` / `offset +=` passes `usize::MAX`); without deletes, and with the cursor plus the delta's length within `usize`, it gives a position |
| `Positions.PendingStep` | src/transform.rs:238-255 | one iteration of the loop keeps the cursor's eventual position unchanged |
| `Positions.InsertBeforePosition` | src/transform.rs:266-272 | an insert before the cursor moves it by one, with or without priority, in both versions |
| `Positions.InsertAfterPosition` | src/transform.rs:274-280 | an insert after the cursor leaves it, with or without priority, in both versions |
| `Positions.InsertAtPosition` | src/transform.rs:282-288 | an insert at the cursor leaves it with priority and moves it without, in both versions |
| `Positions.AsWrittenUnderflows` | src/transform.rs:238-255 | the source's guard lets `index - offset` underflow on a concrete delta |
| `Positions.AsWrittenOverflows` | src/transform.rs:243-251 | `offset +=` passes `usize::MAX` on a concrete delta (retain 5, retain `usize::MAX`, insert "x", cursor 10), which the source does not guard |
| `Positions.AsWrittenStopsEarly` | src/transform.rs:238-255 | the source's guard stops before an insert at the cursor on a concrete delta |
| `Normalization.MergeExpand` | src/delta.rs:90-144 | merging the last op with a pushed one keeps the elements of both, in order, also when the sum overflows and spills into a second op |
| `Normalization.MergeChunked` | src/delta.rs:90-144 | the merged ops start with the last op's kind and attributes, and two of them are left side by side only when the first is full at `usize::MAX` |
| `Normalization.PushExpand` | src/delta.rs:80-146 | pushing appends the op's elements, with an insert moved in front of the deletes at the end (delete-then-insert equals insert-then-delete) |
| `Normalization.ExtendExpand` | src/delta.rs:149-160 | extending pushes each op in order |
| `Normalization.ChopExpand` | src/delta.rs:60-70 | chopping removes exactly the trailing retained elements without attributes |
| `Normalization.PushKeepsChunked` | src/delta.rs:80-146 | after a push, neighbouring ops could not be merged further, unless the first is a retain or delete full at `usize::MAX` |
| `Normalization.AssembleExpand` | src/compose.rs:193-211 | extending with the step outputs and the leftovers and then chopping gives a normal delta holding the normal form of those elements |
| `Normalization.ExpandInjective` | src/delta.rs:80-146 | two normal deltas with the same elements are equal op for op |
| `Normalization.FitsByInsertedLen` | src/ops.rs:52-57 | when the inserted content fits in memory, every op's length fits in `usize` |
| `Algebra.ComposeAssociative` | src/compose.rs:77-191 | element-level composition is associative whenever attribute composition is |
| `Algebra.ComposeNormal` | src/delta.rs:80-146 | composing the normal forms has the same normal form as composing the originals |
| `Algebra.TransformConverges` | src/transform.rs:40-203 | element level: X then Y rebased over X with priority, and Y then X rebased over Y without, have the same normal form |
| `Algebra.ComposePlainRetainsRight` | src/compose.rs:77-191 | element level: composing with any number of plain retains changes nothing after normalisation |
| `Algebra.ComposeInsCount` | src/compose.rs:77-191 | element level: composition inserts no more elements than both sides together |
| `Algebra.TransformInsCount` | src/transform.rs:40-203 | a rebased delta inserts no more elements than the original |
| `Simulation.ComposeOpExpand` | src/compose.rs:77-191 | each of the nine rules emits the element-level composition of the prefix it consumes |
| `Simulation.TransformOpExpand` | src/transform.rs:40-203 | each of the nine rules emits the element-level transformation of the prefix it consumes |
| `Simulation.ZipSimulates` | src/iter.rs:45-57 | zipping with a step that simulates an element-level operation computes that operation on the consumed elements |
| `Simulation.ComposeExpand` | src/compose.rs:193-211 | `Compose for Delta` is a normal delta whose elements are the normal form of the element-level composition |
| `Simulation.TransformExpand` | src/transform.rs:205-223 | `Transform for Delta` is a normal delta whose elements are the normal form of the element-level transformation |
| `Convergence.UnitLaterWins` | src/compose.rs:53-59 | composing `()` keeps the later value |
| `Convergence.LwwLaterWins` | src/compose.rs:45-51 | composing `LastWriteWins` keeps the later value |
| `Convergence.ComposeInsertedLen` | src/compose.rs:193-211 | the composed delta inserts no more elements than both inputs together |
| `Convergence.TransformInsertedLen` | src/transform.rs:205-223 | the rebased delta inserts no more elements than the original |
| `Convergence.FromIterInsertedLen` | src/delta.rs:162-175 | collecting ops keeps the inserted content |
| `Convergence.ComposeDeltasAssociative` | src/compose.rs:193-211 | `Compose for Delta` is associative on deltas without empty ops whenever attribute composition is, and every intermediate delta fits in `usize` |
| `Convergence.ComposeRetainIdentity` | src/compose.rs:193-211 | composing a normal delta with a single plain retain of any length, longer than the document or not, gives the delta back |
| `Convergence.Converges` | fuzz/fuzz_targets/end_to_end.rs:15-25 | for every attribute composition in which the later value wins: every intermediate delta fits in `usize`, and both users end with equal deltas |
| `Convergence.EndToEnd` | fuzz/fuzz_targets/end_to_end.rs:11-25 | three deltas with `LastWriteWins<usize>` attributes, normalised by `from_iter`, converge |
| `SourceTests.HelloWorld` | src/lib.rs:67-84 | the deltas built in `test_end_to_end` converge |
| `SourceTests.RetainPastEnd` | src/lib.rs:86-103 | the deltas built in `test_end_to_end_insert_retain_1` converge |
| `SourceTests.RetainThenInsert` | src/lib.rs:105-122 | the deltas built in `test_end_to_end_insert_retain_2` converge |
| `SourceTests.SaturatedBuild` | src/lib.rs:126-131 | four retains of `usize::MAX / 3` saturate one retain at `usize::MAX` and spill the rest into a second one, which absorbs the fifth |
| `SourceTests.SaturatedRetains` | src/lib.rs:124-148 | the deltas built in `test_end_to_end_insert_retain_3` converge |
| `SourceTests.AttributesPastEnd` | src/lib.rs:150-167 | the deltas built in `test_end_to_end_insert_retain_4` converge |
| `SourceTests.ConflictingAttributes` | src/lib.rs:169-186 | the deltas built in `test_end_to_end_insert_retain_5` converge |
| `SourceTests.PlainAgainstAttributed` | src/lib.rs:188-205 | the deltas built in `test_end_to_end_insert_retain_6` converge |
| `ComposeTests.ComposeAttributes` | src/compose.rs:213-236 | no contract of its own: the test attributes, where a later `bold` flag wins over an earlier one |
| `ComposeTests.ComposeByUnits` | src/compose.rs:193-211 | a normal delta holding the normal form of the composed elements is the composed delta |
| `ComposeTests.InsertInsert` | src/compose.rs:238-244 | "A" composed with "B" is "BA" |
| `ComposeTests.InsertRetain` | src/compose.rs:246-252 | "A" composed with retain 1 is "A" |
| `ComposeTests.InsertDelete` | src/compose.rs:254-260 | "A" composed with delete 1 is empty |
| `ComposeTests.RetainInsert` | src/compose.rs:262-273 | a bold retain of 1 composed with a plain insert "A" is the insert followed by the bold retain |
| `ComposeTests.RetainRetain` | src/compose.rs:275-281 | a plain retain of 1 composed with a bold retain of 2 is the bold retain of 2 |
| `ComposeTests.RetainDelete` | src/compose.rs:283-289 | retain 1 composed with delete 1 is delete 1 |
| `ComposeTests.DeleteInsert` | src/compose.rs:291-300 | delete 1 composed with insert "B" is the insert followed by the delete |
| `ComposeTests.DeleteRetain` | src/compose.rs:302-311 | delete 1 composed with a bold retain of 1 is the delete followed by the bold retain |
| `ComposeTests.DeleteDelete` | src/compose.rs:313-319 | delete 1 composed with delete 2 is delete 3 |
| `ComposeTests.InsertMid` | src/compose.rs:321-327 | "Hello" composed with retain 3 and insert "X" is "HelXlo" |
| `ComposeTests.DeleteAll` | src/compose.rs:329-335 | retain 4 and insert "Hello" composed with delete 9 is delete 4 |
| `ComposeTests.OverRetain` | src/compose.rs:337-343 | "Hello" composed with retain 10 is "Hello" |
| `ComposeTests.StartOptimization` | src/compose.rs:345-363 | bold "A", plain "B", bold "C" and a delete, composed with retain 3 and insert "D", keeps the three inserts apart and puts "D" before the delete |
| `ComposeTests.StartOptimizationSplit` | src/compose.rs:365-386 | with a retain of 5 between the inserts and the delete, the insert "D" after 4 elements splits it into retains of 1 and 4 |
| `ComposeTests.EndOptimization` | src/compose.rs:388-402 | bold "A", plain "B", bold "C" composed with delete 1 is plain "B" then bold "C" |
| `ComposeTests.EndOptimizationJoin` | src/compose.rs:404-423 | deleting the plain "B" between bold "A" and bold "C" merges them into one bold insert "AC" |
| `PushTests.InsertInsertSame` | src/delta.rs:195-210 | inserts with equal attributes concatenate |
| `PushTests.InsertInsertDiff` | src/delta.rs:212-234 | inserts with different attributes stay apart |
| `PushTests.InsertRetain` | src/delta.rs:236-258 | a retain after an insert is appended |
| `PushTests.InsertDelete` | src/delta.rs:260-276 | a delete after an insert is appended |
| `PushTests.RetainInsert` | src/delta.rs:278-300 | an insert after a retain is appended |
| `PushTests.RetainRetainSame` | src/delta.rs:302-317 | retains with equal attributes add up |
| `PushTests.RetainRetainDiff` | src/delta.rs:319-341 | retains with different attributes stay apart |
| `PushTests.RetainDelete` | src/delta.rs:343-359 | a delete after a retain is appended |
| `PushTests.DeleteInsert` | src/delta.rs:361-377 | an insert pushed after a delete is stored before it |
| `PushTests.DeleteRetain` | src/delta.rs:379-395 | a retain after a delete is appended |
| `PushTests.DeleteDelete` | src/delta.rs:397-403 | deletes add up |
| `PushTests.Overflow` | src/delta.rs:405-434 | retains of `usize::MAX - 4` and 8 give a retain of `usize::MAX` and a retain of 4 |

## Left out

- Serialisation (serde) and the `Arbitrary` derivations: they do not affect the operations.
- `src/seq.rs`: content is a Dafny `seq<T>` and its length is `|s|`.
- Memory limits: insert content is unbounded in the model. `Compose` and `Transform` require every op's length, inserts included, to fit in `usize` (`AllFit`); in the source this holds because the content is in memory. The convergence lemmas derive it from the inserted content fitting in memory (`Normalization.FitsByInsertedLen`).
- `Positions.TransformIndex`: the `index += insert.len()` and `offset +=` additions are neither wrapped nor checked at `usize::MAX`; the corrected position transform is stated on unbounded naturals. `Positions.TransformIndexAsWritten` returns `None` where they overflow.
- `Convergence.Converges`: proved only when the later attribute value always wins, as for `()` and `LastWriteWins`, not for an arbitrary `Compose` implementation on attributes.
- `Convergence.Converges`: requires that no input holds an empty op and that the inserted content of the three deltas together fits in memory (at most `usize::MAX` elements). Every delta built with `push` has no empty op.
- `Convergence.EndToEnd`: requires the inserted content to fit in memory. How the fuzzer generates its inputs (`Arbitrary`) is not modelled.

## Findings

| source | as written | input that shows it | evidently intended | confidence | as-written member | corrected member |
|---|---|---|---|---|---|---|
| src/transform.rs:238 | the loop stops when `offset > rhs`, comparing against the original index | delete 3, retain 3, delete 1 with the cursor at 5: `index - offset` is `2 - 3` and underflows | stop when `offset > index`, as Quill's `transformPosition` does; the result is then 2 | high (not executed) | `Positions.AsWrittenUnderflows` | `Positions.TransformIndex` |
| src/transform.rs:238 | same guard | insert "AB", retain 1, insert "C" with the cursor at 1 and no priority gives 3 | 4: the insert at the cursor goes before it without priority | high (not executed) | `Positions.AsWrittenStopsEarly` | `Positions.TransformIndex` |

# CEL runtime core in Dafny

A verified model of the part of the CEL (Common Expression Language) C++
runtime that evaluates comprehensions (`all`, `exists`, `map`, `filter`,
...) and of the value layer those steps move around:

- **The comprehension step machine.** The `ComprehensionNextStep`,
  `ComprehensionCondStep`, `ComprehensionFinish` and `ListKeysStep`
  instructions run over an execution frame. The frame holds the evaluator
  stack, the comprehension slots, the program counter and the iteration
  budget. Each instruction is a specification function from the state
  before to the outcome and state after. The frame's `Evaluate` methods are
  proved to follow them, and the lemmas state what each branch promises.
  On top of that, the whole loop (Next, Cond, loop step, jump back) is
  proved to compute a left fold of the loop step over the range. It
  either leaves the fold in place of its five-entry window or fails with
  `ResourceExhausted` exactly when the iteration budget is too small.
  This theorem takes the loop condition to be the constant `true` and
  list append to be off (as for `map`). Loops that short-circuit, such as
  `all` and `exists`, are covered only step by step, by the Cond lemmas.
- **The evaluator stack.** This is a class holding two parallel stacks:
  values and attribute trails. Every operation states its whole new state.
- **Value handles** (`base_internal::ValueHandle`). Each handle stores a
  value inline, or points to an arena object or a reference-counted heap
  object. The model covers copy, move, destroy, the reference-count
  protocol, handle equality and `Value::Equals` per kind.
- **Attribute trails.** These record the path of qualifiers from a
  variable.
- **The list and map value contracts.** This covers `Get`, `Has` and
  `ListKeys`, the map iterator, the common `MapValueInterface` (`IsEmpty`,
  `Find`, `Get`, `Has`, `ForEach`), handle swap, and `MapValueBuilder`.
- **Map types.** `DebugString`, `Equals` and the hash state.
- **Wrapper types.** The well-known wrapper type names and their aliases.
- **`ValueInterface` defaults.** The defaults used when a value does not
  override serialization, type URLs or JSON conversion.

Statuses are a `Status(code, message)` datatype with the `absl::StatusCode`
values used by the code. `StatusOr<T>` is a `Success`/`Failure` datatype.

## Model

| member | source | states |
|---|---|---|
| Comprehensions.NextUnderflow | eval/eval/comprehension_step.cc:95-97 | Next on a stack shallower than five entries fails with Internal "Value stack underflow" and changes nothing |
| Comprehensions.NextRangeNotList | eval/eval/comprehension_step.cc:102-112 | a range that is not a list replaces the window by itself (error/unknown) or a no-matching-overload error for `<iter_range>`, and jumps to the error target |
| Comprehensions.NextIndexNotInt | eval/eval/comprehension_step.cc:116-121 | an index that is not an int fails with Internal and leaves the state untouched |
| Comprehensions.NextOverBudget | eval/eval/comprehension_step.cc:121 | with a budget, a Next beyond it fails with ResourceExhausted after counting the iteration |
| Comprehensions.NextBreaks | eval/eval/comprehension_step.cc:135-145 | at or past the last element, the window is replaced by the loop step, the accumulator slot gets it with an empty trail, the iteration slot is cleared, and control jumps to the exit |
| Comprehensions.EmptyRangeBreaksAtOnce | eval/eval/comprehension_step.cc:135-145 | an empty range with the initial index -1 exits on the first Next, leaving the initial accumulator |
| Comprehensions.NextContinues | eval/eval/comprehension_step.cc:123-158 | before the last element, Next pushes the loop step, range, next index and element, sets both slots (the iteration slot with the stepped trail when unknowns are on), leaves every other slot, and counts one iteration |
| Comprehensions.NextNegativeIndexFails | eval/eval/comprehension_step.cc:146-152 | an index below -1 becomes a huge size_t and the element access fails with OutOfRange |
| Comprehensions.NextKeepsBelowWindow | eval/eval/comprehension_step.cc:87-159 | Next never touches the stack below its five-entry window |
| Comprehensions.CondNotBool | eval/eval/comprehension_step.cc:186-200 | a non-bool condition replaces the window by itself or a no-matching-overload error for `<loop_condition>`, clears both slots, and jumps to the error target |
| Comprehensions.CondContinues | eval/eval/comprehension_step.cc:202-208 | true, or false without short-circuiting, pops only the condition and falls through |
| Comprehensions.CondShortCircuits | eval/eval/comprehension_step.cc:202-207 | false with short-circuiting pops condition, value, index and range, and jumps to the exit |
| Comprehensions.FinishReplacesTwo | eval/eval/comprehension_step.cc:219-237 | Finish replaces the two top entries by the result with an empty trail and clears the accumulator slot |
| Comprehensions.FinishBuildsList | eval/eval/comprehension_step.cc:225-234 | with list append on, a mutable list is replaced by the built list, and a build failure is returned after the pop |
| Comprehensions.ListKeysIgnoresNonMaps | eval/eval/comprehension_step.cc:274-282 | ListKeys leaves a non-map top untouched |
| Comprehensions.ListKeysReplacesMap | eval/eval/comprehension_step.cc:252-272 | a map on top is replaced, at the same height, by the merged unknown when unknowns are on and one is identified; otherwise a ListKeys error is returned with the state unchanged, or the map is replaced by a list holding exactly its keys |
| Comprehensions.Jump | eval/eval/comprehension_step.cc:141-144 | a jump succeeds iff the target lies on the path, moves the pc by the offset, and changes nothing else |
| Comprehensions.Increment | eval/eval/comprehension_step.cc:121 | counting an iteration fails with ResourceExhausted iff a budget is set and exceeded |
| Comprehensions.Propagate | eval/eval/comprehension_step.cc:102-111 | errors and unknowns pass through; anything else becomes a no-matching-overload error |
| Comprehensions.NoMatchingOverload | eval/eval/comprehension_step.cc:109-110 | an error value with code Unknown, as raised for a bad range or condition |
| Comprehensions.NextSpec | eval/eval/comprehension_step.cc:87-159 | Next keeps the state well formed and the slot count; its branches are stated by the Next lemmas |
| Comprehensions.Advance | eval/eval/comprehension_step.cc:121-158 | the part of Next after the type checks keeps the state well formed and the slot count |
| Comprehensions.CondSpec | eval/eval/comprehension_step.cc:182-209 | Cond keeps the state well formed and the slot count; its branches are stated by the Cond lemmas |
| Comprehensions.FinishSpec | eval/eval/comprehension_step.cc:219-237 | Finish keeps the state well formed and the slot count; see FinishReplacesTwo and FinishBuildsList |
| Comprehensions.ListKeysSpec | eval/eval/comprehension_step.cc:252-282 | ListKeys keeps the state well formed and the slot count; see the ListKeys lemmas |
| Comprehensions.ToSizeT | eval/eval/comprehension_step.cc:149-152 | the int64-to-size_t cast keeps non-negative values and sends negative ones to at least 2^63 |
| Comprehensions.ExecutionFrame.constructor | eval/eval/comprehension_step.cc:28-47 | a frame starts with the given stack, all slots empty, pc 0 and no iterations |
| Comprehensions.ExecutionFrame.JumpTo | eval/eval/comprehension_step.cc:141-144 | the frame's new state and status are exactly Jump's |
| Comprehensions.ExecutionFrame.IncrementIterations | eval/eval/comprehension_step.cc:121 | the frame's new state and status are exactly Increment's |
| Comprehensions.ExecutionFrame.SetSlot | eval/eval/comprehension_step.cc:156-157 | only the given slot changes, to the value and trail |
| Comprehensions.ExecutionFrame.ClearSlot | eval/eval/comprehension_step.cc:235 | only the given slot changes, to empty |
| Comprehensions.ExecutionFrame.EvaluateNext | eval/eval/comprehension_step.cc:87-159 | the imperative Next over the stack and slots yields exactly NextSpec's status and state |
| Comprehensions.ExecutionFrame.AdvanceWindow | eval/eval/comprehension_step.cc:121-158 | the part of Next after the type checks yields exactly Advance's status and state |
| Comprehensions.ExecutionFrame.EvaluateCond | eval/eval/comprehension_step.cc:182-209 | the imperative Cond yields exactly CondSpec's status and state |
| Comprehensions.ExecutionFrame.EvaluateFinish | eval/eval/comprehension_step.cc:219-237 | the imperative Finish yields exactly FinishSpec's status and state |
| Comprehensions.ExecutionFrame.EvaluateListKeys | eval/eval/comprehension_step.cc:252-282 | the imperative ListKeys yields exactly ListKeysSpec's status and state |
| ComprehensionLoops.Round | eval/eval/comprehension_step.cc:28-47 | one round of Next, Cond on `true` and the loop step keeps the state well formed and the slot count, and asks to continue only with a Pass outcome |
| ComprehensionLoops.RunLoop | eval/eval/comprehension_step.cc:28-47 | running rounds until Next exits or fails keeps the state well formed and the slot count |
| ComprehensionLoops.FoldLeftStep | eval/eval/comprehension_step.cc:36-47 | folding from element j equals folding the rest from the step applied to j |
| ComprehensionLoops.NextMovesOn | eval/eval/comprehension_step.cc:123-158 | within budget and before the last element, Next succeeds with the explicit next window |
| ComprehensionLoops.RoundAdvances | eval/eval/comprehension_step.cc:36-47 | one round (Next, Cond on true, loop step) keeps range and lower stack, advances the index, folds one element into the top, and the rest of the loop runs from there |
| ComprehensionLoops.NextStopsLoop | eval/eval/comprehension_step.cc:87-159 | when Next fails or exits, the loop's result is Next's |
| ComprehensionLoops.LoopBreaks | eval/eval/comprehension_step.cc:135-145 | at the last element the loop exits at once with the top of the window as accumulator |
| ComprehensionLoops.FoldedStep | eval/eval/comprehension_step.cc:36-47 | what the loop leaves from the advanced window is what it leaves from the current one |
| ComprehensionLoops.LoopFolds | eval/eval/comprehension_step.cc:36-47 | within budget, the loop leaves FoldLeft of the loop step over the remaining elements in place of its window and in the accumulator slot, clears the iteration slot, exits, and counts one iteration per Next |
| ComprehensionLoops.LoopExhaustsBudget | eval/eval/comprehension_step.cc:121 | when the remaining Next steps exceed the budget, the loop fails with ResourceExhausted |
| ComprehensionLoops.ComprehensionFolds | eval/eval/comprehension_step.cc:28-47 | a whole comprehension from its initial layout leaves FoldLeft(step, init, range) in place of its five entries with both slots cleared |
| EvaluatorStacks.CoerceNull | eval/eval/evaluator_stack.h:163-176 | a null becomes the null struct value; anything else is unchanged; the result is never null |
| EvaluatorStacks.EvaluatorStack.constructor | eval/eval/evaluator_stack.h:23-26 | a new stack is empty with capacity max_size |
| EvaluatorStacks.EvaluatorStack.Size | eval/eval/evaluator_stack.h:29-38 | size() and attribute_size() are the heights of both stacks |
| EvaluatorStacks.EvaluatorStack.IsEmpty | eval/eval/evaluator_stack.h:35 | empty iff both stacks are empty |
| EvaluatorStacks.EvaluatorStack.HasEnough | eval/eval/evaluator_stack.h:41 | true iff both stacks hold at least `size` entries |
| EvaluatorStacks.EvaluatorStack.GetSpan | eval/eval/evaluator_stack.h:49-56 | the top `size` values, deepest first, ending in Peek |
| EvaluatorStacks.EvaluatorStack.GetAttributeSpan | eval/eval/evaluator_stack.h:61-64 | the top `size` trails, deepest first, ending in PeekAttribute |
| EvaluatorStacks.EvaluatorStack.Peek | eval/eval/evaluator_stack.h:68-73 | the top value of a non-empty stack |
| EvaluatorStacks.EvaluatorStack.PeekAttribute | eval/eval/evaluator_stack.h:77-82 | the top trail of a non-empty stack |
| EvaluatorStacks.EvaluatorStack.Pop | eval/eval/evaluator_stack.h:86-97 | removes exactly the top `size` entries of both stacks (HasEnough required) |
| EvaluatorStacks.EvaluatorStack.Push | eval/eval/evaluator_stack.h:100-119 | appends the value and the trail; nothing else changes |
| EvaluatorStacks.EvaluatorStack.PushValue | eval/eval/evaluator_stack.h:102-104 | appends the value with an empty trail |
| EvaluatorStacks.EvaluatorStack.PopAndPush | eval/eval/evaluator_stack.h:143-149 | replaces the top value and trail; height unchanged |
| EvaluatorStacks.EvaluatorStack.PopAndPushValue | eval/eval/evaluator_stack.h:129-131 | replaces the top value, with an empty trail |
| EvaluatorStacks.EvaluatorStack.Reserve | eval/eval/evaluator_stack.h:152-158 | contents unchanged; capacity grows to min(size, max_size) if smaller |
| EvaluatorStacks.EvaluatorStack.CoerceNullValues | eval/eval/evaluator_stack.h:163-176 | the top `size` values are coerced element-wise, the rest and the trails unchanged, and the result says whether any null was found |
| EvaluatorStacks.EvaluatorStack.Clear | eval/eval/evaluator_stack.h:44 | both stacks become empty; capacity is kept |
| EvaluatorStacks.PushThenPop | eval/eval/evaluator_stack_test.cc:52-74 | a push followed by Pop(1) restores both stacks, which keep the same height |
| EvaluatorStacks.PushPopScenario | eval/eval/evaluator_stack_test.cc:22-49 | pushing 1, 2, 3 and peeking while popping sees 3, 2, 1 and the matching trails |
| EvaluatorStacks.CoerceTwice | eval/eval/evaluator_stack.h:163-176 | a second coercion finds no null, and no null remains in the coerced span |
| AttributeTrails.EmptyTrail | eval/eval/attribute_trail.h:26 | the default trail is empty |
| AttributeTrails.FromVariable | eval/eval/attribute_trail.h:28-29 | a trail from a variable is non-empty, with that variable and no qualifiers |
| AttributeTrails.GetAttribute | eval/eval/attribute_trail.h:40 | a non-empty trail's attribute is the one it holds |
| AttributeTrails.Step | eval/eval/attribute_trail.h:32 | stepping keeps emptiness and the variable, and appends the qualifier |
| AttributeTrails.StepString | eval/eval/attribute_trail.h:35-37 | the string overload steps with a string qualifier |
| AttributeTrails.StepAllRecordsPath | eval/eval/attribute_trail.h:32 | stepping through qualifiers appends all of them in order |
| AttributeTrails.StepAllEmpty | eval/eval/attribute_trail.h:42 | stepping an empty trail leaves it empty |
| AttributeTrails.StepInjective | eval/eval/attribute_trail.h:32 | different qualifiers give different trails |
| Values.TypeOf | base/value.cc:47-86 | a well-typed value's type has the value's kind |
| Values.KindEquals | base/value.cc:131-215 | Value::Equals per kind: nulls are equal, unknowns compare their sets, opaques by address; lists, maps and structs are unequal when one is stored inline and the other not, compare by implementation when both are inline, and by address only when both are on the heap |
| Values.KindEqualsPayload | base/value.cc:133-169 | for the payload kinds (bool, int, uint, string, bytes, enum, duration, timestamp, error, type) equality is equality of the values; doubles are equal iff equal and not NaN |
| Values.KindEqualsCopies | base/value.cc:131-215 | a value equals its copy at another address unless it is a NaN double, an opaque value, or a list, map or struct stored on the heap (those compare by address) |
| Values.KindEqualsSymmetric | base/value.cc:131-215 | value equality is symmetric |
| Values.NatToDecimal | base/value.cc:88-127 | the decimal rendering is digits without a leading zero |
| Values.DecimalRoundTrip | base/value.cc:88-127 | reading back the decimal rendering gives the number |
| Values.IntDebugStringRoundTrip | base/value.cc:88-127 | the int rendering parses back to the int |
| Values.UintDebugString | base/value.cc:88-127 | a uint renders with a trailing `u` |
| Values.DebugStringDelimiters | base/value.cc:88-127 | null renders as `null`; a map renders in braces, as `{}` when it has no entries |
| Values.ElementStrings | base/value.cc:88-127 | one rendering per list element |
| Values.EntryStrings | base/value.cc:88-127 | one rendering per map entry |
| ValueHandles.Heap.Unref | base/value.cc:460-464 | one reference released; the object is freed with its last reference |
| ValueHandles.Heap.Delete | base/value.cc:430-458 | the object (of a deletable kind) leaves the heap; nothing else changes |
| ValueHandles.HandleEquals | base/value.cc:217-228 | same pointer implies equal; null vs non-null unequal; otherwise the kinds must match and Value::Equals decides |
| ValueHandles.HandleEqualsSymmetric | base/value.cc:217-228 | handle equality is symmetric |
| ValueHandles.CopiesEqual | base/value.cc:217-228 | a handle equals its copy unless it holds an inline NaN |
| ValueHandles.NaNCopiesDiffer | base/value.cc:217-228 | two handles holding NaN are unequal |
| ValueHandles.UnknownHandlesEqual | base/value.cc:131-215 | unknown handles are equal iff their attribute and function sets are |
| ValueHandles.RefsAfterCopy | base/value.cc:230-294 | copying a counted handle adds exactly one reference to its object |
| ValueHandles.AfterUnref | base/value.cc:460-464 | unref decrements, and frees object and count exactly when it was the last |
| ValueHandles.CopyThenUnrefRestores | base/value.cc:230-294 | copy then destroy restores the heap |
| ValueHandles.RefsAfterCopyValid | base/value.cc:230-294 | copying keeps the heap consistent |
| ValueHandles.UnrefKeepsValid | base/value.cc:460-464 | unref keeps the heap consistent |
| ValueHandles.ValueHandle.Equals | base/value.cc:217-228 | a handle equals itself; null vs non-null unequal |
| ValueHandles.ValueHandle.CopyFrom | base/value.cc:230-294 | the destination gets the source's data and a counted object one more reference |
| ValueHandles.ValueHandle.MoveFrom | base/value.cc:296-364 | the destination gets the source's data; the source becomes null; counts unchanged |
| ValueHandles.ValueHandle.Destruct | base/value.cc:378-428 | a counted object loses one reference; null, inline and arena data leave the heap as it is |
| ValueHandles.ValueHandle.CopyAssign | base/value.cc:366-370 | destroy then copy: the destination holds the source's data, and the heap is AfterDestruct of the old heap and data with one more reference for a counted source |
| ValueHandles.ValueHandle.MoveAssign | base/value.cc:372-376 | destroy then move: the destination holds the source's data, the source is null, and the heap is AfterDestruct of the old heap and data |
| ValueHandles.AfterDestruct | base/value.cc:378-428 | destroying counted heap data is AfterUnref of its object; null, inline and arena data leave the heap unchanged; the heap stays consistent |
| ValueHandles.AssignSharedObjectKeepsHeap | base/value.cc:366-370 | copy-assigning a handle over another reference to the same counted object, with at least two references, leaves objects and counts as they were |
| ValueHandles.AssignOverLastReferenceDeletes | base/value.cc:372-376 | assigning over the last reference to a counted object removes the object and its count, and only it |
| ValueHandles.CopyAssignThenEquals | base/value_test.cc:502-510 | after copy-assignment the handles are equal unless the value is an inline NaN |
| ListValues.Is | base/values/list_value.h:64 | Is holds exactly for list values |
| ListValues.Size | base/values/list_value.h:45 | the number of elements |
| ListValues.Empty | base/values/list_value.h:47 | empty iff there are no elements |
| ListValues.Get | base/values/list_value.h:49-50 | succeeds iff the index is in range, with that element; otherwise OutOfRange |
| ListValues.TypeIsCreationType | base/values/list_value.h:41-53 | a list's type is the one it was created with, its kind ListKind |
| ListValues.EmptyIffNoElement | base/values/list_value.h:45-47 | empty iff element 0 is out of range |
| ListValues.DebugStringShape | base/value_test.cc:2218-2222 | the rendering is bracketed, and `[]` for an empty list |
| ListValues.DebugStringExample | base/value_test.cc:2218-2222 | the list of ints 0 to 5 renders as `[0, 1, 2, 3, 4, 5]` |
| MapValues.Is | base/values/map_value.h:56 | Is holds exactly for map values |
| MapValues.LegacyIs | base/values/map_value.h:174-178 | a legacy map is a map stored inline |
| MapValues.AbstractIs | base/values/map_value.h:231-235 | an abstract map is a map stored on the heap |
| MapValues.LegacyAbstractPartition | base/values/map_value.h:174-235 | a map is exactly one of legacy or abstract |
| MapValues.LegacyIsStoredInline | base/values/map_value.h:215-216 | legacy maps are stored inline and equal to their copies |
| MapValues.KeysOf | base/values/map_value.h:109-110 | the keys of the entries, in order |
| MapValues.Lookup | base/values/map_value.h:87-91 | finds a value iff the key is present, and then a stored entry |
| MapValues.LookupFindsEntry | base/values/map_value.h:87-91 | with distinct keys, each stored key finds its own value |
| MapValues.Size | base/values/map_value.h:248 | with distinct keys, the number of distinct keys |
| MapValues.KeySet | base/values/map_value.h:248 | the keys held are exactly the listed keys |
| MapValues.DistinctKeysCount | base/values/map_value.h:248 | with distinct keys there are as many keys as entries |
| MapValues.Empty | base/values/map_value.h:250 | empty iff there are no entries |
| MapValues.EmptyIffNoKeys | base/values/map_value.h:250 | empty iff no key finds a value |
| MapValues.Get | base/values/map_value.h:87-91 | an error iff the key's kind is neither the map's key kind nor a dyn key type (InvalidArgument, as the test map gives); otherwise the stored value, or none for an absent key |
| MapValues.Has | base/values/map_value.h:95-96 | the same key check and error as Get; otherwise whether the key is present |
| MapValues.HasAgreesWithGet | base/value_test.cc:2378-2401 | Has and Get fail together, and Has is true iff Get finds a value |
| MapValues.ListKeys | base/values/map_value.h:109-110 | fails exactly when the key listing reports an error, with that status; otherwise a list typed by the key type holding exactly the map's keys, one per entry |
| MapValues.ListKeysAgreesWithHas | base/values/map_value.h:95-110 | a key is listed iff Has says true |
| MapValues.Iterator.constructor | base/values/map_value.h:141-156 | a new iterator is before the first entry |
| MapValues.Iterator.HasNext | base/values/map_value.h:147 | true iff entries remain after the cursor |
| MapValues.Iterator.Next | base/values/map_value.h:141-156 | the entry under the cursor, which advances; FailedPrecondition at the end |
| MapValues.Iterator.NextKey | base/values/map_value.h:141-156 | the key under the cursor; FailedPrecondition at the end |
| MapValues.Iterator.NextValue | base/values/map_value.h:141-156 | the value under the cursor; FailedPrecondition at the end |
| MapValues.CollectKeys | base/value_test.cc:2415-2425 | iterating to the end yields exactly the key set, then FailedPrecondition |
| MapValues.KeysOfAppend | base/values/map_value.h:109-110 | keys of appended entries are appended keys |
| CommonMapValues.MapValueInterface.Size | common/values/map_value.h:80 | with distinct keys, the number of distinct keys |
| CommonMapValues.MapValueInterface.IsEmpty | common/values/map_value.h:77-80 | empty iff size 0 iff no key finds a value |
| CommonMapValues.MapValueInterface.Find | common/values/map_value.h:92-93 | error/unknown keys are handed back; unsupported key kinds fail; otherwise the stored value and true, or null and false |
| CommonMapValues.MapValueInterface.Get | common/values/map_value.h:85-86 | error/unknown keys are handed back; unsupported kinds fail; otherwise the stored value or a no-such-key error |
| CommonMapValues.MapValueInterface.Has | common/values/map_value.h:96 | error/unknown keys are handed back; unsupported kinds fail; otherwise a bool saying whether the key is present |
| CommonMapValues.MapValueInterface.ForEach | common/values/map_value.h:102-112 | visits entries in order while the callback returns true, stopping at the first false or error and returning that error |
| CommonMapValues.CheckKey | common/values/map_value.h:70 | bool, int, uint and string keys pass; others are InvalidArgument |
| CommonMapValues.HasAgreesWithFind | common/values/map_value.h:92-96 | for a valid key Has is Find's found flag |
| CommonMapValues.MapValueHandle.Swap | common/values/map_value.h:191-194 | the two handles exchange their maps |
| CommonMapValues.SwapTwiceRestores | common/values/map_value.h:209 | swapping twice restores both handles |
| CommonMapValues.InsertOrAssign | common/values/map_value.h:441 | the size grows by one iff the key was new |
| CommonMapValues.InsertOrAssignLookup | common/values/map_value.h:441 | after Put the key finds the new value and every other key is unaffected |
| CommonMapValues.InsertOrAssignDistinct | common/values/map_value.h:441 | Put keeps keys distinct |
| CommonMapValues.MapValueBuilder.constructor | common/values/map_value.h:433-434 | a new builder has the map type and no entries |
| CommonMapValues.MapValueBuilder.Size | common/values/map_value.h:451 | the number of distinct keys put |
| CommonMapValues.MapValueBuilder.IsEmpty | common/values/map_value.h:449-451 | empty iff size 0 |
| CommonMapValues.MapValueBuilder.Put | common/values/map_value.h:441 | the entries become InsertOrAssign of the old ones; keys stay distinct |
| CommonMapValues.MapValueBuilder.Reserve | common/values/map_value.h:453 | changes nothing observable; the builder stays valid |
| CommonMapValues.MapValueBuilder.Build | common/values/map_value.h:455 | a fresh map value with the builder's type and entries, keys distinct |
| CommonMapValues.BuildEmpty | common/value_provider_test.cc:78-86 | an empty built map is empty and renders as `{}` |
| CommonMapValues.PutDistinctKeysSize | common/values/map_value.h:441-451 | putting n new distinct keys grows the size by n |
| ValueInterfaces.Unserializable | common/value_interface.cc:31-35 | FailedPrecondition with "<type> is unserializable" |
| ValueInterfaces.DefaultGetSerializedSize | common/value_interface.cc:31-35 | the default size is the unserializable error |
| ValueInterfaces.SerializeTo | common/value_interface.cc:37-41 | the override's result, else the unserializable error |
| ValueInterfaces.Serialize | common/value_interface.cc:43-48 | fails iff SerializeTo does, with its status, otherwise its bytes |
| ValueInterfaces.GetTypeUrl | common/value_interface.cc:51-55 | the override's URL for the prefix, else the unserializable error |
| ValueInterfaces.ConvertToAny | common/value_interface.cc:58-63 | succeeds iff both serialization and the type URL do, packing them; otherwise the first error |
| ValueInterfaces.ConvertToJson | common/value_interface.cc:65-68 | the override, else FailedPrecondition "<type> is not convertable to JSON" |
| ValueInterfaces.NoOverridesConvertToAny | common/value_interface.cc:58-63 | without overrides, ConvertToAny and the size report the same unserializable error |
| ValueInterfaces.SerializeWithoutTypeUrl | common/value_interface.cc:43-63 | serializable without a URL: Serialize succeeds, ConvertToAny fails |
| ValueInterfaces.ConvertToAnyPacks | common/value_interface.cc:58-63 | with both overrides, the Any holds the URL and the bytes |
| ValueInterfaces.DefaultMessagesDiffer | common/value_interface.cc:31-68 | the JSON error differs from the unserializable one |
| Types.WrappedType | base/types/wrapper_type.cc:65-83 | a wrapper type wraps the primitive of its kind, and its name is that primitive's wrapper name |
| Types.MapTypeDebugString | base/types/map_type.cc:23-26 | `map(K, V)` from the key and value renderings |
| Types.DebugStringShape | base/type_test.cc:612-704 | every type renders as its name; list and map types follow it with their parameters in parentheses |
| Types.MapTypeEquals | base/types/map_type.cc:28-34 | equal iff the other is a map type with equal key and value |
| Types.HashState | base/types/map_type.cc:36-40 | the hash state ends in the base part of the type |
| Types.BaseDeterminesHead | base/types/map_type.cc:36-40 | the base part determines list-ness, map-ness and other types outright |
| Types.HashStateSuffixUnique | base/type_test.cc:788-820 | the hash state of a type is a uniquely decodable suffix |
| Types.ListHashSuffixUnique | base/types/map_type.cc:36-40 | the same for list types |
| Types.MapHashSuffixUnique | base/types/map_type.cc:36-40 | the same for map types |
| Types.MapTypeHashInjective | base/types/map_type.cc:36-40 | equal hash states mean equal key and value types |
| Types.MapTypeOrderMatters | base/type_test.cc:417-422 | map(string, bool) and map(bool, string) are unequal and hash differently |
| Types.MapTypeDebugStringExample | base/type_test.cc:699-704 | map(string, bool) renders as `map(string, bool)` |
| WrapperTypes.Name | base/types/wrapper_type.cc:31-49 | every wrapper name is `google.protobuf.` followed by a name ending in `Value` |
| WrapperTypes.Aliases | base/types/wrapper_type.cc:51-63 | only double, int and uint have an alias, one each, distinct from the name |
| WrapperTypes.Wrapped | base/types/wrapper_type.cc:65-83 | the wrapped kind is wrappable and has the same wrapper name |
| WrapperTypes.WrapperForName | base/types/wrapper_type.cc:85-101 | a resolved name is that kind's name or alias |
| WrapperTypes.NamesAndAliasesResolve | base/types/wrapper_type.cc:31-101 | every name and alias resolves back to its kind |
| WrapperTypes.NameInjective | base/types/wrapper_type.cc:31-49 | different wrappers have different names |

## Left out

- ExecutionFrame.JumpTo and IncrementIterations: evaluator_core.h is not part of this model. JumpTo fails with Internal when the target is outside the path. IncrementIterations treats a budget of 0 as unlimited and fails with ResourceExhausted when the count exceeds the budget.
- The comprehension slot offsets (`slot_offset + kComprehensionSlotsIterOffset/AccuOffset`) are given directly as slot indices.
- AttributeTrails.Step: attribute_trail.cc is not part of this model. Stepping is modelled as appending the qualifier to a non-empty trail.
- MapValueBuilder.Put is modelled as insert-or-assign. The builder implementation's duplicate-key policy is not part of this model.
- CommonMapValues.CheckKey: map_value.cc is not part of this model. Bool, int, uint and string are the accepted key kinds. The message text is not modelled.
- MapValues.Get and Has: the implementations are not part of this model; the header only says an incompatible key type gives an error. The key check (same kind as the map's key type, or a dyn key type) and the InvalidArgument code follow the header comment and the test map in base/value_test.cc, and no other implementation failure is modelled.
- MapValueInterface.Get, Find and Has: map_value.cc is not part of this model. The no-such-key error is an error value. The message texts are left out.
- Comprehensions.NoMatchingOverload: the status code of CreateNoMatchingOverloadError is not visible here and is modelled as Unknown.
- AttributeUtility::IdentifyAndMergeUnknowns and MutableListValue::Build: their bodies are not part of this model. They are parameters of Config.
- Values.DebugString: doubles, durations, timestamps and string escaping are supplied by the `leaf` parameter. Only ints, uints, bools, lists and maps are rendered by the model.
- Values.KindEquals: the string and bytes representations (inline, cord, pointer) are collapsed to their contents.
- ValueHandles: the pointer tag bits (kind and locality masked into `data_`) are modelled as the Data datatype.
- EvaluatorStacks: stack entries are values, not handles, so reference counting is not modelled on the stack.
- Comprehensions.Advance: Next compares the index with `static_cast<int64_t>(size) - 1`. The model compares it with the mathematical `size - 1`. The two differ only for lists of 2^63 or more elements, where the cast wraps. NextContinues, NextNegativeIndexFails and the loop lemmas require at most 2^63 - 1 elements (MaxListSize). Within that bound, `current_index + 1` does not overflow either.
- ListKeys failure: `MapValue::ListKeys` is not part of this model beyond its contract. Whether it fails is the `listKeysFailure` parameter of Config, and ListKeys returns that status.
- Types.DebugString: the list and simple-type renderings live in files that are not part of this model (list_type.cc, the simple type templates). They are modelled after MapType::DebugString and the debug-string tests: `list(E)` for lists and the bare name otherwise.
- ExecutionFrame.constructor: evaluator_core.h, where the frame and its constructor are defined, is not part of this model. The row cites the comprehension layout comment in comprehension_step.cc instead.
- ValueHandles.ValueHandle.CopyFrom, MoveFrom, CopyAssign and MoveAssign require distinct handles. The self-assignment guard of handle.h is not part of this model.
- Types.HashState: the absl hash of the base type is modelled as its kind and name.
- ListValues.Get: the message of the out-of-range error is not modelled, only its code.
- MapValueBuilder.Build: the builder is not consumed by Build.
- CommonMapValues.MapValueBuilder.Reserve ensures only that nothing changes and the builder stays valid, because the capacity of the builder's storage is not modelled.
- EvaluatorStacks.EvaluatorStack.Clear: evaluator_stack.cc is not part of this model. Clearing empties both stacks and keeps the capacity.
- MapValues.ListKeys: the key type of a map whose type is not a map type falls back to the dynamic type. Whether listing fails is a parameter, since the implementations of ListKeys are not part of this model.
- ComprehensionLoops.RunLoop: runs at most `fuel + 1` rounds. The lemmas give it exactly the rounds the range needs, so a fuel bound stands in for the unbounded jump back.
- ValueHandles.CopiesEqual: equality is not reflexive for an inline NaN double in two handles. The model follows the code here.

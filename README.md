# mockingbird, modelled in Dafny

mockingbird is a Babel plugin with a run-time helper. The plugin rewrites an
ES module that opts in, so that a test can replace any of the module's
top-level bindings, whether exported or not, and put them back afterwards.

A module opts in by exporting a variable called `mockingbird`, for example
`export let mockingbird;`. The plugin then does three things:

* It turns every top-level `const` declaration into `let`, so that the
  bindings can be reassigned. Nested `const`s and the marker itself stay
  as they are.
* It replaces the first marker export with an exported control object. That
  object carries two lists: the module's top-level binding names, and the
  subset declared with `var` or `let`.
* It leaves the whole file alone when the file does not opt in, or when it
  carries a `mockingbird-ignore` comment.

The control object is a registry. It provides:

* `mock` and `unmock`, which swap a binding for a substitute and back,
  keeping the originals in a cache;
* `unmockAll`;
* `resetMock` and `resetAllMocks`, which call `mockReset()` on mocked values
  that have one;
* `save` and `restore`, which keep a stack of restoration points per name;
* `saveAll` and `restoreAll`, which act over the mutable names.

The project has four modules.

* `Names` (`names.dfy`): the shared names. These are the binding-name type,
  the reserved names `mockingbird` and `default`, and a no-duplicates
  predicate.
* `RegistryModel` (`registry_model.dfy`): the registry as a state machine
  of pure functions over a `State` value.
  * Each operation returns an `Outcome`, which holds the JavaScript result
    or the error it throws, together with the new state.
  * The state holds the module's local bindings and its `exports` object,
    which `_set` writes.
  * The lemmas relate operations to each other: a mock/unmock round trip,
    last-in-first-out save/restore, `restoreAll` going back to the oldest
    point, and validity kept by every operation.
* `Registry` (`registry.dfy`): the same registry as the mutable object the
  source builds. Class `Mockingbird` has one field per piece of state.
  Every method is proved to return and leave exactly what the matching
  `RegistryModel` function says. The bulk operations are loops over the
  cache order or over the mutable names, with invariants tying them to
  those functions.
* `Transform` (`transform.dfy`): the plugin.
  * The opt-in and ignore tests are predicates on the source text.
  * The binding lists are functions of the module's scope table.
  * The three visitor callbacks are a pure step function `VisitStatement`,
    folded over the program body by `Run`.
  * Class `PluginState` holds the plugin's per-file state (`ignore`,
    `injected`, `bindings`, `mutables`). Its methods are the visitor
    callbacks. `Traverse` walks an `array` of top-level statements and
    rewrites it in place.
  * The lemmas state what the whole pass does:
    * an ignored file is unchanged;
    * exactly the first marker export becomes the control object;
    * at most one control object is injected;
    * top-level `const`s become `let`s;
    * the plugin's own test cases come out as expected.

Some inputs are parameters of the model, not computations in it:
* the text of the file, which Babel's `path.getSource()` gives;
* the scope table, which Babel's `path.scope.bindings` gives;
* the substitute that `mock` installs, which defaults to a fresh `jest.fn()`;
* the values of the bindings that `eval` reads and writes.

The program itself treats `default` as the export slot: `mock` reads
`exports.default` (src/mockingbird.ts:121) and `_set` writes it without
touching a local variable (src/mockingbird.ts:104-109). `_reset` evaluates
`typeof default`, which cannot be evaluated. `Reset`, `ResetMock` and
`ResetAllMocks` (and the class methods of the same names) model the corrected
`_reset`, which reads the export slot as `mock` does. The `...AsWritten`
functions model the code as it stands. The same split is made for `save`,
whose own local `const value` hides a module binding named `value`. Both are
recorded under "## Findings".

## Model

| member | source | states |
|---|---|---|
| RegistryModel.SetBinding | src/mockingbird.ts:104-109 | `_set(n, v)`: the local binding `n` becomes `v` unless `n` is `default`, and the export slot `n` becomes `v` only if `exports` already has it. No other binding, export or registry field changes, and the same names stay defined. |
| RegistryModel.ReadOriginal | src/mockingbird.ts:121 | Reading the original fails with `Unresolvable` exactly when `n` is neither `default` nor a resolvable identifier. `default` reads the export slot (undefined when it is absent); any other name reads its local binding. |
| RegistryModel.Mock | src/mockingbird.ts:116-126 | Succeeds exactly when `n` is not cached and is `default` or resolvable. A repeat mock throws `AlreadyMocked`, and an unresolvable name throws, both with the state untouched. On success it returns the substitute, caches the original, appends `n` to the cache order and writes the substitute through `_set`. |
| RegistryModel.MockKeepsValid | src/mockingbird.ts:116-126 | `mock` keeps the registry invariant: the mutables are distinct resolvable names, the cache order lists each cached name once, cached names are resolvable, and names with restoration points are resolvable. |
| RegistryModel.Without | src/mockingbird.ts:135 | Removing `n` from the cache order keeps exactly the other names, keeps them free of duplicates, and is the identity when `n` is absent. |
| RegistryModel.WithoutAppended | src/mockingbird.ts:122-135 | Removing a name just appended to an order that lacked it gives the old order back. |
| RegistryModel.Unmock | src/mockingbird.ts:127-138 | Succeeds exactly when `n` is cached, and otherwise throws `NotMocked` with the state untouched. On success it returns the cached original, writes it back through `_set`, and drops `n` from the cache and from its order. |
| RegistryModel.UnmockKeepsValid | src/mockingbird.ts:127-138 | `unmock` keeps the registry invariant. |
| RegistryModel.UnmockEach | src/mockingbird.ts:140-142 | The `forEach` of `_set` calls changes only bindings and export slots, and defines no new ones. |
| RegistryModel.UnmockEachPutsBack | src/mockingbird.ts:140-142 | After putting back each listed cached name: every local binding whose name in the list is not `default` holds its cached original. Every export slot in the list holds its cached original. All other bindings and slots are unchanged. |
| RegistryModel.UnmockAll | src/mockingbird.ts:139-145 | `unmockAll` empties the cache and its order. Every cached binding and export slot gets its original back, and nothing else changes. |
| RegistryModel.UnmockAllKeepsValid | src/mockingbird.ts:139-145 | `unmockAll` keeps the registry invariant. |
| RegistryModel.Reset | src/mockingbird.ts:110-114 | `_reset(n)` (corrected): records one `mockReset()` call on the live value of `n` when that value is defined and has a callable `mockReset`, and records nothing otherwise. Only the record of calls changes. |
| RegistryModel.LiveValue | src/mockingbird.ts:112 | The value `_reset` inspects is the value `mock` reads as the original when that read succeeds, and `undefined` (what `typeof` gives for an undeclared name) when it fails. |
| RegistryModel.ResetMock | src/mockingbird.ts:146-152 | `resetMock` (corrected) succeeds exactly when `n` is cached, and otherwise throws `NotMocked` with the state untouched. On success it resets the live value of `n` and changes nothing else. |
| RegistryModel.ResetLogContents | src/mockingbird.ts:153-157 | Resetting a list of names calls `mockReset()` at most once per name. Every value reset is resettable and is the live value of a listed name. Every listed name whose live value is resettable is reset. |
| RegistryModel.ResetEach | src/mockingbird.ts:154-156 | Resetting a list of names only appends calls to the record of `mockReset()` calls. |
| RegistryModel.ResetLogReadsBindingsOnly | src/mockingbird.ts:110-114 | Which values get reset depends only on the bindings and exports, not on the cache or the restoration points. |
| RegistryModel.ResetAllMocks | src/mockingbird.ts:153-157 | `resetAllMocks` (corrected) resets the cached names in cache order and changes nothing else. |
| RegistryModel.ResetsKeepValid | src/mockingbird.ts:146-157 | Recording `mockReset()` calls does not disturb the registry invariant. |
| RegistryModel.ResetAsWritten | src/mockingbird.ts:110-114 | `_reset` as written throws exactly when `n` is `default` (`typeof default` is a syntax error) or its live value is `null` (`typeof null.mockReset` is a TypeError). In every other case it is the corrected `_reset`. |
| RegistryModel.ResetEachAsWritten | src/mockingbird.ts:154-156 | The `forEach` of as-written `_reset` calls only appends to the record of `mockReset()` calls, and the first throw ends it. |
| RegistryModel.ResetAllMocksAsWritten | src/mockingbird.ts:153-157 | `resetAllMocks` as written changes nothing but the record of `mockReset()` calls, which it only extends. |
| RegistryModel.ResetMockAsWritten | src/mockingbird.ts:146-152 | `resetMock` as written succeeds exactly when `n` is cached and `_reset` does not throw on it. A failure leaves the state untouched. Whenever `_reset` does not throw it agrees with the corrected `resetMock`. |
| RegistryModel.ResetEachAsWrittenFails | src/mockingbird.ts:153-157 | Resetting a list as written fails exactly when some listed name is `default` or holds `null`. When none does, it leaves the same state as the corrected version. |
| RegistryModel.AsWrittenResetAllMocksFails | src/mockingbird.ts:153-157 | `resetAllMocks` as written throws exactly when `default` is mocked or a mocked name holds `null`. Otherwise it agrees with the corrected version. |
| RegistryModel.AsWrittenResetMockOfDefaultFails | src/mockingbird.ts:110-114 | A concrete input: after `mock('default', m)` succeeds, the as-written `resetMock('default')` throws, and the corrected one resets `m`. |
| RegistryModel.AsWrittenResetMockOfNullFails | src/mockingbird.ts:110-116 | A concrete input: `mock(x, null)` installs `null`, because a default parameter replaces only `undefined`. The as-written `resetMock(x)` then throws a TypeError; the corrected one succeeds and resets nothing. |
| RegistryModel.Save | src/mockingbird.ts:159-170 | `save(n)` always creates an empty stack for `n` if it is missing. It succeeds exactly when `n` is resolvable, and then returns the current value and pushes it onto that stack. Otherwise it throws `Unresolvable` after creating the stack. Only the stacks change. |
| RegistryModel.SaveKeepsValid | src/mockingbird.ts:159-170 | `save` keeps the registry invariant. |
| RegistryModel.Restore | src/mockingbird.ts:171-182 | `restore(n)` throws `NoStack` when `n` was never saved, and `NoRestorationPoints` when its stack is empty, with the state untouched in both cases. Otherwise it pops the newest point, writes it through `_set` and returns it. |
| RegistryModel.RestoreKeepsValid | src/mockingbird.ts:171-182 | `restore` keeps the registry invariant. |
| RegistryModel.SaveEachPushes | src/mockingbird.ts:184-186 | Saving a duplicate-free list of resolvable names pushes exactly one point, the current value, onto the stack of each listed name. Every other stack is unchanged. |
| RegistryModel.SaveEach | src/mockingbird.ts:184-186 | The loop of `save` calls changes only the restoration stacks, and keeps every stack with points resolvable. |
| RegistryModel.SaveAll | src/mockingbird.ts:183-187 | `saveAll` pushes the current value of each mutable onto its stack, creating stacks as needed. It changes nothing else, including the bindings. |
| RegistryModel.SaveAllKeepsValid | src/mockingbird.ts:183-187 | `saveAll` keeps the registry invariant. |
| RegistryModel.SaveAsWritten | src/mockingbird.ts:159-170 | `save(n)` as written fails for `value`, the name of its own local `const`, after creating the stack. For any other name it is `Save`. It succeeds exactly when `n` is not `value` and is resolvable. |
| RegistryModel.SaveEachAsWritten | src/mockingbird.ts:184-186 | The loop of as-written `save` calls changes only the stacks; the first throw ends it. |
| RegistryModel.SaveAllAsWritten | src/mockingbird.ts:183-187 | `saveAll` as written changes only the stacks. |
| RegistryModel.SaveEachAsWrittenFails | src/mockingbird.ts:183-187 | For a list of resolvable names, the as-written loop fails exactly when the list contains `value`. Without `value` it leaves the same state as the corrected loop. |
| RegistryModel.AsWrittenSaveAllFails | src/mockingbird.ts:183-187 | `saveAll` as written throws exactly when a mutable binding is named `value`. Otherwise it agrees with the corrected `saveAll`. |
| RegistryModel.AsWrittenSaveAllOfValueFails | src/mockingbird.ts:165 | A concrete module with one mutable, `let value`: the as-written `saveAll` throws a ReferenceError, and the corrected one pushes the binding's value. |
| RegistryModel.RestoreOldest | src/mockingbird.ts:189-196 | One step of `restoreAll` for `n`: when its stack is non-empty, the oldest point is written back through `_set` and the stack emptied. Otherwise nothing changes. |
| RegistryModel.RestoreEach | src/mockingbird.ts:189-197 | The loop of `restoreAll` changes only bindings, export slots and stacks, defines no new names, and keeps stacks with points resolvable. |
| RegistryModel.RestoreEachRestoresOldest | src/mockingbird.ts:189-196 | For a list of names: each listed name with points gets its oldest point back in the binding and export slot, each listed stack ends empty, and everything else is unchanged. |
| RegistryModel.RestoreAll | src/mockingbird.ts:188-198 | `restoreAll` never throws, even before any save. Each mutable with points gets its oldest point back and its stack emptied. Non-mutable names are not touched. |
| RegistryModel.RestoreAllKeepsValid | src/mockingbird.ts:188-198 | `restoreAll` keeps the registry invariant. |
| RegistryModel.MockTwiceFails | src/mockingbird.ts:117-119 | Mocking the same name twice in a row throws `AlreadyMocked` the second time, and the state is unchanged. |
| RegistryModel.MockKeepsCacheResolvable | src/mockingbird.ts:116-126 | Every cached name stays `default` or resolvable after a mock. |
| RegistryModel.MockUnmockRoundTrip | src/mockingbird.ts:116-138 | `unmock` after a successful `mock` returns the original and restores the cache, its order and the local binding. The export slot `n`, if present, holds the original value read through the local name. |
| RegistryModel.MockUnmockRestoresState | src/mockingbird.ts:116-138 | When the export slot and the local binding agree (as they do in a transpiled module), `mock` followed by `unmock` returns the original and gives back exactly the starting state. |
| RegistryModel.SaveThenAssignPushes | src/mockingbird.ts:159-170 | Saving before each of several assignments pushes the starting value and then all but the last assigned value. The binding ends at the last one. |
| RegistryModel.RestoreTimesPops | src/mockingbird.ts:171-182 | Restoring k times from a stack whose top k points were pushed returns those points newest first. The stack is left as it was below them, and the binding ends at the oldest of them. |
| RegistryModel.SaveRestoreLifo | src/mockingbird.ts:159-182 | Save-then-assign repeated k times, then restore k times, returns the saved values in reverse order. It puts the stack and the binding back to where they started. |
| RegistryModel.RestoreAllVersusRestore | src/mockingbird.ts:171-198 | After several saves, `restore` gives back the newest point, but `restoreAll` gives back the oldest one (the value before the first save) and empties the stack. |
| RegistryModel.SaveAllRestoreAllRoundTrip | src/mockingbird.ts:183-198 | `saveAll`, then any reassignment of the bindings, then `restoreAll`, returns every mutable to its value at `saveAll` and leaves its stack empty. |
| RegistryModel.SaveKeepsStacksResolvable | src/mockingbird.ts:183-187 | After `saveAll` every name with points is resolvable, whatever the bindings are later set to. |
| RegistryModel.BulkOperationsOnFreshRegistry | src/mockingbird.ts:139-198 | On a registry with no mocks and no saves, `unmockAll`, `resetAllMocks` and `restoreAll` do nothing and do not throw. |
| Registry.Mockingbird.constructor | src/mockingbird.ts:201-220 | The object as the template builds it: the given name lists, an empty cache and no restoration points, satisfying the registry invariant. |
| Registry.Mockingbird.SetBinding | src/mockingbird.ts:104-109 | The object's new state is `RegistryModel.SetBinding` of its old state. |
| Registry.Mockingbird.Reset | src/mockingbird.ts:110-114 | The object's new state is `RegistryModel.Reset` of its old state. |
| Registry.Mockingbird.Mock | src/mockingbird.ts:116-126 | Returns the result and leaves the state of `RegistryModel.Mock`, and keeps the invariant. |
| Registry.Mockingbird.Unmock | src/mockingbird.ts:127-138 | Returns the result and leaves the state of `RegistryModel.Unmock`, and keeps the invariant. |
| Registry.Mockingbird.UnmockAll | src/mockingbird.ts:139-145 | The loop over the cache order leaves the state of `RegistryModel.UnmockAll`, and keeps the invariant. |
| Registry.Mockingbird.ResetMock | src/mockingbird.ts:146-152 | Returns the result and leaves the state of the corrected `RegistryModel.ResetMock`, and keeps the invariant. |
| Registry.Mockingbird.ResetAllMocks | src/mockingbird.ts:153-157 | The loop over the cache order leaves the state of the corrected `RegistryModel.ResetAllMocks`. |
| Registry.Mockingbird.Save | src/mockingbird.ts:159-170 | Returns the result and leaves the state of `RegistryModel.Save`, and keeps the invariant. |
| Registry.Mockingbird.Restore | src/mockingbird.ts:171-182 | Returns the result and leaves the state of `RegistryModel.Restore`, and keeps the invariant. |
| Registry.Mockingbird.SaveAll | src/mockingbird.ts:183-187 | The loop over the mutables leaves the state of `RegistryModel.SaveAll`, and keeps the invariant. |
| Registry.Mockingbird.RestoreOldest | src/mockingbird.ts:189-196 | One iteration of `restoreAll` leaves the state of `RegistryModel.RestoreOldest`. |
| Registry.Mockingbird.RestoreAll | src/mockingbird.ts:188-198 | The loop over the mutables leaves the state of `RegistryModel.RestoreAll`, and keeps the invariant. |
| Transform.NoXNoOptIn | src/mockingbird.ts:21 | A file with no letter `x` cannot opt in. |
| Transform.OptIn | src/mockingbird.ts:21 | The opt-in test: `export `, an optional `declare `, one of `const `/`let `/`var ` and `mockingbird` occur in a row somewhere in the text. |
| Transform.HasIgnoreToken | src/mockingbird.ts:23 | The ignore test: a white-space character followed by `mockingbird-ignore` and then the end of the text or a character that is not a word character. |
| Transform.NoDashNoIgnoreToken | src/mockingbird.ts:23 | A file with no `-` cannot carry the ignore comment. |
| Transform.NamesOf | src/mockingbird.ts:26 | The scope's names, one per binding and in scope order. |
| Transform.BindingNames | src/mockingbird.ts:26 | `state.bindings` is no longer than the scope and never lists `mockingbird`. |
| Transform.MutableNames | src/mockingbird.ts:27-29 | `state.mutables` is no longer than the scope and never lists `mockingbird`. |
| Transform.BindingNamesMembers | src/mockingbird.ts:26 | A name is in `_bindings` exactly when it is a scope binding other than `mockingbird`. |
| Transform.BindingNamesDistinct | src/mockingbird.ts:26 | `_bindings` has no duplicates when the scope's names are distinct. |
| Transform.MutableNamesMembers | src/mockingbird.ts:27-29 | A name is in `_mutables` exactly when it is not `mockingbird` and is bound by `var` or `let`. |
| Transform.MutableNamesDistinct | src/mockingbird.ts:27-29 | `_mutables` has no duplicates when the scope's names are distinct. |
| Transform.MutablesWithinBindings | src/mockingbird.ts:26-29 | Every mutable name is also a binding name. |
| Transform.Enter | src/mockingbird.ts:18-30 | `Program.enter` sets `ignore` exactly when the file does not opt in or carries the ignore token. It leaves `injected` alone. It produces name lists without `mockingbird`, with the mutables inside the bindings, and both duplicate-free for a scope with distinct names. |
| Transform.RewriteDeclaration | src/mockingbird.ts:32-43 | A declaration changes exactly when the file is not ignored, it is a `const`, its first declarator is not the identifier `mockingbird`, and its parent is the program or a named export. The only change is `const` to `let`. |
| Transform.RewriteAll | src/mockingbird.ts:32-43 | Each declaration in a list is rewritten on its own, keeping the length. |
| Transform.NestedUntouched | src/mockingbird.ts:41-42 | Declarations nested below the top level are never rewritten. |
| Transform.BuildControlObject | src/mockingbird.ts:222-227 | The injected statement is a control object carrying exactly the given binding and mutable lists, and it is not itself a marker export. |
| Transform.Rewritten | src/mockingbird.ts:32-43 | The declaration visitor on one top-level statement changes nothing in an ignored file, neither creates nor destroys control objects, and never changes a block. |
| Transform.VisitStatement | src/mockingbird.ts:32-61 | Visiting one statement changes only the `injected` flag. The flag becomes set exactly when it was set already, or when the file is not ignored and the statement is a marker export. A statement either gets its declarations rewritten or becomes the control object. |
| Transform.Run | src/mockingbird.ts:13-64 | A pass over the body keeps its length, changes only `injected` in the visitor state, and never clears `injected`. |
| Transform.Transformed | src/mockingbird.ts:13-64 | The plugin on a whole file keeps the number of top-level statements. |
| Transform.FirstMarker | src/mockingbird.ts:44-61 | Finds the first statement that exports a variable whose first declarator is the identifier `mockingbird`, or says that there is none. |
| Transform.PluginState.constructor | src/mockingbird.ts:6-11 | The plugin's per-file state starts out not ignored, not injected, with empty lists. |
| Transform.PluginState.ProgramEnter | src/mockingbird.ts:18-30 | The state after `Program.enter` is `Enter` of the state before. |
| Transform.PluginState.VisitVariableDeclaration | src/mockingbird.ts:32-43 | The callback, with its early returns, produces exactly `RewriteDeclaration` under the current `ignore` flag. |
| Transform.PluginState.VisitNested | src/mockingbird.ts:32-43 | The loop over a nested block's declarations leaves them as `RewriteAll` with a nested parent says, which is unchanged. |
| Transform.PluginState.VisitExportNamedDeclaration | src/mockingbird.ts:44-61 | The callback replaces the statement exactly when the file is not ignored, nothing was injected yet, and the statement is a marker export. The replacement is the control object built from the current lists, and `injected` is then set. |
| Transform.PluginState.VisitAt | src/mockingbird.ts:32-61 | Visiting slot `i` writes `VisitStatement`'s output there and nowhere else, and moves the state on. |
| Transform.PluginState.Traverse | src/mockingbird.ts:13-64 | The in-place walk over the statement array leaves exactly the array and the state that `Run` computes. |
| Transform.TransformModule | src/mockingbird.ts:13-64 | Running the plugin on a file leaves the program body as `Transformed` of the source, the scope and the old body. |
| Transform.RunIgnored | src/mockingbird.ts:33-46 | A pass in an ignored file changes neither the body nor the visitor state. |
| Transform.IgnoredFileUnchanged | src/mockingbird.ts:21-25 | A file that does not opt in, or that carries the ignore token, comes out exactly as it went in. |
| Transform.RunSetsInjected | src/mockingbird.ts:44-61 | In a file that is not ignored, `injected` ends set exactly when it started set or the body has a marker export. |
| Transform.RunPointwise | src/mockingbird.ts:13-64 | In a file that is not ignored, each output statement is the control object when it is the first marker export and nothing was injected before. Otherwise it is the input statement with its top-level `const`s turned into `let`s. |
| Transform.RunInjectsAtMostOnce | src/mockingbird.ts:45-60 | A pass adds exactly one control object when it sets `injected`, and none otherwise. |
| Transform.TransformInjects | src/mockingbird.ts:44-61 | In an opted-in file without the ignore token, the first marker export becomes the control object with the scope's binding and mutable lists, and exactly one control object is added. |
| Transform.TopLevelConstBecomesLet | src/mockingbird.ts:32-43 | In an opted-in file without the ignore token, a top-level declaration or non-marker export keeps its form and its declarator. It turns from `const` into `let` exactly when it is a `const` not declaring `mockingbird`, and otherwise keeps its kind. |
| Transform.OneKindPerName | src/mockingbird.ts:26-29 | In a scope with distinct names, a name has only one binding kind. |
| Transform.RewrittenConstIsNotMutable | src/mockingbird.ts:26-29 | A `const` binding other than `mockingbird` is listed in `_bindings` but not in `_mutables`, even though the transform makes it a `let`, because the lists come from the scope as it was before the rewrite. |
| Transform.OptInPrefix | src/mockingbird.ts:21 | `export const mockingbird`, `export let mockingbird` and `export var mockingbird` each opt in, whatever follows. |
| Transform.RunAfterInjection | src/mockingbird.ts:44-46 | After the control object is injected, the rest of the body only has its top-level `const`s rewritten. |
| Transform.MarkerFirstScenario | src/mockingbird.ts:13-64 | A file whose body starts with the marker export gets the control object in its place, with the rest rewritten. |
| Transform.RewriteTail | src/mockingbird.ts:32-43 | Rewrites each statement's top-level declarations on its own, keeping the length. |
| Transform.ConstSourceOptsIn | src/mockingbird.test.ts:35 | The test text `export declare const mockingbird; const one = 1;` opts in. |
| Transform.NestedSourceOptsIn | src/mockingbird.test.ts:41 | The test text `export let mockingbird; { const one = 1; }` opts in. |
| Transform.MutablesSourceOptsIn | src/mockingbird.test.ts:64 | The test text with `export var mockingbird` and three declarations opts in. |
| Transform.FixturesNotIgnored | src/mockingbird.test.ts:33-68 | None of these test texts carries the ignore token. |
| Transform.ConstScopeNames | src/mockingbird.test.ts:36 | For a scope of `mockingbird` and `const one`, the lists are `['one']` and `[]`. |
| Transform.NestedScopeNames | src/mockingbird.test.ts:41 | For a scope holding only `mockingbird`, both lists are empty. |
| Transform.MutablesScopeNames | src/mockingbird.test.ts:65 | For `const one`, `let two` and `let three`, the lists are `['one', 'two', 'three']` and `['two', 'three']`. |
| Transform.ConstBecomesLetScenario | src/mockingbird.test.ts:33-38 | The test "top-level const declarations are changed to let": for any opted-in text, the output is the control object with `['one']`, then `let one`. |
| Transform.NestedConstScenario | src/mockingbird.test.ts:40-42 | The test "non top-level const declarations are NOT changed": the control object with empty lists, then the block unchanged. |
| Transform.MutablesScenario | src/mockingbird.test.ts:62-67 | The test "saves all mutable bindings": the control object with `['one', 'two', 'three']` and `['two', 'three']`, then three `let`s. |
| Transform.InjectSourceOptsIn | src/mockingbird.test.ts:45 | The test text `export var mockingbird; const one = 1;` opts in. |
| Transform.BindingsSourceOptsIn | src/mockingbird.test.ts:57 | The test text with `export var mockingbird` and three `const`s opts in. |
| Transform.InjectFixturesNotIgnored | src/mockingbird.test.ts:44-60 | Neither of these two texts carries the ignore token. |
| Transform.InjectScopeNames | src/mockingbird.test.ts:45 | For a scope of `var mockingbird` and `const one`, the lists are `['one']` and `[]`. |
| Transform.BindingsScopeNames | src/mockingbird.test.ts:58 | For three `const`s the lists are `['one', 'two', 'three']` and `[]`. |
| Transform.InjectScenario | src/mockingbird.test.ts:44-46 | The test "injects mockingbird export": the marker export becomes the control object with `['one']`, then `let one`. |
| Transform.BindingsScenario | src/mockingbird.test.ts:55-60 | The test "stores all bindings": the control object with `['one', 'two', 'three']` and no mutables, then three `let`s. |
| Transform.IgnoredSourceHasToken | src/mockingbird.test.ts:50 | The test text ending in `// mockingbird-ignore` carries the ignore token. |
| Transform.IgnoreCommentScenario | src/mockingbird.test.ts:48-53 | The test "does not transpile a file with a mockingbird-ignore comment": that file comes out unchanged. |
| Transform.NoOptInScenario | src/mockingbird.test.ts:71-73 | The test "without opt-in does not change anything": that file comes out unchanged. |

## Left out

- Babel's parser, code generator and traversal engine are abstracted away. A program is a sequence of top-level statements, each of them one of:
  - a variable declaration;
  - a named export of one;
  - a block of nested declarations;
  - the control object;
  - anything else.
  The nodes are values written back into array slots; Babel mutates them in place.
- A declaration keeps only its kind and its first declarator (an identifier or a pattern). The `declarations.length === 0` guard at src/mockingbird.ts:51 cannot fire in this model, because a parsed variable declaration always has a declarator.
- Babel's scope analysis is not modelled. The scope table is an input: a list of named bindings with their kinds, with `class` and `function` bindings and the like shown as "other".
- Regular expressions are written as predicates over the text.
  - The opt-in test at src/mockingbird.ts:21 is modelled as the presence of `export `, an optional `declare `, a keyword, a space and `mockingbird`. Its optional `: Mockingbird` and `;` suffix can never change whether the pattern matches.
  - The ignore test at src/mockingbird.ts:23 is JavaScript `\s`, then the token, then a word boundary.
- `eval` is modelled by the module's scope: a map from resolvable identifiers to values, alongside the `exports` object's own properties.
  - A name missing from the map throws `ReferenceError`.
  - `default` is never an identifier.
  - `typeof` of a missing name gives `undefined`.
  - Whether a name is a valid identifier at all is not modelled; the source assumes it is.
- Assignments that would throw at run time are not modelled: writing to an `import` binding, or to one that stayed `const`. Every resolvable name is taken to be writable.
- JavaScript values are abstract: `undefined`, `null`, or a reference that may have a callable `mockReset`. The effect of calling `mockReset()` is a record of which values it was called on.
- RegistryModel.Mock: the substitute is always the caller's argument. JavaScript replaces an omitted or explicitly `undefined` argument with a fresh `jest.fn()`, so `Mock(s, n, Undefined)` installs `undefined` where the source would install a new mock function.
- Names that the registry's own functions declare hide module bindings of the same name from `eval`. Outside `SaveAsWritten`'s `value` the model resolves them to the module's bindings. What the source does instead:
  - `_set('value', v)` assigns its own parameter, so the module's `value` keeps its old value and only `exports.value` changes. This affects `mock`, `unmock`, `unmockAll`, `restore` and `restoreAll` of `value`.
  - `_set('refName', v)` reassigns its own parameter before it tests `exports` for the name. `_set('isExport', v)` assigns a constant before its initialisation and throws.
  - `mock` evaluates `refName`, `mockImplementation` and `originalImplementation` in its own scope. So it reads its own arguments, or throws for `originalImplementation`.
  - `save` evaluates `refName` as its own parameter and `restoration_points` as its own stack.
  - `_reset('refName')` inspects its own string parameter and resets nothing.
- The control object the template emits has no `_restoration_points` field (src/mockingbird.ts:201-220), so `save`/`restore` in an injected object would fail. The model gives the injected object the same empty restoration map as the exported `mockingbird` object.
- `buildMockingbird` is modelled only as emitting a control object carrying the two name lists. The text of the template is not modelled.
- `mock('mockingbird')` and other calls on names outside the module, and the test-only block at src/mockingbird.ts:238-244, are not modelled.
- Transform.ConstBecomesLetScenario, Transform.NestedConstScenario and Transform.MutablesScenario take the file text as any text that opts in and carries no ignore token. The concrete test texts are shown to meet that in separate lemmas. The `declare` modifier, which the TypeScript preset removes, is not part of the program model.
- Expected outputs come from `buildMockingbird` in the tests. They are compared as control objects carrying the name lists, not as generated code.

## Findings

| source | as written | input that shows it | evidently intended | confidence | as-written member | corrected member |
|---|---|---|---|---|---|---|
| src/mockingbird.ts:110-114 | `_reset` evaluates `typeof default`, which is a syntax error, so `resetMock('default')` throws, and so does `resetAllMocks()` once `default` is mocked. It also evaluates `typeof null.mockReset` for a name holding `null`, which throws a TypeError | `mock('default', m)` on a module with a default export, then `resetMock('default')`; or `mock('x', null)`, then `resetMock('x')` | reset the value in the `default` export slot, as `mock` and `_set` treat `default`, and skip a name whose value has no `mockReset` | medium, not executed | RegistryModel.AsWrittenResetMockOfDefaultFails | RegistryModel.ResetMock |
| src/mockingbird.ts:159-170 | `save` evaluates `eval(refName)` in the initialiser of its own `const value`, so `save('value')` throws a ReferenceError, and `saveAll()` throws in any module with a mutable binding named `value` | a module with `let value = 1`, then `saveAll()` | push the module binding's current value, as for every other name | medium, not executed | RegistryModel.AsWrittenSaveAllOfValueFails | RegistryModel.SaveAll |

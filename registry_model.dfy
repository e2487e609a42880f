/**
  The binding registry of a transformed module, as a state machine over values.

  Every operation of the `mockingbird` control object is a function from a
  registry state to an outcome: the value the operation returns (or the error
  it throws) and the state after it. The class in module Registry performs the
  same operations by updating fields and is proved to agree with these
  functions; the lemmas here relate several operations to each other.
*/
module RegistryModel {
  import opened Names

  /** A run-time value held by a binding. `Undefined` and `Null` are
      JavaScript's `undefined` and `null`; any other value is a `Ref`, told
      apart by `id`, and `mockReset` says whether it carries a callable
      `mockReset` property. */
  datatype Value = Undefined | Null | Ref(id: nat, mockReset: bool)

  /** The duck-typed test `_reset` applies before calling `mockReset()`. */
  predicate Resettable(v: Value) {
    v.Ref? && v.mockReset
  }

  datatype Error =
    | AlreadyMocked(name: Name)        // mock: the name is in the cache
    | NotMocked(name: Name)            // unmock, resetMock: the name is not in the cache
    | NoStack(name: Name)              // restore: no stack was ever created (`undefined.length`)
    | NoRestorationPoints(name: Name)  // restore: the stack is empty
    | Unresolvable(name: Name)         // `eval(name)` throws: no such identifier, or `default`
    | NullProperty(name: Name)         // `_reset`: reading `mockReset` of `null` (TypeError)
    | Uninitialized(name: Name)        // `save`: `eval` reaches `save`'s own `const value` too early

  datatype Result<T> = Ok(value: T) | Err(error: Error)

  /** The registry of one module together with the module scope it acts on.
      `local` holds the module's top-level identifiers, as `eval` reads and
      writes them from inside the registry's functions wherever no parameter
      or local variable of those functions hides them (SaveAsWritten models
      one such name), `exports` the own properties of the module's `exports` object,
      `cache` the originals of mocked names with `order` its insertion order
      (the order `Map.forEach` visits), `stacks` the restoration points and
      `resets` every value whose `mockReset()` has been invoked, oldest first. */
  datatype State = State(
    bindings: seq<Name>,
    mutables: seq<Name>,
    local: map<Name, Value>,
    exports: map<Name, Value>,
    cache: map<Name, Value>,
    order: seq<Name>,
    stacks: map<Name, seq<Value>>,
    resets: seq<Value>)

  /** What an operation returns or throws, and the state it leaves behind. */
  datatype Outcome<T> = Outcome(result: Result<T>, state: State)

  /** `eval(n)` succeeds: `n` is an identifier the registry's scope
      resolves (`default` never is one; evaluating it is a SyntaxError). */
  predicate Resolvable(s: State, n: Name) {
    n != Default && n in s.local
  }

  /** The mutable names are distinct top-level bindings that resolve. */
  ghost predicate MutablesDeclared(s: State) {
    && NoDuplicates(s.mutables)
    && (forall m :: m in s.mutables ==> m in s.bindings && m != Default && m in s.local)
  }

  /** The cache and its insertion order list the same names, once each. */
  ghost predicate OrderMatchesCache(s: State) {
    && NoDuplicates(s.order)
    && (forall n :: n in s.order <==> n in s.cache)
  }

  /** Only `default` or a resolvable name is ever mocked. */
  ghost predicate CacheResolvable(s: State) {
    forall n :: n in s.cache ==> n == Default || n in s.local
  }

  /** Only a resolvable name can have a restoration point. */
  ghost predicate StacksResolvable(s: State) {
    forall n :: n in s.stacks && s.stacks[n] != [] ==> n != Default && n in s.local
  }

  /** The invariant every operation keeps (see the `...KeepsValid` lemmas). */
  ghost predicate Valid(s: State) {
    MutablesDeclared(s) && OrderMatchesCache(s) && CacheResolvable(s) && StacksResolvable(s)
  }

  /** `exports.default`, which reads as `undefined` when there is none. */
  function ExportedDefault(s: State): Value {
    if Default in s.exports then s.exports[Default] else Undefined
  }

  /** The restoration stack of `n`, empty when none was created. */
  function StackOf(s: State, n: Name): seq<Value> {
    if n in s.stacks then s.stacks[n] else []
  }

  /** `_set`: assign the local variable (unless the name is `default`) and,
      when the name is an own property of `exports`, that property too.
      Assigning an identifier that does not resolve would throw in strict
      code; every caller rules that out. */
  function SetBinding(s: State, n: Name, v: Value): (t: State)
    requires n == Default || n in s.local
    ensures t.local.Keys == s.local.Keys && t.exports.Keys == s.exports.Keys
    ensures n != Default ==> t.local[n] == v
    ensures n == Default ==> t.local == s.local
    ensures n in s.exports ==> t.exports[n] == v
    ensures forall m :: m in s.local && m != n ==> t.local[m] == s.local[m]
    ensures forall m :: m in s.exports && m != n ==> t.exports[m] == s.exports[m]
    ensures t == s.(local := t.local, exports := t.exports)
    ensures StacksResolvable(s) ==> StacksResolvable(t)
  {
    var local := if n != Default then s.local[n := v] else s.local;
    var exports := if n in s.exports then s.exports[n := v] else s.exports;
    s.(local := local, exports := exports)
  }

  /** What `mock` reads as the original: `exports.default` for `default`,
      otherwise `eval(n)`, which throws for a name that does not resolve. */
  function ReadOriginal(s: State, n: Name): (r: Result<Value>)
    ensures r.Err? <==> n != Default && n !in s.local
    ensures r.Err? ==> r.error == Unresolvable(n)
    ensures n == Default ==> r == Ok(ExportedDefault(s))
    ensures Resolvable(s, n) ==> r == Ok(s.local[n])
  {
    if n == Default then Ok(ExportedDefault(s))
    else if n in s.local then Ok(s.local[n])
    else Err(Unresolvable(n))
  }

  // ---------------------------------------------------------------- mock

  /** `mock(n, impl)`; a caller that omits `impl` passes a fresh `jest.fn()`. */
  function Mock(s: State, n: Name, impl: Value): (o: Outcome<Value>)
    ensures o.result.Ok? <==> n !in s.cache && (n == Default || Resolvable(s, n))
    ensures n in s.cache ==> o == Outcome(Err(AlreadyMocked(n)), s)
    ensures n !in s.cache && n != Default && n !in s.local ==> o == Outcome(Err(Unresolvable(n)), s)
    ensures o.result.Ok? ==>
      && o.result.value == impl
      && o.state.cache == s.cache[n := ReadOriginal(s, n).value]
      && o.state.order == s.order + [n]
      && o.state.local == (if n == Default then s.local else s.local[n := impl])
      && o.state.exports == (if n in s.exports then s.exports[n := impl] else s.exports)
      && o.state == s.(local := o.state.local, exports := o.state.exports,
                       cache := o.state.cache, order := o.state.order)
  {
    if n in s.cache then Outcome(Err(AlreadyMocked(n)), s)
    else
      match ReadOriginal(s, n)
      case Err(e) => Outcome(Err(e), s)
      case Ok(original) =>
        var cached := s.(cache := s.cache[n := original], order := s.order + [n]);
        Outcome(Ok(impl), SetBinding(cached, n, impl))
  }

  lemma MockKeepsValid(s: State, n: Name, impl: Value)
    requires Valid(s)
    ensures Valid(Mock(s, n, impl).state)
  {
    var o := Mock(s, n, impl);
    if o.result.Ok? {
      assert n !in s.order;
      assert NoDuplicates(o.state.order);
      assert StacksResolvable(o.state);
    }
  }

  /** `xs` without `n`: what `Map.delete` leaves of the insertion order. */
  function Without(xs: seq<Name>, n: Name): (r: seq<Name>)
    ensures forall m :: m in r <==> m in xs && m != n
    ensures NoDuplicates(xs) ==> NoDuplicates(r)
    ensures n !in xs ==> r == xs
  {
    if xs == [] then []
    else
      var rest := Without(xs[1..], n);
      assert NoDuplicates(xs) ==> xs[0] !in xs[1..];
      if xs[0] == n then rest else [xs[0]] + rest
  }

  lemma {:induction false} WithoutAppended(xs: seq<Name>, n: Name)
    requires n !in xs
    ensures Without(xs + [n], n) == xs
  {
    if xs != [] {
      assert (xs + [n])[1..] == xs[1..] + [n];
      WithoutAppended(xs[1..], n);
    }
  }

  /** `unmock(n)` */
  function Unmock(s: State, n: Name): (o: Outcome<Value>)
    requires CacheResolvable(s)
    ensures o.result.Ok? <==> n in s.cache
    ensures n !in s.cache ==> o == Outcome(Err(NotMocked(n)), s)
    ensures n in s.cache ==>
      && o.result == Ok(s.cache[n])
      && o.state.cache == s.cache - {n}
      && o.state.order == Without(s.order, n)
      && o.state.local == (if n == Default then s.local else s.local[n := s.cache[n]])
      && o.state.exports == (if n in s.exports then s.exports[n := s.cache[n]] else s.exports)
      && o.state == s.(local := o.state.local, exports := o.state.exports,
                       cache := o.state.cache, order := o.state.order)
  {
    if n !in s.cache then Outcome(Err(NotMocked(n)), s)
    else
      var original := s.cache[n];
      var t := SetBinding(s, n, original);
      Outcome(Ok(original), t.(cache := s.cache - {n}, order := Without(s.order, n)))
  }

  lemma UnmockKeepsValid(s: State, n: Name)
    requires Valid(s)
    ensures Valid(Unmock(s, n).state)
  {
    var o := Unmock(s, n);
    if o.result.Ok? {
      assert StacksResolvable(o.state);
    }
  }

  /** The body of `unmockAll`'s `forEach`: `_set(n, cache[n])` for each of `names`. */
  function UnmockEach(s: State, names: seq<Name>): (t: State)
    requires CacheResolvable(s)
    requires forall m :: m in names ==> m in s.cache
    ensures t == s.(local := t.local, exports := t.exports)
    ensures t.local.Keys == s.local.Keys && t.exports.Keys == s.exports.Keys
    decreases |names|
  {
    if names == [] then s
    else UnmockEach(SetBinding(s, names[0], s.cache[names[0]]), names[1..])
  }

  /** Each name in `names` gets its cached original back; every other slot
      keeps its value. */
  lemma {:induction false} UnmockEachPutsBack(s: State, names: seq<Name>)
    requires CacheResolvable(s)
    requires forall m :: m in names ==> m in s.cache
    ensures var t := UnmockEach(s, names);
      && (forall m :: m in s.local ==> t.local[m] == if m in names && m != Default then s.cache[m] else s.local[m])
      && (forall m :: m in s.exports ==> t.exports[m] == if m in names then s.cache[m] else s.exports[m])
    decreases |names|
  {
    if names != [] {
      var u := SetBinding(s, names[0], s.cache[names[0]]);
      assert forall m :: m in names[1..] ==> m in names;
      UnmockEachPutsBack(u, names[1..]);
      assert forall m :: m in names <==> m == names[0] || m in names[1..];
    }
  }

  /** One step of `UnmockEach`: the first name's original is put back and
      the rest still satisfy the precondition. */
  lemma UnmockEachStep(s: State, names: seq<Name>)
    requires CacheResolvable(s)
    requires names != [] && forall m :: m in names ==> m in s.cache
    ensures var t := SetBinding(s, names[0], s.cache[names[0]]);
      && CacheResolvable(t)
      && (forall m :: m in names[1..] ==> m in t.cache)
      && UnmockEach(s, names) == UnmockEach(t, names[1..])
  {
  }

  /** `unmockAll()`: puts every cached original back and empties the cache. */
  function UnmockAll(s: State): (t: State)
    requires CacheResolvable(s) && OrderMatchesCache(s)
    ensures t.cache == map[] && t.order == []
    ensures t.local.Keys == s.local.Keys && t.exports.Keys == s.exports.Keys
    ensures forall m :: m in s.local ==> t.local[m] == if m in s.cache && m != Default then s.cache[m] else s.local[m]
    ensures forall m :: m in s.exports ==> t.exports[m] == if m in s.cache then s.cache[m] else s.exports[m]
    ensures t == s.(local := t.local, exports := t.exports, cache := map[], order := [])
  {
    UnmockEachPutsBack(s, s.order);
    UnmockEach(s, s.order).(cache := map[], order := [])
  }

  lemma UnmockAllKeepsValid(s: State)
    requires Valid(s)
    ensures Valid(UnmockAll(s))
  {
    assert StacksResolvable(UnmockAll(s));
  }

  // ---------------------------------------------------------------- reset

  /** The value `_reset` tests for a mocked name. For `default` this is the
      export slot, which is what the source evidently means to reset. */
  function LiveValue(s: State, n: Name): (v: Value)
    ensures ReadOriginal(s, n).Ok? ==> v == ReadOriginal(s, n).value
    ensures ReadOriginal(s, n).Err? ==> v == Undefined
  {
    if n == Default then ExportedDefault(s)
    else if n in s.local then s.local[n]
    else Undefined
  }

  /** `_reset(n)`, corrected: calls `mockReset()` on the live value if it has one. */
  function Reset(s: State, n: Name): (t: State)
    ensures t == s.(resets := t.resets)
    ensures t.resets == s.resets + (if Resettable(LiveValue(s, n)) then [LiveValue(s, n)] else [])
  {
    var v := LiveValue(s, n);
    if Resettable(v) then s.(resets := s.resets + [v]) else s
  }

  /** `resetMock(n)`: fails unless mocked; otherwise only the reset capability
      of the live value is exercised, no binding and no cache entry changes. */
  function ResetMock(s: State, n: Name): (o: Outcome<()>)
    ensures o.result.Ok? <==> n in s.cache
    ensures n !in s.cache ==> o == Outcome(Err(NotMocked(n)), s)
    ensures o.state == s.(resets := o.state.resets)
    ensures n in s.cache ==> o.state.resets == s.resets + (if Resettable(LiveValue(s, n)) then [LiveValue(s, n)] else [])
  {
    if n !in s.cache then Outcome(Err(NotMocked(n)), s)
    else Outcome(Ok(()), Reset(s, n))
  }

  /** The values whose `mockReset()` a pass over `names` invokes, in order. */
  function ResetLog(s: State, names: seq<Name>): seq<Value>
  {
    if names == [] then []
    else
      var v := LiveValue(s, names[0]);
      (if Resettable(v) then [v] else []) + ResetLog(s, names[1..])
  }

  /** A pass over `names` resets only values that can be reset, each the live
      value of one of `names`, and every such live value at least once. */
  lemma {:induction false} ResetLogContents(s: State, names: seq<Name>)
    ensures |ResetLog(s, names)| <= |names|
    ensures forall v :: v in ResetLog(s, names) ==> Resettable(v)
    ensures forall m :: m in names && Resettable(LiveValue(s, m)) ==> LiveValue(s, m) in ResetLog(s, names)
    ensures forall v :: v in ResetLog(s, names) ==> exists m :: m in names && LiveValue(s, m) == v
    decreases |names|
  {
    if names != [] {
      ResetLogContents(s, names[1..]);
      assert names == [names[0]] + names[1..];
    }
  }

  /** The body of `resetAllMocks`'s `forEach`: `_reset(n)` for each of `names`. */
  function ResetEach(s: State, names: seq<Name>): (t: State)
    ensures t == s.(resets := s.resets + ResetLog(s, names))
    decreases |names|
  {
    if names == [] then s
    else
      var s1 := Reset(s, names[0]);
      ResetLogReadsBindingsOnly(s1, s, names[1..]);
      ResetEach(s1, names[1..])
  }

  lemma {:induction false} ResetLogReadsBindingsOnly(s: State, t: State, names: seq<Name>)
    requires s.local == t.local && s.exports == t.exports
    ensures ResetLog(s, names) == ResetLog(t, names)
    decreases |names|
  {
    if names != [] {
      ResetLogReadsBindingsOnly(s, t, names[1..]);
    }
  }

  /** `resetAllMocks()`: never fails; resets every mocked live value that can
      be reset, in the cache's insertion order, and changes nothing else. */
  function ResetAllMocks(s: State): (t: State)
    ensures t == s.(resets := s.resets + ResetLog(s, s.order))
  {
    ResetEach(s, s.order)
  }

  /** Resetting touches no part of the state the invariant speaks of. */
  lemma ResetsKeepValid(s: State, resets: seq<Value>)
    requires Valid(s)
    ensures Valid(s.(resets := resets))
  {
    var t := s.(resets := resets);
    assert MutablesDeclared(t) && OrderMatchesCache(t) && CacheResolvable(t) && StacksResolvable(t);
  }

  // --------------------------------------------- reset, as the source has it

  /** The as-written `_reset(n)` throws: `typeof default` is a SyntaxError,
      and `typeof null.mockReset` reads a property of `null`, a TypeError. */
  predicate ResetThrows(s: State, n: Name) {
    n == Default || LiveValue(s, n) == Null
  }

  /** `_reset(n)` as written, which evaluates `typeof ${n}` and then
      `typeof ${n}.mockReset`. */
  function ResetAsWritten(s: State, n: Name): (r: Result<State>)
    ensures r.Err? <==> ResetThrows(s, n)
    ensures n == Default ==> r == Err(Unresolvable(n))
    ensures !ResetThrows(s, n) ==> r == Ok(Reset(s, n))
  {
    if n == Default then Err(Unresolvable(n))
    else if LiveValue(s, n) == Null then Err(NullProperty(n))
    else Ok(Reset(s, n))
  }

  /** `resetMock(n)` as written. */
  function ResetMockAsWritten(s: State, n: Name): (o: Outcome<()>)
    ensures o.result.Ok? <==> n in s.cache && !ResetThrows(s, n)
    ensures o.result.Err? ==> o.state == s
    ensures !ResetThrows(s, n) ==> o == ResetMock(s, n)
  {
    if n !in s.cache then Outcome(Err(NotMocked(n)), s)
    else
      match ResetAsWritten(s, n)
      case Err(e) => Outcome(Err(e), s)
      case Ok(t) => Outcome(Ok(()), t)
  }

  /** `forEach` over `names` with the as-written `_reset`: the first error
      ends the loop, resets done before it stay done. Only the record of
      `mockReset()` calls grows. */
  function ResetEachAsWritten(s: State, names: seq<Name>): (o: Outcome<()>)
    ensures o.state == s.(resets := o.state.resets)
    ensures s.resets <= o.state.resets
    decreases |names|
  {
    if names == [] then Outcome(Ok(()), s)
    else
      match ResetAsWritten(s, names[0])
      case Err(e) => Outcome(Err(e), s)
      case Ok(t) =>
        var o := ResetEachAsWritten(t, names[1..]);
        assert s.resets <= t.resets <= o.state.resets;
        o
  }

  /** `resetAllMocks()` as written. */
  function ResetAllMocksAsWritten(s: State): (o: Outcome<()>)
    ensures o.state == s.(resets := o.state.resets)
    ensures s.resets <= o.state.resets
  {
    ResetEachAsWritten(s, s.order)
  }

  lemma {:induction false} ResetEachAsWrittenFails(s: State, names: seq<Name>)
    ensures ResetEachAsWritten(s, names).result.Err? <==> exists m :: m in names && ResetThrows(s, m)
    ensures (forall m :: m in names ==> !ResetThrows(s, m)) ==>
      ResetEachAsWritten(s, names).state == ResetEach(s, names)
    decreases |names|
  {
    if names != [] && !ResetThrows(s, names[0]) {
      var t := Reset(s, names[0]);
      assert forall m :: ResetThrows(t, m) == ResetThrows(s, m);
      ResetEachAsWrittenFails(t, names[1..]);
      assert names == [names[0]] + names[1..];
    }
  }

  /** As written, `resetAllMocks` fails exactly when `default` is mocked or a
      mocked name holds `null`, although the operation is meant never to
      fail; otherwise it agrees with the corrected operation. */
  lemma AsWrittenResetAllMocksFails(s: State)
    requires OrderMatchesCache(s)
    ensures ResetAllMocksAsWritten(s).result.Err? <==> exists m :: m in s.cache && ResetThrows(s, m)
    ensures (forall m :: m in s.cache ==> !ResetThrows(s, m)) ==>
      ResetAllMocksAsWritten(s).state == ResetAllMocks(s)
  {
    ResetEachAsWrittenFails(s, s.order);
  }

  /** A concrete registry that shows it: `default` mocked, then reset. */
  lemma AsWrittenResetMockOfDefaultFails()
    ensures
      var s := State([], [], map[], map[Default := Ref(0, false)], map[], [], map[], []);
      var o := Mock(s, Default, Ref(1, true));
      && o.result == Ok(Ref(1, true))
      && ResetMockAsWritten(o.state, Default).result == Err(Unresolvable(Default))
      && ResetMock(o.state, Default) == Outcome(Ok(()), o.state.(resets := [Ref(1, true)]))
  {
  }

  /** The same for a name mocked with `null`: `mock('stub', null)` installs
      `null` (a default parameter replaces only `undefined`), and resetting
      it then throws instead of doing nothing. */
  lemma AsWrittenResetMockOfNullFails(stub: Name)
    requires stub != Default
    ensures
      var s := State([stub], [], map[stub := Ref(0, true)], map[], map[], [], map[], []);
      var o := Mock(s, stub, Null);
      && o.result == Ok(Null)
      && ResetMockAsWritten(o.state, stub).result == Err(NullProperty(stub))
      && ResetMock(o.state, stub) == Outcome(Ok(()), o.state)
  {
  }

  // ---------------------------------------------------------- save, restore

  /** `save(n)`: creates the stack if absent, then reads `eval(n)` and pushes
      it; when `eval` throws, the stack has been created but nothing pushed. */
  function Save(s: State, n: Name): (o: Outcome<Value>)
    ensures StacksResolvable(s) ==> StacksResolvable(o.state)
    ensures o.result.Ok? <==> Resolvable(s, n)
    ensures Resolvable(s, n) ==> o.result.value == s.local[n]
    ensures !Resolvable(s, n) ==> o.result == Err(Unresolvable(n))
    ensures o.state == s.(stacks := o.state.stacks)
    ensures o.state.stacks == s.stacks[n := StackOf(s, n) + (if Resolvable(s, n) then [s.local[n]] else [])]
  {
    var stacks := if n in s.stacks then s.stacks else s.stacks[n := []];
    if Resolvable(s, n) then
      Outcome(Ok(s.local[n]), s.(stacks := stacks[n := stacks[n] + [s.local[n]]]))
    else
      assert StackOf(s, n) + [] == StackOf(s, n);
      assert stacks == s.stacks[n := StackOf(s, n)];
      Outcome(Err(Unresolvable(n)), s.(stacks := stacks))
  }

  lemma SaveKeepsValid(s: State, n: Name)
    requires Valid(s)
    ensures Valid(Save(s, n).state)
  {
    var t := Save(s, n).state;
    assert MutablesDeclared(t) && OrderMatchesCache(t) && CacheResolvable(t);
  }

  /** `restore(n)`: pops the newest restoration point and installs it.
      A name never saved has no stack, and reading its length throws. */
  function Restore(s: State, n: Name): (o: Outcome<Value>)
    requires StacksResolvable(s)
    ensures StacksResolvable(o.state)
    ensures o.result.Ok? <==> StackOf(s, n) != []
    ensures n !in s.stacks ==> o == Outcome(Err(NoStack(n)), s)
    ensures n in s.stacks && s.stacks[n] == [] ==> o == Outcome(Err(NoRestorationPoints(n)), s)
    ensures StackOf(s, n) != [] ==>
      var st := s.stacks[n];
      && Resolvable(s, n)
      && o.result == Ok(st[|st| - 1])
      && o.state == SetBinding(s, n, st[|st| - 1]).(stacks := s.stacks[n := st[..|st| - 1]])
  {
    if n !in s.stacks then Outcome(Err(NoStack(n)), s)
    else if s.stacks[n] == [] then Outcome(Err(NoRestorationPoints(n)), s)
    else
      var st := s.stacks[n];
      var v := st[|st| - 1];
      var popped := s.(stacks := s.stacks[n := st[..|st| - 1]]);
      Outcome(Ok(v), SetBinding(popped, n, v))
  }

  lemma RestoreKeepsValid(s: State, n: Name)
    requires Valid(s)
    ensures Valid(Restore(s, n).state)
  {
    var t := Restore(s, n).state;
    assert MutablesDeclared(t) && OrderMatchesCache(t) && CacheResolvable(t);
  }

  /** The `for…of` loop of `saveAll`: `save(n)` for each of `names`. */
  function SaveEach(s: State, names: seq<Name>): (t: State)
    ensures t == s.(stacks := t.stacks)
    ensures StacksResolvable(s) ==> StacksResolvable(t)
    decreases |names|
  {
    if names == [] then s
    else SaveEach(Save(s, names[0]).state, names[1..])
  }

  /** Saving each of distinct resolvable `names` pushes the current value of
      each of them once, creating the stacks that were missing, and touches
      no other stack. */
  lemma {:induction false} SaveEachPushes(s: State, names: seq<Name>)
    requires NoDuplicates(names)
    requires forall m :: m in names ==> m != Default && m in s.local
    ensures forall m :: m in SaveEach(s, names).stacks <==> m in s.stacks || m in names
    ensures forall m :: StackOf(SaveEach(s, names), m) == StackOf(s, m) + (if m in names then [s.local[m]] else [])
    decreases |names|
  {
    if names != [] {
      var n := names[0];
      var rest := names[1..];
      var s1 := Save(s, n).state;
      assert n !in rest && NoDuplicates(rest);
      assert forall m :: m in names <==> m == n || m in rest;
      SaveEachPushes(s1, rest);
      forall m
        ensures StackOf(s1, m) == StackOf(s, m) + (if m == n then [s.local[n]] else [])
      {
      }
    }
  }

  /** `saveAll()`: pushes the current value of every mutable on its stack. */
  function SaveAll(s: State): (t: State)
    requires MutablesDeclared(s)
    ensures t == s.(stacks := t.stacks)
    ensures forall m :: m in t.stacks <==> m in s.stacks || m in s.mutables
    ensures forall m :: StackOf(t, m) == StackOf(s, m) + (if m in s.mutables then [s.local[m]] else [])
  {
    SaveEachPushes(s, s.mutables);
    SaveEach(s, s.mutables)
  }

  lemma SaveAllKeepsValid(s: State)
    requires Valid(s)
    ensures Valid(SaveAll(s))
  {
    var t := SaveAll(s);
    assert MutablesDeclared(t) && OrderMatchesCache(t) && CacheResolvable(t);
    forall m | m in t.stacks && t.stacks[m] != []
      ensures m != Default && m in t.local
    {
      assert StackOf(t, m) == t.stacks[m];
    }
  }

  // --------------------------------------------- save, as the source has it

  /** The name of `save`'s own local `const value`. The `eval(refName)` in
      its initialiser runs in `save`'s scope, where that constant hides a
      module binding of the same name and is not yet initialised. */
  const SaveLocal: Name := "value"

  /** `save(n)` as written, for the name its own scope hides: the stack is
      created and `eval` then throws a ReferenceError; every other name
      behaves as `Save` says. */
  function SaveAsWritten(s: State, n: Name): (o: Outcome<Value>)
    ensures o.result.Ok? <==> n != SaveLocal && Resolvable(s, n)
    ensures n != SaveLocal ==> o == Save(s, n)
    ensures n == SaveLocal ==> o.state == s.(stacks := s.stacks[n := StackOf(s, n)])
  {
    if n == SaveLocal then Outcome(Err(Uninitialized(n)), s.(stacks := s.stacks[n := StackOf(s, n)]))
    else Save(s, n)
  }

  /** The `for…of` loop of `saveAll` with the as-written `save`: the first
      error ends the loop and the stacks pushed before it stay pushed. */
  function SaveEachAsWritten(s: State, names: seq<Name>): (o: Outcome<()>)
    ensures o.state == s.(stacks := o.state.stacks)
    decreases |names|
  {
    if names == [] then Outcome(Ok(()), s)
    else
      var r := SaveAsWritten(s, names[0]);
      if r.result.Err? then Outcome(Err(r.result.error), r.state)
      else SaveEachAsWritten(r.state, names[1..])
  }

  /** `saveAll()` as written. */
  function SaveAllAsWritten(s: State): (o: Outcome<()>)
    ensures o.state == s.(stacks := o.state.stacks)
  {
    SaveEachAsWritten(s, s.mutables)
  }

  lemma {:induction false} SaveEachAsWrittenFails(s: State, names: seq<Name>)
    requires forall m :: m in names ==> Resolvable(s, m)
    ensures SaveEachAsWritten(s, names).result.Err? <==> SaveLocal in names
    ensures SaveLocal !in names ==> SaveEachAsWritten(s, names).state == SaveEach(s, names)
    decreases |names|
  {
    if names != [] && names[0] != SaveLocal {
      var t := Save(s, names[0]).state;
      assert t.local == s.local;
      assert forall m :: m in names[1..] ==> m in names;
      SaveEachAsWrittenFails(t, names[1..]);
      assert names == [names[0]] + names[1..];
    }
  }

  /** As written, `saveAll` throws exactly when a mutable binding is named
      `value`; otherwise it agrees with the corrected operation. */
  lemma AsWrittenSaveAllFails(s: State)
    requires MutablesDeclared(s)
    ensures SaveAllAsWritten(s).result.Err? <==> SaveLocal in s.mutables
    ensures SaveLocal !in s.mutables ==> SaveAllAsWritten(s).state == SaveAll(s)
  {
    SaveEachAsWrittenFails(s, s.mutables);
  }

  /** A concrete module that shows it: `let value` is its one mutable. */
  lemma AsWrittenSaveAllOfValueFails()
    ensures
      var s := State([SaveLocal], [SaveLocal], map[SaveLocal := Ref(0, false)], map[], map[], [], map[], []);
      && MutablesDeclared(s)
      && SaveAllAsWritten(s).result == Err(Uninitialized(SaveLocal))
      && StackOf(SaveAll(s), SaveLocal) == [Ref(0, false)]
  {
    var s := State([SaveLocal], [SaveLocal], map[SaveLocal := Ref(0, false)], map[], map[], [], map[], []);
    assert MutablesDeclared(s);
    AsWrittenSaveAllFails(s);
    assert SaveAllAsWritten(s) == SaveEachAsWritten(s, [SaveLocal]);
  }

  /** One iteration of `restoreAll`: install the oldest point and drop the stack. */
  function RestoreOldest(s: State, n: Name): (t: State)
    requires StacksResolvable(s)
    ensures StacksResolvable(t)
    ensures t == s.(local := t.local, exports := t.exports, stacks := t.stacks)
    ensures t.local.Keys == s.local.Keys && t.exports.Keys == s.exports.Keys && t.stacks.Keys == s.stacks.Keys
    ensures forall m :: m in s.local ==>
      t.local[m] == if m == n && StackOf(s, m) != [] then StackOf(s, m)[0] else s.local[m]
    ensures forall m :: m in s.exports ==>
      t.exports[m] == if m == n && StackOf(s, m) != [] then StackOf(s, m)[0] else s.exports[m]
    ensures forall m :: StackOf(t, m) == if m == n then [] else StackOf(s, m)
  {
    var st := StackOf(s, n);
    if |st| > 0 then SetBinding(s, n, st[0]).(stacks := s.stacks[n := []]) else s
  }

  /** The `for…of` loop of `restoreAll` over `names`. */
  function RestoreEach(s: State, names: seq<Name>): (t: State)
    requires StacksResolvable(s)
    ensures StacksResolvable(t)
    ensures t == s.(local := t.local, exports := t.exports, stacks := t.stacks)
    ensures t.local.Keys == s.local.Keys && t.exports.Keys == s.exports.Keys && t.stacks.Keys == s.stacks.Keys
    decreases |names|
  {
    if names == [] then s
    else RestoreEach(RestoreOldest(s, names[0]), names[1..])
  }

  /** Each of `names` with a restoration point gets its oldest one back and
      loses its stack; names without one, and names not listed, keep their
      values. A name listed twice is skipped the second time. */
  lemma {:induction false} RestoreEachRestoresOldest(s: State, names: seq<Name>)
    requires StacksResolvable(s)
    ensures var t := RestoreEach(s, names);
      && (forall m :: m in s.local ==>
            t.local[m] == if m in names && StackOf(s, m) != [] then StackOf(s, m)[0] else s.local[m])
      && (forall m :: m in s.exports ==>
            t.exports[m] == if m in names && StackOf(s, m) != [] then StackOf(s, m)[0] else s.exports[m])
      && (forall m :: StackOf(t, m) == if m in names then [] else StackOf(s, m))
    decreases |names|
  {
    if names != [] {
      var rest := names[1..];
      assert forall m :: m in names <==> m == names[0] || m in rest;
      RestoreEachRestoresOldest(RestoreOldest(s, names[0]), rest);
    }
  }

  /** `restoreAll()`: never fails; every mutable with a restoration point gets
      its OLDEST point back and loses its whole stack; the others are skipped. */
  function RestoreAll(s: State): (t: State)
    requires StacksResolvable(s)
    ensures StacksResolvable(t)
    ensures t == s.(local := t.local, exports := t.exports, stacks := t.stacks)
    ensures t.local.Keys == s.local.Keys && t.exports.Keys == s.exports.Keys && t.stacks.Keys == s.stacks.Keys
    ensures forall m :: m in s.local ==>
      t.local[m] == if m in s.mutables && StackOf(s, m) != [] then StackOf(s, m)[0] else s.local[m]
    ensures forall m :: m in s.exports ==>
      t.exports[m] == if m in s.mutables && StackOf(s, m) != [] then StackOf(s, m)[0] else s.exports[m]
    ensures forall m :: StackOf(t, m) == if m in s.mutables then [] else StackOf(s, m)
  {
    RestoreEachRestoresOldest(s, s.mutables);
    RestoreEach(s, s.mutables)
  }

  lemma RestoreAllKeepsValid(s: State)
    requires Valid(s)
    ensures Valid(RestoreAll(s))
  {
    var t := RestoreAll(s);
    assert MutablesDeclared(t) && OrderMatchesCache(t) && CacheResolvable(t);
  }

  // ------------------------------------------------------ several operations

  /** `mock` twice on the same name without `unmock` in between throws, and
      the failed call changes nothing. */
  lemma MockTwiceFails(s: State, n: Name, first: Value, second: Value)
    requires Mock(s, n, first).result.Ok?
    ensures var t := Mock(s, n, first).state;
            Mock(t, n, second) == Outcome(Err(AlreadyMocked(n)), t)
  {
  }

  /** A mocked name is `default` or resolvable, so `mock` keeps the cache resolvable. */
  lemma MockKeepsCacheResolvable(s: State, n: Name, impl: Value)
    requires CacheResolvable(s)
    ensures CacheResolvable(Mock(s, n, impl).state)
  {
  }

  /** `mock` then `unmock` returns the identical original and leaves the
      registry as it was, except that an export alias of a local name now
      holds the local value (the compiled module keeps the two equal). */
  lemma MockUnmockRoundTrip(s: State, n: Name, impl: Value)
    requires OrderMatchesCache(s) && CacheResolvable(s)
    requires n !in s.cache && (n == Default || Resolvable(s, n))
    ensures var original := ReadOriginal(s, n).value;
            var t := Mock(s, n, impl).state;
            && CacheResolvable(t)
            && Unmock(t, n) == Outcome(Ok(original),
                 s.(exports := if n in s.exports then s.exports[n := original] else s.exports))
  {
    MockKeepsCacheResolvable(s, n, impl);
    var original := ReadOriginal(s, n).value;
    var t := Mock(s, n, impl).state;
    var exports := if n in s.exports then s.exports[n := original] else s.exports;
    assert t.cache - {n} == s.cache;
    WithoutAppended(s.order, n);
    if n != Default {
      assert t.local[n := original] == s.local;
    }
    if n in s.exports {
      assert t.exports[n := original] == exports;
    }
    assert Unmock(t, n).state == s.(exports := exports);
  }

  /** When the export alias of `n` agrees with its local slot, `mock` then
      `unmock` restores the registry exactly. */
  lemma MockUnmockRestoresState(s: State, n: Name, impl: Value)
    requires OrderMatchesCache(s) && CacheResolvable(s)
    requires n !in s.cache && (n == Default || Resolvable(s, n))
    requires n != Default && n in s.exports ==> s.exports[n] == s.local[n]
    ensures var t := Mock(s, n, impl).state;
            CacheResolvable(t) && Unmock(t, n) == Outcome(Ok(ReadOriginal(s, n).value), s)
  {
    MockUnmockRoundTrip(s, n, impl);
    if n in s.exports {
      assert s.exports[n := ReadOriginal(s, n).value] == s.exports;
    }
  }

  /** `save(n)` before each assignment `n = vs[i]` by the module's own code
      (which the compiled module turns into the same two writes as `_set`). */
  function SaveThenAssign(s: State, n: Name, vs: seq<Value>): (t: State)
    requires Resolvable(s, n)
    ensures StacksResolvable(s) ==> StacksResolvable(t)
    ensures t.local.Keys == s.local.Keys
    ensures t == s.(local := t.local, exports := t.exports, stacks := t.stacks)
    decreases |vs|
  {
    if vs == [] then s
    else SaveThenAssign(SetBinding(Save(s, n).state, n, vs[0]), n, vs[1..])
  }

  /** `restore(n)` `k` times; the values restored, or the first error. */
  function RestoreTimes(s: State, n: Name, k: nat): (o: Outcome<seq<Value>>)
    requires StacksResolvable(s)
    ensures StacksResolvable(o.state) && o.state.local.Keys == s.local.Keys
    decreases k
  {
    if k == 0 then Outcome(Ok([]), s)
    else
      var first := Restore(s, n);
      match first.result
      case Err(e) => Outcome(Err(e), first.state)
      case Ok(v) =>
        var rest := RestoreTimes(first.state, n, k - 1);
        match rest.result
        case Err(e) => Outcome(Err(e), rest.state)
        case Ok(vs) => Outcome(Ok([v] + vs), rest.state)
  }

  function Reverse<T>(s: seq<T>): (r: seq<T>)
    ensures |r| == |s|
    ensures forall i :: 0 <= i < |s| ==> r[i] == s[|s| - 1 - i]
  {
    if s == [] then [] else [s[|s| - 1]] + Reverse(s[..|s| - 1])
  }

  /** The values a binding holds just before each assignment of `vs`, when
      it starts out as `first`: what the saves in `SaveThenAssign` push. */
  function Pushed(first: Value, vs: seq<Value>): (r: seq<Value>)
    ensures |r| == |vs|
    ensures forall i :: 0 <= i < |vs| ==> r[i] == ([first] + vs)[i]
    decreases |vs|
  {
    if vs == [] then [] else [first] + Pushed(vs[0], vs[1..])
  }

  /** One save followed by one assignment. */
  lemma SaveThenAssignStep(s: State, n: Name, v: Value)
    requires Resolvable(s, n)
    ensures var t := SetBinding(Save(s, n).state, n, v);
            && Resolvable(t, n)
            && StackOf(t, n) == StackOf(s, n) + [s.local[n]]
            && t.local[n] == v
  {
  }

  lemma {:induction false} SaveThenAssignPushes(s: State, n: Name, vs: seq<Value>)
    requires Resolvable(s, n)
    ensures var t := SaveThenAssign(s, n, vs);
            && StackOf(t, n) == StackOf(s, n) + Pushed(s.local[n], vs)
            && t.local[n] == if vs == [] then s.local[n] else vs[|vs| - 1]
    decreases |vs|
  {
    if vs != [] {
      var s1 := SetBinding(Save(s, n).state, n, vs[0]);
      SaveThenAssignStep(s, n, vs[0]);
      SaveThenAssignPushes(s1, n, vs[1..]);
      assert SaveThenAssign(s, n, vs) == SaveThenAssign(s1, n, vs[1..]);
      assert Pushed(s.local[n], vs) == [s.local[n]] + Pushed(vs[0], vs[1..]);
    }
  }

  lemma {:induction false} RestoreTimesPops(s: State, n: Name, base: seq<Value>, pushed: seq<Value>)
    requires StacksResolvable(s) && StackOf(s, n) == base + pushed
    ensures var o := RestoreTimes(s, n, |pushed|);
            && o.result == Ok(Reverse(pushed))
            && StackOf(o.state, n) == base
            && (pushed != [] ==> n in o.state.local && o.state.local[n] == pushed[0])
    decreases |pushed|
  {
    if pushed != [] {
      var st := base + pushed;
      var last := pushed[|pushed| - 1];
      var front := pushed[..|pushed| - 1];
      assert st[|st| - 1] == last;
      assert st[..|st| - 1] == base + front;
      var s1 := Restore(s, n).state;
      assert StackOf(s1, n) == base + front;
      assert s1.local[n] == last;
      RestoreTimesPops(s1, n, base, front);
      if front != [] {
        assert pushed[0] == front[0];
      }
    }
  }

  /** `n` saved before each of `k` assignments, then restored `k` times:
      the restores return the saved values newest first, the stack is back
      to what it was, and `n` holds its value from before the first save. */
  lemma SaveRestoreLifo(s: State, n: Name, vs: seq<Value>)
    requires StacksResolvable(s) && Resolvable(s, n)
    ensures var o := RestoreTimes(SaveThenAssign(s, n, vs), n, |vs|);
            && o.result == Ok(Reverse(Pushed(s.local[n], vs)))
            && StackOf(o.state, n) == StackOf(s, n)
            && (vs != [] ==> o.state.local[n] == s.local[n])
  {
    SaveThenAssignPushes(s, n, vs);
    RestoreTimesPops(SaveThenAssign(s, n, vs), n, StackOf(s, n), Pushed(s.local[n], vs));
  }

  /** The asymmetry between the two ways back: after saving a mutable before
      each of several assignments, `restore` returns the NEWEST saved value
      while `restoreAll` returns the OLDEST and leaves the stack empty. */
  lemma RestoreAllVersusRestore(s: State, n: Name, vs: seq<Value>)
    requires StacksResolvable(s) && Resolvable(s, n) && n in s.mutables
    requires StackOf(s, n) == [] && vs != []
    ensures var t := SaveThenAssign(s, n, vs);
            var w := [s.local[n]] + vs;
            && StacksResolvable(t)
            && Restore(t, n).result == Ok(w[|vs| - 1])
            && RestoreAll(t).local[n] == s.local[n]
            && StackOf(RestoreAll(t), n) == []
  {
    SaveThenAssignPushes(s, n, vs);
  }

  /** `saveAll` on mutables without restoration points, any assignments by
      the module's code, then `restoreAll`: every mutable is back to its
      value at `saveAll` and has no restoration point left. */
  lemma SaveAllRestoreAllRoundTrip(s: State, local: map<Name, Value>, exports: map<Name, Value>)
    requires MutablesDeclared(s) && StacksResolvable(s)
    requires forall m :: m in s.mutables ==> StackOf(s, m) == []
    requires local.Keys == s.local.Keys
    ensures var u := SaveAll(s).(local := local, exports := exports);
            && StacksResolvable(u)
            && (forall m :: m in s.mutables ==> RestoreAll(u).local[m] == s.local[m])
            && (forall m :: m in s.mutables ==> StackOf(RestoreAll(u), m) == [])
  {
    var t := SaveAll(s);
    SaveKeepsStacksResolvable(s, t, local, exports);
    var u := t.(local := local, exports := exports);
    var r := RestoreAll(u);
    forall m | m in s.mutables
      ensures r.local[m] == s.local[m] && StackOf(r, m) == []
    {
      assert StackOf(u, m) == [s.local[m]];
    }
  }

  /** Stacks that `saveAll` fills stay resolvable under any assignments. */
  lemma SaveKeepsStacksResolvable(s: State, t: State, local: map<Name, Value>, exports: map<Name, Value>)
    requires MutablesDeclared(s) && StacksResolvable(s)
    requires t == SaveAll(s) && local.Keys == s.local.Keys
    ensures StacksResolvable(t.(local := local, exports := exports))
  {
    forall m | m in t.stacks && t.stacks[m] != []
      ensures m != Default && m in local
    {
      assert StackOf(t, m) == t.stacks[m];
    }
  }

  /** Nothing to do is not an error: the bulk operations on a fresh registry
      leave it as it is. */
  lemma BulkOperationsOnFreshRegistry(s: State)
    requires s.cache == map[] && s.stacks == map[] && s.order == []
    ensures CacheResolvable(s) && OrderMatchesCache(s) && StacksResolvable(s)
    ensures UnmockAll(s) == s
    ensures ResetAllMocks(s) == s
    ensures RestoreAll(s) == s
  {
    assert UnmockAll(s).local == s.local;
    assert UnmockAll(s).exports == s.exports;
    assert RestoreAll(s).local == s.local;
    assert RestoreAll(s).exports == s.exports;
    assert RestoreAll(s).stacks == s.stacks;
  }
}

/**
  The `mockingbird` control object injected into a transformed module, as an
  object whose methods update its fields in place.

  Besides the registry's own state (the name lists, the cache of originals
  and the restoration stacks) the object holds the part of the module it
  acts on: the values of the module's top-level identifiers and the own
  properties of its `exports` object, which its methods overwrite through
  `_set`. Every method is proved to leave exactly the state, and to return
  exactly the result, that the matching function of RegistryModel describes.
*/
module Registry {
  import opened Names
  import RM = RegistryModel

  class Mockingbird {
    /** `_bindings` and `_mutables`: the names baked in by the transform. */
    const bindings: seq<Name>
    const mutables: seq<Name>
    /** The module scope as `eval` and `exports` see it. */
    var local: map<Name, RM.Value>
    var exports: map<Name, RM.Value>
    /** `_cache`, split into its entries and their insertion order. */
    var cache: map<Name, RM.Value>
    var order: seq<Name>
    /** `_restoration_points`. */
    var stacks: map<Name, seq<RM.Value>>
    /** Every value whose `mockReset()` has been called, oldest first. */
    var resets: seq<RM.Value>

    /** The whole state of the object, as a value. */
    function Model(): RM.State
      reads this
    {
      RM.State(bindings, mutables, local, exports, cache, order, stacks, resets)
    }

    ghost predicate Valid()
      reads this
    {
      RM.Valid(Model())
    }

    /** The object as the template builds it: the two name lists, an empty
        cache and no restoration points, over the module's current scope. */
    constructor (bindings: seq<Name>, mutables: seq<Name>,
                 local: map<Name, RM.Value>, exports: map<Name, RM.Value>)
      requires NoDuplicates(mutables)
      requires forall m :: m in mutables ==> m in bindings && m != Default && m in local
      ensures Valid()
      ensures Model() == RM.State(bindings, mutables, local, exports, map[], [], map[], [])
    {
      this.bindings := bindings;
      this.mutables := mutables;
      this.local := local;
      this.exports := exports;
      cache := map[];
      order := [];
      stacks := map[];
      resets := [];
    }

    /** `_set(n, v)` */
    method SetBinding(n: Name, v: RM.Value)
      requires n == Default || n in local
      modifies this
      ensures Model() == RM.SetBinding(old(Model()), n, v)
    {
      if n != Default {
        local := local[n := v];
      }
      if n in exports {
        exports := exports[n := v];
      }
    }

    /** `_reset(n)`, reading the export slot for `default`. */
    method Reset(n: Name)
      modifies this
      ensures Model() == RM.Reset(old(Model()), n)
    {
      var v := RM.LiveValue(Model(), n);
      if RM.Resettable(v) {
        resets := resets + [v];
      }
    }

    /** `mock(n, impl)` */
    method Mock(n: Name, impl: RM.Value) returns (r: RM.Result<RM.Value>)
      requires Valid()
      modifies this
      ensures Valid()
      ensures RM.Mock(old(Model()), n, impl) == RM.Outcome(r, Model())
    {
      RM.MockKeepsValid(Model(), n, impl);
      if n in cache {
        return RM.Err(RM.AlreadyMocked(n));
      }
      var original: RM.Value;
      if n == Default {
        original := if Default in exports then exports[Default] else RM.Undefined;
      } else if n in local {
        original := local[n];
      } else {
        return RM.Err(RM.Unresolvable(n));
      }
      cache := cache[n := original];
      order := order + [n];
      SetBinding(n, impl);
      return RM.Ok(impl);
    }

    /** `unmock(n)` */
    method Unmock(n: Name) returns (r: RM.Result<RM.Value>)
      requires Valid()
      modifies this
      ensures Valid()
      ensures RM.Unmock(old(Model()), n) == RM.Outcome(r, Model())
    {
      RM.UnmockKeepsValid(Model(), n);
      if n !in cache {
        return RM.Err(RM.NotMocked(n));
      }
      var original := cache[n];
      SetBinding(n, original);
      cache := cache - {n};
      order := RM.Without(order, n);
      return RM.Ok(original);
    }

    /** `unmockAll()`: `_set` for every cache entry in insertion order, then `clear`. */
    method UnmockAll()
      requires Valid()
      modifies this
      ensures Valid()
      ensures Model() == RM.UnmockAll(old(Model()))
    {
      ghost var s := Model();
      RM.UnmockAllKeepsValid(s);
      var names := order;
      var i := 0;
      while i < |names|
        invariant 0 <= i <= |names|
        invariant RM.CacheResolvable(Model())
        invariant forall m :: m in names[i..] ==> m in cache
        invariant RM.UnmockEach(Model(), names[i..]) == RM.UnmockEach(s, names)
      {
        RM.UnmockEachStep(Model(), names[i..]);
        assert names[i..][1..] == names[i + 1..];
        SetBinding(names[i], cache[names[i]]);
        i := i + 1;
      }
      assert Model() == RM.UnmockEach(s, names);
      cache := map[];
      order := [];
    }

    /** `resetMock(n)` */
    method ResetMock(n: Name) returns (r: RM.Result<()>)
      requires Valid()
      modifies this
      ensures Valid()
      ensures RM.ResetMock(old(Model()), n) == RM.Outcome(r, Model())
    {
      if n !in cache {
        return RM.Err(RM.NotMocked(n));
      }
      ghost var s := Model();
      Reset(n);
      RM.ResetsKeepValid(s, resets);
      return RM.Ok(());
    }

    /** `resetAllMocks()`: `_reset` for every cache entry in insertion order. */
    method ResetAllMocks()
      requires Valid()
      modifies this
      ensures Valid()
      ensures Model() == RM.ResetAllMocks(old(Model()))
    {
      ghost var s := Model();
      var names := order;
      var i := 0;
      while i < |names|
        invariant 0 <= i <= |names|
        invariant RM.ResetEach(Model(), names[i..]) == RM.ResetEach(s, names)
      {
        Reset(names[i]);
        assert names[i..][1..] == names[i + 1..];
        i := i + 1;
      }
      RM.ResetsKeepValid(s, resets);
    }

    /** `save(n)` */
    method Save(n: Name) returns (r: RM.Result<RM.Value>)
      requires Valid()
      modifies this
      ensures Valid()
      ensures RM.Save(old(Model()), n) == RM.Outcome(r, Model())
    {
      RM.SaveKeepsValid(Model(), n);
      if n !in stacks {
        stacks := stacks[n := []];
      }
      if n == Default || n !in local {
        return RM.Err(RM.Unresolvable(n));
      }
      var value := local[n];
      stacks := stacks[n := stacks[n] + [value]];
      return RM.Ok(value);
    }

    /** `restore(n)` */
    method Restore(n: Name) returns (r: RM.Result<RM.Value>)
      requires Valid()
      modifies this
      ensures Valid()
      ensures RM.Restore(old(Model()), n) == RM.Outcome(r, Model())
    {
      RM.RestoreKeepsValid(Model(), n);
      if n !in stacks {
        return RM.Err(RM.NoStack(n));
      }
      var points := stacks[n];
      if |points| == 0 {
        return RM.Err(RM.NoRestorationPoints(n));
      }
      var value := points[|points| - 1];
      stacks := stacks[n := points[..|points| - 1]];
      SetBinding(n, value);
      return RM.Ok(value);
    }

    /** `saveAll()`: `save` for each mutable, in order. */
    method SaveAll()
      requires Valid()
      modifies this
      ensures Valid()
      ensures Model() == RM.SaveAll(old(Model()))
    {
      ghost var s := Model();
      var i := 0;
      while i < |mutables|
        invariant 0 <= i <= |mutables|
        invariant Valid()
        invariant RM.SaveEach(Model(), mutables[i..]) == RM.SaveEach(s, mutables)
      {
        var _ := Save(mutables[i]);
        assert mutables[i..][1..] == mutables[i + 1..];
        i := i + 1;
      }
    }

    /** One iteration of `restoreAll`'s loop, for `n`. */
    method RestoreOldest(n: Name)
      requires RM.StacksResolvable(Model())
      modifies this
      ensures Model() == RM.RestoreOldest(old(Model()), n)
    {
      var points := if n in stacks then stacks[n] else [];
      if |points| > 0 {
        SetBinding(n, points[0]);
        stacks := stacks[n := []];
      }
    }

    /** `restoreAll()`: for each mutable with a restoration point, install
        the oldest one and empty its stack. */
    method RestoreAll()
      requires Valid()
      modifies this
      ensures Valid()
      ensures Model() == RM.RestoreAll(old(Model()))
    {
      ghost var s := Model();
      RM.RestoreAllKeepsValid(s);
      var i := 0;
      while i < |mutables|
        invariant 0 <= i <= |mutables|
        invariant RM.StacksResolvable(Model())
        invariant RM.RestoreEach(Model(), mutables[i..]) == RM.RestoreEach(s, mutables)
      {
        RestoreOldest(mutables[i]);
        assert mutables[i..][1..] == mutables[i + 1..];
        i := i + 1;
      }
    }
  }
}

/** `EnumBehavior::strategy()`: the alias-to-strategy cache, filled on first use. */
module Resolver {
  import opened Outcomes
  import opened Php
  import opened Strategies

  /** The behaviour's `$_strategies` cache, plus the count of strategy objects
      built so far (which gives each new object its identity). */
  datatype Registry = Registry(cache: map<Key, Value>, serial: nat)

  /** The state a behaviour starts with. */
  const EmptyRegistry := Registry(map[], 0)

  /** The outcome of one call: what it returned or threw, and the registry after it. */
  datatype Resolution = Resolution(result: Result<Value, Error>, registry: Registry)

  /** A cache slot that counts as a hit: present and not `empty()`. */
  predicate IsHit(r: Registry, alias: Key) {
    alias in r.cache && !IsEmpty(r.cache[alias])
  }

  /** `strategy($alias, $strategy)`. On a miss the raw identifier is written to
      the cache before it is checked, so a failed call leaves it there. */
  function Resolve(r: Registry, alias: Key, identifier: Value): (out: Resolution)
    ensures out.registry.cache.Keys == r.cache.Keys + {alias}
    ensures forall a :: a in r.cache && a != alias ==> out.registry.cache[a] == r.cache[a]
    ensures out.result.Success? ==> out.registry.cache[alias] == out.result.value && !IsEmpty(out.result.value)
    ensures out.result.Failure? ==>
              && identifier.Str?
              && identifier.s !in ClassMap
              && out.result.error == InvalidArgument(identifier.s)
              && out.registry.cache[alias] == identifier
    ensures out.registry.serial == r.serial || out.registry.serial == r.serial + 1
  {
    if IsHit(r, alias) then
      Resolution(Success(r.cache[alias]), r)
    else
      var stored := r.(cache := r.cache[alias := identifier]);
      match identifier
      case Obj(_) => Resolution(Success(identifier), stored)
      case Str(name) =>
        if name in ClassMap then
          var inst := Strategy(ClassMap[name], alias, r.serial);
          Resolution(Success(Obj(inst)), Registry(stored.cache[alias := Obj(inst)], r.serial + 1))
        else
          Resolution(Failure(InvalidArgument(name)), stored)
  }

  /** A cache hit returns the cached entry whatever identifier is passed, and changes nothing. */
  lemma HitIgnoresIdentifier(r: Registry, alias: Key, x: Value, y: Value)
    requires IsHit(r, alias)
    ensures Resolve(r, alias, x) == Resolve(r, alias, y) == Resolution(Success(r.cache[alias]), r)
  {
  }

  /** A miss on a short name from the class map builds one new object of the
      mapped class for that alias, and the cache gains exactly that entry. */
  lemma MissBuildsMappedClass(r: Registry, alias: Key, name: string)
    requires !IsHit(r, alias) && name in ClassMap
    ensures var out := Resolve(r, alias, Str(name));
            && out.result == Success(Obj(Strategy(ClassMap[name], alias, r.serial)))
            && out.registry == Registry(r.cache[alias := Obj(Strategy(ClassMap[name], alias, r.serial))], r.serial + 1)
  {
  }

  /** Every cached strategy object has an identity the registry has already
      handed out. Objects the registry builds keep this; a ready-made object
      passed in by the configuration keeps it only if it was built earlier. */
  predicate FreshSerials(r: Registry) {
    forall a :: a in r.cache && r.cache[a].Obj? ==> r.cache[a].inst.serial < r.serial
  }

  /** `strategy()` keeps every cached identity below the counter, provided a
      ready-made object it is given was built before. */
  lemma ResolveKeepsFreshSerials(r: Registry, alias: Key, identifier: Value)
    requires FreshSerials(r)
    requires identifier.Obj? ==> identifier.inst.serial < r.serial
    ensures FreshSerials(Resolve(r, alias, identifier).registry)
  {
  }

  /** The object built on a miss is a new one: no strategy already cached
      shares its identity. This holds for the objects the registry built; a
      ready-made object from the configuration may carry any identity. */
  lemma MissBuildsNewObject(r: Registry, alias: Key, name: string)
    requires !IsHit(r, alias) && name in ClassMap
    requires FreshSerials(r)
    ensures var out := Resolve(r, alias, Str(name));
            && out.result.Success? && out.result.value.Obj?
            && forall a :: a in r.cache ==> r.cache[a] != out.result.value
  {
  }

  /** A miss with a ready-built strategy object caches and returns that very object. */
  lemma MissKeepsGivenObject(r: Registry, alias: Key, inst: Strategy)
    requires !IsHit(r, alias)
    ensures Resolve(r, alias, Obj(inst)) == Resolution(Success(Obj(inst)), r.(cache := r.cache[alias := Obj(inst)]))
  {
  }

  /** A miss with an identifier outside the class map throws, and the raw
      identifier stays in the cache. */
  lemma MissOnUnknownNameThrows(r: Registry, alias: Key, name: string)
    requires !IsHit(r, alias) && name !in ClassMap
    ensures Resolve(r, alias, Str(name)) == Resolution(Failure(InvalidArgument(name)), r.(cache := r.cache[alias := Str(name)]))
  {
  }

  /** Once `strategy()` has returned for an alias, every later call for that
      alias returns the same value, whatever identifier it passes, and leaves
      the registry as it is. */
  lemma ResolveIsMemoised(r: Registry, alias: Key, x: Value, y: Value)
    requires Resolve(r, alias, x).result.Success?
    ensures var first := Resolve(r, alias, x);
            Resolve(first.registry, alias, y) == Resolution(first.result, first.registry)
  {
  }

  /** After a failed call with a non-empty unknown name, the next call for the
      same alias is a hit on that raw string: it returns a value that is not a
      strategy object, whatever identifier it passes. */
  lemma FailureLeavesRawIdentifier(r: Registry, alias: Key, name: string, y: Value)
    requires !IsHit(r, alias) && name !in ClassMap && !IsEmptyString(name)
    ensures var first := Resolve(r, alias, Str(name));
            && first.result.Failure?
            && first.registry.cache != r.cache
            && Resolve(first.registry, alias, y).result == Success(Str(name))
  {
    var first := Resolve(r, alias, Str(name));
    if alias in r.cache {
      assert IsEmpty(r.cache[alias]);
      assert first.registry.cache[alias] != r.cache[alias];
    } else {
      assert alias in first.registry.cache;
    }
  }
}

/** `EnumBehavior::enum()`: the key-to-label list of one alias. */
module Accessor {
  import opened Outcomes
  import opened Php
  import opened PhpArray
  import opened Strategies
  import opened Resolver
  import opened Normalizer
  import opened NormalizerFacts

  /** What a call on a behaviour returned or threw, and the behaviour after it
      (a call may fill the strategy cache). */
  datatype Answer<+T> = Answer(result: Result<T, Error>, behavior: Behavior)

  /** `$this->config('strategies.' . $alias)` is present and not `empty()`. */
  predicate Configured(b: Behavior, alias: Key): (r: bool)
    ensures UniqueKeys(b.strategies) ==>
              (r <==> exists j :: 0 <= j < |b.strategies| && b.strategies[j].0 == alias && |b.strategies[j].1| > 0)
  {
    GetByPosition(b.strategies, alias);
    Get(b.strategies, alias).Some? && |Get(b.strategies, alias).value| > 0
  }

  /** `enum($alias)`, with `$alias` already turned into the array key it addresses. */
  function Enum(host: Host, b: Behavior, alias: Key): (out: Answer<map<Key, string>>)
    ensures out.behavior.strategies == b.strategies
    ensures out.result == Failure(RuntimeError) <==> !Configured(b, alias)
    ensures !Configured(b, alias) ==> out.behavior == b
    ensures Configured(b, alias) ==>
              out.behavior.registry == Resolve(b.registry, alias, Setting(Get(b.strategies, alias).value, "className")).registry
    ensures out.result.Success? ==>
              && alias in out.behavior.registry.cache && out.behavior.registry.cache[alias].Obj?
              && out.result.value == host.enumerate(out.behavior.registry.cache[alias].inst, Get(b.strategies, alias).value)
    ensures out.result.Failure? && Configured(b, alias) ==>
              out.result.error == NotAnObject || (out.result.error.InvalidArgument? && out.result.error.identifier !in ClassMap)
  {
    var config := Get(b.strategies, alias);
    if config.None? || |config.value| == 0 then
      Answer(Failure(RuntimeError), b)
    else
      var res := Resolve(b.registry, alias, Setting(config.value, "className"));
      var b' := b.(registry := res.registry);
      match res.result
      case Failure(err) => Answer(Failure(err), b')
      case Success(Obj(inst)) => Answer(Success(host.enumerate(inst, config.value)), b')
      case Success(Str(_)) => Answer(Failure(NotAnObject), b')
  }

  /** On a coherent behaviour `enum()` fails only for an unconfigured alias,
      never touches the cache, and otherwise returns the cached strategy's
      list for the stored configuration. */
  lemma EnumOnCoherent(host: Host, b: Behavior, alias: Key)
    requires Coherent(b)
    ensures Configured(b, alias) ==>
              Enum(host, b, alias) ==
                Answer(Success(host.enumerate(b.registry.cache[alias].inst, Get(b.strategies, alias).value)), b)
    ensures !Configured(b, alias) ==> Enum(host, b, alias) == Answer(Failure(RuntimeError), b)
  {
    if Configured(b, alias) {
      assert IsHit(b.registry, alias);
    }
  }

  /** Once `enum()` has answered for an alias, asking again gives the same
      list and changes nothing more. */
  lemma EnumIsMemoised(host: Host, b: Behavior, alias: Key)
    requires Enum(host, b, alias).result.Success?
    ensures var first := Enum(host, b, alias);
            Enum(host, first.behavior, alias) == first
  {
    var config := Get(b.strategies, alias).value;
    ResolveIsMemoised(b.registry, alias, Setting(config, "className"), Setting(config, "className"));
  }
}

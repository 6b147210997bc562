/** What `_normalizeConfig()` guarantees about the configuration and the
    strategy cache it leaves behind. */
module NormalizerFacts {
  import opened Outcomes
  import opened Php
  import opened PhpArray
  import opened Strategies
  import opened Resolver
  import opened Normalizer

  // ---------------------------------------------------------------------
  // The aliases the first `n` entries of the input configure

  function AliasAt(input: seq<(Key, Entry)>, j: nat): Option<Key>
    requires j < |input|
  {
    AliasOf(input[j].0, input[j].1)
  }

  /** All aliases configured by the first `n` entries. */
  function Aliases(input: seq<(Key, Entry)>, n: nat): set<Key>
    requires n <= |input|
  {
    set j | 0 <= j < n && AliasAt(input, j).Some? :: AliasAt(input, j).value
  }

  /** The aliases among them that are not numeric (these are never unset). */
  function NonNumericAliases(input: seq<(Key, Entry)>, n: nat): set<Key>
    requires n <= |input|
  {
    set a | a in Aliases(input, n) && !IsNumericKey(a)
  }

  /** The input's non-numeric keys. */
  function NonNumericKeys(input: seq<(Key, Entry)>): set<Key> {
    set j | 0 <= j < |input| && !IsNumericKey(input[j].0) :: input[j].0
  }

  /** The aliases named by the string values of numeric-keyed entries. */
  function ValueAliases(input: seq<(Key, Entry)>): set<Key> {
    set j | 0 <= j < |input| && IsNumericKey(input[j].0) && input[j].1.Text? :: ToKey(input[j].1.s)
  }

  lemma AliasesSnoc(input: seq<(Key, Entry)>, i: nat)
    requires i < |input|
    ensures AliasAt(input, i).None? ==> Aliases(input, i + 1) == Aliases(input, i)
    ensures AliasAt(input, i).Some? ==> Aliases(input, i + 1) == Aliases(input, i) + {AliasAt(input, i).value}
    ensures AliasAt(input, i).None? || IsNumericKey(AliasAt(input, i).value) ==>
              NonNumericAliases(input, i + 1) == NonNumericAliases(input, i)
    ensures AliasAt(input, i).Some? && !IsNumericKey(AliasAt(input, i).value) ==>
              NonNumericAliases(input, i + 1) == NonNumericAliases(input, i) + {AliasAt(input, i).value}
  {
    AllAliasesSnoc(input, i);
    NonNumericAliasesSnoc(input, i);
  }

  lemma AllAliasesSnoc(input: seq<(Key, Entry)>, i: nat)
    requires i < |input|
    ensures Aliases(input, i + 1) == Aliases(input, i) + (if AliasAt(input, i).Some? then {AliasAt(input, i).value} else {})
  {
    var extra := if AliasAt(input, i).Some? then {AliasAt(input, i).value} else {};
    forall x | x in Aliases(input, i + 1) ensures x in Aliases(input, i) + extra {
      var j :| 0 <= j < i + 1 && AliasAt(input, j).Some? && AliasAt(input, j).value == x;
      if j < i {
        assert x in Aliases(input, i);
      }
    }
    forall x | x in Aliases(input, i) ensures x in Aliases(input, i + 1) {
      var j :| 0 <= j < i && AliasAt(input, j).Some? && AliasAt(input, j).value == x;
      assert AliasAt(input, j).value in Aliases(input, i + 1);
    }
    if AliasAt(input, i).Some? {
      assert AliasAt(input, i).value in Aliases(input, i + 1);
    }
  }

  lemma NonNumericAliasesSnoc(input: seq<(Key, Entry)>, i: nat)
    requires i < |input|
    ensures NonNumericAliases(input, i + 1) ==
              NonNumericAliases(input, i) +
              (if AliasAt(input, i).Some? && !IsNumericKey(AliasAt(input, i).value) then {AliasAt(input, i).value} else {})
  {
    AllAliasesSnoc(input, i);
  }

  /** The entry at position `l` is the last of the first `n` to configure alias `a`. */
  predicate LastWriter(input: seq<(Key, Entry)>, n: nat, l: nat, a: Key)
    requires n <= |input|
  {
    && l < n
    && AliasAt(input, l) == Some(a)
    && forall l' :: l < l' < n ==> AliasAt(input, l') != Some(a)
  }

  /** Slot `a` holds the normalised configuration written by the last entry
      (among the first `n`) that configures `a`, normalised by the strategy
      object the cache holds for `a`. */
  ghost predicate StoredBy(host: Host, default: Value, input: seq<(Key, Entry)>, n: nat, reg: Registry, a: Key, e: Entry)
    requires n <= |input|
  {
    && a in reg.cache && reg.cache[a].Obj?
    && exists l: nat :: LastWriter(input, n, l, a) &&
         e == Array(host.normalize(reg.cache[a].inst, Prepared(host, default, input[l].0, input[l].1)))
  }

  /** Every cached value is a strategy object. */
  predicate AllInstances(reg: Registry) {
    forall a :: a in reg.cache ==> reg.cache[a].Obj?
  }

  /** A behaviour in the state `initialize()` leaves: every alias has a strategy object cached. */
  predicate Coherent(b: Behavior) {
    forall a :: a in KeysOf(b.strategies) ==> a in b.registry.cache && b.registry.cache[a].Obj?
  }

  // ---------------------------------------------------------------------
  // Loop invariants

  /** A successful iteration hands its result and registry to the rest of the loop. */
  lemma RunUnfold(host: Host, default: Value, input: seq<(Key, Entry)>, i: nat, w: seq<(Key, Entry)>, reg: Registry)
    requires i < |input| && UniqueKeys(input) && UniqueKeys(w) && SettledAreArrays(input, i, w)
    requires Step(host, default, input[i].0, input[i].1, w, reg).result.Success?
    ensures var s := Step(host, default, input[i].0, input[i].1, w, reg);
            && UniqueKeys(s.result.value)
            && SettledAreArrays(input, i + 1, s.result.value)
            && Run(host, default, input, i, w, reg) == Run(host, default, input, i + 1, s.result.value, s.registry)
  {
    StepSettles(host, default, input, i, w, reg);
  }

  /** A successful iteration over a registry holding only strategy objects
      keeps every earlier cache entry and adds only strategy objects. */
  lemma StepKeepsCache(host: Host, default: Value, k: Key, e: Entry, w: seq<(Key, Entry)>, reg: Registry)
    requires AllInstances(reg)
    ensures var p := Step(host, default, k, e, w, reg);
            p.result.Success? ==>
              && AllInstances(p.registry)
              && forall b :: b in reg.cache ==> p.registry.cache[b] == reg.cache[b]
  {
    if Step(host, default, k, e, w, reg).result.Success? {
      StepRegistry(host, default, k, e, w, reg);
      ResolveKeepsInstances(reg, AliasOf(k, e).value, Setting(Prepared(host, default, k, e), "className"));
    }
  }

  /** An iteration leaves the registry as `resolve()` leaves it, and succeeds
      only when `resolve()` returned a strategy object. */
  lemma StepRegistry(host: Host, default: Value, k: Key, e: Entry, w: seq<(Key, Entry)>, reg: Registry)
    requires Step(host, default, k, e, w, reg).result.Success?
    ensures AliasOf(k, e).Some?
    ensures var out := Resolve(reg, AliasOf(k, e).value, Setting(Prepared(host, default, k, e), "className"));
            && Step(host, default, k, e, w, reg).registry == out.registry
            && out.result.Success? && out.result.value.Obj?
  {
  }

  /** Resolving into a registry of strategy objects keeps every entry and,
      when it yields an object, caches only objects. */
  lemma ResolveKeepsInstances(reg: Registry, a: Key, x: Value)
    requires AllInstances(reg)
    ensures var out := Resolve(reg, a, x);
            out.result.Success? && out.result.value.Obj? ==>
              && AllInstances(out.registry)
              && forall b :: b in reg.cache ==> out.registry.cache[b] == reg.cache[b]
  {
    if a in reg.cache {
      assert IsHit(reg, a);
      HitIgnoresIdentifier(reg, a, x, x);
    }
  }

  lemma {:induction false} RunKeys(host: Host, default: Value, input: seq<(Key, Entry)>, i: nat, w: seq<(Key, Entry)>, reg: Registry)
    requires i <= |input| && UniqueKeys(input) && UniqueKeys(w) && SettledAreArrays(input, i, w)
    requires KeysOf(w) <= Pending(input, i) + Aliases(input, i)
    requires NonNumericAliases(input, i) <= KeysOf(w)
    ensures var p := Run(host, default, input, i, w, reg);
            p.result.Success? ==>
              && KeysOf(p.result.value) <= Aliases(input, |input|)
              && NonNumericAliases(input, |input|) <= KeysOf(p.result.value)
    decreases |input| - i
  {
    if i == |input| {
      assert Pending(input, i) == {};
    } else {
      var s := Step(host, default, input[i].0, input[i].1, w, reg);
      if s.result.Success? {
        PendingSplit(input, i);
        AliasesSnoc(input, i);
        RunUnfold(host, default, input, i, w, reg);
        var w' := s.result.value;
        RunKeys(host, default, input, i + 1, w', s.registry);
      }
    }
  }

  lemma {:induction false} RunCache(host: Host, default: Value, input: seq<(Key, Entry)>, i: nat, w: seq<(Key, Entry)>, reg: Registry)
    requires i <= |input| && UniqueKeys(input) && UniqueKeys(w) && SettledAreArrays(input, i, w)
    requires AllInstances(reg)
    requires Aliases(input, i) <= reg.cache.Keys
    ensures var p := Run(host, default, input, i, w, reg);
            p.result.Success? ==>
              && AllInstances(p.registry)
              && Aliases(input, |input|) <= p.registry.cache.Keys
              && forall b :: b in reg.cache ==> b in p.registry.cache && p.registry.cache[b] == reg.cache[b]
    decreases |input| - i
  {
    if i < |input| {
      var s := Step(host, default, input[i].0, input[i].1, w, reg);
      if s.result.Success? {
        AliasesSnoc(input, i);
        StepKeepsCache(host, default, input[i].0, input[i].1, w, reg);
        RunUnfold(host, default, input, i, w, reg);
        var w' := s.result.value;
        RunCache(host, default, input, i + 1, w', s.registry);
      }
    }
  }

  /** One iteration keeps the stored-slot invariant for a single alias `a`. */
  lemma StepKeepsStored(host: Host, default: Value, input: seq<(Key, Entry)>, i: nat, w: seq<(Key, Entry)>, reg: Registry, a: Key)
    requires i < |input| && UniqueKeys(input) && UniqueKeys(w) && AllInstances(reg)
    requires Step(host, default, input[i].0, input[i].1, w, reg).result.Success?
    requires a in KeysOf(w) && a !in Pending(input, i) ==> StoredBy(host, default, input, i, reg, a, Get(w, a).value)
    requires a in KeysOf(Step(host, default, input[i].0, input[i].1, w, reg).result.value) && a !in Pending(input, i + 1)
    ensures var s := Step(host, default, input[i].0, input[i].1, w, reg);
            StoredBy(host, default, input, i + 1, s.registry, a, Get(s.result.value, a).value)
  {
    var k := input[i].0;
    var s := Step(host, default, k, input[i].1, w, reg);
    PendingSplit(input, i);
    StepKeepsCache(host, default, k, input[i].1, w, reg);
    var w' := s.result.value;
    var x := AliasAt(input, i).value;
    if a == x {
      assert LastWriter(input, i + 1, i, x);
    } else {
      assert a != k;
      assert Get(w', a) == Get(w, a);
      StoredByExtends(host, default, input, i, reg, s.registry, a, Get(w, a).value);
    }
  }

  /** A slot that entry `i` does not configure keeps its last writer, and its
      strategy object, when the loop moves past entry `i`. */
  lemma StoredByExtends(host: Host, default: Value, input: seq<(Key, Entry)>, i: nat, reg: Registry, reg': Registry, a: Key, e: Entry)
    requires i < |input| && AliasAt(input, i) != Some(a)
    requires StoredBy(host, default, input, i, reg, a, e)
    requires a in reg'.cache && reg'.cache[a] == reg.cache[a]
    ensures StoredBy(host, default, input, i + 1, reg', a, e)
  {
    var l: nat :| LastWriter(input, i, l, a) &&
             e == Array(host.normalize(reg.cache[a].inst, Prepared(host, default, input[l].0, input[l].1)));
    LastWriterExtends(input, i, l, a);
    StoredByWitness(host, default, input, i + 1, reg', a, e, l);
  }

  lemma LastWriterExtends(input: seq<(Key, Entry)>, i: nat, l: nat, a: Key)
    requires i < |input| && AliasAt(input, i) != Some(a)
    requires LastWriter(input, i, l, a)
    ensures LastWriter(input, i + 1, l, a)
  {
  }

  lemma StoredByWitness(host: Host, default: Value, input: seq<(Key, Entry)>, n: nat, reg: Registry, a: Key, e: Entry, l: nat)
    requires n <= |input| && a in reg.cache && reg.cache[a].Obj? && LastWriter(input, n, l, a)
    requires e == Array(host.normalize(reg.cache[a].inst, Prepared(host, default, input[l].0, input[l].1)))
    ensures StoredBy(host, default, input, n, reg, a, e)
  {
  }

  lemma {:induction false} RunValues(host: Host, default: Value, input: seq<(Key, Entry)>, i: nat, w: seq<(Key, Entry)>, reg: Registry)
    requires i <= |input| && UniqueKeys(input) && UniqueKeys(w) && SettledAreArrays(input, i, w)
    requires AllInstances(reg)
    requires forall a :: a in KeysOf(w) && a !in Pending(input, i) ==> StoredBy(host, default, input, i, reg, a, Get(w, a).value)
    ensures var p := Run(host, default, input, i, w, reg);
            p.result.Success? ==>
              forall a :: a in KeysOf(p.result.value) ==>
                StoredBy(host, default, input, |input|, p.registry, a, Get(p.result.value, a).value)
    decreases |input| - i
  {
    if i == |input| {
      assert Pending(input, i) == {};
    } else {
      var s := Step(host, default, input[i].0, input[i].1, w, reg);
      if s.result.Success? {
        var w' := s.result.value;
        forall a | a in KeysOf(w') && a !in Pending(input, i + 1)
          ensures StoredBy(host, default, input, i + 1, s.registry, a, Get(w', a).value)
        {
          StepKeepsStored(host, default, input, i, w, reg, a);
        }
        StepKeepsCache(host, default, input[i].0, input[i].1, w, reg);
        RunUnfold(host, default, input, i, w, reg);
        RunValues(host, default, input, i + 1, w', s.registry);
      }
    }
  }

  // ---------------------------------------------------------------------
  // Preparing one entry

  /** A string value under an alias becomes `{prefix: strtoupper(value)}`,
      and, unless overridden, its strategy is `lookup`. */
  lemma PreparedStringEntry(host: Host, k: Key, s: string, strategies: seq<(Key, Entry)>)
    requires !IsNumericKey(k)
    ensures Prepared(host, Configure(None, strategies).defaultStrategy, k, Text(s))
              == map["prefix" := Str(host.upper(s)), "className" := Str("lookup")]
  {
  }

  /** A bare alias in list position gets an empty configuration with the default strategy. */
  lemma PreparedListEntry(host: Host, default: Value, k: Key, s: string)
    requires IsNumericKey(k)
    ensures AliasOf(k, Text(s)) == Some(ToKey(s))
    ensures Prepared(host, default, k, Text(s)) == map["className" := default]
  {
  }

  /** An array whose `className` is not empty is passed on unchanged; one
      whose `className` is missing or empty gets the default strategy. */
  lemma PreparedArrayEntry(host: Host, default: Value, k: Key, c: Config)
    requires !IsNumericKey(k)
    ensures !IsEmpty(Setting(c, "className")) ==> Prepared(host, default, k, Array(c)) == c
    ensures IsEmpty(Setting(c, "className")) ==> Prepared(host, default, k, Array(c)) == c["className" := default]
  {
  }

  // ---------------------------------------------------------------------
  // What a successful normalisation leaves behind

  lemma ConfigsKeys(w: seq<(Key, Entry)>)
    requires forall j :: 0 <= j < |w| ==> w[j].1.Array?
    ensures KeysOf(Configs(w)) == KeysOf(w)
  {
    var r := Configs(w);
    assert forall j :: 0 <= j < |w| ==> r[j].0 == w[j].0;
  }

  /** Every alias configured by an entry is one of the three kinds of alias. */
  lemma AliasesPartition(input: seq<(Key, Entry)>)
    ensures Aliases(input, |input|) == NonNumericKeys(input) + ValueAliases(input)
  {
    forall a | a in Aliases(input, |input|) ensures a in NonNumericKeys(input) + ValueAliases(input) {
      var j :| 0 <= j < |input| && AliasAt(input, j).Some? && AliasAt(input, j).value == a;
      if IsNumericKey(input[j].0) {
        assert a == ToKey(input[j].1.s);
      }
    }
    forall a | a in NonNumericKeys(input) + ValueAliases(input) ensures a in Aliases(input, |input|) {
      if a in NonNumericKeys(input) {
        var j :| 0 <= j < |input| && !IsNumericKey(input[j].0) && input[j].0 == a;
        assert AliasAt(input, j) == Some(a);
      } else {
        var j :| 0 <= j < |input| && IsNumericKey(input[j].0) && input[j].1.Text? && ToKey(input[j].1.s) == a;
        assert AliasAt(input, j) == Some(a);
      }
    }
  }

  /** After `initialize()`, the aliases are among those the entries name, and
      none of the non-numeric ones is lost. */
  lemma SetupAliases(host: Host, settings: Settings)
    requires UniqueKeys(settings.strategies)
    ensures var r := Setup(host, settings);
            var input := settings.strategies;
            r.Success? ==>
              && NonNumericAliases(input, |input|) <= KeysOf(r.value.strategies)
              && KeysOf(r.value.strategies) <= NonNumericKeys(input) + ValueAliases(input)
  {
    var input := settings.strategies;
    assert input[0..] == input;
    var p := Run(host, settings.defaultStrategy, input, 0, input, EmptyRegistry);
    RunKeys(host, settings.defaultStrategy, input, 0, input, EmptyRegistry);
    AliasesPartition(input);
    if p.result.Success? {
      ConfigsKeys(p.result.value);
    }
  }

  /** When no list-style alias is itself numeric, the aliases after
      `initialize()` are exactly the non-numeric keys plus the list-style
      values, and no numeric key survives. */
  lemma SetupAliasesExact(host: Host, settings: Settings)
    requires UniqueKeys(settings.strategies)
    requires forall j :: 0 <= j < |settings.strategies| && IsNumericKey(settings.strategies[j].0) && settings.strategies[j].1.Text? ==>
               !IsNumericString(settings.strategies[j].1.s)
    ensures var r := Setup(host, settings);
            var input := settings.strategies;
            r.Success? ==>
              && KeysOf(r.value.strategies) == NonNumericKeys(input) + ValueAliases(input)
              && forall a :: a in KeysOf(r.value.strategies) ==> !IsNumericKey(a)
  {
    var input := settings.strategies;
    forall j | 0 <= j < |input| && AliasAt(input, j).Some?
      ensures !IsNumericKey(AliasAt(input, j).value)
    {
      if IsNumericKey(input[j].0) {
        NonNumericStringKey(input[j].1.s);
      }
    }
    assert Aliases(input, |input|) == NonNumericAliases(input, |input|);
    AliasesPartition(input);
    SetupAliases(host, settings);
  }

  /** A constructed behaviour has a strategy object cached for every alias,
      and nothing but strategy objects in its cache. */
  lemma SetupCachesEveryAlias(host: Host, settings: Settings)
    requires UniqueKeys(settings.strategies)
    ensures var r := Setup(host, settings);
            r.Success? ==>
              && AllInstances(r.value.registry)
              && Coherent(r.value)
  {
    var input := settings.strategies;
    assert input[0..] == input;
    var p := Run(host, settings.defaultStrategy, input, 0, input, EmptyRegistry);
    RunKeys(host, settings.defaultStrategy, input, 0, input, EmptyRegistry);
    RunCache(host, settings.defaultStrategy, input, 0, input, EmptyRegistry);
    if p.result.Success? {
      ConfigsKeys(p.result.value);
    }
  }

  /** Each stored configuration is the resolved strategy's `normalize()` of
      the prepared configuration of the last entry naming that alias. */
  lemma SetupStoresNormalized(host: Host, settings: Settings)
    requires UniqueKeys(settings.strategies)
    ensures var r := Setup(host, settings);
            var input := settings.strategies;
            r.Success? ==>
              forall j :: 0 <= j < |r.value.strategies| ==>
                var a := r.value.strategies[j].0;
                && a in r.value.registry.cache && r.value.registry.cache[a].Obj?
                && exists l: nat :: LastWriter(input, |input|, l, a) &&
                     r.value.strategies[j].1 ==
                       host.normalize(r.value.registry.cache[a].inst,
                                      Prepared(host, settings.defaultStrategy, input[l].0, input[l].1))
  {
    var input := settings.strategies;
    assert input[0..] == input;
    var p := Run(host, settings.defaultStrategy, input, 0, input, EmptyRegistry);
    RunValues(host, settings.defaultStrategy, input, 0, input, EmptyRegistry);
    if p.result.Success? {
      var w := p.result.value;
      forall j | 0 <= j < |w| ensures Get(w, w[j].0) == Some(w[j].1) && w[j].0 in KeysOf(w) {
        GetAt(w, j);
      }
    }
  }

  // ---------------------------------------------------------------------
  // When normalisation succeeds or fails

  /** A strategy identifier the resolver accepts on a cache miss. */
  predicate KnownIdentifier(v: Value) {
    v.Obj? || v.s in ClassMap
  }

  /** Settings under which nothing can go wrong: the default strategy is
      known, list-style entries are strings, and every non-empty `className`
      is known. */
  predicate WellConfigured(settings: Settings) {
    && KnownIdentifier(settings.defaultStrategy)
    && forall j :: 0 <= j < |settings.strategies| ==>
         var (k, e) := settings.strategies[j];
         && (IsNumericKey(k) ==> e.Text?)
         && (e.Array? ==> IsEmpty(Setting(e.c, "className")) || KnownIdentifier(Setting(e.c, "className")))
  }

  lemma {:induction false} RunSucceeds(host: Host, settings: Settings, i: nat, w: seq<(Key, Entry)>, reg: Registry)
    requires WellConfigured(settings)
    requires var input := settings.strategies;
             i <= |input| && UniqueKeys(input) && UniqueKeys(w) && SettledAreArrays(input, i, w)
    requires AllInstances(reg)
    ensures Run(host, settings.defaultStrategy, settings.strategies, i, w, reg).result.Success?
    decreases |settings.strategies| - i
  {
    var input := settings.strategies;
    var d := settings.defaultStrategy;
    if i < |input| {
      var (k, e) := input[i];
      var a := AliasOf(k, e).value;
      var c := Prepared(host, d, k, e);
      assert KnownIdentifier(Setting(c, "className"));
      var s := Step(host, d, k, e, w, reg);
      assert s.result.Success?;
      StepKeepsCache(host, d, k, e, w, reg);
      RunUnfold(host, d, input, i, w, reg);
      RunSucceeds(host, settings, i + 1, s.result.value, s.registry);
    }
  }

  /** A well-configured behaviour is always constructed. */
  lemma SetupSucceeds(host: Host, settings: Settings)
    requires UniqueKeys(settings.strategies) && WellConfigured(settings)
    ensures Setup(host, settings).Success?
  {
    var input := settings.strategies;
    assert input[0..] == input;
    RunSucceeds(host, settings, 0, input, EmptyRegistry);
  }

  /** An unknown, non-empty `className` on the first entry aborts construction
      with `InvalidArgumentException`. */
  lemma SetupRejectsUnknownClass(host: Host, settings: Settings, name: string)
    requires UniqueKeys(settings.strategies) && |settings.strategies| > 0
    requires !IsNumericKey(settings.strategies[0].0)
    requires settings.strategies[0].1.Array? && Setting(settings.strategies[0].1.c, "className") == Str(name)
    requires name !in ClassMap && !IsEmptyString(name)
    ensures Setup(host, settings) == Failure(InvalidArgument(name))
  {
  }

  // ---------------------------------------------------------------------
  // Two inputs where the alias set is not "non-numeric keys plus list values"

  /** `[0 => '1', 1 => 'foo']`: the first entry creates alias 1, and the
      second, whose key is 1, unsets it again. Only `foo` remains. */
  lemma LaterListEntryUnsetsAlias(host: Host)
    ensures var r := Setup(host, Configure(None, SampleInput));
            && r.Success?
            && KeysOf(r.value.strategies) == {StrKey("foo")}
            && StrKey("foo") in r.value.registry.cache && IntKey(1) in r.value.registry.cache
  {
    var input := SampleInput;
    var d := Str(DefaultStrategyName);
    assert UniqueKeys(input);
    assert SettledAreArrays(input, 0, input) by {
      assert input[0..] == input;
    }
    SampleFirstStep(host);
    var s0 := Step(host, d, IntKey(0), Text("1"), input, EmptyRegistry);
    var w1 := s0.result.value;
    RunUnfold(host, d, input, 0, input, EmptyRegistry);
    SampleSecondStep(host, w1, s0.registry);
    var s1 := Step(host, d, IntKey(1), Text("foo"), w1, s0.registry);
    var w2 := s1.result.value;
    RunUnfold(host, d, input, 1, w1, s0.registry);
    assert Run(host, d, input, 0, input, EmptyRegistry) == Progress(Success(w2), s1.registry);
    assert Setup(host, Configure(None, input)) == Success(Behavior(Configs(w2), s1.registry));
    ConfigsKeys(w2);
  }

  const SampleInput: seq<(Key, Entry)> := [(IntKey(0), Text("1")), (IntKey(1), Text("foo"))]

  /** The first entry of the sample unsets key 0 and configures alias 1. */
  lemma SampleFirstStep(host: Host)
    ensures var s0 := Step(host, Str(DefaultStrategyName), IntKey(0), Text("1"), SampleInput, EmptyRegistry);
            && s0.result.Success?
            && KeysOf(s0.result.value) == {IntKey(1)}
            && s0.registry.cache.Keys == {IntKey(1)}
  {
    SampleKeys();
    assert KeysOf(SampleInput) == {IntKey(0), IntKey(1)} by {
      assert SampleInput[0].0 == IntKey(0) && SampleInput[1].0 == IntKey(1);
    }
  }

  /** The second entry of the sample, whose key is 1, unsets alias 1 and configures `foo`. */
  lemma SampleSecondStep(host: Host, w1: seq<(Key, Entry)>, reg: Registry)
    requires KeysOf(w1) == {IntKey(1)} && reg.cache.Keys == {IntKey(1)}
    ensures var s1 := Step(host, Str(DefaultStrategyName), IntKey(1), Text("foo"), w1, reg);
            && s1.result.Success?
            && KeysOf(s1.result.value) == {StrKey("foo")}
            && StrKey("foo") in s1.registry.cache && IntKey(1) in s1.registry.cache
  {
    SampleKeys();
    assert IsNumericKey(IntKey(1));
  }

  lemma SampleKeys()
    ensures ToKey("1") == IntKey(1)
    ensures ToKey("foo") == StrKey("foo")
  {
    assert IsCanonicalInt("1") && ParseInt("1") == 1;
    assert LeadingDigits("foo") == 0;
    assert !IsNumericString("foo");
    NonNumericStringKey("foo");
  }

  /** `[0 => '5']`: the list-style alias `'5'` becomes the integer key 5, so
      a numeric key survives normalisation. */
  lemma NumericListValueSurvives(host: Host)
    ensures var r := Setup(host, Configure(None, [(IntKey(0), Text("5"))]));
            r.Success? && KeysOf(r.value.strategies) == {IntKey(5)}
  {
    assert IsCanonicalInt("5") && ParseInt("5") == 5;
    assert ToKey("5") == IntKey(5);
    var input := [(IntKey(0), Text("5"))];
    var d := Str(DefaultStrategyName);
    var s0 := Step(host, d, IntKey(0), Text("5"), input, EmptyRegistry);
    assert s0.result.Success?;
    assert KeysOf(input) == {IntKey(0)};
    assert KeysOf(s0.result.value) == {IntKey(5)};
    ConfigsKeys(s0.result.value);
  }
}

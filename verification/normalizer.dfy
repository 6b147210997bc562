/** `EnumBehavior::initialize()` and `_normalizeConfig()`: the configured
    strategies are rewritten alias by alias, each alias's strategy object is
    resolved (and cached), and each stored configuration becomes that
    strategy's normalised form. */
module Normalizer {
  import opened Outcomes
  import opened Php
  import opened PhpArray
  import opened Strategies
  import opened Resolver

  /** One value of the `strategies` setting as written by the user: a bare
      string (an alias, or a prefix) or an array of settings. */
  datatype Entry = Text(s: string) | Array(c: Config)

  /** The behaviour's configuration: `defaultStrategy` and `strategies`. */
  datatype Settings = Settings(defaultStrategy: Value, strategies: seq<(Key, Entry)>)

  /** A constructed behaviour: the normalised `strategies` and the strategy cache. */
  datatype Behavior = Behavior(strategies: seq<(Key, Config)>, registry: Registry)

  /** The user's settings merged over the behaviour's default configuration. */
  function Configure(defaultStrategy: Option<Value>, strategies: seq<(Key, Entry)>): (s: Settings)
    ensures s.strategies == strategies
    ensures defaultStrategy.None? ==> s.defaultStrategy == Str(DefaultStrategyName)
    ensures defaultStrategy.Some? ==> s.defaultStrategy == defaultStrategy.value
  {
    match defaultStrategy
    case None => Settings(Str(DefaultStrategyName), strategies)
    case Some(v) => Settings(v, strategies)
  }

  /** The alias an entry configures: its key, or, for a numeric key, its
      string value. `None` when a numeric key holds an array, which PHP
      cannot use as a key. */
  function AliasOf(k: Key, e: Entry): (r: Option<Key>)
    ensures r.None? <==> IsNumericKey(k) && e.Array?
    ensures !IsNumericKey(k) ==> r == Some(k)
  {
    if !IsNumericKey(k) then Some(k)
    else match e
      case Text(s) => Some(ToKey(s))
      case Array(_) => None
  }

  /** The alias a numeric key's string names reads back as that string, and
      a valid key configures a valid alias. */
  lemma AliasOfValid(k: Key, e: Entry)
    ensures var r := AliasOf(k, e);
            && (r.Some? && IsNumericKey(k) ==> KeyToString(r.value) == e.s)
            && (ValidKey(k) && r.Some? ==> ValidKey(r.value))
  {
    if IsNumericKey(k) && e.Text? {
      StringKeyRoundTrip(e.s);
    }
  }

  /** The configuration handed to the strategy's `normalize()`: empty for a
      numeric key, `{prefix: strtoupper(s)}` for a string, the array itself
      otherwise; an empty `className` is replaced by the default strategy. */
  function Prepared(host: Host, default: Value, k: Key, e: Entry): (c: Config)
    ensures "className" in c && (c["className"] == default || !IsEmpty(c["className"]))
  {
    var base := if IsNumericKey(k) then map[]
                else match e
                  case Text(s) => map["prefix" := Str(host.upper(s))]
                  case Array(c) => c;
    WithDefaultClass(base, default)
  }

  /** What each kind of entry hands to `normalize()`: a numeric key only the
      default `className`; a string its upper-cased `prefix`; an array its own
      settings, with `className` filled in only when empty. */
  lemma PreparedShape(host: Host, default: Value, k: Key, e: Entry)
    ensures var c := Prepared(host, default, k, e);
            && (IsNumericKey(k) ==> c == map["className" := default])
            && (!IsNumericKey(k) && e.Text? ==>
                  c == map["prefix" := Str(host.upper(e.s)), "className" := default])
            && (!IsNumericKey(k) && e.Array? ==>
                  && c.Keys == e.c.Keys + {"className"}
                  && (forall n :: n in e.c && n != "className" ==> c[n] == e.c[n])
                  && (!IsEmpty(Setting(e.c, "className")) ==> c["className"] == e.c["className"]))
  {
    var c := Prepared(host, default, k, e);
    if IsNumericKey(k) {
      assert c.Keys == {"className"};
    }
  }

  /** `if (empty($config['className'])) $config['className'] = $strategy;` */
  function WithDefaultClass(c: Config, default: Value): (r: Config)
    ensures r.Keys == c.Keys + {"className"}
    ensures forall n :: n in c && n != "className" ==> r[n] == c[n]
    ensures IsEmpty(Setting(c, "className")) ==> r["className"] == default
    ensures !IsEmpty(Setting(c, "className")) ==> r == c
    ensures r["className"] == default || !IsEmpty(r["className"])
  {
    if IsEmpty(Setting(c, "className")) then c["className" := default] else c
  }

  /** The working copy of `strategies` (or the exception that ends the loop)
      and the registry after some iterations. */
  datatype Progress = Progress(result: Result<seq<(Key, Entry)>, Error>, registry: Registry)

  /** One iteration of the loop, for the entry `k => e`, on the working copy `w`. */
  function Step(host: Host, default: Value, k: Key, e: Entry, w: seq<(Key, Entry)>, reg: Registry): (p: Progress)
    ensures p.result.Success? ==> AliasOf(k, e).Some?
    ensures p.result.Success? ==>
              var a := AliasOf(k, e).value;
              var w' := p.result.value;
              && KeysOf(w') == (if IsNumericKey(k) then KeysOf(w) - {k} else KeysOf(w)) + {a}
              && a in p.registry.cache && p.registry.cache[a].Obj?
              && Get(w', a) == Some(Array(host.normalize(p.registry.cache[a].inst, Prepared(host, default, k, e))))
              && (UniqueKeys(w) ==> UniqueKeys(w') && forall b :: b != a && b != k ==> Get(w', b) == Get(w, b))
    ensures AliasOf(k, e).None? ==> p.result == Failure(IllegalOffset)
    ensures p.result.Failure? && p.result.error.InvalidArgument? ==> p.result.error.identifier !in ClassMap
    ensures p.registry.cache.Keys >= reg.cache.Keys
    ensures forall b :: b in reg.cache && Some(b) != AliasOf(k, e) ==> p.registry.cache[b] == reg.cache[b]
  {
    var w1 := if IsNumericKey(k) then Unset(w, k) else w;
    match AliasOf(k, e)
    case None => Progress(Failure(IllegalOffset), reg)
    case Some(a) =>
      var c := Prepared(host, default, k, e);
      var w2 := if IsNumericKey(k) then Set(w1, a, Array(map[])) else w1;
      var res := Resolve(reg, a, Setting(c, "className"));
      match res.result
      case Failure(err) => Progress(Failure(err), res.registry)
      case Success(Str(_)) => Progress(Failure(NotAnObject), res.registry)
      case Success(Obj(inst)) =>
        var w3 := Set(w2, a, Array(host.normalize(inst, c)));
        assert UniqueKeys(w) ==> UniqueKeys(w3) by {
          if UniqueKeys(w) {
            if IsNumericKey(k) { SetShape(w1, a, Array(map[])); }
            SetShape(w2, a, Array(host.normalize(inst, c)));
          }
        }
        Progress(Success(w3), res.registry)
  }

  /** Keys of the entries not yet visited by the loop. */
  function Pending(input: seq<(Key, Entry)>, i: nat): set<Key>
    requires i <= |input|
  {
    KeysOf(input[i..])
  }

  /** Every slot of the working copy whose key the loop will not visit again
      already holds an array. */
  predicate SettledAreArrays(input: seq<(Key, Entry)>, i: nat, w: seq<(Key, Entry)>)
    requires i <= |input|
  {
    forall a :: a in KeysOf(w) && a !in Pending(input, i) ==> Get(w, a).value.Array?
  }

  lemma PendingSplit(input: seq<(Key, Entry)>, i: nat)
    requires UniqueKeys(input) && i < |input|
    ensures Pending(input, i) == {input[i].0} + Pending(input, i + 1)
    ensures input[i].0 !in Pending(input, i + 1)
  {
    var t := input[i..];
    assert UniqueKeys(t) by {
      forall p, q | 0 <= p < q < |t| ensures t[p].0 != t[q].0 {
        assert t[p] == input[i + p] && t[q] == input[i + q];
      }
    }
    KeysOfTail(t);
    assert t[1..] == input[i + 1..];
  }

  /** The `foreach` over (a copy of) the configured strategies, from entry `i` on.
      An exception ends the loop with the registry as it was when it was thrown. */
  function Run(host: Host, default: Value, input: seq<(Key, Entry)>, i: nat, w: seq<(Key, Entry)>, reg: Registry): (p: Progress)
    requires i <= |input| && UniqueKeys(input) && UniqueKeys(w)
    requires SettledAreArrays(input, i, w)
    ensures p.result.Success? ==> UniqueKeys(p.result.value)
    ensures p.result.Success? ==> forall j :: 0 <= j < |p.result.value| ==> p.result.value[j].1.Array?
    decreases |input| - i
  {
    if i == |input| then
      assert forall j :: 0 <= j < |w| ==> w[j].1.Array? by {
        forall j | 0 <= j < |w| ensures w[j].1.Array? {
          GetAt(w, j);
          assert w[j].0 in KeysOf(w);
        }
      }
      Progress(Success(w), reg)
    else
      var s := Step(host, default, input[i].0, input[i].1, w, reg);
      match s.result
      case Failure(_) => s
      case Success(w') =>
        StepSettles(host, default, input, i, w, reg);
        Run(host, default, input, i + 1, w', s.registry)
  }

  /** A successful iteration settles entry `i`: its slot now holds an array,
      and the working copy still has unique keys. */
  lemma StepSettles(host: Host, default: Value, input: seq<(Key, Entry)>, i: nat, w: seq<(Key, Entry)>, reg: Registry)
    requires i < |input| && UniqueKeys(input) && UniqueKeys(w) && SettledAreArrays(input, i, w)
    requires Step(host, default, input[i].0, input[i].1, w, reg).result.Success?
    ensures var w' := Step(host, default, input[i].0, input[i].1, w, reg).result.value;
            UniqueKeys(w') && SettledAreArrays(input, i + 1, w')
  {
    PendingSplit(input, i);
  }

  /** Drops the `Array` wrapper from a fully normalised working copy. */
  function Configs(w: seq<(Key, Entry)>): (r: seq<(Key, Config)>)
    requires forall j :: 0 <= j < |w| ==> w[j].1.Array?
    ensures |r| == |w| && forall j :: 0 <= j < |w| ==> r[j] == (w[j].0, w[j].1.c)
  {
    seq(|w|, j requires 0 <= j < |w| => (w[j].0, w[j].1.c))
  }

  /** `initialize()`: normalise the configuration of a new behaviour. A thrown
      exception means no behaviour is constructed. */
  function Setup(host: Host, settings: Settings): (r: Result<Behavior, Error>)
    requires UniqueKeys(settings.strategies)
    ensures r.Success? ==> UniqueKeys(r.value.strategies)
  {
    var input := settings.strategies;
    var p := Run(host, settings.defaultStrategy, input, 0, input, EmptyRegistry);
    match p.result
    case Failure(err) => Failure(err)
    case Success(w) =>
      var strategies := Configs(w);
      assert UniqueKeys(strategies) by {
        forall p, q | 0 <= p < q < |strategies| ensures strategies[p].0 != strategies[q].0 {
          assert strategies[p].0 == w[p].0 && strategies[q].0 == w[q].0;
        }
      }
      Success(Behavior(strategies, p.registry))
  }
}

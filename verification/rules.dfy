/** `EnumBehavior::buildRules()` and `__call()`: one validation rule per
    alias, and the catch-all method that runs it. */
module Rules {
  import opened Outcomes
  import opened Php
  import opened PhpArray
  import opened Strategies
  import opened Resolver
  import opened Normalizer
  import opened NormalizerFacts
  import opened Accessor

  /** Every rule name starts with this, and `__call` only answers such names. */
  const RulePrefix: string := "isValid"

  /** A registered rule: the method name it is called by, the options passed
      to the `RulesChecker`, and the alias it was registered for. */
  datatype Rule = Rule(name: string, alias: Key, errorField: Option<Value>, message: Option<Value>)

  /** A property of an entity, as the rule reads it. */
  datatype Scalar = IntVal(i: int) | StrVal(s: string) | Null

  /** An entity's properties; a property it does not have reads as null. */
  type Entity = map<string, Scalar>

  /** `$config[$name]` as the options array receives it (`None` is null). */
  function Passed(c: Config, name: string): Option<Value> {
    if name in c then Some(c[name]) else None
  }

  function RuleName(host: Host, alias: Key): string {
    RulePrefix + host.classify(KeyToString(alias))
  }

  /** The rule `buildRules` registers for one configured alias. */
  function RuleOf(host: Host, entry: (Key, Config)): Rule {
    Rule(RuleName(host, entry.0), entry.0, Passed(entry.1, "field"), Passed(entry.1, "errorMessage"))
  }

  /** The rules for all configured aliases, in configuration order. */
  function RulesFor(host: Host, b: Behavior): (rs: seq<Rule>)
    ensures |rs| == |b.strategies|
    ensures forall j :: 0 <= j < |rs| ==>
              && rs[j].alias == b.strategies[j].0
              && rs[j].name == RulePrefix + host.classify(KeyToString(b.strategies[j].0))
              && rs[j].errorField == Passed(b.strategies[j].1, "field")
              && rs[j].message == Passed(b.strategies[j].1, "errorMessage")
  {
    seq(|b.strategies|, j requires 0 <= j < |b.strategies| => RuleOf(host, b.strategies[j]))
  }

  /** The rules name exactly the configured aliases, each once when the
      configuration's keys are unique. */
  lemma RulesForAliases(host: Host, b: Behavior)
    ensures var rs := RulesFor(host, b);
            forall a :: a in KeysOf(b.strategies) <==> exists j :: 0 <= j < |rs| && rs[j].alias == a
    ensures var rs := RulesFor(host, b);
            UniqueKeys(b.strategies) ==> forall i, j :: 0 <= i < j < |rs| ==> rs[i].alias != rs[j].alias
  {
    var rs := RulesFor(host, b);
    forall a | a in KeysOf(b.strategies) ensures exists j :: 0 <= j < |rs| && rs[j].alias == a {
      var i :| 0 <= i < |b.strategies| && b.strategies[i].0 == a;
      assert rs[i].alias == a;
    }
  }

  /** `buildRules($event, $rules)`: appends one rule per configured alias to the `RulesChecker`'s rules. */
  method BuildRules(host: Host, b: Behavior, rules: seq<Rule>) returns (out: seq<Rule>)
    ensures out == rules + RulesFor(host, b)
    ensures forall j :: 0 <= j < |b.strategies| ==>
              var (alias, config) := b.strategies[j];
              && out[|rules| + j].alias == alias
              && out[|rules| + j].name == RulePrefix + host.classify(KeyToString(alias))
              && out[|rules| + j].errorField == Passed(config, "field")
              && out[|rules| + j].message == Passed(config, "errorMessage")
    ensures forall a :: a in KeysOf(b.strategies) <==> exists j :: |rules| <= j < |out| && out[j].alias == a
    ensures UniqueKeys(b.strategies) ==> forall i, j :: |rules| <= i < j < |out| ==> out[i].alias != out[j].alias
  {
    out := rules;
    var n := 0;
    while n < |b.strategies|
      invariant n <= |b.strategies| && |out| == |rules| + n && out[..|rules|] == rules
      invariant forall j :: 0 <= j < n ==> out[|rules| + j] == RuleOf(host, b.strategies[j])
    {
      out := out + [RuleOf(host, b.strategies[n])];
      n := n + 1;
    }
    forall j | 0 <= j < |out| ensures out[j] == (rules + RulesFor(host, b))[j] {
      if j >= |rules| {
        assert out[j] == RuleOf(host, b.strategies[j - |rules|]);
      } else {
        assert out[j] == out[..|rules|][j];
      }
    }
    AppendedAliases(host, b, rules, out);
  }

  lemma AppendedAliases(host: Host, b: Behavior, rules: seq<Rule>, out: seq<Rule>)
    requires out == rules + RulesFor(host, b)
    ensures forall a :: a in KeysOf(b.strategies) <==> exists j :: |rules| <= j < |out| && out[j].alias == a
    ensures UniqueKeys(b.strategies) ==> forall i, j :: |rules| <= i < j < |out| ==> out[i].alias != out[j].alias
  {
    var rs := RulesFor(host, b);
    RulesForAliases(host, b);
    forall a | a in KeysOf(b.strategies) ensures exists j :: |rules| <= j < |out| && out[j].alias == a {
      var i :| 0 <= i < |rs| && rs[i].alias == a;
      assert out[|rules| + i] == rs[i];
    }
    forall j | |rules| <= j < |out| ensures out[j].alias in KeysOf(b.strategies) {
      assert out[j] == rs[j - |rules|];
    }
  }

  /** The string PHP reads a scalar as when it is used as an array key
      (null reads as ""). */
  function KeyString(v: Scalar): string {
    match v
    case IntVal(i) => IntToString(i)
    case StrVal(s) => s
    case Null => ""
  }

  /** `array_key_exists($value, $list)`: an integer is looked up as an integer
      key, a string through PHP's key cast, null as the key "". */
  predicate KeyExists(v: Scalar, m: map<Key, string>): (r: bool)
    ensures r <==> ToKey(KeyString(v)) in m
    ensures v.IntVal? ==> (r <==> IntKey(v.i) in m)
    ensures v.Null? ==> (r <==> StrKey("") in m)
  {
    match v
    case IntVal(i) =>
      KeyStringRoundTrip(IntKey(i));
      IntKey(i) in m
    case StrVal(s) => ToKey(s) in m
    case Null =>
      assert !IsCanonicalInt("");
      StrKey("") in m
  }

  /** The name of the configured field; a missing or non-string `field` is read as "". */
  function FieldName(c: Config): (r: string)
    ensures "field" in c && c["field"].Str? ==> r == c["field"].s
    ensures !("field" in c && c["field"].Str?) ==> r == ""
  {
    match Setting(c, "field")
    case Str(s) => s
    case Obj(_) => ""
  }

  function Read(entity: Entity, field: string): Scalar {
    if field in entity then entity[field] else Null
  }

  /** The body of `__call` once the alias is known: the alias must be
      configured, and the entity's field value must be a key of the alias's list. */
  function Validate(host: Host, b: Behavior, alias: Key, entity: Entity): (out: Answer<bool>)
    ensures out.result == Failure(RuntimeError) <==> !Configured(b, alias)
    ensures out.result.Success? ==>
              var e := Enum(host, b, alias);
              && e.result.Success?
              && out.behavior == e.behavior
              && (out.result.value <==> KeyExists(Read(entity, FieldName(Get(b.strategies, alias).value)), e.result.value))
  {
    var config := Get(b.strategies, alias);
    if config.None? || |config.value| == 0 then
      Answer(Failure(RuntimeError), b)
    else
      var value := Read(entity, FieldName(config.value));
      var e := Enum(host, b, alias);
      match e.result
      case Failure(err) => Answer(Failure(err), e.behavior)
      case Success(list) => Answer(Success(KeyExists(value, list)), e.behavior)
  }

  /** The alias `__call` derives from a method name. */
  function CalledAlias(host: Host, methodName: string): (a: Key)
    ensures ValidKey(a)
    ensures RulePrefix <= methodName && !Occurs(RulePrefix, methodName[|RulePrefix|..]) ==>
              a == ToKey(host.underscore(methodName[|RulePrefix|..]))
  {
    if RulePrefix <= methodName && !Occurs(RulePrefix, methodName[|RulePrefix|..]) then
      var rest := methodName[|RulePrefix|..];
      assert methodName == RulePrefix + rest;
      RemoveAllPrefix(RulePrefix, rest);
      RemoveAllAbsent(rest, RulePrefix);
      ToKey(host.underscore(RemoveAll(methodName, RulePrefix)))
    else
      ToKey(host.underscore(RemoveAll(methodName, RulePrefix)))
  }

  /** `__call($methodName, [$entity, $options])`, as the code is written: the
      alias is recovered from the method name. */
  function Call(host: Host, b: Behavior, methodName: string, entity: Entity): (out: Answer<bool>)
    ensures !(RulePrefix <= methodName) ==> out == Answer(Failure(RuntimeError), b)
    ensures RulePrefix <= methodName && !Configured(b, CalledAlias(host, methodName)) ==> out == Answer(Failure(RuntimeError), b)
    ensures out.result.Success? ==> RulePrefix <= methodName && Configured(b, CalledAlias(host, methodName))
    ensures RulePrefix <= methodName ==> out == Validate(host, b, CalledAlias(host, methodName), entity)
  {
    if !(RulePrefix <= methodName) then
      Answer(Failure(RuntimeError), b)
    else
      Validate(host, b, CalledAlias(host, methodName), entity)
  }

  /** Running a registered rule by the alias it was registered for. */
  function CheckRule(host: Host, b: Behavior, rule: Rule, entity: Entity): (out: Answer<bool>)
    ensures out.result == Failure(RuntimeError) <==> !Configured(b, rule.alias)
  {
    Validate(host, b, rule.alias, entity)
  }

  /** On a coherent behaviour a configured alias's check answers without
      touching the cache: true exactly when the entity's field value is a key
      of the alias's list. */
  lemma ValidateOnCoherent(host: Host, b: Behavior, alias: Key, entity: Entity)
    requires Coherent(b) && Configured(b, alias)
    ensures var c := Get(b.strategies, alias).value;
            var list := host.enumerate(b.registry.cache[alias].inst, c);
            Validate(host, b, alias, entity) == Answer(Success(KeyExists(Read(entity, FieldName(c)), list)), b)
  {
    EnumOnCoherent(host, b, alias);
  }

  /** Every rule `buildRules` registers, run by its alias, checks the entity
      against that alias's own list, whatever `classify` and `underscore` do. */
  lemma BuiltRulesCheckTheirAlias(host: Host, b: Behavior, entity: Entity, j: nat)
    requires Coherent(b) && UniqueKeys(b.strategies) && j < |b.strategies| && |b.strategies[j].1| > 0
    ensures var rule := RulesFor(host, b)[j];
            var c := b.strategies[j].1;
            && rule.alias == b.strategies[j].0
            && rule.errorField == Passed(c, "field")
            && CheckRule(host, b, rule, entity) ==
                 Answer(Success(KeyExists(Read(entity, FieldName(c)), host.enumerate(b.registry.cache[rule.alias].inst, c))), b)
  {
    GetAt(b.strategies, j);
    assert b.strategies[j].0 in KeysOf(b.strategies);
    ValidateOnCoherent(host, b, b.strategies[j].0, entity);
  }

  /** Calling a rule by its name reaches its own alias when `underscore`
      undoes `classify` on that alias and the classified name contains no
      `isValid`; the two dispatches then agree. */
  lemma CallByNameMatchesRule(host: Host, b: Behavior, rule: Rule, entity: Entity)
    requires rule.name == RuleName(host, rule.alias)
    requires ToKey(host.underscore(host.classify(KeyToString(rule.alias)))) == rule.alias
    requires !Occurs(RulePrefix, host.classify(KeyToString(rule.alias)))
    ensures Call(host, b, rule.name, entity) == CheckRule(host, b, rule, entity)
  {
    var x := host.classify(KeyToString(rule.alias));
    RemoveAllPrefix(RulePrefix, x);
    RemoveAllAbsent(x, RulePrefix);
    assert RulePrefix <= RulePrefix + x;
  }

  // ---------------------------------------------------------------------
  // A plural alias

  /** A stand-in for `Inflector::classify`/`underscore` on one word: classify
      singularises `statuses` to `Status`, underscore lower-cases it back to
      `status`. */
  const Singularising := Host(
    (s: Strategy, c: Config) => c,
    (s: Strategy, c: Config) => map[IntKey(1) := "Active"],
    (s: string) => s,
    (s: string) => if s == "statuses" then "Status" else s,
    (s: string) => if s == "Status" then "status" else s)

  /** Alias `statuses`, stored in entity field `status`, with a constant list. */
  const PluralBehavior := Behavior(
    [(StrKey("statuses"), map["className" := Str("const"), "field" := Str("status")])],
    Registry(map[StrKey("statuses") := Obj(Strategy(Const, StrKey("statuses"), 0))], 1))

  /** The rule registered for `statuses` is named `isValidStatus`; called by
      that name it looks for alias `status`, which is not configured, so every
      save throws, although the entity's value is in the list. Run by its
      alias, the same rule accepts the entity. */
  lemma PluralAliasRuleMisdispatches()
    ensures var rule := RulesFor(Singularising, PluralBehavior)[0];
            var entity := map["status" := IntVal(1)];
            && rule.name == "isValidStatus"
            && Call(Singularising, PluralBehavior, rule.name, entity).result == Failure(RuntimeError)
            && CheckRule(Singularising, PluralBehavior, rule, entity).result == Success(true)
  {
    var rule := RulesFor(Singularising, PluralBehavior)[0];
    assert rule.name == "isValidStatus" by {
      assert KeyToString(StrKey("statuses")) == "statuses";
    }
    StatusIsUnconfigured();
    var entity := map["status" := IntVal(1)];
    KeysOfCons(PluralBehavior.strategies[0], []);
    assert PluralBehavior.strategies == [PluralBehavior.strategies[0]] + [];
    assert Coherent(PluralBehavior);
    ValidateOnCoherent(Singularising, PluralBehavior, StrKey("statuses"), entity);
  }

  /** `__call('isValidStatus', ...)` looks for alias `status`, which the plural configuration lacks. */
  lemma StatusIsUnconfigured()
    ensures CalledAlias(Singularising, "isValidStatus") == StrKey("status")
    ensures !Configured(PluralBehavior, StrKey("status"))
  {
    assert RemoveAll("isValidStatus", RulePrefix) == "Status" by {
      assert "isValidStatus" == RulePrefix + "Status";
      RemoveAllPrefix(RulePrefix, "Status");
      assert RemoveAll("Status", RulePrefix) == "Status" by {
        assert !(RulePrefix <= "Status");
        assert !(RulePrefix <= "tatus");
        assert !(RulePrefix <= "atus");
        assert !(RulePrefix <= "tus");
        assert !(RulePrefix <= "us");
        assert !(RulePrefix <= "s");
      }
    }
    assert ToKey("status") == StrKey("status") by {
      assert !IsDigit('s');
    }
  }

  // ---------------------------------------------------------------------
  // The worked example: a constant list for `priority`

  const PriorityHost := Host(
    (s: Strategy, c: Config) => c,
    (s: Strategy, c: Config) => map[IntKey(1) := "LOW", IntKey(2) := "HIGH"],
    (s: string) => s,
    (s: string) => s,
    (s: string) => s)

  const PriorityBehavior := Behavior(
    [(StrKey("priority"), map["className" := Str("const"), "field" := Str("priority")])],
    Registry(map[StrKey("priority") := Obj(Strategy(Const, StrKey("priority"), 0))], 1))

  /** With `LOW = 1` and `HIGH = 2`, priority 1 (or "1") is valid and priority 3 is not. */
  lemma PriorityExample()
    ensures Validate(PriorityHost, PriorityBehavior, StrKey("priority"), map["priority" := IntVal(1)]).result == Success(true)
    ensures Validate(PriorityHost, PriorityBehavior, StrKey("priority"), map["priority" := StrVal("1")]).result == Success(true)
    ensures Validate(PriorityHost, PriorityBehavior, StrKey("priority"), map["priority" := IntVal(3)]).result == Success(false)
  {
    KeysOfCons(PriorityBehavior.strategies[0], []);
    assert PriorityBehavior.strategies == [PriorityBehavior.strategies[0]] + [];
    assert Coherent(PriorityBehavior);
    assert ToKey("1") == IntKey(1) by {
      assert IsCanonicalInt("1") && ParseInt("1") == 1;
    }
    ValidateOnCoherent(PriorityHost, PriorityBehavior, StrKey("priority"), map["priority" := IntVal(1)]);
    ValidateOnCoherent(PriorityHost, PriorityBehavior, StrKey("priority"), map["priority" := StrVal("1")]);
    ValidateOnCoherent(PriorityHost, PriorityBehavior, StrKey("priority"), map["priority" := IntVal(3)]);
  }
}

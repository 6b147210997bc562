# EnumBehavior, modelled in Dafny

This project models `EnumBehavior`, the CakePHP table behaviour of the Enum
plugin. The behaviour gives a table named enumeration lists (aliases) and
validation rules that check an entity's field against those lists. The model
covers the following parts:

- **Strategy cache** (`Resolver`). `strategy($alias, $strategy)` keeps one
  strategy object per alias and builds it on first use from the class map
  `lookup` / `const` / `enum`.
  - A value that is `empty()` counts as a miss.
  - On a miss, the raw identifier is written into the cache *before* it is
    checked. A call that throws `InvalidArgumentException` therefore leaves
    that string in the cache. The next call for the same alias is a hit on
    the string, unless the string is itself `empty()` (`""` or `"0"`), in
    which case that call is a miss again.
- **Configuration normalisation** (`Normalizer`, `NormalizerFacts`).
  `initialize()` / `_normalizeConfig()` walk a copy of the `strategies`
  setting in order. An entry with an `is_numeric` key is a list-style alias:
  its key is unset and its value becomes the alias. A string value becomes
  `{prefix: strtoupper(value)}`. An `empty()` `className` is replaced by
  `defaultStrategy`, which defaults to `lookup`. The stored configuration is
  whatever the resolved strategy's `normalize()` returns.
  - PHP key canonicalisation is modelled: the string `"5"` addresses the
    integer key 5.
  - `is_numeric` is modelled with its PHP 7 grammar.
  - Arrays are modelled as ordered sequences with unique keys, with
    assignment and `unset`.
- **`enum($alias)`** (`Accessor`). It throws `RuntimeException` for an
  unconfigured or empty alias. Otherwise it asks the alias's cached strategy
  for the list.
- **Validation** (`Rules`).
  - `buildRules()` registers one rule `isValid<Classify(alias)>` per alias,
    in configuration order.
  - `__call()` answers only method names starting with `isValid`. It
    recovers the alias with `underscore(str_replace('isValid', '', name))`.
    It then checks with `array_key_exists` that the entity's configured field
    value is a key of the alias's list.

The strategies' own `normalize()` and `enum()`, CakePHP's
`Inflector::classify` / `Inflector::underscore`, and `strtoupper` are
parameters of the model: the fields of `Strategies.Host`. Nothing is assumed
about them. Object identity of a strategy object is a serial number taken
from a counter in the registry.

The code and the plugin's prose description differ in one place. The prose
says a missing key prefix and field name are derived from the alias. The
behaviour itself only derives a prefix, by uppercasing a *string value*
(`'priority' => 'PRIORITY'` style). Any other default comes from the
strategy's `normalize()`, which is outside this file. The model follows the
code.

## Model

| member | source | states |
|---|---|---|
| Php.ToKey | src/Model/Behavior/EnumBehavior.php:117-119 | a string used as an array key becomes a key PHP can hold: an integer key exactly when the string is a canonical decimal integer |
| Php.KeyStringRoundTrip | src/Model/Behavior/EnumBehavior.php:117-119 | converting any key to its string and using that string as a key gives the same key back |
| Php.StringKeyRoundTrip | src/Model/Behavior/EnumBehavior.php:117-119 | a string used as a key and read back as a string is the same string, so no alias spelling is lost |
| Php.NumericStringEnd | src/Model/Behavior/EnumBehavior.php:115 | a string that passes `is_numeric` is non-empty and ends in a digit or a decimal point, never in whitespace |
| Php.NumericStringExamples | src/Model/Behavior/EnumBehavior.php:115 | `" 5"`, `"1e3"`, `".5"`, `"1."` and `"-7"` pass `is_numeric` |
| Php.NonNumericStringExamples | src/Model/Behavior/EnumBehavior.php:115 | `"5 "`, `"0x1A"`, `"."`, `""`, `"foo"` and `"1e"` do not pass `is_numeric` |
| Php.CanonicalIntIsNumeric | src/Model/Behavior/EnumBehavior.php:115-119 | every string that PHP turns into an integer key passes `is_numeric` |
| Php.NonNumericStringKey | src/Model/Behavior/EnumBehavior.php:115-119 | a non-numeric list value addresses a string key that is itself not numeric |
| Php.RemoveAll | src/Model/Behavior/EnumBehavior.php:180 | `str_replace` with an empty replacement never lengthens the name |
| Php.RemoveAllPrefix | src/Model/Behavior/EnumBehavior.php:176-180 | once `strpos` has found `isValid` at position 0, that occurrence is removed and the rest is scanned as usual |
| Php.RemoveAllAbsent | src/Model/Behavior/EnumBehavior.php:180 | a name not containing `isValid` is left unchanged by `str_replace` |
| PhpArray.Get | src/Model/Behavior/EnumBehavior.php:143-144 | reading a key yields a value exactly when the key is present |
| PhpArray.GetAt | src/Model/Behavior/EnumBehavior.php:158 | in an array with distinct keys, reading the key at a position yields that position's value, so iteration and lookup agree |
| PhpArray.Set | src/Model/Behavior/EnumBehavior.php:130 | assignment adds the key, reads back the assigned value, and leaves every other key's value alone |
| PhpArray.SetShape | src/Model/Behavior/EnumBehavior.php:130 | assignment keeps the keys distinct; a present key is replaced in place, every other position keeps its entry and the length is unchanged; a new key is appended at the end |
| PhpArray.SetInPlace | src/Model/Behavior/EnumBehavior.php:130 | assigning to a present key changes only that key's position, so the iteration order of the aliases is kept |
| PhpArray.GetByPosition | src/Model/Behavior/EnumBehavior.php:143-144 | a present key sits at some position, and in an array with distinct keys a lookup returns the value at any position holding that key |
| PhpArray.Unset | src/Model/Behavior/EnumBehavior.php:116 | `unset` removes exactly the key, keeps the keys distinct and every other value unchanged |
| Resolver.Resolve | src/Model/Behavior/EnumBehavior.php:82-102 | the cache gains only the alias slot and other slots are unchanged; a returned value is the cached non-empty one; a thrown error names an identifier outside the class map, which stays in the cache; at most one object is built |
| Resolver.HitIgnoresIdentifier | src/Model/Behavior/EnumBehavior.php:84-86 | on a non-empty cache slot the identifier argument is ignored and nothing changes |
| Resolver.MissBuildsMappedClass | src/Model/Behavior/EnumBehavior.php:88-98 | on a miss a class-map short name builds one object of the mapped class for that alias and caches it |
| Resolver.MissBuildsNewObject | src/Model/Behavior/EnumBehavior.php:98 | when every cached object was built by the registry, the object built on a miss is distinct from every object already in the cache |
| Resolver.ResolveKeepsFreshSerials | src/Model/Behavior/EnumBehavior.php:88-98 | resolving keeps every cached object's identity below the registry's counter, provided a ready-made object passed in already satisfies this |
| Resolver.MissKeepsGivenObject | src/Model/Behavior/EnumBehavior.php:88-101 | on a miss a ready-made strategy object is cached and returned as it is |
| Resolver.MissOnUnknownNameThrows | src/Model/Behavior/EnumBehavior.php:88-96 | on a miss a name outside the class map throws `InvalidArgumentException` and leaves the raw name cached |
| Resolver.ResolveIsMemoised | src/Model/Behavior/EnumBehavior.php:82-102 | after a successful call every later call for the alias returns the same value and changes nothing, whatever it passes |
| Resolver.FailureLeavesRawIdentifier | src/Model/Behavior/EnumBehavior.php:84-96 | after a failed call with a non-empty unknown name, the next call for that alias returns the raw string instead of a strategy |
| Normalizer.Configure | src/Model/Behavior/EnumBehavior.php:38-44 | the settings keep the given strategies, and `defaultStrategy` is `lookup` unless the user sets it |
| Normalizer.AliasOf | src/Model/Behavior/EnumBehavior.php:115-119 | an entry configures no alias exactly when its key is numeric and its value an array; a non-numeric key is its own alias |
| Normalizer.AliasOfValid | src/Model/Behavior/EnumBehavior.php:115-119 | a list-style alias reads back as the value that named it, and a valid key configures a valid alias |
| Normalizer.Prepared | src/Model/Behavior/EnumBehavior.php:122-128 | the configuration handed to `normalize()` always has a `className` that is the default strategy or non-empty |
| Normalizer.PreparedShape | src/Model/Behavior/EnumBehavior.php:115-128 | a list-style entry is prepared as the default `className` alone; a string as exactly `{prefix: strtoupper(value), className: defaultStrategy}`; an array keeps its other settings and a non-empty `className` |
| Normalizer.WithDefaultClass | src/Model/Behavior/EnumBehavior.php:126-128 | an empty `className` is replaced by the default strategy, a non-empty one leaves the configuration unchanged, and no other setting changes |
| Normalizer.Step | src/Model/Behavior/EnumBehavior.php:114-131 | one iteration: a numeric key is replaced by the alias its value names; the alias's slot holds the resolved strategy's normalisation of the prepared configuration; keys stay distinct and other slots keep their values; an array under a numeric key is an error, and an `InvalidArgument` error names an identifier outside the class map; cache slots other than the alias are untouched |
| Normalizer.StepSettles | src/Model/Behavior/EnumBehavior.php:114-131 | after a successful iteration the visited entry's slot holds an array and the keys stay distinct |
| Normalizer.Run | src/Model/Behavior/EnumBehavior.php:114-132 | a loop that completes leaves distinct keys and only array configurations |
| Normalizer.Setup | src/Model/Behavior/EnumBehavior.php:109-135 | a constructed behaviour's strategies have distinct keys |
| NormalizerFacts.StepKeepsCache | src/Model/Behavior/EnumBehavior.php:84-98 | a successful iteration keeps every earlier cache entry and adds only strategy objects |
| NormalizerFacts.ResolveKeepsInstances | src/Model/Behavior/EnumBehavior.php:84-98 | resolving into a cache of strategy objects keeps every entry and, when it returns an object, caches only objects |
| NormalizerFacts.RunKeys | src/Model/Behavior/EnumBehavior.php:114-132 | the remaining loop leaves only aliases some entry names and loses no non-numeric alias |
| NormalizerFacts.RunCache | src/Model/Behavior/EnumBehavior.php:114-132 | the remaining loop caches a strategy object for every alias it meets and never replaces an earlier entry |
| NormalizerFacts.StepKeepsStored | src/Model/Behavior/EnumBehavior.php:114-131 | one iteration keeps "each settled slot holds its last writer's normalised configuration" for every alias |
| NormalizerFacts.RunValues | src/Model/Behavior/EnumBehavior.php:114-132 | every slot left by the loop holds the normalised configuration of the last entry naming that alias |
| NormalizerFacts.PreparedStringEntry | src/Model/Behavior/EnumBehavior.php:122-128 | `alias => 'text'` is prepared as `{prefix: strtoupper('text'), className: 'lookup'}` under the default configuration |
| NormalizerFacts.PreparedListEntry | src/Model/Behavior/EnumBehavior.php:115-128 | a list-style `'name'` configures alias `name` with an empty configuration plus the default strategy |
| NormalizerFacts.PreparedArrayEntry | src/Model/Behavior/EnumBehavior.php:126-128 | an array keeps a non-empty `className` and gets the default strategy otherwise |
| NormalizerFacts.AliasesPartition | src/Model/Behavior/EnumBehavior.php:115-119 | the aliases the entries name are the non-numeric keys plus the list-style values |
| NormalizerFacts.SetupAliases | src/Model/Behavior/EnumBehavior.php:109-135 | after construction every alias is a non-numeric key or a list-style value, and every non-numeric alias is present |
| NormalizerFacts.SetupAliasesExact | src/Model/Behavior/EnumBehavior.php:109-135 | when no list-style value is numeric, the aliases are exactly the non-numeric keys plus the list-style values, and no numeric key survives |
| NormalizerFacts.SetupCachesEveryAlias | src/Model/Behavior/EnumBehavior.php:109-135 | after construction the behaviour is coherent: every alias has a strategy object cached, and every cached value is a strategy object |
| NormalizerFacts.SetupStoresNormalized | src/Model/Behavior/EnumBehavior.php:122-134 | each stored configuration is the cached strategy's `normalize()` of the prepared configuration of the last entry naming that alias |
| NormalizerFacts.RunSucceeds | src/Model/Behavior/EnumBehavior.php:114-132 | the remaining loop cannot fail on well-formed settings over a cache of strategy objects |
| NormalizerFacts.SetupSucceeds | src/Model/Behavior/EnumBehavior.php:109-135 | with a known default strategy, string list values and known class names, construction always succeeds |
| NormalizerFacts.SetupRejectsUnknownClass | src/Model/Behavior/EnumBehavior.php:90-95 | an unknown non-empty `className` on the first entry aborts construction with `InvalidArgumentException` naming it |
| NormalizerFacts.LaterListEntryUnsetsAlias | src/Model/Behavior/EnumBehavior.php:115-119 | for `[0 => '1', 1 => 'foo']` the second entry unsets alias 1 created by the first, so only `foo` remains, although both were cached |
| NormalizerFacts.NumericListValueSurvives | src/Model/Behavior/EnumBehavior.php:115-119 | for `[0 => '5']` the alias becomes the integer key 5, so a numeric key survives |
| Accessor.Enum | src/Model/Behavior/EnumBehavior.php:141-149 | throws `RuntimeException` exactly when the alias is unconfigured or empty; on success the list is the cached strategy's `enum()` of the stored configuration; the configuration is never changed; an unconfigured alias leaves the behaviour untouched, and a configured one leaves the registry as `strategy($alias, $config['className'])` leaves it |
| Accessor.Configured | src/Model/Behavior/EnumBehavior.php:143-144 | when the strategies have distinct keys, an alias counts as configured exactly when some entry under that key holds a non-empty configuration |
| Accessor.EnumOnCoherent | src/Model/Behavior/EnumBehavior.php:141-149 | on a constructed behaviour `enum()` never touches the cache and fails only for an unconfigured alias |
| Accessor.EnumIsMemoised | src/Model/Behavior/EnumBehavior.php:141-149 | asking `enum()` again for the same alias gives the same list and changes nothing |
| Rules.RulesFor | src/Model/Behavior/EnumBehavior.php:157-163 | one rule per configured alias, in configuration order: rule j is for the j-th alias, is named `isValid` plus the classified alias, and passes that alias's `field` as `errorField` and its `errorMessage` as `message` |
| Rules.RulesForAliases | src/Model/Behavior/EnumBehavior.php:157-163 | the rules name exactly the configured aliases, each once when the configuration's keys are distinct |
| Rules.BuildRules | src/Model/Behavior/EnumBehavior.php:156-166 | the existing rules are kept and one rule per alias is appended; its name is `isValid` plus the classified alias; the new rules cover exactly the configured aliases, once each when the keys are distinct |
| Rules.Validate | src/Model/Behavior/EnumBehavior.php:182-189 | throws `RuntimeException` exactly for an unconfigured alias; otherwise answers whether the entity's field value is a key of `enum()`'s list |
| Rules.CalledAlias | src/Model/Behavior/EnumBehavior.php:178-180 | the alias recovered from `isValid` + rest is `underscore(rest)` used as a key, when rest does not itself contain `isValid` |
| Rules.FieldName | src/Model/Behavior/EnumBehavior.php:188 | the field read is the configured `field` string, and "" when it is missing or not a string |
| Rules.KeyExists | src/Model/Behavior/EnumBehavior.php:189 | `array_key_exists` looks the value up under PHP's key cast: an integer as that integer key, null as the key "", a string as the key it canonicalises to |
| Rules.Call | src/Model/Behavior/EnumBehavior.php:174-190 | a method name not starting with `isValid`, or naming an unconfigured alias, throws `RuntimeException` with nothing changed; any other name is checked against the alias `underscore` recovers from it |
| Rules.CheckRule | src/Model/Behavior/EnumBehavior.php:182-189 | a registered rule run by the alias it was built for throws exactly when that alias is unconfigured |
| Rules.ValidateOnCoherent | src/Model/Behavior/EnumBehavior.php:182-189 | on a constructed behaviour a configured alias's check is `array_key_exists` of the field value in the cached strategy's list, with no state change |
| Rules.BuiltRulesCheckTheirAlias | src/Model/Behavior/EnumBehavior.php:156-189 | every rule `buildRules()` registers, run by its alias, checks the entity against its own alias's list, whatever the inflector does |
| Rules.CallByNameMatchesRule | src/Model/Behavior/EnumBehavior.php:159-180 | dispatch by method name agrees with dispatch by alias whenever `underscore` undoes `classify` on the alias and the classified name does not contain `isValid` |
| Rules.PluralAliasRuleMisdispatches | src/Model/Behavior/EnumBehavior.php:159-183 | with a singularising `classify`, the rule for alias `statuses` is `isValidStatus`; called by that name it throws, although the same rule run by its alias accepts the entity |
| Rules.StatusIsUnconfigured | src/Model/Behavior/EnumBehavior.php:180-183 | `isValidStatus` is routed to alias `status`, which the plural configuration lacks |
| Rules.PriorityExample | src/Model/Behavior/EnumBehavior.php:182-189 | with `priority` listing 1 => LOW and 2 => HIGH, the values 1 and "1" are accepted and 3 is rejected |

## Left out

- Host plumbing is not modelled: `parent::initialize`, `$this->config()` reading and writing, and `$this->_table` passed to strategy constructors. Settings are a value, and the normalised strategies are the returned `Behavior`.
- The concrete strategies `LookupStrategy`, `ConstStrategy` and `EnumStrategy` are not part of this model. Their `normalize()` and `enum()` are arbitrary functions in `Strategies.Host`.
- `Inflector::classify`, `Inflector::underscore` and `strtoupper` are arbitrary string functions. Unicode and case rules are not modelled.
- `class_exists` is not modelled. Every class in the class map is taken to exist, and any name outside the map throws, as the code does.
- The unused `$options` argument and `$value` local of `__call` are not modelled.
- `implementedMethods` in the default configuration is not modelled. It only exposes `enum` on the table.
- `Strategies.Host`'s `enumerate` returns an unordered `map<Key, string>`. A strategy's `enum()` returns an ordered PHP array, and that order is lost. `array_key_exists` does not depend on it, but a caller that lists the options in order does.
- `is_numeric` follows the PHP 7 grammar only. Under PHP 5, `"0x1A"` is numeric, and under PHP 8, `"5 "` with trailing whitespace is numeric. On those versions such list-style keys would be treated differently from `NonNumericStringExamples`.
- The 64-bit bound on integer keys is not modelled. A decimal string outside that range would stay a string key in PHP.
- Aliases are read as one array key. `config('strategies.' . $alias)` splits the path on `.`, and aliases containing a dot are not modelled.
- Normalizer.Step: an array under a numeric key is a `IllegalOffset` error. PHP only warns about the illegal offset, and what happens next is not modelled.
- Configuration values are only strings or strategy objects. Other PHP values (null, integers, nested arrays inside a configuration) are not modelled. A missing setting reads as "".
- Rules.FieldName: a missing or non-string `field` reads as "". Entity values are integers, strings or null; floats and booleans are left out.
- The `RulesChecker` is a sequence of rules. Its `add()` and the way it later runs rules are not modelled beyond `CheckRule` and `Call`.
- Php.RemoveAll: its own contract only bounds the length. The content is stated by `RemoveAllPrefix` and `RemoveAllAbsent`, which is all the dispatch proofs need.
- NormalizerFacts.SetupAliases: gives bounds rather than the exact alias set. In general a later numeric key can unset an alias created earlier (`LaterListEntryUnsetsAlias`). The exact set is stated by `SetupAliasesExact` under its hypothesis.

## Findings

| source | as written | input that shows it | evidently intended | confidence | as-written member | corrected member |
|---|---|---|---|---|---|---|
| src/Model/Behavior/EnumBehavior.php:159-180 | the rule is named `'isValid' . Inflector::classify($alias)`, and `__call` recovers the alias as `Inflector::underscore(...)` of the rest of the name. `classify` singularises, so the round trip changes plural aliases | alias `statuses`: the rule is `isValidStatus`, `__call` looks up `strategies.status`, which is absent, and every save throws `RuntimeException` | each registered rule checks the alias it was registered for | high (not executed) | Rules.PluralAliasRuleMisdispatches | Rules.BuiltRulesCheckTheirAlias |

/** The closed set of enumeration strategies, the values a configuration can
    hold, and the collaborators the behaviour calls but does not define. */
module Strategies {
  import opened Php

  /** The three strategy classes the behaviour knows. */
  datatype Kind = Lookup | Const | Enumerated

  /** The behaviour's class map: short name to strategy class. */
  const ClassMap: map<string, Kind> := map["lookup" := Lookup, "const" := Const, "enum" := Enumerated]

  /** The default `defaultStrategy` of the behaviour's default configuration. */
  const DefaultStrategyName: string := "lookup"

  /** A strategy object. It is built with the alias it serves; `serial` stands
      for the object's identity, so two constructions are never the same object. */
  datatype Strategy = Strategy(kind: Kind, alias: Key, serial: nat)

  /** What a configuration slot (or a cache slot) can hold: a string, such as a
      short strategy name, or an already-built strategy object. */
  datatype Value = Str(s: string) | Obj(inst: Strategy)

  /** One alias's settings: `className`, `prefix`, `field`, `errorMessage`, ... */
  type Config = map<string, Value>

  /** `empty($v)`: a strategy object is never empty; a string is empty when it is "" or "0". */
  predicate IsEmpty(v: Value) {
    v.Str? && IsEmptyString(v.s)
  }

  /** `$config[$name]`, with PHP's null for a missing entry read as the empty
      string (the two behave alike as an array key and under `empty()`). */
  function Setting(c: Config, name: string): Value {
    if name in c then c[name] else Str("")
  }

  /** The collaborators the behaviour calls: the strategies' own `normalize()`
      and `enum()`, CakePHP's `Inflector::classify` / `Inflector::underscore`,
      and PHP's `strtoupper`. They are parameters of the model, and nothing is
      assumed about them. */
  datatype Host = Host(
    normalize: (Strategy, Config) -> Config,
    enumerate: (Strategy, Config) -> map<Key, string>,
    upper: string -> string,
    classify: string -> string,
    underscore: string -> string)

  /** The exceptions the behaviour can raise. */
  datatype Error =
    | InvalidArgument(identifier: string)  // unknown strategy name
    | RuntimeError                          // alias not configured, or not an `isValid...` method
    | NotAnObject                           // a method called on a cached value that is not a strategy
    | IllegalOffset                         // an array used as an array key
}

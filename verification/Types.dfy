/** The data the evaluator reads (sdk/go/flageval/types.go). */
module Types {
  import opened Wrappers

  /** A decoded JSON value.  Go's float64 numbers are kept as reals. */
  datatype Value =
    | Null
    | Bool(b: bool)
    | Number(n: real)
    | Text(s: string)
    | List(items: seq<Value>)
    | Object(fields: map<string, Value>)

  datatype Variation = Variation(name: string, value: Value)

  datatype Clause = Clause(contextKind: string, attribute: string, op: string, values: seq<Value>, negate: bool)

  datatype WeightedVariation = WeightedVariation(variation: int, weight: int)

  datatype Rollout = Rollout(contextKind: string, bucketBy: string, variations: seq<WeightedVariation>)

  /** What a matched rule, or the fallthrough, serves.  Go allows both or neither to be present. */
  datatype Payload = Payload(variation: Option<int>, rollout: Option<Rollout>)

  datatype Rule = Rule(clauses: seq<Clause>, serve: Payload)

  datatype Target = Target(contextKind: string, variation: int, keys: seq<string>)

  datatype Prerequisite = Prerequisite(flagKey: string, variation: int)

  datatype Config = Config(
    enabled: bool,
    targets: seq<Target>,
    rules: seq<Rule>,
    fallthrough: Payload,
    offVariation: int,
    prerequisites: seq<Prerequisite>)

  datatype Flag = Flag(key: string, salt: string, kind: string, variations: seq<Variation>, config: Config)

  datatype SegmentRule = SegmentRule(clauses: seq<Clause>)

  datatype Segment = Segment(
    key: string,
    contextKind: string,
    included: seq<string>,
    excluded: seq<string>,
    rules: seq<SegmentRule>)

  datatype Store = Store(flags: map<string, Flag>, segments: map<string, Segment>)

  datatype Reason = OFF | PREREQUISITE_FAILED | TARGET_MATCH | RULE_MATCH | FALLTHROUGH

  datatype Result = Result(variationIndex: int, value: Value, reason: Reason)
}

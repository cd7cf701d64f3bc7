/** Targeting across the language boundary: written as JSON by the Python models (by alias, absent options
    left out; control-plane/app/api/flags.py, segments.py) and decoded by the Go field tags
    (sdk/go/flageval/types.go; data-plane/internal/store/store.go). */
module JsonBoundary {
  import opened Wrappers
  import opened Types
  import opened Values
  import opened Binary64

  // ---- What Python stores ----

  function Int(n: int): Value {
    Number(n as real)
  }

  function Each<T, U>(xs: seq<T>, f: T -> U): (ys: seq<U>)
    ensures |ys| == |xs| && forall i :: 0 <= i < |xs| ==> ys[i] == f(xs[i])
  {
    seq(|xs|, i requires 0 <= i < |xs| => f(xs[i]))
  }

  function Dumped<T>(xs: seq<T>, dump: T -> Value): Value {
    List(Each(xs, dump))
  }

  function DumpClause(c: Clause): Value {
    Object(map["contextKind" := Text(c.contextKind), "attribute" := Text(c.attribute), "op" := Text(c.op),
               "values" := List(c.values), "negate" := Bool(c.negate)])
  }

  function DumpWeighted(wv: WeightedVariation): Value {
    Object(map["variation" := Int(wv.variation), "weight" := Int(wv.weight)])
  }

  function DumpRollout(r: Rollout): Value {
    Object(map["contextKind" := Text(r.contextKind), "bucketBy" := Text(r.bucketBy),
               "variations" := Dumped(r.variations, DumpWeighted)])
  }

  /** `exclude_none`: what is absent leaves no field. */
  function PayloadFields(p: Payload): map<string, Value> {
    (if p.variation.Some? then map["variation" := Int(p.variation.value)] else map[])
    + if p.rollout.Some? then map["rollout" := DumpRollout(p.rollout.value)] else map[]
  }

  function DumpRule(r: Rule): Value {
    Object(map["clauses" := Dumped(r.clauses, DumpClause)] + PayloadFields(r.serve))
  }

  function DumpTarget(t: Target): Value {
    Object(map["contextKind" := Text(t.contextKind), "variation" := Int(t.variation),
               "keys" := Dumped(t.keys, (k: string) => Text(k))])
  }

  function DumpPrerequisite(p: Prerequisite): Value {
    Object(map["flagKey" := Text(p.flagKey), "variation" := Int(p.variation)])
  }

  function DumpSegmentRule(r: SegmentRule): Value {
    Object(map["clauses" := Dumped(r.clauses, DumpClause)])
  }

  function DumpVariation(v: Variation): Value {
    Object(map["name" := Text(v.name), "value" := v.value])
  }

  /** The columns of a row of flag_environment_configs. */
  datatype Columns = Columns(
    enabled: bool,
    targets: Value,
    rules: Value,
    fallthrough: Value,
    offVariation: int,
    prerequisites: Value)

  function DumpConfig(c: Config): Columns {
    Columns(c.enabled, Dumped(c.targets, DumpTarget), Dumped(c.rules, DumpRule), Object(PayloadFields(c.fallthrough)),
            c.offVariation, Dumped(c.prerequisites, DumpPrerequisite))
  }

  // ---- What Go reads: null and absent fields leave the zero value, other types are errors ----

  function Field(v: Value, name: string): Value {
    if v.Object? && name in v.fields then v.fields[name] else Null
  }

  function ReadString(v: Value): Option<string> {
    match v case Null => Some("") case Text(s) => Some(s) case _ => None
  }

  function ReadBool(v: Value): Option<bool> {
    match v case Null => Some(false) case Bool(b) => Some(b) case _ => None
  }

  /** Go's int has 64 bits; anything else, even a larger integer, is an error. */
  function ReadInt(v: Value): Option<int> {
    match v
    case Null => Some(0)
    case Number(n) => if n.Floor as real == n && InInt64(n.Floor) then Some(n.Floor) else None
    case _ => None
  }

  predicate InInt64(n: int) {
    -TWO_63 <= n < TWO_63
  }

  /** No number in the value is so large that rounding takes it to 2^1024. */
  predicate Representable(v: Value) {
    match v
    case Number(n) => -TWO_1024 < Float(n) < TWO_1024
    case List(vs) => forall i :: 0 <= i < |vs| ==> Representable(vs[i])
    case Object(fs) => forall k :: k in fs ==> Representable(fs[k])
    case _ => true
  }

  /** Every number in the value is rounded to float64. */
  function Rounded(v: Value): Value {
    match v
    case Number(n) => Number(Float(n))
    case List(vs) => List(seq(|vs|, i requires 0 <= i < |vs| => Rounded(vs[i])))
    case Object(fs) => Object(map k | k in fs :: Rounded(fs[k]))
    case _ => v
  }

  /** Into an `any`: numbers become float64, and one that does not fit is an error. */
  function ReadValue(v: Value): Option<Value> {
    if Representable(v) then Some(Rounded(v)) else None
  }

  function ReadPointer<T>(v: Value, read: Value -> Option<T>): Option<Option<T>> {
    if v.Null? then Some(None)
    else
      var x :- read(v);
      Some(Some(x))
  }

  function ReadItems<S, T>(vs: seq<S>, read: S -> Option<T>): (r: Option<seq<T>>)
    ensures r.Some? <==> forall i :: 0 <= i < |vs| ==> read(vs[i]).Some?
    ensures r.Some? ==> |r.value| == |vs| && forall i :: 0 <= i < |vs| ==> read(vs[i]) == Some(r.value[i])
  {
    if vs == [] then Some([])
    else
      var x :- read(vs[0]);
      var xs :- ReadItems(vs[1..], read);
      Some([x] + xs)
  }

  function ReadList<T>(v: Value, read: Value -> Option<T>): Option<seq<T>> {
    match v case Null => Some([]) case List(vs) => ReadItems(vs, read) case _ => None
  }

  function ReadClause(v: Value): Option<Clause> {
    if !v.Object? && !v.Null? then None
    else
      var kind :- ReadString(Field(v, "contextKind"));
      var attribute :- ReadString(Field(v, "attribute"));
      var op :- ReadString(Field(v, "op"));
      var values :- ReadList(Field(v, "values"), ReadValue);
      var negate :- ReadBool(Field(v, "negate"));
      Some(Clause(kind, attribute, op, values, negate))
  }

  function ReadWeighted(v: Value): Option<WeightedVariation> {
    if !v.Object? && !v.Null? then None
    else
      var variation :- ReadInt(Field(v, "variation"));
      var weight :- ReadInt(Field(v, "weight"));
      Some(WeightedVariation(variation, weight))
  }

  function ReadRollout(v: Value): Option<Rollout> {
    if !v.Object? then None
    else
      var kind :- ReadString(Field(v, "contextKind"));
      var bucketBy :- ReadString(Field(v, "bucketBy"));
      var variations :- ReadList(Field(v, "variations"), ReadWeighted);
      Some(Rollout(kind, bucketBy, variations))
  }

  function ReadPayload(v: Value): Option<Payload> {
    if !v.Object? && !v.Null? then None
    else
      var variation :- ReadPointer(Field(v, "variation"), ReadInt);
      var rollout :- ReadPointer(Field(v, "rollout"), ReadRollout);
      Some(Payload(variation, rollout))
  }

  function ReadRule(v: Value): Option<Rule> {
    var serve :- ReadPayload(v);
    var clauses :- ReadList(Field(v, "clauses"), ReadClause);
    Some(Rule(clauses, serve))
  }

  function ReadTarget(v: Value): Option<Target> {
    if !v.Object? && !v.Null? then None
    else
      var kind :- ReadString(Field(v, "contextKind"));
      var variation :- ReadInt(Field(v, "variation"));
      var keys :- ReadList(Field(v, "keys"), ReadString);
      Some(Target(kind, variation, keys))
  }

  function ReadPrerequisite(v: Value): Option<Prerequisite> {
    if !v.Object? && !v.Null? then None
    else
      var flagKey :- ReadString(Field(v, "flagKey"));
      var variation :- ReadInt(Field(v, "variation"));
      Some(Prerequisite(flagKey, variation))
  }

  function ReadConfig(c: Columns): Option<Config> {
    var targets :- ReadList(c.targets, ReadTarget);
    var rules :- ReadList(c.rules, ReadRule);
    var otherwise :- ReadPayload(c.fallthrough);
    var prerequisites :- ReadList(c.prerequisites, ReadPrerequisite);
    Some(Config(c.enabled, targets, rules, otherwise, c.offVariation, prerequisites))
  }

  function ReadSegmentRule(v: Value): Option<SegmentRule> {
    if !v.Object? && !v.Null? then None
    else
      var clauses :- ReadList(Field(v, "clauses"), ReadClause);
      Some(SegmentRule(clauses))
  }

  function ReadVariation(v: Value): Option<Variation> {
    if !v.Object? && !v.Null? then None
    else
      var name :- ReadString(Field(v, "name"));
      var value :- ReadValue(Field(v, "value"));
      Some(Variation(name, value))
  }

  // ---- What is readable, and what reading makes of it ----

  predicate ReadableClause(c: Clause) {
    forall i :: 0 <= i < |c.values| ==> Representable(c.values[i])
  }

  predicate ReadableClauses(cs: seq<Clause>) {
    forall i :: 0 <= i < |cs| ==> ReadableClause(cs[i])
  }

  predicate ReadableWeighted(wv: WeightedVariation) {
    InInt64(wv.variation) && InInt64(wv.weight)
  }

  predicate ReadableRollout(r: Rollout) {
    forall i :: 0 <= i < |r.variations| ==> ReadableWeighted(r.variations[i])
  }

  predicate ReadablePayload(p: Payload) {
    && (p.variation.Some? ==> InInt64(p.variation.value))
    && (p.rollout.Some? ==> ReadableRollout(p.rollout.value))
  }

  predicate ReadableRule(r: Rule) {
    ReadableClauses(r.clauses) && ReadablePayload(r.serve)
  }

  /** Go can read it: integers have 64 bits, and numbers in clause values fit float64. */
  predicate ReadableConfig(c: Config) {
    && (forall i :: 0 <= i < |c.targets| ==> InInt64(c.targets[i].variation))
    && (forall i :: 0 <= i < |c.rules| ==> ReadableRule(c.rules[i]))
    && ReadablePayload(c.fallthrough)
    && forall i :: 0 <= i < |c.prerequisites| ==> InInt64(c.prerequisites[i].variation)
  }

  predicate ReadableSegmentRules(rules: seq<SegmentRule>) {
    forall i :: 0 <= i < |rules| ==> ReadableClauses(rules[i].clauses)
  }

  predicate ReadableVariations(vs: seq<Variation>) {
    forall i :: 0 <= i < |vs| ==> Representable(vs[i].value)
  }

  function RoundedClause(c: Clause): Clause {
    c.(values := Each(c.values, Rounded))
  }

  function RoundedRule(r: Rule): Rule {
    r.(clauses := Each(r.clauses, RoundedClause))
  }

  function RoundedConfig(c: Config): Config {
    c.(rules := Each(c.rules, RoundedRule))
  }

  function RoundedSegmentRule(r: SegmentRule): SegmentRule {
    r.(clauses := Each(r.clauses, RoundedClause))
  }

  function RoundedVariation(v: Variation): Variation {
    v.(value := Rounded(v.value))
  }

  // ---- Dumping and reading ----

  /** If each item is read back as `f` of what was dumped, or not at all, so is the list. */
  lemma DumpedItems<T>(xs: seq<T>, dump: T -> Value, read: Value -> Option<T>, ok: T -> bool, f: T -> T)
    requires forall i :: 0 <= i < |xs| ==> read(dump(xs[i])) == if ok(xs[i]) then Some(f(xs[i])) else None
    ensures ReadList(Dumped(xs, dump), read) ==
            if forall i :: 0 <= i < |xs| ==> ok(xs[i]) then Some(Each(xs, f)) else None
  {
    var vs := Each(xs, dump);
    var r := ReadItems(vs, read);
    if r.Some? {
      forall i | 0 <= i < |xs| ensures ok(xs[i]) && r.value[i] == f(xs[i]) {
        assert read(vs[i]).Some?;
      }
      assert r.value == Each(xs, f);
    } else {
      var i :| 0 <= i < |vs| && read(vs[i]).None?;
      assert !ok(xs[i]);
    }
  }

  /** The same for items that reading leaves as they are. */
  lemma DumpedSame<T>(xs: seq<T>, dump: T -> Value, read: Value -> Option<T>, ok: T -> bool)
    requires forall i :: 0 <= i < |xs| ==> read(dump(xs[i])) == if ok(xs[i]) then Some(xs[i]) else None
    ensures ReadList(Dumped(xs, dump), read) == if forall i :: 0 <= i < |xs| ==> ok(xs[i]) then Some(xs) else None
  {
    DumpedItems(xs, dump, read, ok, x => x);
    assert Each(xs, x => x) == xs;
  }

  lemma ValuesRead(vs: seq<Value>)
    ensures ReadList(List(vs), ReadValue)
            == if forall i :: 0 <= i < |vs| ==> Representable(vs[i]) then Some(Each(vs, Rounded)) else None
  {
    DumpedItems(vs, v => v, ReadValue, Representable, Rounded);
    assert Each(vs, v => v) == vs;
  }

  lemma ClauseReads(c: Clause)
    ensures ReadClause(DumpClause(c)) == if ReadableClause(c) then Some(RoundedClause(c)) else None
  {
    hide ReadValue, Rounded, Representable, ReadList;
    ValuesRead(c.values);
  }

  lemma ClausesRead(cs: seq<Clause>)
    ensures ReadList(Dumped(cs, DumpClause), ReadClause)
            == if ReadableClauses(cs) then Some(Each(cs, RoundedClause)) else None
  {
    forall i | 0 <= i < |cs|
      ensures ReadClause(DumpClause(cs[i])) == if ReadableClause(cs[i]) then Some(RoundedClause(cs[i])) else None
    {
      ClauseReads(cs[i]);
    }
    DumpedItems(cs, DumpClause, ReadClause, ReadableClause, RoundedClause);
  }

  lemma WeightsRead(wvs: seq<WeightedVariation>)
    ensures ReadList(Dumped(wvs, DumpWeighted), ReadWeighted)
            == if forall i :: 0 <= i < |wvs| ==> ReadableWeighted(wvs[i]) then Some(wvs) else None
  {
    DumpedSame(wvs, DumpWeighted, ReadWeighted, ReadableWeighted);
  }

  lemma RolloutReads(r: Rollout)
    ensures ReadRollout(DumpRollout(r)) == if ReadableRollout(r) then Some(r) else None
  {
    hide ReadList, Dumped;
    WeightsRead(r.variations);
  }

  /** Whether an option is present survives, for both options. */
  lemma PayloadRoundTrip(p: Payload, extra: map<string, Value>)
    requires "variation" !in extra && "rollout" !in extra
    ensures ReadPayload(Object(extra + PayloadFields(p))) == if ReadablePayload(p) then Some(p) else None
  {
    if p.rollout.Some? {
      RolloutReads(p.rollout.value);
    }
    hide ReadRollout, DumpRollout, ReadableRollout;
  }

  lemma RuleReads(r: Rule)
    ensures ReadRule(DumpRule(r)) == if ReadableRule(r) then Some(RoundedRule(r)) else None
  {
    ClausesRead(r.clauses);
    PayloadRoundTrip(r.serve, map["clauses" := Dumped(r.clauses, DumpClause)]);
    hide ReadPayload, ReadList, Dumped, ReadableClauses, ReadablePayload;
  }

  lemma RulesRead(rules: seq<Rule>)
    ensures ReadList(Dumped(rules, DumpRule), ReadRule)
            == if forall i :: 0 <= i < |rules| ==> ReadableRule(rules[i]) then Some(Each(rules, RoundedRule)) else None
  {
    forall i | 0 <= i < |rules|
      ensures ReadRule(DumpRule(rules[i])) == if ReadableRule(rules[i]) then Some(RoundedRule(rules[i])) else None
    {
      RuleReads(rules[i]);
    }
    DumpedItems(rules, DumpRule, ReadRule, ReadableRule, RoundedRule);
  }

  lemma TargetReads(t: Target)
    ensures ReadTarget(DumpTarget(t)) == if InInt64(t.variation) then Some(t) else None
  {
    DumpedSame(t.keys, (k: string) => Text(k), ReadString, (_: string) => true);
  }

  lemma TargetsRead(ts: seq<Target>)
    ensures ReadList(Dumped(ts, DumpTarget), ReadTarget)
            == if forall i :: 0 <= i < |ts| ==> InInt64(ts[i].variation) then Some(ts) else None
  {
    forall i | 0 <= i < |ts|
      ensures ReadTarget(DumpTarget(ts[i])) == if InInt64(ts[i].variation) then Some(ts[i]) else None
    {
      TargetReads(ts[i]);
    }
    DumpedSame(ts, DumpTarget, ReadTarget, (t: Target) => InInt64(t.variation));
  }

  lemma PrerequisiteReads(p: Prerequisite)
    ensures ReadPrerequisite(DumpPrerequisite(p)) == if InInt64(p.variation) then Some(p) else None
  {
  }

  lemma PrerequisitesRead(ps: seq<Prerequisite>)
    ensures ReadList(Dumped(ps, DumpPrerequisite), ReadPrerequisite)
            == if forall i :: 0 <= i < |ps| ==> InInt64(ps[i].variation) then Some(ps) else None
  {
    forall i | 0 <= i < |ps|
      ensures ReadPrerequisite(DumpPrerequisite(ps[i])) == if InInt64(ps[i].variation) then Some(ps[i]) else None
    {
      PrerequisiteReads(ps[i]);
    }
    hide ReadPrerequisite, DumpPrerequisite, InInt64;
    DumpedSame(ps, DumpPrerequisite, ReadPrerequisite, (p: Prerequisite) => InInt64(p.variation));
  }

  // ---- Main results ----

  /** What Go makes of every config that Python can store. */
  lemma ConfigReads(c: Config)
    ensures ReadConfig(DumpConfig(c)) == if ReadableConfig(c) then Some(RoundedConfig(c)) else None
  {
    hide ReadPayload, ReadList, Dumped, PayloadFields, ReadablePayload, ReadableRule, InInt64;
    hide ReadTarget, ReadRule, ReadPrerequisite, DumpTarget, DumpRule, DumpPrerequisite, RoundedRule;
    TargetsRead(c.targets);
    RulesRead(c.rules);
    PrerequisitesRead(c.prerequisites);
    PayloadRoundTrip(c.fallthrough, map[]);
    assert map[] + PayloadFields(c.fallthrough) == PayloadFields(c.fallthrough);
  }

  lemma SegmentRulesRead(rules: seq<SegmentRule>)
    ensures ReadList(Dumped(rules, DumpSegmentRule), ReadSegmentRule)
            == if ReadableSegmentRules(rules) then Some(Each(rules, RoundedSegmentRule)) else None
  {
    forall i | 0 <= i < |rules|
      ensures ReadSegmentRule(DumpSegmentRule(rules[i]))
              == if ReadableClauses(rules[i].clauses) then Some(RoundedSegmentRule(rules[i])) else None
    {
      ClausesRead(rules[i].clauses);
    }
    DumpedItems(rules, DumpSegmentRule, ReadSegmentRule, (r: SegmentRule) => ReadableClauses(r.clauses),
                RoundedSegmentRule);
  }

  lemma VariationsRead(vs: seq<Variation>)
    ensures ReadList(Dumped(vs, DumpVariation), ReadVariation)
            == if ReadableVariations(vs) then Some(Each(vs, RoundedVariation)) else None
  {
    DumpedItems(vs, DumpVariation, ReadVariation, (v: Variation) => Representable(v.value), RoundedVariation);
  }

  /** Every number in the value is a binary64 number. */
  predicate Exact(v: Value) {
    match v
    case Number(n) => Float(n) == n
    case List(vs) => forall i :: 0 <= i < |vs| ==> Exact(vs[i])
    case Object(fs) => forall k :: k in fs ==> Exact(fs[k])
    case _ => true
  }

  lemma {:induction false} RoundedIsSame(v: Value)
    ensures Rounded(v) == v <==> Exact(v)
  {
    match v
    case List(vs) =>
      forall i | 0 <= i < |vs| ensures Rounded(v).items[i] == vs[i] <==> Exact(vs[i]) {
        RoundedIsSame(vs[i]);
      }
      assert Rounded(v) == v <==> forall i :: 0 <= i < |vs| ==> Rounded(v).items[i] == vs[i];
    case Object(fs) =>
      forall k | k in fs ensures Rounded(v).fields[k] == fs[k] <==> Exact(fs[k]) {
        RoundedIsSame(fs[k]);
      }
      assert Rounded(v) == v <==> forall k :: k in fs ==> Rounded(v).fields[k] == fs[k];
    case _ =>
  }

  predicate ExactClauses(cs: seq<Clause>) {
    forall i, j :: 0 <= i < |cs| && 0 <= j < |cs[i].values| ==> Exact(cs[i].values[j])
  }

  lemma ClausesSame(cs: seq<Clause>)
    ensures Each(cs, RoundedClause) == cs <==> ExactClauses(cs)
  {
    var rs := Each(cs, RoundedClause);
    forall i, j | 0 <= i < |cs| && 0 <= j < |cs[i].values|
      ensures rs[i].values[j] == cs[i].values[j] <==> Exact(cs[i].values[j])
    {
      RoundedIsSame(cs[i].values[j]);
    }
    if ExactClauses(cs) {
      forall i | 0 <= i < |cs| ensures rs[i] == cs[i] {
        assert rs[i].values == cs[i].values;
      }
    }
  }

  /** A config comes back as it was stored exactly when Go can read it and the numbers in its clauses are
      binary64 numbers. */
  lemma ConfigRoundTripIff(c: Config)
    ensures ReadConfig(DumpConfig(c)) == Some(c) <==>
            ReadableConfig(c) && forall i :: 0 <= i < |c.rules| ==> ExactClauses(c.rules[i].clauses)
  {
    ConfigReads(c);
    var rules := Each(c.rules, RoundedRule);
    forall i | 0 <= i < |c.rules| ensures rules[i] == c.rules[i] <==> ExactClauses(c.rules[i].clauses) {
      ClausesSame(c.rules[i].clauses);
    }
    assert rules == c.rules <==> forall i :: 0 <= i < |c.rules| ==> rules[i] == c.rules[i];
    hide ReadConfig, DumpConfig, ExactClauses, ReadableConfig;
  }

  // ---- What becomes of numbers, apart from how rounding is computed ----

  /** A number is refused exactly from (1 - 2^-54) * 2^1024 on; otherwise it becomes a binary64 number to which
      no other one is nearer. */
  lemma NumberReads(x: real)
    ensures ReadValue(Number(x)).None? <==> Abs(x) >= (1.0 - 0.5 / TWO_53) * TWO_1024
    ensures ReadValue(Number(x)).Some? ==>
              && ReadValue(Number(x)).value.Number?
              && var z := ReadValue(Number(x)).value.n;
                 IsSignedFloat(z) && forall y :: IsSignedFloat(y) ==> Abs(z - x) <= Abs(y - x)
  {
    OverflowsIff(Abs(x));
    forall y | IsSignedFloat(y) ensures IsSignedFloat(Float(x)) && Abs(Float(x) - x) <= Abs(y - x) {
      FloatNearest(x, y);
    }
    RoundZero();
    FloatNearest(x, 0.0);
    hide Round;
  }

  /** Lists and objects are read member by member, and everything but numbers as it is. */
  lemma NestedValuesRead(v: Value)
    ensures v.List? ==>
              && (ReadValue(v).Some? <==> forall i :: 0 <= i < |v.items| ==> ReadValue(v.items[i]).Some?)
              && (ReadValue(v).Some? ==>
                    && ReadValue(v).value.List? && |ReadValue(v).value.items| == |v.items|
                    && forall i :: 0 <= i < |v.items| ==> ReadValue(v.items[i]) == Some(ReadValue(v).value.items[i]))
    ensures v.Object? ==>
              && (ReadValue(v).Some? <==> forall k :: k in v.fields ==> ReadValue(v.fields[k]).Some?)
              && (ReadValue(v).Some? ==>
                    && ReadValue(v).value.Object? && ReadValue(v).value.fields.Keys == v.fields.Keys
                    && forall k :: k in v.fields ==> ReadValue(v.fields[k]) == Some(ReadValue(v).value.fields[k]))
    ensures v.Null? || v.Bool? || v.Text? ==> ReadValue(v) == Some(v)
  {
  }

  /** Reading keeps order. */
  lemma NumbersReadInOrder(x: real, y: real)
    requires x <= y && ReadValue(Number(x)).Some? && ReadValue(Number(y)).Some?
    ensures ReadValue(Number(x)).value.n <= ReadValue(Number(y)).value.n
  {
    FloatMonotone(x, y);
  }

  /** Every number in the value is an integer of at most 53 bits. */
  predicate SmallIntegers(v: Value) {
    match v
    case Number(n) => n.Floor as real == n && -0x20_0000_0000_0000 <= n.Floor <= 0x20_0000_0000_0000
    case List(vs) => forall i :: 0 <= i < |vs| ==> SmallIntegers(vs[i])
    case Object(fs) => forall k :: k in fs ==> SmallIntegers(fs[k])
    case _ => true
  }

  lemma {:induction false} SmallIntegersRead(v: Value)
    requires SmallIntegers(v)
    ensures ReadValue(v) == Some(v)
  {
    match v
    case Number(n) =>
      IntegerStays(n.Floor);
      SmallerThanLimit();
    case List(vs) =>
      forall i | 0 <= i < |vs| ensures Representable(vs[i]) && Rounded(vs[i]) == vs[i] {
        SmallIntegersRead(vs[i]);
      }
      assert Rounded(v).items == vs;
    case Object(fs) =>
      forall k | k in fs ensures Representable(fs[k]) && Rounded(fs[k]) == fs[k] {
        SmallIntegersRead(fs[k]);
      }
      assert Rounded(v).fields == fs;
    case _ =>
  }

  lemma SmallerThanLimit()
    ensures TWO_53 < TWO_1024
  {
  }

  /** What becomes of each value of each clause of a config that can be read. */
  lemma ClauseValuesRead(c: Config, i: nat, j: nat, m: nat)
    requires ReadConfig(DumpConfig(c)).Some?
    requires i < |c.rules| && j < |c.rules[i].clauses| && m < |c.rules[i].clauses[j].values|
    ensures var d := ReadConfig(DumpConfig(c)).value;
            && i < |d.rules| && j < |d.rules[i].clauses| && m < |d.rules[i].clauses[j].values|
            && Some(d.rules[i].clauses[j].values[m]) == ReadValue(c.rules[i].clauses[j].values[m])
  {
    ConfigReads(c);
    assert ReadableRule(c.rules[i]) && ReadableClause(c.rules[i].clauses[j]);
    hide ReadConfig, DumpConfig, Rounded, Representable, ReadablePayload;
  }

  /** So small integers, of either sign, come back as they were. */
  lemma IntegersComeBack(c: Config, i: nat, j: nat, m: nat, n: int)
    requires ReadConfig(DumpConfig(c)).Some?
    requires i < |c.rules| && j < |c.rules[i].clauses| && m < |c.rules[i].clauses[j].values|
    requires c.rules[i].clauses[j].values[m] == Number(n as real)
    requires -0x20_0000_0000_0000 <= n <= 0x20_0000_0000_0000
    ensures var d := ReadConfig(DumpConfig(c)).value;
            && i < |d.rules| && j < |d.rules[i].clauses| && m < |d.rules[i].clauses[j].values|
            && d.rules[i].clauses[j].values[m] == Number(n as real)
  {
    hide ReadConfig, DumpConfig, ReadValue;
    ClauseValuesRead(c, i, j, m);
    SmallIntegersRead(Number(n as real));
  }

  /** A config comes back whole if its integers fit 64 bits and the numbers in its clauses are small integers. */
  lemma IntegerConfigComesBack(c: Config)
    requires forall i :: 0 <= i < |c.targets| ==> InInt64(c.targets[i].variation)
    requires forall i :: 0 <= i < |c.prerequisites| ==> InInt64(c.prerequisites[i].variation)
    requires ReadablePayload(c.fallthrough) && forall i :: 0 <= i < |c.rules| ==> ReadablePayload(c.rules[i].serve)
    requires forall i, j, m :: 0 <= i < |c.rules| && 0 <= j < |c.rules[i].clauses|
                               && 0 <= m < |c.rules[i].clauses[j].values| ==>
               SmallIntegers(c.rules[i].clauses[j].values[m])
    ensures ReadConfig(DumpConfig(c)) == Some(c)
  {
    ConfigRoundTripIff(c);
    forall i, j, m | 0 <= i < |c.rules| && 0 <= j < |c.rules[i].clauses| && 0 <= m < |c.rules[i].clauses[j].values|
      ensures Representable(c.rules[i].clauses[j].values[m]) && Exact(c.rules[i].clauses[j].values[m])
    {
      SmallIntegersRead(c.rules[i].clauses[j].values[m]);
      RoundedIsSame(c.rules[i].clauses[j].values[m]);
    }
    forall i | 0 <= i < |c.rules| ensures ReadableRule(c.rules[i]) && ExactClauses(c.rules[i].clauses) {
      forall j | 0 <= j < |c.rules[i].clauses| ensures ReadableClause(c.rules[i].clauses[j]) {
      }
    }
    hide ReadConfig, DumpConfig, Representable, Exact, ReadablePayload, SmallIntegers;
  }

  /** Variation values that are small integers come back, too. */
  lemma IntegerVariationsComeBack(vs: seq<Variation>)
    requires forall i :: 0 <= i < |vs| ==> SmallIntegers(vs[i].value)
    ensures ReadList(Dumped(vs, DumpVariation), ReadVariation) == Some(vs)
  {
    VariationsRead(vs);
    forall i | 0 <= i < |vs| ensures Representable(vs[i].value) && RoundedVariation(vs[i]) == vs[i] {
      SmallIntegersRead(vs[i].value);
    }
    assert Each(vs, RoundedVariation) == vs;
    hide ReadList, Dumped;
  }

  /** Fields that are missing leave the zero value, and options absent. */
  lemma MissingFieldsRead(v: Value)
    requires v == Object(map[]) || v == Null
    ensures ReadClause(v) == Some(Clause("", "", "", [], false))
    ensures ReadTarget(v) == Some(Target("", 0, []))
    ensures ReadPrerequisite(v) == Some(Prerequisite("", 0))
    ensures ReadRule(v) == Some(Rule([], Payload(None, None)))
    ensures ReadSegmentRule(v) == Some(SegmentRule([]))
    ensures ReadVariation(v) == Some(Variation("", Null))
    ensures ReadWeighted(v) == Some(WeightedVariation(0, 0))
  {
  }
}

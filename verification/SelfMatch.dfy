/** A segment that matches itself is accepted, and evaluation of the flags that name it never ends
    (control-plane/app/api/segments.py; sdk/go/flageval/clauses.go). */
module SelfMatch {
  import opened Wrappers
  import opened Types
  import opened Versions
  import opened Clauses
  import opened Segments
  import opened Evaluator
  import opened JsonBoundary
  import opened ControlPlane
  import opened Propagation
  import opened Runs

  function Naming(k: string): Clause {
    Clause("user", "key", "segmentMatch", [Text(k)], false)
  }

  /** Lists nobody; its only rule matches the segment itself. */
  function SelfMatching(k: string): SegmentConfig {
    SegmentConfig("user", [], [], [SegmentRule([Naming(k)])])
  }

  /** The PUT succeeds for every segment, and can be read. */
  lemma SelfMatchIsAccepted(db: Db, p: string, k: string, e: string)
    requires p in db.projects && Id(p, k) in db.segments && Id(p, e) in db.envs
    ensures StatusOf(db, PutSegmentConfig(p, k, e, SelfMatching(k))) == Fine
    ensures ReadableSegmentRules(SelfMatching(k).rules)
  {
  }

  /** Whoever comes to the rule is asked for the segment. */
  function NamingConfig(k: string): Config {
    Config(true, [], [Rule([Naming(k)], Payload(Some(1), None))], Payload(Some(0), None), 0, [])
  }

  /** For every context, however deep the recursion goes, the flag is not answered. */
  lemma NamingFlagIsStuck(flag: Flag, k: string, q: Request, depth: nat)
    requires flag.config == NamingConfig(k)
    requires k in q.store.segments && q.store.segments[k] == Segment(k, "user", [], [], [SegmentRule([Naming(k)])])
    ensures Evaluation(flag, q, depth) == Stuck
  {
    if depth > 0 {
      SelfReferenceAnsweredIff(k, q, depth);
    }
    assert InSegment(q.store.segments[k], q, depth) == None;
    assert AnySegment([Text(k)], q, depth) == None;
    assert AllClauses([Naming(k)], q, depth) == None;
    assert PrerequisitesHold([], q, depth, {}) == Done(true);
    hide InSegment, AnySegment;
  }

  const NAME_IT: Op := PutFlagConfig("p", "f", "e", NamingConfig("s"))

  const MATCH_SELF: Op := PutSegmentConfig("p", "s", "e", SelfMatching("s"))

  /** Two more requests put such a flag and segment into the small database. */
  const LOOPED: Db := SMALL.(
    flagConfigs := map[ConfigKey(Id("p", "f"), Id("p", "e")) := Row(NamingConfig("s"), 2)],
    segmentConfigs := map[ConfigKey(Id("p", "s"), Id("p", "e")) := Row(SelfMatching("s"), 1)])

  lemma LoopIsMade(full: bool, w: World)
    requires w == World(EMPTY, SOLE, map[], map[])
    ensures Initial(w) && Reach(w, World(LOOPED, SOLE, map[], map[]), full)
  {
    hide Reach;
    SmallIsMade(full, w, SOLE);
    var d := SMALL.(flagConfigs := LOOPED.flagConfigs);
    FlagIsPut(d);
    SomeoneWrites(full, w, SMALL, NAME_IT, SOLE);
    SelfMatchIsAccepted(d, "p", "s", "e");
    assert After(d, MATCH_SELF) == LOOPED;
    SomeoneWrites(full, w, d, MATCH_SELF, SOLE);
  }

  lemma FlagIsPut(d: Db)
    requires d == SMALL.(flagConfigs := LOOPED.flagConfigs)
    ensures After(SMALL, NAME_IT) == d
  {
    assert StatusOf(SMALL, NAME_IT) == Fine;
  }

  lemma LoopedTables()
    ensures var e := Id("p", "e");
            && ReadableFlags(LOOPED, e) && ReadableSegments(LOOPED, e)
            && "f" in FlagTable(LOOPED, e) && "s" in SegmentTable(LOOPED, e)
            && FlagTable(LOOPED, e)["f"].content.flag.config == NamingConfig("s")
            && SegmentTable(LOOPED, e)["s"].content == Segment("s", "user", [], [], [SegmentRule([Naming("s")])])
  {
    var e := Id("p", "e");
    assert HasFlag(LOOPED, e, "f") && HasSegment(LOOPED, e, "s");
    NamingReads();
    hide ReadableConfig, ReadableSegmentRules, ReadableVariations, RoundedConfig;
  }

  lemma NamingReads()
    ensures ReadableConfig(NamingConfig("s")) && RoundedConfig(NamingConfig("s")) == NamingConfig("s")
    ensures ReadableVariations(VARIATIONS)
    ensures ReadableSegmentRules(SelfMatching("s").rules)
    ensures Each(SelfMatching("s").rules, RoundedSegmentRule) == SelfMatching("s").rules
  {
    assert RoundedClause(Naming("s")) == Naming("s");
    assert Each([Naming("s")], RoundedClause) == [Naming("s")];
  }

  /** From the start: six requests and one complete load leave a ruleset in the cache in which
      evaluating flag "f" does not end for any context. */
  lemma CachedFlagIsStuck(w: World) returns (v: World)
    requires w == World(EMPTY, SOLE, map[], map[])
    ensures Initial(w) && Reach(w, v, true) && Id("p", "e") in v.cache && "f" in v.cache[Id("p", "e")].rs.flags
    ensures var rs := v.cache[Id("p", "e")].rs;
            forall ctx, lib, depth :: Evaluation(rs.flags["f"], Request(rs.AsStore(), ctx, lib), depth) == Stuck
  {
    var e := Id("p", "e");
    LoopIsMade(true, w);
    LoopedTables();
    AllCome(LOOPED, e);
    hide Reach, FlagTable, SegmentTable, FlagsCome, ReadableFlags, ReadableSegments;
    var before := World(LOOPED, SOLE, map[], map[]);
    var c := CopyOf(FlagTable(LOOPED, e), SegmentTable(LOOPED, e));
    v := before.(cache := before.cache[e := c]);
    LoadsAnew(true, w, before, e, FlagTable(LOOPED, e), v);
    forall ctx, lib, depth ensures Evaluation(c.rs.flags["f"], Request(c.rs.AsStore(), ctx, lib), depth) == Stuck {
      NamingFlagIsStuck(c.rs.flags["f"], "s", Request(c.rs.AsStore(), ctx, lib), depth);
    }
  }
}

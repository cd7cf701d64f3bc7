/** Runs after which a stream stays behind the cache, because two rulesets have the same version without being
    the same: two loads that overlap, and one loader whose queries are cut short. */
module Overlap {
  import opened Wrappers
  import opened Types
  import opened Versions
  import opened JsonBoundary
  import opened ControlPlane
  import opened RulesetStore
  import opened Propagation
  import opened Runs

  ghost function Two(a: Loader, b: Loader): map<nat, Loader> {
    map[0 := a, 1 := b]
  }

  /** One flag write and one segment write in the environment, all of whose rows can be decoded. */
  ghost predicate TwoWrites(db: Db, env: Id, first: Op, second: Op) {
    && DbOk(db) && env in db.envs
    && Readable(db, env) && Readable(After(db, first), env) && Readable(After(After(db, first), second), env)
    && first.PutFlagConfig? && env == Id(first.project, first.env) && StatusOf(db, first) == Fine
    && second.PutSegmentConfig? && env == Id(second.project, second.env)
    && StatusOf(After(db, first), second) == Fine
  }

  lemma WriteTotals(db: Db, env: Id, first: Op, second: Op)
    requires TwoWrites(db, env, first, second)
    ensures var d1 := After(db, first); var d2 := After(d1, second);
            && env in d1.envs && env in d2.envs
            && Total(FlagTable(d1, env)) == Total(FlagTable(db, env)) + 1
            && SegmentTable(d1, env) == SegmentTable(db, env)
            && FlagTable(d2, env) == FlagTable(d1, env)
            && Total(SegmentTable(d2, env)) == Total(SegmentTable(d1, env)) + 1
  {
    hide FlagTable, SegmentTable, DbOk;
    var d1 := After(db, first);
    var d2 := After(d1, second);
    assert env in d1.envs && env in d2.envs && d1.flags == d2.flags && d1.flagConfigs == d2.flagConfigs;
    hide After, StatusOf;
    WritesKeepOk(db, first);
    var t, u := FlagTable(db, env), FlagTable(d1, env);
    FlagTableAfterPut(db, first.project, first.key, first.env, first.config, env);
    var s, v := SegmentTable(d1, env), SegmentTable(d2, env);
    SegmentTableAfterPut(d1, second.project, second.key, second.env, second.segment, env);
    SameSegments(db, first, env);
    SameFlags(d1, d2, env);
    hide FlagTable, SegmentTable, After, DbOk, StatusOf;
    TotalReplaced(t, first.key, u[first.key]);
    if second.key in s {
      TotalReplaced(s, second.key, v[second.key]);
    } else {
      TotalAdded(s, second.key, v[second.key]);
    }
  }

  // ---- Pieces of runs with two loaders; `cache` and `streams` are as they may be ----

  lemma FirstReadsFlags(full: bool, w: World, db: Db, env: Id, t: Table<FlagEntry>, b: Loader,
                        cache: map<Id, Copy>, streams: map<nat, Stream>)
    requires Reach(w, World(db, Two(Idle, b), cache, streams), full) && env in db.envs && FlagsCome(t, db, env)
    requires full ==> t == FlagTable(db, env)
    ensures Reach(w, World(db, Two(HoldsFlags([env], t), b), cache, streams), full)
  {
    hide FlagTable, Reach, FlagsCome;
    ReadsFlags(full, w, World(db, Two(Idle, b), cache, streams), 0, env, t,
               World(db, Two(HoldsFlags([env], t), b), cache, streams));
  }

  lemma SecondReadsFlags(full: bool, w: World, db: Db, env: Id, a: Loader, t: Table<FlagEntry>,
                         cache: map<Id, Copy>, streams: map<nat, Stream>)
    requires Reach(w, World(db, Two(a, Idle), cache, streams), full) && env in db.envs && FlagsCome(t, db, env)
    requires full ==> t == FlagTable(db, env)
    ensures Reach(w, World(db, Two(a, HoldsFlags([env], t)), cache, streams), full)
  {
    hide FlagTable, Reach, FlagsCome;
    ReadsFlags(full, w, World(db, Two(a, Idle), cache, streams), 1, env, t,
               World(db, Two(a, HoldsFlags([env], t)), cache, streams));
  }

  lemma FirstReadsSegments(full: bool, w: World, db: Db, env: Id, t: Table<FlagEntry>, b: Loader,
                           cache: map<Id, Copy>, streams: map<nat, Stream>)
    requires Reach(w, World(db, Two(HoldsFlags([env], t), b), cache, streams), full) && ReadableSegments(db, env)
    ensures Reach(w, World(db, Two(Holds([env], CopyOf(t, SegmentTable(db, env))), b), cache, streams), full)
  {
    AllCome(db, env);
    hide SegmentTable, FlagTable, After, Sent, InstalledCopy, CopyOf, Reach, IsCopy, FlagsCome, SegmentsCome,
         ReadableFlags, ReadableSegments;
    var c := CopyOf(t, SegmentTable(db, env));
    Go(full, w, World(db, Two(HoldsFlags([env], t), b), cache, streams), QuerySegments(0, c),
       World(db, Two(Holds([env], c), b), cache, streams));
  }

  lemma SecondReadsSegments(full: bool, w: World, db: Db, env: Id, a: Loader, t: Table<FlagEntry>,
                            cache: map<Id, Copy>, streams: map<nat, Stream>)
    requires Reach(w, World(db, Two(a, HoldsFlags([env], t)), cache, streams), full) && ReadableSegments(db, env)
    ensures Reach(w, World(db, Two(a, Holds([env], CopyOf(t, SegmentTable(db, env)))), cache, streams), full)
  {
    AllCome(db, env);
    hide SegmentTable, FlagTable, After, Sent, InstalledCopy, CopyOf, Reach, IsCopy, FlagsCome, SegmentsCome,
         ReadableFlags, ReadableSegments;
    var c := CopyOf(t, SegmentTable(db, env));
    Go(full, w, World(db, Two(a, HoldsFlags([env], t)), cache, streams), QuerySegments(1, c),
       World(db, Two(a, Holds([env], c)), cache, streams));
  }

  /** The first loader installs a copy with a version of its own, and is done. */
  lemma FirstInstalls(full: bool, w: World, db: Db, env: Id, c: Copy, b: Loader,
                      cache: map<Id, Copy>, streams: map<nat, Stream>)
    requires Reach(w, World(db, Two(Holds([env], c), b), cache, streams), full)
    requires env in cache ==> cache[env].rs.version != c.rs.version
    ensures Reach(w, World(db, Two(Idle, b), cache[env := c], streams), full)
  {
    hide Reach;
    InstallsOwnVersion(full, w, World(db, Two(Holds([env], c), b), cache, streams), 0, env,
                       World(db, Two(Idle, b), cache[env := c], streams));
  }

  lemma SecondInstalls(full: bool, w: World, db: Db, env: Id, c: Copy, a: Loader,
                       cache: map<Id, Copy>, streams: map<nat, Stream>)
    requires Reach(w, World(db, Two(a, Holds([env], c)), cache, streams), full)
    requires env in cache ==> cache[env].rs.version != c.rs.version
    ensures Reach(w, World(db, Two(a, Ready([])), cache[env := c], streams), full)
  {
    hide Reach;
    assert [env][1..] == [];
    Go(full, w, World(db, Two(a, Holds([env], c)), cache, streams), Install(1),
       World(db, Two(a, Ready([])), cache[env := c], streams));
  }

  /** Both loads read around the two writes: one the old flags and the new segments, the other the new
      flags and the old segments. */
  lemma BothReadTorn(full: bool, w: World, db: Db, d1: Db, d2: Db, env: Id, first: Op, second: Op)
    requires Reach(w, World(db, Two(Idle, Idle), map[], map[]), full)
    requires Readable(db, env) && Readable(d1, env) && Readable(d2, env)
    requires d1 == After(db, first) && d2 == After(d1, second) && env in db.envs && env in d1.envs
    ensures Reach(w, World(d2, Two(Holds([env], CopyOf(FlagTable(db, env), SegmentTable(d2, env))),
                                   Holds([env], CopyOf(FlagTable(d1, env), SegmentTable(d1, env)))), map[], map[]),
                  full)
  {
    hide FlagTable, SegmentTable, After, CopyOf, Reach, FlagsCome, ReadableFlags, ReadableSegments;
    AllCome(db, env);
    AllCome(d1, env);
    var f0, f1 := HoldsFlags([env], FlagTable(db, env)), HoldsFlags([env], FlagTable(d1, env));
    var b := Holds([env], CopyOf(FlagTable(d1, env), SegmentTable(d1, env)));
    FirstReadsFlags(full, w, db, env, FlagTable(db, env), Idle, map[], map[]);
    SomeoneWrites(full, w, db, first, Two(f0, Idle));
    SecondReadsFlags(full, w, d1, env, f0, FlagTable(d1, env), map[], map[]);
    SecondReadsSegments(full, w, d1, env, f0, FlagTable(d1, env), map[], map[]);
    SomeoneWrites(full, w, d1, second, Two(f0, b));
    FirstReadsSegments(full, w, d2, env, FlagTable(db, env), b, map[], map[]);
  }

  /** From there a stream is sent the first ruleset, a complete load replaces it in the cache, and the slow
      second load replaces that one by a ruleset with the version the stream has already seen. */
  lemma SlowLoadComesLast(full: bool, w: World, db: Db, env: Id, a: Copy, b: Copy, c: Copy, v: World)
    requires Reach(w, World(db, Two(Holds([env], a), Holds([env], b)), map[], map[]), full)
    requires env in db.envs && Readable(db, env)
    requires c == CopyOf(FlagTable(db, env), SegmentTable(db, env))
    requires b.rs.version == a.rs.version && c.rs.version == a.rs.version + 1
    requires v == World(db, Two(Idle, Ready([])), map[env := b], map[0 := Stream(env, a.rs.version, [a])])
    ensures Reach(w, v, full)
  {
    hide FlagTable, SegmentTable, CopyOf, Reach, IsCopy, FlagsCome, ReadableFlags, ReadableSegments;
    AllCome(db, env);
    var slow, stream := Holds([env], b), map[0 := Stream(env, a.rs.version, [a])];
    FirstInstalls(full, w, db, env, a, slow, map[], map[]);
    assert map[][env := a] == map[env := a];
    StreamOpens(full, w, db, Two(Idle, slow), env, a);
    FirstReadsFlags(full, w, db, env, FlagTable(db, env), slow, map[env := a], stream);
    FirstReadsSegments(full, w, db, env, FlagTable(db, env), slow, map[env := a], stream);
    FirstInstalls(full, w, db, env, c, slow, map[env := a], stream);
    assert map[env := a][env := c] == map[env := c];
    SecondInstalls(full, w, db, env, b, Idle, map[env := c], stream);
    assert map[env := c][env := b] == map[env := b];
  }

  lemma SameVersion(a: Copy, b: Copy, c: Copy)
    requires IsCopy(a) && IsCopy(b) && IsCopy(c) && c.flags == b.flags && c.segments == a.segments
    requires Total(b.flags) == Total(a.flags) + 1 && Total(a.segments) == Total(b.segments) + 1
    ensures b.rs.version == a.rs.version && c.rs.version == a.rs.version + 1
  {
  }

  lemma NothingToSend(v: World, env: Id, a: Copy, b: Copy)
    requires 0 in v.streams && v.streams[0] == Stream(env, a.rs.version, [a]) && env in v.cache && v.cache[env] == b
    requires IsCopy(a) && IsCopy(b) && b.rs.version == a.rs.version && FlagsIn(a.flags) != FlagsIn(b.flags)
    ensures Sent(v.streams[0], v.cache) == v.streams[0]
    ensures Last(v.streams[0].sent).rs.flags != v.cache[env].rs.flags
  {
  }

  /** The run that ends in `v`, with two overlapping loads and only complete queries, leaves the cache with flags
      other than those last sent on a stream, and the stream's next tick sends nothing. */
  lemma OverlapLosesTrack(w: World, db: Db, env: Id, first: Op, second: Op) returns (v: World)
    requires Reach(w, World(db, Two(Idle, Idle), map[], map[]), true) && TwoWrites(db, env, first, second)
    requires FlagsIn(FlagTable(After(db, first), env)) != FlagsIn(FlagTable(db, env))
    ensures Reach(w, v, true)
    ensures 0 in v.streams && env in v.cache && v.streams[0].env == env && |v.streams[0].sent| > 0
    ensures Sent(v.streams[0], v.cache) == v.streams[0]
    ensures Last(v.streams[0].sent).rs.flags != v.cache[env].rs.flags
  {
    var d1 := After(db, first);
    var d2 := After(d1, second);
    WriteTotals(db, env, first, second);
    assert env in db.envs && Readable(db, env) && Readable(d1, env) && Readable(d2, env);
    hide FlagTable, SegmentTable, After, CopyOf, TwoWrites, Reach, Readable;
    var a := CopyOf(FlagTable(db, env), SegmentTable(d2, env));
    var b := CopyOf(FlagTable(d1, env), SegmentTable(d1, env));
    var c := CopyOf(FlagTable(d2, env), SegmentTable(d2, env));
    v := World(d2, Two(Idle, Ready([])), map[env := b], map[0 := Stream(env, a.rs.version, [a])]);
    BothReadTorn(true, w, db, d1, d2, env, first, second);
    SameVersion(a, b, c);
    SlowLoadComesLast(true, w, d2, env, a, b, c, v);
    hide Sent;
    NothingToSend(v, env, a, b);
  }

  // ---- One load at a time, with queries that are cut short ----

  ghost function Only(t: Table<FlagEntry>, k: string): Table<FlagEntry>
    requires k in t
  {
    map[k := t[k]]
  }

  lemma OnlyComes(db: Db, env: Id, k: string)
    requires ReadableFlags(db, env) && k in FlagTable(db, env)
    ensures FlagsCome(Only(FlagTable(db, env), k), db, env)
  {
  }

  lemma OnlyTotals(t: Table<FlagEntry>, j: string, k: string)
    requires j in t && k in t && j != k && t[j].version == t[k].version > 0
    ensures Total(Only(t, j)) == Total(Only(t, k)) < Total(t)
  {
    assert Only(t, j) - {j} == map[] && Only(t, k) - {k} == map[];
    TotalWithout(Only(t, j), j);
    TotalWithout(Only(t, k), k);
    TotalWithout(t, j);
    TotalWithout(t - {j}, k);
  }

  lemma CopyVersions(t: Table<FlagEntry>, st: Table<Segment>, j: string, k: string)
    requires j in t && k in t && j != k && t[j].version == t[k].version > 0
    ensures CopyOf(Only(t, j), st).rs.version == CopyOf(Only(t, k), st).rs.version < CopyOf(t, st).rs.version
    ensures FlagsIn(Only(t, j)) != FlagsIn(Only(t, k))
  {
    OnlyTotals(t, j, k);
    assert j in FlagsIn(Only(t, j)) && j !in FlagsIn(Only(t, k));
  }

  /** A stream is opened after the first of three loads; the third has the version of the first. */
  lemma ThreeLoads(w: World, db: Db, env: Id, t1: Table<FlagEntry>, t2: Table<FlagEntry>, t3: Table<FlagEntry>,
                   a: Copy, b: Copy, c: Copy, v: World)
    requires Reach(w, World(db, SOLE, map[], map[]), false) && env in db.envs && ReadableSegments(db, env)
    requires FlagsCome(t1, db, env) && FlagsCome(t2, db, env) && FlagsCome(t3, db, env)
    requires a == CopyOf(t1, SegmentTable(db, env)) && b == CopyOf(t2, SegmentTable(db, env))
    requires c == CopyOf(t3, SegmentTable(db, env)) && a.rs.version == c.rs.version < b.rs.version
    requires v == World(db, SOLE, map[env := c], map[0 := Stream(env, a.rs.version, [a])])
    ensures Reach(w, v, false)
  {
    hide FlagTable, SegmentTable, CopyOf, Reach, FlagsCome, ReadableSegments;
    var stream := map[0 := Stream(env, a.rs.version, [a])];
    assert map[][env := a] == map[env := a];
    LoadsAnew(false, w, World(db, SOLE, map[], map[]), env, t1, World(db, SOLE, map[env := a], map[]));
    StreamOpens(false, w, db, SOLE, env, a);
    assert map[env := a][env := b] == map[env := b];
    LoadsAnew(false, w, World(db, SOLE, map[env := a], stream), env, t2, World(db, SOLE, map[env := b], stream));
    assert map[env := b][env := c] == map[env := c];
    LoadsAnew(false, w, World(db, SOLE, map[env := b], stream), env, t3, v);
  }

  /** There is only one loader, and nothing is written: it gets only flag `j`, then all flags, then only flag
      `k`, which has the same version.  The stream that was sent the first ruleset is not sent the last one. */
  lemma CutShortLosesTrack(w: World, db: Db, env: Id, j: string, k: string) returns (v: World)
    requires Reach(w, World(db, SOLE, map[], map[]), false) && env in db.envs && Readable(db, env)
    requires j != k && j in FlagTable(db, env) && k in FlagTable(db, env)
    requires FlagTable(db, env)[j].version == FlagTable(db, env)[k].version > 0
    ensures Reach(w, v, false) && v.db == db && v.loaders == SOLE
    ensures 0 in v.streams && env in v.cache && v.streams[0].env == env && |v.streams[0].sent| > 0
    ensures Sent(v.streams[0], v.cache) == v.streams[0]
    ensures Last(v.streams[0].sent).rs.flags != v.cache[env].rs.flags
  {
    hide FlagTable, SegmentTable, Only, Reach, FlagsCome, ReadableFlags, ReadableSegments, Sent;
    var t, st := FlagTable(db, env), SegmentTable(db, env);
    AllCome(db, env);
    OnlyComes(db, env, j);
    OnlyComes(db, env, k);
    CopyVersions(t, st, j, k);
    var a, b, c := CopyOf(Only(t, j), st), CopyOf(t, st), CopyOf(Only(t, k), st);
    hide CopyOf;
    v := World(db, SOLE, map[env := c], map[0 := Stream(env, a.rs.version, [a])]);
    ThreeLoads(w, db, env, Only(t, j), t, Only(t, k), a, b, c, v);
    NothingToSend(v, env, a, c);
  }

  // ---- It can happen: one flag, one segment ----

  const TURN_ON: Op := PutFlagConfig("p", "f", "e", Config(true, [], [], Payload(Some(1), None), 0, []))

  const FILL: Op := PutSegmentConfig("p", "s", "e", SegmentConfig("user", ["u"], [], []))

  lemma SmallReadable(d: Db)
    requires d.flags == SMALL.flags
    requires forall at :: at in d.flagConfigs ==> d.flagConfigs[at].content in {SEED.content, TURN_ON.config}
    requires forall at :: at in d.segmentConfigs ==> d.segmentConfigs[at].content == FILL.segment
    ensures Readable(d, Id("p", "e"))
  {
    assert ReadableVariations(VARIATIONS);
    assert ReadableConfig(SEED.content) && ReadableConfig(TURN_ON.config);
    hide ReadableVariations, ReadableConfig;
    assert d.flags.Keys == {Id("p", "f")};
  }

  lemma SmallStatus()
    ensures DbOk(SMALL) && StatusOf(SMALL, TURN_ON) == Fine && StatusOf(After(SMALL, TURN_ON), FILL) == Fine
  {
    assert DbOk(SMALL);
  }

  lemma SmallWrites()
    ensures TwoWrites(SMALL, Id("p", "e"), TURN_ON, FILL)
    ensures FlagsIn(FlagTable(After(SMALL, TURN_ON), Id("p", "e"))) != FlagsIn(FlagTable(SMALL, Id("p", "e")))
  {
    hide DbOk, Readable, StatusOf;
    SmallStatus();
    SmallReadable(SMALL);
    SmallReadable(After(SMALL, TURN_ON));
    SmallReadable(After(After(SMALL, TURN_ON), FILL));
    SmallTurnsOn();
  }

  lemma SmallTurnsOn()
    requires DbOk(SMALL) && StatusOf(SMALL, TURN_ON) == Fine
    ensures FlagsIn(FlagTable(After(SMALL, TURN_ON), Id("p", "e"))) != FlagsIn(FlagTable(SMALL, Id("p", "e")))
  {
    FlagTableAfterPut(SMALL, "p", "f", "e", TURN_ON.config, Id("p", "e"));
    assert HasFlag(SMALL, Id("p", "e"), "f");
    hide DbOk, StatusOf, After;
    assert !FlagsIn(FlagTable(SMALL, Id("p", "e")))["f"].config.enabled;
    assert FlagsIn(FlagTable(After(SMALL, TURN_ON), Id("p", "e")))["f"].config.enabled;
  }

  /** From the start: a stream that still has the flag off while the cache has it on, and whose next tick
      sends nothing. */
  lemma SmallOverlap(w: World) returns (v: World)
    requires w == World(EMPTY, Two(Idle, Idle), map[], map[])
    ensures Initial(w) && Reach(w, v, true)
    ensures var e := Id("p", "e");
            && 0 in v.streams && e in v.cache && v.streams[0].env == e && |v.streams[0].sent| > 0
            && Sent(v.streams[0], v.cache) == v.streams[0]
            && Last(v.streams[0].sent).rs.flags != v.cache[e].rs.flags
  {
    SmallIsMade(true, w, Two(Idle, Idle));
    SmallWrites();
    hide TwoWrites, FlagTable, FlagsIn, After, Reach;
    v := OverlapLosesTrack(w, SMALL, Id("p", "e"), TURN_ON, FILL);
  }

  // ---- The same with one loader: two flags ----

  lemma TwoFlagsTable()
    ensures var t, e := FlagTable(TWO_FLAGS, Id("p", "e")), Id("p", "e");
            && "f" in t && "g" in t && t["f"].version == t["g"].version == 1
    ensures Readable(TWO_FLAGS, Id("p", "e"))
  {
    var e := Id("p", "e");
    assert HasFlag(TWO_FLAGS, e, "f") && HasFlag(TWO_FLAGS, e, "g");
    assert ReadableVariations(VARIATIONS) && ReadableConfig(SEED.content);
    hide ReadableVariations, ReadableConfig;
    assert TWO_FLAGS.flags.Keys == {Id("p", "f"), Id("p", "g")};
  }

  /** From the start, with one loader and two flags that are created and never touched again. */
  lemma SmallCutShort(w: World) returns (v: World)
    requires w == World(EMPTY, SOLE, map[], map[])
    ensures Initial(w) && Reach(w, v, false) && v.db == TWO_FLAGS && v.loaders == SOLE
    ensures var e := Id("p", "e");
            && 0 in v.streams && e in v.cache && v.streams[0].env == e && |v.streams[0].sent| > 0
            && Sent(v.streams[0], v.cache) == v.streams[0]
            && Last(v.streams[0].sent).rs.flags != v.cache[e].rs.flags
  {
    TwoFlagsAreMade(false, w, SOLE);
    TwoFlagsTable();
    hide FlagTable, Reach, Readable, Sent;
    v := CutShortLosesTrack(w, TWO_FLAGS, Id("p", "e"), "f", "g");
  }
}

/** Assembly of rulesets and the in-memory cache (data-plane/internal/store/store.go). */
module RulesetStore {
  import opened Wrappers
  import opened Types
  import opened Versions
  import opened JsonBoundary
  import opened ControlPlane

  /** One environment's flags and segments, ready to evaluate. */
  datatype Ruleset = Ruleset(
    version: nat,
    flags: map<string, Flag>,
    segments: map<string, Segment>,
    clientFlags: seq<string>)
  {
    function AsStore(): Types.Store {
      Types.Store(flags, segments)
    }
  }

  // ---- Rows as a query returns them ----

  datatype FlagColumns = FlagColumns(
    key: string, salt: string, kind: string, variations: Value, clientSide: bool, config: Columns, version: nat)

  datatype SegmentColumns = SegmentColumns(
    key: string, contextKind: string, included: seq<string>, excluded: seq<string>, rules: Value, version: nat)

  /** One round of the loop over flag rows: decode the columns, or stop with an error. */
  function ReadFlag(r: FlagColumns): Option<Row<FlagEntry>> {
    var variations :- ReadList(r.variations, ReadVariation);
    var config :- ReadConfig(r.config);
    Some(Row(FlagEntry(Flag(r.key, r.salt, r.kind, variations, config), r.clientSide), r.version))
  }

  function ReadSegment(r: SegmentColumns): Option<Row<Segment>> {
    var rules :- ReadList(r.rules, ReadSegmentRule);
    Some(Row(Segment(r.key, r.contextKind, r.included, r.excluded, rules), r.version))
  }

  ghost function FlagColumnsOf(db: Db, env: Id, k: string): FlagColumns
    requires HasFlag(db, env, k)
  {
    var def, row := db.flags[Id(env.project, k)], db.flagConfigs[ConfigKey(Id(env.project, k), env)];
    FlagColumns(k, def.salt, def.kind, Dumped(def.variations, DumpVariation), def.clientSide,
                DumpConfig(row.content), row.version)
  }

  ghost function SegmentColumnsOf(db: Db, env: Id, k: string): SegmentColumns
    requires HasSegment(db, env, k)
  {
    var row := db.segmentConfigs[ConfigKey(Id(env.project, k), env)];
    var c := row.content;
    SegmentColumns(k, c.contextKind, c.included, c.excluded, Dumped(c.rules, DumpSegmentRule), row.version)
  }

  /** The data plane decodes every row of the two tables, unless it cannot. */
  lemma RowsRead(db: Db, env: Id, k: string)
    ensures HasFlag(db, env, k) ==>
              ReadFlag(FlagColumnsOf(db, env, k)) ==
              if ReadableFlag(db, env, k) then Some(FlagRow(db, env, k)) else None
    ensures HasSegment(db, env, k) ==>
              ReadSegment(SegmentColumnsOf(db, env, k)) ==
              if ReadableSegment(db, env, k) then Some(SegmentRow(db, env, k)) else None
  {
    hide ReadList, Dumped, ReadConfig, DumpConfig, ReadableConfig, ReadableVariations, RoundedConfig;
    if HasFlag(db, env, k) {
      VariationsRead(db.flags[Id(env.project, k)].variations);
      ConfigReads(db.flagConfigs[ConfigKey(Id(env.project, k), env)].content);
    }
    if HasSegment(db, env, k) {
      SegmentRulesRead(db.segmentConfigs[ConfigKey(Id(env.project, k), env)].content.rules);
    }
  }

  ghost function FlagTableOf(rows: seq<Row<FlagEntry>>): Table<FlagEntry> {
    if rows == [] then map[] else FlagTableOf(rows[..|rows| - 1])[Last(rows).content.flag.key := Last(rows)]
  }

  ghost function SegmentTableOf(rows: seq<Row<Segment>>): Table<Segment> {
    if rows == [] then map[] else SegmentTableOf(rows[..|rows| - 1])[Last(rows).content.key := Last(rows)]
  }

  function Last<T>(s: seq<T>): T
    requires s != []
  {
    s[|s| - 1]
  }

  /** No two rows have the same key, as the tables' unique constraints have it. */
  ghost predicate DistinctFlags(rows: seq<Row<FlagEntry>>) {
    forall i, j :: 0 <= i < j < |rows| ==> rows[i].content.flag.key != rows[j].content.flag.key
  }

  ghost predicate DistinctSegments(rows: seq<Row<Segment>>) {
    forall i, j :: 0 <= i < j < |rows| ==> rows[i].content.key != rows[j].content.key
  }

  ghost function FlagsIn(t: Table<FlagEntry>): map<string, Flag> {
    map k | k in t :: t[k].content.flag
  }

  ghost function SegmentsIn(t: Table<Segment>): map<string, Segment> {
    map k | k in t :: t[k].content
  }

  /** The ruleset is what the two tables hold, its version the sum of all their rows' versions. */
  ghost predicate IsAssembled(rs: Ruleset, ft: Table<FlagEntry>, st: Table<Segment>) {
    && rs.version == Total(ft) + Total(st)
    && rs.flags == FlagsIn(ft)
    && rs.segments == SegmentsIn(st)
    && forall k :: k in rs.clientFlags <==> k in ft && ft[k].content.clientSide
  }

  lemma {:induction false} FlagKeysOf(rows: seq<Row<FlagEntry>>)
    ensures forall k :: k in FlagTableOf(rows) <==> exists i :: 0 <= i < |rows| && rows[i].content.flag.key == k
  {
    if rows != [] {
      FlagKeysOf(rows[..|rows| - 1]);
    }
  }

  lemma {:induction false} SegmentKeysOf(rows: seq<Row<Segment>>)
    ensures forall k :: k in SegmentTableOf(rows) <==> exists i :: 0 <= i < |rows| && rows[i].content.key == k
  {
    if rows != [] {
      SegmentKeysOf(rows[..|rows| - 1]);
    }
  }

  lemma FlagTableStep(rows: seq<Row<FlagEntry>>, r: Row<FlagEntry>)
    requires DistinctFlags(rows + [r])
    ensures var t, k := FlagTableOf(rows), r.content.flag.key;
            && k !in t && FlagTableOf(rows + [r]) == t[k := r] && Total(t[k := r]) == Total(t) + r.version
  {
    var k := r.content.flag.key;
    FlagKeysOf(rows);
    assert (rows + [r])[..|rows|] == rows;
    forall i | 0 <= i < |rows| ensures rows[i].content.flag.key != k {
      assert (rows + [r])[i] == rows[i] && (rows + [r])[|rows|] == r;
    }
    TotalAdded(FlagTableOf(rows), k, r);
  }

  lemma SegmentTableStep(rows: seq<Row<Segment>>, r: Row<Segment>)
    requires DistinctSegments(rows + [r])
    ensures var t, k := SegmentTableOf(rows), r.content.key;
            && k !in t && SegmentTableOf(rows + [r]) == t[k := r] && Total(t[k := r]) == Total(t) + r.version
  {
    var k := r.content.key;
    SegmentKeysOf(rows);
    assert (rows + [r])[..|rows|] == rows;
    forall i | 0 <= i < |rows| ensures rows[i].content.key != k {
      assert (rows + [r])[i] == rows[i] && (rows + [r])[|rows|] == r;
    }
    TotalAdded(SegmentTableOf(rows), k, r);
  }

  ghost predicate DistinctFlagKeys(rows: seq<FlagColumns>) {
    forall i, j :: 0 <= i < j < |rows| ==> rows[i].key != rows[j].key
  }

  ghost predicate DistinctSegmentKeys(rows: seq<SegmentColumns>) {
    forall i, j :: 0 <= i < j < |rows| ==> rows[i].key != rows[j].key
  }

  /** Assembled from the rows as decoded. */
  ghost predicate IsAssembledFrom(rs: Ruleset, flagRows: seq<FlagColumns>, segmentRows: seq<SegmentColumns>) {
    var flags, segments := ReadItems(flagRows, ReadFlag), ReadItems(segmentRows, ReadSegment);
    flags.Some? && segments.Some? && IsAssembled(rs, FlagTableOf(flags.value), SegmentTableOf(segments.value))
  }

  /** Fails exactly if some row cannot be decoded. */
  method Assemble(flagRows: seq<FlagColumns>, segmentRows: seq<SegmentColumns>) returns (rs: Option<Ruleset>)
    requires DistinctFlagKeys(flagRows) && DistinctSegmentKeys(segmentRows)
    ensures rs.None? <==> (exists r :: r in flagRows && ReadFlag(r).None?)
                          || exists r :: r in segmentRows && ReadSegment(r).None?
    ensures rs.Some? ==> IsAssembledFrom(rs.value, flagRows, segmentRows)
  {
    hide ReadFlag, ReadSegment;
    var built := Ruleset(0, map[], map[], []);
    ghost var read: seq<Row<FlagEntry>> := [];
    for i := 0 to |flagRows|
      invariant |read| == i && forall j :: 0 <= j < i ==> ReadFlag(flagRows[j]) == Some(read[j])
      invariant IsAssembled(built, FlagTableOf(read), map[])
    {
      var row := ReadFlag(flagRows[i]);
      if row.None? {
        return None;
      }
      built := AddFlag(built, row.value, read, flagRows);
      read := read + [row.value];
    }
    assert ReadItems(flagRows, ReadFlag) == Some(read) by {
      assert forall j :: 0 <= j < |flagRows| ==> ReadFlag(flagRows[j]).Some?;
      assert ReadItems(flagRows, ReadFlag).value == read;
    }
    rs := AddSegments(built, segmentRows, FlagTableOf(read));
  }

  lemma DecodedFlags(rows: seq<FlagColumns>, read: seq<Row<FlagEntry>>)
    requires |read| <= |rows| && forall j :: 0 <= j < |read| ==> ReadFlag(rows[j]) == Some(read[j])
    ensures DistinctFlagKeys(rows) ==> DistinctFlags(read)
  {
    hide ReadConfig, ReadList;
    assert forall j :: 0 <= j < |read| ==> read[j].content.flag.key == rows[j].key;
  }

  lemma NextFlag(rows: seq<FlagColumns>, read: seq<Row<FlagEntry>>, row: Row<FlagEntry>)
    requires |read| < |rows| && DistinctFlagKeys(rows) && ReadFlag(rows[|read|]) == Some(row)
    requires forall j :: 0 <= j < |read| ==> ReadFlag(rows[j]) == Some(read[j])
    ensures var t, k := FlagTableOf(read), row.content.flag.key;
            && k !in t && FlagTableOf(read + [row]) == t[k := row] && Total(t[k := row]) == Total(t) + row.version
  {
    hide ReadFlag, FlagTableOf, DistinctFlagKeys, DistinctFlags;
    DecodedFlags(rows, read + [row]);
    FlagTableStep(read, row);
  }

  method AddFlag(rs0: Ruleset, row: Row<FlagEntry>, ghost read: seq<Row<FlagEntry>>, ghost rows: seq<FlagColumns>)
    returns (rs: Ruleset)
    requires |read| < |rows| && DistinctFlagKeys(rows) && ReadFlag(rows[|read|]) == Some(row)
    requires forall j :: 0 <= j < |read| ==> ReadFlag(rows[j]) == Some(read[j])
    requires IsAssembled(rs0, FlagTableOf(read), map[])
    ensures IsAssembled(rs, FlagTableOf(read + [row]), map[])
  {
    hide ReadFlag, FlagTableOf;
    NextFlag(rows, read, row);
    var entry := row.content;
    rs := rs0.(flags := rs0.flags[entry.flag.key := entry.flag], version := rs0.version + row.version);
    if entry.clientSide {
      rs := rs.(clientFlags := rs.clientFlags + [entry.flag.key]);
    }
  }

  lemma DecodedSegments(rows: seq<SegmentColumns>, read: seq<Row<Segment>>)
    requires |read| <= |rows| && forall j :: 0 <= j < |read| ==> ReadSegment(rows[j]) == Some(read[j])
    ensures DistinctSegmentKeys(rows) ==> DistinctSegments(read)
  {
    hide ReadList;
    assert forall j :: 0 <= j < |read| ==> read[j].content.key == rows[j].key;
  }

  lemma NextSegment(rows: seq<SegmentColumns>, read: seq<Row<Segment>>, row: Row<Segment>)
    requires |read| < |rows| && DistinctSegmentKeys(rows) && ReadSegment(rows[|read|]) == Some(row)
    requires forall j :: 0 <= j < |read| ==> ReadSegment(rows[j]) == Some(read[j])
    ensures var t, k := SegmentTableOf(read), row.content.key;
            && k !in t && SegmentTableOf(read + [row]) == t[k := row] && Total(t[k := row]) == Total(t) + row.version
  {
    hide ReadSegment, SegmentTableOf, DistinctSegmentKeys, DistinctSegments;
    DecodedSegments(rows, read + [row]);
    SegmentTableStep(read, row);
  }

  method AddSegment(rs0: Ruleset, row: Row<Segment>, ghost ft: Table<FlagEntry>, ghost read: seq<Row<Segment>>,
                    ghost rows: seq<SegmentColumns>)
    returns (rs: Ruleset)
    requires |read| < |rows| && DistinctSegmentKeys(rows) && ReadSegment(rows[|read|]) == Some(row)
    requires forall j :: 0 <= j < |read| ==> ReadSegment(rows[j]) == Some(read[j])
    requires IsAssembled(rs0, ft, SegmentTableOf(read))
    ensures IsAssembled(rs, ft, SegmentTableOf(read + [row]))
  {
    hide ReadSegment, SegmentTableOf;
    NextSegment(rows, read, row);
    var seg := row.content;
    rs := rs0.(segments := rs0.segments[seg.key := seg], version := rs0.version + row.version);
  }

  method AddSegments(rs0: Ruleset, segmentRows: seq<SegmentColumns>, ghost ft: Table<FlagEntry>)
    returns (rs: Option<Ruleset>)
    requires IsAssembled(rs0, ft, map[]) && DistinctSegmentKeys(segmentRows)
    ensures rs.None? <==> exists r :: r in segmentRows && ReadSegment(r).None?
    ensures rs.Some? ==>
              && ReadItems(segmentRows, ReadSegment).Some?
              && IsAssembled(rs.value, ft, SegmentTableOf(ReadItems(segmentRows, ReadSegment).value))
  {
    hide ReadSegment, IsAssembled;
    var built := rs0;
    ghost var read: seq<Row<Segment>> := [];
    for i := 0 to |segmentRows|
      invariant |read| == i && forall j :: 0 <= j < i ==> ReadSegment(segmentRows[j]) == Some(read[j])
      invariant IsAssembled(built, ft, SegmentTableOf(read))
    {
      var row := ReadSegment(segmentRows[i]);
      if row.None? {
        return None;
      }
      built := AddSegment(built, row.value, ft, read, segmentRows);
      read := read + [row.value];
    }
    assert ReadItems(segmentRows, ReadSegment).value == read;
    rs := Some(built);
  }

  // ---- The cache ----

  /** The locked section of `LoadAll`: install unless the version is the one already there. */
  function Installed(cache: map<Id, Ruleset>, env: Id, rs: Ruleset): map<Id, Ruleset> {
    if env in cache && cache[env].version == rs.version then cache else cache[env := rs]
  }

  /** The rows that `assemble` gets to see of one environment; no feed stands for a query that fails. */
  datatype Feed = Feed(flagRows: seq<FlagColumns>, segmentRows: seq<SegmentColumns>)

  ghost predicate GoodFeed(f: Option<Feed>) {
    f.Some? ==> DistinctFlagKeys(f.value.flagRows) && DistinctSegmentKeys(f.value.segmentRows)
  }

  /** The queries work and every row can be decoded. */
  ghost predicate ReadableFeed(f: Option<Feed>) {
    && f.Some?
    && (forall r :: r in f.value.flagRows ==> ReadFlag(r).Some?)
    && forall r :: r in f.value.segmentRows ==> ReadSegment(r).Some?
  }

  class Store {
    var envs: map<Id, Ruleset>

    constructor ()
      ensures envs == map[]
    {
      envs := map[];
    }

    function Get(env: Id): Option<Ruleset>
      reads this
    {
      if env in envs then Some(envs[env]) else None
    }

    method Install(env: Id, rs: Ruleset) returns (isNew: bool)
      modifies this
      ensures envs == Installed(old(envs), env, rs)
      ensures isNew <==> IsNews(old(envs), env, rs)
    {
      isNew := env !in envs || envs[env].version != rs.version;
      if isNew {
        envs := envs[env := rs];
      }
    }

    /** One environment's turn: assemble it and install it, or leave everything as it is on an error. */
    method Reload(ref: Id, feed: Option<Feed>) returns (rs: Option<Ruleset>, isNew: bool)
      requires GoodFeed(feed)
      modifies this
      ensures rs.Some? <==> ReadableFeed(feed)
      ensures rs.Some? ==>
                IsStage(ref, feed, rs.value, old(envs), envs) && (isNew <==> IsNews(old(envs), ref, rs.value))
      ensures rs.None? ==> envs == old(envs)
    {
      if feed.None? {
        return None, false;
      }
      hide IsAssembledFrom, Installed, IsNews, ReadFlag, ReadSegment;
      rs := Assemble(feed.value.flagRows, feed.value.segmentRows);
      if rs.None? {
        return None, false;
      }
      isNew := Install(ref, rs.value);
    }

    /** One pass over the environments.  Before each one the cache is as the previous ones left it; the
        first error ends the pass and leaves in place what was installed. `stages` are the states of
        the cache along the way, `built` the rulesets. */
    method LoadAll(refs: seq<Id>, feeds: seq<Option<Feed>>)
      returns (changed: Option<seq<Id>>, ghost built: seq<Ruleset>, ghost stages: seq<map<Id, Ruleset>>)
      requires |feeds| == |refs| && forall i :: 0 <= i < |feeds| ==> GoodFeed(feeds[i])
      modifies this
      ensures IsPass(refs, feeds, built, stages) && stages[0] == old(envs) && stages[|built|] == envs
      ensures changed.Some? <==> forall i :: 0 <= i < |refs| ==> ReadableFeed(feeds[i])
      ensures changed.None? <==> |built| < |refs|
      ensures |built| < |refs| ==> !ReadableFeed(feeds[|built|])
      ensures changed.Some? ==>
                forall e :: e in changed.value <==>
                            exists i :: 0 <= i < |refs| && refs[i] == e && IsNews(stages[i], e, built[i])
    {
      hide IsStage, IsNews, ReadableFeed, GoodFeed;
      var ids: seq<Id> := [];
      built, stages := [], [envs];
      for i := 0 to |refs|
        invariant |built| == i && |stages| == i + 1 && stages[0] == old(envs) && stages[i] == envs
        invariant forall j :: 0 <= j < i ==> IsStage(refs[j], feeds[j], built[j], stages[j], stages[j + 1])
        invariant forall j :: 0 <= j < i ==> ReadableFeed(feeds[j])
        invariant forall e :: e in ids <==> exists j :: 0 <= j < i && refs[j] == e && IsNews(stages[j], e, built[j])
      {
        var rs, isNew := Reload(refs[i], feeds[i]);
        if rs.None? {
          return None, built, stages;
        }
        if isNew {
          ids := ids + [refs[i]];
        }
        built, stages := built + [rs.value], stages + [envs];
      }
      changed := Some(ids);
    }
  }

  /** The version is not the one in the cache. */
  ghost predicate IsNews(cache: map<Id, Ruleset>, env: Id, rs: Ruleset) {
    env !in cache || cache[env].version != rs.version
  }

  /** One step of a pass assembled its feed and installed the result. */
  ghost predicate IsStage(ref: Id, feed: Option<Feed>, rs: Ruleset, before: map<Id, Ruleset>, after: map<Id, Ruleset>) {
    && feed.Some? && IsAssembledFrom(rs, feed.value.flagRows, feed.value.segmentRows)
    && after == Installed(before, ref, rs)
  }

  /** What a pass did, as `LoadAll` reports it: `built` were assembled one after the other and installed,
      and `stages` are the states of the cache before, in between and after. */
  ghost predicate IsPass(refs: seq<Id>, feeds: seq<Option<Feed>>, built: seq<Ruleset>, stages: seq<map<Id, Ruleset>>) {
    && |feeds| == |refs| && |built| <= |refs| && |stages| == |built| + 1
    && forall i :: 0 <= i < |built| ==> IsStage(refs[i], feeds[i], built[i], stages[i], stages[i + 1])
  }
}

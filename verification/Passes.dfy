/** A whole pass of `LoadAll` as a run of one loader (data-plane/internal/store/store.go). */
module Passes {
  import opened Wrappers
  import opened Versions
  import opened JsonBoundary
  import opened ControlPlane
  import opened RulesetStore
  import opened Propagation
  import opened Streams
  import opened Queries
  import opened Runs

  /** The rows that come through are rows of the environment. */
  ghost predicate IsFeedOf(f: Option<Feed>, db: Db, env: Id) {
    f.Some? ==> AreFlagRows(f.value.flagRows, db, env) && AreSegmentRows(f.value.segmentRows, db, env)
  }

  /** One environment's turn is three steps of the loader. */
  lemma StageIsSteps(w: World, v: World, l: nat, feed: Option<Feed>, rs: Ruleset, after: map<Id, Ruleset>)
    returns (u: World)
    requires Reach(w, v, false) && l in v.loaders && v.loaders[l].Ready? && |v.loaders[l].todo| > 0
    requires var env := v.loaders[l].todo[0];
             IsFeedOf(feed, v.db, env) && IsStage(env, feed, rs, Rulesets(v.cache), after)
    ensures Reach(w, u, false) && Rulesets(u.cache) == after && u.db == v.db && u.streams == v.streams
    ensures u.loaders == v.loaders[l := Ready(v.loaders[l].todo[1..])]
  {
    hide Reach, AreFlagRows, AreSegmentRows, IsAssembled, FlagTableOf, SegmentTableOf, FlagsCome, SegmentsCome,
         ReadItems, ReadFlag, ReadSegment, Installed, InstalledCopy, FlagTable, SegmentTable, Complete;
    var todo, rows := v.loaders[l].todo, feed.value;
    var c := Copy(rs, FlagTableOf(ReadItems(rows.flagRows, ReadFlag).value),
                  SegmentTableOf(ReadItems(rows.segmentRows, ReadSegment).value));
    var v1 := v.(loaders := v.loaders[l := HoldsFlags(todo, c.flags)]);
    var v2 := v.(loaders := v.loaders[l := Holds(todo, c)]);
    u := v.(loaders := v.loaders[l := Ready(todo[1..])], cache := InstalledCopy(v.cache, todo[0], c));
    AssemblyIsQueries(v, v1, l, rows.flagRows, rows.segmentRows, rs, c);
    Go(false, w, v, QueryFlags(l, c.flags), v1);
    assert v1.loaders[l := Holds(todo, c)] == v2.loaders;
    Go(false, w, v1, QuerySegments(l, c), v2);
    assert v2.loaders[l := Ready(todo[1..])] == u.loaders;
    Go(false, w, v2, Install(l), u);
    InstallIsStoreInstall(v.cache, todo[0], c);
  }

  lemma {:induction false} StagesAreSteps(w: World, v: World, l: nat, refs: seq<Id>, feeds: seq<Option<Feed>>,
                                          built: seq<Ruleset>, stages: seq<map<Id, Ruleset>>, i: nat) returns (u: World)
    requires IsPass(refs, feeds, built, stages) && i <= |built|
    requires forall j :: 0 <= j < |refs| ==> IsFeedOf(feeds[j], v.db, refs[j])
    requires Reach(w, v, false) && l in v.loaders && v.loaders[l] == Ready(refs[i..]) && Rulesets(v.cache) == stages[i]
    ensures Reach(w, u, false) && Rulesets(u.cache) == stages[|built|] && u.db == v.db && u.streams == v.streams
    ensures u.loaders == v.loaders[l := Ready(refs[|built|..])]
    decreases |built| - i
  {
    hide Reach, IsFeedOf, IsStage, Rulesets;
    if i == |built| {
      u := v;
      assert v.loaders[l := v.loaders[l]] == v.loaders;
    } else {
      assert refs[i..][0] == refs[i] && refs[i..][1..] == refs[i + 1..];
      var next := StageIsSteps(w, v, l, feeds[i], built[i], stages[i + 1]);
      u := StagesAreSteps(w, next, l, refs, feeds, built, stages, i + 1);
      assert next.loaders[l := Ready(refs[|built|..])] == v.loaders[l := Ready(refs[|built|..])];
    }
  }

  /** From an idle loader, listing the environments, three steps for each of them that is read, and a return
      make of the cache what `Store.LoadAll` makes of it, whether or not the pass comes to its end. */
  lemma PassIsRun(w: World, l: nat, refs: seq<Id>, feeds: seq<Option<Feed>>, built: seq<Ruleset>,
                  stages: seq<map<Id, Ruleset>>) returns (u: World)
    requires l in w.loaders && w.loaders[l].Idle?
    requires (forall e :: e in refs ==> e in w.db.envs) && forall i, j :: 0 <= i < j < |refs| ==> refs[i] != refs[j]
    requires IsPass(refs, feeds, built, stages) && stages[0] == Rulesets(w.cache)
    requires forall j :: 0 <= j < |refs| ==> IsFeedOf(feeds[j], w.db, refs[j])
    ensures Reach(w, u, false) && Rulesets(u.cache) == stages[|built|]
    ensures u.db == w.db && u.loaders == w.loaders && u.streams == w.streams
  {
    hide Reach, IsFeedOf, IsPass, Rulesets;
    ReachSelf(false, w);
    var v := w.(loaders := w.loaders[l := Ready(refs)]);
    Go(false, w, w, ListEnvs(l, refs), v);
    assert refs[0..] == refs;
    PassFits(refs, feeds, built, stages);
    var end := StagesAreSteps(w, v, l, refs, feeds, built, stages, 0);
    u := end.(loaders := end.loaders[l := Idle]);
    Go(false, w, end, Return(l), u);
    assert w.loaders[l := Ready(refs)][l := Ready(refs[|built|..])][l := Idle] == w.loaders;
  }

  lemma PassFits(refs: seq<Id>, feeds: seq<Option<Feed>>, built: seq<Ruleset>, stages: seq<map<Id, Ruleset>>)
    requires IsPass(refs, feeds, built, stages)
    ensures |feeds| == |refs| && |built| <= |refs| && |stages| == |built| + 1
  {
  }
}

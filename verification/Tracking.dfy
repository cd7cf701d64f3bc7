/** Streams compare version numbers only.  With one load at a time, whose queries come through in full, that is
    enough for them to follow the cache at every tick. */
module Tracking {
  import opened Versions
  import opened ControlPlane
  import opened RulesetStore
  import opened Propagation
  import opened Streams

  // ---- One load at a time ----

  /** `b` was read no earlier than `a`, table by table. */
  ghost predicate Follows(a: Copy, b: Copy) {
    IsCopy(a) && IsCopy(b) && Older(a.flags, b.flags) && Older(a.segments, b.segments)
  }

  ghost predicate SameContents(a: Copy, b: Copy) {
    a.flags == b.flags && a.segments == b.segments
    && a.rs.version == b.rs.version && a.rs.flags == b.rs.flags && a.rs.segments == b.rs.segments
  }

  lemma FollowsVersion(a: Copy, b: Copy)
    requires Follows(a, b)
    ensures a.rs.version <= b.rs.version
    ensures a.rs.version == b.rs.version ==> SameContents(a, b)
  {
  }

  lemma FollowsTransitive(a: Copy, b: Copy, c: Copy)
    requires Follows(a, b) && Follows(b, c)
    ensures Follows(a, c)
  {
    hide IsCopy;
  }

  /** What a loader holds for an environment was read after what is cached for it. */
  ghost predicate LoaderFollows(l: Loader, cache: map<Id, Copy>) {
    match l
    case HoldsFlags(todo, t) => |todo| > 0 && todo[0] in cache ==> Older(cache[todo[0]].flags, t)
    case Holds(todo, c) => |todo| > 0 && (todo[0] in cache ==> Follows(cache[todo[0]], c))
    case _ => true
  }

  /** Versions of what was sent grow, and the cache is where the last one came from or has moved on. */
  ghost predicate StreamFollows(s: Stream, cache: map<Id, Copy>) {
    && (forall i, j :: 0 <= i < j < |s.sent| ==> s.sent[i].rs.version < s.sent[j].rs.version)
    && (|s.sent| > 0 ==>
          s.env in cache && Follows(Last(s.sent), cache[s.env]) && s.lastVersion == Last(s.sent).rs.version)
    && (|s.sent| == 0 ==> s.lastVersion == -1)
  }

  ghost predicate OneAtATime(w: World) {
    forall l, m :: l in w.loaders && m in w.loaders && !w.loaders[l].Idle? && !w.loaders[m].Idle? ==> l == m
  }

  ghost predicate Ordered(w: World) {
    && (forall l :: l in w.loaders ==> LoaderFollows(w.loaders[l], w.cache))
    && forall s :: s in w.streams ==> StreamFollows(w.streams[s], w.cache)
  }

  /** Queries come through in full, and a load starts only when no other is under way. */
  ghost predicate Polite(w: World, step: Step)
    requires Enabled(w, step)
  {
    Complete(w, step) && (step.ListEnvs? ==> forall l :: l in w.loaders ==> w.loaders[l].Idle?)
  }

  lemma LoaderSet(w: World, l: nat, x: Loader)
    requires Ordered(w) && LoaderFollows(x, w.cache)
    ensures Ordered(w.(loaders := w.loaders[l := x]))
  {
    hide LoaderFollows, StreamFollows;
  }

  lemma StreamSet(w: World, s: nat, x: Stream)
    requires Ordered(w) && StreamFollows(x, w.cache)
    ensures Ordered(w.(streams := w.streams[s := x]))
  {
    hide LoaderFollows, StreamFollows;
  }

  lemma FlagsReadFollow(w: World, l: nat, t: Table<FlagEntry>)
    requires l in w.loaders && w.loaders[l].Ready? && |w.loaders[l].todo| > 0
    requires t == FlagTable(w.db, w.loaders[l].todo[0])
    requires Inv(w)
    ensures LoaderFollows(HoldsFlags(w.loaders[l].todo, t), w.cache)
  {
    hide Inv, FlagTable, Older;
    if w.loaders[l].todo[0] in w.cache {
      CacheIsOld(w, w.loaders[l].todo[0]);
    }
  }

  lemma SegmentsReadFollow(w: World, l: nat, c: Copy)
    requires l in w.loaders && w.loaders[l].HoldsFlags? && |w.loaders[l].todo| > 0 && IsCopy(c)
    requires c.flags == w.loaders[l].flags && c.segments == SegmentTable(w.db, w.loaders[l].todo[0])
    requires LoaderFollows(w.loaders[l], w.cache)
    requires Inv(w)
    ensures LoaderFollows(Holds(w.loaders[l].todo, c), w.cache)
  {
    hide Inv, SegmentTable, Older;
    if w.loaders[l].todo[0] in w.cache {
      CacheIsOld(w, w.loaders[l].todo[0]);
    }
  }

  lemma StreamAfterInstall(s: Stream, cache: map<Id, Copy>, env: Id, c: Copy)
    requires StreamFollows(s, cache) && (env in cache ==> Follows(cache[env], c))
    ensures StreamFollows(s, InstalledCopy(cache, env, c))
  {
    hide Follows;
    if |s.sent| > 0 && s.env == env {
      FollowsTransitive(Last(s.sent), cache[env], c);
    }
  }

  lemma InstallKeepsOrder(w: World, l: nat)
    requires Enabled(w, Install(l)) && OneAtATime(w) && Ordered(w)
    ensures Ordered(Do(w, Install(l)))
  {
    hide Follows, Older, IsCopy;
    var env, c := w.loaders[l].todo[0], w.loaders[l].copy;
    assert LoaderFollows(w.loaders[l], w.cache);
    forall s | s in w.streams ensures StreamFollows(w.streams[s], InstalledCopy(w.cache, env, c)) {
      StreamAfterInstall(w.streams[s], w.cache, env, c);
    }
    hide StreamFollows;
  }

  lemma TickKeepsOrder(s: Stream, cache: map<Id, Copy>)
    requires StreamFollows(s, cache) && (s.env in cache ==> IsCopy(cache[s.env]))
    ensures StreamFollows(Sent(s, cache), cache)
  {
    if s.env in cache {
      if |s.sent| > 0 {
        FollowsVersion(Last(s.sent), cache[s.env]);
      }
      OlderItself(cache[s.env]);
    }
    hide Follows, IsCopy;
  }

  lemma OlderItself(c: Copy)
    requires IsCopy(c)
    ensures Follows(c, c)
  {
  }

  lemma PoliteStep(w: World, step: Step)
    requires Enabled(w, step) && Polite(w, step) && OneAtATime(w) && Ordered(w)
    requires Inv(w)
    ensures OneAtATime(Do(w, step)) && Ordered(Do(w, step))
  {
    hide Inv, FlagTable, SegmentTable, IsCopy, After, FlagsCome, SegmentsCome, Older, InstalledCopy;
    match step
    case Write(_) =>
      hide LoaderFollows, StreamFollows;
    case ListEnvs(l, refs) =>
      LoaderSet(w, l, Ready(refs));
    case QueryFlags(l, t) =>
      FlagsReadFollow(w, l, t);
      LoaderSet(w, l, HoldsFlags(w.loaders[l].todo, t));
    case QuerySegments(l, c) =>
      SegmentsReadFollow(w, l, c);
      LoaderSet(w, l, Holds(w.loaders[l].todo, c));
    case Install(l) =>
      InstallKeepsOrder(w, l);
    case Return(l) =>
      LoaderSet(w, l, Idle);
    case Connect(s, env) =>
      StreamSet(w, s, Stream(env, -1, []));
    case Tick(s) =>
      if w.streams[s].env in w.cache {
        CacheIsOld(w, w.streams[s].env);
      }
      TickKeepsOrder(w.streams[s], w.cache);
      StreamSet(w, s, Sent(w.streams[s], w.cache));
  }

  ghost predicate PoliteRun(w: World, steps: seq<Step>)
    requires CanRun(w, steps)
    decreases |steps|
  {
    steps != [] ==> Polite(w, steps[0]) && PoliteRun(Do(w, steps[0]), steps[1..])
  }

  lemma {:induction false} PoliteRunKeepsOrder(w: World, steps: seq<Step>)
    requires CanRun(w, steps) && PoliteRun(w, steps) && OneAtATime(w) && Ordered(w)
    requires Inv(w)
    ensures OneAtATime(Run(w, steps)) && Ordered(Run(w, steps))
    decreases |steps|
  {
    if steps != [] {
      hide OneAtATime, Ordered, Inv, Polite, Enabled, Do;
      PoliteStep(w, steps[0]);
      StepKeepsInv(w, steps[0]);
      PoliteRunKeepsOrder(Do(w, steps[0]), steps[1..]);
    }
  }

  lemma TickedTracks(v: World, s: nat)
    requires s in v.streams && v.streams[s].env in v.cache && Inv(v) && Ordered(v)
    ensures var t := Sent(v.streams[s], v.cache);
            && |t.sent| > 0 && SameContents(Last(t.sent), v.cache[t.env])
            && forall i, j :: 0 <= i < j < |t.sent| ==> t.sent[i].rs.version < t.sent[j].rs.version
  {
    hide Inv, Follows, IsCopy, FlagTable, SegmentTable, OldFlags, Older;
    CacheIsOld(v, v.streams[s].env);
    assert StreamFollows(v.streams[s], v.cache);
    TickKeepsOrder(v.streams[s], v.cache);
    var t := Sent(v.streams[s], v.cache);
    FollowsVersion(Last(t.sent), v.cache[t.env]);
  }

  /** With one load at a time, after every tick what a stream last sent is what the cache holds, and the
      versions it has sent only ever grow. */
  lemma StreamsTrackCache(w: World, steps: seq<Step>, v: World, s: nat)
    requires Initial(w) && CanRun(w, steps) && PoliteRun(w, steps) && v == Run(w, steps)
    requires s in v.streams && v.streams[s].env in v.cache
    ensures var t := Sent(v.streams[s], v.cache);
            && |t.sent| > 0 && SameContents(Last(t.sent), v.cache[t.env])
            && forall i, j :: 0 <= i < j < |t.sent| ==> t.sent[i].rs.version < t.sent[j].rs.version
  {
    NothingOrdered(w);
    hide Initial, CanRun, PoliteRun, Run, Inv, Ordered, OneAtATime, SameContents, Sent;
    PoliteRunKeepsOrder(w, steps);
    RunKeepsInv(w, steps);
    TickedTracks(v, s);
  }

  lemma NothingOrdered(w: World)
    requires Initial(w)
    ensures Inv(w) && OneAtATime(w) && Ordered(w)
  {
    InitialInv(w);
    hide Inv;
  }

  /** With one load at a time, every install that changes the cache raises the environment's version. */
  lemma InstallsIncrease(w: World, steps: seq<Step>, v: World, l: nat)
    requires Initial(w) && CanRun(w, steps) && PoliteRun(w, steps) && v == Run(w, steps)
    requires Enabled(v, Install(l)) && v.loaders[l].todo[0] in v.cache
    ensures var env := v.loaders[l].todo[0]; var u := Do(v, Install(l));
            u.cache == v.cache || v.cache[env].rs.version < u.cache[env].rs.version
  {
    InitialInv(w);
    PoliteRunKeepsOrder(w, steps);
    hide Initial, CanRun, PoliteRun, Run, Inv, IsCopy;
    assert LoaderFollows(v.loaders[l], v.cache);
    FollowsVersion(v.cache[v.loaders[l].todo[0]], v.loaders[l].copy);
  }
}

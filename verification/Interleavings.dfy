/** Streams and the cache when loads overlap in any way: what version numbers still tell. */
module Interleavings {
  import opened Types
  import opened Versions
  import opened ControlPlane
  import opened RulesetStore
  import opened Propagation
  import opened Streams
  import opened Tracking

  // ---- What has been read of an environment ----

  /** A loader holds the copy, or it is cached, or a stream was sent it. */
  ghost predicate HasCopy(w: World, env: Id, c: Copy) {
    || (exists l :: l in w.loaders && LoaderHas(w.loaders[l], env, c))
    || (env in w.cache && w.cache[env] == c)
    || (exists s :: s in w.streams && StreamHas(w.streams[s], env, c))
  }

  ghost predicate LoaderHas(l: Loader, env: Id, c: Copy) {
    l.Holds? && |l.todo| > 0 && l.todo[0] == env && l.copy == c
  }

  ghost predicate StreamHas(s: Stream, env: Id, c: Copy) {
    s.env == env && c in s.sent
  }

  ghost predicate LoaderHasFlags(l: Loader, env: Id, t: Table<FlagEntry>) {
    l.HoldsFlags? && |l.todo| > 0 && l.todo[0] == env && l.flags == t
  }

  ghost predicate SeenFlags(w: World, env: Id, t: Table<FlagEntry>) {
    || (exists c :: HasCopy(w, env, c) && c.flags == t)
    || (exists l :: l in w.loaders && LoaderHasFlags(w.loaders[l], env, t))
  }

  ghost predicate SeenSegments(w: World, env: Id, t: Table<Segment>) {
    exists c :: HasCopy(w, env, c) && c.segments == t
  }

  /** One of the two was read no later than the other, as far as their totals can tell. */
  ghost predicate Comparable<T(!new)>(t: Table<T>, u: Table<T>) {
    Older(t, u) || Older(u, t)
  }

  ghost predicate TotalsTell(w: World, env: Id) {
    && (forall t, u :: SeenFlags(w, env, t) && SeenFlags(w, env, u) ==> Comparable(t, u))
    && (forall t, u :: SeenSegments(w, env, t) && SeenSegments(w, env, u) ==> Comparable(t, u))
  }

  // ---- Every step with complete queries keeps that ----

  lemma CopiesAfter(w: World, step: Step, env: Id, c: Copy)
    requires Enabled(w, step) && HasCopy(Do(w, step), env, c)
    ensures HasCopy(w, env, c) ||
            (step.QuerySegments? && w.loaders[step.loader].todo[0] == env && c == step.copy)
  {
    hide FlagTable, SegmentTable, IsCopy, After, FlagsCome, SegmentsCome;
    var v := Do(w, step);
    if l :| l in v.loaders && LoaderHas(v.loaders[l], env, c) {
      assert l in w.loaders;
    } else if s :| s in v.streams && StreamHas(v.streams[s], env, c) {
      SentBefore(w, step, s, env, c);
    }
  }

  lemma SentBefore(w: World, step: Step, s: nat, env: Id, c: Copy)
    requires Enabled(w, step) && s in Do(w, step).streams && StreamHas(Do(w, step).streams[s], env, c)
    ensures (s in w.streams && StreamHas(w.streams[s], env, c)) || (env in w.cache && w.cache[env] == c)
  {
    hide FlagTable, SegmentTable, IsCopy, After, FlagsCome, SegmentsCome, InstalledCopy;
  }

  lemma CopiedFlagsAfter(w: World, step: Step, env: Id, c: Copy)
    requires Enabled(w, step) && HasCopy(Do(w, step), env, c)
    ensures SeenFlags(w, env, c.flags)
  {
    CopiesAfter(w, step, env, c);
    hide FlagTable, SegmentTable, IsCopy, After, FlagsCome, SegmentsCome, HasCopy, Do;
    if !HasCopy(w, env, c) {
      assert LoaderHasFlags(w.loaders[step.loader], env, c.flags);
    }
  }

  lemma HeldIsSeen(w: World, env: Id, l: nat, t: Table<FlagEntry>)
    requires l in w.loaders && LoaderHasFlags(w.loaders[l], env, t)
    ensures SeenFlags(w, env, t)
  {
    hide HasCopy;
  }

  lemma HeldFlagsAfter(w: World, step: Step, env: Id, l: nat, t: Table<FlagEntry>)
    requires Enabled(w, step) && Complete(w, step)
    requires l in Do(w, step).loaders && LoaderHasFlags(Do(w, step).loaders[l], env, t)
    ensures SeenFlags(w, env, t) || t == FlagTable(w.db, env)
  {
    hide FlagTable, SegmentTable, IsCopy, After, FlagsCome, SegmentsCome, HasCopy, Sent, InstalledCopy, SeenFlags;
    assert l in w.loaders;
    if w.loaders[l] == Do(w, step).loaders[l] {
      assert SeenFlags(w, env, t) by { HeldIsSeen(w, env, l, t); }
    }
  }

  lemma FlagsAfter(w: World, step: Step, env: Id, t: Table<FlagEntry>)
    requires Enabled(w, step) && Complete(w, step) && SeenFlags(Do(w, step), env, t)
    ensures SeenFlags(w, env, t) || t == FlagTable(w.db, env)
  {
    hide FlagTable, Enabled, Complete, Do, HasCopy, LoaderHasFlags;
    var v := Do(w, step);
    if c :| HasCopy(v, env, c) && c.flags == t {
      CopiedFlagsAfter(w, step, env, c);
    } else {
      var l :| l in v.loaders && LoaderHasFlags(v.loaders[l], env, t);
      HeldFlagsAfter(w, step, env, l, t);
    }
  }

  lemma SegmentsAfter(w: World, step: Step, env: Id, t: Table<Segment>)
    requires Enabled(w, step) && Complete(w, step) && SeenSegments(Do(w, step), env, t)
    ensures SeenSegments(w, env, t) || t == SegmentTable(w.db, env)
  {
    hide FlagTable, SegmentTable, IsCopy, After, FlagsCome, SegmentsCome, HasCopy, Do;
    var c :| HasCopy(Do(w, step), env, c) && c.segments == t;
    CopiesAfter(w, step, env, c);
  }

  lemma SeenIsOld(w: World, env: Id)
    requires Inv(w)
    ensures forall t :: SeenFlags(w, env, t) ==> Older(t, FlagTable(w.db, env))
    ensures forall t :: SeenSegments(w, env, t) ==> Older(t, SegmentTable(w.db, env))
  {
    forall c | HasCopy(w, env, c) ensures OldCopy(c, w.db, env) {
      CopyIsOld(w, env, c);
    }
    hide OldCopy, HasCopy, FlagTable, SegmentTable, Older;
    forall t | SeenFlags(w, env, t) ensures Older(t, FlagTable(w.db, env)) {
      if l :| l in w.loaders && LoaderHasFlags(w.loaders[l], env, t) {
        HeldFlagsAreOld(w, env, l);
      } else {
        var c :| HasCopy(w, env, c) && c.flags == t;
        CopyTablesAreOld(c, w.db, env);
      }
    }
    forall t | SeenSegments(w, env, t) ensures Older(t, SegmentTable(w.db, env)) {
      var c :| HasCopy(w, env, c) && c.segments == t;
      CopyTablesAreOld(c, w.db, env);
    }
  }

  lemma CopyIsOld(w: World, env: Id, c: Copy)
    requires Inv(w) && HasCopy(w, env, c)
    ensures OldCopy(c, w.db, env)
  {
    hide OldCopy, DbOk;
  }

  lemma CopyTablesAreOld(c: Copy, db: Db, env: Id)
    requires OldCopy(c, db, env)
    ensures Older(c.flags, FlagTable(db, env)) && Older(c.segments, SegmentTable(db, env))
  {
    hide Older, FlagTable, SegmentTable, IsCopy;
  }

  lemma HeldFlagsAreOld(w: World, env: Id, l: nat)
    requires Inv(w) && l in w.loaders && w.loaders[l].HoldsFlags?
    requires |w.loaders[l].todo| > 0 && w.loaders[l].todo[0] == env
    ensures Older(w.loaders[l].flags, FlagTable(w.db, env))
  {
    hide Older, FlagTable, SegmentTable, DbOk, OldCopy;
    assert GoodLoader(w.loaders[l], w.db);
  }

  lemma StepKeepsTotals(w: World, step: Step, env: Id)
    requires Enabled(w, step) && Complete(w, step) && TotalsTell(w, env) && Inv(w)
    ensures TotalsTell(Do(w, step), env)
  {
    SeenIsOld(w, env);
    hide Inv, FlagTable, SegmentTable, Enabled, Complete, Do, SeenFlags, SeenSegments;
    var v := Do(w, step);
    forall t, u | SeenFlags(v, env, t) && SeenFlags(v, env, u) ensures Comparable(t, u) {
      FlagsAfter(w, step, env, t);
      FlagsAfter(w, step, env, u);
    }
    forall t, u | SeenSegments(v, env, t) && SeenSegments(v, env, u) ensures Comparable(t, u) {
      SegmentsAfter(w, step, env, t);
      SegmentsAfter(w, step, env, u);
    }
  }

  ghost predicate CompleteRun(w: World, steps: seq<Step>)
    requires CanRun(w, steps)
    decreases |steps|
  {
    steps != [] ==> Complete(w, steps[0]) && CompleteRun(Do(w, steps[0]), steps[1..])
  }

  lemma {:induction false} RunKeepsTotals(w: World, steps: seq<Step>, env: Id)
    requires CanRun(w, steps) && CompleteRun(w, steps) && TotalsTell(w, env) && Inv(w)
    ensures TotalsTell(Run(w, steps), env)
    decreases |steps|
  {
    if steps != [] {
      hide Inv, Enabled, Complete, Do, TotalsTell;
      StepKeepsTotals(w, steps[0], env);
      StepKeepsInv(w, steps[0]);
      RunKeepsTotals(Do(w, steps[0]), steps[1..], env);
    }
  }

  // ---- What a stream has after a tick ----

  /** In every run in which queries come through in full, overlapping loads included, any two tables that were
      read of an environment and are still around are comparable: equal totals mean equal tables. */
  lemma ReadsAreComparable(w: World, steps: seq<Step>, env: Id)
    requires Initial(w) && CanRun(w, steps) && CompleteRun(w, steps)
    ensures TotalsTell(Run(w, steps), env)
  {
    hide Inv, TotalsTell, CompleteRun;
    NothingRead(w, env);
    RunKeepsTotals(w, steps, env);
  }

  lemma CopiesCompare(w: World, env: Id, a: Copy, b: Copy)
    requires TotalsTell(w, env) && HasCopy(w, env, a) && HasCopy(w, env, b)
    ensures Comparable(a.flags, b.flags) && Comparable(a.segments, b.segments)
  {
    hide HasCopy, Comparable;
    assert SeenFlags(w, env, a.flags) && SeenFlags(w, env, b.flags);
    assert SeenSegments(w, env, a.segments) && SeenSegments(w, env, b.segments);
  }

  lemma SameIffTotals(a: Copy, b: Copy)
    requires IsCopy(a) && IsCopy(b) && a.rs.version == b.rs.version
    requires Comparable(a.flags, b.flags) && Comparable(a.segments, b.segments)
    ensures SameContents(a, b) <==> Total(a.flags) == Total(b.flags)
    ensures SameContents(a, b) <==> Total(a.segments) == Total(b.segments)
  {
  }

  lemma AfterTick(v: World, s: nat)
    requires s in v.streams && v.streams[s].env in v.cache && Inv(v)
    ensures var t := Sent(v.streams[s], v.cache); var c := v.cache[t.env];
            && t.env == v.streams[s].env && |t.sent| > 0 && Last(t.sent).rs.version == c.rs.version
            && IsCopy(Last(t.sent)) && IsCopy(c) && HasCopy(v, t.env, Last(t.sent)) && HasCopy(v, t.env, c)
  {
    var env := v.streams[s].env;
    assert GoodStream(v.streams[s], v.db) && OldCopy(v.cache[env], v.db, env);
    hide Inv, FlagTable, SegmentTable, OldFlags, IsCopy, Older;
    var t := Sent(v.streams[s], v.cache);
    if t == v.streams[s] {
      assert Last(t.sent) in t.sent && StreamHas(v.streams[s], env, Last(t.sent));
      assert OldCopy(t.sent[|t.sent| - 1], v.db, env);
    }
  }

  /** After its tick a stream has the version of the cache.  Where totals tell, it has the contents of the cache
      exactly if the flag tables behind the two have one total. */
  lemma TickedIff(v: World, s: nat)
    requires s in v.streams && v.streams[s].env in v.cache && Inv(v) && TotalsTell(v, v.streams[s].env)
    ensures var t := Sent(v.streams[s], v.cache); var c := v.cache[t.env];
            && |t.sent| > 0 && Last(t.sent).rs.version == c.rs.version
            && (SameContents(Last(t.sent), c) <==> Total(Last(t.sent).flags) == Total(c.flags))
            && (SameContents(Last(t.sent), c) <==> Total(Last(t.sent).segments) == Total(c.segments))
  {
    AfterTick(v, s);
    hide Inv, TotalsTell, HasCopy, IsCopy, SameContents, Sent, Comparable;
    var t := Sent(v.streams[s], v.cache);
    CopiesCompare(v, t.env, Last(t.sent), v.cache[t.env]);
    SameIffTotals(Last(t.sent), v.cache[t.env]);
  }

  /** So it is in every run with complete queries, however the loads overlap. */
  lemma TracksIff(w: World, steps: seq<Step>, v: World, s: nat)
    requires Initial(w) && CanRun(w, steps) && CompleteRun(w, steps) && v == Run(w, steps)
    requires s in v.streams && v.streams[s].env in v.cache
    ensures var t := Sent(v.streams[s], v.cache); var c := v.cache[t.env];
            && |t.sent| > 0 && Last(t.sent).rs.version == c.rs.version
            && (SameContents(Last(t.sent), c) <==> Total(Last(t.sent).flags) == Total(c.flags))
  {
    hide Initial, CanRun, CompleteRun, Run, Inv, TotalsTell, SameContents, Sent;
    InitialInv(w);
    RunKeepsInv(w, steps);
    ReadsAreComparable(w, steps, v.streams[s].env);
    TickedIff(v, s);
  }

  // ---- When only one of the two tables is written ----

  ghost predicate WritesFlags(op: Op, env: Id) {
    || (op.PutFlagConfig? && Id(op.project, op.env) == env)
    || (op.CreateFlag? && op.project == env.project)
  }

  ghost predicate WritesSegments(op: Op, env: Id) {
    op.PutSegmentConfig? && Id(op.project, op.env) == env
  }

  lemma FlagsUnwritten(db: Db, op: Op, env: Id)
    requires DbOk(db) && !WritesFlags(op, env)
    ensures FlagTable(After(db, op), env) == FlagTable(db, env)
  {
    if StatusOf(db, op) == Fine {
      if op.CreateFlag? {
        FlagTableAfterCreate(db, op.project, op.key, op.def, env);
      } else if op.PutFlagConfig? {
        FlagTableAfterPut(db, op.project, op.key, op.env, op.config, env);
      } else {
        SameFlags(db, After(db, op), env);
      }
    }
  }

  lemma SegmentsUnwritten(db: Db, op: Op, env: Id)
    requires DbOk(db) && !WritesSegments(op, env)
    ensures SegmentTable(After(db, op), env) == SegmentTable(db, env)
  {
    if StatusOf(db, op) == Fine {
      if op.PutSegmentConfig? {
        SegmentTableAfterPut(db, op.project, op.key, op.env, op.segment, env);
      } else {
        SameSegments(db, op, env);
      }
    }
  }

  /** Everything read of the environment's flags is what the database holds. */
  ghost predicate FlagsFixed(w: World, env: Id) {
    forall t :: SeenFlags(w, env, t) ==> t == FlagTable(w.db, env)
  }

  ghost predicate SegmentsFixed(w: World, env: Id) {
    forall t :: SeenSegments(w, env, t) ==> t == SegmentTable(w.db, env)
  }

  ghost predicate NoFlagWrites(steps: seq<Step>, env: Id) {
    forall i :: 0 <= i < |steps| && steps[i].Write? ==> !WritesFlags(steps[i].op, env)
  }

  ghost predicate NoSegmentWrites(steps: seq<Step>, env: Id) {
    forall i :: 0 <= i < |steps| && steps[i].Write? ==> !WritesSegments(steps[i].op, env)
  }

  lemma DbAfter(w: World, step: Step)
    requires Enabled(w, step)
    ensures Do(w, step).db == if step.Write? then After(w.db, step.op) else w.db
  {
    hide FlagTable, SegmentTable, After, Sent, InstalledCopy, IsCopy, FlagsCome, SegmentsCome;
  }

  lemma FlagsStayFixed(w: World, step: Step, env: Id)
    requires Enabled(w, step) && Complete(w, step) && Inv(w) && FlagsFixed(w, env) && NoFlagWrites([step], env)
    ensures FlagsFixed(Do(w, step), env)
  {
    DbAfter(w, step);
    assert DbOk(w.db);
    hide Inv, FlagTable, SegmentTable, Enabled, Complete, Do, SeenFlags, DbOk, WritesFlags;
    if step.Write? {
      assert !WritesFlags([step][0].op, env);
      FlagsUnwritten(w.db, step.op, env);
    }
    forall t | SeenFlags(Do(w, step), env, t) ensures t == FlagTable(w.db, env) {
      FlagsAfter(w, step, env, t);
    }
  }

  lemma SegmentsStayFixed(w: World, step: Step, env: Id)
    requires Enabled(w, step) && Complete(w, step) && Inv(w) && SegmentsFixed(w, env) && NoSegmentWrites([step], env)
    ensures SegmentsFixed(Do(w, step), env)
  {
    DbAfter(w, step);
    assert DbOk(w.db);
    hide Inv, FlagTable, SegmentTable, Enabled, Complete, Do, SeenSegments, DbOk, WritesSegments;
    if step.Write? {
      assert !WritesSegments([step][0].op, env);
      SegmentsUnwritten(w.db, step.op, env);
    }
    forall t | SeenSegments(Do(w, step), env, t) ensures t == SegmentTable(w.db, env) {
      SegmentsAfter(w, step, env, t);
    }
  }

  lemma {:induction false} FlagsFixedThroughout(w: World, steps: seq<Step>, env: Id)
    requires CanRun(w, steps) && CompleteRun(w, steps) && Inv(w) && FlagsFixed(w, env) && NoFlagWrites(steps, env)
    ensures FlagsFixed(Run(w, steps), env)
    decreases |steps|
  {
    if steps != [] {
      assert NoFlagWrites([steps[0]], env) && NoFlagWrites(steps[1..], env);
      hide Inv, Enabled, Complete, Do, FlagsFixed, NoFlagWrites;
      StepKeepsInv(w, steps[0]);
      FlagsStayFixed(w, steps[0], env);
      FlagsFixedThroughout(Do(w, steps[0]), steps[1..], env);
    }
  }

  lemma {:induction false} SegmentsFixedThroughout(w: World, steps: seq<Step>, env: Id)
    requires CanRun(w, steps) && CompleteRun(w, steps) && Inv(w) && SegmentsFixed(w, env) && NoSegmentWrites(steps, env)
    ensures SegmentsFixed(Run(w, steps), env)
    decreases |steps|
  {
    if steps != [] {
      assert NoSegmentWrites([steps[0]], env) && NoSegmentWrites(steps[1..], env);
      hide Inv, Enabled, Complete, Do, SegmentsFixed, NoSegmentWrites;
      StepKeepsInv(w, steps[0]);
      SegmentsStayFixed(w, steps[0], env);
      SegmentsFixedThroughout(Do(w, steps[0]), steps[1..], env);
    }
  }

  lemma FixedSegments(w: World, env: Id, a: Copy, b: Copy)
    requires SegmentsFixed(w, env) && HasCopy(w, env, a) && HasCopy(w, env, b)
    ensures a.segments == b.segments
  {
    hide HasCopy;
    assert SeenSegments(w, env, a.segments) && SeenSegments(w, env, b.segments);
  }

  lemma FixedFlags(w: World, env: Id, a: Copy, b: Copy)
    requires FlagsFixed(w, env) && HasCopy(w, env, a) && HasCopy(w, env, b)
    ensures a.flags == b.flags
  {
    hide HasCopy;
    assert SeenFlags(w, env, a.flags) && SeenFlags(w, env, b.flags);
  }

  /** Streams track the cache through every interleaving in which only one of an environment's two tables is
      written, starting where the other one, as far as it was read, is what the database holds. */
  lemma OneTableTracks(w: World, steps: seq<Step>, v: World, s: nat, env: Id)
    requires Inv(w) && TotalsTell(w, env) && CanRun(w, steps) && CompleteRun(w, steps) && v == Run(w, steps)
    requires (SegmentsFixed(w, env) && NoSegmentWrites(steps, env)) || (FlagsFixed(w, env) && NoFlagWrites(steps, env))
    requires s in v.streams && v.streams[s].env == env && env in v.cache
    ensures var t := Sent(v.streams[s], v.cache); |t.sent| > 0 && SameContents(Last(t.sent), v.cache[env])
  {
    RunKeepsInv(w, steps);
    RunKeepsTotals(w, steps, env);
    hide CanRun, CompleteRun, Run, Inv, TotalsTell, HasCopy, IsCopy, SameContents, FlagsFixed, SegmentsFixed, Sent;
    hide NoFlagWrites, NoSegmentWrites;
    if SegmentsFixed(w, env) && NoSegmentWrites(steps, env) {
      SegmentsFixedThroughout(w, steps, env);
    } else {
      FlagsFixedThroughout(w, steps, env);
    }
    AfterTick(v, s);
    var a, b := Last(Sent(v.streams[s], v.cache).sent), v.cache[env];
    CopiesCompare(v, env, a, b);
    SameIffTotals(a, b);
    if SegmentsFixed(v, env) {
      FixedSegments(v, env, a, b);
    } else {
      FixedFlags(v, env, a, b);
    }
  }

  /** At the start nothing has been read, so both tables are fine to start with. */
  lemma NothingRead(w: World, env: Id)
    requires Initial(w)
    ensures Inv(w) && TotalsTell(w, env) && FlagsFixed(w, env) && SegmentsFixed(w, env)
  {
    InitialInv(w);
    hide Inv, Comparable, FlagTable, SegmentTable;
    assert forall c :: !HasCopy(w, env, c);
  }
}

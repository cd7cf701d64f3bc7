/** From database to cache to streams, as a system of steps: API writes, loaders that overlap in any way
    (data-plane/cmd/dataplane/main.go, store.go) and SDK streams (data-plane/internal/server/server.go). */
module Propagation {
  import opened Types
  import opened Versions
  import opened Prerequisites
  import opened Schemas
  import opened ControlPlane
  import opened RulesetStore

  // ---- States ----

  /** A ruleset with the rows it was assembled from.  The rows are bookkeeping of the model: steps look at
      nothing but the ruleset's version. */
  datatype Copy = Copy(rs: Ruleset, flags: Table<FlagEntry>, segments: Table<Segment>)

  /** Where a call of `LoadAll` stands; `todo` are the environments it has yet to finish. */
  datatype Loader =
    | Idle
    | Ready(todo: seq<Id>)
    | HoldsFlags(todo: seq<Id>, flags: Table<FlagEntry>)
    | Holds(todo: seq<Id>, copy: Copy)

  datatype Stream = Stream(env: Id, lastVersion: int, sent: seq<Copy>)

  datatype World = World(
    db: Db,
    loaders: map<nat, Loader>,
    cache: map<Id, Copy>,
    streams: map<nat, Stream>)

  // ---- Steps ----

  datatype Step =
    | Write(op: Op)
    | ListEnvs(loader: nat, refs: seq<Id>)
    | QueryFlags(loader: nat, flags: Table<FlagEntry>)
    | QuerySegments(loader: nat, copy: Copy)
    | Install(loader: nat)
    | Return(loader: nat)
    | Connect(stream: nat, env: Id)
    | Tick(stream: nat)

  ghost predicate IsCopy(c: Copy) {
    IsAssembled(c.rs, c.flags, c.segments)
  }

  /** A query answers from one state of the database.  The loops over its rows end at an error without
      asking for it, so only some of the rows may have come through; these have all been decoded, because a
      row that cannot be decoded ends the whole load. */
  ghost predicate FlagsCome(t: Table<FlagEntry>, db: Db, env: Id) {
    Within(t, FlagTable(db, env)) && forall k :: k in t ==> ReadableFlag(db, env, k)
  }

  ghost predicate SegmentsCome(t: Table<Segment>, db: Db, env: Id) {
    Within(t, SegmentTable(db, env)) && forall k :: k in t ==> ReadableSegment(db, env, k)
  }

  ghost predicate Enabled(w: World, step: Step) {
    match step
    case Write(_) => true
    case ListEnvs(l, refs) =>
      && l in w.loaders && w.loaders[l].Idle?
      && (forall e :: e in refs ==> e in w.db.envs)
      && forall i, j :: 0 <= i < j < |refs| ==> refs[i] != refs[j]
    case QueryFlags(l, t) =>
      && l in w.loaders && w.loaders[l].Ready? && |w.loaders[l].todo| > 0
      && FlagsCome(t, w.db, w.loaders[l].todo[0])
    case QuerySegments(l, c) =>
      && l in w.loaders && w.loaders[l].HoldsFlags? && |w.loaders[l].todo| > 0
      && SegmentsCome(c.segments, w.db, w.loaders[l].todo[0])
      && c.flags == w.loaders[l].flags && IsCopy(c)
    case Install(l) => l in w.loaders && w.loaders[l].Holds? && |w.loaders[l].todo| > 0
    case Return(l) => l in w.loaders
    case Connect(s, _) => s !in w.streams
    case Tick(s) => s in w.streams
  }

  ghost function InstalledCopy(cache: map<Id, Copy>, env: Id, c: Copy): map<Id, Copy> {
    if env in cache && cache[env].rs.version == c.rs.version then cache else cache[env := c]
  }

  /** `send`: nothing, unless the cached version is not the last one sent. */
  ghost function Sent(s: Stream, cache: map<Id, Copy>): Stream {
    if s.env !in cache || cache[s.env].rs.version == s.lastVersion then s
    else Stream(s.env, cache[s.env].rs.version, s.sent + [cache[s.env]])
  }

  ghost function Do(w: World, step: Step): World
    requires Enabled(w, step)
  {
    match step
    case Write(op) => w.(db := After(w.db, op))
    case ListEnvs(l, refs) => w.(loaders := w.loaders[l := Ready(refs)])
    case QueryFlags(l, t) => w.(loaders := w.loaders[l := HoldsFlags(w.loaders[l].todo, t)])
    case QuerySegments(l, c) => w.(loaders := w.loaders[l := Holds(w.loaders[l].todo, c)])
    case Install(l) =>
      var todo := w.loaders[l].todo;
      w.(loaders := w.loaders[l := Ready(todo[1..])], cache := InstalledCopy(w.cache, todo[0], w.loaders[l].copy))
    case Return(l) => w.(loaders := w.loaders[l := Idle])
    case Connect(s, env) => w.(streams := w.streams[s := Stream(env, -1, [])])
    case Tick(s) => w.(streams := w.streams[s := Sent(w.streams[s], w.cache)])
  }

  ghost predicate CanRun(w: World, steps: seq<Step>)
    decreases |steps|
  {
    steps == [] || (Enabled(w, steps[0]) && CanRun(Do(w, steps[0]), steps[1..]))
  }

  ghost function Run(w: World, steps: seq<Step>): World
    requires CanRun(w, steps)
    decreases |steps|
  {
    if steps == [] then w else Run(Do(w, steps[0]), steps[1..])
  }

  /** Nothing written, nothing loaded, nobody connected; any number of loaders. */
  ghost predicate Initial(w: World) {
    w.db == EMPTY && w.cache == map[] && w.streams == map[] && forall l :: l in w.loaders ==> w.loaders[l].Idle?
  }

  /** The map that `Store.LoadAll` updates goes through the same changes. */
  ghost function Rulesets(cache: map<Id, Copy>): map<Id, Ruleset> {
    map e | e in cache :: cache[e].rs
  }

  lemma InstallIsStoreInstall(cache: map<Id, Copy>, env: Id, c: Copy)
    ensures Rulesets(InstalledCopy(cache, env, c)) == Installed(Rulesets(cache), env, c.rs)
  {
  }

  // ---- What every reachable state satisfies ----

  ghost predicate ValidTable(t: Table<FlagEntry>) {
    forall k :: k in t ==> ValidFlag(t[k].content.flag) && WholeRollouts(t[k].content.flag)
  }

  ghost predicate OldFlags(t: Table<FlagEntry>, db: Db, env: Id) {
    Older(t, FlagTable(db, env)) && ValidTable(t)
  }

  /** Each half of the copy may be from a different past state, and incomplete. */
  ghost predicate OldCopy(c: Copy, db: Db, env: Id) {
    IsCopy(c) && OldFlags(c.flags, db, env) && Older(c.segments, SegmentTable(db, env))
  }

  ghost predicate GoodLoader(l: Loader, db: Db) {
    match l
    case HoldsFlags(todo, t) => |todo| > 0 && OldFlags(t, db, todo[0])
    case Holds(todo, c) => |todo| > 0 && OldCopy(c, db, todo[0])
    case _ => true
  }

  ghost predicate GoodStream(s: Stream, db: Db) {
    && (forall i :: 0 <= i < |s.sent| ==> OldCopy(s.sent[i], db, s.env))
    && s.lastVersion == if s.sent == [] then -1 else Last(s.sent).rs.version
  }

  ghost predicate GoodLoaders(w: World, db: Db) {
    forall l :: l in w.loaders ==> GoodLoader(w.loaders[l], db)
  }

  ghost predicate OldCache(w: World, db: Db) {
    forall e :: e in w.cache ==> OldCopy(w.cache[e], db, e)
  }

  ghost predicate GoodStreams(w: World, db: Db) {
    forall s :: s in w.streams ==> GoodStream(w.streams[s], db)
  }

  ghost predicate Inv(w: World) {
    DbOk(w.db) && GoodLoaders(w, w.db) && OldCache(w, w.db) && GoodStreams(w, w.db)
  }

  lemma WriteKeepsOldFlags(t: Table<FlagEntry>, db: Db, op: Op, env: Id)
    requires DbOk(db) && OldFlags(t, db, env)
    ensures OldFlags(t, After(db, op), env)
  {
    WritesAdvance(db, op, env);
    OlderStays(t, FlagTable(db, env), FlagTable(After(db, op), env));
  }

  lemma WriteKeepsOldCopy(c: Copy, db: Db, op: Op, env: Id)
    requires DbOk(db) && OldCopy(c, db, env)
    ensures OldCopy(c, After(db, op), env)
  {
    WriteKeepsOldFlags(c.flags, db, op, env);
    WritesAdvance(db, op, env);
    OlderStays(c.segments, SegmentTable(db, env), SegmentTable(After(db, op), env));
  }

  lemma WriteKeepsLoader(l: Loader, db: Db, op: Op)
    requires DbOk(db) && GoodLoader(l, db)
    ensures GoodLoader(l, After(db, op))
  {
    hide DbOk, After, OldFlags, OldCopy;
    match l
    case HoldsFlags(todo, t) => WriteKeepsOldFlags(t, db, op, todo[0]);
    case Holds(todo, c) => WriteKeepsOldCopy(c, db, op, todo[0]);
    case _ =>
  }

  lemma WriteKeepsStream(s: Stream, db: Db, op: Op)
    requires DbOk(db) && GoodStream(s, db)
    ensures GoodStream(s, After(db, op))
  {
    hide DbOk, After, OldCopy;
    forall i | 0 <= i < |s.sent| ensures OldCopy(s.sent[i], After(db, op), s.env) {
      WriteKeepsOldCopy(s.sent[i], db, op, s.env);
    }
  }

  lemma WriteKeepsLoaders(w: World, op: Op)
    requires DbOk(w.db) && GoodLoaders(w, w.db)
    ensures GoodLoaders(w, After(w.db, op))
  {
    hide DbOk, After, GoodLoader;
    forall l | l in w.loaders ensures GoodLoader(w.loaders[l], After(w.db, op)) {
      WriteKeepsLoader(w.loaders[l], w.db, op);
    }
  }

  lemma WriteKeepsCache(w: World, op: Op)
    requires DbOk(w.db) && OldCache(w, w.db)
    ensures OldCache(w, After(w.db, op))
  {
    hide DbOk, After, OldCopy;
    forall e | e in w.cache ensures OldCopy(w.cache[e], After(w.db, op), e) {
      WriteKeepsOldCopy(w.cache[e], w.db, op, e);
    }
  }

  lemma WriteKeepsStreams(w: World, op: Op)
    requires DbOk(w.db) && GoodStreams(w, w.db)
    ensures GoodStreams(w, After(w.db, op))
  {
    hide DbOk, After, GoodStream;
    forall s | s in w.streams ensures GoodStream(w.streams[s], After(w.db, op)) {
      WriteKeepsStream(w.streams[s], w.db, op);
    }
  }

  lemma WriteKeepsInv(w: World, op: Op)
    requires Inv(w)
    ensures Inv(w.(db := After(w.db, op)))
  {
    hide DbOk, After, GoodLoaders, OldCache, GoodStreams;
    WritesKeepOk(w.db, op);
    WriteKeepsLoaders(w, op);
    WriteKeepsCache(w, op);
    WriteKeepsStreams(w, op);
    SameParts(w, w.(db := After(w.db, op)), After(w.db, op));
  }

  lemma SameParts(w: World, v: World, db: Db)
    requires v.loaders == w.loaders && v.cache == w.cache && v.streams == w.streams
    ensures GoodLoaders(v, db) == GoodLoaders(w, db)
    ensures OldCache(v, db) == OldCache(w, db)
    ensures GoodStreams(v, db) == GoodStreams(w, db)
  {
    hide GoodLoader, OldCopy, GoodStream;
  }

  lemma ReadFlagsAreOld(t: Table<FlagEntry>, db: Db, env: Id)
    requires DbOk(db) && FlagsCome(t, db, env)
    ensures OldFlags(t, db, env)
  {
    TablesPositive(db, env);
    PartIsOlder(t, FlagTable(db, env));
    forall k | k in t ensures ValidFlag(t[k].content.flag) && WholeRollouts(t[k].content.flag) {
      TableFlagsValid(db, env, k);
    }
  }

  lemma ReadSegmentsAreOld(t: Table<Segment>, db: Db, env: Id)
    requires DbOk(db) && SegmentsCome(t, db, env)
    ensures Older(t, SegmentTable(db, env))
  {
    TablesPositive(db, env);
    PartIsOlder(t, SegmentTable(db, env));
  }

  lemma LoaderMoves(w: World, l: nat, x: Loader)
    requires Inv(w) && GoodLoader(x, w.db)
    ensures Inv(w.(loaders := w.loaders[l := x]))
  {
    hide DbOk, GoodLoader, OldCopy, GoodStream;
  }

  lemma CacheMoves(w: World, env: Id, c: Copy)
    requires Inv(w) && OldCopy(c, w.db, env)
    ensures Inv(w.(cache := InstalledCopy(w.cache, env, c)))
  {
    hide DbOk, GoodLoader, OldCopy, GoodStream;
  }

  lemma StreamMoves(w: World, s: nat)
    requires Inv(w) && s in w.streams
    ensures Inv(w.(streams := w.streams[s := Sent(w.streams[s], w.cache)]))
  {
    hide DbOk, GoodLoader, OldCopy;
  }

  lemma StepKeepsInv(w: World, step: Step)
    requires Inv(w) && Enabled(w, step)
    ensures Inv(Do(w, step))
  {
    hide Inv, OldFlags, FlagTable, SegmentTable, After, FlagsCome, SegmentsCome, IsCopy, Older;
    match step
    case Write(op) =>
      WriteKeepsInv(w, op);
    case ListEnvs(l, refs) =>
      LoaderMoves(w, l, Ready(refs));
    case QueryFlags(l, t) =>
      InvParts(w, l);
      ReadFlagsAreOld(t, w.db, w.loaders[l].todo[0]);
      LoaderMoves(w, l, HoldsFlags(w.loaders[l].todo, t));
    case QuerySegments(l, c) =>
      InvParts(w, l);
      ReadSegmentsAreOld(c.segments, w.db, w.loaders[l].todo[0]);
      LoaderMoves(w, l, Holds(w.loaders[l].todo, c));
    case Install(l) =>
      InvParts(w, l);
      CacheMoves(w, w.loaders[l].todo[0], w.loaders[l].copy);
      var cache := InstalledCopy(w.cache, w.loaders[l].todo[0], w.loaders[l].copy);
      LoaderMoves(w.(cache := cache), l, Ready(w.loaders[l].todo[1..]));
    case Return(l) =>
      LoaderMoves(w, l, Idle);
    case Connect(s, env) =>
      StreamConnects(w, s, env);
    case Tick(s) =>
      StreamMoves(w, s);
  }

  lemma InvParts(w: World, l: nat)
    requires Inv(w) && l in w.loaders
    ensures DbOk(w.db) && GoodLoader(w.loaders[l], w.db)
  {
  }

  lemma StreamConnects(w: World, s: nat, env: Id)
    requires Inv(w)
    ensures Inv(w.(streams := w.streams[s := Stream(env, -1, [])]))
  {
    hide DbOk, GoodLoader, OldCopy;
  }

  lemma {:induction false} RunKeepsInv(w: World, steps: seq<Step>)
    requires Inv(w) && CanRun(w, steps)
    ensures Inv(Run(w, steps))
    decreases |steps|
  {
    if steps != [] {
      StepKeepsInv(w, steps[0]);
      RunKeepsInv(Do(w, steps[0]), steps[1..]);
    }
  }

  lemma InitialInv(w: World)
    requires Initial(w)
    ensures Inv(w)
  {
  }

  // ---- The cache ----

  /** The copy is what the database holds for the environment. */
  ghost predicate Current(c: Copy, db: Db, env: Id) {
    IsCopy(c) && c.flags == FlagTable(db, env) && c.segments == SegmentTable(db, env)
  }

  ghost predicate CacheCurrent(w: World, env: Id) {
    env in w.cache && Current(w.cache[env], w.db, env)
  }

  /** An old copy's version is never ahead, and only a copy without changes and gaps has the version of
      the database. */
  lemma OldCopyVersion(c: Copy, db: Db, env: Id)
    requires OldCopy(c, db, env)
    ensures c.rs.version <= DbVersion(db, env)
    ensures c.rs.version == DbVersion(db, env) <==> Current(c, db, env)
  {
  }

  /** In every run, whatever the interleaving of writes and loads and however reads were torn or cut
      short: no cached version is ahead of the database's, and equal versions mean equal contents. */
  lemma CacheNeverAhead(w: World, steps: seq<Step>, env: Id)
    requires Initial(w) && CanRun(w, steps) && env in Run(w, steps).cache
    ensures var v := Run(w, steps); var rs := v.cache[env].rs;
            && rs.version <= DbVersion(v.db, env)
            && (rs.version == DbVersion(v.db, env) <==>
                IsAssembled(rs, FlagTable(v.db, env), SegmentTable(v.db, env)))
  {
    InitialInv(w);
    RunKeepsInv(w, steps);
    var v := Run(w, steps);
    OldCopyVersion(v.cache[env], v.db, env);
  }

  ghost predicate Touches(step: Step, l: nat) {
    match step
    case Write(_) => true
    case ListEnvs(m, _) => m == l
    case QueryFlags(m, _) => m == l
    case QuerySegments(m, _) => m == l
    case Install(m) => m == l
    case Return(m) => m == l
    case _ => false
  }

  /** No writes, and no steps of loader `l`. */
  ghost predicate Leaves(steps: seq<Step>, l: nat) {
    forall i :: 0 <= i < |steps| ==> !Touches(steps[i], l)
  }

  lemma {:induction false} LeftAlone(w: World, steps: seq<Step>, l: nat)
    requires CanRun(w, steps) && Leaves(steps, l) && l in w.loaders
    ensures var v := Run(w, steps); v.db == w.db && l in v.loaders && v.loaders[l] == w.loaders[l]
    decreases |steps|
  {
    if steps != [] {
      hide After, IsCopy, FlagsCome, SegmentsCome, InstalledCopy, Sent, FlagTable, SegmentTable;
      assert !Touches(steps[0], l);
      LeftAlone(Do(w, steps[0]), steps[1..], l);
    }
  }

  lemma CacheIsOld(w: World, env: Id)
    requires Inv(w) && env in w.cache
    ensures OldCopy(w.cache[env], w.db, env)
  {
  }

  /** Installing a current copy makes the cache agree, whether it is installed or skipped. */
  lemma InstallConverges(w: World, l: nat)
    requires Inv(w) && Enabled(w, Install(l)) && Current(w.loaders[l].copy, w.db, w.loaders[l].todo[0])
    ensures CacheCurrent(Do(w, Install(l)), w.loaders[l].todo[0])
  {
    hide Inv, OldCopy;
    var env := w.loaders[l].todo[0];
    if env in w.cache {
      CacheIsOld(w, env);
      OldCopyVersion(w.cache[env], w.db, env);
    }
    hide FlagTable, SegmentTable;
  }

  /** A load whose two queries both come after the last write leaves the cache equal to the database.
      Between its steps the other loaders do as they like, with whatever they have read before. */
  lemma LoadConverges(w: World, l: nat, flags: Table<FlagEntry>, mid: seq<Step>, c: Copy, late: seq<Step>)
    requires Inv(w) && Enabled(w, QueryFlags(l, flags)) && flags == FlagTable(w.db, w.loaders[l].todo[0])
    requires var w1 := Do(w, QueryFlags(l, flags));
             && CanRun(w1, mid) && Leaves(mid, l)
             && var w2 := Run(w1, mid);
             && Enabled(w2, QuerySegments(l, c)) && c.segments == SegmentTable(w.db, w.loaders[l].todo[0])
             && var w3 := Do(w2, QuerySegments(l, c));
             && CanRun(w3, late) && Leaves(late, l)
    ensures var w4 := Run(Do(Run(Do(w, QueryFlags(l, flags)), mid), QuerySegments(l, c)), late);
            && Enabled(w4, Install(l))
            && CacheCurrent(Do(w4, Install(l)), w.loaders[l].todo[0])
  {
    hide Inv, FlagTable, SegmentTable, IsCopy, After;
    var w1 := Do(w, QueryFlags(l, flags));
    StepKeepsInv(w, QueryFlags(l, flags));
    RunKeepsInv(w1, mid);
    LeftAlone(w1, mid, l);
    var w2 := Run(w1, mid);
    var w3 := Do(w2, QuerySegments(l, c));
    StepKeepsInv(w2, QuerySegments(l, c));
    RunKeepsInv(w3, late);
    LeftAlone(w3, late, l);
    hide CanRun, Run;
    InstallConverges(Run(w3, late), l);
  }
}

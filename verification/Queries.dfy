/** The two queries of a load and the assembly of their rows, against the steps of the runs. */
module Queries {
  import opened Wrappers
  import opened Types
  import opened Versions
  import opened JsonBoundary
  import opened ControlPlane
  import opened RulesetStore
  import opened Propagation

  /** Rows that the query for flags may return, in any order, before it ends. */
  ghost predicate AreFlagRows(rows: seq<FlagColumns>, db: Db, env: Id) {
    DistinctFlagKeys(rows) && forall i :: 0 <= i < |rows| ==> IsFlagRow(rows[i], db, env)
  }

  ghost predicate IsFlagRow(r: FlagColumns, db: Db, env: Id) {
    HasFlag(db, env, r.key) && r == FlagColumnsOf(db, env, r.key)
  }

  ghost predicate AreSegmentRows(rows: seq<SegmentColumns>, db: Db, env: Id) {
    DistinctSegmentKeys(rows) && forall i :: 0 <= i < |rows| ==> IsSegmentRow(rows[i], db, env)
  }

  ghost predicate IsSegmentRow(r: SegmentColumns, db: Db, env: Id) {
    HasSegment(db, env, r.key) && r == SegmentColumnsOf(db, env, r.key)
  }

  // ---- From rows to tables ----

  lemma {:induction false} FlagTableHolds(rows: seq<Row<FlagEntry>>, k: string)
    ensures k in FlagTableOf(rows) <==> exists i :: 0 <= i < |rows| && rows[i].content.flag.key == k
    ensures k in FlagTableOf(rows) ==> FlagTableOf(rows)[k] in rows && FlagTableOf(rows)[k].content.flag.key == k
  {
    if rows != [] {
      FlagTableHolds(rows[..|rows| - 1], k);
    }
  }

  lemma {:induction false} SegmentTableHolds(rows: seq<Row<Segment>>, k: string)
    ensures k in SegmentTableOf(rows) <==> exists i :: 0 <= i < |rows| && rows[i].content.key == k
    ensures k in SegmentTableOf(rows) ==> SegmentTableOf(rows)[k] in rows && SegmentTableOf(rows)[k].content.key == k
  {
    if rows != [] {
      SegmentTableHolds(rows[..|rows| - 1], k);
    }
  }

  lemma FlagRowDecodes(r: FlagColumns, db: Db, env: Id)
    requires IsFlagRow(r, db, env)
    ensures ReadFlag(r) == if ReadableFlag(db, env, r.key) then Some(FlagRow(db, env, r.key)) else None
    ensures FlagRow(db, env, r.key).content.flag.key == r.key
  {
    RowsRead(db, env, r.key);
    hide ReadFlag, ReadableFlag;
  }

  lemma SegmentRowDecodes(r: SegmentColumns, db: Db, env: Id)
    requires IsSegmentRow(r, db, env)
    ensures ReadSegment(r) == if ReadableSegment(db, env, r.key) then Some(SegmentRow(db, env, r.key)) else None
    ensures SegmentRow(db, env, r.key).content.key == r.key
  {
    RowsRead(db, env, r.key);
    hide ReadSegment, ReadableSegment;
  }

  lemma DecodedFlagAt(rows: seq<FlagColumns>, db: Db, env: Id, read: seq<Row<FlagEntry>>, i: nat)
    requires AreFlagRows(rows, db, env) && ReadItems(rows, ReadFlag) == Some(read) && i < |rows|
    ensures |read| == |rows| && HasFlag(db, env, rows[i].key) && ReadableFlag(db, env, rows[i].key)
    ensures read[i] == FlagRow(db, env, rows[i].key) && read[i].content.flag.key == rows[i].key
  {
    hide ReadFlag, ReadableFlag, HasFlag, FlagRow, ReadItems;
    assert IsFlagRow(rows[i], db, env) && ReadFlag(rows[i]) == Some(read[i]);
    FlagRowDecodes(rows[i], db, env);
  }

  lemma FlagAt(rows: seq<FlagColumns>, db: Db, env: Id, read: seq<Row<FlagEntry>>, k: string)
    requires AreFlagRows(rows, db, env) && ReadItems(rows, ReadFlag) == Some(read)
    ensures k in FlagTableOf(read) <==> exists i :: 0 <= i < |rows| && rows[i].key == k
    ensures k in FlagTableOf(read) ==>
              HasFlag(db, env, k) && ReadableFlag(db, env, k) && FlagTableOf(read)[k] == FlagRow(db, env, k)
  {
    hide ReadFlag, ReadableFlag, HasFlag, FlagRow, FlagTableOf, ReadItems, AreFlagRows;
    FlagTableHolds(read, k);
    if k in FlagTableOf(read) {
      var i: nat :| i < |read| && read[i] == FlagTableOf(read)[k];
      DecodedFlagAt(rows, db, env, read, i);
    }
    if i: nat :| i < |rows| && rows[i].key == k {
      DecodedFlagAt(rows, db, env, read, i);
    }
  }

  lemma DecodedSegmentAt(rows: seq<SegmentColumns>, db: Db, env: Id, read: seq<Row<Segment>>, i: nat)
    requires AreSegmentRows(rows, db, env) && ReadItems(rows, ReadSegment) == Some(read) && i < |rows|
    ensures |read| == |rows| && HasSegment(db, env, rows[i].key) && ReadableSegment(db, env, rows[i].key)
    ensures read[i] == SegmentRow(db, env, rows[i].key) && read[i].content.key == rows[i].key
  {
    hide ReadSegment, ReadableSegment, HasSegment, SegmentRow, ReadItems;
    assert IsSegmentRow(rows[i], db, env) && ReadSegment(rows[i]) == Some(read[i]);
    SegmentRowDecodes(rows[i], db, env);
  }

  lemma SegmentAt(rows: seq<SegmentColumns>, db: Db, env: Id, read: seq<Row<Segment>>, k: string)
    requires AreSegmentRows(rows, db, env) && ReadItems(rows, ReadSegment) == Some(read)
    ensures k in SegmentTableOf(read) <==> exists i :: 0 <= i < |rows| && rows[i].key == k
    ensures k in SegmentTableOf(read) ==>
              HasSegment(db, env, k) && ReadableSegment(db, env, k) && SegmentTableOf(read)[k] == SegmentRow(db, env, k)
  {
    hide ReadSegment, ReadableSegment, HasSegment, SegmentRow, SegmentTableOf, ReadItems, AreSegmentRows;
    SegmentTableHolds(read, k);
    if k in SegmentTableOf(read) {
      var i: nat :| i < |read| && read[i] == SegmentTableOf(read)[k];
      DecodedSegmentAt(rows, db, env, read, i);
    }
    if i: nat :| i < |rows| && rows[i].key == k {
      DecodedSegmentAt(rows, db, env, read, i);
    }
  }

  /** Rows that are all decoded make a table that the step for flags allows, and the whole table if they are
      all there are. */
  lemma FlagRowsCome(rows: seq<FlagColumns>, db: Db, env: Id, read: seq<Row<FlagEntry>>)
    requires AreFlagRows(rows, db, env) && ReadItems(rows, ReadFlag) == Some(read)
    ensures FlagsCome(FlagTableOf(read), db, env)
    ensures FlagTableOf(read) == FlagTable(db, env) <==>
            forall k :: HasFlag(db, env, k) ==> exists i :: 0 <= i < |rows| && rows[i].key == k
  {
    hide ReadFlag, ReadableFlag, HasFlag, FlagRow, FlagTableOf, ReadItems, AreFlagRows, FlagTable;
    forall k
      ensures k in FlagTableOf(read) <==> exists i :: 0 <= i < |rows| && rows[i].key == k
      ensures k in FlagTableOf(read) ==>
                HasFlag(db, env, k) && ReadableFlag(db, env, k) && FlagTableOf(read)[k] == FlagRow(db, env, k)
    {
      FlagAt(rows, db, env, read, k);
    }
  }

  lemma SegmentRowsCome(rows: seq<SegmentColumns>, db: Db, env: Id, read: seq<Row<Segment>>)
    requires AreSegmentRows(rows, db, env) && ReadItems(rows, ReadSegment) == Some(read)
    ensures SegmentsCome(SegmentTableOf(read), db, env)
    ensures SegmentTableOf(read) == SegmentTable(db, env) <==>
            forall k :: HasSegment(db, env, k) ==> exists i :: 0 <= i < |rows| && rows[i].key == k
  {
    hide ReadSegment, ReadableSegment, HasSegment, SegmentRow, SegmentTableOf, ReadItems, AreSegmentRows, SegmentTable;
    forall k
      ensures k in SegmentTableOf(read) <==> exists i :: 0 <= i < |rows| && rows[i].key == k
      ensures k in SegmentTableOf(read) ==>
                && HasSegment(db, env, k) && ReadableSegment(db, env, k)
                && SegmentTableOf(read)[k] == SegmentRow(db, env, k)
    {
      SegmentAt(rows, db, env, read, k);
    }
  }

  // ---- And back ----

  lemma ReadOneMore<S, T>(rows: seq<S>, read: seq<T>, r: S, x: T, f: S -> Option<T>)
    requires ReadItems(rows, f) == Some(read) && f(r) == Some(x)
    ensures ReadItems(rows + [r], f) == Some(read + [x])
  {
    var more := rows + [r];
    forall i | 0 <= i < |more| ensures f(more[i]) == Some((read + [x])[i]) {
      if i < |rows| {
        assert f(rows[i]) == Some(read[i]);
      }
    }
    assert ReadItems(more, f).value == read + [x];
  }

  /** Every table that the step for flags allows is what some rows of the query make. */
  lemma {:induction false} FlagRowsFor(t: Table<FlagEntry>, db: Db, env: Id)
    returns (rows: seq<FlagColumns>, read: seq<Row<FlagEntry>>)
    requires FlagsCome(t, db, env)
    ensures AreFlagRows(rows, db, env) && ReadItems(rows, ReadFlag) == Some(read) && FlagTableOf(read) == t
    ensures forall i :: 0 <= i < |rows| ==> rows[i].key in t
    decreases |t|
  {
    hide ReadFlag, ReadableFlag, HasFlag, FlagRow, FlagTable, FlagColumnsOf, ReadItems;
    if t == map[] {
      rows, read := [], [];
    } else {
      var k :| k in t;
      var rest, done := FlagRowsFor(t - {k}, db, env);
      var r := FlagColumnsOf(db, env, k);
      ColumnsKey(db, env, k);
      FlagRowDecodes(r, db, env);
      rows, read := rest + [r], done + [t[k]];
      ReadOneMore(rest, done, r, t[k], ReadFlag);
      assert read[..|read| - 1] == done;
      assert (t - {k})[k := t[k]] == t;
    }
  }

  lemma ColumnsKey(db: Db, env: Id, k: string)
    ensures HasFlag(db, env, k) ==> FlagColumnsOf(db, env, k).key == k
    ensures HasSegment(db, env, k) ==> SegmentColumnsOf(db, env, k).key == k
  {
  }

  lemma {:induction false} SegmentRowsFor(t: Table<Segment>, db: Db, env: Id)
    returns (rows: seq<SegmentColumns>, read: seq<Row<Segment>>)
    requires SegmentsCome(t, db, env)
    ensures AreSegmentRows(rows, db, env) && ReadItems(rows, ReadSegment) == Some(read) && SegmentTableOf(read) == t
    ensures forall i :: 0 <= i < |rows| ==> rows[i].key in t
    decreases |t|
  {
    hide ReadSegment, ReadableSegment, HasSegment, SegmentRow, SegmentTable, SegmentColumnsOf, ReadItems;
    if t == map[] {
      rows, read := [], [];
    } else {
      var k :| k in t;
      var rest, done := SegmentRowsFor(t - {k}, db, env);
      var r := SegmentColumnsOf(db, env, k);
      ColumnsKey(db, env, k);
      SegmentRowDecodes(r, db, env);
      rows, read := rest + [r], done + [t[k]];
      ReadOneMore(rest, done, r, t[k], ReadSegment);
      assert read[..|read| - 1] == done;
      assert (t - {k})[k := t[k]] == t;
    }
  }

  // ---- Main results ----

  /** What the assembly makes of the rows of two queries, the second one made when the database may have moved
      on, is what the two steps of the runs make. */
  lemma AssemblyIsQueries(w: World, v: World, l: nat, flagRows: seq<FlagColumns>, segmentRows: seq<SegmentColumns>,
                          rs: Ruleset, c: Copy)
    requires l in w.loaders && w.loaders[l].Ready? && |w.loaders[l].todo| > 0
    requires AreFlagRows(flagRows, w.db, w.loaders[l].todo[0])
    requires AreSegmentRows(segmentRows, v.db, w.loaders[l].todo[0])
    requires IsAssembledFrom(rs, flagRows, segmentRows)
    requires c == Copy(rs, FlagTableOf(ReadItems(flagRows, ReadFlag).value),
                       SegmentTableOf(ReadItems(segmentRows, ReadSegment).value))
    requires l in v.loaders && v.loaders[l] == HoldsFlags(w.loaders[l].todo, c.flags)
    ensures Enabled(w, QueryFlags(l, c.flags)) && Enabled(v, QuerySegments(l, c))
  {
    hide FlagsCome, SegmentsCome, FlagTableOf, SegmentTableOf, IsAssembled, AreFlagRows, AreSegmentRows;
    FlagRowsCome(flagRows, w.db, w.loaders[l].todo[0], ReadItems(flagRows, ReadFlag).value);
    SegmentRowsCome(segmentRows, v.db, w.loaders[l].todo[0], ReadItems(segmentRows, ReadSegment).value);
  }

  /** And every copy that the two steps allow is what the assembly makes of some rows of the two queries. */
  lemma QueriesAreAssembly(w: World, v: World, l: nat, c: Copy)
    returns (flagRows: seq<FlagColumns>, segmentRows: seq<SegmentColumns>)
    requires Enabled(w, QueryFlags(l, c.flags)) && Enabled(v, QuerySegments(l, c))
    requires v.loaders[l].todo == w.loaders[l].todo
    ensures var env := w.loaders[l].todo[0]; AreFlagRows(flagRows, w.db, env) && AreSegmentRows(segmentRows, v.db, env)
    ensures IsAssembledFrom(c.rs, flagRows, segmentRows)
  {
    hide FlagsCome, SegmentsCome, FlagTableOf, SegmentTableOf, IsAssembled, AreFlagRows, AreSegmentRows;
    var flags: seq<Row<FlagEntry>>;
    var segments: seq<Row<Segment>>;
    flagRows, flags := FlagRowsFor(c.flags, w.db, w.loaders[l].todo[0]);
    segmentRows, segments := SegmentRowsFor(c.segments, v.db, w.loaders[l].todo[0]);
  }
}

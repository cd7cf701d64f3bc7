/** Versioned rows, the sum of their versions, and what that sum says about a table's past. */
module Versions {

  datatype Row<+T> = Row(content: T, version: nat)

  type Table<T> = map<string, Row<T>>

  /** The aggregate version: every row's version counts once. */
  ghost function Total<T>(t: Table<T>): nat {
    if t == map[] then 0 else var k :| k in t; t[k].version + Total(t - {k})
  }

  lemma {:induction false} TotalWithout<T>(t: Table<T>, k: string)
    requires k in t
    ensures Total(t) == t[k].version + Total(t - {k})
    decreases |t|
  {
    var j :| j in t && Total(t) == t[j].version + Total(t - {j});
    if j != k {
      TotalWithout(t - {j}, k);
      TotalWithout(t - {k}, j);
      assert t - {j} - {k} == t - {k} - {j};
    }
  }

  lemma TotalAdded<T>(t: Table<T>, k: string, r: Row<T>)
    requires k !in t
    ensures Total(t[k := r]) == Total(t) + r.version
  {
    TotalWithout(t[k := r], k);
    assert t[k := r] - {k} == t;
  }

  lemma TotalReplaced<T>(t: Table<T>, k: string, r: Row<T>)
    requires k in t
    ensures Total(t[k := r]) == Total(t) - t[k].version + r.version
  {
    TotalWithout(t, k);
    TotalWithout(t[k := r], k);
    assert t[k := r] - {k} == t - {k};
  }

  ghost predicate Positive<T>(t: Table<T>) {
    forall k :: k in t ==> t[k].version > 0
  }

  ghost predicate Within<T(!new)>(s: Table<T>, t: Table<T>) {
    forall k :: k in s ==> k in t && t[k] == s[k]
  }

  /** `s` may be an earlier state of `t`, or part of one: its total is no larger, and is the same only
      if nothing is missing and nothing has changed since. */
  ghost predicate Older<T(!new)>(s: Table<T>, t: Table<T>) {
    Total(s) <= Total(t) && (Total(s) == Total(t) ==> s == t)
  }

  /** A table moves on: either nothing happens or the total grows. */
  ghost predicate Advances<T(!new)>(t: Table<T>, u: Table<T>) {
    t == u || Total(t) < Total(u)
  }

  lemma OlderStays<T(!new)>(s: Table<T>, t: Table<T>, u: Table<T>)
    requires Older(s, t) && Advances(t, u)
    ensures Older(s, u)
  {
  }

  /** Rows that a query returns before it is cut short are older, too. */
  lemma {:induction false} PartIsOlder<T(!new)>(s: Table<T>, t: Table<T>)
    requires Within(s, t) && Positive(t)
    ensures Older(s, t)
    decreases |t|
  {
    if k :| k in t && k !in s {
      TotalWithout(t, k);
      PartIsOlder(s, t - {k});
    } else {
      assert s.Keys == t.Keys;
      assert s == t;
    }
  }
}

/** Finite directed graphs given by successor sets, and the one question that both prerequisite and
    segment references raise: which nodes lead only to finite chains inside the graph? */
module Graph {

  type Graph = map<string, set<string>>

  /** Every chain of edges from `k` stays inside `g` and has at most `n` nodes. */
  ghost predicate Ranked(g: Graph, k: string, n: nat)
    decreases n
  {
    n > 0 && k in g && forall s :: s in g[k] ==> Ranked(g, s, n - 1)
  }

  ghost predicate Grounded(g: Graph, k: string) {
    Ranked(g, k, |g|)
  }

  /** A chain of edges; only its last node may lie outside `g`. */
  ghost predicate IsWalk(g: Graph, walk: seq<string>) {
    && |walk| > 0
    && forall i :: 0 <= i < |walk| - 1 ==> walk[i] in g && walk[i + 1] in g[walk[i]]
  }

  /** The walk ends outside the graph, or comes back to a node it has passed. */
  ghost predicate EndsBadly(g: Graph, walk: seq<string>)
    requires |walk| > 0
  {
    var last := walk[|walk| - 1];
    last !in g || last in walk[..|walk| - 1]
  }

  lemma {:induction false} RankedMonotone(g: Graph, k: string, n: nat, m: nat)
    requires Ranked(g, k, n) && n <= m
    ensures Ranked(g, k, m)
    decreases n
  {
    forall s | s in g[k] ensures Ranked(g, s, m - 1) {
      RankedMonotone(g, s, n - 1, m - 1);
    }
  }

  /** A least rank, together with as many nodes of `g` as that rank. */
  lemma {:induction false} LeastRank(g: Graph, k: string, n: nat) returns (r: nat, chain: set<string>)
    requires Ranked(g, k, n)
    ensures 0 < r <= n && Ranked(g, k, r) && !Ranked(g, k, r - 1)
    ensures chain <= g.Keys && |chain| == r && forall c :: c in chain ==> Ranked(g, c, r)
    decreases n
  {
    if Ranked(g, k, n - 1) {
      r, chain := LeastRank(g, k, n - 1);
    } else if n == 1 {
      r, chain := 1, {k};
    } else {
      var s :| s in g[k] && !Ranked(g, s, n - 2);
      var q, rest := LeastRank(g, s, n - 1);
      if q < n - 1 {
        RankedMonotone(g, s, q, n - 2);
      }
      r, chain := n, rest + {k};
      forall c | c in rest ensures Ranked(g, c, n) {
        RankedMonotone(g, c, n - 1, n);
      }
    }
  }

  ghost function Elements<T>(s: seq<T>): set<T> {
    set x | x in s
  }

  lemma CardinalityMonotone<T>(a: set<T>, b: set<T>)
    requires a <= b
    ensures |a| <= |b|
  {
    assert b == a + (b - a);
  }

  /** A finite bound on chains is never larger than the number of nodes. */
  lemma RankedIsGrounded(g: Graph, k: string, n: nat)
    requires Ranked(g, k, n)
    ensures Grounded(g, k)
  {
    var r, chain := LeastRank(g, k, n);
    CardinalityMonotone(chain, g.Keys);
    RankedMonotone(g, k, r, |g|);
  }

  lemma {:induction false} RankAlongWalk(g: Graph, walk: seq<string>, i: nat, n: nat)
    requires IsWalk(g, walk) && i < |walk| && Ranked(g, walk[0], n)
    ensures n > i && Ranked(g, walk[i], n - i)
  {
    if i > 0 {
      RankAlongWalk(g, walk, i - 1, n);
      assert walk[i] in g[walk[i - 1]];
    }
  }

  lemma UngroundedSuccessor(g: Graph, k: string) returns (s: string)
    requires k in g && !Grounded(g, k)
    ensures s in g[k] && !Grounded(g, s)
  {
    if forall t :: t in g[k] ==> Grounded(g, t) {
      assert Ranked(g, k, |g| + 1);
      RankedIsGrounded(g, k, |g| + 1);
    }
    s :| s in g[k] && !Grounded(g, s);
  }

  lemma {:induction false} BadWalkFrom(g: Graph, walk: seq<string>) returns (bad: seq<string>)
    requires IsWalk(g, walk) && !Grounded(g, walk[|walk| - 1])
    requires forall i, j :: 0 <= i < j < |walk| ==> walk[i] != walk[j]
    ensures IsWalk(g, bad) && bad[0] == walk[0] && EndsBadly(g, bad)
    decreases g.Keys - Elements(walk[..|walk| - 1])
  {
    var last := walk[|walk| - 1];
    if last !in g {
      bad := walk;
    } else {
      var s := UngroundedSuccessor(g, last);
      bad := walk + [s];
      assert bad[..|bad| - 1] == walk;
      if s !in walk {
        assert last in Elements(walk) && last !in Elements(walk[..|walk| - 1]);
        bad := BadWalkFrom(g, bad);
      }
    }
  }

  /** A node is ungrounded exactly when some chain of edges leaves the graph or closes a cycle. */
  lemma GroundedIff(g: Graph, k: string)
    ensures Grounded(g, k) <==> !exists walk :: IsWalk(g, walk) && walk[0] == k && EndsBadly(g, walk)
  {
    if !Grounded(g, k) {
      var bad := BadWalkFrom(g, [k]);
    } else if walk :| IsWalk(g, walk) && walk[0] == k && EndsBadly(g, walk) {
      var m := |walk| - 1;
      RankAlongWalk(g, walk, m, |g|);
      var i :| 0 <= i < m && walk[i] == walk[m];
      RankAlongWalk(g, walk, i, |g|);
      var r, _ := LeastRank(g, walk[i], |g| - i);
      var tail := walk[i..];
      RankAlongWalk(g, tail, m - i, r);
      RankedMonotone(g, walk[m], r - (m - i), r - 1);
    }
  }
}

/** What the recursion through segments computes, and how far it goes. */
module Segments {
  import opened Wrappers
  import opened Types
  import opened Values
  import opened Contexts
  import opened Clauses
  import opened Operators
  import opened Graph

  // ---- Segment references as a graph ----

  /** Segments of the store that a clause list names in `segmentMatch` clauses. */
  ghost function Refs(cs: seq<Clause>, q: Request): set<string> {
    set c, v | c in cs && c.op == "segmentMatch" && v in c.values && AsString(v, q.lib) in q.store.segments
      :: AsString(v, q.lib)
  }

  ghost function SegmentRefs(seg: Segment, q: Request): set<string> {
    set r, k | r in seg.rules && k in Refs(r.clauses, q) :: k
  }

  ghost function SegmentGraph(q: Request): Graph {
    map k | k in q.store.segments :: SegmentRefs(q.store.segments[k], q)
  }

  ghost predicate RefsRanked(cs: seq<Clause>, q: Request, n: nat) {
    forall k :: k in Refs(cs, q) ==> Ranked(SegmentGraph(q), k, n)
  }

  // ---- Acyclic references are answered within |Segments| levels ----

  lemma {:induction false} ClausesAnswered(cs: seq<Clause>, q: Request, n: nat)
    requires RefsRanked(cs, q, n)
    ensures AllClauses(cs, q, n).Some?
    decreases n, 2, |cs|
  {
    if cs != [] {
      var c := cs[0];
      if c.op == "segmentMatch" {
        forall v | v in c.values && AsString(v, q.lib) in q.store.segments
          ensures Ranked(SegmentGraph(q), AsString(v, q.lib), n)
        {
          assert c in cs && AsString(v, q.lib) in Refs(cs, q);
        }
        ReferencesAnswered(c.values, q, n);
      }
      assert Refs(cs[1..], q) <= Refs(cs, q);
      ClausesAnswered(cs[1..], q, n);
    }
  }

  lemma {:induction false} ReferencesAnswered(refs: seq<Value>, q: Request, n: nat)
    requires forall v | v in refs && AsString(v, q.lib) in q.store.segments ::
               Ranked(SegmentGraph(q), AsString(v, q.lib), n)
    ensures AnySegment(refs, q, n).Some?
    decreases n, 1, |refs|
  {
    if refs != [] {
      var k := AsString(refs[0], q.lib);
      if k in q.store.segments {
        var rules := q.store.segments[k].rules;
        forall i | 0 <= i < |rules| ensures RefsRanked(rules[i].clauses, q, n - 1) {
          assert rules[i] in rules;
          assert Refs(rules[i].clauses, q) <= SegmentGraph(q)[k];
        }
        RulesAnswered(rules, q, n - 1);
      }
      ReferencesAnswered(refs[1..], q, n);
    }
  }

  lemma {:induction false} RulesAnswered(rules: seq<SegmentRule>, q: Request, n: nat)
    requires forall i :: 0 <= i < |rules| ==> RefsRanked(rules[i].clauses, q, n)
    ensures AnyRule(rules, q, n).Some?
    decreases n, 3, |rules|
  {
    if rules != [] {
      ClausesAnswered(rules[0].clauses, q, n);
      RulesAnswered(rules[1..], q, n);
    }
  }

  /** No segment reaches itself through `segmentMatch`. */
  ghost predicate AcyclicSegments(q: Request) {
    forall k :: k in q.store.segments ==> Grounded(SegmentGraph(q), k)
  }

  lemma AcyclicIff(q: Request)
    ensures AcyclicSegments(q) <==>
            !exists walk :: IsWalk(SegmentGraph(q), walk) && |walk| > 1 && walk[|walk| - 1] in walk[..|walk| - 1]
  {
    var g := SegmentGraph(q);
    if walk :| IsWalk(g, walk) && |walk| > 1 && walk[|walk| - 1] in walk[..|walk| - 1] {
      GroundedIff(g, walk[0]);
      assert EndsBadly(g, walk);
    }
    forall k | k in g && !Grounded(g, k)
      ensures exists walk :: IsWalk(g, walk) && |walk| > 1 && walk[|walk| - 1] in walk[..|walk| - 1]
    {
      GroundedIff(g, k);
      var walk :| IsWalk(g, walk) && walk[0] == k && EndsBadly(g, walk);
      if |walk| > 1 {
        assert walk[|walk| - 1] in g[walk[|walk| - 2]];
      }
    }
  }

  /** No segment that the clauses name reaches a segment that reaches itself. */
  ghost predicate GroundedRefs(cs: seq<Clause>, q: Request) {
    forall k :: k in Refs(cs, q) ==> Grounded(SegmentGraph(q), k)
  }

  lemma GroundedAnswers(cs: seq<Clause>, q: Request, depth: nat)
    requires GroundedRefs(cs, q) && depth >= |q.store.segments|
    ensures AllClauses(cs, q, depth).Some?
  {
    var g := SegmentGraph(q);
    assert g.Keys == q.store.segments.Keys;
    forall k | k in Refs(cs, q) ensures Ranked(g, k, depth) {
      RankedMonotone(g, k, |g|, depth);
    }
    ClausesAnswered(cs, q, depth);
  }

  lemma AcyclicAnswers(cs: seq<Clause>, q: Request, depth: nat)
    requires AcyclicSegments(q) && depth >= |q.store.segments|
    ensures AllClauses(cs, q, depth).Some?
  {
    assert Refs(cs, q) <= q.store.segments.Keys;
    GroundedAnswers(cs, q, depth);
  }

  // ---- More depth never changes an answer ----

  lemma {:induction false} DeeperClauses(cs: seq<Clause>, q: Request, d: nat, e: nat)
    requires d <= e && AllClauses(cs, q, d).Some?
    ensures AllClauses(cs, q, e) == AllClauses(cs, q, d)
    decreases d, 2, |cs|
  {
    if cs != [] {
      if cs[0].op == "segmentMatch" {
        DeeperReferences(cs[0].values, q, d, e);
      }
      if OneClause(cs[0], q, d).value {
        DeeperClauses(cs[1..], q, d, e);
      }
    }
  }

  lemma {:induction false} DeeperReferences(refs: seq<Value>, q: Request, d: nat, e: nat)
    requires d <= e && AnySegment(refs, q, d).Some?
    ensures AnySegment(refs, q, e) == AnySegment(refs, q, d)
    decreases d, 1, |refs|
  {
    if refs != [] {
      var k := AsString(refs[0], q.lib);
      if k in q.store.segments {
        DeeperSegment(q.store.segments[k], q, d, e);
      }
      if k !in q.store.segments || !InSegment(q.store.segments[k], q, d).value {
        DeeperReferences(refs[1..], q, d, e);
      }
    }
  }

  lemma {:induction false} DeeperSegment(seg: Segment, q: Request, d: nat, e: nat)
    requires d <= e && InSegment(seg, q, d).Some?
    ensures InSegment(seg, q, e) == InSegment(seg, q, d)
    decreases d, 0, 0
  {
    var key := q.ctx.Key(seg.contextKind);
    if key.None? || (key.value !in seg.excluded && key.value !in seg.included) {
      DeeperRules(seg.rules, q, d - 1, e - 1);
    }
  }

  lemma {:induction false} DeeperRules(rules: seq<SegmentRule>, q: Request, d: nat, e: nat)
    requires d <= e && AnyRule(rules, q, d).Some?
    ensures AnyRule(rules, q, e) == AnyRule(rules, q, d)
    decreases d, 3, |rules|
  {
    if rules != [] {
      DeeperClauses(rules[0].clauses, q, d, e);
      if !AllClauses(rules[0].clauses, q, d).value {
        DeeperRules(rules[1..], q, d, e);
      }
    }
  }

  // ---- Membership as a solution of quantified equations ----

  ghost predicate ClauseHolds(c: Clause, q: Request, members: set<string>) {
    (if c.op == "segmentMatch" then exists v :: v in c.values && AsString(v, q.lib) in members
     else SomeRelates(c, q)) != c.negate
  }

  /** The context has a text for its key of that kind, and the text is in the list. */
  ghost predicate Listed(keys: seq<string>, kind: string, q: Request) {
    && kind in q.ctx.kinds && "key" in q.ctx.kinds[kind]
    && exists k :: k in keys && q.ctx.kinds[kind]["key"] == Text(k)
  }

  lemma ListedIff(keys: seq<string>, kind: string, q: Request)
    ensures Listed(keys, kind, q) <==> q.ctx.Key(kind).Some? && q.ctx.Key(kind).value in keys
  {
    KeyIff(q.ctx, kind);
    if k :| k in keys && Carries(q.ctx, kind, "key", Text(k)) {
      assert Listed(keys, kind, q);
    }
  }

  /** One segment's answer, if its rules' answers are sound. */
  lemma SegmentStep(seg: Segment, q: Request, d: nat, members: set<string>)
    requires d > 0 && InSegment(seg, q, d).Some?
    requires members <= q.store.segments.Keys && Agrees(members, q, d - 1)
    ensures InSegment(seg, q, d).value <==> Belongs(seg, q, members)
  {
    hide Listed, ClauseHolds, Agrees;
    ListedIff(seg.excluded, seg.contextKind, q);
    ListedIff(seg.included, seg.contextKind, q);
    if AnyRule(seg.rules, q, d - 1).Some? {
      RulesSound(seg.rules, q, d - 1, members);
    }
  }

  ghost predicate Belongs(seg: Segment, q: Request, members: set<string>) {
    && !Listed(seg.excluded, seg.contextKind, q)
    && (Listed(seg.included, seg.contextKind, q)
        || exists r :: r in seg.rules && forall c :: c in r.clauses ==> ClauseHolds(c, q, members))
  }

  /** `members` are the segments the context belongs to, by the segments' own definitions. */
  ghost predicate IsMembership(members: set<string>, q: Request) {
    && members <= q.store.segments.Keys
    && forall k :: k in q.store.segments ==> (k in members <==> Belongs(q.store.segments[k], q, members))
  }

  /** `members` says the same as every answer found within `d` levels. */
  ghost predicate Agrees(members: set<string>, q: Request, d: nat) {
    forall k :: k in q.store.segments && InSegment(q.store.segments[k], q, d).Some?
                ==> (InSegment(q.store.segments[k], q, d).value <==> k in members)
  }

  lemma {:induction false} ClausesSound(cs: seq<Clause>, q: Request, d: nat, members: set<string>)
    requires members <= q.store.segments.Keys && Agrees(members, q, d) && AllClauses(cs, q, d).Some?
    ensures AllClauses(cs, q, d).value <==> forall c :: c in cs ==> ClauseHolds(c, q, members)
  {
    if cs != [] {
      var c := cs[0];
      if c.op == "segmentMatch" {
        ReferencesSound(c.values, q, d, members);
      } else {
        AnyOpMatchIff(c, q);
      }
      assert OneClause(c, q, d).value <==> ClauseHolds(c, q, members);
      if OneClause(c, q, d).value {
        ClausesSound(cs[1..], q, d, members);
      }
      assert cs == [c] + cs[1..];
    }
  }

  lemma {:induction false} ReferencesSound(refs: seq<Value>, q: Request, d: nat, members: set<string>)
    requires members <= q.store.segments.Keys && Agrees(members, q, d) && AnySegment(refs, q, d).Some?
    ensures AnySegment(refs, q, d).value <==> exists v :: v in refs && AsString(v, q.lib) in members
  {
    if refs != [] {
      if AsString(refs[0], q.lib) !in members {
        ReferencesSound(refs[1..], q, d, members);
      }
      assert refs == [refs[0]] + refs[1..];
    }
  }

  lemma {:induction false} RulesSound(rules: seq<SegmentRule>, q: Request, d: nat, members: set<string>)
    requires members <= q.store.segments.Keys && Agrees(members, q, d) && AnyRule(rules, q, d).Some?
    ensures AnyRule(rules, q, d).value <==>
            exists r :: r in rules && forall c :: c in r.clauses ==> ClauseHolds(c, q, members)
  {
    if rules != [] {
      ClausesSound(rules[0].clauses, q, d, members);
      if !AllClauses(rules[0].clauses, q, d).value {
        RulesSound(rules[1..], q, d, members);
      }
      assert rules == [rules[0]] + rules[1..];
    }
  }

  /** Every answer the recursion gives is the one that every solution of the equations gives, on any
      store, cyclic or not. */
  lemma {:induction false} SegmentSound(q: Request, d: nat, members: set<string>)
    requires IsMembership(members, q)
    ensures Agrees(members, q, d)
  {
    if d > 0 {
      hide Belongs, InSegment;
      SegmentSound(q, d - 1, members);
      forall k | k in q.store.segments && InSegment(q.store.segments[k], q, d).Some?
        ensures InSegment(q.store.segments[k], q, d).value <==> k in members
      {
        SegmentStep(q.store.segments[k], q, d, members);
      }
    }
  }

  ghost function FoundMembers(q: Request, d: nat): set<string> {
    set k | k in q.store.segments && InSegment(q.store.segments[k], q, d) == Some(true)
  }

  lemma SegmentAnswered(k: string, q: Request)
    requires AcyclicSegments(q) && k in q.store.segments
    ensures InSegment(q.store.segments[k], q, |q.store.segments|).Some?
  {
    var g := SegmentGraph(q);
    assert g.Keys == q.store.segments.Keys && Grounded(g, k);
    var rules := q.store.segments[k].rules;
    forall i | 0 <= i < |rules| ensures RefsRanked(rules[i].clauses, q, |g| - 1) {
      assert rules[i] in rules;
      assert Refs(rules[i].clauses, q) <= g[k];
    }
    RulesAnswered(rules, q, |g| - 1);
  }

  /** With acyclic references, |Segments| levels find the one solution of the membership equations. */
  lemma MembershipUnique(q: Request)
    requires AcyclicSegments(q)
    ensures IsMembership(FoundMembers(q, |q.store.segments|), q)
    ensures forall m :: IsMembership(m, q) ==> m == FoundMembers(q, |q.store.segments|)
  {
    var d := |q.store.segments|;
    var found := FoundMembers(q, d);
    forall k | k in q.store.segments ensures InSegment(q.store.segments[k], q, d).Some? {
      SegmentAnswered(k, q);
    }
    assert Agrees(found, q, d);
    forall k | k in q.store.segments ensures k in found <==> Belongs(q.store.segments[k], q, found) {
      DeeperSegment(q.store.segments[k], q, d, d + 1);
      SegmentStep(q.store.segments[k], q, d + 1, found);
    }
    forall m | IsMembership(m, q) ensures m == found {
      SegmentSound(q, d, m);
    }
  }

  // ---- Cyclic references can stay unanswered at every depth ----

  /** The context is not listed, and the first rule starts by asking for segment `next`. */
  ghost predicate AsksFirst(seg: Segment, next: string, q: Request) {
    && !Listed(seg.excluded, seg.contextKind, q) && !Listed(seg.included, seg.contextKind, q)
    && |seg.rules| > 0 && |seg.rules[0].clauses| > 0
    && var c := seg.rules[0].clauses[0];
    && c.op == "segmentMatch" && |c.values| > 0 && AsString(c.values[0], q.lib) == next
  }

  lemma AsksFirstUnanswered(seg: Segment, next: string, q: Request, depth: nat)
    requires AsksFirst(seg, next, q) && next in q.store.segments
    requires InSegment(q.store.segments[next], q, depth) == None
    ensures InSegment(seg, q, depth + 1) == None
  {
    var rule := seg.rules[0];
    assert AnySegment(rule.clauses[0].values, q, depth) == None;
    assert AllClauses(rule.clauses, q, depth) == None;
  }

  /** Segments each of which starts by asking for the next one in the trap. */
  ghost predicate IsTrap(trap: map<string, string>, q: Request) {
    forall k {:trigger trap[k]} :: k in trap ==>
      k in q.store.segments && trap[k] in trap && AsksFirst(q.store.segments[k], trap[k], q)
  }

  lemma {:induction false} TrapUnanswered(trap: map<string, string>, k: string, q: Request, depth: nat)
    requires IsTrap(trap, q) && k in trap
    ensures InSegment(q.store.segments[k], q, depth) == None
    decreases depth
  {
    hide AsksFirst;
    if depth > 0 {
      TrapUnanswered(trap, trap[k], q, depth - 1);
      AsksFirstUnanswered(q.store.segments[k], trap[k], q, depth - 1);
    }
  }

  // ---- No other condition on the references would do ----

  ghost function Texts(keys: set<string>): (vs: seq<Value>)
    ensures forall v :: v in vs <==> v.Text? && v.s in keys
    decreases keys
  {
    if keys == {} then [] else var k :| k in keys; [Text(k)] + Texts(keys - {k})
  }

  ghost function Match(vs: seq<Value>): Clause {
    Clause("", "", "segmentMatch", vs, false)
  }

  /** A segment with no listed keys and references to `refs`, the one to `first` in front. */
  ghost function Asking(k: string, first: Option<string>, refs: set<string>): Segment {
    var rest := [Match(Texts(refs))];
    Segment(k, "user", [], [], [SegmentRule(if first.Some? then [Match([Text(first.value)])] + rest else rest)])
  }

  /** A successor from which the references never end, if there is one. */
  ghost function Endless(g: Graph, k: string): Option<string>
    requires k in g
  {
    if s :| s in g[k] && !Grounded(g, s) then Some(s) else None
  }

  lemma EndlessSuccessor(g: Graph, k: string)
    requires k in g
    ensures Endless(g, k).Some? ==> Endless(g, k).value in g[k] && !Grounded(g, Endless(g, k).value)
    ensures !Grounded(g, k) ==> Endless(g, k).Some?
  {
    if !Grounded(g, k) {
      var s := UngroundedSuccessor(g, k);
    }
  }

  ghost function Adverse(q: Request): Request {
    var g := SegmentGraph(q);
    var segments := map k | k in q.store.segments :: Asking(k, Endless(g, k), g[k]);
    q.(store := q.store.(segments := segments))
  }

  lemma AskingRefs(k: string, first: Option<string>, refs: set<string>, q: Request)
    requires refs <= q.store.segments.Keys && (first.Some? ==> first.value in refs)
    ensures SegmentRefs(Asking(k, first, refs), q) == refs
  {
    var seg := Asking(k, first, refs);
    var c := Match(Texts(refs));
    assert seg.rules[0] in seg.rules && c in seg.rules[0].clauses;
    forall s | s in refs ensures s in SegmentRefs(seg, q) {
      assert Text(s) in c.values && AsString(Text(s), q.lib) == s;
      assert s in Refs(seg.rules[0].clauses, q);
    }
  }

  lemma ReferencesStayInside(q: Request)
    ensures SegmentGraph(q).Keys == q.store.segments.Keys
    ensures forall k :: k in SegmentGraph(q) ==> SegmentGraph(q)[k] <= q.store.segments.Keys
  {
  }

  lemma AdverseKeepsReferences(q: Request)
    ensures SegmentGraph(Adverse(q)) == SegmentGraph(q)
  {
    ReferencesStayInside(q);
    hide Ranked, SegmentRefs, Asking, Endless;
    var g, a := SegmentGraph(q), Adverse(q);
    forall k | k in g ensures SegmentRefs(a.store.segments[k], a) == g[k] {
      EndlessSuccessor(g, k);
      AskingRefs(k, Endless(g, k), g[k], a);
    }
  }

  ghost predicate Answered(r: Request) {
    forall k :: k in r.store.segments ==> exists d :: InSegment(r.store.segments[k], r, d).Some?
  }

  lemma AskingAsksFirst(k: string, first: Option<string>, refs: set<string>, q: Request)
    requires first.Some?
    ensures AsksFirst(Asking(k, first, refs), first.value, q)
  {
  }

  lemma {:induction false} AdverseUnanswered(q: Request, k: string, depth: nat)
    requires k in q.store.segments && !Grounded(SegmentGraph(q), k)
    ensures InSegment(Adverse(q).store.segments[k], Adverse(q), depth) == None
    decreases depth
  {
    ReferencesStayInside(q);
    hide Ranked, SegmentRefs, AsksFirst, Asking, Endless;
    if depth > 0 {
      var g, a := SegmentGraph(q), Adverse(q);
      EndlessSuccessor(g, k);
      AskingAsksFirst(k, Endless(g, k), g[k], a);
      var next := Endless(g, k).value;
      AdverseUnanswered(q, next, depth - 1);
      AsksFirstUnanswered(a.store.segments[k], next, a, depth - 1);
    }
  }

  /** Acyclic references are exactly what it takes: every request with the same references is answered
      in full if and only if no segment reaches itself. */
  lemma AnsweredIffAcyclic(q: Request)
    ensures AcyclicSegments(q) <==> forall r: Request :: SegmentGraph(r) == SegmentGraph(q) ==> Answered(r)
  {
    hide Ranked, InSegment, SegmentRefs, Asking, Endless;
    assert SegmentGraph(q).Keys == q.store.segments.Keys;
    if AcyclicSegments(q) {
      forall r: Request, k | SegmentGraph(r) == SegmentGraph(q) && k in r.store.segments
        ensures exists d :: InSegment(r.store.segments[k], r, d).Some?
      {
        assert SegmentGraph(r).Keys == r.store.segments.Keys;
        SegmentAnswered(k, r);
      }
    } else {
      var k :| k in q.store.segments && !Grounded(SegmentGraph(q), k);
      AdverseKeepsReferences(q);
      forall d ensures InSegment(Adverse(q).store.segments[k], Adverse(q), d).None? {
        AdverseUnanswered(q, k, d);
      }
      assert !Answered(Adverse(q));
    }
  }

  /** A segment whose only rule matches itself is answered exactly for the contexts it lists. */
  lemma SelfReferenceAnsweredIff(k: string, q: Request, depth: nat)
    requires k in q.store.segments && depth > 0
    requires q.store.segments[k].rules == [SegmentRule([Clause("user", "key", "segmentMatch", [Text(k)], false)])]
    ensures InSegment(q.store.segments[k], q, depth).Some? <==>
            Listed(q.store.segments[k].excluded, q.store.segments[k].contextKind, q)
            || Listed(q.store.segments[k].included, q.store.segments[k].contextKind, q)
  {
    var seg := q.store.segments[k];
    if !Listed(seg.excluded, seg.contextKind, q) && !Listed(seg.included, seg.contextKind, q) {
      assert AsksFirst(seg, k, q);
      TrapUnanswered(map[k := k], k, q, depth);
    }
  }

  // ---- Membership grows with the included keys and shrinks with the excluded ones ----

  /** No clause asks for a context outside a segment. */
  ghost predicate Plain(cs: seq<Clause>) {
    forall c :: c in cs && c.op == "segmentMatch" ==> !c.negate
  }

  /** No clause in the region's segments does, and all their references stay in the region. */
  ghost predicate PlainRegion(region: set<string>, q: Request) {
    forall k, r :: k in region && k in q.store.segments && r in q.store.segments[k].rules ==>
      Plain(r.clauses) && Refs(r.clauses, q) <= region
  }

  /** `big` differs from `small` only by listing more included and fewer excluded keys. */
  ghost predicate WiderSegment(small: Segment, big: Segment) {
    && small.contextKind == big.contextKind && small.rules == big.rules
    && (forall x :: x in small.included ==> x in big.included)
    && (forall x :: x in big.excluded ==> x in small.excluded)
  }

  ghost predicate Wider(small: Request, big: Request) {
    && small.ctx == big.ctx && small.lib == big.lib
    && small.store.segments.Keys == big.store.segments.Keys
    && forall k :: k in small.store.segments ==> WiderSegment(small.store.segments[k], big.store.segments[k])
  }

  /** `region` holds at least the segments that the clauses reach. */
  lemma {:induction false} WiderClauses(cs: seq<Clause>, small: Request, big: Request, region: set<string>,
                                        d: nat, e: nat)
    requires Wider(small, big) && PlainRegion(region, small) && Plain(cs) && Refs(cs, small) <= region
    requires AllClauses(cs, small, d) == Some(true) && AllClauses(cs, big, e).Some?
    ensures AllClauses(cs, big, e) == Some(true)
    decreases d, 2, |cs|
  {
    if cs != [] {
      if cs[0].op == "segmentMatch" {
        forall v | v in cs[0].values && AsString(v, small.lib) in small.store.segments
          ensures AsString(v, small.lib) in region
        {
          assert cs[0] in cs && AsString(v, small.lib) in Refs(cs, small);
        }
        WiderReferences(cs[0].values, small, big, region, d, e);
      }
      assert OneClause(cs[0], big, e) == Some(true);
      assert Refs(cs[1..], small) <= Refs(cs, small);
      WiderClauses(cs[1..], small, big, region, d, e);
    }
  }

  lemma {:induction false} WiderReferences(refs: seq<Value>, small: Request, big: Request, region: set<string>,
                                           d: nat, e: nat)
    requires Wider(small, big) && PlainRegion(region, small)
    requires forall v :: v in refs && AsString(v, small.lib) in small.store.segments ==>
               AsString(v, small.lib) in region
    requires AnySegment(refs, small, d) == Some(true) && AnySegment(refs, big, e).Some?
    ensures AnySegment(refs, big, e) == Some(true)
    decreases d, 1, |refs|
  {
    var k := AsString(refs[0], small.lib);
    if k in small.store.segments && InSegment(small.store.segments[k], small, d).value {
      WiderSegments(k, small, big, region, d, e);
    } else if AnySegment(refs[1..], big, e).Some? {
      WiderReferences(refs[1..], small, big, region, d, e);
    }
  }

  /** Whatever depths the two answers took: a member stays a member. */
  lemma {:induction false} WiderSegments(k: string, small: Request, big: Request, region: set<string>, d: nat, e: nat)
    requires Wider(small, big) && PlainRegion(region, small) && k in small.store.segments && k in region
    requires InSegment(small.store.segments[k], small, d) == Some(true)
    requires InSegment(big.store.segments[k], big, e).Some?
    ensures InSegment(big.store.segments[k], big, e) == Some(true)
    decreases d, 0, 0
  {
    var s, b := small.store.segments[k], big.store.segments[k];
    var key := small.ctx.Key(s.contextKind);
    if key.None? || (key.value !in s.included && key.value !in b.included) {
      forall i | 0 <= i < |s.rules| ensures Plain(s.rules[i].clauses) && Refs(s.rules[i].clauses, small) <= region {
        assert s.rules[i] in s.rules;
      }
      WiderRules(s.rules, small, big, region, d - 1, e - 1);
    }
  }

  lemma {:induction false} WiderRules(rules: seq<SegmentRule>, small: Request, big: Request, region: set<string>,
                                      d: nat, e: nat)
    requires Wider(small, big) && PlainRegion(region, small)
    requires forall i :: 0 <= i < |rules| ==> Plain(rules[i].clauses) && Refs(rules[i].clauses, small) <= region
    requires AnyRule(rules, small, d) == Some(true) && AnyRule(rules, big, e).Some?
    ensures AnyRule(rules, big, e) == Some(true)
    decreases d, 3, |rules|
  {
    hide Refs, PlainRegion, Wider, Plain;
    if AllClauses(rules[0].clauses, small, d).value {
      WiderClauses(rules[0].clauses, small, big, region, d, e);
    } else if AllClauses(rules[0].clauses, big, e) == Some(false) {
      WiderRules(rules[1..], small, big, region, d, e);
    }
  }
}

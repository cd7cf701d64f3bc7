/** What an answer can depend on: the flags and segments that references lead to, and the attributes they name. */
module Locality {
  import opened Wrappers
  import opened Types
  import opened Contexts
  import opened Values
  import opened Clauses
  import opened Bucketing
  import opened Evaluator

  /** Flag keys, segment keys, and attributes as pairs of kind and name. */
  datatype Region = Region(flags: set<string>, segments: set<string>, attrs: set<(string, string)>)

  ghost predicate ClauseInside(c: Clause, g: Region, lib: Externals) {
    if c.op == "segmentMatch" then forall v :: v in c.values ==> AsString(v, lib) in g.segments
    else (c.contextKind, c.attribute) in g.attrs
  }

  ghost predicate ClausesInside(cs: seq<Clause>, g: Region, lib: Externals) {
    forall i :: 0 <= i < |cs| ==> ClauseInside(cs[i], g, lib)
  }

  ghost predicate SegmentInside(seg: Segment, g: Region, lib: Externals) {
    && (seg.contextKind, "key") in g.attrs
    && forall i :: 0 <= i < |seg.rules| ==> ClausesInside(seg.rules[i].clauses, g, lib)
  }

  ghost predicate PayloadInside(p: Payload, g: Region) {
    p.rollout.Some? ==>
      (p.rollout.value.contextKind, if p.rollout.value.bucketBy == "" then "key" else p.rollout.value.bucketBy) in g.attrs
  }

  ghost predicate FlagInside(f: Flag, g: Region, lib: Externals) {
    && (forall i :: 0 <= i < |f.config.prerequisites| ==> f.config.prerequisites[i].flagKey in g.flags)
    && (forall i :: 0 <= i < |f.config.targets| ==> (f.config.targets[i].contextKind, "key") in g.attrs)
    && (forall i :: 0 <= i < |f.config.rules| ==>
          ClausesInside(f.config.rules[i].clauses, g, lib) && PayloadInside(f.config.rules[i].serve, g))
    && PayloadInside(f.config.fallthrough, g)
  }

  /** References from inside the region stay inside. */
  ghost predicate IsClosed(q: Request, g: Region) {
    && (forall k :: k in g.flags && k in q.store.flags ==> FlagInside(q.store.flags[k], g, q.lib))
    && forall k :: k in g.segments && k in q.store.segments ==> SegmentInside(q.store.segments[k], g, q.lib)
  }

  /** The two requests are the same as far as the region goes. */
  ghost predicate AgreeOn(q: Request, r: Request, g: Region) {
    && q.lib == r.lib
    && (forall k :: k in g.flags ==>
          (k in q.store.flags <==> k in r.store.flags) && (k in q.store.flags ==> q.store.flags[k] == r.store.flags[k]))
    && (forall k :: k in g.segments ==>
          (k in q.store.segments <==> k in r.store.segments)
          && (k in q.store.segments ==> q.store.segments[k] == r.store.segments[k]))
    && forall kind, name, v :: (kind, name) in g.attrs ==>
         (Carries(q.ctx, kind, name, v) <==> Carries(r.ctx, kind, name, v))
  }

  lemma SameAttribute(q: Request, r: Request, g: Region, kind: string, name: string)
    requires AgreeOn(q, r, g) && (kind, name) in g.attrs
    ensures q.ctx.Attr(kind, name) == r.ctx.Attr(kind, name)
  {
    AttrIff(q.ctx, kind, name);
    AttrIff(r.ctx, kind, name);
    hide Carries;
    if v :| q.ctx.Attr(kind, name) == Some(v) {
      assert Carries(q.ctx, kind, name, v);
    }
    if v :| r.ctx.Attr(kind, name) == Some(v) {
      assert Carries(r.ctx, kind, name, v);
    }
  }

  lemma SameKey(q: Request, r: Request, g: Region, kind: string)
    requires AgreeOn(q, r, g) && (kind, "key") in g.attrs
    ensures q.ctx.Key(kind) == r.ctx.Key(kind)
  {
    SameAttribute(q, r, g, kind, "key");
  }

  lemma {:induction false} ClausesLocal(cs: seq<Clause>, q: Request, r: Request, g: Region, d: nat)
    requires ClausesInside(cs, g, q.lib) && IsClosed(q, g) && AgreeOn(q, r, g)
    ensures AllClauses(cs, q, d) == AllClauses(cs, r, d)
    decreases d, 2, |cs|
  {
    if cs != [] {
      var c := cs[0];
      assert ClauseInside(c, g, q.lib);
      if c.op == "segmentMatch" {
        ReferencesLocal(c.values, q, r, g, d);
      } else {
        SameAttribute(q, r, g, c.contextKind, c.attribute);
      }
      ClausesLocal(cs[1..], q, r, g, d);
    }
  }

  lemma {:induction false} ReferencesLocal(refs: seq<Value>, q: Request, r: Request, g: Region, d: nat)
    requires (forall v :: v in refs ==> AsString(v, q.lib) in g.segments) && IsClosed(q, g) && AgreeOn(q, r, g)
    ensures AnySegment(refs, q, d) == AnySegment(refs, r, d)
    decreases d, 1, |refs|
  {
    if refs != [] {
      var k := AsString(refs[0], q.lib);
      if k in q.store.segments && d > 0 {
        var seg := q.store.segments[k];
        assert SegmentInside(seg, g, q.lib);
        SameKey(q, r, g, seg.contextKind);
        RulesLocal(seg.rules, q, r, g, d - 1);
        assert InSegment(seg, q, d) == InSegment(seg, r, d);
      }
      ReferencesLocal(refs[1..], q, r, g, d);
    }
  }

  lemma {:induction false} RulesLocal(rules: seq<SegmentRule>, q: Request, r: Request, g: Region, d: nat)
    requires forall i :: 0 <= i < |rules| ==> ClausesInside(rules[i].clauses, g, q.lib)
    requires IsClosed(q, g) && AgreeOn(q, r, g)
    ensures AnyRule(rules, q, d) == AnyRule(rules, r, d)
    decreases d, 3, |rules|
  {
    if rules != [] {
      ClausesLocal(rules[0].clauses, q, r, g, d);
      RulesLocal(rules[1..], q, r, g, d);
    }
  }

  lemma {:induction false} TargetsLocal(f: Flag, q: Request, r: Request, g: Region, i: nat)
    requires FlagInside(f, g, q.lib) && AgreeOn(q, r, g) && i <= |f.config.targets|
    ensures FirstTarget(f.config.targets, q, i) == FirstTarget(f.config.targets, r, i)
    decreases |f.config.targets| - i
  {
    if i < |f.config.targets| {
      SameKey(q, r, g, f.config.targets[i].contextKind);
      TargetsLocal(f, q, r, g, i + 1);
    }
  }

  lemma {:induction false} FirstRuleLocal(f: Flag, q: Request, r: Request, g: Region, d: nat, i: nat)
    requires FlagInside(f, g, q.lib) && IsClosed(q, g) && AgreeOn(q, r, g) && i <= |f.config.rules|
    ensures FirstRule(f.config.rules, q, d, i) == FirstRule(f.config.rules, r, d, i)
    decreases |f.config.rules| - i
  {
    if i < |f.config.rules| {
      ClausesLocal(f.config.rules[i].clauses, q, r, g, d);
      FirstRuleLocal(f, q, r, g, d, i + 1);
    }
  }

  lemma PayloadLocal(f: Flag, p: Payload, q: Request, r: Request, g: Region)
    requires HasPayload(p) && PayloadInside(p, g) && AgreeOn(q, r, g)
    ensures PayloadVariation(f, p, q) == PayloadVariation(f, p, r)
  {
    if p.variation.None? {
      var ro := p.rollout.value;
      var name := if ro.bucketBy == "" then "key" else ro.bucketBy;
      SameAttribute(q, r, g, ro.contextKind, name);
    }
  }

  lemma OwnLocal(f: Flag, q: Request, r: Request, g: Region, d: nat)
    requires FlagInside(f, g, q.lib) && IsClosed(q, g) && AgreeOn(q, r, g)
    ensures Own(f, q, d) == Own(f, r, d)
  {
    TargetsLocal(f, q, r, g, 0);
    FirstRuleLocal(f, q, r, g, d, 0);
    forall p | HasPayload(p) && PayloadInside(p, g) ensures PayloadVariation(f, p, q) == PayloadVariation(f, p, r) {
      PayloadLocal(f, p, q, r, g);
    }
    hide IsClosed, AgreeOn, PayloadVariation, ClausesInside;
  }

  /** Two requests that agree on everything a flag's references lead to give it the same answer. */
  lemma {:induction false} EvaluationLocal(f: Flag, q: Request, r: Request, g: Region, d: nat, visiting: set<string>)
    requires FlagInside(f, g, q.lib) && IsClosed(q, g) && AgreeOn(q, r, g)
    ensures Eval(f, q, d, visiting) == Eval(f, r, d, visiting)
    decreases q.store.flags.Keys - visiting, 1, 0
  {
    if f.config.enabled {
      PrerequisitesLocal(f.config.prerequisites, q, r, g, d, visiting);
      OwnLocal(f, q, r, g, d);
    }
  }

  lemma {:induction false} PrerequisitesLocal(ps: seq<Prerequisite>, q: Request, r: Request, g: Region, d: nat,
                                              visiting: set<string>)
    requires forall i :: 0 <= i < |ps| ==> ps[i].flagKey in g.flags
    requires IsClosed(q, g) && AgreeOn(q, r, g)
    ensures PrerequisitesHold(ps, q, d, visiting) == PrerequisitesHold(ps, r, d, visiting)
    decreases q.store.flags.Keys - visiting, 0, |ps|
  {
    if ps != [] {
      var k := ps[0].flagKey;
      if k in q.store.flags && k !in visiting {
        EvaluationLocal(q.store.flags[k], q, r, g, d, visiting + {k});
      }
      PrerequisitesLocal(ps[1..], q, r, g, d, visiting);
    }
  }

  /** All contexts that lack what a rollout buckets by land on the same entry. */
  lemma AbsentAttributeLandsTogether(f: Flag, ro: Rollout, q: Request, r: Request)
    requires q.lib == r.lib
    requires var name := if ro.bucketBy == "" then "key" else ro.bucketBy;
             && (ro.contextKind in q.ctx.kinds ==> name !in q.ctx.kinds[ro.contextKind])
             && (ro.contextKind in r.ctx.kinds ==> name !in r.ctx.kinds[ro.contextKind])
    ensures RolloutVariation(f, ro, q) == RolloutVariation(f, ro, r)
    ensures HashInput(f, ro, q) == f.key + "." + f.salt + "."
  {
    assert f.key + "." + f.salt + "." + "" == f.key + "." + f.salt + ".";
  }
}

/** Clause and segment matching (sdk/go/flageval/clauses.go).

    Clauses reach segments through `segmentMatch`, and segments reach clauses through their rules; the
    source puts no bound on that recursion.  `depth` bounds how many segments may be open at once, and
    `None` means that the answer needs more than that. */
module Clauses {
  import opened Wrappers
  import opened Types
  import opened Contexts
  import opened Values

  /** What every step of one evaluation reads. */
  datatype Request = Request(store: Store, ctx: Context, lib: Externals)

  predicate OpMatch(op: string, ctxVal: Value, target: Value, lib: Externals) {
    match op
    case "in" => EqualAny(ctxVal, target)
    case "startsWith" => AsString(target, lib) <= AsString(ctxVal, lib)
    case "endsWith" => HasSuffix(AsString(ctxVal, lib), AsString(target, lib))
    case "contains" => Contains(AsString(ctxVal, lib), AsString(target, lib))
    case "matches" => lib.regexMatches(AsString(target, lib), AsString(ctxVal, lib))
    case "lessThan" => var ab := AsNumbers(ctxVal, target); ab.Some? && ab.value.0 < ab.value.1
    case "greaterThan" => var ab := AsNumbers(ctxVal, target); ab.Some? && ab.value.0 > ab.value.1
    case _ => false
  }

  predicate AnyOpMatch(c: Clause, q: Request) {
    var v := q.ctx.Attr(c.contextKind, c.attribute);
    v.Some? && exists i :: 0 <= i < |c.values| && OpMatch(c.op, v.value, c.values[i], q.lib)
  }

  // ---- Specification: the answers as functions ----

  function AllClauses(cs: seq<Clause>, q: Request, depth: nat): Option<bool>
    decreases depth, 3, |cs|
  {
    if cs == [] then Some(true)
    else
      var b :- OneClause(cs[0], q, depth);
      if b then AllClauses(cs[1..], q, depth) else Some(false)
  }

  function OneClause(c: Clause, q: Request, depth: nat): Option<bool>
    decreases depth, 2, 0
  {
    var b :- if c.op == "segmentMatch" then AnySegment(c.values, q, depth) else Some(AnyOpMatch(c, q));
    Some(b != c.negate)
  }

  function AnySegment(refs: seq<Value>, q: Request, depth: nat): Option<bool>
    decreases depth, 1, |refs|
  {
    if refs == [] then Some(false)
    else
      var k := AsString(refs[0], q.lib);
      var b :- if k in q.store.segments then InSegment(q.store.segments[k], q, depth) else Some(false);
      if b then Some(true) else AnySegment(refs[1..], q, depth)
  }

  function InSegment(seg: Segment, q: Request, depth: nat): Option<bool>
    decreases depth, 0, 0
  {
    if depth == 0 then None
    else
      var key := q.ctx.Key(seg.contextKind);
      if key.Some? && key.value in seg.excluded then Some(false)
      else if key.Some? && key.value in seg.included then Some(true)
      else AnyRule(seg.rules, q, depth - 1)
  }

  function AnyRule(rules: seq<SegmentRule>, q: Request, depth: nat): Option<bool>
    decreases depth, 4, |rules|
  {
    if rules == [] then Some(false)
    else
      var b :- AllClauses(rules[0].clauses, q, depth);
      if b then Some(true) else AnyRule(rules[1..], q, depth)
  }

  // ---- The loops of the source ----

  method MatchClauses(cs: seq<Clause>, q: Request, depth: nat) returns (r: Option<bool>)
    ensures r == AllClauses(cs, q, depth)
    decreases depth, 3
  {
    for i := 0 to |cs|
      invariant AllClauses(cs, q, depth) == AllClauses(cs[i..], q, depth)
    {
      var b :- MatchClause(cs[i], q, depth);
      assert cs[i..][1..] == cs[i + 1..];
      if !b {
        return Some(false);
      }
    }
    r := Some(true);
  }

  method MatchClause(c: Clause, q: Request, depth: nat) returns (r: Option<bool>)
    ensures r == OneClause(c, q, depth)
    decreases depth, 2
  {
    var res := false;
    if c.op == "segmentMatch" {
      res :- AnySegmentMatch(c.values, q, depth);
    } else {
      var v := q.ctx.Attr(c.contextKind, c.attribute);
      if v.Some? {
        for i := 0 to |c.values|
          invariant !res && forall j :: 0 <= j < i ==> !OpMatch(c.op, v.value, c.values[j], q.lib)
        {
          if OpMatch(c.op, v.value, c.values[i], q.lib) {
            res := true;
            break;
          }
        }
      }
      assert res == AnyOpMatch(c, q);
    }
    r := Some(if c.negate then !res else res);
  }

  method AnySegmentMatch(refs: seq<Value>, q: Request, depth: nat) returns (r: Option<bool>)
    ensures r == AnySegment(refs, q, depth)
    decreases depth, 1
  {
    for i := 0 to |refs|
      invariant AnySegment(refs, q, depth) == AnySegment(refs[i..], q, depth)
    {
      assert refs[i..][1..] == refs[i + 1..];
      var k := AsString(refs[i], q.lib);
      if k in q.store.segments {
        var b :- SegmentContains(q.store.segments[k], q, depth);
        if b {
          return Some(true);
        }
      }
    }
    r := Some(false);
  }

  method SegmentContains(seg: Segment, q: Request, depth: nat) returns (r: Option<bool>)
    ensures r == InSegment(seg, q, depth)
    decreases depth, 0
  {
    if depth == 0 {
      return None;
    }
    var key := q.ctx.Key(seg.contextKind);
    if key.Some? {
      for i := 0 to |seg.excluded|
        invariant key.value !in seg.excluded[..i]
      {
        if seg.excluded[i] == key.value {
          return Some(false);
        }
      }
      for i := 0 to |seg.included|
        invariant key.value !in seg.included[..i]
      {
        if seg.included[i] == key.value {
          return Some(true);
        }
      }
      assert seg.excluded[..|seg.excluded|] == seg.excluded && seg.included[..|seg.included|] == seg.included;
    }
    for i := 0 to |seg.rules|
      invariant InSegment(seg, q, depth) == AnyRule(seg.rules[i..], q, depth - 1)
    {
      var b :- MatchClauses(seg.rules[i].clauses, q, depth - 1);
      assert seg.rules[i..][1..] == seg.rules[i + 1..];
      if b {
        return Some(true);
      }
    }
    r := Some(false);
  }
}

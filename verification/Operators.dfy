/** What the clause operators mean, stated over the raw attributes of a context and apart from the code that
    compares values (sdk/go/flageval/clauses.go, values.go). */
module Operators {
  import opened Wrappers
  import opened Types
  import opened Contexts
  import opened Values
  import opened Clauses

  /** Attribute value `v` and listed value `x` are in the relation that the operator names. */
  ghost predicate Relates(op: string, v: Value, x: Value, lib: Externals) {
    var s, t := AsString(v, lib), AsString(x, lib);
    if op == "in" then v == x && (v.Text? || v.Bool? || v.Number?)
    else if op == "startsWith" then exists rest: string :: s == t + rest
    else if op == "endsWith" then exists front: string :: s == front + t
    else if op == "contains" then exists front: string, rest: string :: s == front + t + rest
    else if op == "matches" then lib.regexMatches(t, s)
    else if op == "lessThan" then v.Number? && x.Number? && v.n < x.n
    else if op == "greaterThan" then v.Number? && x.Number? && v.n > x.n
    else false
  }

  lemma PrefixIff(s: string, t: string)
    ensures t <= s <==> exists rest: string :: s == t + rest
  {
    if t <= s {
      assert s == t + s[|t|..];
    }
  }

  lemma SuffixIff(s: string, t: string)
    ensures HasSuffix(s, t) <==> exists front: string :: s == front + t
  {
    if HasSuffix(s, t) {
      assert s == s[..|s| - |t|] + t;
    }
    if front: string :| s == front + t {
      assert s[|s| - |t|..] == t;
    }
  }

  lemma ContainsIff(s: string, t: string)
    ensures Contains(s, t) <==> exists front: string, rest: string :: s == front + t + rest
  {
    if i :| 0 <= i <= |s| && t <= s[i..] {
      assert s == s[..i] + t + s[i + |t|..];
    }
    if front: string, rest: string :| s == front + t + rest {
      assert s[|front|..] == t + rest;
      assert t <= s[|front|..];
    }
  }

  lemma OpMatchRelates(op: string, v: Value, x: Value, lib: Externals)
    ensures OpMatch(op, v, x, lib) <==> Relates(op, v, x, lib)
  {
    var s, t := AsString(v, lib), AsString(x, lib);
    PrefixIff(s, t);
    SuffixIff(s, t);
    ContainsIff(s, t);
    hide HasSuffix, Contains, AsString;
  }

  /** The context has the clause's attribute, and it relates to one of the listed values. */
  ghost predicate SomeRelates(c: Clause, q: Request) {
    exists v, x :: Carries(q.ctx, c.contextKind, c.attribute, v) && x in c.values && Relates(c.op, v, x, q.lib)
  }

  lemma AnyOpMatchIff(c: Clause, q: Request)
    ensures AnyOpMatch(c, q) <==> SomeRelates(c, q)
  {
    AttrIff(q.ctx, c.contextKind, c.attribute);
    forall v, x ensures OpMatch(c.op, v, x, q.lib) <==> Relates(c.op, v, x, q.lib) {
      OpMatchRelates(c.op, v, x, q.lib);
    }
    hide OpMatch, Relates;
    if SomeRelates(c, q) {
      var v, x :| Carries(q.ctx, c.contextKind, c.attribute, v) && x in c.values && Relates(c.op, v, x, q.lib);
      var i :| 0 <= i < |c.values| && c.values[i] == x;
      assert OpMatch(c.op, v, c.values[i], q.lib);
    }
  }

  /** What a clause that names no segments answers, operator by operator. */
  lemma ClauseAnswers(c: Clause, q: Request, depth: nat)
    requires c.op != "segmentMatch"
    ensures OneClause(c, q, depth) == Some(SomeRelates(c, q) != c.negate)
  {
    AnyOpMatchIff(c, q);
  }

  ghost predicate Yes(c: Clause, q: Request, depth: nat) {
    OneClause(c, q, depth) == Some(true)
  }

  /** Comparisons are of numbers with numbers. */
  lemma ComparisonsHoldIff(c: Clause, q: Request, depth: nat)
    requires !c.negate
    ensures c.op == "lessThan" ==>
              (Yes(c, q, depth) <==>
               exists x, y :: Carries(q.ctx, c.contextKind, c.attribute, Number(x)) && Number(y) in c.values && x < y)
    ensures c.op == "greaterThan" ==>
              (Yes(c, q, depth) <==>
               exists x, y :: Carries(q.ctx, c.contextKind, c.attribute, Number(x)) && Number(y) in c.values && x > y)
  {
    if c.op == "lessThan" || c.op == "greaterThan" {
      ClauseAnswers(c, q, depth);
      hide OneClause, Carries;
      if v, x :| Carries(q.ctx, c.contextKind, c.attribute, v) && x in c.values && Relates(c.op, v, x, q.lib) {
        assert v == Number(v.n) && x == Number(x.n);
      }
      if x, y :| Carries(q.ctx, c.contextKind, c.attribute, Number(x)) && Number(y) in c.values
                 && if c.op == "lessThan" then x < y else x > y {
        assert Relates(c.op, Number(x), Number(y), q.lib);
      }
    }
  }

  /** `in` is equality of texts, bools and numbers; lists, objects and null are in nothing. */
  lemma InHoldsIff(c: Clause, q: Request, depth: nat)
    requires !c.negate && c.op == "in"
    ensures Yes(c, q, depth) <==>
            exists v :: Carries(q.ctx, c.contextKind, c.attribute, v) && v in c.values
                        && (v.Text? || v.Bool? || v.Number?)
  {
    ClauseAnswers(c, q, depth);
    hide OneClause, Carries;
    if v :| Carries(q.ctx, c.contextKind, c.attribute, v) && v in c.values && (v.Text? || v.Bool? || v.Number?) {
      assert Relates(c.op, v, v, q.lib);
    }
  }

  ghost predicate RenderedAs(c: Clause, q: Request, s: string) {
    exists v :: Carries(q.ctx, c.contextKind, c.attribute, v) && AsString(v, q.lib) == s
  }

  ghost predicate ListedAs(c: Clause, q: Request, t: string) {
    exists x :: x in c.values && AsString(x, q.lib) == t
  }

  /** Operators on texts compare what the attribute and a listed value are rendered as. */
  lemma TextOperatorsHoldIff(c: Clause, q: Request, depth: nat)
    requires !c.negate
    ensures c.op == "startsWith" ==>
              (Yes(c, q, depth) <==> exists t, rest :: ListedAs(c, q, t) && RenderedAs(c, q, t + rest))
    ensures c.op == "endsWith" ==>
              (Yes(c, q, depth) <==> exists t, front :: ListedAs(c, q, t) && RenderedAs(c, q, front + t))
    ensures c.op == "contains" ==>
              (Yes(c, q, depth) <==> exists t, front, rest :: ListedAs(c, q, t) && RenderedAs(c, q, front + t + rest))
  {
    if c.op in ["startsWith", "endsWith", "contains"] {
      ClauseAnswers(c, q, depth);
      hide OneClause, Carries, AsString;
      if v, x :| Carries(q.ctx, c.contextKind, c.attribute, v) && x in c.values && Relates(c.op, v, x, q.lib) {
        assert RenderedAs(c, q, AsString(v, q.lib)) && ListedAs(c, q, AsString(x, q.lib));
      }
    }
  }

  /** `before`, `after`, the semVer operators and unknown ones never hold. */
  lemma OtherOperatorsNeverHold(c: Clause, q: Request, depth: nat)
    requires !c.negate
    requires c.op !in ["in", "startsWith", "endsWith", "contains", "matches", "lessThan", "greaterThan", "segmentMatch"]
    ensures OneClause(c, q, depth) == Some(false)
  {
    ClauseAnswers(c, q, depth);
  }
}

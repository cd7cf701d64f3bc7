/** What the rendering of values is: the string that is hashed, and that text operators and segment names compare
    (sdk/go/flageval/values.go). */
module Rendering {
  import opened Types
  import opened Contexts
  import opened Values
  import opened Clauses
  import opened Bucketing

  // ---- Decimal numerals, by the places of their digits ----

  predicate IsDigit(c: char) {
    '0' <= c <= '9'
  }

  function Digit(c: char): nat
    requires IsDigit(c)
  {
    c as int - '0' as int
  }

  function TenTo(n: nat): nat {
    if n == 0 then 1 else 10 * TenTo(n - 1)
  }

  predicate AllDigits(s: string) {
    forall i :: 0 <= i < |s| ==> IsDigit(s[i])
  }

  /** Each digit counts for its place. */
  function Positional(s: string): nat
    requires AllDigits(s)
  {
    if s == "" then 0 else Digit(s[0]) * TenTo(|s| - 1) + Positional(s[1..])
  }

  /** Digits without leading zeros, standing for `n`. */
  ghost predicate IsNumeral(s: string, n: nat) {
    && |s| > 0 && AllDigits(s) && (|s| > 1 ==> s[0] != '0')
    && Positional(s) == n
  }

  /** A minus sign in front of the numeral of a negative number. */
  ghost predicate IsSignedNumeral(s: string, n: int) {
    if n < 0 then |s| > 0 && s[0] == '-' && IsNumeral(s[1..], -n) else IsNumeral(s, n)
  }

  lemma {:induction false} PositionalSnoc(s: string, c: char)
    requires AllDigits(s) && IsDigit(c)
    ensures AllDigits(s + [c]) && Positional(s + [c]) == 10 * Positional(s) + Digit(c)
  {
    assert TenTo(0) == 1;
    hide TenTo, Digit;
    if s != "" {
      PositionalSnoc(s[1..], c);
      assert (s + [c])[1..] == s[1..] + [c] && (s + [c])[0] == s[0];
      NextPlace(Digit(s[0]), |s| - 1);
    }
  }

  lemma NextPlace(d: nat, n: nat)
    ensures d * TenTo(n + 1) == 10 * (d * TenTo(n))
  {
  }

  lemma DecimalDigit(d: nat)
    requires d < 10
    ensures IsDigit("0123456789"[d]) && Digit("0123456789"[d]) == d
  {
  }

  lemma {:induction false} DecimalIsNumeral(n: nat)
    ensures IsNumeral(Decimal(n), n) && (n > 0 ==> Decimal(n)[0] != '0')
  {
    if n < 10 {
      DecimalDigit(n);
      assert Positional(Decimal(n)[1..]) == 0;
    } else {
      DecimalIsNumeral(n / 10);
      DecimalDigit(n % 10);
      PositionalSnoc(Decimal(n / 10), "0123456789"[n % 10]);
    }
  }

  /** A numeral ends in the last digit of its number. */
  lemma NumeralLast(s: string, n: nat)
    requires IsNumeral(s, n)
    ensures Digit(s[|s| - 1]) == n % 10
    ensures AllDigits(s[..|s| - 1]) && Positional(s[..|s| - 1]) == n / 10
    ensures |s| == 1 <==> n < 10
    ensures |s| > 1 ==> IsNumeral(s[..|s| - 1], n / 10)
  {
    var front, c := s[..|s| - 1], s[|s| - 1];
    assert s == front + [c];
    PositionalSnoc(front, c);
    if |s| > 1 {
      LeadingDigit(front);
    }
  }

  lemma {:induction false} TenToPositive(n: nat)
    ensures TenTo(n) > 0
  {
    if n > 0 {
      TenToPositive(n - 1);
    }
  }

  lemma LeadingDigit(s: string)
    requires |s| > 0 && AllDigits(s) && s[0] != '0'
    ensures Positional(s) > 0
  {
    TenToPositive(|s| - 1);
    assert Digit(s[0]) * TenTo(|s| - 1) >= 1;
  }

  lemma {:induction false} NumeralUnique(s: string, t: string, n: nat)
    requires IsNumeral(s, n) && IsNumeral(t, n)
    ensures s == t
    decreases n
  {
    NumeralLast(s, n);
    NumeralLast(t, n);
    if n >= 10 {
      NumeralUnique(s[..|s| - 1], t[..|t| - 1], n / 10);
    }
    assert s == s[..|s| - 1] + [s[|s| - 1]] && t == t[..|t| - 1] + [t[|t| - 1]];
  }

  // ---- Rendering ----

  /** Integers in int64 are rendered as their decimal numerals. */
  lemma IntegerRenders(n: int, lib: Externals)
    requires -0x8000_0000_0000_0000 <= n < 0x8000_0000_0000_0000
    ensures IsSignedNumeral(AsString(Number(n as real), lib), n)
  {
    if n < 0 {
      DecimalIsNumeral(-n);
      assert Decimal(n)[1..] == Decimal(-n);
    } else {
      DecimalIsNumeral(n);
    }
  }

  /** Of every other value: texts are themselves, bools their names, and what is neither text, bool nor number
      is empty. */
  lemma OthersRender(v: Value, lib: Externals)
    ensures v.Text? ==> AsString(v, lib) == v.s
    ensures v == Bool(true) ==> AsString(v, lib) == "true"
    ensures v == Bool(false) ==> AsString(v, lib) == "false"
    ensures v.Null? || v.List? || v.Object? ==> AsString(v, lib) == ""
  {
  }

  lemma SignedNumeralUnique(s: string, t: string, n: int)
    requires IsSignedNumeral(s, n) && IsSignedNumeral(t, n)
    ensures s == t
  {
    if n < 0 {
      NumeralUnique(s[1..], t[1..], -n);
      assert s == ['-'] + s[1..] && t == ['-'] + t[1..];
    } else {
      NumeralUnique(s, t, n);
    }
  }

  /** A context with an integer for its key, or whatever the rollout buckets by, gets the entry of the context
      with that number written as a text. */
  lemma IntegersHashAsTexts(flag: Flag, r: Rollout, q: Request, p: Request, n: int, s: string)
    requires -0x8000_0000_0000_0000 <= n < 0x8000_0000_0000_0000 && IsSignedNumeral(s, n) && p.lib == q.lib
    requires var name := if r.bucketBy == "" then "key" else r.bucketBy;
             Carries(q.ctx, r.contextKind, name, Number(n as real)) && Carries(p.ctx, r.contextKind, name, Text(s))
    ensures RolloutVariation(flag, r, q) == RolloutVariation(flag, r, p)
    ensures HashInput(flag, r, q) == flag.key + "." + flag.salt + "." + s
  {
    IntegerRenders(n, q.lib);
    SignedNumeralUnique(AsString(Number(n as real), q.lib), s, n);
    hide AsString, IsSignedNumeral, GoPick;
    assert AsString(Text(s), p.lib) == s by { OthersRender(Text(s), p.lib); }
  }
}

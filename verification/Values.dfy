/** Rendering and comparison of attribute values (sdk/go/flageval/values.go), and the foreign
    functions the evaluator calls. */
module Values {
  import opened Wrappers
  import opened Types

  /** The first fifteen hex digits of a SHA-1 digest (FIPS 180-4, section 6.1), read as a number. */
  type Prefix = n: nat | n < 0x1000_0000_0000_0000

  /** Functions whose values the model leaves open. */
  datatype Externals = Externals(
    sha1Prefix: string -> Prefix,
    regexMatches: (string, string) -> bool,   // pattern, text; false for a pattern that does not compile
    formatNumber: real -> string)             // numbers that are not integral, or not in int64

  const TWO_63: int := 0x8000_0000_0000_0000

  function Decimal(n: int): string
    decreases n < 0, if n < 0 then -n else n
  {
    if n < 0 then "-" + Decimal(-n)
    else if n < 10 then ["0123456789"[n]]
    else Decimal(n / 10) + ["0123456789"[n % 10]]
  }

  function AsString(v: Value, lib: Externals): string {
    match v
    case Text(s) => s
    case Bool(b) => if b then "true" else "false"
    case Number(n) =>
      if n.Floor as real == n && -TWO_63 <= n.Floor < TWO_63 then Decimal(n.Floor) else lib.formatNumber(n)
    case _ => ""
  }

  predicate EqualAny(a: Value, b: Value) {
    match (a, b)
    case (Text(s), Text(t)) => s == t
    case (Bool(s), Bool(t)) => s == t
    case (Number(s), Number(t)) => s == t
    case _ => false
  }

  function AsNumbers(a: Value, b: Value): Option<(real, real)> {
    if a.Number? && b.Number? then Some((a.n, b.n)) else None
  }

  predicate HasSuffix(s: string, t: string) {
    |t| <= |s| && s[|s| - |t|..] == t
  }

  predicate Contains(s: string, t: string) {
    exists i {:trigger s[i..]} :: 0 <= i <= |s| && t <= s[i..]
  }
}

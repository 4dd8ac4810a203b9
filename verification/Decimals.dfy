/** Decimal numerals as strings: one numeral per number, digits only. */
module Decimals {
  import opened CodeUnits

  const ZERO: CodeUnit := 48
  const COLON: CodeUnit := 58

  predicate Digit(c: CodeUnit) { ZERO <= c < COLON }

  function Decimal(n: nat): (t: Text)
    ensures t != [] && forall i :: 0 <= i < |t| ==> Digit(t[i])
  {
    var last := (48 + n % 10) as CodeUnit;
    if n < 10 then [last] else Decimal(n / 10) + [last]
  }

  /** The number a numeral stands for. */
  function ValueOf(t: Text): int
  {
    if |t| == 0 then 0 else 10 * ValueOf(t[..|t| - 1]) + t[|t| - 1] as int - 48
  }

  lemma {:induction false} DecimalReadsBack(n: nat)
    ensures ValueOf(Decimal(n)) == n
  {
    if n >= 10 {
      DecimalReadsBack(n / 10);
      var t := Decimal(n);
      assert t[..|t| - 1] == Decimal(n / 10);
    } else {
      assert Decimal(n)[..0] == [];
    }
  }

  lemma MarkInside<T>(p: seq<T>, q: seq<T>, mark: T, r: seq<T>, s: seq<T>)
    requires |p| < |q| && p + [mark] + r == q + [mark] + s
    ensures mark in q
  {
    assert q[|p|] == (p + [mark] + r)[|p|];
  }

  /** Splitting at the first `mark` is unambiguous when neither prefix contains it. */
  lemma SplitAtFirst<T>(p: seq<T>, q: seq<T>, mark: T, r: seq<T>, s: seq<T>)
    requires mark !in p && mark !in q && p + [mark] + r == q + [mark] + s
    ensures p == q && r == s
  {
    if |p| < |q| { MarkInside(p, q, mark, r, s); }
    if |q| < |p| { MarkInside(q, p, mark, s, r); }
    var all := p + [mark] + r;
    assert p == all[..|p|] && q == all[..|q|];
    assert r == all[|p| + 1..] && s == all[|q| + 1..];
  }
}

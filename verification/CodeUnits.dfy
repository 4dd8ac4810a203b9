/**
 * Strings as the program compares them: sequences of UTF-16 code units, ordered unit by unit
 * (`a < b` on strings), never by locale. Also the lexicographic order on pairs of them.
 */
module CodeUnits {

  newtype CodeUnit = u: int | 0 <= u < 0x1_0000

  type Text = seq<CodeUnit>

  /** `a < b` on strings. */
  predicate Less(a: Text, b: Text)
  {
    b != [] && (a == [] || a[0] < b[0] || (a[0] == b[0] && Less(a[1..], b[1..])))
  }

  /** The sign the comparator of `sort` returns. */
  function CompareCodeUnits(a: Text, b: Text): int
  {
    if Less(a, b) then -1 else if Less(b, a) then 1 else 0
  }

  /** The texts agree up to `k`, where `a` ends first or has the smaller unit. */
  predicate LessAt(a: Text, b: Text, k: nat)
  {
    k <= |a| && k < |b| && a[..k] == b[..k] && (k == |a| || a[k] < b[k])
  }

  lemma {:induction false} LessExactly(a: Text, b: Text)
    ensures Less(a, b) <==> exists k :: LessAt(a, b, k)
  {
    if a == [] {
      if b != [] { assert LessAt(a, b, 0); }
    } else if b != [] && a[0] == b[0] {
      LessExactly(a[1..], b[1..]);
      if k: nat :| LessAt(a[1..], b[1..], k) {
        assert a[..k + 1] == [a[0]] + a[1..][..k] && b[..k + 1] == [b[0]] + b[1..][..k];
        assert LessAt(a, b, k + 1);
      }
      if k: nat :| LessAt(a, b, k) {
        assert a[1..][..k - 1] == a[1..k] && b[1..][..k - 1] == b[1..k];
        assert a[..k][1..] == a[1..k] && b[..k][1..] == b[1..k];
        assert LessAt(a[1..], b[1..], k - 1);
      }
    } else if b != [] {
      if a[0] < b[0] { assert LessAt(a, b, 0); }
      if k: nat :| LessAt(a, b, k) {
        if k > 0 { assert a[..k][0] == a[0] && b[..k][0] == b[0]; }
      }
    }
  }

  lemma {:induction false} LessIrreflexive(a: Text)
    ensures !Less(a, a)
  {
    if a != [] { LessIrreflexive(a[1..]); }
  }

  lemma {:induction false} LessTransitive(a: Text, b: Text, c: Text)
    requires Less(a, b) && Less(b, c)
    ensures Less(a, c)
  {
    if a != [] && a[0] == b[0] == c[0] { LessTransitive(a[1..], b[1..], c[1..]); }
  }

  lemma {:induction false} LessTotal(a: Text, b: Text)
    ensures Less(a, b) || a == b || Less(b, a)
  {
    if a != [] && b != [] && a[0] == b[0] {
      LessTotal(a[1..], b[1..]);
      assert a == [a[0]] + a[1..] && b == [b[0]] + b[1..];
    }
  }

  /** The comparator is zero on equal strings only, so a sort by it merges nothing and drops nothing. */
  lemma CompareZeroIffEqual(a: Text, b: Text)
    ensures CompareCodeUnits(a, b) == 0 <==> a == b
    ensures CompareCodeUnits(a, b) == -CompareCodeUnits(b, a)
  {
    LessTotal(a, b);
    LessIrreflexive(a);
    if Less(a, b) && Less(b, a) { LessTransitive(a, b, a); }
  }
}

/**
 * Strings as a database sees them: UTF-16 decoded to code points, the form in which a text is sent to
 * it (section 3.9 of the Unicode Standard). A surrogate without its other half is sent as U+FFFD.
 */
module CodePoints {
  import opened CodeUnits

  const REPLACEMENT: nat := 0xFFFD

  predicate High(u: CodeUnit) { 0xD800 <= u < 0xDC00 }

  predicate Low(u: CodeUnit) { 0xDC00 <= u < 0xE000 }

  predicate Paired(t: Text) { |t| > 1 && High(t[0]) && Low(t[1]) }

  function Pair(high: CodeUnit, low: CodeUnit): nat
    requires High(high) && Low(low)
  {
    0x1_0000 + (high as nat - 0xD800) * 0x400 + (low as nat - 0xDC00)
  }

  /** The characters of a string: what SQL's `length` counts. */
  function Points(t: Text): seq<nat>
  {
    if t == [] then []
    else if Paired(t) then [Pair(t[0], t[1])] + Points(t[2..])
    else [if High(t[0]) || Low(t[0]) then REPLACEMENT else t[0] as nat] + Points(t[1..])
  }

  /** Every surrogate has its other half. */
  predicate WellFormed(t: Text)
  {
    t == [] || (if Paired(t) then WellFormed(t[2..]) else !High(t[0]) && !Low(t[0]) && WellFormed(t[1..]))
  }

  predicate IsPoint(p: nat) { p < 0xD800 || 0xE000 <= p < 0x11_0000 }

  /** UTF-16. */
  function Encoded(points: seq<nat>): Text
    requires forall i :: 0 <= i < |points| ==> IsPoint(points[i])
  {
    if points == [] then [] else EncodedPoint(points[0]) + Encoded(points[1..])
  }

  function EncodedPoint(p: nat): Text
    requires IsPoint(p)
  {
    if p < 0x1_0000 then [p as CodeUnit]
    else [(0xD800 + (p - 0x1_0000) / 0x400) as CodeUnit, (0xDC00 + (p - 0x1_0000) % 0x400) as CodeUnit]
  }

  lemma PairReadsBack(high: CodeUnit, low: CodeUnit)
    requires High(high) && Low(low)
    ensures IsPoint(Pair(high, low)) && EncodedPoint(Pair(high, low)) == [high, low]
  {
    var h, l := high as nat - 0xD800, low as nat - 0xDC00;
    assert (h * 0x400 + l) / 0x400 == h && (h * 0x400 + l) % 0x400 == l;
  }

  lemma {:induction false} PointsAreValid(t: Text)
    ensures forall i :: 0 <= i < |Points(t)| ==> IsPoint(Points(t)[i])
    decreases |t|
  {
    if t != [] {
      if Paired(t) {
        PairReadsBack(t[0], t[1]);
        PointsAreValid(t[2..]);
      } else {
        PointsAreValid(t[1..]);
      }
    }
  }

  /** Decoding loses nothing of a well-formed string. */
  lemma {:induction false} EncodedPoints(t: Text)
    requires WellFormed(t)
    ensures (forall i :: 0 <= i < |Points(t)| ==> IsPoint(Points(t)[i])) && Encoded(Points(t)) == t
    decreases |t|
  {
    PointsAreValid(t);
    if t != [] {
      var n := if Paired(t) then 2 else 1;
      if Paired(t) { PairReadsBack(t[0], t[1]); }
      EncodedPoints(t[n..]);
      assert Points(t)[1..] == Points(t[n..]);
      assert EncodedPoint(Points(t)[0]) == t[..n];
      assert t == t[..n] + t[n..];
    }
  }

  /** Two well-formed strings with the same characters are the same. */
  lemma PointsAreInjective(a: Text, b: Text)
    requires WellFormed(a) && WellFormed(b) && Points(a) == Points(b)
    ensures a == b
  {
    EncodedPoints(a);
    EncodedPoints(b);
  }
}

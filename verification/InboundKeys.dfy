/**
 * The storage key of an inbound request (src/inbound/inbound.idempotency.ts): a string as it is, or
 * parts escaped and joined with colons, so that no part can forge the boundary of another.
 */
module InboundKeys {
  import opened Common
  import opened CodeUnits
  import opened Decimals
  import opened InboundStore

  const PERCENT: CodeUnit := 37
  const ESCAPED_PERCENT: Text := [37, 50, 53]
  const ESCAPED_COLON: Text := [37, 51, 65]

  /** `t.replace(/c/g, with)`. */
  function Replace(t: Text, c: CodeUnit, with: Text): Text
  {
    if |t| == 0 then [] else (if t[0] == c then with else [t[0]]) + Replace(t[1..], c, with)
  }

  /** The two replacements, one after the other. */
  function EscapePart(t: Text): Text
  {
    Replace(Replace(t, PERCENT, ESCAPED_PERCENT), COLON, ESCAPED_COLON)
  }

  /** What each character becomes. */
  function EscapeOne(c: CodeUnit): Text
  {
    if c == PERCENT then ESCAPED_PERCENT else if c == COLON then ESCAPED_COLON else [c]
  }

  function EscapeEach(t: Text): Text
  {
    if |t| == 0 then [] else EscapeOne(t[0]) + EscapeEach(t[1..])
  }

  lemma {:induction false} ReplaceAppend(s: Text, t: Text, c: CodeUnit, with: Text)
    ensures Replace(s + t, c, with) == Replace(s, c, with) + Replace(t, c, with)
  {
    if |s| > 0 {
      assert (s + t)[0] == s[0] && (s + t)[1..] == s[1..] + t;
      ReplaceAppend(s[1..], t, c, with);
    } else {
      assert s + t == t;
    }
  }

  lemma {:induction false} ReplaceNone(t: Text, c: CodeUnit, with: Text)
    requires c !in t
    ensures Replace(t, c, with) == t
  {
    if |t| > 0 { ReplaceNone(t[1..], c, with); }
  }

  /** The two passes escape each character once: the second never touches what the first wrote. */
  lemma {:induction false} TwoPassesAreOne(t: Text)
    ensures EscapePart(t) == EscapeEach(t)
  {
    if |t| > 0 {
      var rest := Replace(t[1..], PERCENT, ESCAPED_PERCENT);
      var head := if t[0] == PERCENT then ESCAPED_PERCENT else [t[0]];
      ReplaceAppend(head, rest, COLON, ESCAPED_COLON);
      TwoPassesAreOne(t[1..]);
      ReplaceHead(t[0]);
    }
  }

  lemma ReplaceHead(c: CodeUnit)
    ensures Replace(if c == PERCENT then ESCAPED_PERCENT else [c], COLON, ESCAPED_COLON) == EscapeOne(c)
  {
    if c == PERCENT {
      ReplaceNone(ESCAPED_PERCENT, COLON, ESCAPED_COLON);
    } else {
      assert [c][1..] == [];
      assert Replace([], COLON, ESCAPED_COLON) == [];
    }
  }

  /** Reads an escaped part back. */
  function Unescape(t: Text): Text
  {
    if |t| == 0 then []
    else if ESCAPED_PERCENT <= t then [PERCENT] + Unescape(t[3..])
    else if ESCAPED_COLON <= t then [COLON] + Unescape(t[3..])
    else [t[0]] + Unescape(t[1..])
  }

  lemma UnescapeHead(c: CodeUnit, rest: Text)
    ensures Unescape(EscapeOne(c) + rest) == [c] + Unescape(rest)
  {
    var t := EscapeOne(c) + rest;
    if c == PERCENT || c == COLON {
      assert t[0] == 37 && t[1] == (if c == PERCENT then 50 else 51) && t[2] == if c == PERCENT then 53 else 65;
      assert t[3..] == rest;
    } else {
      assert t[0] == c && t[1..] == rest;
    }
  }

  lemma {:induction false} UnescapeEscape(t: Text)
    ensures Unescape(EscapeEach(t)) == t
    ensures COLON !in EscapeEach(t)
  {
    if |t| > 0 {
      UnescapeEscape(t[1..]);
      UnescapeHead(t[0], EscapeEach(t[1..]));
      assert t == [t[0]] + t[1..];
    }
  }

  // ---- Joining and splitting.

  function Join(parts: seq<Text>): Text
  {
    if |parts| == 0 then [] else if |parts| == 1 then parts[0] else parts[0] + [COLON] + Join(parts[1..])
  }

  /** Splits at every colon. */
  function Split(t: Text): (parts: seq<Text>)
    ensures |parts| >= 1
  {
    if |t| == 0 then [[]]
    else
      var rest := Split(t[1..]);
      if t[0] == COLON then [[]] + rest else [[t[0]] + rest[0]] + rest[1..]
  }

  lemma {:induction false} SplitOne(p: Text)
    requires COLON !in p
    ensures Split(p) == [p]
  {
    if |p| > 0 {
      SplitOne(p[1..]);
      assert p == [p[0]] + p[1..];
    }
  }

  lemma {:induction false} SplitFirst(p: Text, rest: Text)
    requires COLON !in p
    ensures Split(p + [COLON] + rest) == [p] + Split(rest)
    decreases |p|
  {
    var t := p + [COLON] + rest;
    if |p| > 0 {
      SplitFirst(p[1..], rest);
      assert t[0] == p[0] && t[1..] == p[1..] + [COLON] + rest;
      assert p == [p[0]] + p[1..];
    } else {
      assert t[0] == COLON && t[1..] == rest;
    }
  }

  lemma {:induction false} SplitJoin(parts: seq<Text>)
    requires |parts| > 0 && forall i :: 0 <= i < |parts| ==> COLON !in parts[i]
    ensures Split(Join(parts)) == parts
  {
    if |parts| == 1 {
      SplitOne(parts[0]);
    } else {
      SplitJoin(parts[1..]);
      SplitFirst(parts[0], Join(parts[1..]));
    }
  }

  // ---- Keys.

  /** `Numeral` is what a finite number prints as. */
  datatype Part = String(text: Text) | Number(numeral: Text) | Malformed

  datatype Key = Whole(text: Text) | Parts(parts: seq<Part>)

  predicate NumeralOk(t: Text) { t != [] && COLON !in t && PERCENT !in t }

  predicate PartOk(p: Part)
  {
    match p
    case String(text) => text != []
    case Number(numeral) => true
    case Malformed => false
  }

  /** What a part reads as. */
  function TextOf(p: Part): Text
  {
    match p
    case String(text) => text
    case Number(numeral) => numeral
    case Malformed => []
  }

  function Texts(parts: seq<Part>): (texts: seq<Text>)
    ensures |texts| == |parts|
  {
    seq(|parts|, i requires 0 <= i < |parts| => TextOf(parts[i]))
  }

  function EncodePart(p: Part): Result<Text, ()>
  {
    match p
    case String(text) => if text != [] then Ok(EscapePart(text)) else Err(())
    case Number(numeral) => Ok(numeral)
    case Malformed => Err(())
  }

  ghost predicate NumeralsOk(parts: seq<Part>)
  {
    forall i :: 0 <= i < |parts| && parts[i].Number? ==> NumeralOk(parts[i].numeral)
  }

  function EncodedParts(parts: seq<Part>): (encoded: seq<Text>)
    ensures |encoded| == |parts|
  {
    seq(|parts|, i requires 0 <= i < |parts| => EscapeEach(TextOf(parts[i])))
  }

  predicate KeyOk(key: Key)
  {
    match key
    case Whole(text) => text != []
    case Parts(parts) => parts != [] && forall i :: 0 <= i < |parts| ==> PartOk(parts[i])
  }

  lemma {:induction false} NumeralNeedsNoEscape(t: Text)
    requires COLON !in t && PERCENT !in t
    ensures EscapeEach(t) == t
  {
    if |t| > 0 { NumeralNeedsNoEscape(t[1..]); }
  }

  /** Refuses what is empty or no part; the parts are escaped and joined. */
  method EncodeInboundKey(key: Key) returns (encoded: Result<Text, ()>)
    requires key.Parts? ==> NumeralsOk(key.parts)
    ensures encoded.Ok? <==> KeyOk(key)
    ensures encoded.Ok? ==> encoded.value == if key.Whole? then key.text else Join(EncodedParts(key.parts))
  {
    match key
    case Whole(text) => encoded := if text != [] then Ok(text) else Err(());
    case Parts(parts) =>
      if parts == [] { return Err(()); }
      var texts: seq<Text> := [];
      for i := 0 to |parts|
        invariant |texts| == i
        invariant forall j :: 0 <= j < i ==> PartOk(parts[j]) && texts[j] == EncodedParts(parts)[j]
      {
        var part := EncodePart(parts[i]);
        if part.Err? { return Err(()); }
        TwoPassesAreOne(TextOf(parts[i]));
        if parts[i].Number? { NumeralNeedsNoEscape(parts[i].numeral); }
        texts := texts + [part.value];
      }
      assert texts == EncodedParts(parts);
      encoded := Ok(Join(texts));
  }

  function Decode(t: Text): (texts: seq<Text>)
    ensures |texts| == |Split(t)|
  {
    var split := Split(t);
    seq(|split|, i requires 0 <= i < |split| => Unescape(split[i]))
  }

  /** Splitting and unescaping reads back the parts of every array key. */
  lemma DecodeEncode(parts: seq<Part>)
    requires |parts| > 0
    ensures Decode(Join(EncodedParts(parts))) == Texts(parts)
  {
    var encoded := EncodedParts(parts);
    forall i | 0 <= i < |parts| ensures COLON !in encoded[i] && Unescape(encoded[i]) == TextOf(parts[i]) {
      UnescapeEscape(TextOf(parts[i]));
    }
    SplitJoin(encoded);
  }

  /**
   * Two array keys are one storage key exactly when their parts read the same; arrays of strings never
   * collide unless they are equal.
   */
  lemma ArraysCollideExactly(parts: seq<Part>, others: seq<Part>)
    requires |parts| > 0 && |others| > 0
    ensures Join(EncodedParts(parts)) == Join(EncodedParts(others)) <==> Texts(parts) == Texts(others)
    ensures AllStrings(parts) && AllStrings(others) ==>
      (Join(EncodedParts(parts)) == Join(EncodedParts(others)) <==> parts == others)
  {
    DecodeEncode(parts);
    DecodeEncode(others);
    if Texts(parts) == Texts(others) {
      assert forall i :: 0 <= i < |parts| ==> Texts(parts)[i] == TextOf(parts[i]);
      assert forall i :: 0 <= i < |parts| ==> Texts(others)[i] == TextOf(others[i]);
      assert EncodedParts(parts) == EncodedParts(others);
      if AllStrings(parts) && AllStrings(others) {
        assert forall i :: 0 <= i < |parts| ==> parts[i] == others[i];
      }
    }
  }

  predicate AllStrings(parts: seq<Part>) { forall i :: 0 <= i < |parts| ==> parts[i].String? }

  /** A number and the string it prints as are the same part; a plain string can spell an array key. */
  lemma KnownCollisions()
    ensures Join(EncodedParts([Number([55])])) == Join(EncodedParts([String([55])]))
    ensures Join(EncodedParts([String([97]), String([98])])) == [97, COLON, 98]
  {
    assert EscapeEach([55]) == [55] by { NumeralNeedsNoEscape([55]); }
    NumeralNeedsNoEscape([97]);
    NumeralNeedsNoEscape([98]);
    assert EncodedParts([String([97]), String([98])]) == [[97], [98]];
    assert EncodedParts([Number([55])]) == EncodedParts([String([55])]);
    assert [[97], [98]][1..] == [[98]];
  }

  // ---- `scope::key`, the text under which the stores keep a pair (src/idempotency/idempotency-store.ts).

  function StorageKey(id: Id): Text { id.scope + [COLON, COLON] + id.key }

  /** No two colons in a row, and none at the end. */
  predicate Unambiguous(scope: Text)
  {
    forall i :: 0 <= i < |scope| && scope[i] == COLON ==> i + 1 < |scope| && scope[i + 1] != COLON
  }

  lemma CharAt(id: Id, i: nat)
    requires i < |id.scope| + 2
    ensures StorageKey(id)[i] == if i < |id.scope| then id.scope[i] else COLON
  {
  }

  lemma ShorterScopeDiffers(id: Id, other: Id)
    requires Unambiguous(id.scope) && |other.scope| < |id.scope|
    ensures StorageKey(id) != StorageKey(other)
  {
    var i := |other.scope|;
    CharAt(other, i);
    CharAt(other, i + 1);
    CharAt(id, i);
    CharAt(id, i + 1);
  }

  /** An ambiguous scope shares the storage key of every key with a shorter scope. */
  lemma AmbiguousCollides(id: Id) returns (other: Id)
    requires !Unambiguous(id.scope)
    ensures |other.scope| < |id.scope| && StorageKey(other) == StorageKey(id)
  {
    var i :| 0 <= i < |id.scope| && id.scope[i] == COLON && (i + 1 < |id.scope| ==> id.scope[i + 1] == COLON);
    if i + 1 == |id.scope| {
      other := Id(id.scope[..i], [COLON] + id.key);
      assert id.scope == id.scope[..i] + [COLON];
    } else {
      other := Id(id.scope[..i], id.scope[i + 2..] + [COLON, COLON] + id.key);
      assert id.scope == id.scope[..i] + [COLON, COLON] + id.scope[i + 2..];
    }
  }

  /** Storage keys identify pairs exactly as long as scopes are unambiguous. */
  lemma StorageKeyExactly(scope: Text)
    ensures Unambiguous(scope) <==> forall key, other: Id :: |other.scope| < |scope| ==> Separate(Id(scope, key), other)
  {
    if Unambiguous(scope) {
      forall key, other: Id | |other.scope| < |scope| ensures Separate(Id(scope, key), other) {
        ShorterScopeDiffers(Id(scope, key), other);
      }
    } else {
      var other := AmbiguousCollides(Id(scope, []));
      assert !Separate(Id(scope, []), other);
    }
  }

  predicate Separate(id: Id, other: Id) { StorageKey(id) != StorageKey(other) }

  lemma StorageKeyIsInjective(id: Id, other: Id)
    requires Unambiguous(id.scope) && Unambiguous(other.scope) && StorageKey(id) == StorageKey(other)
    ensures id == other
  {
    if |other.scope| < |id.scope| { ShorterScopeDiffers(id, other); }
    if |id.scope| < |other.scope| { ShorterScopeDiffers(other, id); }
    var t, n := StorageKey(id), |id.scope|;
    assert id.scope == t[..n] && other.scope == t[..n];
    assert id.key == t[n + 2..] && other.key == t[n + 2..];
  }
}

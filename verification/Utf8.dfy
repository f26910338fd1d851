// TextEncoder: UTF-16 text to UTF-8 bytes (RFC 3629), and why two well-formed texts never share bytes.
module Utf8 {
  import opened Wrappers
  import opened Jcs

  type Byte = b: int | 0 <= b < 0x100
  type Bytes = seq<Byte>

  type CodePoint = c: int | 0 <= c < 0x11_0000

  function Pair(high: CodeUnit, low: CodeUnit): CodePoint
    requires HighSurrogate(high) && LowSurrogate(low)
  {
    0x1_0000 + (high - 0xd800) * 0x400 + (low - 0xdc00)
  }

  function EncodePoint(c: CodePoint): (r: Bytes)
    ensures 1 <= |r| <= 4
  {
    if c < 0x80 then [c]
    else if c < 0x800 then [0xc0 + c / 0x40, 0x80 + c % 0x40]
    else if c < 0x1_0000 then [0xe0 + c / 0x40 / 0x40, 0x80 + c / 0x40 % 0x40, 0x80 + c % 0x40]
    else [0xf0 + c / 0x40 / 0x40 / 0x40, 0x80 + c / 0x40 / 0x40 % 0x40, 0x80 + c / 0x40 % 0x40, 0x80 + c % 0x40]
  }

  // Half a pair encodes as the replacement character.
  const REPLACEMENT: CodePoint := 0xfffd

  function Encode(s: Text): Bytes {
    if s == [] then []
    else if HighSurrogate(s[0]) && |s| > 1 && LowSurrogate(s[1]) then EncodePoint(Pair(s[0], s[1])) + Encode(s[2..])
    else if HighSurrogate(s[0]) || LowSurrogate(s[0]) then EncodePoint(REPLACEMENT) + Encode(s[1..])
    else EncodePoint(s[0]) + Encode(s[1..])
  }

  // How many bytes the character starting here has, by its first byte.
  function Width(lead: Byte): (n: nat) {
    if lead < 0x80 then 1 else if lead < 0xe0 then 2 else if lead < 0xf0 then 3 else 4
  }

  function PointOf(b: Bytes): int
    requires 1 <= |b| <= 4
  {
    var lead: int := b[0];
    if |b| == 1 then lead
    else if |b| == 2 then Continue(lead - 0xc0, b[1])
    else if |b| == 3 then Continue(Continue(lead - 0xe0, b[1]), b[2])
    else Continue(Continue(Continue(lead - 0xf0, b[1]), b[2]), b[3])
  }

  function Continue(high: int, b: Byte): int {
    high * 0x40 + b - 0x80
  }

  // The code units of a character.
  function Units(c: int): Option<Text> {
    if 0 <= c < 0x1_0000 then Some([c])
    else if 0x1_0000 <= c < 0x11_0000 then Some([0xd800 + (c - 0x1_0000) / 0x400, 0xdc00 + (c - 0x1_0000) % 0x400])
    else None
  }

  function Decode(b: Bytes): Option<Text> {
    if b == [] then Some([])
    else
      var n := Width(b[0]);
      if |b| < n then None
      else
        var units := Units(PointOf(b[..n]));
        var rest := Decode(b[n..]);
        if units.None? || rest.None? then None else Some(units.value + rest.value)
  }

  lemma PointRoundTrip(c: CodePoint)
    ensures Width(EncodePoint(c)[0]) == |EncodePoint(c)|
    ensures PointOf(EncodePoint(c)) == c
  {
    var q := c / 0x40;
    var p := q / 0x40;
    assert c == q * 0x40 + c % 0x40 && q == p * 0x40 + q % 0x40 && p == p / 0x40 * 0x40 + p % 0x40;
  }

  lemma DecodeStep(c: CodePoint, rest: Bytes)
    ensures Decode(EncodePoint(c) + rest)
      == if Units(c).None? || Decode(rest).None? then None else Some(Units(c).value + Decode(rest).value)
  {
    PointRoundTrip(c);
    var e := EncodePoint(c);
    assert (e + rest)[0] == e[0] && (e + rest)[..|e|] == e && (e + rest)[|e|..] == rest;
  }

  lemma PairRoundTrip(high: CodeUnit, low: CodeUnit)
    requires HighSurrogate(high) && LowSurrogate(low)
    ensures Units(Pair(high, low)) == Some([high, low])
  {
  }

  lemma WellFormedTail(s: Text, n: nat)
    requires WellFormed(s) && n <= |s| && (n == 0 || !HighSurrogate(s[n - 1]))
    ensures WellFormed(s[n..])
  {
    forall i | 0 <= i < |s[n..]| ensures PairedAt(s[n..], i) { assert PairedAt(s, n + i); }
  }

  lemma DecodePair(high: CodeUnit, low: CodeUnit, rest: Text)
    requires HighSurrogate(high) && LowSurrogate(low) && Decode(Encode(rest)) == Some(rest)
    ensures Decode(Encode([high, low] + rest)) == Some([high, low] + rest)
  {
    assert ([high, low] + rest)[2..] == rest;
    DecodeStep(Pair(high, low), Encode(rest));
    PairRoundTrip(high, low);
  }

  lemma DecodeUnit(c: CodeUnit, rest: Text)
    requires !HighSurrogate(c) && !LowSurrogate(c) && Decode(Encode(rest)) == Some(rest)
    ensures Decode(Encode([c] + rest)) == Some([c] + rest)
  {
    assert ([c] + rest)[1..] == rest;
    DecodeStep(c, Encode(rest));
  }

  // Well-formed text comes back from its bytes.
  lemma {:induction false} DecodeEncode(s: Text)
    requires WellFormed(s)
    ensures Decode(Encode(s)) == Some(s)
    decreases |s|
  {
    if s != [] {
      assert PairedAt(s, 0);
      if HighSurrogate(s[0]) {
        WellFormedTail(s, 2);
        DecodeEncode(s[2..]);
        assert [s[0], s[1]] + s[2..] == s;
        DecodePair(s[0], s[1], s[2..]);
      } else {
        WellFormedTail(s, 1);
        DecodeEncode(s[1..]);
        assert [s[0]] + s[1..] == s;
        DecodeUnit(s[0], s[1..]);
      }
    }
  }

  lemma EncodeInjective(s: Text, t: Text)
    requires WellFormed(s) && WellFormed(t) && Encode(s) == Encode(t)
    ensures s == t
  {
    DecodeEncode(s);
    DecodeEncode(t);
  }

  // ---- without the surrogate check ----

  // The text with the replacement character for every unpaired surrogate.
  function Repaired(s: Text): Text {
    if s == [] then []
    else if HighSurrogate(s[0]) && |s| > 1 && LowSurrogate(s[1]) then [s[0], s[1]] + Repaired(s[2..])
    else if HighSurrogate(s[0]) || LowSurrogate(s[0]) then [REPLACEMENT] + Repaired(s[1..])
    else [s[0]] + Repaired(s[1..])
  }

  lemma WellFormedConcat(s: Text, t: Text)
    requires WellFormed(s) && WellFormed(t)
    ensures WellFormed(s + t)
  {
    forall i | 0 <= i < |s + t| ensures PairedAt(s + t, i) {
      if i < |s| { assert PairedAt(s, i); } else { assert PairedAt(t, i - |s|); }
    }
  }

  lemma {:induction false} RepairedIsWellFormed(s: Text)
    ensures WellFormed(Repaired(s))
    decreases |s|
  {
    if s != [] {
      if HighSurrogate(s[0]) && |s| > 1 && LowSurrogate(s[1]) {
        RepairedIsWellFormed(s[2..]);
        WellFormedConcat([s[0], s[1]], Repaired(s[2..]));
      } else {
        RepairedIsWellFormed(s[1..]);
        var first: CodeUnit := if HighSurrogate(s[0]) || LowSurrogate(s[0]) then REPLACEMENT else s[0];
        WellFormedConcat([first], Repaired(s[1..]));
      }
    }
  }

  // Repairing changes no byte.
  lemma {:induction false} RepairedEncodes(s: Text)
    ensures Encode(Repaired(s)) == Encode(s)
    decreases |s|
  {
    if s != [] {
      if HighSurrogate(s[0]) && |s| > 1 && LowSurrogate(s[1]) {
        RepairedEncodes(s[2..]);
        assert Repaired(s)[2..] == Repaired(s[2..]);
      } else {
        RepairedEncodes(s[1..]);
        assert Repaired(s)[1..] == Repaired(s[1..]);
      }
    }
  }

  // Two texts share their bytes exactly if they differ in nothing but what stands for their unpaired surrogates.
  lemma SameBytesExactly(s: Text, t: Text)
    ensures Encode(s) == Encode(t) <==> Repaired(s) == Repaired(t)
  {
    RepairedEncodes(s);
    RepairedEncodes(t);
    RepairedIsWellFormed(s);
    RepairedIsWellFormed(t);
    if Encode(s) == Encode(t) { EncodeInjective(Repaired(s), Repaired(t)); }
  }

  lemma {:induction false} WellFormedIsRepaired(s: Text)
    requires WellFormed(s)
    ensures Repaired(s) == s
    decreases |s|
  {
    if s != [] {
      assert PairedAt(s, 0);
      if HighSurrogate(s[0]) {
        WellFormedTail(s, 2);
        WellFormedIsRepaired(s[2..]);
        assert [s[0], s[1]] + s[2..] == s;
      } else {
        WellFormedTail(s, 1);
        WellFormedIsRepaired(s[1..]);
        assert [s[0]] + s[1..] == s;
      }
    }
  }

  // Without a replacement character afterwards nothing was repaired.
  lemma {:induction false} NothingRepaired(s: Text)
    requires REPLACEMENT !in Repaired(s)
    ensures Repaired(s) == s
    decreases |s|
  {
    if s != [] {
      if HighSurrogate(s[0]) && |s| > 1 && LowSurrogate(s[1]) {
        assert forall c <- Repaired(s[2..]) :: c in Repaired(s);
        NothingRepaired(s[2..]);
        assert [s[0], s[1]] + s[2..] == s;
      } else {
        assert forall c <- Repaired(s[1..]) :: c in Repaired(s);
        assert Repaired(s)[0] in Repaired(s);
        NothingRepaired(s[1..]);
        assert [s[0]] + s[1..] == s;
      }
    }
  }

  const LONE: CodeUnit := 0xdc00

  lemma RivalHere(s: Text)
    requires WellFormed(s) && s != [] && s[0] == REPLACEMENT
    ensures Repaired([LONE] + s[1..]) == s
  {
    WellFormedTail(s, 1);
    WellFormedIsRepaired(s[1..]);
    assert ([LONE] + s[1..])[1..] == s[1..];
    assert [s[0]] + s[1..] == s;
  }

  // A lone low surrogate in the place of a replacement character.
  lemma {:induction false} Rival(s: Text, i: nat)
    requires WellFormed(s) && i < |s| && s[i] == REPLACEMENT
    ensures Repaired(s[i := LONE]) == s
    decreases |s|
  {
    var t := s[i := LONE];
    assert PairedAt(s, 0);
    if i == 0 {
      RivalHere(s);
      assert t == [LONE] + s[1..];
    } else if HighSurrogate(s[0]) {
      WellFormedTail(s, 2);
      Rival(s[2..], i - 2);
      assert t == [s[0], s[1]] + s[2..][i - 2 := LONE];
      RepairsBehind([s[0], s[1]], s[2..][i - 2 := LONE]);
      assert [s[0], s[1]] + s[2..] == s;
    } else {
      WellFormedTail(s, 1);
      Rival(s[1..], i - 1);
      assert t == [s[0]] + s[1..][i - 1 := LONE];
      RepairsBehind([s[0]], s[1..][i - 1 := LONE]);
      assert [s[0]] + s[1..] == s;
    }
  }

  // One whole character in front is kept.
  lemma RepairsBehind(first: Text, rest: Text)
    requires (|first| == 1 && !HighSurrogate(first[0]) && !LowSurrogate(first[0]))
      || (|first| == 2 && HighSurrogate(first[0]) && LowSurrogate(first[1]))
    ensures Repaired(first + rest) == first + Repaired(rest)
  {
    var all := first + rest;
    assert all[|first|..] == rest;
    assert first == if |first| == 1 then [all[0]] else [all[0], all[1]];
  }

  // A text is told apart from all others by its bytes exactly if it has no unpaired surrogate and no replacement
  // character: the check in serializeString cannot be dropped, and with it nothing collides among what it accepts.
  lemma ToldApartExactly(s: Text)
    ensures (forall t :: Encode(t) == Encode(s) ==> t == s) <==> WellFormed(s) && REPLACEMENT !in s
  {
    RepairedEncodes(s);
    RepairedIsWellFormed(s);
    if WellFormed(s) && REPLACEMENT !in s {
      forall t | Encode(t) == Encode(s) ensures t == s {
        SameBytesExactly(s, t);
        WellFormedIsRepaired(s);
        NothingRepaired(t);
      }
    } else if WellFormed(s) {
      var i :| 0 <= i < |s| && s[i] == REPLACEMENT;
      Rival(s, i);
      RepairedEncodes(s[i := LONE]);
      assert Encode(s[i := LONE]) == Encode(s) && s[i := LONE] != s;
    } else {
      assert Encode(Repaired(s)) == Encode(s) && Repaired(s) != s;
    }
  }

  // The smallest case.
  lemma LoneSurrogatesCollide()
    ensures Encode([0xd800]) == Encode([0xdc00]) == Encode([REPLACEMENT])
  {
    assert Encode([]) == [];
  }

  // ---- canonical text is well formed ----

  lemma EscapePair(s: Text)
    requires |s| >= 2 && HighSurrogate(s[0]) && LowSurrogate(s[1])
    ensures Escape(s) == [s[0], s[1]] + Escape(s[2..])
  {
    assert s[1..][0] == s[1] && s[1..][1..] == s[2..];
    assert Escape(s[1..]) == [s[1]] + Escape(s[2..]);
  }

  lemma {:induction false} EscapeWellFormed(s: Text)
    requires WellFormed(s)
    ensures WellFormed(Escape(s))
  {
    if s != [] {
      assert PairedAt(s, 0);
      if HighSurrogate(s[0]) {
        WellFormedTail(s, 2);
        EscapeWellFormed(s[2..]);
        EscapePair(s);
        WellFormedConcat([s[0], s[1]], Escape(s[2..]));
      } else {
        WellFormedTail(s, 1);
        EscapeWellFormed(s[1..]);
        WellFormedConcat(EscapeUnit(s[0]), Escape(s[1..]));
      }
    }
  }

  lemma QuoteWellFormed(s: Text)
    requires WellFormed(s)
    ensures WellFormed(Quote(s))
  {
    EscapeWellFormed(s);
    WellFormedConcat([QUOTE], Escape(s));
    WellFormedConcat([QUOTE] + Escape(s), [QUOTE]);
  }

  lemma {:induction false} PrintWellFormed(v: Value)
    requires StringsOk(v)
    ensures WellFormed(Print(v))
    decreases v, 1
  {
    match v
    case Null =>
    case Bool(b) =>
    case Str(s) => QuoteWellFormed(s);
    case Arr(items) =>
      ItemsWellFormed(items);
      WellFormedConcat([LBRACKET], PrintItems(items));
      WellFormedConcat([LBRACKET] + PrintItems(items), [RBRACKET]);
    case Obj(fields) =>
      FieldsWellFormed(fields);
      WellFormedConcat([LBRACE], PrintFields(fields));
      WellFormedConcat([LBRACE] + PrintFields(fields), [RBRACE]);
  }

  lemma {:induction false} ItemsWellFormed(items: seq<Value>)
    requires forall i :: 0 <= i < |items| ==> StringsOk(items[i])
    ensures WellFormed(PrintItems(items))
    decreases items, 0
  {
    if items != [] {
      PrintWellFormed(items[0]);
      ItemsWellFormed(items[1..]);
      WellFormedConcat(Print(items[0]), [COMMA]);
      WellFormedConcat(Print(items[0]) + [COMMA], PrintItems(items[1..]));
    }
  }

  lemma {:induction false} FieldsWellFormed(fields: seq<Field>)
    requires forall i :: 0 <= i < |fields| ==> WellFormed(fields[i].key) && StringsOk(fields[i].value)
    ensures WellFormed(PrintFields(fields))
    decreases fields, 0
  {
    if fields != [] {
      var f := fields[0];
      QuoteWellFormed(f.key);
      PrintWellFormed(f.value);
      WellFormedConcat(Quote(f.key), [COLON]);
      WellFormedConcat(Quote(f.key) + [COLON], Print(f.value));
      FieldsWellFormed(fields[1..]);
      WellFormedConcat(PrintField(f), [COMMA]);
      WellFormedConcat(PrintField(f) + [COMMA], PrintFields(fields[1..]));
    }
  }

  lemma {:induction false} NormalStringsOk(v: Value)
    requires StringsOk(v)
    ensures StringsOk(Normal(v))
  {
    match v
    case Arr(items) => forall i | 0 <= i < |items| ensures StringsOk(Normal(items[i])) { NormalStringsOk(items[i]); }
    case Obj(fields) =>
      var normal := NormalFields(fields);
      forall i | 0 <= i < |fields| ensures WellFormed(normal[i].key) && StringsOk(normal[i].value) {
        NormalStringsOk(fields[i].value);
      }
      SortKeeps(normal);
      var sorted := SortFields(normal);
      forall i | 0 <= i < |sorted| ensures WellFormed(sorted[i].key) && StringsOk(sorted[i].value) {
        assert sorted[i] in multiset(sorted);
        assert sorted[i] in normal;
      }
    case _ =>
  }

  // canonicalBytes
  function CanonicalBytes(v: Value): Bytes { Encode(Canonical(v)) }

  // What is hashed tells accepted values apart, up to the order of keys.
  lemma SameBytesIffSameTree(v: Value, w: Value)
    requires StringsOk(v) && StringsOk(w) && KeysDistinct(v) && KeysDistinct(w)
    ensures CanonicalBytes(v) == CanonicalBytes(w) <==> SameTree(v, w)
  {
    NormalStringsOk(v);
    NormalStringsOk(w);
    PrintWellFormed(Normal(v));
    PrintWellFormed(Normal(w));
    if CanonicalBytes(v) == CanonicalBytes(w) { EncodeInjective(Canonical(v), Canonical(w)); }
    SameCanonicalIffSameTree(v, w);
  }
}

// Hex strings of the canonical package: printing, parsing with Number.parseInt, and string order.
module Hex {
  import opened Wrappers
  import opened Jcs
  import opened Utf8

  const ZERO: CodeUnit := 0x30
  const LOWER_X: CodeUnit := 0x78
  const UPPER_X: CodeUnit := 0x58
  const PREFIX: Text := [ZERO, LOWER_X]
  const PLUS: CodeUnit := 0x2b
  const MINUS: CodeUnit := 0x2d

  datatype HexError = OddLength | NotHex

  // ---- printing ----

  function Body(bytes: Bytes): (r: Text)
    ensures |r| == 2 * |bytes|
  {
    if bytes == [] then [] else [HexDigit(bytes[0] / 16), HexDigit(bytes[0] % 16)] + Body(bytes[1..])
  }

  function ToHex(bytes: Bytes): Text { PREFIX + Body(bytes) }

  lemma {:induction false} BodySnoc(bytes: Bytes, b: Byte)
    ensures Body(bytes + [b]) == Body(bytes) + [HexDigit(b / 16), HexDigit(b % 16)]
  {
    if bytes == [] {
      assert (bytes + [b])[1..] == [];
    } else {
      BodySnoc(bytes[1..], b);
      assert (bytes + [b])[1..] == bytes[1..] + [b];
    }
  }

  method BytesToHex(bytes: Bytes) returns (out: Text)
    ensures out == ToHex(bytes)
  {
    out := PREFIX;
    for i := 0 to |bytes|
      invariant out == ToHex(bytes[..i])
    {
      out := out + [HexDigit(bytes[i] / 16), HexDigit(bytes[i] % 16)];
      BodySnoc(bytes[..i], bytes[i]);
      assert bytes[..i + 1] == bytes[..i] + [bytes[i]];
    }
    assert bytes[..|bytes|] == bytes;
  }

  // ---- parsing ----

  // What ECMAScript trims from the front of a string.
  predicate IsSpace(c: CodeUnit) {
    || 0x09 <= c <= 0x0d || c == 0x20 || c == 0xa0 || c == 0x1680 || 0x2000 <= c <= 0x200a
    || c == 0x2028 || c == 0x2029 || c == 0x202f || c == 0x205f || c == 0x3000 || c == 0xfeff
  }

  function TrimStart(s: Text): Text {
    if s != [] && IsSpace(s[0]) then TrimStart(s[1..]) else s
  }

  // A digit of either case.
  function Digit(c: CodeUnit): Option<int> {
    if 0x41 <= c <= 0x46 then Some(c - 0x41 + 10) else HexValue(c)
  }

  // The number the leading digits spell, continuing from `value`.
  function Digits(s: Text, value: int): int {
    if s == [] || Digit(s[0]).None? then value else Digits(s[1..], value * 16 + Digit(s[0]).value)
  }

  // Number.parseInt(s, 16); None is NaN.
  function ParseInt(s: Text): Option<int> {
    var trimmed := TrimStart(s);
    var sign := if trimmed != [] && trimmed[0] == MINUS then -1 else 1;
    var unsigned := if trimmed != [] && (trimmed[0] == MINUS || trimmed[0] == PLUS) then trimmed[1..] else trimmed;
    var digits := if |unsigned| >= 2 && unsigned[0] == ZERO && (unsigned[1] == LOWER_X || unsigned[1] == UPPER_X)
      then unsigned[2..] else unsigned;
    if digits == [] || Digit(digits[0]).None? then None else Some(sign * Digits(digits, 0))
  }

  // Storing a number in a Uint8Array.
  function ToUint8(n: int): Byte { n % 256 }

  function BodyBytes(body: Text): Result<Bytes, HexError> {
    if |body| < 2 then Ok([])
    else
      var parsed := ParseInt(body[..2]);
      if parsed.None? then Err(NotHex)
      else
        var rest := BodyBytes(body[2..]);
        if rest.Err? then rest else Ok([ToUint8(parsed.value)] + rest.value)
  }

  function Stripped(hex: Text): Text { if PREFIX <= hex then hex[2..] else hex }

  function FromHex(hex: Text): Result<Bytes, HexError> {
    if |Stripped(hex)| % 2 != 0 then Err(OddLength) else BodyBytes(Stripped(hex))
  }

  lemma {:induction false} BodyBytesStep(body: Text, i: nat)
    requires 2 * i + 2 <= |body| && |body| % 2 == 0
    ensures BodyBytes(body[2 * i..]) ==
      if ParseInt(body[2 * i..2 * i + 2]).None? then Err(NotHex)
      else if BodyBytes(body[2 * (i + 1)..]).Err? then BodyBytes(body[2 * (i + 1)..])
      else Ok([ToUint8(ParseInt(body[2 * i..2 * i + 2]).value)] + BodyBytes(body[2 * (i + 1)..]).value)
  {
    assert body[2 * i..][..2] == body[2 * i..2 * i + 2] && body[2 * i..][2..] == body[2 * (i + 1)..];
  }

  function Followed(done: Bytes, rest: Result<Bytes, HexError>): Result<Bytes, HexError> {
    if rest.Err? || done == [] then rest else Ok(done + rest.value)
  }

  method HexToBytes(hex: Text) returns (r: Result<Bytes, HexError>)
    ensures r == FromHex(hex)
  {
    var body := if PREFIX <= hex then hex[2..] else hex;
    if |body| % 2 != 0 {
      return Err(OddLength);
    }
    r := PairsToBytes(body);
  }

  // The loop of hexToBytes.
  method PairsToBytes(body: Text) returns (r: Result<Bytes, HexError>)
    requires |body| % 2 == 0
    ensures r == BodyBytes(body)
  {
    var out := new Byte[|body| / 2](_ => 0);
    assert body[0..] == body;
    var i := 0;
    while i < out.Length
      invariant 0 <= i <= out.Length && ReadUpTo(body, i, out[..i])
    {
      var parsed := ParseInt(body[i * 2..i * 2 + 2]);
      if parsed.None? {
        BodyBytesStep(body, i);
        return Err(NotHex);
      }
      ParsedStep(body, i, out[..i]);
      out[i] := ToUint8(parsed.value);
      assert out[..i + 1] == out[..i] + [out[i]];
      i := i + 1;
    }
    NothingFollows(body, i, out[..i]);
    assert out[..i] == out[..];
    return Ok(out[..]);
  }

  // The bytes of the first `i` pairs are `done`.
  predicate ReadUpTo(body: Text, i: nat, done: Bytes) {
    2 * i <= |body| && BodyBytes(body) == Followed(done, BodyBytes(body[2 * i..]))
  }

  lemma FollowedStep(done: Bytes, b: Byte, rest: Result<Bytes, HexError>)
    ensures Followed(done, if rest.Err? then rest else Ok([b] + rest.value)) == Followed(done + [b], rest)
  {
    if done == [] { assert done + [b] == [b]; }
    if rest.Ok? { assert done + ([b] + rest.value) == done + [b] + rest.value; }
  }

  lemma ParsedStep(body: Text, i: nat, done: Bytes)
    requires 2 * i + 2 <= |body| && |body| % 2 == 0 && ReadUpTo(body, i, done)
    requires ParseInt(body[2 * i..2 * i + 2]).Some?
    ensures ReadUpTo(body, i + 1, done + [ToUint8(ParseInt(body[2 * i..2 * i + 2]).value)])
  {
    BodyBytesStep(body, i);
    FollowedStep(done, ToUint8(ParseInt(body[2 * i..2 * i + 2]).value), BodyBytes(body[2 * (i + 1)..]));
  }

  lemma NothingFollows(body: Text, i: nat, done: Bytes)
    requires ReadUpTo(body, i, done) && |body| == 2 * i
    ensures BodyBytes(body) == Ok(done)
  {
    assert done + [] == done;
  }

  lemma {:induction false} DigitPair(b: Byte)
    ensures ParseInt([HexDigit(b / 16), HexDigit(b % 16)]) == Some(b)
  {
    var s: Text := [HexDigit(b / 16), HexDigit(b % 16)];
    assert Digit(s[0]) == Some(b / 16) && Digit(s[1]) == Some(b % 16);
    assert TrimStart(s) == s;
    assert s[1..][0] == s[1] && s[1..][1..] == [];
    assert Digits(s[1..], b / 16) == Digits([], b / 16 * 16 + b % 16);
    assert Digits(s, 0) == Digits(s[1..], b / 16);
  }

  // What bytesToHex printed reads back as the same bytes.
  lemma {:induction false} FromHexToHex(bytes: Bytes)
    ensures FromHex(ToHex(bytes)) == Ok(bytes)
  {
    StrippedToHex(bytes);
    BodyRoundTrip(bytes);
    FromEvenHex(ToHex(bytes), Body(bytes));
  }

  lemma FromEvenHex(hex: Text, body: Text)
    requires Stripped(hex) == body && |body| % 2 == 0
    ensures FromHex(hex) == BodyBytes(body)
  {
  }

  lemma StrippedToHex(bytes: Bytes)
    ensures Stripped(ToHex(bytes)) == Body(bytes) && |Body(bytes)| % 2 == 0
  {
    assert PREFIX <= PREFIX + Body(bytes);
    assert (PREFIX + Body(bytes))[2..] == Body(bytes);
  }

  lemma {:induction false} BodyRoundTrip(bytes: Bytes)
    ensures BodyBytes(Body(bytes)) == Ok(bytes)
  {
    if bytes != [] {
      var b := bytes[0];
      DigitPair(b);
      BodyRoundTrip(bytes[1..]);
      assert Body(bytes)[..2] == [HexDigit(b / 16), HexDigit(b % 16)] && Body(bytes)[2..] == Body(bytes[1..]);
      assert [b] + bytes[1..] == bytes;
    }
  }

  // Reading is not printing backwards: parseInt takes what bytesToHex never prints. `AcceptsExactly` says what it
  // takes, and `ReadsHexExactly` when that is hex.
  lemma ParseIntIsLenient()
    ensures FromHex([MINUS, 0x31]) == Ok([0xff])
    ensures FromHex([0x31, 0x67]) == FromHex([0x20, 0x31]) == FromHex([ZERO, 0x31]) == Ok([1])
  {
    var minus: Text, partial: Text := [MINUS, 0x31], [0x31, 0x67];
    var spaced: Text, plain: Text := [0x20, 0x31], [ZERO, 0x31];
    assert minus[1..] == [0x31] && partial[1..] == [0x67] && spaced[1..] == [0x31] && plain[1..] == [0x31];
    var one: Text := [0x31];
    assert one[1..] == [] && TrimStart(one) == one;
    assert Digits([0x31], 0) == Digits([], 1) == 1;
    assert ParseInt(minus) == Some(-1);
    assert Digits(partial, 0) == Digits([0x67], 1) == 1;
    assert ParseInt(partial) == Some(1);
    assert ParseInt(spaced) == Some(1);
    assert Digits(plain, 0) == Digits([0x31], 0);
    assert ParseInt(plain) == Some(1);
    FromPair(minus);
    FromPair(partial);
    FromPair(spaced);
    FromPair(plain);
  }

  lemma FromPair(s: Text)
    requires |s| == 2 && s != PREFIX && ParseInt(s).Some?
    ensures FromHex(s) == Ok([ToUint8(ParseInt(s).value)])
  {
    assert s[..2] == s && s[2..] == [];
    assert !(PREFIX <= s);
    var b: Bytes, none: Bytes := [ToUint8(ParseInt(s).value)], [];
    assert BodyBytes([]) == Ok(none);
    assert b + none == b;
  }

  // ---- 32-byte hex ----

  predicate LowerHex(c: CodeUnit) { HexValue(c).Some? }

  predicate IsBytes32(value: Text) {
    |value| == 66 && PREFIX <= value && forall i :: 2 <= i < 66 ==> LowerHex(value[i])
  }

  type Digest = b: Bytes | |b| == 32 witness seq(32, i => 0)

  lemma {:induction false} BodyIsLowerHex(bytes: Bytes)
    ensures forall i :: 0 <= i < |Body(bytes)| ==> LowerHex(Body(bytes)[i])
  {
    if bytes != [] { BodyIsLowerHex(bytes[1..]); }
  }

  // The 32-byte hex strings are exactly what bytesToHex prints for 32 bytes.
  lemma {:induction false} Bytes32IffPrinted(value: Text)
    ensures IsBytes32(value) <==> exists d: Digest :: value == ToHex(d)
    ensures IsBytes32(value) ==>
      FromHex(value).Ok? && |FromHex(value).value| == 32 && ToHex(FromHex(value).value) == value
  {
    if IsBytes32(value) {
      var bytes := LowerHexIsPrinted(value[2..]);
      assert value == ToHex(bytes);
      FromHexToHex(bytes);
      var d: Digest := bytes;
      assert value == ToHex(d);
    }
    if d: Digest :| value == ToHex(d) { BodyIsLowerHex(d); }
  }

  lemma {:induction false} LowerHexIsPrinted(body: Text) returns (bytes: Bytes)
    requires |body| % 2 == 0 && forall i :: 0 <= i < |body| ==> LowerHex(body[i])
    ensures body == Body(bytes)
  {
    bytes := [];
    if body != [] {
      var rest := LowerHexIsPrinted(body[2..]);
      var hi, lo := HexValue(body[0]).value, HexValue(body[1]).value;
      bytes := [hi * 16 + lo] + rest;
      assert body == [body[0], body[1]] + body[2..];
    }
  }

  // ---- what is accepted, and what is read as hex ----

  function Lower(c: CodeUnit): CodeUnit { if 0x41 <= c <= 0x46 then c + 0x20 else c }

  function LowerText(s: Text): (r: Text)
    ensures |r| == |s| && forall i :: 0 <= i < |s| ==> r[i] == Lower(s[i])
  {
    seq(|s|, i requires 0 <= i < |s| => Lower(s[i]))
  }

  predicate IsDigit(c: CodeUnit) { Digit(c).Some? }

  predicate Skipped(c: CodeUnit) { IsSpace(c) || c == PLUS || c == MINUS }

  // Two code units parseInt finds a number in: a digit first, unless they are a bare prefix, or one digit behind
  // a space or a sign.
  predicate Readable(a: CodeUnit, b: CodeUnit) {
    || (IsDigit(a) && !(a == ZERO && (b == LOWER_X || b == UPPER_X)))
    || (Skipped(a) && IsDigit(b))
  }

  // The number it finds.
  function PairValue(a: CodeUnit, b: CodeUnit): int
    requires Readable(a, b)
  {
    if IsDigit(a) then (if IsDigit(b) then Digit(a).value * 16 + Digit(b).value else Digit(a).value)
    else if a == MINUS then -Digit(b).value
    else Digit(b).value
  }

  lemma OneDigit(c: CodeUnit, value: int)
    ensures Digits([c], value) == if IsDigit(c) then value * 16 + Digit(c).value else value
  {
    assert [c][1..] == [];
  }

  lemma TwoUnits(a: CodeUnit, b: CodeUnit)
    ensures [a, b][1..] == [b] && [a, b][2..] == [] && [b][1..] == []
    ensures TrimStart([b]) == (if IsSpace(b) then [] else [b])
    ensures TrimStart([a, b]) == if !IsSpace(a) then [a, b] else if IsSpace(b) then [] else [b]
  {
    assert [a, b][1..] == [b] && [b][1..] == [];
    assert TrimStart([]) == [];
  }

  lemma PairIs(a: CodeUnit, b: CodeUnit)
    ensures ParseInt([a, b]) == if Readable(a, b) then Some(PairValue(a, b)) else None
  {
    TwoUnits(a, b);
    OneDigit(b, 0);
    if IsDigit(a) {
      OneDigit(b, Digit(a).value);
      assert Digits([a, b], 0) == Digits([b], Digit(a).value);
    }
  }

  ghost predicate PairsReadable(body: Text) {
    forall i :: 0 <= i < |body| / 2 ==> Readable(body[2 * i], body[2 * i + 1])
  }

  lemma PairsOf(body: Text)
    requires |body| >= 2
    ensures PairsReadable(body) <==> Readable(body[0], body[1]) && PairsReadable(body[2..])
  {
    var rest := body[2..];
    if PairsReadable(body) {
      assert Readable(body[2 * 0], body[2 * 0 + 1]);
      forall i | 0 <= i < |rest| / 2 ensures Readable(rest[2 * i], rest[2 * i + 1]) {
        assert Readable(body[2 * (i + 1)], body[2 * (i + 1) + 1]);
      }
    }
    if Readable(body[0], body[1]) && PairsReadable(rest) {
      forall i | 0 <= i < |body| / 2 ensures Readable(body[2 * i], body[2 * i + 1]) {
        if i > 0 { assert Readable(rest[2 * (i - 1)], rest[2 * (i - 1) + 1]); }
      }
    }
  }

  lemma {:induction false} PairsRead(body: Text)
    requires |body| % 2 == 0
    ensures BodyBytes(body).Ok? <==> PairsReadable(body)
    ensures BodyBytes(body).Err? ==> BodyBytes(body).error == NotHex
    decreases |body|
  {
    if body != [] {
      assert body[..2] == [body[0], body[1]];
      PairIs(body[0], body[1]);
      PairsOf(body);
      PairsRead(body[2..]);
    }
  }

  // A text is accepted exactly if its length is even and parseInt finds a number in every pair.
  lemma AcceptsExactly(hex: Text)
    ensures var body := Stripped(hex);
      && (FromHex(hex).Ok? <==>
            |body| % 2 == 0 && forall i :: 0 <= i < |body| / 2 ==> Readable(body[2 * i], body[2 * i + 1]))
      && (FromHex(hex) == Err(OddLength) <==> |body| % 2 != 0)
  {
    if |Stripped(hex)| % 2 == 0 { PairsRead(Stripped(hex)); }
  }

  lemma HexPairReads(a: CodeUnit, b: CodeUnit)
    requires IsDigit(a) && IsDigit(b)
    ensures ParseInt([a, b]).Some? && 0 <= ParseInt([a, b]).value < 256
    ensures var v := ParseInt([a, b]).value; HexDigit(v / 16) == Lower(a) && HexDigit(v % 16) == Lower(b)
  {
    PairIs(a, b);
  }

  lemma PairInFront(a: CodeUnit, b: CodeUnit, rest: Text, bytes: Bytes) returns (more: Bytes)
    requires IsDigit(a) && IsDigit(b) && BodyBytes(rest) == Ok(bytes)
    ensures BodyBytes([a, b] + rest) == Ok(more) && Body(more) == [Lower(a), Lower(b)] + Body(bytes)
  {
    var body := [a, b] + rest;
    assert body[..2] == [a, b] && body[2..] == rest;
    HexPairReads(a, b);
    var v: Byte := ParseInt([a, b]).value;
    more := [v] + bytes;
    assert more[1..] == bytes;
  }

  lemma LowerInFront(a: CodeUnit, b: CodeUnit, rest: Text)
    ensures LowerText([a, b] + rest) == [Lower(a), Lower(b)] + LowerText(rest)
  {
  }

  lemma {:induction false} DigitsRead(body: Text) returns (bytes: Bytes)
    requires |body| % 2 == 0 && forall i :: 0 <= i < |body| ==> IsDigit(body[i])
    ensures BodyBytes(body) == Ok(bytes) && Body(bytes) == LowerText(body)
    decreases |body|
  {
    if body == [] {
      bytes := [];
    } else {
      var a, b, rest := body[0], body[1], body[2..];
      bytes := DigitsRead(rest);
      bytes := PairInFront(a, b, rest, bytes);
      LowerInFront(a, b, rest);
      assert body == [a, b] + rest;
    }
  }

  // What is read prints as the text, up to letter case, exactly if the text is hex of either case; the very same
  // text comes back exactly if it is lowercase hex.
  lemma ReadsHexExactly(hex: Text)
    requires FromHex(hex).Ok?
    ensures var body := Stripped(hex); var printed := Body(FromHex(hex).value);
      && (printed == LowerText(body) <==> forall i :: 0 <= i < |body| ==> IsDigit(body[i]))
      && (printed == body <==> forall i :: 0 <= i < |body| ==> LowerHex(body[i]))
  {
    var body := Stripped(hex);
    var printed := Body(FromHex(hex).value);
    BodyIsLowerHex(FromHex(hex).value);
    if printed == LowerText(body) {
      forall i | 0 <= i < |body| ensures IsDigit(body[i]) { assert LowerHex(printed[i]); }
    }
    if forall i :: 0 <= i < |body| ==> IsDigit(body[i]) { var bytes := DigitsRead(body); }
    if forall i :: 0 <= i < |body| ==> LowerHex(body[i]) {
      forall i | 0 <= i < |body| ensures IsDigit(body[i]) && Lower(body[i]) == body[i] { }
      var bytes := DigitsRead(body);
      assert LowerText(body) == body;
    }
  }

  // ---- order ----

  // The bytes as one unsigned big-endian number.
  function Number(bytes: Bytes): nat {
    if bytes == [] then 0 else Number(bytes[..|bytes| - 1]) * 256 + bytes[|bytes| - 1]
  }

  lemma LessConcat(a: Text, b: Text, c: Text, d: Text)
    requires |a| == |b|
    ensures Less(a + c, b + d) <==> Less(a, b) || (a == b && Less(c, d))
  {
    if a == [] {
      assert a + c == c && b + d == d;
    } else {
      assert (a + c)[1..] == a[1..] + c && (b + d)[1..] == b[1..] + d;
      LessConcat(a[1..], b[1..], c, d);
      assert a == [a[0]] + a[1..] && b == [b[0]] + b[1..];
      LessIsTotal(a, b);
    }
  }

  lemma DigitsOrder(x: Byte, y: Byte)
    ensures Less([HexDigit(x / 16), HexDigit(x % 16)], [HexDigit(y / 16), HexDigit(y % 16)]) <==> x < y
  {
    var a: Text, b: Text := [HexDigit(x / 16), HexDigit(x % 16)], [HexDigit(y / 16), HexDigit(y % 16)];
    assert a[1..] == [a[1]] && b[1..] == [b[1]];
    assert a[1..][1..] == [] && b[1..][1..] == [];
    assert Less(a[1..], b[1..]) <==> a[1] < b[1];
  }

  lemma BodyInjective(a: Bytes, b: Bytes)
    requires Body(a) == Body(b)
    ensures a == b
  {
    BodyRoundTrip(a);
    BodyRoundTrip(b);
  }

  lemma {:induction false} SnocOrder(a: Bytes, b: Bytes, x: Byte, y: Byte)
    requires |a| == |b|
    ensures Less(Body(a + [x]), Body(b + [y])) <==> Less(Body(a), Body(b)) || (a == b && x < y)
  {
    BodySnoc(a, x);
    BodySnoc(b, y);
    LessConcat(Body(a), Body(b), [HexDigit(x / 16), HexDigit(x % 16)], [HexDigit(y / 16), HexDigit(y % 16)]);
    DigitsOrder(x, y);
    if Body(a) == Body(b) { BodyInjective(a, b); }
  }

  // Comparing hex strings is comparing the bytes as unsigned numbers.
  lemma {:induction false} HexOrder(a: Bytes, b: Bytes)
    requires |a| == |b|
    ensures Less(Body(a), Body(b)) <==> Number(a) < Number(b)
    ensures Number(a) == Number(b) ==> a == b
  {
    if a != [] {
      var n := |a| - 1;
      assert a == a[..n] + [a[n]] && b == b[..n] + [b[n]];
      HexOrder(a[..n], b[..n]);
      SnocOrder(a[..n], b[..n], a[n], b[n]);
    }
  }

  lemma PrintedOrder(a: Bytes, b: Bytes)
    requires |a| == |b|
    ensures Less(ToHex(a), ToHex(b)) <==> Number(a) < Number(b)
  {
    HexOrder(a, b);
    LessConcat(PREFIX, PREFIX, Body(a), Body(b));
    LessIsTotal(PREFIX, PREFIX);
  }
}

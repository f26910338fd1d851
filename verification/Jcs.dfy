// Canonical serialization of value trees: the printer, a parser for what it prints, and the proof
// that the two are inverse. Section 3.2 of RFC 8785, without numbers.
module Jcs {
  import opened Wrappers

  // UTF-16 code units, as JavaScript strings hold them.
  type CodeUnit = c: int | 0 <= c < 0x1_0000
  type Text = seq<CodeUnit>

  datatype Value =
    | Null
    | Bool(b: bool)
    | Str(s: Text)
    | Arr(items: seq<Value>)
    | Obj(fields: seq<Field>)

  datatype Field = Field(key: Text, value: Value)

  const QUOTE: CodeUnit := 0x22
  const BACKSLASH: CodeUnit := 0x5c
  const COMMA: CodeUnit := 0x2c
  const COLON: CodeUnit := 0x3a
  const LBRACKET: CodeUnit := 0x5b
  const RBRACKET: CodeUnit := 0x5d
  const LBRACE: CodeUnit := 0x7b
  const RBRACE: CodeUnit := 0x7d
  const NULL: Text := [0x6e, 0x75, 0x6c, 0x6c]
  const TRUE: Text := [0x74, 0x72, 0x75, 0x65]
  const FALSE: Text := [0x66, 0x61, 0x6c, 0x73, 0x65]

  predicate HighSurrogate(c: CodeUnit) { 0xd800 <= c <= 0xdbff }
  predicate LowSurrogate(c: CodeUnit) { 0xdc00 <= c <= 0xdfff }

  predicate PairedAt(s: Text, i: nat)
    requires i < |s|
  {
    && (HighSurrogate(s[i]) ==> i + 1 < |s| && LowSurrogate(s[i + 1]))
    && (LowSurrogate(s[i]) ==> i > 0 && HighSurrogate(s[i - 1]))
  }

  // Every surrogate is half of a pair.
  predicate WellFormed(s: Text) {
    forall i :: 0 <= i < |s| ==> PairedAt(s, i)
  }

  // ---- strings ----

  function HexDigit(n: int): CodeUnit
    requires 0 <= n < 16
  {
    if n < 10 then 0x30 + n else 0x61 + n - 10
  }

  function EscapeUnit(c: CodeUnit): (e: Text)
    ensures e != []
  {
    if c == 0x08 then [BACKSLASH, 0x62]
    else if c == 0x09 then [BACKSLASH, 0x74]
    else if c == 0x0a then [BACKSLASH, 0x6e]
    else if c == 0x0c then [BACKSLASH, 0x66]
    else if c == 0x0d then [BACKSLASH, 0x72]
    else if c == QUOTE then [BACKSLASH, QUOTE]
    else if c == BACKSLASH then [BACKSLASH, BACKSLASH]
    else if c < 0x20 then [BACKSLASH, 0x75, 0x30, 0x30, HexDigit(c / 16), HexDigit(c % 16)]
    else [c]
  }

  function Escape(s: Text): Text {
    if s == [] then [] else EscapeUnit(s[0]) + Escape(s[1..])
  }

  function Quote(s: Text): Text { [QUOTE] + Escape(s) + [QUOTE] }

  lemma EscapeSnoc(s: Text, c: CodeUnit)
    ensures Escape(s + [c]) == Escape(s) + EscapeUnit(c)
  {
    if s == [] {
      assert (s + [c])[1..] == [];
    } else {
      assert (s + [c])[1..] == s[1..] + [c];
      EscapeSnoc(s[1..], c);
    }
  }

  // Exactly the control characters, the quote and the backslash are escaped, seven of them by a letter and the others
  // by their number.
  lemma EscapesExactly(c: CodeUnit)
    ensures EscapeUnit(c) == [c] <==> c >= 0x20 && c != QUOTE && c != BACKSLASH
    ensures EscapeUnit(c) != [c] ==> EscapeUnit(c)[0] == BACKSLASH
    ensures |EscapeUnit(c)| == 2 <==> c in {0x08, 0x09, 0x0a, 0x0c, 0x0d, QUOTE, BACKSLASH}
  {
  }

  // So no control character is printed.
  lemma {:induction false} NoControlIsPrinted(s: Text)
    ensures forall i :: 0 <= i < |Quote(s)| ==> Quote(s)[i] >= 0x20
  {
    if s != [] {
      NoControlIsPrinted(s[1..]);
      var inner := Escape(s[1..]);
      forall i | 0 <= i < |inner| ensures inner[i] >= 0x20 { assert Quote(s[1..])[i + 1] == inner[i]; }
    }
  }

  datatype StringResult = Quoted(out: Text) | LoneSurrogate

  lemma EscapeStep(s: Text, i: nat)
    requires i < |s|
    ensures Escape(s[..i + 1]) == Escape(s[..i]) + EscapeUnit(s[i])
  {
    EscapeSnoc(s[..i], s[i]);
    assert s[..i + 1] == s[..i] + [s[i]];
  }

  // The output for the first `i` units, none of them half a pair.
  ghost predicate PrintedUpTo(value: Text, i: nat, out: Text) {
    && i <= |value| && out == [QUOTE] + Escape(value[..i])
    && (forall k :: 0 <= k < i ==> PairedAt(value, k))
    && (i > 0 ==> !HighSurrogate(value[i - 1]))
  }

  lemma UnitStep(value: Text, i: nat, out: Text)
    requires PrintedUpTo(value, i, out) && i < |value| && !HighSurrogate(value[i]) && !LowSurrogate(value[i])
    ensures PrintedUpTo(value, i + 1, out + EscapeUnit(value[i]))
  {
    EscapeStep(value, i);
  }

  lemma PairStep(value: Text, i: nat, out: Text)
    requires PrintedUpTo(value, i, out) && i + 1 < |value| && HighSurrogate(value[i]) && LowSurrogate(value[i + 1])
    ensures PrintedUpTo(value, i + 2, out + [value[i], value[i + 1]])
  {
    EscapeStep(value, i);
    EscapeStep(value, i + 1);
    assert EscapeUnit(value[i]) + EscapeUnit(value[i + 1]) == [value[i], value[i + 1]];
  }

  // Prints a string, or rejects it for a surrogate without its other half.
  method SerializeString(value: Text) returns (r: StringResult)
    ensures r == if WellFormed(value) then Quoted(Quote(value)) else LoneSurrogate
  {
    var out := [QUOTE];
    var i := 0;
    while i < |value|
      invariant PrintedUpTo(value, i, out)
    {
      var code := value[i];
      if HighSurrogate(code) {
        if i + 1 >= |value| || !LowSurrogate(value[i + 1]) {
          assert !PairedAt(value, i);
          return LoneSurrogate;
        }
        PairStep(value, i, out);
        out := out + [value[i], value[i + 1]];
        i := i + 2;
      } else if LowSurrogate(code) {
        assert !PairedAt(value, i);
        return LoneSurrogate;
      } else {
        UnitStep(value, i, out);
        out := out + EscapeUnit(code);
        i := i + 1;
      }
    }
    assert value[..i] == value;
    return Quoted(out + [QUOTE]);
  }

  // ---- key order ----

  // JavaScript's string order: by code units, a proper prefix first.
  predicate Less(a: Text, b: Text) {
    b != [] && (a == [] || a[0] < b[0] || (a[0] == b[0] && Less(a[1..], b[1..])))
  }

  lemma LessIsTotal(a: Text, b: Text)
    ensures Less(a, b) || a == b || Less(b, a)
    ensures !(Less(a, b) && Less(b, a))
    ensures a == b ==> !Less(a, b)
  {
    if a != [] && b != [] && a[0] == b[0] {
      LessIsTotal(a[1..], b[1..]);
      if a[1..] == b[1..] { assert a == [a[0]] + a[1..] && b == [b[0]] + b[1..]; }
    }
  }

  lemma SameStart(a: Text, b: Text, i: nat)
    requires i <= |a| && i <= |b| && a[..i] == b[..i]
    ensures i > 0 ==> a[0] == b[0]
  {
    if i > 0 { assert a[..i][0] == b[..i][0]; }
  }

  // The first unit that differs decides, or the length if one text starts the other.
  lemma {:induction false} LessByFirstDifference(a: Text, b: Text)
    ensures Less(a, b) <==> a < b || exists i :: 0 <= i < |a| && i < |b| && a[..i] == b[..i] && a[i] < b[i]
  {
    if a != [] && b != [] && a[0] == b[0] {
      var x, y := a[1..], b[1..];
      LessByFirstDifference(x, y);
      assert a == [a[0]] + x && b == [b[0]] + y;
      if i :| 0 <= i < |x| && i < |y| && x[..i] == y[..i] && x[i] < y[i] {
        assert a[..i + 1] == [a[0]] + x[..i] && b[..i + 1] == [b[0]] + y[..i];
        assert a[i + 1] < b[i + 1];
      }
      if i :| 0 <= i < |a| && i < |b| && a[..i] == b[..i] && a[i] < b[i] {
        assert x[..i - 1] == a[..i][1..] && y[..i - 1] == b[..i][1..];
        assert x[i - 1] < y[i - 1];
      }
    } else if a != [] && b != [] {
      if a[0] < b[0] { assert a[..0] == b[..0]; }
      if i :| 0 <= i < |a| && i < |b| && a[..i] == b[..i] && a[i] < b[i] {
        SameStart(a, b, i);
      }
    }
  }

  // What the constants spell in JSON.
  lemma ConstantsAreJson()
    ensures QUOTE == '"' as int && BACKSLASH == '\\' as int && COMMA == ',' as int && COLON == ':' as int
    ensures LBRACKET == '[' as int && RBRACKET == ']' as int && LBRACE == '{' as int && RBRACE == '}' as int
    ensures NULL == ['n' as int, 'u' as int, 'l' as int, 'l' as int]
    ensures TRUE == ['t' as int, 'r' as int, 'u' as int, 'e' as int]
    ensures FALSE == ['f' as int, 'a' as int, 'l' as int, 's' as int, 'e' as int]
  {
  }

  lemma LessIsTransitive(a: Text, b: Text, c: Text)
    requires Less(a, b) && Less(b, c)
    ensures Less(a, c)
  {
    if a != [] && a[0] == b[0] && b[0] == c[0] { LessIsTransitive(a[1..], b[1..], c[1..]); }
  }

  ghost predicate SortedKeys(fs: seq<Field>) {
    forall i, j :: 0 <= i < j < |fs| ==> Less(fs[i].key, fs[j].key)
  }

  ghost predicate DistinctKeys(fs: seq<Field>) {
    forall i, j :: 0 <= i < j < |fs| ==> fs[i].key != fs[j].key
  }

  function Insert(f: Field, fs: seq<Field>): seq<Field> {
    if fs == [] then [f]
    else if Less(fs[0].key, f.key) then [fs[0]] + Insert(f, fs[1..])
    else [f] + fs
  }

  function SortFields(fs: seq<Field>): seq<Field> {
    if fs == [] then [] else Insert(fs[0], SortFields(fs[1..]))
  }

  lemma {:induction false} InsertMembers(f: Field, fs: seq<Field>)
    ensures multiset(Insert(f, fs)) == multiset{f} + multiset(fs)
    ensures forall g :: g in Insert(f, fs) <==> g == f || g in fs
  {
    if fs != [] {
      assert fs == [fs[0]] + fs[1..];
      if Less(fs[0].key, f.key) { InsertMembers(f, fs[1..]); }
    }
  }

  lemma {:induction false} InsertSorts(f: Field, fs: seq<Field>)
    requires SortedKeys(fs) && forall g <- fs :: g.key != f.key
    ensures SortedKeys(Insert(f, fs))
  {
    if fs != [] {
      if Less(fs[0].key, f.key) {
        InsertSorts(f, fs[1..]);
        InsertMembers(f, fs[1..]);
        forall g | g in Insert(f, fs[1..]) ensures Less(fs[0].key, g.key) {}
      } else {
        LessIsTotal(fs[0].key, f.key);
        forall j | 0 <= j < |fs| ensures Less(f.key, fs[j].key) {
          if j > 0 { LessIsTransitive(f.key, fs[0].key, fs[j].key); }
        }
      }
    }
  }

  lemma SortKeeps(fs: seq<Field>)
    ensures multiset(SortFields(fs)) == multiset(fs)
    ensures DistinctKeys(fs) ==> SortedKeys(SortFields(fs))
  {
    if fs != [] {
      assert fs == [fs[0]] + fs[1..];
      SortKeeps(fs[1..]);
      var rest := SortFields(fs[1..]);
      InsertMembers(fs[0], rest);
      forall g | g in rest ensures g in fs[1..] { assert g in multiset(rest); }
      if DistinctKeys(fs) { InsertSorts(fs[0], rest); }
    }
  }

  lemma FirstIsLeast(fs: seq<Field>, f: Field)
    requires SortedKeys(fs) && f in fs
    ensures fs[0] == f || Less(fs[0].key, f.key)
  {
  }

  // Whatever algorithm sorts them, fields with distinct keys have one sorted order.
  lemma {:induction false} SortIsUnique(fs: seq<Field>, gs: seq<Field>)
    requires SortedKeys(fs) && SortedKeys(gs)
    requires forall f :: f in fs <==> f in gs
    ensures fs == gs
  {
    assert gs == [] || gs[0] in gs;
    if fs != [] {
      assert fs[0] in fs;
      FirstIsLeast(gs, fs[0]);
      FirstIsLeast(fs, gs[0]);
      LessIsTotal(fs[0].key, gs[0].key);
      forall f ensures f in fs[1..] <==> f in gs[1..] {
        TailHas(fs, f);
        TailHas(gs, f);
      }
      SortIsUnique(fs[1..], gs[1..]);
    }
  }

  lemma TailHas(fs: seq<Field>, f: Field)
    requires SortedKeys(fs) && fs != []
    ensures f in fs[1..] <==> f in fs && f != fs[0]
  {
    if f in fs[1..] {
      var i :| 0 < i < |fs| && fs[i] == f;
      LessIsTotal(fs[0].key, fs[i].key);
    }
  }

  // ---- printing ----

  // Every string and key of the tree is well formed.
  predicate StringsOk(t: Value)
    decreases t
  {
    match t
    case Str(s) => WellFormed(s)
    case Arr(items) => forall i :: 0 <= i < |items| ==> StringsOk(items[i])
    case Obj(fields) => forall i :: 0 <= i < |fields| ==> WellFormed(fields[i].key) && StringsOk(fields[i].value)
    case _ => true
  }

  // The tree with every object's fields in key order.
  function Normal(v: Value): Value
    decreases v, 1
  {
    match v
    case Arr(items) => Arr(NormalItems(items))
    case Obj(fields) => Obj(SortFields(NormalFields(fields)))
    case _ => v
  }

  function NormalItems(items: seq<Value>): (r: seq<Value>)
    ensures |r| == |items| && forall i :: 0 <= i < |items| ==> r[i] == Normal(items[i])
    decreases items, 0
  {
    if items == [] then [] else [Normal(items[0])] + NormalItems(items[1..])
  }

  function NormalFields(fields: seq<Field>): (r: seq<Field>)
    ensures |r| == |fields|
    ensures forall i :: 0 <= i < |fields| ==> r[i] == Field(fields[i].key, Normal(fields[i].value))
    decreases fields, 0
  {
    if fields == [] then [] else [Field(fields[0].key, Normal(fields[0].value))] + NormalFields(fields[1..])
  }

  // Prints a tree in the order its fields are in.
  function Print(v: Value): Text
    decreases v, 1
  {
    match v
    case Null => NULL
    case Bool(b) => if b then TRUE else FALSE
    case Str(s) => Quote(s)
    case Arr(items) => [LBRACKET] + PrintItems(items) + [RBRACKET]
    case Obj(fields) => [LBRACE] + PrintFields(fields) + [RBRACE]
  }

  function PrintItems(items: seq<Value>): Text
    decreases items, 0
  {
    if items == [] then []
    else if |items| == 1 then Print(items[0])
    else Print(items[0]) + [COMMA] + PrintItems(items[1..])
  }

  function PrintField(f: Field): Text
    decreases f, 2
  {
    Quote(f.key) + [COLON] + Print(f.value)
  }

  function PrintFields(fields: seq<Field>): Text
    decreases fields, 0
  {
    if fields == [] then []
    else if |fields| == 1 then PrintField(fields[0])
    else PrintField(fields[0]) + [COMMA] + PrintFields(fields[1..])
  }

  function Canonical(v: Value): Text { Print(Normal(v)) }

  // ---- parsing ----

  function HexValue(c: CodeUnit): Option<int> {
    if 0x30 <= c <= 0x39 then Some(c - 0x30)
    else if 0x61 <= c <= 0x66 then Some(c - 0x61 + 10)
    else None
  }

  // The rest of a string literal after its opening quote.
  function ParseChars(s: Text): (r: Option<(Text, Text)>)
    ensures r.Some? ==> |r.value.1| < |s|
  {
    if s == [] then None
    else if s[0] == QUOTE then Some(([], s[1..]))
    else if s[0] == BACKSLASH then
      if |s| < 2 then None
      else if s[1] == 0x75 then
        if |s| < 6 || s[2] != 0x30 || s[3] != 0x30 then None
        else
          match (HexValue(s[4]), HexValue(s[5]))
          case (Some(hi), Some(lo)) => Prepend(hi * 16 + lo, ParseChars(s[6..]))
          case _ => None
      else
        var c := Unescape(s[1]);
        if c.None? then None else Prepend(c.value, ParseChars(s[2..]))
    else Prepend(s[0], ParseChars(s[1..]))
  }

  function Unescape(c: CodeUnit): Option<CodeUnit> {
    if c == 0x62 then Some(0x08)
    else if c == 0x74 then Some(0x09)
    else if c == 0x6e then Some(0x0a)
    else if c == 0x66 then Some(0x0c)
    else if c == 0x72 then Some(0x0d)
    else if c == QUOTE || c == BACKSLASH then Some(c)
    else None
  }

  function Prepend(c: CodeUnit, r: Option<(Text, Text)>): Option<(Text, Text)> {
    if r.None? then None else Some(([c] + r.value.0, r.value.1))
  }

  function ParseValue(s: Text): (r: Option<(Value, Text)>)
    ensures r.Some? ==> |r.value.1| < |s|
    decreases |s|, 0
  {
    if NULL <= s then Some((Null, s[4..]))
    else if TRUE <= s then Some((Bool(true), s[4..]))
    else if FALSE <= s then Some((Bool(false), s[5..]))
    else if s == [] then None
    else if s[0] == QUOTE then
      var r := ParseChars(s[1..]);
      if r.None? then None else Some((Str(r.value.0), r.value.1))
    else if s[0] == LBRACKET then
      if |s| > 1 && s[1] == RBRACKET then Some((Arr([]), s[2..]))
      else
        var r := ParseItems(s[1..]);
        if r.None? then None else Some((Arr(r.value.0), r.value.1))
    else if s[0] == LBRACE then
      if |s| > 1 && s[1] == RBRACE then Some((Obj([]), s[2..]))
      else
        var r := ParseFields(s[1..]);
        if r.None? then None else Some((Obj(r.value.0), r.value.1))
    else None
  }

  // One or more items and the closing bracket.
  function ParseItems(s: Text): (r: Option<(seq<Value>, Text)>)
    ensures r.Some? ==> |r.value.1| < |s|
    decreases |s|, 1
  {
    var first := ParseValue(s);
    if first.None? || first.value.1 == [] then None
    else if first.value.1[0] == RBRACKET then Some(([first.value.0], first.value.1[1..]))
    else if first.value.1[0] == COMMA then
      var rest := ParseItems(first.value.1[1..]);
      if rest.None? then None else Some(([first.value.0] + rest.value.0, rest.value.1))
    else None
  }

  function ParseField(s: Text): (r: Option<(Field, Text)>)
    ensures r.Some? ==> |r.value.1| < |s|
    decreases |s|, 1
  {
    if s == [] || s[0] != QUOTE then None
    else
      var key := ParseChars(s[1..]);
      if key.None? || key.value.1 == [] || key.value.1[0] != COLON then None
      else
        var value := ParseValue(key.value.1[1..]);
        if value.None? then None else Some((Field(key.value.0, value.value.0), value.value.1))
  }

  // One or more fields and the closing brace.
  function ParseFields(s: Text): (r: Option<(seq<Field>, Text)>)
    ensures r.Some? ==> |r.value.1| < |s|
    decreases |s|, 2
  {
    var first := ParseField(s);
    if first.None? || first.value.1 == [] then None
    else if first.value.1[0] == RBRACE then Some(([first.value.0], first.value.1[1..]))
    else if first.value.1[0] == COMMA then
      var rest := ParseFields(first.value.1[1..]);
      if rest.None? then None else Some(([first.value.0] + rest.value.0, rest.value.1))
    else None
  }

  // ---- the parser undoes the printer ----

  lemma {:induction false} CharsRoundTrip(s: Text, rest: Text)
    ensures ParseChars(Escape(s) + [QUOTE] + rest) == Some((s, rest))
  {
    if s == [] {
      assert Escape(s) + [QUOTE] + rest == [QUOTE] + rest;
    } else {
      var c, tail := s[0], Escape(s[1..]) + [QUOTE] + rest;
      CharsRoundTrip(s[1..], rest);
      assert Escape(s) + [QUOTE] + rest == EscapeUnit(c) + tail;
      UnitRoundTrip(c, tail);
      assert [c] + s[1..] == s;
    }
  }

  lemma PlainUnit(c: CodeUnit, tail: Text)
    requires EscapeUnit(c) == [c]
    ensures ParseChars(EscapeUnit(c) + tail) == Prepend(c, ParseChars(tail))
  {
    assert c != QUOTE && c != BACKSLASH;
    assert ([c] + tail)[1..] == tail;
  }

  lemma ShortEscape(c: CodeUnit, tail: Text)
    requires |EscapeUnit(c)| == 2
    ensures ParseChars(EscapeUnit(c) + tail) == Prepend(c, ParseChars(tail))
  {
    var e := EscapeUnit(c);
    var s := e + tail;
    assert s[0] == e[0] == BACKSLASH && s[1] == e[1] && s[2..] == tail;
    assert Unescape(e[1]) == Some(c);
  }

  lemma LongEscape(c: CodeUnit, tail: Text)
    requires |EscapeUnit(c)| == 6
    ensures ParseChars(EscapeUnit(c) + tail) == Prepend(c, ParseChars(tail))
  {
    var e := EscapeUnit(c);
    var s := e + tail;
    assert s[0] == BACKSLASH && s[1] == 0x75 && s[2] == 0x30 && s[3] == 0x30;
    assert s[4] == e[4] && s[5] == e[5] && s[6..] == tail;
    assert HexValue(HexDigit(c / 16)) == Some(c / 16) && HexValue(HexDigit(c % 16)) == Some(c % 16);
  }

  lemma UnitRoundTrip(c: CodeUnit, tail: Text)
    ensures ParseChars(EscapeUnit(c) + tail) == Prepend(c, ParseChars(tail))
  {
    if |EscapeUnit(c)| == 1 { PlainUnit(c, tail); }
    else if |EscapeUnit(c)| == 2 { ShortEscape(c, tail); }
    else { LongEscape(c, tail); }
  }

  lemma {:induction false} ValueRoundTrip(v: Value, rest: Text)
    ensures ParseValue(Print(v) + rest) == Some((v, rest))
    decreases v, 1
  {
    match v
    case Null => NullParse(rest);
    case Bool(b) => BoolParse(b, rest);
    case Str(t) => StrParse(t, rest);
    case Arr(items) =>
      if items != [] { ItemsRoundTrip(items, rest); }
      ArrParse(items, rest);
    case Obj(fields) =>
      if fields != [] { FieldsRoundTrip(fields, rest); }
      ObjParse(fields, rest);
  }

  lemma NullParse(rest: Text)
    ensures ParseValue(Print(Null) + rest) == Some((Null, rest))
  {
    assert (NULL + rest)[..4] == NULL && (NULL + rest)[4..] == rest;
  }

  lemma StrParse(t: Text, rest: Text)
    ensures ParseValue(Print(Str(t)) + rest) == Some((Str(t), rest))
  {
    CharsRoundTrip(t, rest);
    var s := Quote(t) + rest;
    assert s[0] == QUOTE && s[1..] == Escape(t) + [QUOTE] + rest;
  }

  lemma BoolParse(b: bool, rest: Text)
    ensures ParseValue(Print(Bool(b)) + rest) == Some((Bool(b), rest))
  {
    var s := Print(Bool(b)) + rest;
    if b { assert s[..4] == TRUE && s[0] == 0x74 && s[4..] == rest; }
    else { assert s[..5] == FALSE && s[0] == 0x66 && s[5..] == rest; }
  }

  lemma EmptyParse(rest: Text)
    ensures ParseValue([LBRACKET, RBRACKET] + rest) == Some((Arr([]), rest))
    ensures ParseValue([LBRACE, RBRACE] + rest) == Some((Obj([]), rest))
  {
    assert ([LBRACKET, RBRACKET] + rest)[2..] == rest;
    assert ([LBRACE, RBRACE] + rest)[2..] == rest;
  }

  lemma ArrParse(items: seq<Value>, rest: Text)
    requires items != [] ==> ParseItems(PrintItems(items) + ([RBRACKET] + rest)) == Some((items, rest))
    ensures ParseValue(Print(Arr(items)) + rest) == Some((Arr(items), rest))
  {
    if items == [] {
      EmptyParse(rest);
      assert Print(Arr([])) == [LBRACKET, RBRACKET];
    } else {
      PrintStarts(items[0]);
      ItemsStart(items);
      OpenParse(LBRACKET, PrintItems(items), RBRACKET, rest);
    }
  }

  lemma ObjParse(fields: seq<Field>, rest: Text)
    requires fields != [] ==> ParseFields(PrintFields(fields) + ([RBRACE] + rest)) == Some((fields, rest))
    ensures ParseValue(Print(Obj(fields)) + rest) == Some((Obj(fields), rest))
  {
    if fields == [] {
      EmptyParse(rest);
      assert Print(Obj([])) == [LBRACE, RBRACE];
    } else {
      OpenParse(LBRACE, PrintFields(fields), RBRACE, rest);
    }
  }

  lemma OpenParse(open: CodeUnit, body: Text, close: CodeUnit, rest: Text)
    requires body != []
    ensures var s := [open] + body + [close] + rest;
      s[0] == open && s[1] == body[0] && s[1..] == body + ([close] + rest)
  {
  }

  lemma PrintStarts(v: Value)
    ensures |Print(v)| > 0 && Print(v)[0] != RBRACKET
  {
  }

  lemma ItemsStart(items: seq<Value>)
    requires items != []
    ensures Print(items[0]) <= PrintItems(items)
  {
  }

  lemma {:induction false} ItemsRoundTrip(items: seq<Value>, rest: Text)
    requires items != []
    ensures ParseItems(PrintItems(items) + ([RBRACKET] + rest)) == Some((items, rest))
    decreases items, 0
  {
    var end := [RBRACKET] + rest;
    if |items| == 1 {
      ValueRoundTrip(items[0], end);
      LastItem(PrintItems(items) + end, items[0], rest);
      assert [items[0]] == items;
    } else {
      ValueRoundTrip(items[0], [COMMA] + (PrintItems(items[1..]) + end));
      ItemsRoundTrip(items[1..], rest);
      SeveralItems(items, rest);
    }
  }

  lemma SeveralItems(items: seq<Value>, rest: Text)
    requires |items| > 1
    requires
      var tail := PrintItems(items[1..]) + ([RBRACKET] + rest);
      && ParseValue(Print(items[0]) + ([COMMA] + tail)) == Some((items[0], [COMMA] + tail))
      && ParseItems(tail) == Some((items[1..], rest))
    ensures ParseItems(PrintItems(items) + ([RBRACKET] + rest)) == Some((items, rest))
  {
    var tail := PrintItems(items[1..]) + ([RBRACKET] + rest);
    ItemsSeam(items, [RBRACKET] + rest);
    MoreItems(Print(items[0]) + ([COMMA] + tail), items[0], tail, items[1..], rest);
    assert [items[0]] + items[1..] == items;
  }

  lemma LastItem(s: Text, v: Value, rest: Text)
    requires ParseValue(s) == Some((v, [RBRACKET] + rest))
    ensures ParseItems(s) == Some(([v], rest))
  {
    assert ([RBRACKET] + rest)[1..] == rest;
  }

  lemma MoreItems(s: Text, v: Value, tail: Text, vs: seq<Value>, rest: Text)
    requires ParseValue(s) == Some((v, [COMMA] + tail)) && ParseItems(tail) == Some((vs, rest))
    ensures ParseItems(s) == Some(([v] + vs, rest))
  {
    assert ([COMMA] + tail)[1..] == tail;
  }

  lemma LastField(s: Text, f: Field, rest: Text)
    requires ParseField(s) == Some((f, [RBRACE] + rest))
    ensures ParseFields(s) == Some(([f], rest))
  {
    assert ([RBRACE] + rest)[1..] == rest;
  }

  lemma MoreFields(s: Text, f: Field, tail: Text, fs: seq<Field>, rest: Text)
    requires ParseField(s) == Some((f, [COMMA] + tail)) && ParseFields(tail) == Some((fs, rest))
    ensures ParseFields(s) == Some(([f] + fs, rest))
  {
    assert ([COMMA] + tail)[1..] == tail;
  }

  lemma {:induction false} FieldRoundTrip(f: Field, rest: Text)
    ensures ParseField(PrintField(f) + rest) == Some((f, rest))
    decreases f, 2
  {
    var s := PrintField(f) + rest;
    var afterKey := [COLON] + (Print(f.value) + rest);
    assert s[1..] == Escape(f.key) + [QUOTE] + afterKey;
    CharsRoundTrip(f.key, afterKey);
    ValueRoundTrip(f.value, rest);
  }

  lemma Regroup(a: Text, b: Text, c: Text, d: Text)
    ensures (a + b + c) + d == a + (b + (c + d))
  {
  }

  lemma ItemsSeam(items: seq<Value>, end: Text)
    requires |items| > 1
    ensures PrintItems(items) + end == Print(items[0]) + ([COMMA] + (PrintItems(items[1..]) + end))
  {
    Regroup(Print(items[0]), [COMMA], PrintItems(items[1..]), end);
  }

  lemma FieldsSeam(fields: seq<Field>, end: Text)
    requires |fields| > 1
    ensures PrintFields(fields) + end == PrintField(fields[0]) + ([COMMA] + (PrintFields(fields[1..]) + end))
  {
    Regroup(PrintField(fields[0]), [COMMA], PrintFields(fields[1..]), end);
  }

  lemma {:induction false} FieldsRoundTrip(fields: seq<Field>, rest: Text)
    requires fields != []
    ensures ParseFields(PrintFields(fields) + ([RBRACE] + rest)) == Some((fields, rest))
    decreases fields, 0
  {
    var end := [RBRACE] + rest;
    var s := PrintFields(fields) + end;
    if |fields| == 1 {
      FieldRoundTrip(fields[0], end);
      LastField(s, fields[0], rest);
      assert [fields[0]] == fields;
    } else {
      var tail := PrintFields(fields[1..]) + end;
      FieldsSeam(fields, end);
      FieldRoundTrip(fields[0], [COMMA] + tail);
      FieldsRoundTrip(fields[1..], rest);
      MoreFields(s, fields[0], tail, fields[1..], rest);
      assert [fields[0]] + fields[1..] == fields;
    }
  }

  // The parser gives back exactly the tree that was printed, keys in order, and reads all of it.
  lemma CanonicalRoundTrip(v: Value)
    ensures ParseValue(Canonical(v)) == Some((Normal(v), []))
  {
    ValueRoundTrip(Normal(v), []);
    assert Canonical(v) + [] == Canonical(v);
  }

  // ---- what canonical equality means ----

  // Equal as trees whose objects have unordered keys.
  ghost predicate SameTree(v: Value, w: Value)
    decreases v
  {
    match (v, w)
    case (Arr(xs), Arr(ys)) => |xs| == |ys| && forall i :: 0 <= i < |xs| ==> SameTree(xs[i], ys[i])
    case (Obj(fs), Obj(gs)) =>
      |fs| == |gs| && forall i :: 0 <= i < |fs| ==>
        exists j :: 0 <= j < |gs| && gs[j].key == fs[i].key && SameTree(fs[i].value, gs[j].value)
    case (_, _) => v == w
  }

  // JavaScript objects have one value per key.
  ghost predicate KeysDistinct(v: Value)
    decreases v
  {
    match v
    case Arr(items) => forall i :: 0 <= i < |items| ==> KeysDistinct(items[i])
    case Obj(fields) => DistinctKeys(fields) && forall i :: 0 <= i < |fields| ==> KeysDistinct(fields[i].value)
    case _ => true
  }

  lemma {:induction false} SameTreeIffSameNormal(v: Value, w: Value)
    requires KeysDistinct(v) && KeysDistinct(w)
    ensures SameTree(v, w) <==> Normal(v) == Normal(w)
    decreases v
  {
    match (v, w)
    case (Arr(xs), Arr(ys)) =>
      forall i | 0 <= i < |xs| && i < |ys| { SameTreeIffSameNormal(xs[i], ys[i]); }
      if Normal(v) == Normal(w) {
        assert NormalItems(xs) == NormalItems(ys);
        assert forall i :: 0 <= i < |xs| ==> NormalItems(xs)[i] == NormalItems(ys)[i];
      }
      if SameTree(v, w) { assert NormalItems(xs) == NormalItems(ys); }
    case (Obj(fs), Obj(gs)) =>
      forall i, j | 0 <= i < |fs| && 0 <= j < |gs| { SameTreeIffSameNormal(fs[i].value, gs[j].value); }
      SameFieldsIffSameNormal(fs, gs);
    case (_, _) =>
  }

  lemma SameFieldsIffSameNormal(fs: seq<Field>, gs: seq<Field>)
    requires DistinctKeys(fs) && DistinctKeys(gs)
    requires forall i, j :: 0 <= i < |fs| && 0 <= j < |gs| ==>
      (SameTree(fs[i].value, gs[j].value) <==> Normal(fs[i].value) == Normal(gs[j].value))
    ensures SameTree(Obj(fs), Obj(gs)) <==> SortFields(NormalFields(fs)) == SortFields(NormalFields(gs))
  {
    var nf, ng := NormalFields(fs), NormalFields(gs);
    SortKeeps(nf);
    SortKeeps(ng);
    if SortFields(nf) == SortFields(ng) { SameSortedMatch(fs, gs); }
    if SameTree(Obj(fs), Obj(gs)) {
      SameFieldsCover(fs, gs);
      SortedMembers(nf);
      SortedMembers(ng);
      SortIsUnique(SortFields(nf), SortFields(ng));
    }
  }

  lemma SortLength(fs: seq<Field>)
    ensures |SortFields(fs)| == |fs|
  {
    SortKeeps(fs);
    assert |multiset(fs)| == |fs|;
    assert |multiset(SortFields(fs))| == |SortFields(fs)|;
  }

  lemma SortedMembers(fs: seq<Field>)
    ensures forall f :: f in SortFields(fs) <==> f in fs
  {
    SortKeeps(fs);
    forall f ensures f in SortFields(fs) <==> f in fs {
      assert f in SortFields(fs) <==> f in multiset(SortFields(fs));
      assert f in fs <==> f in multiset(fs);
    }
  }

  lemma SameSortedMembers(nf: seq<Field>, ng: seq<Field>)
    requires SortFields(nf) == SortFields(ng)
    ensures |nf| == |ng| && forall f :: f in nf <==> f in ng
  {
    SortLength(nf);
    SortLength(ng);
    SortedMembers(nf);
    SortedMembers(ng);
  }

  lemma MatchAt(fs: seq<Field>, gs: seq<Field>, i: nat) returns (j: nat)
    requires i < |fs| && SortFields(NormalFields(fs)) == SortFields(NormalFields(gs))
    ensures j < |gs| && gs[j].key == fs[i].key && Normal(gs[j].value) == Normal(fs[i].value)
  {
    var nf, ng := NormalFields(fs), NormalFields(gs);
    SameSortedMembers(nf, ng);
    assert nf[i] in ng;
    j :| 0 <= j < |ng| && ng[j] == nf[i];
  }

  lemma {:induction false} SameSortedMatch(fs: seq<Field>, gs: seq<Field>)
    requires SortFields(NormalFields(fs)) == SortFields(NormalFields(gs))
    requires forall i, j :: 0 <= i < |fs| && 0 <= j < |gs| ==>
      (SameTree(fs[i].value, gs[j].value) <==> Normal(fs[i].value) == Normal(gs[j].value))
    ensures SameTree(Obj(fs), Obj(gs))
  {
    SameSortedMembers(NormalFields(fs), NormalFields(gs));
    forall i | 0 <= i < |fs|
      ensures exists j :: 0 <= j < |gs| && gs[j].key == fs[i].key && SameTree(fs[i].value, gs[j].value)
    {
      var j := MatchAt(fs, gs, i);
    }
  }

  // Equally many distinct keys, each of one side matched on the other: the match covers both.
  lemma SameFieldsCover(fs: seq<Field>, gs: seq<Field>)
    requires DistinctKeys(fs) && DistinctKeys(gs) && SameTree(Obj(fs), Obj(gs))
    requires forall i, j :: 0 <= i < |fs| && 0 <= j < |gs| ==>
      (SameTree(fs[i].value, gs[j].value) <==> Normal(fs[i].value) == Normal(gs[j].value))
    ensures forall f :: f in NormalFields(fs) <==> f in NormalFields(gs)
  {
    var nf, ng := NormalFields(fs), NormalFields(gs);
    var sf, sg := (set f | f in nf), (set f | f in ng);
    assert sf <= sg by {
      forall f | f in nf ensures f in ng {
        var i :| 0 <= i < |nf| && nf[i] == f;
        var j :| 0 <= j < |gs| && gs[j].key == fs[i].key && SameTree(fs[i].value, gs[j].value);
        assert ng[j] == f;
      }
    }
    DistinctCount(nf);
    DistinctCount(ng);
    SubsetOfSameSize(sf, sg);
    assert forall f :: f in sf <==> f in nf;
    assert forall f :: f in sg <==> f in ng;
  }

  lemma DistinctCount(fs: seq<Field>)
    requires DistinctKeys(fs)
    ensures |(set f | f in fs)| == |fs|
  {
    if fs != [] {
      var n := |fs| - 1;
      DistinctCount(fs[..n]);
      assert (set f | f in fs) == (set f | f in fs[..n]) + {fs[n]} by {
        assert fs == fs[..n] + [fs[n]];
      }
      assert fs[n] !in fs[..n];
    }
  }

  lemma SubsetOfSameSize<T>(a: set<T>, b: set<T>)
    requires a <= b && |a| == |b|
    ensures a == b
  {
    if x :| x in b - a {
      assert |b - {x}| == |b| - 1;
      SubsetSize(a, b - {x});
    } else {
      assert b - a == {};
      assert b <= a;
    }
  }

  lemma SubsetSize<T>(a: set<T>, b: set<T>)
    requires a <= b
    ensures |a| <= |b|
  {
    if x :| x in a { SubsetSize(a - {x}, b - {x}); }
  }

  // Two accepted values print the same exactly if they are equal as trees with unordered keys.
  lemma SameCanonicalIffSameTree(v: Value, w: Value)
    requires KeysDistinct(v) && KeysDistinct(w)
    ensures Canonical(v) == Canonical(w) <==> SameTree(v, w)
  {
    CanonicalRoundTrip(v);
    CanonicalRoundTrip(w);
    SameTreeIffSameNormal(v, w);
  }
}

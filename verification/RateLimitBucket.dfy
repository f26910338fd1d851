// The bucket a rate limit counts for an address: IPv6 text to its /64.
module RateLimitBucket {
  import opened Wrappers

  // ---- string functions of JavaScript ----

  function LowerChar(c: char): char {
    if 'A' <= c <= 'Z' then (c as int + 32) as char else c
  }

  function Lower(s: string): (t: string)
    ensures |t| == |s| && forall i :: 0 <= i < |s| ==> t[i] == LowerChar(s[i])
  {
    if s == "" then "" else [LowerChar(s[0])] + Lower(s[1..])
  }

  // The part before the first `c`, which is everything without one.
  function Before(s: string, c: char): string {
    if s == "" || s[0] == c then "" else [s[0]] + Before(s[1..], c)
  }

  // s.split(c)
  function Split(s: string, c: char): (parts: seq<string>)
    ensures parts != []
    decreases |s|
  {
    var first := Before(s, c);
    if |first| >= |s| then [s] else [first] + Split(s[|first| + 1..], c)
  }

  // The first two parts of s.split("::"), "" where there is none.
  function SplitDouble(s: string): (string, string) {
    if |s| < 2 then (s, "")
    else if s[0] == ':' && s[1] == ':' then ("", FirstPart(s[2..]))
    else
      var rest := SplitDouble(s[1..]);
      ([s[0]] + rest.0, rest.1)
  }

  // The part before the first "::".
  function FirstPart(s: string): string {
    if |s| < 2 then s else if s[0] == ':' && s[1] == ':' then "" else [s[0]] + FirstPart(s[1..])
  }

  predicate HasDouble(s: string) {
    |s| >= 2 && ((s[0] == ':' && s[1] == ':') || HasDouble(s[1..]))
  }

  function Join(parts: seq<string>): string {
    if parts == [] then "" else if |parts| == 1 then parts[0] else parts[0] + ":" + Join(parts[1..])
  }

  // group.replace(/^0+(?=.)/, "")
  function Strip(group: string): string {
    if |group| >= 2 && group[0] == '0' then Strip(group[1..]) else group
  }

  function StripAll(groups: seq<string>): (r: seq<string>)
    ensures |r| == |groups| && forall i :: 0 <= i < |groups| ==> r[i] == Strip(groups[i])
  {
    if groups == [] then [] else [Strip(groups[0])] + StripAll(groups[1..])
  }

  function Zeros(n: int): (r: seq<string>)
    ensures |r| == if n > 0 then n else 0
    ensures forall i :: 0 <= i < |r| ==> r[i] == "0"
  {
    if n <= 0 then [] else ["0"] + Zeros(n - 1)
  }

  // ---- the bucket ----

  function Parts(s: string): seq<string> { if s == "" then [] else Split(s, ':') }

  function Fill(left: seq<string>, right: seq<string>): seq<string> {
    left + Zeros(8 - |left| - |right|) + right
  }

  function Groups(ip: string): seq<string> {
    var halves := SplitDouble(Before(Lower(ip), '%'));
    if HasDouble(ip) then Fill(Parts(halves.0), Parts(halves.1)) else Parts(halves.0)
  }

  function FirstFour(groups: seq<string>): seq<string> { if |groups| <= 4 then groups else groups[..4] }

  function Bucket6(ip: string): string {
    Join(StripAll(FirstFour(Groups(ip)))) + "::/64"
  }

  predicate Digits(s: string) { s != "" && forall i :: 0 <= i < |s| ==> '0' <= s[i] <= '9' }

  // Four runs of digits with dots between them.
  predicate DottedDigits(s: string) {
    |Split(s, '.')| == 4 && forall i :: 0 <= i < 4 ==> Digits(Split(s, '.')[i])
  }

  // What follows "::ffff:", in any letter case, if it has the shape of an IPv4 address.
  function Mapped(ip: string): Option<string> {
    if |ip| > 7 && Lower(ip[..7]) == "::ffff:" && DottedDigits(ip[7..]) then Some(ip[7..]) else None
  }

  // What the platform says of a text is a parameter.
  function RateLimitBucket(ip: string, isIPv4: string -> bool, isIPv6: string -> bool): string {
    if Mapped(ip).Some? && isIPv4(Mapped(ip).value) then Mapped(ip).value
    else if !isIPv6(ip) then ip
    else Bucket6(ip)
  }

  // ---- addresses as text ----

  predicate HexChar(c: char) { '0' <= c <= '9' || 'a' <= c <= 'f' || 'A' <= c <= 'F' }

  function DigitOf(c: char): nat
    requires HexChar(c)
  {
    if c <= '9' then c as int - '0' as int
    else if c <= 'F' then c as int - 'A' as int + 10
    else c as int - 'a' as int + 10
  }

  predicate AllHex(g: string) { forall i :: 0 <= i < |g| ==> HexChar(g[i]) }

  predicate HexGroup(g: string) { 1 <= |g| <= 4 && AllHex(g) }

  // What the hex digits of a string spell.
  function ValueOf(g: string): nat {
    if g == "" then 0
    else ValueOf(g[..|g| - 1]) * 16 + if HexChar(g[|g| - 1]) then DigitOf(g[|g| - 1]) else 0
  }

  // A group that splitting leaves whole.
  predicate Plain(g: string) { g != "" && ':' !in g && '%' !in g }

  // Section 2.2 of RFC 4291: eight groups, or "::" for one or more groups of zeros. `zone` is empty or
  // starts with a percent sign.
  datatype Form = Form(left: seq<string>, compressed: bool, right: seq<string>, zone: string)

  predicate PlainGroups(f: Form) {
    && (forall g <- f.left :: Plain(g)) && (forall g <- f.right :: Plain(g))
    && (f.zone == "" || f.zone[0] == '%')
  }

  predicate PlainForm(f: Form) {
    && PlainGroups(f)
    && (if f.compressed then |f.left| + |f.right| <= 7 else |f.left| == 8 && f.right == [])
  }

  predicate HexForm(f: Form) {
    PlainForm(f) && (forall g <- f.left :: HexGroup(g)) && (forall g <- f.right :: HexGroup(g))
  }

  function Address(f: Form): string {
    Join(f.left) + if f.compressed then "::" + Join(f.right) else ""
  }

  function Text(f: Form): string { Address(f) + f.zone }

  // The eight groups.
  function Expanded(f: Form): seq<string> {
    if f.compressed then Fill(f.left, f.right) else f.left
  }

  // ---- splitting gives the groups back ----

  lemma {:induction false} BeforeConcat(s: string, c: char, t: string)
    requires c !in s
    ensures Before(s + t, c) == s + Before(t, c)
  {
    if s == "" {
      assert s + t == t;
    } else {
      assert (s + t)[1..] == s[1..] + t;
      BeforeConcat(s[1..], c, t);
      assert [s[0]] + (s[1..] + Before(t, c)) == s + Before(t, c);
    }
  }

  lemma {:induction false} SplitJoin(groups: seq<string>)
    requires groups != [] && forall g <- groups :: Plain(g)
    ensures Split(Join(groups), ':') == groups
  {
    var g := groups[0];
    assert g in groups;
    if |groups| == 1 {
      BeforeConcat(g, ':', "");
      assert g + "" == g;
    } else {
      var rest := Join(groups[1..]);
      BeforeConcat(g, ':', ":" + rest);
      assert g + ":" + rest == g + (":" + rest);
      assert Before(":" + rest, ':') == "";
      assert g + "" == g;
      assert Join(groups)[|g| + 1..] == rest;
      SplitJoin(groups[1..]);
      assert [g] + groups[1..] == groups;
    }
  }

  lemma {:induction false} JoinPlain(groups: seq<string>)
    requires forall g <- groups :: Plain(g)
    ensures groups != [] ==> Join(groups) != "" && Join(groups)[0] != ':' && Join(groups)[|Join(groups)| - 1] != ':'
    ensures '%' !in Join(groups) && !HasDouble(Join(groups))
  {
    if groups != [] {
      var g := groups[0];
      assert g in groups;
      NoColonNoDouble(g);
      assert g[0] != ':' && g[|g| - 1] != ':';
      if |groups| > 1 {
        JoinPlain(groups[1..]);
        DoubleConcat(g + ":", Join(groups[1..]));
        DoubleConcat(g, ":");
      }
    }
  }

  lemma NoColonNoDouble(s: string)
    requires ':' !in s
    ensures !HasDouble(s)
  {
    if |s| >= 2 { assert s[0] in s; NoColonNoDouble(s[1..]); }
  }

  // "::" in a concatenation lies in one part or across the seam.
  lemma {:induction false} DoubleConcat(s: string, t: string)
    ensures HasDouble(s + t) <==>
      HasDouble(s) || HasDouble(t) || (s != "" && t != "" && s[|s| - 1] == ':' && t[0] == ':')
  {
    if s == "" {
      assert s + t == t;
    } else {
      assert (s + t)[1..] == s[1..] + t;
      DoubleConcat(s[1..], t);
      if |s| == 1 { assert s[1..] + t == t; }
    }
  }

  lemma {:induction false} SplitDoubleAt(head: string, tail: string)
    requires !HasDouble(head) && (head != "" ==> head[|head| - 1] != ':') && !HasDouble(tail)
    ensures SplitDouble(head + "::" + tail) == (head, tail)
  {
    var s := head + "::" + tail;
    if head == "" {
      assert s[2..] == tail;
      WholePart(tail);
    } else {
      assert s[1..] == head[1..] + "::" + tail;
      if |head| >= 2 { assert head[1] == s[1]; }
      SplitDoubleAt(head[1..], tail);
      assert [head[0]] + head[1..] == head;
    }
  }

  lemma WholePart(s: string)
    requires !HasDouble(s)
    ensures FirstPart(s) == s
  {
  }

  lemma WholeSplit(s: string)
    requires !HasDouble(s)
    ensures SplitDouble(s) == (s, "")
  {
    if |s| >= 2 {
      WholeSplit(s[1..]);
      assert [s[0]] + s[1..] == s;
    }
  }

  // ---- letter case ----

  function LowerAll(groups: seq<string>): (r: seq<string>)
    ensures |r| == |groups| && forall i :: 0 <= i < |groups| ==> r[i] == Lower(groups[i])
  {
    if groups == [] then [] else [Lower(groups[0])] + LowerAll(groups[1..])
  }

  lemma {:induction false} LowerConcat(s: string, t: string)
    ensures Lower(s + t) == Lower(s) + Lower(t)
  {
    if s == "" {
      assert s + t == t;
    } else {
      assert (s + t)[1..] == s[1..] + t;
      LowerConcat(s[1..], t);
    }
  }

  lemma {:induction false} LowerJoin(groups: seq<string>)
    ensures Lower(Join(groups)) == Join(LowerAll(groups))
  {
    if |groups| > 1 {
      LowerJoin(groups[1..]);
      LowerConcat(groups[0] + ":", Join(groups[1..]));
      LowerConcat(groups[0], ":");
      assert LowerAll(groups)[1..] == LowerAll(groups[1..]);
      assert Lower(":") == ":";
    }
  }

  lemma LowerPlain(g: string)
    requires Plain(g)
    ensures Plain(Lower(g))
  {
    forall i | 0 <= i < |g| ensures Lower(g)[i] != ':' && Lower(g)[i] != '%' { assert g[i] in g; }
  }

  lemma LowerAllPlain(groups: seq<string>)
    requires forall g <- groups :: Plain(g)
    ensures forall g <- LowerAll(groups) :: Plain(g)
  {
    forall i | 0 <= i < |groups| ensures Plain(LowerAll(groups)[i]) { LowerPlain(groups[i]); }
  }

  lemma {:induction false} DoubleLower(s: string)
    ensures HasDouble(Lower(s)) <==> HasDouble(s)
  {
    if |s| >= 2 {
      assert Lower(s)[1..] == Lower(s[1..]);
      DoubleLower(s[1..]);
    }
  }

  lemma PartsJoin(groups: seq<string>)
    requires forall g <- groups :: Plain(g)
    ensures Parts(Join(groups)) == groups
  {
    JoinPlain(groups);
    if groups != [] { SplitJoin(groups); }
  }

  lemma {:induction false} LowerAddress(f: Form)
    requires PlainGroups(f)
    ensures Lower(Address(f)) == Join(LowerAll(f.left)) + if f.compressed then "::" + Join(LowerAll(f.right)) else ""
  {
    LowerJoin(f.left);
    if f.compressed {
      LowerJoin(f.right);
      LowerConcat(Join(f.left), "::" + Join(f.right));
      LowerConcat("::", Join(f.right));
      assert Lower("::") == "::";
    } else {
      assert Join(f.left) + "" == Join(f.left);
      assert Join(LowerAll(f.left)) + "" == Join(LowerAll(f.left));
    }
  }

  lemma {:induction false} NoPercent(f: Form)
    requires PlainGroups(f)
    ensures '%' !in Lower(Address(f))
  {
    LowerAddress(f);
    LowerAllPlain(f.left);
    LowerAllPlain(f.right);
    JoinPlain(LowerAll(f.left));
    JoinPlain(LowerAll(f.right));
  }

  // The address part is what comes before the zone.
  lemma {:induction false} AddressPart(f: Form)
    requires PlainGroups(f)
    ensures Before(Lower(Text(f)), '%') == Lower(Address(f))
  {
    LowerConcat(Address(f), f.zone);
    NoPercent(f);
    BeforeConcat(Lower(Address(f)), '%', Lower(f.zone));
    assert Lower(Address(f)) + "" == Lower(Address(f));
  }

  lemma {:induction false} CompressedHasDouble(f: Form)
    requires f.compressed
    ensures HasDouble(Text(f))
  {
    var rest := Join(f.right) + f.zone;
    assert Text(f) == Join(f.left) + ("::" + rest);
    DoubleConcat(Join(f.left), "::" + rest);
  }

  lemma {:induction false} GroupsSplit(ip: string, head: string, tail: string, left: seq<string>, right: seq<string>)
    requires HasDouble(ip) && Before(Lower(ip), '%') == head + "::" + tail
    requires !HasDouble(head) && (head != "" ==> head[|head| - 1] != ':') && !HasDouble(tail)
    requires Parts(head) == left && Parts(tail) == right
    ensures Groups(ip) == Fill(left, right)
  {
    SplitDoubleAt(head, tail);
    assert SplitDouble(Before(Lower(ip), '%')) == (head, tail);
  }

  lemma {:induction false} GroupsOfParts(ip: string, left: seq<string>, right: seq<string>)
    requires (forall g <- left :: Plain(g)) && (forall g <- right :: Plain(g))
    requires HasDouble(ip) && Before(Lower(ip), '%') == Join(left) + "::" + Join(right)
    ensures Groups(ip) == Fill(left, right)
  {
    NoDoubleInside(left);
    NoDoubleInside(right);
    PartsJoin(left);
    PartsJoin(right);
    GroupsSplit(ip, Join(left), Join(right), left, right);
  }

  lemma NoDoubleInside(groups: seq<string>)
    requires forall g <- groups :: Plain(g)
    ensures !HasDouble(Join(groups)) && (Join(groups) != "" ==> Join(groups)[|Join(groups)| - 1] != ':')
  {
    JoinPlain(groups);
  }

  lemma Regroup(a: string, b: string, c: string)
    ensures a + (b + c) == a + b + c
  {
  }

  // The text before the zone, in lower case.
  lemma CompressedPart(f: Form)
    requires PlainForm(f) && f.compressed
    ensures Before(Lower(Text(f)), '%') == Join(LowerAll(f.left)) + "::" + Join(LowerAll(f.right))
  {
    AddressPart(f);
    LowerAddress(f);
    Regroup(Join(LowerAll(f.left)), "::", Join(LowerAll(f.right)));
  }

  lemma {:induction false} GroupsWhenCompressed(f: Form)
    requires PlainForm(f) && f.compressed
    ensures Groups(Text(f)) == Fill(LowerAll(f.left), LowerAll(f.right))
  {
    CompressedPart(f);
    CompressedHasDouble(f);
    LowerAllPlain(f.left);
    LowerAllPlain(f.right);
    GroupsOfParts(Text(f), LowerAll(f.left), LowerAll(f.right));
  }

  // A "::" in the zone adds no group: there are eight already.
  lemma {:induction false} GroupsWhenFull(f: Form)
    requires PlainForm(f) && !f.compressed
    ensures Groups(Text(f)) == LowerAll(f.left)
  {
    var left := LowerAll(f.left);
    AddressPart(f);
    LowerAddress(f);
    LowerAllPlain(f.left);
    JoinPlain(left);
    assert Join(left) + "" == Join(left);
    WholeSplit(Join(left));
    PartsJoin(left);
    assert Zeros(8 - |left| - 0) == [];
    assert left + [] + [] == left;
  }

  // ---- groups as numbers ----

  function HexOf(n: nat): string {
    if n < 16 then [HexDigit(n)] else HexOf(n / 16) + [HexDigit(n % 16)]
  }

  function HexDigit(n: nat): char
    requires n < 16
  {
    if n < 10 then ('0' as int + n) as char else ('a' as int + n - 10) as char
  }

  lemma DigitRoundTrip(c: char)
    requires HexChar(c)
    ensures DigitOf(c) < 16 && HexDigit(DigitOf(c)) == LowerChar(c)
    ensures c == '0' <==> DigitOf(c) == 0
  {
  }

  // Lower case without leading zeros is the one spelling of a group's value.
  lemma {:induction false} StripIsHex(g: string)
    requires g != "" && AllHex(g)
    ensures Strip(Lower(g)) == HexOf(ValueOf(g))
    decreases |g|
  {
    var n := |g| - 1;
    assert g == g[..n] + [g[n]];
    if n == 0 {
      StripOne(g[0]);
      assert g == [g[0]];
    } else {
      StripIsHex(g[..n]);
      StripMore(g[..n], g[n]);
    }
  }

  lemma {:induction false} StripOne(c: char)
    requires HexChar(c)
    ensures Strip(Lower([c])) == HexOf(ValueOf([c]))
  {
    DigitRoundTrip(c);
    ValueSnoc("", c);
    assert "" + [c] == [c];
    assert Lower([c]) == [LowerChar(c)];
  }

  lemma {:induction false} StripMore(front: string, c: char)
    requires front != "" && HexChar(c) && Strip(Lower(front)) == HexOf(ValueOf(front))
    ensures Strip(Lower(front + [c])) == HexOf(ValueOf(front + [c]))
  {
    DigitRoundTrip(c);
    ValueSnoc(front, c);
    LowerConcat(front, [c]);
    assert Lower([c]) == [LowerChar(c)];
    StripSnoc(Lower(front), LowerChar(c));
    HexStep(ValueOf(front), DigitOf(c));
    HexOfZero(ValueOf(front));
  }

  lemma ValueSnoc(front: string, c: char)
    requires HexChar(c)
    ensures ValueOf(front + [c]) == ValueOf(front) * 16 + DigitOf(c)
  {
    assert (front + [c])[..|front|] == front;
  }

  lemma {:induction false} HexStep(n: nat, d: nat)
    requires d < 16
    ensures HexOf(n * 16 + d) == if n == 0 then [HexDigit(d)] else HexOf(n) + [HexDigit(d)]
  {
  }

  // Dropping leading zeros, one digit at a time from the end.
  lemma {:induction false} StripSnoc(s: string, c: char)
    requires s != ""
    ensures Strip(s + [c]) == if Strip(s) == "0" then [c] else Strip(s) + [c]
    decreases |s|
  {
    if s[0] == '0' {
      assert (s + [c])[1..] == s[1..] + [c];
      if |s| == 1 {
        assert s == "0" && s[1..] + [c] == [c];
      } else {
        StripSnoc(s[1..], c);
      }
    }
  }

  lemma HexOfZero(n: nat)
    ensures HexOf(n) == "0" <==> n == 0
  {
    if n >= 16 { HexOfLength(n); }
  }

  lemma HexOfLength(n: nat)
    requires n >= 16
    ensures |HexOf(n)| >= 2
  {
    assert |HexOf(n / 16)| >= 1;
  }

  lemma {:induction false} HexOfInjective(m: nat, n: nat)
    requires HexOf(m) == HexOf(n)
    ensures m == n
  {
    if m >= 16 { HexOfLength(m); }
    if n >= 16 { HexOfLength(n); }
    var h := HexOf(m);
    if m >= 16 {
      assert h[..|h| - 1] == HexOf(m / 16) && h[..|h| - 1] == HexOf(n / 16);
      assert h[|h| - 1] == HexDigit(m % 16) && h[|h| - 1] == HexDigit(n % 16);
      HexOfInjective(m / 16, n / 16);
    } else {
      assert h[0] == HexDigit(m) && h[0] == HexDigit(n);
    }
  }

  function ValuesOf(groups: seq<string>): (r: seq<nat>)
    ensures |r| == |groups| && forall i :: 0 <= i < |groups| ==> r[i] == ValueOf(groups[i])
  {
    if groups == [] then [] else [ValueOf(groups[0])] + ValuesOf(groups[1..])
  }

  function Hexes(values: seq<nat>): (r: seq<string>)
    ensures |r| == |values| && forall i :: 0 <= i < |values| ==> r[i] == HexOf(values[i])
  {
    if values == [] then [] else [HexOf(values[0])] + Hexes(values[1..])
  }

  // The bucket of a /64: its four groups, each in its one spelling.
  function BucketOf(prefix: seq<nat>): string { Join(Hexes(prefix)) + "::/64" }

  // ---- main results ----

  lemma ExpandedIsEight(f: Form)
    requires HexForm(f)
    ensures |Expanded(f)| == 8 && forall i :: 0 <= i < 8 ==> HexGroup(Expanded(f)[i])
  {
    var groups := Expanded(f);
    forall i | 0 <= i < 8 ensures HexGroup(groups[i]) {
      if i < |f.left| { assert groups[i] == f.left[i]; }
    }
  }

  function Prefix(f: Form): seq<nat>
    requires HexForm(f)
  {
    ExpandedIsEight(f);
    ValuesOf(Expanded(f)[..4])
  }

  lemma GroupsAreExpanded(f: Form)
    requires HexForm(f)
    ensures |Groups(Text(f))| == 8 && forall i :: 0 <= i < 8 ==> Groups(Text(f))[i] == Lower(Expanded(f)[i])
  {
    if f.compressed { GroupsWhenCompressed(f); } else { GroupsWhenFull(f); }
    assert Lower("0") == "0";
    ExpandedIsEight(f);
  }

  lemma BucketOfGroups(ip: string, groups: seq<string>)
    requires |groups| >= 4 && |Groups(ip)| >= 4
    requires forall i :: 0 <= i < 4 ==> HexGroup(groups[i]) && Groups(ip)[i] == Lower(groups[i])
    ensures Bucket6(ip) == BucketOf(ValuesOf(groups[..4]))
  {
    var four, values := FirstFour(Groups(ip)), ValuesOf(groups[..4]);
    forall i | 0 <= i < 4 ensures StripAll(four)[i] == Hexes(values)[i] {
      assert four[i] == Lower(groups[i]);
      StripIsHex(groups[i]);
    }
    assert StripAll(four) == Hexes(values);
  }

  // Every character of a text is the separator or in a part.
  lemma {:induction false} SplitCovers(s: string, c: char, i: nat)
    requires i < |s| && s[i] != c
    ensures exists k :: 0 <= k < |Split(s, c)| && s[i] in Split(s, c)[k]
    decreases |s|
  {
    var first := Before(s, c);
    BeforePrefix(s, c);
    if |first| >= |s| {
      assert s[i] in Split(s, c)[0];
    } else if i < |first| {
      assert first[i] == s[i] && Split(s, c)[0] == first;
    } else {
      var rest := s[|first| + 1..];
      assert s[i] == rest[i - |first| - 1];
      SplitCovers(rest, c, i - |first| - 1);
      var k :| 0 <= k < |Split(rest, c)| && s[i] in Split(rest, c)[k];
      assert Split(s, c)[k + 1] == Split(rest, c)[k];
    }
  }

  lemma {:induction false} BeforePrefix(s: string, c: char)
    ensures Before(s, c) <= s && (|Before(s, c)| < |s| ==> s[|Before(s, c)|] == c)
  {
    if s != "" && s[0] != c { BeforePrefix(s[1..], c); }
  }

  lemma {:induction false} HexHasNoDot(groups: seq<string>)
    requires forall g <- groups :: HexGroup(g)
    ensures '.' !in Join(groups)
  {
    if groups != [] {
      assert groups[0] in groups;
      if |groups| > 1 { HexHasNoDot(groups[1..]); }
    }
  }

  lemma NoDotOnePart(s: string)
    requires '.' !in s
    ensures |Split(s, '.')| == 1
  {
    BeforePrefix(s, '.');
  }

  // Dotted digits hold a dot, and nothing but digits and dots.
  lemma DottedDigitsHold(s: string)
    requires DottedDigits(s)
    ensures '.' in s && '%' !in s
  {
    if '.' !in s { NoDotOnePart(s); }
    forall i | 0 <= i < |s| && s[i] != '.' ensures '0' <= s[i] <= '9' {
      SplitCovers(s, '.', i);
      var k :| 0 <= k < |Split(s, '.')| && s[i] in Split(s, '.')[k];
      assert Digits(Split(s, '.')[k]);
    }
  }

  lemma MappedHolds(ip: string)
    requires Mapped(ip).Some?
    ensures '.' in ip && '%' !in ip
  {
    DottedDigitsHold(ip[7..]);
    forall i | 0 <= i < |ip| ensures ip[i] != '%' {
      if i < 7 { assert Lower(ip[..7])[i] == LowerChar(ip[i]); } else { assert ip[i] == ip[7..][i - 7]; }
    }
  }

  // Text in hex groups is not an IPv4-mapped address in dotted form, whatever its zone.
  // An IPv4 address counts as itself, and as the same when it comes mapped into IPv6, in any letter case; a text that
  // is no address counts as it stands.
  lemma MappedCountsAsItself(prefix: string, ip: string, isIPv4: string -> bool, isIPv6: string -> bool)
    requires Lower(prefix) == "::ffff:" && DottedDigits(ip) && !isIPv6(ip)
    ensures RateLimitBucket(ip, isIPv4, isIPv6) == ip
    ensures isIPv4(ip) ==> RateLimitBucket(prefix + ip, isIPv4, isIPv6) == ip
  {
    assert (prefix + ip)[..7] == prefix && (prefix + ip)[7..] == ip;
    assert ip != "" && ip[0] == Split(ip, '.')[0][0];
  }

  lemma HexIsNotMapped(f: Form)
    requires HexForm(f)
    ensures Mapped(Text(f)).None?
  {
    HexHasNoDot(f.left);
    HexHasNoDot(f.right);
    assert '.' !in Address(f);
    if f.zone != "" { assert Text(f)[|Address(f)|] == '%'; }
    if Mapped(Text(f)).Some? { MappedHolds(Text(f)); }
  }

  // The bucket is the spelling of the first 64 bits, whatever the use of "::", the letter case,
  // leading zeros or a zone.
  lemma BucketIsPrefix(f: Form, isIPv4: string -> bool, isIPv6: string -> bool)
    requires HexForm(f) && isIPv6(Text(f))
    ensures RateLimitBucket(Text(f), isIPv4, isIPv6) == BucketOf(Prefix(f))
  {
    HexIsNotMapped(f);
    GroupsAreExpanded(f);
    ExpandedIsEight(f);
    BucketOfGroups(Text(f), Expanded(f));
  }

  lemma HexOfPlain(n: nat)
    ensures Plain(HexOf(n))
  {
  }

  lemma BucketInjective(p: seq<nat>, q: seq<nat>)
    requires |p| == |q| == 4 && BucketOf(p) == BucketOf(q)
    ensures p == q
  {
    var a, b := Hexes(p), Hexes(q);
    forall i | 0 <= i < 4 ensures Plain(a[i]) && Plain(b[i]) {
      HexOfPlain(p[i]);
      HexOfPlain(q[i]);
    }
    assert BucketOf(p)[..|BucketOf(p)| - 5] == Join(a) && BucketOf(q)[..|BucketOf(q)| - 5] == Join(b);
    SplitJoin(a);
    SplitJoin(b);
    forall i | 0 <= i < 4 ensures p[i] == q[i] {
      assert a[i] == b[i];
      HexOfInjective(p[i], q[i]);
    }
  }

  // Two addresses share a bucket exactly if they share their first 64 bits.
  lemma SameBucketIffSamePrefix(f: Form, g: Form, isIPv4: string -> bool, isIPv6: string -> bool)
    requires HexForm(f) && HexForm(g) && isIPv6(Text(f)) && isIPv6(Text(g))
    ensures RateLimitBucket(Text(f), isIPv4, isIPv6) == RateLimitBucket(Text(g), isIPv4, isIPv6)
      <==> Prefix(f) == Prefix(g)
  {
    BucketIsPrefix(f, isIPv4, isIPv6);
    BucketIsPrefix(g, isIPv4, isIPv6);
    ExpandedIsEight(f);
    ExpandedIsEight(g);
    if BucketOf(Prefix(f)) == BucketOf(Prefix(g)) { BucketInjective(Prefix(f), Prefix(g)); }
  }

  // ---- a dotted tail ----

  // An address whose last two groups are written as an IPv4 address. `right` holds the hex groups
  // before it; the code counts `dotted` as one group, not two.
  function TrueExpansion(left: seq<string>, right: seq<string>, low: seq<string>): seq<string> {
    left + Zeros(6 - |left| - |right|) + right + low
  }

  ghost predicate DottedForm(left: seq<string>, right: seq<string>, dotted: string, low: seq<string>, zone: string) {
    && (zone == "" || zone[0] == '%')
    && (forall g <- left :: HexGroup(g) && Plain(g)) && (forall g <- right :: HexGroup(g) && Plain(g))
    && Plain(dotted) && |low| == 2 && |left| + |right| <= 5
  }

  lemma DottedIsPlain(left: seq<string>, right: seq<string>, dotted: string, low: seq<string>, zone: string)
    requires DottedForm(left, right, dotted, low, zone)
    ensures PlainForm(Form(left, true, right + [dotted], zone))
  {
  }

  lemma FillIs(left: seq<string>, right: seq<string>, zeros: int)
    requires zeros == 8 - |left| - |right|
    ensures Fill(left, right) == left + Zeros(zeros) + right
  {
  }

  lemma DottedGroups(left: seq<string>, right: seq<string>, dotted: string, low: seq<string>, zone: string)
    requires DottedForm(left, right, dotted, low, zone)
    ensures Groups(DottedText(left, right, dotted, zone)) ==
      LowerAll(left) + Zeros(7 - |left| - |right|) + LowerAll(right + [dotted])
  {
    var f := Form(left, true, right + [dotted], zone);
    DottedIsPlain(left, right, dotted, low, zone);
    GroupsWhenCompressed(f);
    FillIs(LowerAll(left), LowerAll(f.right), 7 - |left| - |right|);
  }

  // The code's four groups, in the letter case written.
  function CodeFour(left: seq<string>, right: seq<string>): seq<string>
    requires |left| + |right| <= 5
  {
    (left + Zeros(7 - |left| - |right|) + right)[..4]
  }

  lemma DottedBucket(left: seq<string>, right: seq<string>, dotted: string, low: seq<string>, zone: string)
    requires DottedForm(left, right, dotted, low, zone)
    ensures Bucket6(DottedText(left, right, dotted, zone)) == BucketOf(ValuesOf(CodeFour(left, right)))
  {
    DottedGroups(left, right, dotted, low, zone);
    var groups := left + Zeros(7 - |left| - |right|) + right;
    var ip := DottedText(left, right, dotted, zone);
    assert Lower("0") == "0";
    forall i | 0 <= i < 4 ensures HexGroup(groups[i]) && Groups(ip)[i] == Lower(groups[i]) {
      if i < |left| {
        assert groups[i] == left[i];
      } else if i < 7 - |right| {
        assert groups[i] == "0";
      } else {
        assert groups[i] == right[i - (7 - |right|)];
      }
    }
    BucketOfGroups(ip, groups);
  }

  lemma ValueOfZero()
    ensures ValueOf("0") == 0
  {
    assert "0"[..0] == "";
  }

  lemma FourAt(left: seq<string>, right: seq<string>, low: seq<string>, i: nat)
    requires |left| + |right| <= 5 && |low| == 2 && i < 4
    ensures CodeFour(left, right)[i] ==
      if i < |left| then left[i] else if i < 7 - |right| then "0" else right[i - (7 - |right|)]
    ensures TrueExpansion(left, right, low)[i] ==
      if i < |left| then left[i] else if i < 6 - |right| then "0" else right[i - (6 - |right|)]
  {
  }

  function DottedText(left: seq<string>, right: seq<string>, dotted: string, zone: string): string {
    Text(Form(left, true, right + [dotted], zone))
  }

  // The bucket is the true /64 exactly if the groups that the extra zero pushes out of place are zero:
  // those of `right` that lie in the first 64 bits.
  lemma DottedTailIsRightIff(left: seq<string>, right: seq<string>, dotted: string, low: seq<string>,
                             zone: string, isIPv4: string -> bool, isIPv6: string -> bool)
    requires DottedForm(left, right, dotted, low, zone)
    requires var ip := DottedText(left, right, dotted, zone);
      isIPv6(ip) && (Mapped(ip).Some? ==> !isIPv4(Mapped(ip).value))
    ensures
      var four := TrueExpansion(left, right, low)[..4];
      RateLimitBucket(DottedText(left, right, dotted, zone), isIPv4, isIPv6) == BucketOf(ValuesOf(four))
      <==> forall i :: 0 <= i < |right| - 2 ==> ValueOf(right[i]) == 0
  {
    DottedBucket(left, right, dotted, low, zone);
    var code, true4 := ValuesOf(CodeFour(left, right)), ValuesOf(TrueExpansion(left, right, low)[..4]);
    SameFourIff(left, right, low, code, true4);
    if BucketOf(code) == BucketOf(true4) { BucketInjective(code, true4); }
  }

  // One address for which it is wrong: ::1:2:3:4:5.6.7.8 lies in 0:0:1:2::/64.
  lemma DottedTailCanBeWrong(isIPv4: string -> bool, isIPv6: string -> bool)
    requires isIPv6(DottedText([], ["1", "2", "3", "4"], "5.6.7.8", ""))
    ensures RateLimitBucket(DottedText([], ["1", "2", "3", "4"], "5.6.7.8", ""), isIPv4, isIPv6)
      != BucketOf([0, 0, 1, 2])
  {
    var right := ["1", "2", "3", "4"];
    DottedExampleFour();
    ExampleIsNotMapped(right + ["5.6.7.8"]);
    assert ValueOf(right[0]) == 1;
    DottedTailIsRightIff([], right, "5.6.7.8", ["506", "708"], "", isIPv4, isIPv6);
  }

  lemma ExampleIsNotMapped(groups: seq<string>)
    requires |groups| > 1 && groups[0] == "1"
    ensures Mapped(Text(Form([], true, groups, ""))).None?
  {
    var ip := Text(Form([], true, groups, ""));
    assert ip[2] == '1';
    if |ip| > 7 { assert Lower(ip[..7])[2] == LowerChar(ip[2]); }
  }

  lemma DottedExampleFour()
    ensures ValuesOf(TrueExpansion([], ["1", "2", "3", "4"], ["506", "708"])[..4]) == [0, 0, 1, 2]
    ensures ValueOf("1") == 1
  {
    assert "1"[..0] == "" && "2"[..0] == "" && "0"[..0] == "";
    assert ValueOf("1") == 1 && ValueOf("2") == 2 && ValueOf("0") == 0;
    assert Zeros(2) == ["0", "0"];
    assert TrueExpansion([], ["1", "2", "3", "4"], ["506", "708"])[..4] == ["0", "0", "1", "2"];
  }

  // Seven parts, the last of them dotted: a "::" in the zone adds a group behind them.
  lemma GroupsWhenSeven(f: Form)
    requires PlainGroups(f) && !f.compressed && |f.left| == 7
    ensures |Groups(Text(f))| >= 7 && Groups(Text(f))[..7] == LowerAll(f.left)
  {
    var left := LowerAll(f.left);
    AddressPart(f);
    LowerAddress(f);
    LowerAllPlain(f.left);
    JoinPlain(left);
    assert Join(left) + "" == Join(left);
    WholeSplit(Join(left));
    PartsJoin(left);
    assert SplitDouble(Before(Lower(Text(f)), '%')) == (Join(left), "");
    var groups := Groups(Text(f));
    if HasDouble(Text(f)) {
      FillIs(left, [], 1);
      assert groups == Fill(left, []);
    } else {
      assert groups == left;
    }
    assert groups[..7] == left;
  }

  // Written out in full a dotted tail does no harm: six groups come before it.
  lemma DottedInFullIsRight(left: seq<string>, dotted: string, zone: string,
                            isIPv4: string -> bool, isIPv6: string -> bool)
    requires |left| == 6 && (forall g <- left :: HexGroup(g) && Plain(g)) && Plain(dotted)
    requires zone == "" || zone[0] == '%'
    requires var ip := Text(Form(left + [dotted], false, [], zone));
      isIPv6(ip) && (Mapped(ip).Some? ==> !isIPv4(Mapped(ip).value))
    ensures RateLimitBucket(Text(Form(left + [dotted], false, [], zone)), isIPv4, isIPv6)
      == BucketOf(ValuesOf(left[..4]))
  {
    var f := Form(left + [dotted], false, [], zone);
    GroupsWhenSeven(f);
    forall i | 0 <= i < 4 ensures HexGroup(left[i]) && Groups(Text(f))[i] == Lower(left[i]) {
      assert left[i] in left && (left + [dotted])[i] == left[i];
      assert Groups(Text(f))[..7][i] == Groups(Text(f))[i];
    }
    BucketOfGroups(Text(f), left);
  }

  lemma SameFourIff(left: seq<string>, right: seq<string>, low: seq<string>, code: seq<nat>, true4: seq<nat>)
    requires |left| + |right| <= 5 && |low| == 2
    requires code == ValuesOf(CodeFour(left, right)) && true4 == ValuesOf(TrueExpansion(left, right, low)[..4])
    ensures code == true4 <==> forall i :: 0 <= i < |right| - 2 ==> ValueOf(right[i]) == 0
  {
    ValueOfZero();
    forall i | 0 <= i < 4
      ensures code[i] == if i < |left| then ValueOf(left[i]) else if i < 7 - |right| then 0
        else ValueOf(right[i - (7 - |right|)])
      ensures true4[i] == if i < |left| then ValueOf(left[i]) else if i < 6 - |right| then 0
        else ValueOf(right[i - (6 - |right|)])
    {
      FourAt(left, right, low, i);
    }
    if code == true4 { AllZero(right, code, true4); }
  }

  lemma AllZero(right: seq<string>, code: seq<nat>, true4: seq<nat>)
    requires |code| == |true4| == 4 && code == true4 && |right| <= 5
    requires forall i :: 6 - |right| <= i < 4 ==> true4[i] == ValueOf(right[i - (6 - |right|)])
    requires forall i :: 7 - |right| <= i < 4 ==> code[i] == ValueOf(right[i - (7 - |right|)])
    requires |right| >= 3 ==> code[6 - |right|] == 0
    ensures forall i :: 0 <= i < |right| - 2 ==> ValueOf(right[i]) == 0
  {
    if |right| >= 3 {
      assert true4[6 - |right|] == ValueOf(right[0]);
      if |right| >= 4 { assert true4[7 - |right|] == ValueOf(right[1]) && code[7 - |right|] == ValueOf(right[0]); }
      if |right| >= 5 { assert true4[3] == ValueOf(right[2]) && code[3] == ValueOf(right[1]); }
    }
  }
}

/**
 IPv6 text expansion and the scope of IP addresses.

 `Expand` reads the text forms of section 2.2 of RFC 4291; `ClassifyIpv6` looks at the eight groups and
 sends addresses that embed an IPv4 address through `ClassifyIpv4`.
 */
module Addresses {
  import opened HashGraphs

  // ---------------------------------------------------------------- text

  /** Lower case; no other character turns into a hexadecimal digit, a colon or a dot. */
  function Lower(s: string): (r: string)
    ensures |r| == |s|
  {
    seq(|s|, i requires 0 <= i < |s| => if 'A' <= s[i] <= 'Z' then s[i] - 'A' + 'a' else s[i])
  }

  function Split(s: string, c: char): (r: seq<string>)
    ensures r != []
  {
    if s == "" then [""]
    else
      var rest := Split(s[1..], c);
      if s[0] == c then [""] + rest else [[s[0]] + rest[0]] + rest[1..]
  }

  function Join(ts: seq<string>, c: char): string
    requires ts != []
  {
    if |ts| == 1 then ts[0] else ts[0] + [c] + Join(ts[1..], c)
  }

  /** Where the first double colon starts. */
  function FindDouble(s: string): (r: Option<nat>)
    ensures r.Some? ==> r.value + 1 < |s| && s[r.value] == ':' && s[r.value + 1] == ':'
  {
    if |s| < 2 then None
    else if s[0] == ':' && s[1] == ':' then Some(0)
    else match FindDouble(s[1..]) case None => None case Some(i) => Some(i + 1)
  }

  predicate IsDigit(c: char) { '0' <= c <= '9' }

  predicate IsHex(c: char) { IsDigit(c) || 'a' <= c <= 'f' }

  predicate All(s: string, p: char -> bool) { forall i :: 0 <= i < |s| ==> p(s[i]) }

  function HexDigit(c: char): (r: nat)
    requires IsHex(c)
    ensures r < 16
  {
    if IsDigit(c) then c as int - '0' as int else c as int - 'a' as int + 10
  }

  function HexValue(s: string): nat
    requires All(s, IsHex)
  {
    if s == "" then 0 else 16 * HexValue(s[..|s| - 1]) + HexDigit(s[|s| - 1])
  }

  /** The number digits spell in a base up to ten. */
  function Digits(s: string, base: nat): nat
    requires All(s, IsDigit)
  {
    if s == "" then 0 else base * Digits(s[..|s| - 1], base) + (s[|s| - 1] as int - '0' as int)
  }

  function Power10(n: nat): nat { if n == 0 then 1 else 10 * Power10(n - 1) }

  function IndexOf(s: string, c: char): (r: nat)
    ensures r <= |s| && (r < |s| ==> s[r] == c)
  {
    if s == "" || s[0] == c then 0 else 1 + IndexOf(s[1..], c)
  }

  predicate IsBit(c: char) { c == '0' || c == '1' }

  /**
   A token of hexadecimal digits as JavaScript's `Number` reads it: nothing is zero, decimal digits
   may be followed by an exponent, and "0b" starts a binary numeral.  None is not a number.
   */
  function NumberOf(s: string): Option<nat> {
    var e := IndexOf(s, 'e');
    if All(s, IsDigit) then Some(Digits(s, 10))
    else if |s| > 2 && s[..2] == "0b" && All(s[2..], IsBit) then
      assert All(s[2..], IsDigit);
      Some(Digits(s[2..], 2))
    else if 0 < e < |s| - 1 && All(s[..e], IsDigit) && All(s[e + 1..], IsDigit) then
      Some(Digits(s[..e], 10) * Power10(Digits(s[e + 1..], 10)))
    else None
  }

  // ---------------------------------------------------------------- expansion

  function Octets(ts: seq<string>): (r: Option<seq<nat>>)
    ensures r.Some? ==> |r.value| == |ts| && forall i :: 0 <= i < |ts| ==> r.value[i] < 256
  {
    if ts == [] then Some([])
    else match (NumberOf(ts[0]), Octets(ts[1..]))
      case (Some(n), Some(ns)) => if n < 256 then Some([n] + ns) else None
      case _ => None
  }

  /** The four octets of a dotted text. */
  function DottedOctets(s: string): (r: Option<seq<nat>>)
    ensures r.Some? ==> |r.value| == 4 && forall i :: 0 <= i < 4 ==> r.value[i] < 256
  {
    var ts := Split(s, '.');
    if |ts| != 4 then None else Octets(ts)
  }

  predicate HexToken(s: string) { 1 <= |s| <= 4 && All(s, IsHex) }

  /** The groups one token stands for; a dotted token only as the last. */
  function TokenGroups(s: string, last: bool): Option<seq<nat>> {
    if '.' in s then
      if !last then None
      else match DottedOctets(s)
        case None => None
        case Some(o) => Some([o[0] * 256 + o[1], o[2] * 256 + o[3]])
    else if HexToken(s) then Some([HexValue(s)])
    else None
  }

  function ParseTokens(ts: seq<string>): Option<seq<nat>> {
    if ts == [] then Some([])
    else match (TokenGroups(ts[0], |ts| == 1), ParseTokens(ts[1..]))
      case (Some(g), Some(gs)) => Some(g + gs)
      case _ => None
  }

  function ParseSide(s: string): Option<seq<nat>> {
    if s == "" then Some([]) else ParseTokens(Split(s, ':'))
  }

  /** The groups pushed so far, then the rest. */
  function Onto(parts: seq<nat>, rest: Option<seq<nat>>): Option<seq<nat>> {
    match rest case None => None case Some(gs) => Some(parts + gs)
  }

  method ParseIpv6Side(value: string) returns (r: Option<seq<nat>>)
    ensures r == ParseSide(value)
  {
    if |value| == 0 { return Some([]); }
    var tokens := Split(value, ':');
    var parts: seq<nat> := [];
    if ParseTokens(tokens).Some? { assert parts + ParseTokens(tokens).value == ParseTokens(tokens).value; }
    assert tokens[0..] == tokens;
    for i := 0 to |tokens|
      invariant ParseTokens(tokens) == Onto(parts, ParseTokens(tokens[i..]))
    {
      assert tokens[i..][1..] == tokens[i + 1..];
      var groups := TokenGroups(tokens[i], i == |tokens| - 1);
      if groups.None? { return None; }
      ghost var rest := ParseTokens(tokens[i + 1..]);
      if rest.Some? { assert parts + (groups.value + rest.value) == parts + groups.value + rest.value; }
      parts := parts + groups.value;
    }
    assert parts + [] == parts;
    r := Some(parts);
  }

  predicate Allowed(c: char) { IsHex(c) || c == ':' || c == '.' }

  function Zeros(n: nat): (r: seq<nat>)
    ensures |r| == n
  {
    seq(n, _ => 0)
  }

  /** The eight groups of an IPv6 text. */
  function Expand(value: string): Option<seq<nat>> {
    var s := Lower(value);
    if s == "" || !All(s, Allowed) then None
    else match FindDouble(s)
      case None => (match ParseSide(s) case None => None case Some(gs) => if |gs| == 8 then Some(gs) else None)
      case Some(i) =>
        if FindDouble(s[i + 2..]).Some? then None
        else match (ParseSide(s[..i]), ParseSide(s[i + 2..]))
          case (Some(left), Some(right)) =>
            if |left| + |right| > 7 then None else Some(left + Zeros(8 - |left| - |right|) + right)
          case _ => None
  }

  // ---------------------------------------------------------------- eight groups of sixteen bits

  ghost predicate Groups(gs: seq<nat>) { forall g :: g in gs ==> g < 0x10000 }

  lemma {:induction false} HexBounded(s: string)
    requires HexToken(s)
    ensures HexValue(s) < 0x10000
  {
    HexBound(s, 4);
  }

  lemma {:induction false} HexBound(s: string, n: nat)
    requires All(s, IsHex) && |s| <= n <= 4
    ensures HexValue(s) < (if n == 0 then 1 else if n == 1 then 16 else if n == 2 then 256
                           else if n == 3 then 4096 else 65536)
    decreases n
  {
    if s != "" { HexBound(s[..|s| - 1], n - 1); }
  }

  lemma {:induction false} TokensBounded(ts: seq<string>)
    ensures ParseTokens(ts).Some? ==> Groups(ParseTokens(ts).value)
    decreases |ts|
  {
    if ts != [] {
      TokensBounded(ts[1..]);
      var g := TokenGroups(ts[0], |ts| == 1);
      if HexToken(ts[0]) { HexBounded(ts[0]); }
      assert g.Some? ==> Groups(g.value);
    }
  }

  /** Whatever is accepted has eight groups of sixteen bits. */
  lemma ExpandBounded(value: string)
    ensures Expand(value).Some? ==> |Expand(value).value| == 8 && Groups(Expand(value).value)
  {
    var s := Lower(value);
    hide ParseTokens, Split;
    forall t ensures ParseSide(t).Some? ==> Groups(ParseSide(t).value) { TokensBounded(Split(t, ':')); }
  }

  // ---------------------------------------------------------------- every spelling is read back

  /** A group of one to four hexadecimal digits, or four decimal octets. */
  datatype Token = Hex(text: string) | Dotted(octets: seq<string>)

  predicate DecimalOctet(s: string) { s != "" && All(s, IsDigit) && Digits(s, 10) < 256 }

  predicate GoodToken(t: Token) {
    match t
    case Hex(text) => HexToken(text)
    case Dotted(octets) => |octets| == 4 && forall i :: 0 <= i < 4 ==> DecimalOctet(octets[i])
  }

  function Text(t: Token): string
    requires GoodToken(t)
  {
    match t case Hex(text) => text case Dotted(octets) => Join(octets, '.')
  }

  function Meaning(t: Token): seq<nat>
    requires GoodToken(t)
  {
    match t
    case Hex(text) => [HexValue(text)]
    case Dotted(o) => [Digits(o[0], 10) * 256 + Digits(o[1], 10), Digits(o[2], 10) * 256 + Digits(o[3], 10)]
  }

  /** One side of an address: groups, of which only the last may be dotted. */
  predicate GoodSide(ts: seq<Token>) {
    forall i :: 0 <= i < |ts| ==> GoodToken(ts[i]) && (ts[i].Dotted? ==> i == |ts| - 1)
  }

  function Texts(ts: seq<Token>): (r: seq<string>)
    requires GoodSide(ts)
    ensures |r| == |ts|
  {
    if ts == [] then [] else [Text(ts[0])] + Texts(ts[1..])
  }

  function SideText(ts: seq<Token>): string
    requires GoodSide(ts)
  {
    if ts == [] then "" else Join(Texts(ts), ':')
  }

  function SideMeaning(ts: seq<Token>): seq<nat>
    requires GoodSide(ts)
  {
    if ts == [] then [] else Meaning(ts[0]) + SideMeaning(ts[1..])
  }

  // Splitting undoes joining.

  lemma {:induction false} SplitOne(s: string, c: char)
    requires c !in s
    ensures Split(s, c) == [s]
    decreases |s|
  {
    if s != "" {
      SplitOne(s[1..], c);
      assert [s[0]] + s[1..] == s;
    }
  }

  lemma {:induction false} SplitFirst(a: string, b: string, c: char)
    requires c !in a
    ensures Split(a + [c] + b, c) == [a] + Split(b, c)
    decreases |a|
  {
    var s := a + [c] + b;
    if a == "" {
      assert s == [c] + b;
      assert s[1..] == b;
    } else {
      assert s[1..] == a[1..] + [c] + b;
      SplitFirst(a[1..], b, c);
      assert [a[0]] + a[1..] == a;
    }
  }

  lemma {:induction false} SplitJoins(ts: seq<string>, c: char)
    requires ts != [] && forall i :: 0 <= i < |ts| ==> c !in ts[i]
    ensures Split(Join(ts, c), c) == ts
    decreases |ts|
  {
    if |ts| == 1 {
      SplitOne(ts[0], c);
    } else {
      SplitFirst(ts[0], Join(ts[1..], c), c);
      SplitJoins(ts[1..], c);
    }
  }

  /** What a text is made of. */
  lemma {:induction false} JoinMade(ts: seq<string>, c: char, p: char -> bool)
    requires ts != [] && forall i :: 0 <= i < |ts| ==> ts[i] != "" && All(ts[i], p)
    ensures var s := Join(ts, c);
            && s != "" && s[0] == ts[0][0] && p(s[0]) && p(s[|s| - 1])
            && (forall i :: 0 <= i < |s| ==> p(s[i]) || s[i] == c)
            && (|ts| >= 2 ==> c in s)
            && (forall i :: 0 <= i < |s| - 1 ==> p(s[i]) || p(s[i + 1]))
    decreases |ts|
  {
    if |ts| > 1 { JoinMade(ts[1..], c, p); }
  }

  lemma {:induction false} OctetsRead(ts: seq<string>)
    requires forall i :: 0 <= i < |ts| ==> DecimalOctet(ts[i])
    ensures Octets(ts).Some? && |Octets(ts).value| == |ts|
    ensures forall i :: 0 <= i < |ts| ==> DecimalOctet(ts[i]) && Octets(ts).value[i] == Digits(ts[i], 10)
    decreases |ts|
  {
    if ts != [] { OctetsRead(ts[1..]); }
  }

  predicate InToken(c: char) { IsHex(c) || c == '.' }

  lemma TokenRead(t: Token, last: bool)
    requires GoodToken(t) && (t.Dotted? ==> last)
    ensures TokenGroups(Text(t), last) == Some(Meaning(t))
    ensures Text(t) != "" && All(Text(t), InToken)
  {
    match t {
      case Hex(text) =>
      case Dotted(octets) =>
        forall i | 0 <= i < 4 ensures octets[i] != "" && All(octets[i], IsDigit) && '.' !in octets[i] {
          assert DecimalOctet(octets[i]);
        }
        SplitJoins(octets, '.');
        JoinMade(octets, '.', IsDigit);
        OctetsRead(octets);
    }
  }

  lemma {:induction false} TokensRead(ts: seq<Token>)
    requires GoodSide(ts)
    ensures ParseTokens(Texts(ts)) == Some(SideMeaning(ts))
    ensures forall i :: 0 <= i < |ts| ==> Texts(ts)[i] != "" && All(Texts(ts)[i], InToken)
    decreases |ts|
  {
    if ts != [] {
      TokenRead(ts[0], |ts| == 1);
      TokensRead(ts[1..]);
    }
  }

  /** A side is read back; it is neither empty nor does it touch a colon at either end. */
  lemma SideRead(ts: seq<Token>)
    requires GoodSide(ts)
    ensures var s := SideText(ts);
            && ParseSide(s) == Some(SideMeaning(ts))
            && All(s, Allowed) && (s == "" <==> ts == [])
            && (s != "" ==> s[0] != ':' && s[|s| - 1] != ':')
            && (forall i :: 0 <= i < |s| - 1 ==> s[i] != ':' || s[i + 1] != ':')
  {
    if ts != [] {
      TokensRead(ts);
      forall i | 0 <= i < |ts| ensures ':' !in Texts(ts)[i] { assert All(Texts(ts)[i], InToken); }
      SplitJoins(Texts(ts), ':');
      JoinMade(Texts(ts), ':', InToken);
    }
  }

  lemma {:induction false} NoDouble(s: string)
    requires forall i :: 0 <= i < |s| - 1 ==> s[i] != ':' || s[i + 1] != ':'
    ensures FindDouble(s) == None
    decreases |s|
  {
    if |s| >= 2 { NoDouble(s[1..]); }
  }

  lemma {:induction false} DoubleFound(left: string, right: string)
    requires forall i :: 0 <= i < |left| - 1 ==> left[i] != ':' || left[i + 1] != ':'
    requires left != "" ==> left[|left| - 1] != ':'
    ensures FindDouble(left + "::" + right) == Some(|left|)
    decreases |left|
  {
    var s := left + "::" + right;
    if left != "" {
      assert s[1..] == left[1..] + "::" + right;
      DoubleFound(left[1..], right);
    }
  }

  /** A full spelling, in any case, expands to its groups when there are eight of them. */
  lemma ExpandFull(value: string, side: seq<Token>)
    requires GoodSide(side) && side != [] && Lower(value) == SideText(side)
    ensures Expand(value) == if |SideMeaning(side)| == 8 then Some(SideMeaning(side)) else None
  {
    hide SideText, SideMeaning, ParseSide, FindDouble;
    SideRead(side);
    NoDouble(SideText(side));
  }

  /** A spelling with "::" expands to its groups with the zeros put back, when at least one is missing. */
  lemma ExpandCompressed(value: string, left: seq<Token>, right: seq<Token>)
    requires GoodSide(left) && GoodSide(right) && Lower(value) == SideText(left) + "::" + SideText(right)
    ensures var l, r := SideMeaning(left), SideMeaning(right);
            Expand(value) == if |l| + |r| > 7 then None else Some(l + Zeros(8 - |l| - |r|) + r)
  {
    hide SideText, SideMeaning, ParseSide, FindDouble, Zeros;
    SideRead(left);
    SideRead(right);
    var l, r := SideText(left), SideText(right);
    var s := l + "::" + r;
    DoubleFound(l, r);
    NoDouble(r);
    assert s[..|l|] == l && s[|l| + 2..] == r;
    assert All(s, Allowed);
  }

  // ---------------------------------------------------------------- scopes

  datatype Scope = Public | Private | Loopback | LinkLocal | Multicast | Reserved | Unknown

  /** The scope of four octets. */
  function Ipv4Scope(o: seq<nat>): Scope
    requires |o| == 4
  {
    if o[0] == 127 then Loopback
    else if o[0] == 169 && o[1] == 254 then LinkLocal
    else if o[0] == 10 || (o[0] == 172 && 16 <= o[1] <= 31) || (o[0] == 192 && o[1] == 168) then Private
    else if 224 <= o[0] <= 239 then Multicast
    else if o[0] == 0 || o[0] >= 240 || (o[0] == 100 && 64 <= o[1] <= 127)
            || (o[0] == 192 && o[1] == 0 && o[2] == 0) || (o[0] == 192 && o[1] == 0 && o[2] == 2)
            || (o[0] == 192 && o[1] == 88 && o[2] == 99) || (o[0] == 198 && (o[1] == 18 || o[1] == 19))
            || (o[0] == 198 && o[1] == 51 && o[2] == 100) || (o[0] == 203 && o[1] == 0 && o[2] == 113) then Reserved
    else Public
  }

  function ClassifyIpv4(value: string): Scope {
    match DottedOctets(value) case None => Unknown case Some(o) => Ipv4Scope(o)
  }

  function Decimal(n: nat): string {
    if n < 10 then [(n + '0' as int) as char] else Decimal(n / 10) + [(n % 10 + '0' as int) as char]
  }

  /** The dotted text of two groups. */
  function Ipv4FromHextets(high: nat, low: nat): string {
    Join([Decimal(high / 256), Decimal(high % 256), Decimal(low / 256), Decimal(low % 256)], '.')
  }

  /** The groups from `lo` up to `hi` are zero. */
  predicate Zero(p: seq<nat>, lo: nat, hi: nat)
    requires hi <= |p|
  {
    forall i :: lo <= i < hi ==> p[i] == 0
  }

  /** The masked comparisons of the program, as divisions. */
  function ScopeOf(p: seq<nat>): Scope
    requires |p| == 8
  {
    if Zero(p, 0, 8) then Reserved
    else if Zero(p, 0, 7) && p[7] == 1 then Loopback
    else if p[0] / 0x200 == 0xfc00 / 0x200 then Private
    else if p[0] / 0x40 == 0xfe80 / 0x40 then LinkLocal
    else if p[0] / 0x40 == 0xfec0 / 0x40 then Reserved
    else if p[0] / 0x100 == 0xff00 / 0x100 then Multicast
    else
      var compatible := Zero(p, 0, 6);
      var translated := Zero(p, 0, 4) && p[4] == 0xffff && p[5] == 0;
      var embedded :=
        if compatible || translated || (Zero(p, 0, 5) && p[5] == 0xffff) then Some(Ipv4FromHextets(p[6], p[7]))
        else if p[0] == 0x2002 then Some(Ipv4FromHextets(p[1], p[2]))
        else if p[0] == 0x64 && p[1] == 0xff9b && Zero(p, 2, 6) then Some(Ipv4FromHextets(p[6], p[7]))
        else None;
      if embedded.Some? && ClassifyIpv4(embedded.value) != Public then ClassifyIpv4(embedded.value)
      else if embedded.Some? && (compatible || translated) then Reserved
      else if (p[0] == 0x64 && p[1] == 0xff9b && p[2] == 1) || (p[0] == 0x100 && Zero(p, 1, 4))
              || (p[0] == 0x2001 && p[1] <= 0x1ff) || (p[0] == 0x2001 && p[1] == 0xdb8)
              || (p[0] == 0x3fff && p[1] / 0x1000 == 0) then Reserved
      else Public
  }

  function ClassifyIpv6(value: string): Scope {
    ExpandBounded(value);
    match Expand(value) case None => Unknown case Some(p) => ScopeOf(p)
  }

  lemma {:induction false} DecimalRead(n: nat)
    ensures var s := Decimal(n); s != "" && All(s, IsDigit) && Digits(s, 10) == n
    decreases n
  {
    if n >= 10 { DecimalRead(n / 10); }
    var s := Decimal(n);
    assert s[..|s| - 1] == if n < 10 then "" else Decimal(n / 10);
  }

  /** Writing two groups as dotted text and reading it gives their four octets. */
  lemma HextetsRead(high: nat, low: nat)
    requires high < 0x10000 && low < 0x10000
    ensures DottedOctets(Ipv4FromHextets(high, low)) == Some([high / 256, high % 256, low / 256, low % 256])
  {
    var o := [high / 256, high % 256, low / 256, low % 256];
    var ts := [Decimal(o[0]), Decimal(o[1]), Decimal(o[2]), Decimal(o[3])];
    forall i | 0 <= i < 4 ensures DecimalOctet(ts[i]) && Digits(ts[i], 10) == o[i] && '.' !in ts[i] {
      DecimalRead(o[i]);
      assert ts[i] == Decimal(o[i]);
    }
    hide Decimal, Digits;
    SplitJoins(ts, '.');
    OctetsRead(ts);
    assert Octets(ts).value == o;
  }

  /** The four octets of two groups. */
  function FourOctets(high: nat, low: nat): seq<nat> { [high / 256, high % 256, low / 256, low % 256] }

  /** An IPv4-mapped address (section 2.5.5.2 of RFC 4291). */
  predicate Mapped(p: seq<nat>) { |p| == 8 && Zero(p, 0, 5) && p[5] == 0xffff }

  /** An address under the well-known prefix 64:ff9b::/96 (section 2.1 of RFC 6052). */
  predicate WellKnown(p: seq<nat>) { |p| == 8 && p[0] == 0x64 && p[1] == 0xff9b && Zero(p, 2, 6) }

  /** A 6to4 address, 2002::/16. */
  predicate SixToFour(p: seq<nat>) { |p| == 8 && p[0] == 0x2002 }

  /** Mapped, well-known-prefix and 6to4 addresses have exactly the scope of the IPv4 address inside. */
  lemma EmbeddedScope(p: seq<nat>)
    requires |p| == 8 && Groups(p) && (Mapped(p) || WellKnown(p) || SixToFour(p))
    ensures ScopeOf(p) == if SixToFour(p) then Ipv4Scope(FourOctets(p[1], p[2])) else Ipv4Scope(FourOctets(p[6], p[7]))
  {
    hide ScopeOf, Ipv4Scope;
    GroupsAt(p);
    if Mapped(p) { MappedScope(p); }
    else if WellKnown(p) { WellKnownScope(p); }
    else { SixToFourScope(p); }
  }

  lemma MappedScope(p: seq<nat>)
    requires Mapped(p) && p[6] < 0x10000 && p[7] < 0x10000
    ensures ScopeOf(p) == Ipv4Scope(FourOctets(p[6], p[7])) && !SixToFour(p)
  {
    HextetsRead(p[6], p[7]);
    hide Ipv4FromHextets, DottedOctets, Ipv4Scope;
    assert p[0] == 0 && !Zero(p, 0, 8) && !Zero(p, 0, 7) && !Zero(p, 0, 6);
  }

  lemma WellKnownScope(p: seq<nat>)
    requires WellKnown(p) && p[6] < 0x10000 && p[7] < 0x10000
    ensures ScopeOf(p) == Ipv4Scope(FourOctets(p[6], p[7])) && !SixToFour(p)
  {
    HextetsRead(p[6], p[7]);
    hide Ipv4FromHextets, DottedOctets, Ipv4Scope;
    NonZero(p);
    assert p[2] == 0;
  }

  lemma SixToFourScope(p: seq<nat>)
    requires SixToFour(p) && p[1] < 0x10000 && p[2] < 0x10000
    ensures ScopeOf(p) == Ipv4Scope(FourOctets(p[1], p[2]))
  {
    HextetsRead(p[1], p[2]);
    hide Ipv4FromHextets, DottedOctets, Ipv4Scope;
    NonZero(p);
  }

  lemma NonZero(p: seq<nat>)
    requires |p| == 8 && p[0] != 0
    ensures forall k :: 0 < k <= 8 ==> !Zero(p, 0, k)
  {}

  lemma GroupsAt(p: seq<nat>)
    requires Groups(p)
    ensures forall i :: 0 <= i < |p| ==> p[i] < 0x10000
  {
    forall i | 0 <= i < |p| ensures p[i] < 0x10000 { assert p[i] in p; }
  }

  /**
   The deprecated forms are never public: other than :: and ::1 they are reserved where the IPv4
   address is public.
   */
  lemma DeprecatedScope(p: seq<nat>)
    requires |p| == 8 && Groups(p) && Zero(p, 0, 6) && (p[6] != 0 || p[7] > 1)
    ensures var inside := Ipv4Scope(FourOctets(p[6], p[7]));
            ScopeOf(p) == if inside == Public then Reserved else inside
  {
    GroupsAt(p);
    HextetsRead(p[6], p[7]);
    hide Ipv4FromHextets, DottedOctets, Ipv4Scope;
  }

  /** `value` spells the groups `p`, in full or with "::", in any case and with or without a dotted tail. */
  ghost predicate Spells(value: string, p: seq<nat>) {
    || (exists side ::
          GoodSide(side) && side != [] && Lower(value) == SideText(side) && p == SideMeaning(side) && |p| == 8)
    || (exists left, right ::
          && GoodSide(left) && GoodSide(right) && Lower(value) == SideText(left) + "::" + SideText(right)
          && |SideMeaning(left)| + |SideMeaning(right)| <= 7
          && p == SideMeaning(left) + Zeros(8 - |SideMeaning(left)| - |SideMeaning(right)|) + SideMeaning(right))
  }

  lemma SpelledExpands(value: string, p: seq<nat>)
    requires Spells(value, p)
    ensures Expand(value) == Some(p)
  {
    hide SideText, SideMeaning, Expand, Zeros, GoodSide, Lower;
    if side :| GoodSide(side) && side != [] && Lower(value) == SideText(side) && p == SideMeaning(side) && |p| == 8 {
      ExpandFull(value, side);
    } else {
      var left, right :|
        && GoodSide(left) && GoodSide(right) && Lower(value) == SideText(left) + "::" + SideText(right)
        && |SideMeaning(left)| + |SideMeaning(right)| <= 7
        && p == SideMeaning(left) + Zeros(8 - |SideMeaning(left)| - |SideMeaning(right)|) + SideMeaning(right);
      ExpandCompressed(value, left, right);
    }
  }

  /** The scope of a spelled address that embeds an IPv4 address is the scope of that address. */
  lemma SpelledScope(value: string, p: seq<nat>)
    requires Spells(value, p) && (Mapped(p) || WellKnown(p) || SixToFour(p))
    ensures ClassifyIpv6(value)
            == if SixToFour(p) then Ipv4Scope(FourOctets(p[1], p[2])) else Ipv4Scope(FourOctets(p[6], p[7]))
  {
    hide Spells, ScopeOf, Ipv4Scope, Expand;
    SpelledExpands(value, p);
    ExpandBounded(value);
    EmbeddedScope(p);
  }
}

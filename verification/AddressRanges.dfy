/**
 The scopes of IP addresses as intervals of numbers, and the usual text of an IPv6 address.

 An address is the number that its octets or groups write.  The scope of every IPv4 address, and of
 every IPv6 address without one inside, is read off a table of intervals.
 */
module AddressRanges {
  import opened HashGraphs
  import opened Addresses

  // ---------------------------------------------------------------- IPv4

  /** Four octets as a number of 32 bits. */
  function Number4(o: seq<nat>): nat
    requires |o| == 4
  {
    0x1000000 * o[0] + 0x10000 * o[1] + 0x100 * o[2] + o[3]
  }

  /** 10.0.0.0/8, 172.16.0.0/12 and 192.168.0.0/16. */
  predicate Private4(n: nat) {
    0x0a000000 <= n <= 0x0affffff || 0xac100000 <= n <= 0xac1fffff || 0xc0a80000 <= n <= 0xc0a8ffff
  }

  /**
   0.0.0.0/8, 100.64.0.0/10, 192.0.0.0/24, 192.0.2.0/24, 192.88.99.0/24, 198.18.0.0/15,
   198.51.100.0/24, 203.0.113.0/24 and 240.0.0.0/4.
   */
  predicate Reserved4(n: nat) {
    || n <= 0x00ffffff || 0x64400000 <= n <= 0x647fffff || 0xc0000000 <= n <= 0xc00000ff
    || 0xc0000200 <= n <= 0xc00002ff || 0xc0586300 <= n <= 0xc05863ff || 0xc6120000 <= n <= 0xc613ffff
    || 0xc6336400 <= n <= 0xc63364ff || 0xcb007100 <= n <= 0xcb0071ff || n >= 0xf0000000
  }

  function Table4(n: nat): Scope {
    if 0x7f000000 <= n <= 0x7fffffff then Loopback
    else if 0xa9fe0000 <= n <= 0xa9feffff then LinkLocal
    else if Private4(n) then Private
    else if 0xe0000000 <= n <= 0xefffffff then Multicast
    else if Reserved4(n) then Reserved
    else Public
  }

  /** The scope of an IPv4 address is the entry of the table for its number. */
  lemma Ipv4Ranges(o: seq<nat>)
    requires |o| == 4 && forall i :: 0 <= i < 4 ==> o[i] < 256
    ensures Ipv4Scope(o) == Table4(Number4(o))
  {}

  // ---------------------------------------------------------------- IPv6

  /** Eight groups as a number of 128 bits. */
  function Number6(p: seq<nat>): nat
    requires |p| == 8
  {
    0x1_0000_0000_0000_0000_0000_0000_0000 * p[0] + 0x1_0000_0000_0000_0000_0000_0000 * p[1]
    + 0x1_0000_0000_0000_0000_0000 * p[2] + 0x1_0000_0000_0000_0000 * p[3]
    + 0x1_0000_0000_0000 * p[4] + 0x1_0000_0000 * p[5] + 0x1_0000 * p[6] + p[7]
  }

  /** 64:ff9b:1::/48, 100::/64, 2001::/23, 2001:db8::/32, 3fff::/20 and fec0::/10. */
  predicate Reserved6(n: nat) {
    || 0x0064_ff9b_0001_0000_0000_0000_0000_0000 <= n <= 0x0064_ff9b_0001_ffff_ffff_ffff_ffff_ffff
    || 0x0100_0000_0000_0000_0000_0000_0000_0000 <= n <= 0x0100_0000_0000_0000_ffff_ffff_ffff_ffff
    || 0x2001_0000_0000_0000_0000_0000_0000_0000 <= n <= 0x2001_01ff_ffff_ffff_ffff_ffff_ffff_ffff
    || 0x2001_0db8_0000_0000_0000_0000_0000_0000 <= n <= 0x2001_0db8_ffff_ffff_ffff_ffff_ffff_ffff
    || 0x3fff_0000_0000_0000_0000_0000_0000_0000 <= n <= 0x3fff_0fff_ffff_ffff_ffff_ffff_ffff_ffff
    || 0xfec0_0000_0000_0000_0000_0000_0000_0000 <= n <= 0xfeff_ffff_ffff_ffff_ffff_ffff_ffff_ffff
  }

  /** fc00::/7, fe80::/10 and ff00::/8, and what is reserved. */
  function Table6(n: nat): Scope {
    if 0xfc00_0000_0000_0000_0000_0000_0000_0000 <= n <= 0xfdff_ffff_ffff_ffff_ffff_ffff_ffff_ffff then Private
    else if 0xfe80_0000_0000_0000_0000_0000_0000_0000 <= n <= 0xfebf_ffff_ffff_ffff_ffff_ffff_ffff_ffff then LinkLocal
    else if n >= 0xff00_0000_0000_0000_0000_0000_0000_0000 then Multicast
    else if Reserved6(n) then Reserved
    else Public
  }

  /** The groups have an IPv4 address inside, in one of the five forms. */
  predicate Embeds(p: seq<nat>) {
    |p| == 8 && (Compatible(p) || Translated(p) || Mapped(p) || WellKnown(p) || SixToFour(p))
  }

  /** An IPv4-compatible address, ::/96. */
  predicate Compatible(p: seq<nat>) { |p| == 8 && Zero(p, 0, 6) }

  /** An IPv4-translated address, ::ffff:0:0/96. */
  predicate Translated(p: seq<nat>) { |p| == 8 && Zero(p, 0, 4) && p[4] == 0xffff && p[5] == 0 }

  // An interval that fixes the first groups says nothing about the others.

  lemma FirstGroup(p: seq<nat>, lo: nat, hi: nat)
    requires |p| == 8 && forall i :: 0 <= i < 8 ==> p[i] < 0x10000
    ensures var unit := 0x1_0000_0000_0000_0000_0000_0000_0000;
            unit * lo <= Number6(p) < unit * hi <==> lo <= p[0] < hi
  {
    var unit := 0x1_0000_0000_0000_0000_0000_0000_0000;
    var rest := Number6(p) - unit * p[0];
    assert 0 <= rest < unit;
  }

  lemma TwoGroups(p: seq<nat>, lo: nat, hi: nat)
    requires |p| == 8 && forall i :: 0 <= i < 8 ==> p[i] < 0x10000
    ensures var unit := 0x1_0000_0000_0000_0000_0000_0000;
            unit * lo <= Number6(p) < unit * hi <==> lo <= 0x10000 * p[0] + p[1] < hi
  {
    var unit := 0x1_0000_0000_0000_0000_0000_0000;
    var head := 0x10000 * p[0] + p[1];
    var rest := Number6(p) - unit * head;
    assert 0 <= rest < unit;
  }

  lemma ThreeGroups(p: seq<nat>, lo: nat, hi: nat)
    requires |p| == 8 && forall i :: 0 <= i < 8 ==> p[i] < 0x10000
    ensures var unit := 0x1_0000_0000_0000_0000_0000;
            unit * lo <= Number6(p) < unit * hi <==> lo <= 0x1_0000_0000 * p[0] + 0x10000 * p[1] + p[2] < hi
  {
    var unit := 0x1_0000_0000_0000_0000_0000;
    var head := 0x1_0000_0000 * p[0] + 0x10000 * p[1] + p[2];
    var rest := Number6(p) - unit * head;
    assert 0 <= rest < unit;
  }

  lemma FourGroups(p: seq<nat>, lo: nat, hi: nat)
    requires |p| == 8 && forall i :: 0 <= i < 8 ==> p[i] < 0x10000
    ensures var unit := 0x1_0000_0000_0000_0000;
            unit * lo <= Number6(p) < unit * hi
            <==> lo <= 0x1_0000_0000_0000 * p[0] + 0x1_0000_0000 * p[1] + 0x10000 * p[2] + p[3] < hi
  {
    var unit := 0x1_0000_0000_0000_0000;
    var head := 0x1_0000_0000_0000 * p[0] + 0x1_0000_0000 * p[1] + 0x10000 * p[2] + p[3];
    var rest := Number6(p) - unit * head;
    assert 0 <= rest < unit;
  }

  /** The first groups that are reserved. */
  predicate ReservedGroups(p: seq<nat>)
    requires |p| == 8
  {
    || (p[0] == 0x64 && p[1] == 0xff9b && p[2] == 1) || (p[0] == 0x100 && p[1] == 0 && p[2] == 0 && p[3] == 0)
    || (p[0] == 0x2001 && p[1] <= 0x1ff) || (p[0] == 0x2001 && p[1] == 0xdb8)
    || (p[0] == 0x3fff && p[1] <= 0xfff) || 0xfec0 <= p[0] <= 0xfeff
  }

  lemma PlainScope(p: seq<nat>)
    requires |p| == 8 && (forall i :: 0 <= i < 8 ==> p[i] < 0x10000) && !Embeds(p)
    ensures ScopeOf(p) == if 0xfc00 <= p[0] <= 0xfdff then Private
                          else if 0xfe80 <= p[0] <= 0xfebf then LinkLocal
                          else if p[0] >= 0xff00 then Multicast
                          else if ReservedGroups(p) then Reserved
                          else Public
  {
    hide Ipv4FromHextets, ClassifyIpv4;
    assert !Zero(p, 0, 6);
  }

  lemma ReservedRange(p: seq<nat>)
    requires |p| == 8 && forall i :: 0 <= i < 8 ==> p[i] < 0x10000
    ensures Reserved6(Number6(p)) <==> ReservedGroups(p)
  {
    hide Number6;
    ThreeGroups(p, 0x0064_ff9b_0001, 0x0064_ff9b_0002);
    FourGroups(p, 0x0100_0000_0000_0000, 0x0100_0000_0000_0001);
    TwoGroups(p, 0x2001_0000, 0x2001_0200);
    TwoGroups(p, 0x2001_0db8, 0x2001_0db9);
    TwoGroups(p, 0x3fff_0000, 0x3fff_1000);
    FirstGroup(p, 0xfec0, 0xff00);
  }

  /** Without an IPv4 address inside, the scope is the entry of the table for the number. */
  lemma Ipv6Ranges(p: seq<nat>)
    requires |p| == 8 && Addresses.Groups(p) && !Embeds(p)
    ensures ScopeOf(p) == Table6(Number6(p))
  {
    hide Number6, Reserved6, ReservedGroups, ScopeOf, Embeds;
    GroupsAt(p);
    PlainScope(p);
    ReservedRange(p);
    FirstGroup(p, 0xfc00, 0xfe00);
    FirstGroup(p, 0xfe80, 0xfec0);
    FirstGroup(p, 0xff00, 0x10000);
    FirstGroup(p, 0, 0x10000);
  }

  /** With one inside, the scope is the entry of the table for that, except that some forms are never public. */
  lemma EmbeddedRanges(p: seq<nat>)
    requires |p| == 8 && Addresses.Groups(p) && Embeds(p) && Number6(p) > 1
    ensures var inside := if SixToFour(p) then 0x10000 * p[1] + p[2] else 0x10000 * p[6] + p[7];
            ScopeOf(p) == if (Compatible(p) || Translated(p)) && Table4(inside) == Public then Reserved
                          else Table4(inside)
  {
    GroupsAt(p);
    hide Table4, Ipv4Scope, ScopeOf, Number6, FourOctets;
    if SixToFour(p) { InsideScope(p[1], p[2]); } else { InsideScope(p[6], p[7]); }
    if Compatible(p) {
      BeyondOne(p);
      DeprecatedScope(p);
    } else if Translated(p) {
      TranslatedScope(p);
    } else {
      EmbeddedScope(p);
    }
  }

  lemma InsideScope(high: nat, low: nat)
    requires high < 0x10000 && low < 0x10000
    ensures Ipv4Scope(FourOctets(high, low)) == Table4(0x10000 * high + low)
  {
    hide Table4, Ipv4Scope;
    Ipv4Ranges(FourOctets(high, low));
  }

  lemma BeyondOne(p: seq<nat>)
    requires Compatible(p) && Number6(p) > 1
    ensures (p[6] != 0 || p[7] > 1) && !SixToFour(p)
  {}

  lemma TranslatedScope(p: seq<nat>)
    requires |p| == 8 && Translated(p) && p[6] < 0x10000 && p[7] < 0x10000
    ensures var inside := Ipv4Scope(FourOctets(p[6], p[7]));
            ScopeOf(p) == (if inside == Public then Reserved else inside) && !SixToFour(p)
  {
    HextetsRead(p[6], p[7]);
    hide Ipv4FromHextets, DottedOctets, Ipv4Scope;
    assert p[0] == 0 && !Zero(p, 0, 8) && !Zero(p, 0, 7) && !Zero(p, 0, 6);
  }

  /** The unspecified and the loopback address. */
  lemma FirstTwo(p: seq<nat>)
    requires |p| == 8 && Number6(p) <= 1
    ensures ScopeOf(p) == if Number6(p) == 0 then Reserved else Loopback
  {
    assert forall i :: 0 <= i < 7 ==> p[i] == 0;
    hide Ipv4FromHextets, ClassifyIpv4;
  }

  // ---------------------------------------------------------------- hexadecimal text

  const DIGITS: string := "0123456789abcdef"

  /** The usual text of a number: no leading zeros, lower case. */
  function HexText(n: nat): string {
    if n < 16 then [DIGITS[n]] else HexText(n / 16) + [DIGITS[n % 16]]
  }

  lemma DigitRead(n: nat)
    requires n < 16
    ensures IsHex(DIGITS[n]) && HexDigit(DIGITS[n]) == n
  {}

  lemma {:induction false} HexRead(n: nat)
    ensures var s := HexText(n); s != "" && All(s, IsHex) && HexValue(s) == n
    decreases n
  {
    DigitRead(n % 16);
    var s := HexText(n);
    if n < 16 {
      assert s[..0] == "";
    } else {
      HexRead(n / 16);
      assert s[..|s| - 1] == HexText(n / 16);
    }
  }

  /** Every group reads back as itself. */
  lemma GroupRead(n: nat)
    requires n < 0x10000
    ensures HexToken(HexText(n)) && HexValue(HexText(n)) == n
  {
    HexRead(n);
    assert |HexText(n)| <= 4 by {
      assert n / 16 < 0x1000 && n / 16 / 16 < 0x100 && n / 16 / 16 / 16 < 16;
      assert |HexText(n / 16 / 16)| <= 2;
    }
  }

  function HexTexts(p: seq<nat>): (r: seq<string>)
    ensures |r| == |p|
  {
    if p == [] then [] else [HexText(p[0])] + HexTexts(p[1..])
  }

  /** The usual text of an address in full. */
  function Written(p: seq<nat>): string
    requires p != []
  {
    Join(HexTexts(p), ':')
  }

  function Tokens(p: seq<nat>): (r: seq<Token>)
    ensures |r| == |p|
  {
    if p == [] then [] else [Hex(HexText(p[0]))] + Tokens(p[1..])
  }

  lemma {:induction false} TokensGood(p: seq<nat>)
    requires Addresses.Groups(p)
    ensures GoodSide(Tokens(p)) && Texts(Tokens(p)) == HexTexts(p) && SideMeaning(Tokens(p)) == p
    ensures forall i :: 0 <= i < |p| ==> All(HexTexts(p)[i], IsHex)
    decreases |p|
  {
    if p != [] {
      assert p[0] in p;
      GroupRead(p[0]);
      hide HexText, HexValue;
      assert forall g :: g in p[1..] ==> g in p;
      TokensGood(p[1..]);
      var ts := Tokens(p);
      assert ts[0] == Hex(HexText(p[0])) && ts[1..] == Tokens(p[1..]);
      assert GoodSide(ts);
      assert [p[0]] + p[1..] == p;
    }
  }

  lemma {:induction false} LowerJoin(ts: seq<string>)
    requires ts != [] && forall i :: 0 <= i < |ts| ==> All(ts[i], IsHex)
    ensures forall i :: 0 <= i < |Join(ts, ':')| ==> !('A' <= Join(ts, ':')[i] <= 'Z')
    decreases |ts|
  {
    assert All(ts[0], IsHex);
    if |ts| > 1 { LowerJoin(ts[1..]); }
  }

  lemma LowerSame(s: string)
    requires forall i :: 0 <= i < |s| ==> !('A' <= s[i] <= 'Z')
    ensures Lower(s) == s
  {}

  /** The usual text of eight groups expands to them. */
  lemma WrittenExpands(p: seq<nat>)
    requires |p| == 8 && Addresses.Groups(p)
    ensures Expand(Written(p)) == Some(p)
  {
    hide Expand, SideMeaning, HexTexts, Tokens, Join;
    TokensGood(p);
    LowerJoin(HexTexts(p));
    LowerSame(Written(p));
    ExpandFull(Written(p), Tokens(p));
  }

  /** From the usual text of an address without an IPv4 address inside to its scope. */
  lemma WrittenScope(p: seq<nat>)
    requires |p| == 8 && Addresses.Groups(p) && !Embeds(p)
    ensures ClassifyIpv6(Written(p)) == Table6(Number6(p))
  {
    hide Expand, Written, ScopeOf, Number6, Table6, Embeds;
    WrittenExpands(p);
    ExpandBounded(Written(p));
    Ipv6Ranges(p);
  }
}

/** IPv4 address ranges: addresses as numbers, and the range's places as texts. */
module Cidr {
  import opened Options
  import opened Text
  import opened Ip
  import ServiceAllocation

  const ADDRESSES := 0x1_0000_0000

  /** The texts that the bracketed form stands for. */
  function NormalizeLiteral(ip: Str): Str {
    if |ip| >= 2 && ip[0] == 91 && ip[|ip| - 1] == 93 then ip[1..|ip| - 1] else ip
  }

  /** Brackets around a text, and only around the whole of it, are taken off. */
  lemma BracketsComeOff(ip: Str)
    ensures NormalizeLiteral([91] + ip + [93]) == ip
    ensures NormalizeLiteral(ip) != ip ==> ip == [91] + NormalizeLiteral(ip) + [93]
  {
  }

  function Value(a: Octet, b: Octet, c: Octet, d: Octet): nat {
    ((a * 256 + b) * 256 + c) * 256 + d
  }

  /** The loop of the source over the four parts. */
  method IpToNumberLoop(ip: Str) returns (value: Option<nat>)
    ensures value == IpToNumber(ip)
  {
    var parts := Split(ip, DOT);
    if |parts| != 4 {
      return None;
    }
    var sum := 0;
    for k := 0 to 4
      invariant forall j :: 0 <= j < k ==> OctetText(parts[j])
      invariant sum == PartialValue(parts, k)
    {
      if !AllDigits(parts[k]) {
        return None;
      }
      var octet := ParseDecimal(parts[k]);
      if octet > 255 {
        return None;
      }
      sum := sum * 256 + octet;
    }
    FourParts(parts);
    return Some(sum);
  }

  function PartialValue(parts: seq<Str>, k: nat): nat
    requires k <= |parts|
  {
    if k == 0 then 0 else PartialValue(parts, k - 1) * 256 + ParseDecimal(parts[k - 1])
  }

  lemma FourParts(parts: seq<Str>)
    requires |parts| == 4
    ensures PartialValue(parts, 4) ==
            ((ParseDecimal(parts[0]) * 256 + ParseDecimal(parts[1])) * 256 + ParseDecimal(parts[2])) * 256 + ParseDecimal(parts[3])
  {
    assert PartialValue(parts, 1) == ParseDecimal(parts[0]);
    assert PartialValue(parts, 2) == PartialValue(parts, 1) * 256 + ParseDecimal(parts[1]);
    assert PartialValue(parts, 3) == PartialValue(parts, 2) * 256 + ParseDecimal(parts[2]);
  }

  function IpToNumber(ip: Str): Option<nat> {
    var parsed := ParseIPv4(ip);
    if parsed.None? then None else Some(Value(parsed.value[12], parsed.value[13], parsed.value[14], parsed.value[15]))
  }

  function NumberToIp(value: nat): Str {
    Dotted(value / 0x100_0000 % 256, value / 0x1_0000 % 256, value / 256 % 256, value % 256)
  }

  lemma DivideTwice(value: nat, a: nat, b: nat, ab: nat)
    requires (a == 256 && b == 256 && ab == 0x1_0000) || (a == 0x1_0000 && b == 256 && ab == 0x100_0000)
    ensures value / ab == value / a / b
  {
    var q := value / a;
    assert value == a * q + value % a;
    assert q == 256 * (q / 256) + q % 256;
  }

  lemma OctetsAndBack(value: nat)
    requires value < ADDRESSES
    ensures Value(value / 0x100_0000 % 256, value / 0x1_0000 % 256, value / 256 % 256, value % 256) == value
  {
    DivideTwice(value, 256, 256, 0x1_0000);
    DivideTwice(value, 0x1_0000, 256, 0x100_0000);
    var a := value / 256;
    var b := value / 0x1_0000;
    var c := value / 0x100_0000;
    assert value == 256 * a + value % 256;
    assert a == 256 * b + a % 256;
    assert b == 256 * c + b % 256;
    assert c < 256;
  }

  /** Every number below 2^32 reads back from its text. */
  lemma NumberRoundTrip(value: nat)
    requires value < ADDRESSES
    ensures IpToNumber(NumberToIp(value)) == Some(value)
  {
    hide ParseIPv4, Dotted;
    DottedReads(value / 0x100_0000 % 256, value / 0x1_0000 % 256, value / 256 % 256, value % 256);
    OctetsAndBack(value);
  }

  // ----- texts with leading zeros -----

  predicate NoLeadingZero(part: Str) {
    |part| == 1 || (|part| > 1 && part[0] != ZERO)
  }

  lemma {:induction false} DecimalOfText(s: Str)
    requires AllDigits(s)
    ensures ParseDecimal(s) == 0 <==> forall i :: 0 <= i < |s| ==> s[i] == ZERO
    ensures NoLeadingZero(s) ==> Decimal(ParseDecimal(s)) == s
  {
    var init, last := s[..|s| - 1], s[|s| - 1];
    if init == [] {
      assert ParseDecimal(s) == DigitValue(last);
    } else {
      DecimalOfText(init);
      assert forall i :: 0 <= i < |init| ==> s[i] == init[i];
      if NoLeadingZero(s) {
        assert init[0] != ZERO;
        var n := ParseDecimal(init);
        assert (n * 10 + DigitValue(last)) / 10 == n && (n * 10 + DigitValue(last)) % 10 == DigitValue(last);
        assert s == init + [last];
      }
    }
  }

  lemma {:induction false} DecimalHasNoLeadingZero(n: nat)
    ensures NoLeadingZero(Decimal(n))
  {
    if n >= 10 {
      DecimalHasNoLeadingZero(n / 10);
      if n / 10 < 10 {
        assert Decimal(n / 10)[0] != ZERO;
      }
    }
  }

  /** A text of digits is the printed form of its value exactly when it has no leading zero. */
  lemma CanonicalExactly(part: Str)
    requires AllDigits(part)
    ensures Decimal(ParseDecimal(part)) == part <==> NoLeadingZero(part)
  {
    DecimalOfText(part);
    DecimalHasNoLeadingZero(ParseDecimal(part));
  }

  // ----- ranges -----

  /** An IPv4 range: `size` addresses from `network`. */
  datatype Range = Range(network: nat, size: nat) {
    predicate Valid() {
      size > 0 && network % size == 0 && network + size <= ADDRESSES
    }

    /** The first and last address are not for use, unless there are no others. */
    function First(): nat {
      if size > 2 then network + 1 else network
    }

    function Count(): nat {
      if size > 2 then size - 2 else size
    }

    function ContainsUsable(ip: Str): bool {
      var parsed := Parse(NormalizeLiteral(ip));
      && parsed.Some? && |parsed.value| == 16 && IsIPv4(parsed.value)
      && var v := Value(parsed.value[12], parsed.value[13], parsed.value[14], parsed.value[15]);
         First() <= v < First() + Count()
    }

    function IndexForIp(ip: Str): Option<nat> {
      if !ContainsUsable(ip) then None
      else
        var number := IpToNumber(ip);
        if number.None? || number.value < First() then None else Some(number.value - First())
    }

    function TextAt(index: nat): Str {
      NumberToIp(First() + index)
    }
  }

  /** The usable addresses of a range are all of its addresses, but for the first and the last one if it
      has more than two. */
  lemma UsableExactly(r: Range, v: nat)
    requires r.Valid()
    ensures r.First() <= v < r.First() + r.Count() <==>
            r.network <= v < r.network + r.size && (r.size > 2 ==> v != r.network && v != r.network + r.size - 1)
  {
  }

  /** The dotted text of an address in the range is usable and stands for its place. */
  lemma TextsHavePlaces(r: Range, index: nat)
    requires r.Valid() && index < r.Count()
    ensures r.IndexForIp(r.TextAt(index)) == Some(index)
  {
    hide Value, IpToNumber, NumberToIp;
    var v := r.First() + index;
    NumberRoundTrip(v);
    var a, b, c, d := Octets(v);
    OctetsHavePlace(r, a, b, c, d, v);
  }

  lemma Octets(value: nat) returns (a: nat, b: nat, c: nat, d: nat)
    requires value < ADDRESSES
    ensures a < 256 && b < 256 && c < 256 && d < 256
    ensures NumberToIp(value) == Dotted(a, b, c, d) && Value(a, b, c, d) == value
  {
    hide Dotted, Value;
    OctetsAndBack(value);
    a, b, c, d := value / 0x100_0000 % 256, value / 0x1_0000 % 256, value / 256 % 256, value % 256;
  }

  lemma OctetsHavePlace(r: Range, a: nat, b: nat, c: nat, d: nat, v: nat)
    requires r.Valid() && r.First() <= v < r.First() + r.Count()
    requires a < 256 && b < 256 && c < 256 && d < 256 && Value(a, b, c, d) == v && IpToNumber(Dotted(a, b, c, d)) == Some(v)
    ensures r.IndexForIp(Dotted(a, b, c, d)) == Some(v - r.First())
  {
    hide Parse, ParseIPv4, Dotted, FirstMark, IpToNumber, Value;
    DottedParses(a, b, c, d);
    DottedMark(a, b, c, d);
    assert NormalizeLiteral(Dotted(a, b, c, d)) == Dotted(a, b, c, d);
  }

  /** A usable text that reads as a number has a place in the range. */
  lemma PlacesAreInRange(r: Range, ip: Str)
    requires r.Valid() && r.IndexForIp(ip).Some?
    ensures r.IndexForIp(ip).value < r.Count()
  {
    var parsed := ParseIPv4(ip);
    PlainText(ip);
    hide ParseIPv6, Split;
  }

  /** A dotted text has no brackets, and is read as IPv4. */
  lemma PlainText(ip: Str)
    requires ParseIPv4(ip).Some?
    ensures NormalizeLiteral(ip) == ip && Parse(ip) == ParseIPv4(ip)
  {
    var parts := Split(ip, DOT);
    SplitIsDigits(ip);
    DotsFirst(ip);
  }

  lemma {:induction false} SplitIsDigits(s: Str)
    requires forall i :: 0 <= i < |Split(s, DOT)| ==> forall k :: 0 <= k < |Split(s, DOT)[i]| ==> IsDigit(Split(s, DOT)[i][k])
    ensures forall i :: 0 <= i < |s| ==> s[i] == DOT || IsDigit(s[i])
    ensures |Split(s, DOT)| > 1 ==> DOT in s
  {
    if s != [] {
      var init, last := s[..|s| - 1], s[|s| - 1];
      var before, parts := Split(init, DOT), Split(s, DOT);
      forall i | 0 <= i < |before|
        ensures forall k :: 0 <= k < |before[i]| ==> IsDigit(before[i][k])
      {
        assert forall k :: 0 <= k < |before[i]| ==> parts[i][k] == before[i][k];
      }
      SplitIsDigits(init);
      if last != DOT {
        var end := parts[|parts| - 1];
        assert end[|end| - 1] == last;
      }
    }
  }

  lemma {:induction false} DotsFirst(s: Str)
    requires forall i :: 0 <= i < |s| ==> s[i] == DOT || IsDigit(s[i])
    ensures DOT in s ==> FirstMark(s) == Some(DOT)
  {
    if s != [] && s[0] != DOT {
      assert s == [s[0]] + s[1..];
      DotsFirst(s[1..]);
    }
  }

  /** The addresses of a range and the ports of an interval form a pool for services. */
  lemma RangesArePools(r: Range, first: int, last: int)
    requires r.Valid()
    ensures ServiceAllocation.Pool(ip => r.IndexForIp(ip), n => r.TextAt(n), r.Count(), first, last).Valid()
  {
    var pool := ServiceAllocation.Pool(ip => r.IndexForIp(ip), n => r.TextAt(n), r.Count(), first, last);
    forall ip: Str | pool.index(ip).Some?
      ensures pool.index(ip).value < pool.size
    {
      PlacesAreInRange(r, ip);
    }
    forall n: nat | n < pool.size
      ensures pool.index(pool.text(n)) == Some(n)
    {
      TextsHavePlaces(r, n);
    }
    NoMarkInNone();
  }

  lemma NoMarkInNone()
    ensures Parse([]).None? && Parse(ServiceAllocation.NONE).None?
    ensures NormalizeLiteral([]) == [] && NormalizeLiteral(ServiceAllocation.NONE) == ServiceAllocation.NONE
  {
    MarkAfter(ServiceAllocation.NONE, []);
    assert ServiceAllocation.NONE + [] == ServiceAllocation.NONE;
  }
}

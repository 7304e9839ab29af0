/** IP addresses as text: parsing after RFC 4291, section 2.2, and printing after RFC 5952,
    section 4. A text is a sequence of units, an address sixteen bytes. */
module Ip {
  import opened Options
  import opened Text

  const DOT: Unit := 46
  const COLON: Unit := 58
  const ZERO: Unit := 48

  type Octet = x: int | 0 <= x < 256
  type Group = x: int | 0 <= x < 0x1_0000

  const GROUPS := 8

  // ----- digits -----

  function HexDigit(unit: Unit): Option<nat> {
    if 48 <= unit <= 57 then Some(unit - 48)
    else if 65 <= unit <= 70 then Some(unit - 65 + 10)
    else if 97 <= unit <= 102 then Some(unit - 97 + 10)
    else None
  }

  function HexUnit(digit: nat): Unit
    requires digit < 16
  {
    if digit < 10 then ZERO + digit else 97 + digit - 10
  }

  /** A number in lower-case hexadecimal, without leading zeros. */
  function Hex(n: nat): (s: Str)
    ensures s != []
  {
    if n < 16 then [HexUnit(n)] else Hex(n / 16) + [HexUnit(n % 16)]
  }

  function Decimal(n: nat): (s: Str)
    ensures s != []
  {
    if n < 10 then [ZERO + n] else Decimal(n / 10) + [ZERO + n % 10]
  }

  predicate IsDigit(unit: Unit) {
    48 <= unit <= 57
  }

  predicate AllDigits(s: Str) {
    s != [] && forall i :: 0 <= i < |s| ==> IsDigit(s[i])
  }

  /** The value of a text of digits. */
  function ParseDecimal(s: Str): nat {
    if s == [] then 0 else ParseDecimal(s[..|s| - 1]) * 10 + DigitValue(s[|s| - 1])
  }

  function DigitValue(unit: Unit): nat {
    if IsDigit(unit) then unit - ZERO else 0
  }

  lemma {:induction false} DecimalDigits(n: nat)
    ensures AllDigits(Decimal(n)) && ParseDecimal(Decimal(n)) == n
  {
    if n >= 10 {
      DecimalDigits(n / 10);
      var s := Decimal(n);
      assert s[..|s| - 1] == Decimal(n / 10);
    } else {
      assert ParseDecimal([ZERO + n][..0]) == 0;
    }
  }

  const BIG := 0xffffff

  /** The scan for a hexadecimal number: its value, how many units it took, whether it is one. */
  function XtoiFrom(s: Str, n: nat, c: nat): (nat, nat, bool)
    requires c <= |s|
    decreases |s| - c
  {
    if c == |s| || HexDigit(s[c]).None? then (n, c, c > 0)
    else
      var next := n * 16 + HexDigit(s[c]).value;
      if next >= BIG then (0, c, false) else XtoiFrom(s, next, c + 1)
  }

  method Xtoi(value: Str) returns (n: nat, c: nat, ok: bool)
    ensures (n, c, ok) == XtoiFrom(value, 0, 0) && c <= |value|
  {
    n, c := 0, 0;
    while c < |value|
      invariant c <= |value| && XtoiFrom(value, n, c) == XtoiFrom(value, 0, 0)
    {
      var digit := HexDigit(value[c]);
      if digit.None? {
        break;
      }
      n := n * 16 + digit.value;
      if n >= BIG {
        return 0, c, false;
      }
      c := c + 1;
    }
    ok := c > 0;
  }

  predicate EndsNumber(rest: Str) {
    rest == [] || HexDigit(rest[0]).None?
  }

  lemma HexUnitDigit(digit: nat)
    requires digit < 16
    ensures HexDigit(HexUnit(digit)) == Some(digit) && HexUnit(digit) != DOT && HexUnit(digit) != COLON
  {
  }

  /** The scan reads a printed number back and stops right after it. */
  lemma {:induction false} XtoiReads(n: nat, rest: Str)
    requires n < BIG
    ensures |Hex(n)| <= |Hex(n) + rest| && XtoiFrom(Hex(n) + rest, 0, 0) == XtoiFrom(Hex(n) + rest, n, |Hex(n)|)
  {
    var digit := n % 16;
    HexUnitDigit(digit);
    if n < 16 {
      assert (Hex(n) + rest)[0] == HexUnit(n);
    } else {
      XtoiReads(n / 16, [HexUnit(digit)] + rest);
      assert Hex(n / 16) + ([HexUnit(digit)] + rest) == Hex(n) + rest;
      var k := |Hex(n / 16)|;
      assert (Hex(n) + rest)[k] == HexUnit(digit);
    }
  }

  lemma XtoiWhole(n: nat, rest: Str)
    requires n < BIG && EndsNumber(rest)
    ensures XtoiFrom(Hex(n) + rest, 0, 0) == (n, |Hex(n)|, true)
  {
    XtoiReads(n, rest);
    assert rest != [] ==> (Hex(n) + rest)[|Hex(n)|] == rest[0];
  }

  /** Printed numbers are canonical: hexadecimal digits only, and no leading zero. */
  lemma {:induction false} HexCanonical(n: nat)
    ensures forall i :: 0 <= i < |Hex(n)| ==> HexDigit(Hex(n)[i]).Some? && !(65 <= Hex(n)[i] <= 70)
    ensures n > 0 ==> Hex(n)[0] != ZERO
  {
    if n >= 16 {
      HexCanonical(n / 16);
    }
  }

  // ----- dotted addresses -----

  /** The parts of a text between separators; one more than there are separators. */
  function Split(s: Str, separator: Unit): (parts: seq<Str>)
    ensures parts != []
  {
    if s == [] then [[]]
    else
      var before := Split(s[..|s| - 1], separator);
      if s[|s| - 1] == separator then before + [[]]
      else before[|before| - 1 := before[|before| - 1] + [s[|s| - 1]]]
  }

  function Ipv4(a: Octet, b: Octet, c: Octet, d: Octet): seq<Octet> {
    [0, 0, 0, 0, 0, 0, 0, 0, 0, 0, 0xff, 0xff, a, b, c, d]
  }

  predicate OctetText(part: Str) {
    AllDigits(part) && ParseDecimal(part) <= 255
  }

  function ParseIPv4(value: Str): (ip: Option<seq<Octet>>)
    ensures ip.Some? ==> |ip.value| == 16
  {
    var parts := Split(value, DOT);
    if |parts| == 4 && OctetText(parts[0]) && OctetText(parts[1]) && OctetText(parts[2]) && OctetText(parts[3]) then
      Some(Ipv4(ParseDecimal(parts[0]), ParseDecimal(parts[1]), ParseDecimal(parts[2]), ParseDecimal(parts[3])))
    else None
  }

  method ParseIPv4Sloppy(value: Str) returns (ip: Option<seq<Octet>>)
    ensures ip == ParseIPv4(value)
  {
    var parts := Split(value, DOT);
    if |parts| != 4 {
      return None;
    }
    var octets: seq<Octet> := [];
    for k := 0 to 4
      invariant |octets| == k && forall j :: 0 <= j < k ==> OctetText(parts[j]) && octets[j] == ParseDecimal(parts[j])
    {
      var part := parts[k];
      if !AllDigits(part) {
        return None;
      }
      var octet := ParseDecimal(part);
      if octet > 255 {
        return None;
      }
      octets := octets + [octet];
    }
    ip := Some(Ipv4(octets[0], octets[1], octets[2], octets[3]));
  }

  function Dotted(a: Octet, b: Octet, c: Octet, d: Octet): Str {
    Decimal(a) + [DOT] + Decimal(b) + [DOT] + Decimal(c) + [DOT] + Decimal(d)
  }

  lemma {:induction false} SplitMore(s: Str, more: Str, separator: Unit)
    requires separator !in more
    ensures var parts := Split(s, separator);
            Split(s + more, separator) == parts[|parts| - 1 := parts[|parts| - 1] + more]
  {
    if more == [] {
      assert s + more == s;
      var parts := Split(s, separator);
      assert parts[|parts| - 1] + more == parts[|parts| - 1];
    } else {
      var init, last := more[..|more| - 1], more[|more| - 1];
      SplitMore(s, init, separator);
      assert (s + more)[..|s + more| - 1] == s + init;
      var parts := Split(s, separator);
      assert more == init + [last];
      assert (parts[|parts| - 1] + init) + [last] == parts[|parts| - 1] + more;
    }
  }

  lemma SplitAt(s: Str, separator: Unit)
    ensures Split(s + [separator], separator) == Split(s, separator) + [[]]
  {
    assert (s + [separator])[..|s|] == s;
  }

  lemma SplitNext(s: Str, more: Str, separator: Unit)
    requires separator !in more
    ensures Split(s + [separator] + more, separator) == Split(s, separator) + [more]
  {
    SplitAt(s, separator);
    SplitMore(s + [separator], more, separator);
    assert [] + more == more;
  }

  lemma DigitsAreNotDots(s: Str)
    requires AllDigits(s)
    ensures DOT !in s && COLON !in s
  {
  }

  lemma DottedReads(a: Octet, b: Octet, c: Octet, d: Octet)
    ensures ParseIPv4(Dotted(a, b, c, d)) == Some(Ipv4(a, b, c, d))
  {
    DecimalDigits(a);
    DecimalDigits(b);
    DecimalDigits(c);
    DecimalDigits(d);
    DigitsAreNotDots(Decimal(a));
    DigitsAreNotDots(Decimal(b));
    DigitsAreNotDots(Decimal(c));
    DigitsAreNotDots(Decimal(d));
    hide Split, Decimal, ParseDecimal, AllDigits;
    SplitFour(Decimal(a), Decimal(b), Decimal(c), Decimal(d));
  }

  lemma SplitFour(a: Str, b: Str, c: Str, d: Str)
    requires DOT !in a && DOT !in b && DOT !in c && DOT !in d
    ensures Split(a + [DOT] + b + [DOT] + c + [DOT] + d, DOT) == [a, b, c, d]
  {
    hide Split;
    SplitStart(a, DOT);
    SplitNext(a, b, DOT);
    SplitNext(a + [DOT] + b, c, DOT);
    SplitNext(a + [DOT] + b + [DOT] + c, d, DOT);
    assert [a] + [b] + [c] + [d] == [a, b, c, d];
  }

  lemma SplitStart(s: Str, separator: Unit)
    requires separator !in s
    ensures Split(s, separator) == [s]
  {
    SplitMore([], s, separator);
    assert [] + s == s;
  }

  // ----- groups -----

  /** Two bytes as one group, the high one first. */
  function Pair(high: int, low: int): Group
    requires 0 <= high < 256 && 0 <= low < 256
  {
    high * 256 + low
  }

  function GroupsOf(ip: seq<Octet>): seq<Group>
    requires |ip| == 16
  {
    seq(GROUPS, k requires 0 <= k < GROUPS => Pair(ip[2 * k], ip[2 * k + 1]))
  }

  function BytesOf(groups: seq<Group>): (bytes: seq<Octet>)
    ensures |bytes| == 2 * |groups|
  {
    if groups == [] then []
    else BytesOf(groups[..|groups| - 1]) + [groups[|groups| - 1] / 256, groups[|groups| - 1] % 256]
  }

  lemma {:induction false} BytesAt(groups: seq<Group>, k: nat)
    requires k < |groups|
    ensures BytesOf(groups)[2 * k] == groups[k] / 256 && BytesOf(groups)[2 * k + 1] == groups[k] % 256
  {
    if k < |groups| - 1 {
      BytesAt(groups[..|groups| - 1], k);
    }
  }

  lemma GroupsAndBack(ip: seq<Octet>)
    requires |ip| == 16
    ensures BytesOf(GroupsOf(ip)) == ip
  {
    var groups := GroupsOf(ip);
    hide BytesOf, GroupsOf;
    forall i | 0 <= i < 16
      ensures BytesOf(groups)[i] == ip[i]
    {
      GroupAndBack(ip, i / 2);
      assert i == 2 * (i / 2) || i == 2 * (i / 2) + 1;
    }
  }

  lemma GroupAndBack(ip: seq<Octet>, k: nat)
    requires |ip| == 16 && k < 8
    ensures |BytesOf(GroupsOf(ip))| == 16
    ensures BytesOf(GroupsOf(ip))[2 * k] == ip[2 * k] && BytesOf(GroupsOf(ip))[2 * k + 1] == ip[2 * k + 1]
  {
    hide BytesOf;
    BytesAt(GroupsOf(ip), k);
  }

  // ----- the run of zero groups to elide -----

  datatype Run = NoRun | Run(start: nat, length: nat)

  predicate ZeroRun(groups: seq<Group>, start: nat, length: nat) {
    length >= 2 && start + length <= |groups| && forall i :: start <= i < start + length ==> groups[i] == 0
  }

  /** The longest run of at least two zero groups, and of those the leftmost. */
  predicate LeftmostLongest(groups: seq<Group>, run: Run) {
    match run
    case NoRun => forall start: nat, length: nat :: start <= |groups| && length <= |groups| ==> !ZeroRun(groups, start, length)
    case Run(s, l) =>
      && ZeroRun(groups, s, l)
      && forall start: nat, length: nat :: start <= |groups| && length <= |groups| && ZeroRun(groups, start, length) ==>
                                             length < l || (length == l && s <= start)
  }

  lemma LeftmostLongestUnique(groups: seq<Group>, a: Run, b: Run)
    requires LeftmostLongest(groups, a) && LeftmostLongest(groups, b)
    ensures a == b
  {
  }

  /** The scan for the run: every zero run that starts before `i` has been compared. */
  method FindZeroRun(groups: seq<Group>) returns (run: Run)
    ensures LeftmostLongest(groups, run)
  {
    var bestStart: int, bestLength: nat := -1, 0;
    var i := 0;
    while i < |groups|
      invariant i <= |groups| && (0 < i < |groups| ==> groups[i] != 0 || groups[i - 1] != 0)
      invariant bestStart < 0 <==> bestLength == 0
      invariant bestStart >= 0 ==> ZeroRun(groups, bestStart, bestLength) && bestStart + bestLength <= i
      invariant forall start: nat, length: nat :: start < i && length <= |groups| && ZeroRun(groups, start, length) ==>
                                                    length < bestLength || (length == bestLength && bestStart <= start)
    {
      if groups[i] != 0 {
        i := i + 1;
        continue;
      }
      var j := i;
      while j < |groups| && groups[j] == 0
        invariant i <= j <= |groups| && forall k :: i <= k < j ==> groups[k] == 0
      {
        j := j + 1;
      }
      RunsInside(groups, i, j);
      if j - i > bestLength && j - i >= 2 {
        bestStart, bestLength := i, j - i;
      }
      i := j;
    }
    run := if bestStart < 0 then NoRun else Run(bestStart, bestLength);
  }

  /** A zero run that starts inside a maximal one ends inside it. */
  lemma RunsInside(groups: seq<Group>, i: nat, j: nat)
    requires i < j <= |groups| && (forall k :: i <= k < j ==> groups[k] == 0) && (j == |groups| || groups[j] != 0)
    ensures forall start: nat, length: nat :: i <= start < j && length <= |groups| && ZeroRun(groups, start, length) ==>
                                                length <= j - start
  {
  }

  // ----- printing -----

  function Join(groups: seq<Group>): Str {
    if groups == [] then []
    else if |groups| == 1 then Hex(groups[0])
    else Hex(groups[0]) + [COLON] + Join(groups[1..])
  }

  /** The text of eight groups with one run elided. */
  function Text6(groups: seq<Group>, run: Run): Str
    requires run.Run? ==> run.start + run.length <= |groups|
  {
    match run
    case NoRun => Join(groups)
    case Run(s, l) => Join(groups[..s]) + [COLON, COLON] + Join(groups[s + l..])
  }

  predicate IsIPv4(ip: seq<Octet>)
    requires |ip| == 16
  {
    (forall i :: 0 <= i < 10 ==> ip[i] == 0) && ip[10] == 0xff && ip[11] == 0xff
  }

  /** What an address looks like. */
  ghost predicate Prints(ip: seq<Octet>, text: Str)
    requires |ip| == 16
  {
    if IsIPv4(ip) then text == Dotted(ip[12], ip[13], ip[14], ip[15])
    else exists run: Run :: PrintsWith(GroupsOf(ip), text, run)
  }

  predicate PrintsWith(groups: seq<Group>, text: Str, run: Run) {
    LeftmostLongest(groups, run) && text == Text6(groups, run)
  }

  // ----- parsing -----

  datatype Scan = Bad | Scanned(groups: seq<Group>, ellipsis: Option<nat>, rest: Str)

  /** The groups of a text after `groups` have been read. */
  function ScanFrom(r: Str, groups: seq<Group>, ellipsis: Option<nat>): Scan
    decreases GROUPS - |groups|
  {
    if |groups| >= GROUPS then Scanned(groups, ellipsis, r)
    else
      var (n, c, ok) := XtoiFrom(r, 0, 0);
      if !ok || n > 0xffff || c > |r| then Bad
      else if c < |r| && r[c] == DOT then
        if (ellipsis.None? && |groups| != 6) || |groups| > 6 then Bad
        else
          var ip4 := ParseIPv4(r);
          if ip4.None? then Bad
          else Scanned(groups + [Pair(ip4.value[12], ip4.value[13]), Pair(ip4.value[14], ip4.value[15])], ellipsis, [])
      else
        var more, tail := groups + [n], r[c..];
        if tail == [] then Scanned(more, ellipsis, [])
        else if tail[0] != COLON || |tail| == 1 then Bad
        else if tail[1] != COLON then ScanFrom(tail[1..], more, ellipsis)
        else if ellipsis.Some? then Bad
        else if |tail| == 2 then Scanned(more, Some(|more|), [])
        else ScanFrom(tail[2..], more, Some(|more|))
  }

  function Zeros(n: nat): (zeros: seq<Group>)
    ensures |zeros| == n
  {
    seq(n, i => 0)
  }

  /** Sixteen bytes from the groups read, with zeros where the ellipsis stood. */
  function Complete(scan: Scan): Option<seq<Group>> {
    if scan.Bad? || scan.rest != [] then None
    else if |scan.groups| < GROUPS then
      if scan.ellipsis.None? || scan.ellipsis.value > |scan.groups| then None
      else
        var e := scan.ellipsis.value;
        Some(scan.groups[..e] + Zeros(GROUPS - |scan.groups|) + scan.groups[e..])
    else if scan.ellipsis.Some? then None
    else Some(scan.groups)
  }

  function ParseGroups(value: Str): Option<seq<Group>> {
    if StartsWith(value, [COLON, COLON]) then
      if |value| == 2 then Some(Zeros(GROUPS)) else Complete(ScanFrom(value[2..], [], Some(0)))
    else Complete(ScanFrom(value, [], None))
  }

  function ParseIPv6(value: Str): Option<seq<Octet>> {
    var groups := ParseGroups(value);
    if groups.None? then None else Some(BytesOf(groups.value))
  }

  /** The first dot or colon decides how a text is read. */
  function FirstMark(value: Str): Option<Unit> {
    if value == [] then None
    else if value[0] == DOT || value[0] == COLON then Some(value[0])
    else FirstMark(value[1..])
  }

  function Parse(value: Str): Option<seq<Octet>> {
    match FirstMark(value)
    case None => None
    case Some(mark) => if mark == DOT then ParseIPv4(value) else ParseIPv6(value)
  }

  // ----- printing, then parsing -----

  lemma {:induction false} MarkAfter(word: Str, rest: Str)
    requires DOT !in word && COLON !in word
    ensures FirstMark(word + rest) == FirstMark(rest)
  {
    if word == [] {
      assert word + rest == rest;
    } else {
      assert (word + rest)[0] == word[0] && (word + rest)[1..] == word[1..] + rest;
      MarkAfter(word[1..], rest);
    }
  }

  lemma HexHasNoMark(n: nat)
    ensures DOT !in Hex(n) && COLON !in Hex(n) && HexDigit(Hex(n)[0]).Some?
  {
    HexCanonical(n);
  }

  /** A printed text starts with a digit of its first group. */
  lemma JoinStarts(groups: seq<Group>)
    requires groups != []
    ensures Join(groups) != [] && Join(groups)[0] != COLON && Join(groups)[0] != DOT
  {
    HexHasNoMark(groups[0]);
  }

  /** Reading one group and what follows it. */
  lemma ScanOne(g: Group, tail: Str, groups: seq<Group>, ellipsis: Option<nat>)
    requires |groups| < GROUPS && EndsNumber(tail) && (tail != [] ==> tail[0] != DOT)
    ensures ScanFrom(Hex(g) + tail, groups, ellipsis) ==
            if tail == [] then Scanned(groups + [g], ellipsis, [])
            else if tail[0] != COLON || |tail| == 1 then Bad
            else if tail[1] != COLON then ScanFrom(tail[1..], groups + [g], ellipsis)
            else if ellipsis.Some? then Bad
            else if |tail| == 2 then Scanned(groups + [g], Some(|groups| + 1), [])
            else ScanFrom(tail[2..], groups + [g], Some(|groups| + 1))
  {
    XtoiWhole(g, tail);
    var r := Hex(g) + tail;
    assert r[|Hex(g)|..] == tail;
    assert tail != [] ==> r[|Hex(g)|] == tail[0];
    hide Hex, XtoiFrom;
  }

  lemma {:induction false} ScanJoin(gs: seq<Group>, groups: seq<Group>, ellipsis: Option<nat>)
    requires gs != [] && |groups| + |gs| <= GROUPS
    ensures ScanFrom(Join(gs), groups, ellipsis) == Scanned(groups + gs, ellipsis, [])
  {
    hide ScanFrom, Hex;
    if |gs| == 1 {
      ScanOne(gs[0], [], groups, ellipsis);
      assert Hex(gs[0]) + [] == Hex(gs[0]);
      assert gs == [gs[0]];
    } else {
      var rest := gs[1..];
      var tail := [COLON] + Join(rest);
      JoinStarts(rest);
      ScanOne(gs[0], tail, groups, ellipsis);
      assert Join(gs) == Hex(gs[0]) + tail;
      assert tail[1] == Join(rest)[0] && tail[1..] == Join(rest);
      ScanJoin(rest, groups + [gs[0]], ellipsis);
      assert groups + gs == (groups + [gs[0]]) + rest;
    }
  }

  lemma {:induction false} ScanElided(gs: seq<Group>, after: Str, groups: seq<Group>)
    requires gs != [] && |groups| + |gs| < GROUPS
    ensures ScanFrom(Join(gs) + [COLON, COLON] + after, groups, None) ==
            if after == [] then Scanned(groups + gs, Some(|groups| + |gs|), [])
            else ScanFrom(after, groups + gs, Some(|groups| + |gs|))
  {
    hide ScanFrom, Hex;
    if |gs| == 1 {
      var tail := [COLON, COLON] + after;
      ScanOne(gs[0], tail, groups, None);
      assert Join(gs) + [COLON, COLON] + after == Hex(gs[0]) + tail;
      assert tail[2..] == after;
      assert gs == [gs[0]];
    } else {
      var rest := gs[1..];
      var next := Join(rest) + [COLON, COLON] + after;
      var tail := [COLON] + next;
      JoinStarts(rest);
      ScanOne(gs[0], tail, groups, None);
      assert Join(gs) + [COLON, COLON] + after == Hex(gs[0]) + tail;
      assert tail[1] == Join(rest)[0] && tail[1..] == next;
      ScanElided(rest, after, groups + [gs[0]]);
      assert groups + gs == (groups + [gs[0]]) + rest;
    }
  }

  lemma ZerosAt(groups: seq<Group>, s: nat, l: nat)
    requires ZeroRun(groups, s, l)
    ensures groups[..s] + Zeros(l) + groups[s + l..] == groups
  {
  }

  /** Any elision of a zero run reads back as the groups it was made from. */
  lemma ElisionReads(groups: seq<Group>, run: Run)
    requires |groups| == GROUPS && (run.Run? ==> ZeroRun(groups, run.start, run.length))
    ensures ParseGroups(Text6(groups, run)) == Some(groups)
  {
    hide ScanFrom, Join, Hex;
    match run {
      case NoRun =>
        JoinStarts(groups);
        ScanJoin(groups, [], None);
        assert [] + groups == groups;
      case Run(s, l) =>
        var before, after := groups[..s], groups[s + l..];
        ZerosAt(groups, s, l);
        JoinEmpty();
        if before == [] {
          assert Text6(groups, run) == [COLON, COLON] + Join(after);
          assert ([COLON, COLON] + Join(after))[2..] == Join(after);
          if after == [] {
            assert groups == Zeros(GROUPS);
          } else {
            JoinStarts(after);
            ScanJoin(after, [], Some(0));
            assert [] + after == after;
          }
        } else {
          JoinStarts(before);
          assert Text6(groups, run)[0] == Join(before)[0];
          ScanElided(before, Join(after), []);
          assert [] + before == before;
          if after == [] {
            assert before + [] == before;
          } else {
            JoinStarts(after);
            ScanJoin(after, before, Some(s));
          }
        }
    }
  }

  lemma JoinEmpty()
    ensures Join([]) == []
  {
  }

  lemma MarkOfText6(groups: seq<Group>, run: Run)
    requires |groups| == GROUPS && (run.Run? ==> ZeroRun(groups, run.start, run.length))
    ensures FirstMark(Text6(groups, run)) == Some(COLON)
  {
    hide Hex;
    match run {
      case NoRun =>
        HexHasNoMark(groups[0]);
        MarkAfter(Hex(groups[0]), [COLON] + Join(groups[1..]));
        assert Text6(groups, run) == Hex(groups[0]) + ([COLON] + Join(groups[1..]));
      case Run(s, l) =>
        var after := [COLON, COLON] + Join(groups[s + l..]);
        if s == 0 {
          assert Text6(groups, run) == after;
        } else {
          MarkOfJoin(groups[..s], after);
          assert Text6(groups, run) == Join(groups[..s]) + after;
        }
    }
  }

  lemma MarkOfJoin(groups: seq<Group>, after: Str)
    requires groups != [] && FirstMark(after) == Some(COLON)
    ensures FirstMark(Join(groups) + after) == Some(COLON)
  {
    hide Hex, FirstMark;
    HexHasNoMark(groups[0]);
    if |groups| == 1 {
      MarkAfter(Hex(groups[0]), after);
    } else {
      var rest := [COLON] + Join(groups[1..]) + after;
      MarkAfter(Hex(groups[0]), rest);
      assert Join(groups) + after == Hex(groups[0]) + rest;
      MarkFirst(rest);
    }
  }

  lemma MarkFirst(s: Str)
    requires s != [] && s[0] == COLON
    ensures FirstMark(s) == Some(COLON)
  {
  }

  /** Parsing a printed address gives the address back, for every sixteen bytes. */
  lemma PrintThenParse(ip: seq<Octet>, text: Str)
    requires |ip| == 16 && Prints(ip, text)
    ensures Parse(text) == Some(ip)
  {
    if IsIPv4(ip) {
      DottedParses(ip[12], ip[13], ip[14], ip[15]);
      assert ip == Ipv4(ip[12], ip[13], ip[14], ip[15]);
    } else {
      hide FirstMark, ParseIPv4, Text6, ParseGroups, LeftmostLongest, GroupsOf, BytesOf;
      var groups := GroupsOf(ip);
      var run: Run :| PrintsWith(groups, text, run);
      PrintedRun(groups, text, run);
      ElisionReads(groups, run);
      MarkOfText6(groups, run);
      GroupsAndBack(ip);
    }
  }

  lemma PrintedRun(groups: seq<Group>, text: Str, run: Run)
    requires PrintsWith(groups, text, run)
    ensures run.Run? ==> ZeroRun(groups, run.start, run.length)
    ensures text == Text6(groups, run)
  {
  }

  lemma DottedParses(a: Octet, b: Octet, c: Octet, d: Octet)
    ensures Parse(Dotted(a, b, c, d)) == Some(Ipv4(a, b, c, d))
  {
    hide ParseIPv4, Dotted, FirstMark, ParseIPv6;
    DottedReads(a, b, c, d);
    DottedMark(a, b, c, d);
  }

  lemma DottedMark(a: Octet, b: Octet, c: Octet, d: Octet)
    ensures FirstMark(Dotted(a, b, c, d)) == Some(DOT)
    ensures Dotted(a, b, c, d) != [] && IsDigit(Dotted(a, b, c, d)[0])
  {
    DecimalDigits(a);
    DigitsAreNotDots(Decimal(a));
    hide FirstMark, Decimal, ParseDecimal;
    var rest := [DOT] + Decimal(b) + [DOT] + Decimal(c) + [DOT] + Decimal(d);
    MarkAfter(Decimal(a), rest);
    assert Dotted(a, b, c, d) == Decimal(a) + rest;
    MarkDot(rest);
  }

  lemma MarkDot(s: Str)
    requires s != [] && s[0] == DOT
    ensures FirstMark(s) == Some(DOT)
  {
  }

  /** No two addresses print alike. */
  lemma PrintInjective(a: seq<Octet>, b: seq<Octet>, text: Str)
    requires |a| == 16 && |b| == 16 && Prints(a, text) && Prints(b, text)
    ensures a == b
  {
    PrintThenParse(a, text);
    PrintThenParse(b, text);
  }

  // ----- the procedures of the source -----

  method JoinGroups(groups: seq<Group>) returns (text: Str)
    ensures text == Join(groups)
  {
    text := [];
    var k := |groups|;
    while k > 0
      invariant 0 <= k <= |groups| && text == Join(groups[k..])
    {
      k := k - 1;
      assert groups[k..][1..] == groups[k + 1..];
      text := if text == [] then Hex(groups[k]) else Hex(groups[k]) + [COLON] + text;
      JoinIsEmpty(groups[k + 1..]);
    }
  }

  lemma JoinIsEmpty(groups: seq<Group>)
    ensures Join(groups) == [] <==> groups == []
  {
    if groups != [] {
      JoinStarts(groups);
    }
  }

  lemma ElidedText(before: Str, after: Str)
    ensures before + [COLON, COLON] + after ==
            if before == [] && after == [] then [COLON, COLON]
            else if before == [] then [COLON, COLON] + after
            else if after == [] then before + [COLON, COLON]
            else before + [COLON, COLON] + after
  {
  }

  /** Prints an address: dotted when it is an IPv4 one, else with the leftmost longest run of at
      least two zero groups elided, and reads back as that address. */
  method FormatIP(ip: seq<Octet>) returns (text: Str)
    requires |ip| == 16
    ensures Prints(ip, text)
  {
    if IsIPv4(ip) {
      return Dotted(ip[12], ip[13], ip[14], ip[15]);
    }
    var groups: seq<Group> := [];
    for k := 0 to GROUPS
      invariant groups == GroupsOf(ip)[..k]
    {
      groups := groups + [Pair(ip[2 * k], ip[2 * k + 1])];
    }
    assert GroupsOf(ip)[..GROUPS] == GroupsOf(ip);
    var run := FindZeroRun(groups);
    match run {
      case NoRun =>
        text := JoinGroups(groups);
      case Run(s, l) =>
        var before := JoinGroups(groups[..s]);
        var after := JoinGroups(groups[s + l..]);
        if |before| == 0 && |after| == 0 {
          text := [COLON, COLON];
        } else if |before| == 0 {
          text := [COLON, COLON] + after;
        } else if |after| == 0 {
          text := before + [COLON, COLON];
        } else {
          text := before + [COLON, COLON] + after;
        }
        ElidedText(before, after);
    }
    assert PrintsWith(GroupsOf(ip), text, run);
  }

  /** The loop of the IPv6 parser over a byte array, two bytes a round. */
  method ParseIPv6Sloppy(value: Str) returns (result: Option<seq<Octet>>)
    ensures result == ParseIPv6(value)
  {
    hide ScanFrom, XtoiFrom, ParseIPv4, BytesOf, ParseIPv6;
    ParseFrom(value);
    var ip := new Octet[16](_ => 0);
    var remaining, ellipsis, i := value, -1, 0;
    ghost var groups: seq<Group> := [];
    if StartsWith(remaining, [COLON, COLON]) {
      ellipsis := 0;
      remaining := remaining[2..];
      if |remaining| == 0 {
        ZeroBytes(GROUPS);
        assert ip[..] == Blank(16);
        return Some(ip[..]);
      }
    }
    ghost var whole := ScanFrom(remaining, groups, EllipsisOf(ellipsis));
    NoBytes(groups);
    var scanning := true;
    while scanning && i < 16
      invariant i == 2 * |groups| <= 16 && ip[..i] == BytesOf(groups)
      invariant -1 <= ellipsis <= i && (ellipsis >= 0 ==> ellipsis % 2 == 0)
      invariant whole == if scanning then ScanFrom(remaining, groups, EllipsisOf(ellipsis))
                         else Scanned(groups, EllipsisOf(ellipsis), remaining)
      decreases scanning, 16 - i
    {
      hide ScanFrom, XtoiFrom, ParseIPv4, BytesOf, ParseIPv6, Complete;
      ScanStep(remaining, groups, EllipsisOf(ellipsis));
      var n, c, ok := Xtoi(remaining);
      if !ok || n > 0xffff {
        NoneFromBad(whole);
        return None;
      }
      if c < |remaining| && remaining[c] == DOT {
        if (ellipsis < 0 && i != 12) || i + 4 > 16 {
          NoneFromBad(whole);
          return None;
        }
        var stored;
        stored, groups := StoreDotted(ip, i, groups, remaining);
        if !stored {
          NoneFromBad(whole);
          return None;
        }
        remaining := [];
        i := i + 4;
        scanning := false;
      } else {
        StoreTwo(ip, i, groups, n);
        groups := groups + [n];
        i := i + 2;
        var separated;
        separated, remaining, ellipsis, scanning := Separator(remaining[c..], ellipsis, i);
        if !separated {
          NoneFromBad(whole);
          return None;
        }
      }
    }
    hide ScanFrom, XtoiFrom, ParseIPv4, BytesOf, ParseIPv6;
    if scanning {
      ScanFull(remaining, groups, EllipsisOf(ellipsis));
    }
    if |remaining| != 0 {
      return None;
    }
    result := Assemble(ip, ellipsis, i, groups);
  }

  /** An IPv4 address at the end, stored as two groups. */
  method StoreDotted(ip: array<Octet>, i: nat, ghost groups: seq<Group>, remaining: Str) returns (stored: bool, ghost more: seq<Group>)
    requires ip.Length == 16 && i == 2 * |groups| && i + 4 <= 16 && ip[..i] == BytesOf(groups)
    modifies ip
    ensures stored <==> ParseIPv4(remaining).Some?
    ensures stored ==>
              var v4 := ParseIPv4(remaining).value;
              more == groups + [Pair(v4[12], v4[13])] + [Pair(v4[14], v4[15])] && ip[..i + 4] == BytesOf(more)
  {
    hide ParseIPv4, BytesOf;
    var ip4 := ParseIPv4Sloppy(remaining);
    if ip4.None? {
      return false, groups;
    }
    StoreTwo(ip, i, groups, Pair(ip4.value[12], ip4.value[13]));
    more := groups + [Pair(ip4.value[12], ip4.value[13])];
    StoreTwo(ip, i + 2, more, Pair(ip4.value[14], ip4.value[15]));
    more := more + [Pair(ip4.value[14], ip4.value[15])];
    stored := true;
  }

  /** What stands between a group and the next: nothing more, a colon, or the ellipsis. */
  method Separator(tail: Str, was: int, i: nat) returns (ok: bool, remaining: Str, ellipsis: int, scanning: bool)
    requires was >= -1
    ensures tail == [] ==> ok && remaining == [] && ellipsis == was && !scanning
    ensures tail != [] && (tail[0] != COLON || |tail| == 1) ==> !ok
    ensures |tail| > 1 && tail[0] == COLON && tail[1..][0] != COLON ==> ok && remaining == tail[1..] && ellipsis == was && scanning
    ensures |tail| > 1 && tail[0] == COLON && tail[1..][0] == COLON ==>
              (ok <==> was < 0) && (ok ==> remaining == tail[1..][1..] && ellipsis == i && (scanning <==> tail[1..][1..] != []))
  {
    ok, remaining, ellipsis, scanning := true, tail, was, |tail| > 0;
    if scanning {
      if remaining[0] != COLON || |remaining| == 1 {
        return false, remaining, ellipsis, false;
      }
      remaining := remaining[1..];
      if remaining[0] == COLON {
        if ellipsis >= 0 {
          return false, remaining, ellipsis, false;
        }
        ellipsis := i;
        remaining := remaining[1..];
        scanning := |remaining| > 0;
      }
    }
  }

  lemma NoBytes(groups: seq<Group>)
    requires groups == []
    ensures BytesOf(groups) == []
  {
  }

  lemma NoneFromBad(scan: Scan)
    requires scan.Bad?
    ensures Complete(scan).None?
  {
  }

  lemma ScanFull(r: Str, groups: seq<Group>, ellipsis: Option<nat>)
    requires |groups| >= GROUPS
    ensures ScanFrom(r, groups, ellipsis) == Scanned(groups, ellipsis, r)
  {
  }

  /** One round of the scan. */
  lemma ScanStep(r: Str, groups: seq<Group>, ellipsis: Option<nat>)
    requires |groups| < GROUPS
    ensures var (n, c, ok) := XtoiFrom(r, 0, 0);
            var here := ScanFrom(r, groups, ellipsis);
            && (!ok || n > 0xffff ==> here.Bad?)
            && (ok && n <= 0xffff && c < |r| && r[c] == DOT ==>
                  if (ellipsis.None? && |groups| != 6) || |groups| > 6 || ParseIPv4(r).None? then here.Bad?
                  else
                    var v4 := ParseIPv4(r).value;
                    here == Scanned(groups + [Pair(v4[12], v4[13])] + [Pair(v4[14], v4[15])], ellipsis, []))
            && (ok && n <= 0xffff && c <= |r| && (c < |r| ==> r[c] != DOT) ==>
                  var more, tail := groups + [n], r[c..];
                  if tail == [] then here == Scanned(more, ellipsis, [])
                  else if tail[0] != COLON || |tail| == 1 then here.Bad?
                  else if tail[1..][0] != COLON then here == ScanFrom(tail[1..], more, ellipsis)
                  else if ellipsis.Some? then here.Bad?
                  else if tail[1..][1..] == [] then here == Scanned(more, Some(|more|), [])
                  else here == ScanFrom(tail[1..][1..], more, Some(|more|)))
  {
    hide XtoiFrom, ParseIPv4;
    var (n, c, ok) := XtoiFrom(r, 0, 0);
    if ok && n <= 0xffff && c <= |r| && |r[c..]| >= 2 {
      assert r[c..][1..][1..] == r[c..][2..];
    }
  }

  lemma ParseFrom(value: Str)
    ensures var elided := StartsWith(value, [COLON, COLON]);
            if elided && |value| == 2 then ParseIPv6(value) == Some(BytesOf(Zeros(GROUPS)))
            else
              var groups := Complete(if elided then ScanFrom(value[2..], [], Some(0)) else ScanFrom(value, [], None));
              ParseIPv6(value) == if groups.None? then None else Some(BytesOf(groups.value))
  {
    hide ScanFrom;
  }

  /** The end of the parser: fills the gap that the ellipsis stands for. */
  method Assemble(ip: array<Octet>, ellipsis: int, i: nat, ghost groups: seq<Group>) returns (result: Option<seq<Octet>>)
    requires ip.Length == 16 && i == 2 * |groups| <= 16 && ip[..i] == BytesOf(groups)
    requires -1 <= ellipsis <= i && (ellipsis >= 0 ==> ellipsis % 2 == 0)
    modifies ip
    ensures var whole := Complete(Scanned(groups, EllipsisOf(ellipsis), []));
            result == if whole.None? then None else Some(BytesOf(whole.value))
  {
    hide BytesOf;
    if i < 16 {
      if ellipsis < 0 {
        return None;
      }
      Expand(ip, ellipsis, i);
      assert groups == groups[..ellipsis / 2] + groups[ellipsis / 2..];
      FilledBytes(groups[..ellipsis / 2], groups[ellipsis / 2..], GROUPS - |groups|);
      return Some(ip[..]);
    } else if ellipsis >= 0 {
      return None;
    }
    assert ip[..16] == ip[..];
    return Some(ip[..]);
  }

  function EllipsisOf(ellipsis: int): Option<nat>
    requires ellipsis >= -1
  {
    if ellipsis < 0 then None else Some(ellipsis / 2)
  }

  /** Stores one group as two bytes. */
  method StoreTwo(ip: array<Octet>, i: nat, ghost groups: seq<Group>, n: Group)
    requires ip.Length == 16 && i == 2 * |groups| && i + 2 <= 16 && ip[..i] == BytesOf(groups)
    modifies ip
    ensures ip[..i + 2] == BytesOf(groups + [n])
    ensures forall k :: i + 2 <= k < 16 ==> ip[k] == old(ip[k])
  {
    ip[i] := n / 256;
    ip[i + 1] := n % 256;
    assert (groups + [n])[..|groups|] == groups;
    assert ip[..i + 2] == ip[..i] + [n / 256, n % 256];
  }

  /** The bytes after place `j` have moved to the end. */
  predicate Moved(ip: seq<Octet>, was: seq<Octet>, e: nat, j: int) {
    && |ip| == 16 && e <= |was| < 16 && e - 1 <= j < |was|
    && (forall k :: 0 <= k < e ==> ip[k] == was[k])
    && (forall k :: 0 <= k <= j ==> ip[k] == was[k])
    && (forall k :: j < k < |was| ==> ip[k + (16 - |was|)] == was[k])
  }

  lemma MovedStep(ip: seq<Octet>, was: seq<Octet>, e: nat, j: nat)
    requires Moved(ip, was, e, j) && e <= j
    ensures Moved(ip[j + (16 - |was|) := ip[j]], was, e, j - 1)
  {
  }

  /** All have moved, and the gap is cleared after place `j`. */
  predicate Cleared(ip: seq<Octet>, was: seq<Octet>, e: nat, j: int) {
    && |ip| == 16 && e <= |was| < 16 && e - 1 <= j < e + (16 - |was|)
    && (forall k :: 0 <= k < e ==> ip[k] == was[k])
    && (forall k :: e <= k < |was| ==> ip[k + (16 - |was|)] == was[k])
    && (forall k :: j < k < e + (16 - |was|) ==> ip[k] == 0)
  }

  lemma ClearedStep(ip: seq<Octet>, was: seq<Octet>, e: nat, j: nat)
    requires Cleared(ip, was, e, j) && e <= j
    ensures Cleared(ip[j := 0], was, e, j - 1)
  {
  }

  lemma ClearedIsFilled(ip: seq<Octet>, was: seq<Octet>, e: nat)
    requires Cleared(ip, was, e, e - 1)
    ensures ip == Filled(was, e, 16)
  {
    assert forall k :: e + (16 - |was|) <= k < 16 ==> ip[k] == was[k - (16 - |was|)];
  }

  /** Moves the bytes after the ellipsis to the end and clears the gap. */
  method Expand(ip: array<Octet>, ellipsis: nat, i: nat)
    requires ip.Length == 16 && ellipsis <= i < 16
    modifies ip
    ensures ip[..] == Filled(old(ip[..i]), ellipsis, 16)
  {
    ghost var was := ip[..i];
    var n := 16 - i;
    var j := i - 1;
    assert Moved(ip[..], was, ellipsis, j);
    hide Filled, Moved, Cleared;
    while j >= ellipsis
      invariant ellipsis - 1 <= j < i && Moved(ip[..], was, ellipsis, j)
    {
      hide Filled, Moved, Cleared;
      MovedStep(ip[..], was, ellipsis, j);
      ghost var before := ip[..];
      ip[j + n] := ip[j];
      assert ip[..] == before[j + n := before[j]];
      j := j - 1;
    }
    j := ellipsis + n - 1;
    MovedIsCleared(ip[..], was, ellipsis);
    while j >= ellipsis
      invariant ellipsis - 1 <= j < ellipsis + n && Cleared(ip[..], was, ellipsis, j)
    {
      hide Filled, Moved, Cleared;
      ClearedStep(ip[..], was, ellipsis, j);
      ghost var before := ip[..];
      ip[j] := 0;
      assert ip[..] == before[j := 0];
      j := j - 1;
    }
    ClearedIsFilled(ip[..], was, ellipsis);
  }

  lemma MovedIsCleared(ip: seq<Octet>, was: seq<Octet>, e: nat)
    requires Moved(ip, was, e, e - 1)
    ensures Cleared(ip, was, e, e + (16 - |was|) - 1)
  {
  }

  /** Bytes with zeros put in at `e` to make up a length. */
  function Filled(bytes: seq<Octet>, e: nat, length: nat): seq<Octet>
    requires e <= |bytes| <= length
  {
    seq(length, k requires 0 <= k < length =>
      if k < e then bytes[k] else if k < e + (length - |bytes|) then 0 else bytes[k - (length - |bytes|)])
  }

  function Blank(n: nat): seq<Octet> {
    seq(n, _ => 0)
  }

  lemma {:induction false} ZeroBytes(n: nat)
    ensures BytesOf(Zeros(n)) == Blank(2 * n)
  {
    if n > 0 {
      ZeroBytes(n - 1);
      assert Zeros(n)[..n - 1] == Zeros(n - 1);
    }
  }

  lemma {:induction false} BytesConcat(a: seq<Group>, b: seq<Group>)
    ensures BytesOf(a + b) == BytesOf(a) + BytesOf(b)
  {
    if b == [] {
      assert a + b == a;
    } else {
      assert (a + b)[..|a + b| - 1] == a + b[..|b| - 1];
      BytesConcat(a, b[..|b| - 1]);
    }
  }

  lemma ConcatBytes(a: seq<Group>, z: seq<Group>, b: seq<Group>)
    ensures BytesOf(a + z + b) == BytesOf(a) + BytesOf(z) + BytesOf(b)
  {
    hide BytesOf;
    BytesConcat(a, z);
    BytesConcat(a + z, b);
  }

  /** Filling in zero groups is filling in zero bytes. */
  lemma FilledBytes(a: seq<Group>, b: seq<Group>, n: nat)
    requires |a| + |b| + n == GROUPS
    ensures BytesOf(a + Zeros(n) + b) == Filled(BytesOf(a + b), 2 * |a|, 16)
  {
    hide BytesOf, Filled, Blank, Zeros;
    ConcatBytes(a, Zeros(n), b);
    ZeroBytes(n);
    BytesConcat(a, b);
    FilledParts(BytesOf(a), BytesOf(b), 2 * n);
  }

  lemma FilledParts(a: seq<Octet>, b: seq<Octet>, n: nat)
    ensures a + Blank(n) + b == Filled(a + b, |a|, |a| + |b| + n)
  {
  }

  method ParseIP(value: Str) returns (ip: Option<seq<Octet>>)
    ensures ip == Parse(value)
  {
    var i := 0;
    while i < |value|
      invariant i <= |value| && FirstMark(value) == FirstMark(value[i..])
    {
      assert value[i..][1..] == value[i + 1..];
      if value[i] == DOT {
        ip := ParseIPv4Sloppy(value);
        return;
      }
      if value[i] == COLON {
        ip := ParseIPv6Sloppy(value);
        return;
      }
      i := i + 1;
    }
    return None;
  }
}

/** Which texts are addresses, and of what: the grammar of RFC 4291, section 2.2, as the parser reads it. */
module IpGrammar {
  import opened Options
  import opened Text
  import opened Ip

  // ----- the grammar -----

  /** A hexadecimal digit, of either case. */
  lemma HexDigitMeans(unit: Unit, digit: nat)
    ensures HexDigit(unit) == Some(digit) <==>
            (digit < 10 && unit == 48 + digit) || (10 <= digit < 16 && (unit == 65 + digit - 10 || unit == 97 + digit - 10))
  {
  }

  function HexValue(p: Str): nat {
    if p == [] then 0
    else HexValue(p[..|p| - 1]) * 16 + if HexDigit(p[|p| - 1]).Some? then HexDigit(p[|p| - 1]).value else 0
  }

  predicate HexDigits(p: Str) {
    p != [] && forall i :: 0 <= i < |p| ==> HexDigit(p[i]).Some?
  }

  /** One group in hexadecimal, with any number of leading zeros. */
  predicate HexPiece(p: Str) {
    HexDigits(p) && HexValue(p) <= 0xffff
  }

  /** The two groups of a dotted address. */
  predicate DottedPiece(p: Str, gs: seq<Group>) {
    var ip := ParseIPv4(p);
    ip.Some? && gs == [Pair(ip.value[12], ip.value[13]), Pair(ip.value[14], ip.value[15])]
  }

  predicate FirstPiece(text: Str, gs: seq<Group>, k: nat) {
    k < |text| && text[k] == COLON && HexPiece(text[..k]) && gs != [] && gs[0] == HexValue(text[..k])
  }

  /** Groups with colons between them; the last two may be written as a dotted address. */
  predicate Side(text: Str, gs: seq<Group>, dotted: bool)
    decreases |text|
  {
    || (HexPiece(text) && gs == [HexValue(text)])
    || (dotted && DottedPiece(text, gs))
    || exists k :: 0 <= k < |text| && FirstPiece(text, gs, k) && Side(text[k + 1..], gs[1..], dotted)
  }

  predicate EmptyOrSide(text: Str, gs: seq<Group>, dotted: bool) {
    if text == [] then gs == [] else Side(text, gs, dotted)
  }

  /** Two colons at `k` stand for all groups but the `m` before and the `n` after. */
  predicate Elides(text: Str, gs: seq<Group>, k: nat, m: nat, n: nat) {
    && |gs| == GROUPS && m + n < GROUPS && k + 2 <= |text| && text[k] == text[k + 1] == COLON
    && EmptyOrSide(text[..k], gs[..m], false) && EmptyOrSide(text[k + 2..], gs[GROUPS - n..], true)
    && forall i :: m <= i < GROUPS - n ==> gs[i] == 0
  }

  /** A text of eight groups, all of them written or some elided. */
  predicate Reads(text: Str, gs: seq<Group>) {
    |gs| == GROUPS && (Side(text, gs, true) || exists k: nat, m: nat, n: nat :: k <= |text| && m <= GROUPS && n <= GROUPS && Elides(text, gs, k, m, n))
  }

  // ----- numbers -----

  lemma {:induction false} HexGrows(p: Str, c: nat)
    requires c <= |p|
    ensures HexValue(p[..c]) <= HexValue(p)
  {
    if c == |p| {
      assert p[..c] == p;
    } else {
      var init := p[..|p| - 1];
      HexGrows(init, c);
      assert init[..c] == p[..c];
    }
  }

  /** The scan over the digits of a piece. */
  lemma {:induction false} XtoiAlong(p: Str, rest: Str, c: nat)
    requires HexPiece(p) && EndsNumber(rest) && c <= |p|
    ensures XtoiFrom(p + rest, HexValue(p[..c]), c) == (HexValue(p), |p|, true)
    decreases |p| - c
  {
    var r := p + rest;
    if c == |p| {
      assert p[..c] == p;
      assert rest != [] ==> r[c] == rest[0];
    } else {
      assert r[c] == p[c];
      assert p[..c + 1][..c] == p[..c];
      HexGrows(p, c + 1);
      XtoiAlong(p, rest, c + 1);
    }
  }

  lemma XtoiPiece(p: Str, rest: Str)
    requires HexPiece(p) && EndsNumber(rest)
    ensures XtoiFrom(p + rest, 0, 0) == (HexValue(p), |p|, true)
  {
    XtoiAlong(p, rest, 0);
  }

  lemma {:induction false} XtoiTellsFrom(r: Str, c: nat)
    requires c <= |r| && (forall i :: 0 <= i < c ==> HexDigit(r[i]).Some?)
    ensures var (n, d, ok) := XtoiFrom(r, HexValue(r[..c]), c);
            ok ==> d <= |r| && HexDigits(r[..d]) && n == HexValue(r[..d]) && EndsNumber(r[d..])
    decreases |r| - c
  {
    if c < |r| && HexDigit(r[c]).Some? {
      assert r[..c + 1][..c] == r[..c];
      XtoiTellsFrom(r, c + 1);
    }
  }

  /** What the scan found is a piece. */
  lemma XtoiTells(r: Str)
    ensures var (n, c, ok) := XtoiFrom(r, 0, 0);
            ok && n <= 0xffff ==> c <= |r| && HexPiece(r[..c]) && n == HexValue(r[..c]) && EndsNumber(r[c..])
  {
    XtoiTellsFrom(r, 0);
  }

  // ----- dotted addresses -----

  /** A dotted address: four decimal parts of at most 255, with any number of leading zeros. */
  predicate IsDotted(text: Str, ip: seq<Octet>, parts: seq<Str>) {
    && |parts| == 4 && (forall i :: 0 <= i < 4 ==> OctetText(parts[i]))
    && text == parts[0] + [DOT] + parts[1] + [DOT] + parts[2] + [DOT] + parts[3]
    && ip == Ipv4(ParseDecimal(parts[0]), ParseDecimal(parts[1]), ParseDecimal(parts[2]), ParseDecimal(parts[3]))
  }

  lemma DottedExactly(text: Str, ip: seq<Octet>)
    ensures ParseIPv4(text) == Some(ip) <==> exists parts :: IsDotted(text, ip, parts)
  {
    hide Split, ParseDecimal;
    if ParseIPv4(text) == Some(ip) {
      SplitJoins(text);
      FourJoined(Split(text, DOT));
      assert IsDotted(text, ip, Split(text, DOT));
    }
    if parts :| IsDotted(text, ip, parts) {
      SplitDotted(text, ip, parts);
    }
  }

  lemma SplitDotted(text: Str, ip: seq<Octet>, parts: seq<Str>)
    requires IsDotted(text, ip, parts)
    ensures Split(text, DOT) == parts && ParseIPv4(text) == Some(ip)
  {
    hide Split, ParseDecimal;
    SplitFour(parts[0], parts[1], parts[2], parts[3]);
    assert parts == [parts[0], parts[1], parts[2], parts[3]];
  }

  function Joined(parts: seq<Str>): Str {
    if parts == [] then [] else if |parts| == 1 then parts[0] else Joined(parts[..|parts| - 1]) + [DOT] + parts[|parts| - 1]
  }

  lemma {:induction false} SplitJoins(s: Str)
    ensures Joined(Split(s, DOT)) == s
  {
    if s != [] {
      var init, last := s[..|s| - 1], s[|s| - 1];
      SplitJoins(init);
      var before := Split(init, DOT);
      assert s == init + [last];
      if last == DOT {
        assert (before + [[]])[..|before|] == before;
      } else {
        var after := before[|before| - 1 := before[|before| - 1] + [last]];
        assert after[..|before| - 1] == before[..|before| - 1];
        if |before| > 1 {
          JoinMore(Joined(before[..|before| - 1]) + [DOT], before[|before| - 1], last);
        }
      }
    }
  }

  lemma JoinMore(a: Str, b: Str, x: Unit)
    ensures a + (b + [x]) == (a + b) + [x]
  {
  }

  lemma FourJoined(parts: seq<Str>)
    requires |parts| == 4
    ensures Joined(parts) == parts[0] + [DOT] + parts[1] + [DOT] + parts[2] + [DOT] + parts[3]
  {
    assert parts[..3][..2] == parts[..2] && parts[..2][..1] == parts[..1];
    assert Joined(parts[..1]) == parts[0];
    assert Joined(parts[..2]) == parts[0] + [DOT] + parts[1];
  }

  /** Read in hexadecimal, a decimal part of at most 255 is still a piece. */
  lemma {:induction false} DecimalIsHex(s: Str)
    requires forall i :: 0 <= i < |s| ==> IsDigit(s[i])
    ensures forall i :: 0 <= i < |s| ==> HexDigit(s[i]).Some?
    ensures ParseDecimal(s) <= 9 ==> HexValue(s) <= 9
    ensures ParseDecimal(s) <= 99 ==> HexValue(s) <= 153
    ensures ParseDecimal(s) <= 999 ==> HexValue(s) <= 2457
  {
    if s != [] {
      DecimalIsHex(s[..|s| - 1]);
    }
  }

  /** The scan stops at the first dot of a dotted address. */
  lemma DottedStarts(r: Str)
    requires ParseIPv4(r).Some?
    ensures var (n, c, ok) := XtoiFrom(r, 0, 0);
            ok && n <= 0xffff && 0 < c < |r| && r[c] == DOT && forall i :: 0 <= i < c ==> IsDigit(r[i])
  {
    hide ParseIPv4, XtoiFrom, IsDotted, HexPiece;
    DottedExactly(r, ParseIPv4(r).value);
    var parts :| IsDotted(r, ParseIPv4(r).value, parts);
    var a, rest := DottedHead(r, ParseIPv4(r).value, parts);
    XtoiPiece(a, rest);
  }

  lemma DottedHead(r: Str, ip: seq<Octet>, parts: seq<Str>) returns (a: Str, rest: Str)
    requires IsDotted(r, ip, parts)
    ensures r == a + rest && rest != [] && rest[0] == DOT && EndsNumber(rest) && HexPiece(a)
    ensures a != [] && HexValue(a) <= 0xffff && forall i :: 0 <= i < |a| ==> r[i] == a[i] && IsDigit(a[i])
  {
    hide ParseDecimal, HexValue;
    a, rest := parts[0], [DOT] + parts[1] + [DOT] + parts[2] + [DOT] + parts[3];
    DecimalIsHex(a);
  }

  lemma SideStarts(text: Str, gs: seq<Group>, dotted: bool)
    requires Side(text, gs, dotted)
    ensures text != [] && gs != [] && HexDigit(text[0]).Some?
  {
    if dotted && DottedPiece(text, gs) {
      DottedStarts(text);
    } else if !HexPiece(text) {
      var k :| 0 <= k < |text| && FirstPiece(text, gs, k) && Side(text[k + 1..], gs[1..], dotted);
      assert text[..k][0] == text[0];
    }
  }

  // ----- what the scan reads -----

  /** One group and what follows it. */
  lemma ScanPiece(p: Str, tail: Str, groups: seq<Group>, ellipsis: Option<nat>)
    requires HexPiece(p) && EndsNumber(tail) && (tail != [] ==> tail[0] != DOT) && |groups| < GROUPS
    ensures ScanFrom(p + tail, groups, ellipsis) ==
            var more := groups + [HexValue(p)];
            if tail == [] then Scanned(more, ellipsis, [])
            else if tail[0] != COLON || |tail| == 1 then Bad
            else if tail[1] != COLON then ScanFrom(tail[1..], more, ellipsis)
            else if ellipsis.Some? then Bad
            else if |tail| == 2 then Scanned(more, Some(|more|), [])
            else ScanFrom(tail[2..], more, Some(|more|))
  {
    XtoiPiece(p, tail);
    var r := p + tail;
    assert r[|p|..] == tail;
    assert tail != [] ==> r[|p|] == tail[0];
    hide XtoiFrom, HexPiece, HexValue;
  }

  lemma ScanDotted(r: Str, gs: seq<Group>, groups: seq<Group>, ellipsis: Option<nat>)
    requires DottedPiece(r, gs) && |groups| <= 6 && (ellipsis.Some? || |groups| == 6)
    ensures ScanFrom(r, groups, ellipsis) == Scanned(groups + gs, ellipsis, [])
  {
    hide XtoiFrom, ParseIPv4;
    DottedStarts(r);
  }

  lemma Cons<E>(a: seq<E>, b: seq<E>)
    requires b != []
    ensures a + b == (a + [b[0]]) + b[1..]
  {
  }

  /** Where the first group of a side ends, or the end of the text if it is the only one. */
  lemma SideNext(text: Str, gs: seq<Group>, dotted: bool) returns (k: nat)
    requires Side(text, gs, dotted) && !(dotted && DottedPiece(text, gs))
    ensures gs != [] && k <= |text|
    ensures k == |text| ==> HexPiece(text) && gs == [HexValue(text)]
    ensures k < |text| ==> FirstPiece(text, gs, k) && k + 1 < |text| && text[k + 1] != COLON && text[k + 1..][0] == text[k + 1]
                           && Side(text[k + 1..], gs[1..], dotted)
  {
    if HexPiece(text) && gs == [HexValue(text)] {
      k := |text|;
    } else {
      k :| 0 <= k < |text| && FirstPiece(text, gs, k) && Side(text[k + 1..], gs[1..], dotted);
      SideStarts(text[k + 1..], gs[1..], dotted);
      DigitIsNoColon(text[k + 1..][0]);
    }
  }

  /** What is written is read: groups after the ellipsis, or all eight of them. */
  lemma {:induction false} SideScans(r: Str, gs: seq<Group>, groups: seq<Group>, ellipsis: Option<nat>)
    requires Side(r, gs, true) && |groups| + |gs| <= GROUPS && (ellipsis.Some? || |groups| + |gs| == GROUPS)
    ensures ScanFrom(r, groups, ellipsis) == Scanned(groups + gs, ellipsis, [])
    decreases |r|
  {
    hide Side, ScanFrom, HexPiece, HexValue, FirstPiece, DottedPiece;
    SideStarts(r, gs, true);
    if DottedPiece(r, gs) {
      DottedIsTwo(r, gs);
      ScanDotted(r, gs, groups, ellipsis);
    } else {
      var k := SideNext(r, gs, true);
      if k < |r| {
        NextSide(r, gs, k, groups, ellipsis);
        SideScans(r[k + 1..], gs[1..], groups + [gs[0]], ellipsis);
        Cons(groups, gs);
      } else {
        assert r + [] == r;
        ScanPiece(r, [], groups, ellipsis);
      }
    }
  }

  lemma DottedIsTwo(r: Str, gs: seq<Group>)
    requires DottedPiece(r, gs)
    ensures |gs| == 2
  {
  }

  lemma NextSide(r: Str, gs: seq<Group>, k: nat, groups: seq<Group>, ellipsis: Option<nat>)
    requires FirstPiece(r, gs, k) && k + 1 < |r| && r[k + 1] != COLON && |groups| < GROUPS
    ensures ScanFrom(r, groups, ellipsis) == ScanFrom(r[k + 1..], groups + [gs[0]], ellipsis)
  {
    hide ScanFrom, HexValue, HexPiece;
    var tail := r[k..];
    assert r == r[..k] + tail && tail[1..] == r[k + 1..];
    ScanPiece(r[..k], tail, groups, ellipsis);
  }

  lemma FirstOfElided(a: Str, ga: seq<Group>, b: Str, k: nat)
    requires FirstPiece(a, ga, k) && k + 1 < |a|
    ensures var r := a + [COLON, COLON] + b;
            FirstPiece(r, ga, k) && r[k + 1] == a[k + 1..][0] && r[k + 1..] == a[k + 1..] + [COLON, COLON] + b
    ensures ga != []
  {
    hide HexPiece, HexValue;
    var r := a + [COLON, COLON] + b;
    assert r[..k] == a[..k] && r[k] == a[k];
  }

  lemma ColonEnds(rest: Str)
    requires rest != [] && rest[0] == COLON
    ensures EndsNumber(rest)
  {
  }

  lemma DigitIsNoColon(unit: Unit)
    requires HexDigit(unit).Some?
    ensures unit != COLON && unit != DOT
  {
  }

  /** Groups, two colons, and more. */
  lemma {:induction false} ElidedScans(a: Str, ga: seq<Group>, b: Str, groups: seq<Group>)
    requires Side(a, ga, false) && |groups| + |ga| < GROUPS
    ensures ScanFrom(a + [COLON, COLON] + b, groups, None) ==
            if b == [] then Scanned(groups + ga, Some(|groups| + |ga|), []) else ScanFrom(b, groups + ga, Some(|groups| + |ga|))
    decreases |a|
  {
    hide Side, ScanFrom, HexPiece, HexValue, FirstPiece;
    var r := a + [COLON, COLON] + b;
    var k := SideNext(a, ga, false);
    if k < |a| {
      FirstOfElided(a, ga, b, k);
      NextSide(r, ga, k, groups, None);
      ElidedScans(a[k + 1..], ga[1..], b, groups + [ga[0]]);
      Cons(groups, ga);
    } else {
      var tail := [COLON, COLON] + b;
      assert r == a + tail && tail[2..] == b;
      ColonEnds(tail);
      ScanPiece(a, tail, groups, None);
    }
  }

  // ----- what the scan has read -----

  /** Groups, two colons at `k`, and more groups after the first `m`, or nothing. */
  predicate ElidedAt(text: Str, gs: seq<Group>, k: nat, m: nat) {
    && k + 2 <= |text| && text[k] == text[k + 1] == COLON && m <= |gs|
    && Side(text[..k], gs[..m], false) && EmptyOrSide(text[k + 2..], gs[m..], true)
  }

  lemma SideFirst(text: Str, gs: seq<Group>, k: nat, dotted: bool)
    requires FirstPiece(text, gs, k) && Side(text[k + 1..], gs[1..], dotted)
    ensures Side(text, gs, dotted)
  {
  }

  lemma ElidedFirst(text: Str, gs: seq<Group>, c: nat, k: nat, m: nat)
    requires FirstPiece(text, gs, c) && ElidedAt(text[c + 1..], gs[1..], k, m)
    ensures ElidedAt(text, gs, c + 1 + k, m + 1)
  {
    hide Side, HexPiece, HexValue;
    var rest := text[c + 1..];
    assert text[..c + 1 + k][..c] == text[..c] && text[..c + 1 + k][c + 1..] == rest[..k];
    assert text[c + 1 + k + 2..] == rest[k + 2..];
    assert gs[..m + 1][1..] == gs[1..][..m] && gs[1..][m..] == gs[m + 1..];
    assert text[c + 1 + k] == rest[k] && text[c + 1 + k + 1] == rest[k + 1];
    SideFirst(text[..c + 1 + k], gs[..m + 1], c, false);
  }

  function PieceValue(p: Str): Group
    requires HexPiece(p)
  {
    HexValue(p)
  }

  /** One move of the scan. */
  datatype Move = Stuck | Dot | Last | Colon | TwoColons | EndColons

  function MoveOf(r: Str): Move {
    var (n, c, ok) := XtoiFrom(r, 0, 0);
    if !ok || n > 0xffff || c > |r| then Stuck
    else if c == |r| then Last
    else if r[c] == DOT then Dot
    else if r[c] != COLON || c + 1 == |r| then Stuck
    else if r[c + 1] != COLON then Colon
    else if c + 2 == |r| then EndColons
    else TwoColons
  }

  lemma ScanMoves(r: Str, groups: seq<Group>, ellipsis: Option<nat>)
    requires |groups| < GROUPS
    ensures var (n, c, _) := XtoiFrom(r, 0, 0);
            match MoveOf(r)
            case Stuck => ScanFrom(r, groups, ellipsis) == Bad
            case Dot =>
              ScanFrom(r, groups, ellipsis) ==
              if (ellipsis.None? && |groups| != 6) || |groups| > 6 || ParseIPv4(r).None? then Bad
              else var ip := ParseIPv4(r).value; Scanned(groups + [Pair(ip[12], ip[13]), Pair(ip[14], ip[15])], ellipsis, [])
            case Last => HexPiece(r) && ScanFrom(r, groups, ellipsis) == Scanned(groups + [PieceValue(r)], ellipsis, [])
            case Colon =>
              && c + 1 < |r| && HexPiece(r[..c]) && FirstPiece(r, [PieceValue(r[..c])], c)
              && ScanFrom(r, groups, ellipsis) == ScanFrom(r[c + 1..], groups + [PieceValue(r[..c])], ellipsis)
            case EndColons =>
              && c + 2 == |r| && r[c + 1] == COLON && HexPiece(r[..c]) && FirstPiece(r, [PieceValue(r[..c])], c)
              && ScanFrom(r, groups, ellipsis) == if ellipsis.Some? then Bad else Scanned(groups + [PieceValue(r[..c])], Some(|groups| + 1), [])
            case TwoColons =>
              && c + 2 < |r| && r[c + 1] == COLON && HexPiece(r[..c]) && FirstPiece(r, [PieceValue(r[..c])], c)
              && ScanFrom(r, groups, ellipsis) == if ellipsis.Some? then Bad else ScanFrom(r[c + 2..], groups + [PieceValue(r[..c])], Some(|groups| + 1))
  {
    XtoiTells(r);
    var (n, c, ok) := XtoiFrom(r, 0, 0);
    hide XtoiFrom, ParseIPv4, HexPiece;
    if ok && n <= 0xffff {
      var tail := r[c..];
      assert c < |r| ==> tail[0] == r[c] && tail[1..] == r[c + 1..];
      assert c + 1 < |r| ==> tail[1] == r[c + 1] && tail[2..] == r[c + 2..];
      assert r[..|r|] == r;
    }
  }

  /** What has been read is what is written. */
  lemma {:induction false} ScanTells(r: Str, groups: seq<Group>, ellipsis: Option<nat>) returns (k: nat)
    requires r != [] && |groups| < GROUPS && (ellipsis.Some? ==> ellipsis.value <= |groups|)
    requires var scan := ScanFrom(r, groups, ellipsis); scan.Scanned? && scan.rest == []
    ensures var Scanned(all, found, _) := ScanFrom(r, groups, ellipsis);
            && groups < all && |all| <= GROUPS && (ellipsis.Some? ==> found == ellipsis)
            && if found == ellipsis then Side(r, all[|groups|..], true)
               else found.Some? && |groups| <= found.value <= |all| && ElidedAt(r, all[|groups|..], k, found.value - |groups|)
    decreases GROUPS - |groups|
  {
    hide ScanFrom, XtoiFrom, Side, HexPiece, HexValue, PieceValue, ParseIPv4, FirstPiece;
    k := 0;
    ScanMoves(r, groups, ellipsis);
    var (n, c, ok) := XtoiFrom(r, 0, 0);
    var move, all := MoveOf(r), ScanFrom(r, groups, ellipsis).groups;
    match move {
      case Stuck =>
      case Dot => WrittenDotted(r, all, |groups|);
      case Last => WrittenLast(r, all, |groups|);
      case Colon =>
        var more := groups + [PieceValue(r[..c])];
        FullStops(r[c + 1..], more, ellipsis);
        k := ScanTells(r[c + 1..], more, ellipsis);
        assert all[|groups|] == more[|groups|];
        FirstOfAll(r, all, |groups|, c);
        if ScanFrom(r, groups, ellipsis).ellipsis == ellipsis {
          SideFirst(r, all[|groups|..], c, true);
        } else {
          ElidedFirst(r, all[|groups|..], c, k, ScanFrom(r, groups, ellipsis).ellipsis.value - |more|);
          k := c + 1 + k;
        }
      case EndColons =>
        k := c;
        FirstOfAll(r, all, |groups|, c);
        WrittenElided(r, all[|groups|..], c);
      case TwoColons =>
        k := c;
        var more := groups + [PieceValue(r[..c])];
        FullStops(r[c + 2..], more, Some(|more|));
        var _ := ScanTells(r[c + 2..], more, Some(|more|));
        assert all[|groups|] == more[|groups|];
        FirstOfAll(r, all, |groups|, c);
        WrittenElided(r, all[|groups|..], c);
    }
  }

  lemma FirstOfAll(r: Str, all: seq<Group>, at: nat, c: nat)
    requires at < |all| && c <= |r| && HexPiece(r[..c]) && FirstPiece(r, [PieceValue(r[..c])], c) && all[at] == PieceValue(r[..c])
    ensures FirstPiece(r, all[at..], c) && all[at..][1..] == all[at + 1..]
  {
  }

  lemma FullStops(r: Str, groups: seq<Group>, ellipsis: Option<nat>)
    ensures |groups| == GROUPS ==> ScanFrom(r, groups, ellipsis) == Scanned(groups, ellipsis, r)
  {
  }

  lemma WrittenDotted(r: Str, all: seq<Group>, at: nat)
    requires ParseIPv4(r).Some? && |all| == at + 2
    requires var ip := ParseIPv4(r).value; all[at..] == [Pair(ip[12], ip[13]), Pair(ip[14], ip[15])]
    ensures Side(r, all[at..], true)
  {
  }

  lemma WrittenLast(r: Str, all: seq<Group>, at: nat)
    requires HexPiece(r) && |all| == at + 1 && all[at] == PieceValue(r)
    ensures Side(r, all[at..], true)
  {
    assert all[at..] == [HexValue(r)];
  }

  lemma WrittenElided(r: Str, gs: seq<Group>, c: nat)
    requires c + 2 <= |r| && gs != [] && FirstPiece(r, gs, c) && r[c + 1] == COLON && EmptyOrSide(r[c + 2..], gs[1..], true)
    ensures ElidedAt(r, gs, c, 1)
  {
    assert gs[..1] == [gs[0]];
  }

  // ----- the parser accepts the grammar, and reads it as it says -----

  lemma CompletesElided(gs: seq<Group>, m: nat, n: nat)
    requires |gs| == GROUPS && m + n < GROUPS && forall i :: m <= i < GROUPS - n ==> gs[i] == 0
    ensures Complete(Scanned(gs[..m] + gs[GROUPS - n..], Some(m), [])) == Some(gs)
  {
    var read := gs[..m] + gs[GROUPS - n..];
    assert read[..m] == gs[..m] && read[m..] == gs[GROUPS - n..];
    assert gs == gs[..m] + Zeros(GROUPS - m - n) + gs[GROUPS - n..];
  }

  lemma NotColonFirst(text: Str, gs: seq<Group>, dotted: bool)
    requires Side(text, gs, dotted)
    ensures text != [] && text[0] != COLON && gs != []
  {
    SideStarts(text, gs, dotted);
    DigitIsNoColon(text[0]);
  }

  lemma ElidedParses(text: Str, gs: seq<Group>, k: nat, m: nat, n: nat)
    requires Elides(text, gs, k, m, n)
    ensures ParseGroups(text) == Some(gs)
  {
    hide Side, ScanFrom, Complete;
    var a, b := text[..k], text[k + 2..];
    var ga, gb := gs[..m], gs[GROUPS - n..];
    CompletesElided(gs, m, n);
    if b != [] {
      SideScans(b, gb, ga, Some(m));
    }
    if k == 0 {
      assert ga == [] && StartsWith(text, [COLON, COLON]);
      assert b == [] ==> gs == Zeros(GROUPS);
      assert ga + gb == gb;
    } else {
      NotColonFirst(a, ga, false);
      assert text[0] == a[0];
      assert text == a + [COLON, COLON] + b;
      ElidedScans(a, ga, b, []);
      assert [] + ga == ga;
      assert b == [] ==> ga + gb == ga;
    }
  }

  lemma NoColonsFirst(text: Str)
    requires text != [] && text[0] != COLON
    ensures !StartsWith(text, [COLON, COLON])
  {
  }

  lemma WholeParses(text: Str, gs: seq<Group>)
    requires |gs| == GROUPS && Side(text, gs, true)
    ensures ParseGroups(text) == Some(gs)
  {
    hide Side, ScanFrom;
    NotColonFirst(text, gs, true);
    SideScans(text, gs, [], None);
    assert [] + gs == gs;
    NoColonsFirst(text);
  }

  lemma ReadElided(text: Str, all: seq<Group>, k: nat, m: nat, gs: seq<Group>)
    requires |all| < GROUPS && m <= |all| && k + 2 <= |text| && text[k] == text[k + 1] == COLON
    requires EmptyOrSide(text[..k], all[..m], false) && EmptyOrSide(text[k + 2..], all[m..], true)
    requires gs == all[..m] + Zeros(GROUPS - |all|) + all[m..]
    ensures Elides(text, gs, k, m, |all| - m)
  {
    hide EmptyOrSide;
    assert gs[..m] == all[..m] && gs[GROUPS - (|all| - m)..] == all[m..];
  }

  lemma ParsedReads(text: Str, gs: seq<Group>)
    requires ParseGroups(text) == Some(gs)
    ensures Reads(text, gs)
  {
    hide Side, ScanFrom, EmptyOrSide, Elides;
    if StartsWith(text, [COLON, COLON]) {
      StartsElided(text, gs);
      var n: nat :| n <= GROUPS && Elides(text, gs, 0, 0, n);
      assert Elides(text, gs, 0, 0, n);
    } else {
      NothingScans();
      var scan := ScanFrom(text, [], None);
      var k := ScanTells(text, [], None);
      assert scan.groups[0..] == scan.groups;
      if scan.ellipsis.Some? {
        var m := scan.ellipsis.value;
        SideOrEmpty(text[..k], scan.groups[..m]);
        ReadElided(text, scan.groups, k, m, gs);
        assert Elides(text, gs, k, m, |scan.groups| - m);
      }
    }
  }

  lemma SideOrEmpty(text: Str, gs: seq<Group>)
    requires Side(text, gs, false)
    ensures EmptyOrSide(text, gs, false)
  {
    SideStarts(text, gs, false);
  }

  lemma NothingScans()
    ensures ScanFrom([], [], None) == Bad
  {
  }

  lemma StartsElided(text: Str, gs: seq<Group>)
    requires StartsWith(text, [COLON, COLON]) && ParseGroups(text) == Some(gs)
    ensures |gs| == GROUPS && exists n :: 0 <= n <= GROUPS && Elides(text, gs, 0, 0, n)
  {
    hide Side, ScanFrom;
    assert text[..2][0] == COLON && text[..2][1] == COLON;
    if |text| == 2 {
      assert gs[..0] == [] && gs[GROUPS..] == [];
      assert Elides(text, gs, 0, 0, 0);
    } else {
      var all := ScanFrom(text[2..], [], Some(0)).groups;
      var _ := ScanTells(text[2..], [], Some(0));
      assert all[0..] == all && all[..0] == [] && text[..0] == [];
      ReadElided(text, all, 0, 0, gs);
    }
  }

  /** A text is read as eight groups exactly when the grammar says so. */
  lemma ReadsExactly(text: Str, gs: seq<Group>)
    ensures ParseGroups(text) == Some(gs) <==> Reads(text, gs)
  {
    if ParseGroups(text) == Some(gs) {
      ParsedReads(text, gs);
    }
    if Reads(text, gs) {
      hide Side, ParseGroups;
      if Side(text, gs, true) {
        WholeParses(text, gs);
      } else {
        var k: nat, m: nat, n: nat :| k <= |text| && m <= GROUPS && n <= GROUPS && Elides(text, gs, k, m, n);
        ElidedParses(text, gs, k, m, n);
      }
    }
  }

  // ----- every text -----

  lemma HexHasNoMark(p: Str)
    requires HexPiece(p)
    ensures DOT !in p && COLON !in p
  {
  }

  lemma ColonMark(p: Str, rest: Str)
    requires HexPiece(p) && rest != [] && rest[0] == COLON
    ensures FirstMark(p + rest) == Some(COLON)
  {
    hide HexPiece, FirstMark;
    HexHasNoMark(p);
    MarkAfter(p, rest);
    MarkFirst(rest);
  }

  /** A side that is not dotted, followed by a colon. */
  lemma SideMark(a: Str, ga: seq<Group>, rest: Str)
    requires Side(a, ga, false) && rest != [] && rest[0] == COLON
    ensures FirstMark(a + rest) == Some(COLON)
  {
    hide Side, HexPiece, FirstMark, HexValue;
    var k := SideNext(a, ga, false);
    if k < |a| {
      assert a + rest == a[..k] + (a[k..] + rest);
      ColonMark(a[..k], a[k..] + rest);
    } else {
      ColonMark(a, rest);
    }
  }

  /** The first mark in eight groups is a colon. */
  lemma ReadsMark(text: Str, gs: seq<Group>)
    requires Reads(text, gs)
    ensures FirstMark(text) == Some(COLON)
  {
    hide Side, FirstMark, HexPiece, HexValue;
    if Side(text, gs, true) {
      var k := SideNext(text, gs, true);
      assert text == text[..k] + text[k..];
      ColonMark(text[..k], text[k..]);
    } else {
      var k: nat, m: nat, n: nat :| k <= |text| && m <= GROUPS && n <= GROUPS && Elides(text, gs, k, m, n);
      if k == 0 {
        MarkFirst(text);
      } else {
        assert text == text[..k] + text[k..];
        SideMark(text[..k], gs[..m], text[k..]);
      }
    }
  }

  /** The first mark in a dotted address is a dot. */
  lemma DottedMark(text: Str, ip: seq<Octet>, parts: seq<Str>)
    requires IsDotted(text, ip, parts)
    ensures FirstMark(text) == Some(DOT)
  {
    hide FirstMark, ParseDecimal, Ipv4;
    var rest := [DOT] + parts[1] + [DOT] + parts[2] + [DOT] + parts[3];
    assert text == parts[0] + rest;
    DigitsAreNotDots(parts[0]);
    MarkAfter(parts[0], rest);
    MarkDot(rest);
  }

  /** A text parses as an address exactly when it is dotted and means it, or is made of eight groups that
      hold its bytes; no text is both. */
  lemma ParsesExactly(text: Str, ip: seq<Octet>)
    ensures Parse(text) == Some(ip) <==>
            (exists parts :: IsDotted(text, ip, parts)) || (exists gs :: Reads(text, gs) && ip == BytesOf(gs))
    ensures (exists parts :: IsDotted(text, ip, parts)) ==> !exists gs :: Reads(text, gs)
  {
    hide FirstMark, ParseIPv4, ParseGroups, Reads, IsDotted, BytesOf;
    DottedExactly(text, ip);
    if Parse(text) == Some(ip) && FirstMark(text) != Some(DOT) {
      ReadsExactly(text, ParseGroups(text).value);
    }
    if parts :| IsDotted(text, ip, parts) {
      DottedMark(text, ip, parts);
    }
    forall gs | Reads(text, gs)
      ensures FirstMark(text) == Some(COLON) && ParseGroups(text) == Some(gs)
    {
      ReadsMark(text, gs);
      ReadsExactly(text, gs);
    }
  }
}

/** Key ranges and namespaces: which keys a request addresses. */
module KeyRange {
  import opened Text

  /** The range end that stands for "no upper bound". */
  const ZERO_KEY: Str := [0]

  predicate IsKeyInRange(key: Str, start: Str, rangeEnd: Str) {
    if rangeEnd == [] then key == start
    else if rangeEnd == ZERO_KEY then !Less(key, start)
    else !Less(key, start) && Less(key, rangeEnd)
  }

  predicate RangesOverlap(leftStart: Str, leftEnd: Str, rightStart: Str, rightEnd: Str) {
    IsKeyInRange(leftStart, rightStart, rightEnd) || IsKeyInRange(rightStart, leftStart, leftEnd)
  }

  function NamespacedKey(namespace: Str, key: Str): Str {
    namespace + key
  }

  function NamespacedRangeEnd(namespace: Str, rangeEnd: Str): Str {
    if rangeEnd == [] then []
    else if rangeEnd == ZERO_KEY then
      if namespace == [] then ZERO_KEY else PrefixRangeEnd(namespace)
    else namespace + rangeEnd
  }

  predicate IsHighSurrogate(u: Unit) {
    0xD800 <= u <= 0xDBFF
  }

  predicate IsLowSurrogate(u: Unit) {
    0xDC00 <= u <= 0xDFFF
  }

  /** How many units the code point that starts at s[0] takes. */
  function CodePointLength(s: Str): (n: nat)
    requires s != []
    ensures 1 <= n <= |s|
  {
    if |s| >= 2 && IsHighSurrogate(s[0]) && IsLowSurrogate(s[1]) then 2 else 1
  }

  /** A string cut into code points; a surrogate pair stays together. */
  function CodePoints(s: Str): (chars: seq<Str>)
    ensures forall i :: 0 <= i < |chars| ==> chars[i] != []
  {
    if s == [] then []
    else
      var n := CodePointLength(s);
      [s[..n]] + CodePoints(s[n..])
  }

  function Join(chars: seq<Str>): Str {
    if chars == [] then [] else chars[0] + Join(chars[1..])
  }

  /** The last code point that can be incremented, or -1. */
  function LastIncrementable(chars: seq<Str>): (index: int)
    requires forall i :: 0 <= i < |chars| ==> chars[i] != []
    ensures -1 <= index < |chars|
    ensures 0 <= index ==> chars[index][0] != 0xFFFF
    ensures forall i :: index < i < |chars| ==> chars[i][0] == 0xFFFF
  {
    if chars == [] then -1
    else if chars[|chars| - 1][0] != 0xFFFF then |chars| - 1
    else LastIncrementable(chars[..|chars| - 1])
  }

  /** The exclusive end of the keys that start with `prefix`. */
  function PrefixRangeEnd(prefix: Str): Str {
    var chars := CodePoints(prefix);
    var index := LastIncrementable(chars);
    if index < 0 then ZERO_KEY else Join(chars[..index]) + [chars[index][0] + 1]
  }

  /** The loop the source runs: from the last code point backwards, increment the
      first one that is not 0xFFFF. */
  method ComputePrefixRangeEnd(prefix: Str) returns (end: Str)
    ensures end == PrefixRangeEnd(prefix)
  {
    if |prefix| == 0 {
      return ZERO_KEY;
    }
    var chars := CodePoints(prefix);
    var index := |chars| - 1;
    while 0 <= index
      invariant -1 <= index < |chars|
      invariant LastIncrementable(chars) == LastIncrementable(chars[..index + 1])
    {
      assert chars[..index + 1][..index] == chars[..index];
      var code := chars[index][0];
      if code != 0xFFFF {
        end := Join(chars[..index]) + [code + 1];
        return;
      }
      index := index - 1;
    }
    end := ZERO_KEY;
  }

  /** True when the code point that PrefixRangeEnd increments is a surrogate pair. */
  predicate EndsInPair(prefix: Str) {
    var chars := CodePoints(prefix);
    var index := LastIncrementable(chars);
    0 <= index && |chars[index]| == 2
  }

  predicate AllMax(s: Str) {
    forall i :: 0 <= i < |s| ==> s[i] == 0xFFFF
  }

  lemma {:induction false} JoinCodePoints(s: Str)
    ensures Join(CodePoints(s)) == s
    ensures forall i :: 0 <= i < |CodePoints(s)| ==>
      var c := CodePoints(s)[i];
      |c| == 1 || (|c| == 2 && IsHighSurrogate(c[0]) && IsLowSurrogate(c[1]))
  {
    if s != [] {
      var n := CodePointLength(s);
      JoinCodePoints(s[n..]);
      assert CodePoints(s)[1..] == CodePoints(s[n..]);
    }
  }

  lemma {:induction false} JoinSplit(chars: seq<Str>, i: nat)
    requires i < |chars|
    ensures Join(chars) == Join(chars[..i]) + chars[i] + Join(chars[i + 1..])
  {
    if i == 0 {
      assert chars[..0] == [];
    } else {
      JoinSplit(chars[1..], i - 1);
      assert chars[1..][..i - 1] == chars[..i][1..];
      assert chars[1..][i..] == chars[i + 1..];
      Regroup(chars[0], Join(chars[1..][..i - 1]), chars[i], Join(chars[i + 1..]));
    }
  }

  lemma {:induction false} JoinAllMax(chars: seq<Str>)
    requires forall i :: 0 <= i < |chars| ==> |chars[i]| == 1 && chars[i][0] == 0xFFFF
    ensures AllMax(Join(chars))
  {
    if chars != [] {
      JoinAllMax(chars[1..]);
    }
  }

  /** The shape of a prefix with an incrementable code point: `head`, that code point
      (one unit, or a pair when EndsInPair), and units 0xFFFF to the end. */
  lemma PrefixShape(prefix: Str) returns (head: Str, unit: Unit, low: Str, tail: Str)
    requires LastIncrementable(CodePoints(prefix)) >= 0
    ensures prefix == head + [unit] + low + tail && unit < 0xFFFF && AllMax(tail)
    ensures PrefixRangeEnd(prefix) == head + [unit + 1]
    ensures |low| == (if EndsInPair(prefix) then 1 else 0)
    ensures low != [] ==> low[0] < 0xFFFF
  {
    var chars := CodePoints(prefix);
    var index := LastIncrementable(chars);
    JoinCodePoints(prefix);
    JoinSplit(chars, index);
    hide Join;
    head := Join(chars[..index]);
    unit := chars[index][0];
    low := chars[index][1..];
    tail := Join(chars[index + 1..]);
    JoinAllMax(chars[index + 1..]);
    Unpack(head, chars[index], unit, low, tail);
  }

  lemma Unpack(head: Str, unitOrPair: Str, unit: Unit, low: Str, tail: Str)
    requires unitOrPair != [] && unit == unitOrPair[0] && low == unitOrPair[1..]
    ensures head + unitOrPair + tail == head + [unit] + low + tail
  {
    assert unitOrPair == [unit] + low;
    assert head + ([unit] + low) == head + [unit] + low;
  }

  lemma DiffersAt(key: Str, p: Str, i: nat)
    requires i < |key| && i < |p| && key[i] != p[i]
    ensures !StartsWith(key, p)
  {
    assert |p| <= |key| ==> key[..|p|][i] != p[i];
  }

  lemma {:induction false} AtLeastMax(tail: Str, key: Str)
    requires AllMax(tail)
    ensures !Less(key, tail) <==> StartsWith(key, tail)
  {
    if tail != [] && key != [] {
      AtLeastMax(tail[1..], key[1..]);
      if key[0] == 0xFFFF {
        assert StartsWith(key, tail) <==> StartsWith(key[1..], tail[1..]) by {
          if StartsWith(key[1..], tail[1..]) {
            assert key[..|tail|] == [key[0]] + key[1..][..|tail| - 1];
            assert tail == [tail[0]] + tail[1..];
          }
          if StartsWith(key, tail) {
            assert key[1..][..|tail| - 1] == key[..|tail|][1..];
          }
        }
      } else {
        DiffersAt(key, tail, 0);
      }
    }
  }

  /** Between head+[unit]+rest and head+[unit+1] lie exactly the keys head+[unit]+k with k >= rest. */
  lemma {:induction false} BetweenSuccessors(head: Str, unit: Unit, rest: Str, key: Str)
    requires unit < 0xFFFF
    ensures !Less(key, head + [unit] + rest) && Less(key, head + [unit + 1])
            <==> StartsWith(key, head + [unit]) && !Less(key[|head| + 1..], rest)
  {
    if head == [] {
      assert head + [unit] + rest == [unit] + rest && ([unit] + rest)[1..] == rest;
      if key != [] {
        assert key[..1] == [key[0]];
      }
    } else {
      var low, high := head + [unit] + rest, head + [unit + 1];
      assert low[1..] == head[1..] + [unit] + rest && high[1..] == head[1..] + [unit + 1];
      if key != [] {
        BetweenSuccessors(head[1..], unit, rest, key[1..]);
        assert key[0] == head[0] ==>
          (StartsWith(key, head + [unit]) <==> StartsWith(key[1..], head[1..] + [unit])) by {
          if key[0] == head[0] {
            ConsStartsWith(key, head + [unit]);
            assert (head + [unit])[1..] == head[1..] + [unit];
          }
        }
        assert StartsWith(key, head + [unit]) ==> key[0] == (head + [unit])[0];
        assert |key| >= |head| + 1 ==> key[1..][|head|..] == key[|head| + 1..];
      }
    }
  }

  lemma ConsStartsWith(key: Str, p: Str)
    requires p != [] && key != [] && key[0] == p[0]
    ensures StartsWith(key, p) <==> StartsWith(key[1..], p[1..])
  {
    if StartsWith(key, p) {
      assert key[1..][..|p| - 1] == key[..|p|][1..];
    }
    if StartsWith(key[1..], p[1..]) {
      assert key[..|p|] == [key[0]] + key[1..][..|p| - 1];
      assert p == [p[0]] + p[1..];
    }
  }

  lemma StartsWithAppend(key: Str, a: Str, b: Str)
    ensures StartsWith(key, a + b) <==> StartsWith(key, a) && StartsWith(key[|a|..], b)
  {
    if StartsWith(key, a + b) {
      assert key[..|a|] == (a + b)[..|a|];
      assert key[|a|..][..|b|] == (a + b)[|a|..];
    }
    if StartsWith(key, a) && StartsWith(key[|a|..], b) {
      assert key[..|a + b|] == key[..|a|] + key[|a|..][..|b|];
    }
  }

  lemma {:induction false} AllMaxCodePoints(s: Str)
    requires forall i :: 0 <= i < |CodePoints(s)| ==> CodePoints(s)[i][0] == 0xFFFF
    ensures AllMax(s)
  {
    JoinCodePoints(s);
    JoinAllMax(CodePoints(s));
  }

  /** With no surrogate pair at the end, the range of a prefix is exactly the keys that start with it. */
  lemma PrefixRangeSound(prefix: Str, key: Str)
    requires !EndsInPair(prefix)
    ensures IsKeyInRange(key, prefix, PrefixRangeEnd(prefix)) <==> StartsWith(key, prefix)
  {
    if LastIncrementable(CodePoints(prefix)) < 0 {
      AllMaxCodePoints(prefix);
      AtLeastMax(prefix, key);
    } else {
      var head, unit, low, tail := PrefixShape(prefix);
      assert prefix == head + [unit] + tail;
      BetweenSuccessors(head, unit, tail, key);
      StartsWithAppend(key, head + [unit], tail);
      if StartsWith(key, head + [unit]) {
        AtLeastMax(tail, key[|head| + 1..]);
      }
      assert |PrefixRangeEnd(prefix)| == |head| + 1;
    }
  }

  lemma Regroup(a: Str, b: Str, c: Str, d: Str)
    ensures a + b + c + d == a + (b + c + d)
  {
  }

  /** With one, some key inside the range does not start with the prefix. */
  lemma PairEscapes(prefix: Str, more: Str) returns (key: Str)
    requires EndsInPair(prefix)
    ensures IsKeyInRange(key, prefix + more, PrefixRangeEnd(prefix)) && !StartsWith(key, prefix)
    ensures IsKeyInRange(key, prefix, PrefixRangeEnd(prefix)) && |key| <= |prefix|
  {
    var head, unit, low, tail := PrefixShape(prefix);
    hide IsKeyInRange, PrefixRangeEnd, StartsWith;
    key := head + [unit] + [low[0] + 1];
    BesidePair(head, unit, low, tail, more);
    BesidePair(head, unit, low, tail, []);
    assert prefix + [] == prefix;
    DiffersAt(key, prefix, |head| + 1);
  }

  lemma BesidePair(head: Str, unit: Unit, low: Str, tail: Str, more: Str)
    requires unit < 0xFFFF && |low| == 1 && low[0] < 0xFFFF
    ensures IsKeyInRange(head + [unit] + [low[0] + 1], head + [unit] + low + tail + more, head + [unit + 1])
  {
    var key := head + [unit] + [low[0] + 1];
    assert StartsWith(key, head + [unit]) && key[|head| + 1..] == [low[0] + 1];
    Regroup(head + [unit], low, tail, more);
    BetweenSuccessors(head, unit, low + tail + more, key);
  }

  /** Exactly when a prefix range addresses exactly the prefixed keys. */
  lemma PrefixRangeExact(prefix: Str)
    ensures (forall key: Str :: IsKeyInRange(key, prefix, PrefixRangeEnd(prefix)) <==> StartsWith(key, prefix))
            <==> !EndsInPair(prefix)
  {
    if EndsInPair(prefix) {
      var key := PairEscapes(prefix, []);
    } else {
      forall key: Str
        ensures IsKeyInRange(key, prefix, PrefixRangeEnd(prefix)) <==> StartsWith(key, prefix)
      {
        PrefixRangeSound(prefix, key);
      }
    }
  }

  lemma SuccessorAbove(head: Str, unit: Unit, rest: Str)
    requires unit < 0xFFFF
    ensures Less(head + [unit] + rest, head + [unit + 1])
  {
    var whole := head + [unit] + rest;
    assert whole[|head| + 1..] == rest && whole[..|head| + 1] == head + [unit];
    LessIrreflexive(rest);
    BetweenSuccessors(head, unit, rest, whole);
  }

  /** A prefixed key is below the end of its prefix, whatever the prefix. */
  lemma PrefixedBelowEnd(prefix: Str, key: Str)
    ensures PrefixRangeEnd(prefix) != ZERO_KEY ==> Less(prefix + key, PrefixRangeEnd(prefix))
  {
    if LastIncrementable(CodePoints(prefix)) >= 0 {
      var head, unit, low, tail := PrefixShape(prefix);
      Regroup(head + [unit], low, tail, key);
      SuccessorAbove(head, unit, low + tail + key);
    }
  }

  /** A request in a namespace addresses ns+k exactly when the plain request addresses k. */
  lemma NamespaceTransparent(namespace: Str, start: Str, rangeEnd: Str, key: Str)
    ensures IsKeyInRange(NamespacedKey(namespace, key), NamespacedKey(namespace, start),
                         NamespacedRangeEnd(namespace, rangeEnd))
            <==> IsKeyInRange(key, start, rangeEnd)
  {
    LessUnderPrefix(namespace, key, start);
    LessUnderPrefix(namespace, key, rangeEnd);
    PrefixedBelowEnd(namespace, key);
    if namespace + key == namespace + start {
      assert key == (namespace + key)[|namespace|..];
    }
    if rangeEnd != [] && rangeEnd != ZERO_KEY && namespace != [] {
      assert |namespace + rangeEnd| >= 2;
    }
    assert namespace == [] ==> namespace + key == key && namespace + start == start && namespace + rangeEnd == rangeEnd;
  }

  /** Exactly when a namespaced request stays inside its namespace. */
  lemma NamespaceContained(namespace: Str, start: Str, rangeEnd: Str)
    ensures (forall key: Str :: IsKeyInRange(key, NamespacedKey(namespace, start), NamespacedRangeEnd(namespace, rangeEnd))
                         ==> StartsWith(key, namespace))
            <==> rangeEnd != ZERO_KEY || !EndsInPair(namespace)
  {
    if rangeEnd == ZERO_KEY && EndsInPair(namespace) {
      var key := PairEscapes(namespace, start);
    } else {
      forall key: Str | IsKeyInRange(key, NamespacedKey(namespace, start), NamespacedRangeEnd(namespace, rangeEnd))
        ensures StartsWith(key, namespace)
      {
        if rangeEnd == [] {
          assert key[..|namespace|] == namespace;
        } else if rangeEnd == ZERO_KEY {
          if namespace != [] {
            AtLeastPrefix(namespace, start, key);
            PrefixRangeSound(namespace, key);
          }
        } else {
          BoundedByPrefix(namespace, start, rangeEnd, key);
        }
      }
    }
  }

  lemma AtLeastPrefix(prefix: Str, more: Str, key: Str)
    requires !Less(key, prefix + more)
    ensures !Less(key, prefix)
  {
    if Less(key, prefix) {
      LessUnderPrefix(prefix, [], more);
      assert prefix + [] == prefix;
      assert more == [] ==> prefix + more == prefix;
      if more != [] {
        LessTransitive(key, prefix, prefix + more);
      }
    }
  }

  lemma {:induction false} BoundedByPrefix(p: Str, a: Str, b: Str, key: Str)
    requires IsKeyInRange(key, p + a, p + b) && b != []
    requires p + b != ZERO_KEY || p == []
    ensures StartsWith(key, p)
  {
    if p != [] {
      assert key != [];
      assert (p + a)[0] == p[0] && (p + b)[0] == p[0];
      assert (p + a)[1..] == p[1..] + a && (p + b)[1..] == p[1..] + b;
      Between(p[1..], a, b, key[1..]);
      ConsStartsWith(key, p);
    }
  }

  lemma {:induction false} Between(p: Str, a: Str, b: Str, key: Str)
    requires !Less(key, p + a) && Less(key, p + b)
    ensures StartsWith(key, p)
  {
    if p != [] {
      assert (p + a)[1..] == p[1..] + a && (p + b)[1..] == p[1..] + b;
      Between(p[1..], a, b, key[1..]);
      ConsStartsWith(key, p);
    }
  }

  /** Two write ranges that the overlap test accepts have no key in common. */
  lemma DisjointRanges(leftStart: Str, leftEnd: Str, rightStart: Str, rightEnd: Str, key: Str)
    requires !RangesOverlap(leftStart, leftEnd, rightStart, rightEnd)
    ensures !(IsKeyInRange(key, leftStart, leftEnd) && IsKeyInRange(key, rightStart, rightEnd))
  {
    if IsKeyInRange(key, leftStart, leftEnd) && IsKeyInRange(key, rightStart, rightEnd) {
      LessIrreflexive(key);
      LessTotal(leftStart, key);
      LessTotal(rightStart, key);
      if leftEnd != [] && leftEnd != ZERO_KEY && Less(rightStart, key) {
        LessTransitive(rightStart, key, leftEnd);
      }
      if rightEnd != [] && rightEnd != ZERO_KEY && Less(leftStart, key) {
        LessTransitive(leftStart, key, rightEnd);
      }
      LessTotal(leftStart, rightStart);
      if Less(leftStart, rightStart) {
        LessAsymmetric(leftStart, rightStart);
      } else if Less(rightStart, leftStart) {
        LessAsymmetric(rightStart, leftStart);
      } else {
        LessIrreflexive(leftStart);
      }
    }
  }
}

/** What the answer of a range read lists, and in which order. */
module RangeAnswers {
  import opened Options
  import opened Text
  import opened KeyRange
  import opened SortedMaps
  import opened Mvcc
  import opened EtcdSpec
  import opened EtcdProofs

  /** Which of two values comes first in an answer. */
  predicate ComesBefore(a: Stored, b: Stored, target: SortTarget, order: SortOrder) {
    match target
    case ByKey => if order.Descend? then Less(b.key, a.key) else Less(a.key, b.key)
    case ByCreate => NumberBefore(a.createRevision, b.createRevision, order) || (a.createRevision == b.createRevision && Less(a.key, b.key))
    case ByMod => NumberBefore(a.modRevision, b.modRevision, order) || (a.modRevision == b.modRevision && Less(a.key, b.key))
    case ByVersion => NumberBefore(a.version, b.version, order) || (a.version == b.version && Less(a.key, b.key))
    case ByValue =>
      (if order.Descend? then Less(b.value, a.value) else Less(a.value, b.value)) || (a.value == b.value && Less(a.key, b.key))
  }

  predicate NumberBefore(a: nat, b: nat, order: SortOrder) {
    if order.Descend? then b < a else a < b
  }

  predicate InAnswerOrder(values: seq<Stored>, target: SortTarget, order: SortOrder) {
    forall i, j :: 0 <= i < j < |values| ==> ComesBefore(values[i], values[j], target, order)
  }

  lemma SortKeysMean(a: Stored, b: Stored, target: SortTarget, order: SortOrder)
    requires CompareSortKeys(MakeSortKey(a, target), MakeSortKey(b, target), order) < 0
    ensures ComesBefore(a, b, target, order)
  {
    LessTotal(MakeSortKey(a, target).primary, MakeSortKey(b, target).primary);
    LessIrreflexive(a.key);
    OneDigit(a.createRevision, b.createRevision);
    OneDigit(a.modRevision, b.modRevision);
    OneDigit(a.version, b.version);
  }

  lemma OneDigit(a: int, b: int)
    ensures Less([a], [b]) <==> a < b
    ensures Less([b], [a]) <==> b < a
    ensures [a] == [b] ==> a == b
  {
    assert [a][1..] == [] && [b][1..] == [];
    assert [a] == [b] ==> [a][0] == [b][0];
  }

  /** The stored values behind an answer that is neither truncated nor made public. */
  ghost function AllMatches(db: Db, at: nat, namespace: Str, o: RangeOptions): seq<Stored> {
    ComparatorIsTotal(o.sortOrder);
    var matches := Matches(db, at, namespace, o);
    var keys := SortSet(Comparator(o.sortOrder), matches.Keys);
    seq(|keys|, i requires 0 <= i < |keys| =>
      assert keys[i] in keys;
      matches[keys[i]])
  }

  predicate Within(n: nat, least: Option<int>, most: Option<int>) {
    (least.Some? ==> least.value <= n) && (most.Some? ==> n <= most.value)
  }

  predicate InFilters(v: Stored, o: RangeOptions) {
    Within(v.modRevision, o.minModRevision, o.maxModRevision) && Within(v.createRevision, o.minCreateRevision, o.maxCreateRevision)
  }

  /** A value that a read at a revision sees and asks for. */
  predicate Asked(db: Db, at: nat, namespace: Str, o: RangeOptions, v: Stored) {
    && IsKeyInRange(v.key, NamespacedKey(namespace, o.key), NamespacedRangeEnd(namespace, o.rangeEnd))
    && Visible(db, at, v.key) == Some(v) && InFilters(v, o)
  }

  /** They are exactly the values asked for, each once, in the order asked for. */
  lemma AllMatchesExactly(db: Db, at: nat, namespace: Str, o: RangeOptions)
    requires DbOk(db)
    ensures var values := AllMatches(db, at, namespace, o);
            InAnswerOrder(values, o.sortTarget, o.sortOrder) && forall v :: v in values <==> Asked(db, at, namespace, o, v)
  {
    hide DbOk, IsKeyInRange, PassesRangeFilters, InFilters, Visible, Matches, MakeSortKey, CompareSortKeys, ComesBefore;
    ComparatorIsTotal(o.sortOrder);
    var matches := Matches(db, at, namespace, o);
    var keys := SortSet(Comparator(o.sortOrder), matches.Keys);
    var values := AllMatches(db, at, namespace, o);
    hide Asked;
    forall i | 0 <= i < |keys|
      ensures keys[i] in matches && values[i] == matches[keys[i]]
      ensures keys[i] == MakeSortKey(values[i], o.sortTarget) && Asked(db, at, namespace, o, values[i])
    {
      assert keys[i] in keys;
      MatchIsAsked(db, at, namespace, o, keys[i]);
    }
    forall i, j | 0 <= i < j < |values|
      ensures ComesBefore(values[i], values[j], o.sortTarget, o.sortOrder)
    {
      assert CompareSortKeys(keys[i], keys[j], o.sortOrder) < 0;
      SortKeysMean(values[i], values[j], o.sortTarget, o.sortOrder);
    }
    forall v | Asked(db, at, namespace, o, v)
      ensures v in values
    {
      var sk := MakeSortKey(v, o.sortTarget);
      AskedMatches(db, at, namespace, o, v);
      var i :| 0 <= i < |keys| && keys[i] == sk;
      assert values[i] == v;
    }
  }

  lemma MatchIsAsked(db: Db, at: nat, namespace: Str, o: RangeOptions, sk: SortKey)
    requires DbOk(db) && sk in Matches(db, at, namespace, o)
    ensures var v := Matches(db, at, namespace, o)[sk];
            sk == MakeSortKey(v, o.sortTarget) && Asked(db, at, namespace, o, v)
  {
    hide DbOk, IsKeyInRange, Visible, Matches, MakeSortKey, NamespacedKey, NamespacedRangeEnd;
    MatchMembers(db, at, namespace, o, sk);
    VisibleKey(db, at, sk.key);
  }

  lemma AskedMatches(db: Db, at: nat, namespace: Str, o: RangeOptions, v: Stored)
    requires DbOk(db) && Asked(db, at, namespace, o, v)
    ensures var sk := MakeSortKey(v, o.sortTarget); sk in Matches(db, at, namespace, o) && Matches(db, at, namespace, o)[sk] == v
  {
    hide DbOk, Visible, IsKeyInRange, Matches, NamespacedKey, NamespacedRangeEnd, KeysOf;
    MatchMembers(db, at, namespace, o, MakeSortKey(v, o.sortTarget));
    VisibleHasKey(db, at, v.key);
  }

  lemma VisibleHasKey(db: Db, at: nat, key: Str)
    requires Visible(db, at, key).Some?
    ensures key in KeysOf(db.log)
  {
    KeysHaveHistory(db.log, key);
  }

  // ----- the whole answer -----

  /** The revision that a request reads at. */
  function ReadAt(db: Db, o: RangeOptions): int {
    if o.revision.Some? && o.revision.value > 0 then o.revision.value else db.revision
  }

  predicate Shows(v: Stored, kv: Stored, namespace: Str, keysOnly: bool) {
    && v == kv.(key := v.key, value := v.value)
    && kv.value == (if keysOnly then [] else v.value)
    && v.key == if StartsWith(v.key, namespace) then namespace + kv.key else kv.key
  }

  lemma PublicShows(v: Stored, namespace: Str, keysOnly: bool)
    ensures Shows(v, ToPublicKv(v, namespace, keysOnly), namespace, keysOnly)
  {
  }

  /** The first values of the full listing, as many as the limit allows. */
  predicate Lists(values: seq<Stored>, r: RangeResponse, namespace: Str, o: RangeOptions) {
    && r.count == |values|
    && (r.more <==> 0 < o.limit < |values|)
    && |r.kvs| == (if o.countOnly then 0 else if r.more then o.limit else |values|)
    && forall i :: 0 <= i < |r.kvs| && i < |values| ==> Shows(values[i], r.kvs[i], namespace, o.keysOnly)
  }

  /** Every range read: its error, or the values of its range that are visible at its revision. */
  lemma RangeAnswers(db: Db, namespace: Str, o: RangeOptions)
    requires DbOk(db)
    ensures var at, r := ReadAt(db, o), Range(db, namespace, o);
            if o.key == [] && o.rangeEnd != [0] then r == Err(EmptyKey)
            else if at > db.revision then r == Err(FutureRevision)
            else if o.revision.Some? && 0 < o.revision.value <= db.compacted then r == Err(Compacted)
            else r.Ok? && r.value.revision == at && Lists(AllMatches(db, at, namespace, o), r.value, namespace, o)
  {
    hide DbOk, Matches, PassesRangeFilters, Visible, RangeOver, Lists, AllMatches;
    var at, r := ReadAt(db, o), Range(db, namespace, o);
    if r.Ok? {
      ListsAllMatches(db, at, namespace, o);
    }
  }

  lemma ListsAllMatches(db: Db, at: nat, namespace: Str, o: RangeOptions)
    ensures var r := RangeOver(Matches(db, at, namespace, o), at, namespace, o);
            r.revision == at && Lists(AllMatches(db, at, namespace, o), r, namespace, o)
  {
    hide Matches, Shows, ToPublicKv, Comparator;
    ComparatorIsTotal(o.sortOrder);
    var values, kvs := AllMatches(db, at, namespace, o), RangeOver(Matches(db, at, namespace, o), at, namespace, o).kvs;
    forall i | 0 <= i < |kvs|
      ensures i < |values| && Shows(values[i], kvs[i], namespace, o.keysOnly)
    {
      assert kvs[i] == ToPublicKv(values[i], namespace, o.keysOnly);
      PublicShows(values[i], namespace, o.keysOnly);
    }
  }

  lemma ShownOrder(a: Stored, b: Stored, x: Stored, y: Stored, namespace: Str, keysOnly: bool, target: SortTarget, order: SortOrder)
    requires Shows(a, x, namespace, keysOnly) && Shows(b, y, namespace, keysOnly) && ComesBefore(a, b, target, order)
    requires StartsWith(a.key, namespace) && StartsWith(b.key, namespace) && !(keysOnly && target.ByValue?)
    ensures ComesBefore(x, y, target, order)
  {
    LessUnderPrefix(namespace, x.key, y.key);
    LessUnderPrefix(namespace, y.key, x.key);
  }

  /** The order of every answer, by the field asked for and then by key, as long as the request stays
      inside its namespace. */
  lemma RangeInOrder(db: Db, namespace: Str, o: RangeOptions)
    requires DbOk(db) && Range(db, namespace, o).Ok?
    requires o.rangeEnd != ZERO_KEY || !EndsInPair(namespace)
    requires !(o.keysOnly && o.sortTarget.ByValue?)
    ensures InAnswerOrder(Range(db, namespace, o).value.kvs, o.sortTarget, o.sortOrder)
  {
    var at, kvs := ReadAt(db, o), Range(db, namespace, o).value.kvs;
    RangeAnswers(db, namespace, o);
    AllMatchesExactly(db, at, namespace, o);
    NamespaceContained(namespace, o.key, o.rangeEnd);
    var values := AllMatches(db, at, namespace, o);
    hide DbOk, Range, AllMatches, Visible, PassesRangeFilters, ComesBefore, Shows, IsKeyInRange, NamespacedKey, NamespacedRangeEnd;
    forall i, j | 0 <= i < j < |kvs|
      ensures ComesBefore(kvs[i], kvs[j], o.sortTarget, o.sortOrder)
    {
      assert values[i] in values && values[j] in values;
      ShownOrder(values[i], values[j], kvs[i], kvs[j], namespace, o.keysOnly, o.sortTarget, o.sortOrder);
    }
  }

  /** A read at the current revision sees exactly the live values. */
  lemma AskedNow(db: Db, namespace: Str, o: RangeOptions, v: Stored)
    requires DbOk(db)
    ensures Asked(db, db.revision, namespace, o, v) <==>
            && Lookup(Current(db.log), v.key) == Some(v) && InFilters(v, o)
            && IsKeyInRange(v.key, NamespacedKey(namespace, o.key), NamespacedRangeEnd(namespace, o.rangeEnd))
  {
    CurrentReadExact(db, v.key);
  }

  // ----- where the order is lost -----

  /** The store after a put of one key and then another. */
  function TwoPuts(first: Str, second: Str): Db {
    var empty := Db(0, 0, 5, [], {});
    Put(Put(empty, [], PutOptions(first, Some([]), false, false)).0, [], PutOptions(second, Some([]), false, false)).0
  }

  lemma TwoPutsShow(first: Str, second: Str)
    requires first != [] && second != [] && first != second
    ensures var db := TwoPuts(first, second);
            && DbOk(db) && first in Current(db.log) && second in Current(db.log)
            && (forall key: Str :: key in Current(db.log) ==> key == first || key == second)
            && Current(db.log)[first].key == first && Current(db.log)[second].key == second
  {
    var empty := Db(0, 0, 5, [], {});
    var a, b := PutOptions(first, Some([]), false, false), PutOptions(second, Some([]), false, false);
    PutKeepsOk(empty, [], a);
    var one := Put(empty, [], a).0;
    PutKeepsOk(one, [], b);
    assert NamespacedKey([], first) == first && NamespacedKey([], second) == second;
    assert Current([]) == map[];
    Extend([], PutEntry(None, first, a, 1), first, 0);
    Extend(one.log, PutEntry(Lookup(Current(one.log), second), second, b, 2), first, 0);
    hide DbOk;
  }

  /** In every namespace that ends in a surrogate pair there are two objects that an open-ended listing
      by key gives in the wrong order: one of them is not in the namespace, and keeps its whole key. */
  lemma ListingOutOfOrder(namespace: Str) returns (db: Db, o: RangeOptions)
    requires EndsInPair(namespace)
    ensures DbOk(db) && o.sortTarget.ByKey? && Range(db, namespace, o).Ok?
    ensures !InAnswerOrder(Range(db, namespace, o).value.kvs, o.sortTarget, o.sortOrder)
  {
    hide DbOk, Range, AllMatches, TwoPuts, Less, Lists, Current, PrefixRangeEnd, StartsWith, InAnswerOrder;
    assert namespace != [] by {
      assert CodePoints([]) == [];
    }
    var high: Str := seq(|namespace| + 1, _ => 0xFFFF);
    var stray := PairEscapes(namespace, high);
    var inside := namespace + high;
    StrayComesLater(namespace, high, stray);
    o := RangeOptions([], ZERO_KEY, 0, None, ByKey, Unordered, false, false, None, None, None, None);
    db := TwoPuts(inside, stray);
    TwoPutsShow(inside, stray);
    InsideRange(namespace, high);
    RangeAnswers(db, namespace, o);
    ListsBoth(db, namespace, o, inside, stray);
    ShownOutOfOrder(AllMatches(db, db.revision, namespace, o), Range(db, namespace, o).value, namespace, o, high, stray);
  }

  lemma ShownOutOfOrder(values: seq<Stored>, r: RangeResponse, namespace: Str, o: RangeOptions, high: Str, stray: Str)
    requires |values| == 2 && values[0].key == namespace + high && values[1].key == stray && Lists(values, r, namespace, o)
    requires o == RangeOptions([], ZERO_KEY, 0, None, ByKey, Unordered, false, false, None, None, None, None)
    requires !StartsWith(stray, namespace) && Less(stray, high)
    ensures !InAnswerOrder(r.kvs, ByKey, Unordered)
  {
    LessAsymmetric(stray, high);
    hide Less;
    assert Shows(values[0], r.kvs[0], namespace, false) && Shows(values[1], r.kvs[1], namespace, false);
    assert (namespace + high)[..|namespace|] == namespace;
    assert r.kvs[0].key == (namespace + r.kvs[0].key)[|namespace|..] == (namespace + high)[|namespace|..] == high;
    assert !ComesBefore(r.kvs[0], r.kvs[1], ByKey, Unordered);
  }

  lemma StrayComesLater(namespace: Str, high: Str, stray: Str)
    requires |high| == |namespace| + 1 && AllMax(high) && |stray| <= |namespace| && namespace != []
    requires !Less(stray, namespace + high) && !StartsWith(stray, namespace)
    ensures Less(namespace + high, stray) && Less(stray, high) && stray != []
  {
    LessTotal(stray, namespace + high);
    AtLeastMax(high, stray);
    assert (namespace + high)[..|namespace|] == namespace;
    assert Less([], namespace + high);
  }

  lemma InsideRange(namespace: Str, high: Str)
    ensures IsKeyInRange(namespace + high, namespace, PrefixRangeEnd(namespace))
  {
    LessUnderPrefix(namespace, high, []);
    assert namespace + [] == namespace;
    PrefixedBelowEnd(namespace, high);
  }

  lemma ListsBoth(db: Db, namespace: Str, o: RangeOptions, first: Str, second: Str)
    requires DbOk(db) && first in Current(db.log) && second in Current(db.log) && Less(first, second)
    requires forall key: Str :: key in Current(db.log) ==> key == first || key == second
    requires Current(db.log)[first].key == first && Current(db.log)[second].key == second
    requires o == RangeOptions([], ZERO_KEY, 0, None, ByKey, Unordered, false, false, None, None, None, None)
    requires namespace != [] && IsKeyInRange(first, namespace, PrefixRangeEnd(namespace)) && IsKeyInRange(second, namespace, PrefixRangeEnd(namespace))
    ensures AllMatches(db, db.revision, namespace, o) == [Current(db.log)[first], Current(db.log)[second]]
  {
    hide DbOk, AllMatches, Asked, Current, IsKeyInRange, PrefixRangeEnd, InFilters, Less, InAnswerOrder, NamespacedKey, NamespacedRangeEnd;
    var a, b := Current(db.log)[first], Current(db.log)[second];
    var values := AllMatches(db, db.revision, namespace, o);
    AllMatchesExactly(db, db.revision, namespace, o);
    AskedThere(db, namespace, o, a);
    AskedThere(db, namespace, o, b);
    forall i | 0 <= i < |values|
      ensures values[i] == a || values[i] == b
    {
      assert values[i] in values;
      AskedThere(db, namespace, o, values[i]);
    }
    LessAsymmetric(first, second);
    LessIrreflexive(first);
    LessIrreflexive(second);
    TwoInOrder(values, a, b);
  }

  /** What an open-ended listing of a namespace asks for. */
  lemma AskedThere(db: Db, namespace: Str, o: RangeOptions, v: Stored)
    requires DbOk(db) && namespace != []
    requires o == RangeOptions([], ZERO_KEY, 0, None, ByKey, Unordered, false, false, None, None, None, None)
    ensures Asked(db, db.revision, namespace, o, v) <==>
            v.key in Current(db.log) && Current(db.log)[v.key] == v && IsKeyInRange(v.key, namespace, PrefixRangeEnd(namespace))
  {
    hide DbOk, Asked, Current, IsKeyInRange, PrefixRangeEnd;
    AskedNow(db, namespace, o, v);
    assert namespace + [] == namespace;
  }

  lemma TwoInOrder(values: seq<Stored>, a: Stored, b: Stored)
    requires InAnswerOrder(values, ByKey, Unordered) && a in values && b in values
    requires forall i :: 0 <= i < |values| ==> values[i] == a || values[i] == b
    requires Less(a.key, b.key) && !Less(b.key, a.key) && !Less(a.key, a.key) && !Less(b.key, b.key)
    ensures values == [a, b]
  {
    hide Less;
    assert a != b;
    forall i, j | 0 <= i < j < |values|
      ensures (values[i], values[j]) == (a, b)
    {
      assert ComesBefore(values[i], values[j], ByKey, Unordered);
    }
    if |values| > 2 {
      ThreeCoincide(values, a, b);
    }
  }

  lemma ThreeCoincide(values: seq<Stored>, a: Stored, b: Stored)
    requires |values| > 2 && forall i, j :: 0 <= i < j < |values| ==> (values[i], values[j]) == (a, b)
    ensures a == b
  {
    assert (values[0], values[1]) == (a, b) == (values[1], values[2]);
  }
}

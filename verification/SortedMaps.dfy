/** A map kept as an array of entries sorted by a comparator, with binary search. */
module SortedMaps {
  import opened Options

  ghost predicate TotalOrder<K(!new)>(compare: (K, K) -> int) {
    && (forall a, b :: compare(a, b) == 0 <==> a == b)
    && (forall a, b :: compare(a, b) < 0 <==> compare(b, a) > 0)
    && (forall a, b, c :: compare(a, b) < 0 && compare(b, c) < 0 ==> compare(a, c) < 0)
  }

  ghost predicate Sorted<K(!new), V>(compare: (K, K) -> int, items: seq<(K, V)>) {
    forall i, j :: 0 <= i < j < |items| ==> compare(items[i].0, items[j].0) < 0
  }

  /** The finite map that an entry list stands for. */
  ghost function ToMap<K, V>(items: seq<(K, V)>): map<K, V> {
    if items == [] then map[]
    else ToMap(items[..|items| - 1])[items[|items| - 1].0 := items[|items| - 1].1]
  }

  lemma {:induction false} ToMapAppend<K, V>(a: seq<(K, V)>, b: seq<(K, V)>)
    ensures ToMap(a + b) == ToMap(a) + ToMap(b)
  {
    if b == [] {
      assert a + b == a;
    } else {
      assert (a + b)[..|a + b| - 1] == a + b[..|b| - 1];
      ToMapAppend(a, b[..|b| - 1]);
    }
  }

  lemma {:induction false} ToMapKeys<K, V>(items: seq<(K, V)>, key: K)
    ensures key in ToMap(items) <==> exists i :: 0 <= i < |items| && items[i].0 == key
  {
    if items != [] {
      var n := |items| - 1;
      ToMapKeys(items[..n], key);
      if i :| 0 <= i < |items| && items[i].0 == key {
        assert i < n ==> items[..n][i].0 == key;
      }
    }
  }

  /** Where `key` is, or would be inserted. */
  ghost predicate IsLowerBound<K(!new), V>(compare: (K, K) -> int, items: seq<(K, V)>, key: K, index: nat) {
    && index <= |items|
    && (forall i :: 0 <= i < index ==> compare(items[i].0, key) < 0)
    && (forall i :: index <= i < |items| ==> compare(items[i].0, key) >= 0)
  }

  ghost predicate FoundAt<K(!new), V>(compare: (K, K) -> int, items: seq<(K, V)>, key: K, index: nat) {
    index < |items| && compare(items[index].0, key) == 0
  }

  lemma BelowUpTo<K(!new), V>(compare: (K, K) -> int, items: seq<(K, V)>, key: K, mid: nat)
    requires TotalOrder(compare) && Sorted(compare, items) && mid < |items| && compare(items[mid].0, key) < 0
    ensures forall i :: 0 <= i <= mid ==> compare(items[i].0, key) < 0
  {
    forall i | 0 <= i <= mid
      ensures compare(items[i].0, key) < 0
    {
      assert i < mid ==> compare(items[i].0, items[mid].0) < 0;
    }
  }

  lemma AboveFrom<K(!new), V>(compare: (K, K) -> int, items: seq<(K, V)>, key: K, mid: nat)
    requires TotalOrder(compare) && Sorted(compare, items) && mid < |items| && compare(items[mid].0, key) >= 0
    ensures forall i :: mid <= i < |items| ==> compare(items[i].0, key) >= 0
  {
    forall i | mid <= i < |items|
      ensures compare(items[i].0, key) >= 0
    {
      if mid < i {
        assert compare(items[mid].0, items[i].0) < 0;
        if compare(items[mid].0, key) > 0 {
          assert compare(key, items[mid].0) < 0;
          assert compare(key, items[i].0) < 0;
        }
      }
    }
  }

  /** Everything before the lower bound is below the key, everything after it above. */
  lemma SplitAt<K(!new), V>(compare: (K, K) -> int, items: seq<(K, V)>, key: K, index: nat)
    requires TotalOrder(compare) && Sorted(compare, items) && IsLowerBound(compare, items, key, index)
    ensures key !in ToMap(items[..index])
    ensures FoundAt(compare, items, key, index) ==> items[index].0 == key && key !in ToMap(items[index + 1..])
    ensures !FoundAt(compare, items, key, index) ==>
              key !in ToMap(items[index..]) && forall i :: index <= i < |items| ==> compare(key, items[i].0) < 0
  {
    ToMapKeys(items[..index], key);
    ToMapKeys(items[index..], key);
    if FoundAt(compare, items, key, index) {
      ToMapKeys(items[index + 1..], key);
      forall i | index < i < |items|
        ensures items[i].0 != key
      {
        assert compare(items[index].0, items[i].0) < 0;
      }
    } else if index < |items| {
      assert compare(items[index].0, key) > 0;
      forall i | index <= i < |items|
        ensures compare(key, items[i].0) < 0
      {
        assert index < i ==> compare(items[index].0, items[i].0) < 0;
      }
    }
  }

  lemma SplitMap<K, V>(items: seq<(K, V)>, index: nat)
    requires index < |items|
    ensures ToMap(items) == ToMap(items[..index])[items[index].0 := items[index].1] + ToMap(items[index + 1..])
  {
    var upto := items[..index + 1];
    assert upto[..index] == items[..index];
    assert items == upto + items[index + 1..];
    ToMapAppend(upto, items[index + 1..]);
  }

  lemma LowerBoundFinds<K(!new), V>(compare: (K, K) -> int, items: seq<(K, V)>, key: K, index: nat)
    requires TotalOrder(compare) && Sorted(compare, items) && IsLowerBound(compare, items, key, index)
    ensures key in ToMap(items) <==> FoundAt(compare, items, key, index)
    ensures key in ToMap(items) ==> items[index] == (key, ToMap(items)[key])
  {
    SplitAt(compare, items, key, index);
    FoundInMap(items, key, index, FoundAt(compare, items, key, index));
  }

  lemma FoundInMap<K, V>(items: seq<(K, V)>, key: K, index: nat, found: bool)
    requires index <= |items| && key !in ToMap(items[..index])
    requires if found then index < |items| && items[index].0 == key && key !in ToMap(items[index + 1..])
             else key !in ToMap(items[index..])
    ensures key in ToMap(items) <==> found
    ensures found ==> items[index] == (key, ToMap(items)[key])
  {
    if found {
      SplitMap(items, index);
    } else {
      assert items == items[..index] + items[index..];
      ToMapAppend(items[..index], items[index..]);
    }
  }

  lemma InsertSorted<K(!new), V>(compare: (K, K) -> int, items: seq<(K, V)>, index: nat, key: K, value: V)
    requires Sorted(compare, items) && index <= |items|
    requires forall i :: 0 <= i < index ==> compare(items[i].0, key) < 0
    requires forall i :: index <= i < |items| ==> compare(key, items[i].0) < 0
    ensures Sorted(compare, items[..index] + [(key, value)] + items[index..])
  {
  }

  lemma ReplaceEntry<K, V>(items: seq<(K, V)>, index: nat, key: K, value: V)
    requires index < |items| && items[index].0 == key && key !in ToMap(items[index + 1..])
    ensures ToMap(items[index := (key, value)]) == ToMap(items)[key := value]
  {
    var items' := items[index := (key, value)];
    assert items'[..index] == items[..index] && items'[index + 1..] == items[index + 1..];
    SplitMap(items, index);
    SplitMap(items', index);
  }

  lemma InsertEntry<K, V>(items: seq<(K, V)>, index: nat, key: K, value: V)
    requires index <= |items| && key !in ToMap(items[index..])
    ensures ToMap(items[..index] + [(key, value)] + items[index..]) == ToMap(items)[key := value]
  {
    var items' := items[..index] + [(key, value)] + items[index..];
    assert items'[..index] == items[..index] && items'[index + 1..] == items[index..];
    SplitMap(items', index);
    assert items == items[..index] + items[index..];
    ToMapAppend(items[..index], items[index..]);
    hide ToMap;
    SetMiddle(ToMap(items[..index]), ToMap(items[index..]), key, value);
  }

  lemma SetMiddle<K, V>(a: map<K, V>, b: map<K, V>, key: K, value: V)
    requires key !in b
    ensures a[key := value] + b == (a + b)[key := value]
  {
  }

  lemma RemoveEntry<K, V>(items: seq<(K, V)>, index: nat, key: K)
    requires index < |items| && items[index].0 == key
    requires key !in ToMap(items[..index]) && key !in ToMap(items[index + 1..])
    ensures ToMap(items[..index] + items[index + 1..]) == ToMap(items) - {key}
  {
    SplitMap(items, index);
    ToMapAppend(items[..index], items[index + 1..]);
    DropMiddle(ToMap(items[..index]), ToMap(items[index + 1..]), key, items[index].1);
  }

  lemma DropMiddle<K, V>(a: map<K, V>, b: map<K, V>, key: K, value: V)
    requires key !in a && key !in b
    ensures a[key := value] + b - {key} == a + b
  {
  }

  lemma RemoveSorted<K(!new), V>(compare: (K, K) -> int, items: seq<(K, V)>, index: nat)
    requires Sorted(compare, items) && index < |items|
    ensures Sorted(compare, items[..index] + items[index + 1..])
  {
  }

  lemma OnlyAt<K, V>(items: seq<(K, V)>, index: nat, key: K)
    requires index < |items| && key !in ToMap(items[..index]) && key !in ToMap(items[index + 1..])
    ensures forall at :: 0 <= at < |items| && items[at].0 == key ==> at == index
  {
    ToMapKeys(items[..index], key);
    ToMapKeys(items[index + 1..], key);
    forall at | 0 <= at < |items| && at != index
      ensures items[at].0 != key
    {
      if at < index {
        assert items[..index][at] == items[at];
      } else {
        assert items[index + 1..][at - index - 1] == items[at];
      }
    }
  }

  /** What Delete does to a sorted list, found or not. */
  lemma DeleteFacts<K(!new), V>(compare: (K, K) -> int, items: seq<(K, V)>, key: K, index: nat)
    requires TotalOrder(compare) && Sorted(compare, items) && IsLowerBound(compare, items, key, index)
    ensures FoundAt(compare, items, key, index) ==>
              && Sorted(compare, items[..index] + items[index + 1..])
              && ToMap(items[..index] + items[index + 1..]) == ToMap(items) - {key}
              && (forall at :: 0 <= at < |items| && items[at].0 == key ==> at == index)
    ensures !FoundAt(compare, items, key, index) ==>
              key !in ToMap(items) && forall at :: 0 <= at < |items| ==> items[at].0 != key
  {
    SplitAt(compare, items, key, index);
    if FoundAt(compare, items, key, index) {
      RemoveEntry(items, index, key);
      RemoveSorted(compare, items, index);
      OnlyAt(items, index, key);
    } else {
      FoundInMap(items, key, index, false);
      ToMapKeys(items, key);
    }
  }

  // ----- the one sorted listing of a finite set -----

  ghost predicate IsListing<K(!new)>(compare: (K, K) -> int, s: set<K>, keys: seq<K>) {
    && (forall k :: k in keys <==> k in s)
    && (forall i, j :: 0 <= i < j < |keys| ==> compare(keys[i], keys[j]) < 0)
  }

  lemma {:induction false} LeastExists<K(!new)>(compare: (K, K) -> int, s: set<K>) returns (least: K)
    requires TotalOrder(compare) && s != {}
    ensures least in s && forall k :: k in s && k != least ==> compare(least, k) < 0
  {
    var x :| x in s;
    if s == {x} {
      return x;
    }
    var y := LeastExists(compare, s - {x});
    assert compare(x, y) != 0;
    if compare(x, y) < 0 {
      forall k | k in s && k != x
        ensures compare(x, k) < 0
      {
        assert k != y ==> compare(y, k) < 0;
      }
      return x;
    }
    assert compare(y, x) < 0;
    return y;
  }

  ghost function SortSet<K(!new)>(compare: (K, K) -> int, s: set<K>): (keys: seq<K>)
    requires TotalOrder(compare)
    ensures IsListing(compare, s, keys)
  {
    if s == {} then []
    else
      assert exists least :: least in s && forall k :: k in s && k != least ==> compare(least, k) < 0 by {
        var least := LeastExists(compare, s);
      }
      var least :| least in s && forall k :: k in s && k != least ==> compare(least, k) < 0;
      var rest := SortSet(compare, s - {least});
      ConsListing(compare, s, least, rest);
      [least] + rest
  }

  lemma ConsListing<K(!new)>(compare: (K, K) -> int, s: set<K>, least: K, rest: seq<K>)
    requires least in s && (forall k :: k in s && k != least ==> compare(least, k) < 0)
    requires IsListing(compare, s - {least}, rest)
    ensures IsListing(compare, s, [least] + rest)
  {
    forall i | 0 <= i < |rest|
      ensures compare(least, rest[i]) < 0
    {
      assert rest[i] in s - {least};
    }
  }

  lemma {:induction false} ListingUnique<K(!new)>(compare: (K, K) -> int, s: set<K>, a: seq<K>, b: seq<K>)
    requires TotalOrder(compare) && IsListing(compare, s, a) && IsListing(compare, s, b)
    ensures a == b
  {
    EmptyListing(compare, s, a);
    EmptyListing(compare, s, b);
    if s != {} {
      SameHead(compare, s, a, b);
      var head := a[0];
      ListingTail(compare, s, a);
      ListingTail(compare, s, b);
      ListingUnique(compare, s - {head}, a[1..], b[1..]);
      SameParts(a, b);
    }
  }

  lemma SameParts<K>(a: seq<K>, b: seq<K>)
    requires a != [] && b != [] && a[0] == b[0] && a[1..] == b[1..]
    ensures a == b
  {
    assert a == [a[0]] + a[1..] && b == [b[0]] + b[1..];
  }

  lemma SameHead<K(!new)>(compare: (K, K) -> int, s: set<K>, a: seq<K>, b: seq<K>)
    requires TotalOrder(compare) && IsListing(compare, s, a) && IsListing(compare, s, b)
    requires a != [] && b != []
    ensures a[0] == b[0]
  {
    assert a[0] in s && b[0] in s;
    FirstIsLeast(compare, s, a, b[0]);
    FirstIsLeast(compare, s, b, a[0]);
  }

  lemma EmptyListing<K(!new)>(compare: (K, K) -> int, s: set<K>, a: seq<K>)
    requires IsListing(compare, s, a)
    ensures a == [] <==> s == {}
  {
    if a != [] {
      assert a[0] in s;
    }
    if s != {} {
      var k :| k in s;
      assert k in a;
    }
  }

  lemma FirstIsLeast<K(!new)>(compare: (K, K) -> int, s: set<K>, a: seq<K>, k: K)
    requires TotalOrder(compare) && IsListing(compare, s, a) && k in s && a != []
    ensures compare(a[0], k) < 0 || a[0] == k
    ensures !(compare(k, a[0]) < 0)
  {
    assert k in a;
    var i :| 0 <= i < |a| && a[i] == k;
    assert 0 < i ==> compare(a[0], a[i]) < 0;
  }

  lemma ListingTail<K(!new)>(compare: (K, K) -> int, s: set<K>, a: seq<K>)
    requires TotalOrder(compare) && IsListing(compare, s, a) && a != []
    ensures IsListing(compare, s - {a[0]}, a[1..])
  {
    forall k
      ensures k in a[1..] <==> k in s - {a[0]}
    {
      if k in a[1..] {
        var i :| 0 <= i < |a[1..]| && a[1..][i] == k;
        assert a[i + 1] == k;
        assert compare(a[0], k) < 0;
      }
      if k in s - {a[0]} {
        assert k in a;
        var i :| 0 <= i < |a| && a[i] == k;
        assert a[1..][i - 1] == k;
      }
    }
  }

  function Keys<K, V>(items: seq<(K, V)>): seq<K> {
    seq(|items|, i requires 0 <= i < |items| => items[i].0)
  }

  /** A sorted entry list is determined by the map it stands for. */
  lemma ItemsDetermined<K(!new), V>(compare: (K, K) -> int, items: seq<(K, V)>)
    requires TotalOrder(compare) && Sorted(compare, items)
    ensures Keys(items) == SortSet(compare, ToMap(items).Keys)
    ensures forall i :: 0 <= i < |items| ==> items[i].0 in ToMap(items) && items[i].1 == ToMap(items)[items[i].0]
  {
    forall k
      ensures k in Keys(items) <==> k in ToMap(items).Keys
    {
      ToMapKeys(items, k);
      if i :| 0 <= i < |items| && items[i].0 == k {
        assert Keys(items)[i] == k;
      }
    }
    ListingUnique(compare, ToMap(items).Keys, Keys(items), SortSet(compare, ToMap(items).Keys));
    EntriesAgree(compare, items);
  }

  lemma {:induction false} EntriesAgree<K(!new), V>(compare: (K, K) -> int, items: seq<(K, V)>)
    requires TotalOrder(compare) && Sorted(compare, items)
    ensures forall i :: 0 <= i < |items| ==> items[i].0 in ToMap(items) && items[i].1 == ToMap(items)[items[i].0]
  {
    if items != [] {
      var n := |items| - 1;
      EntriesAgree(compare, items[..n]);
      forall i | 0 <= i < n
        ensures items[i].0 in ToMap(items) && items[i].1 == ToMap(items)[items[i].0]
      {
        assert items[..n][i] == items[i];
        assert compare(items[i].0, items[n].0) < 0;
      }
    }
  }

  /** A map whose entries live in one sorted array. */
  class SortedMap<K(!new), V> {
    const compareKeys: (K, K) -> int
    var items: seq<(K, V)>

    ghost predicate Valid()
      reads this
    {
      TotalOrder(compareKeys) && Sorted(compareKeys, items)
    }

    ghost function Contents(): map<K, V>
      reads this
    {
      ToMap(items)
    }

    constructor (compareKeys: (K, K) -> int)
      requires TotalOrder(compareKeys)
      ensures Valid() && this.compareKeys == compareKeys && items == [] && Contents() == map[]
    {
      this.compareKeys := compareKeys;
      items := [];
    }

    method LowerBound(key: K) returns (index: nat)
      requires Valid()
      ensures IsLowerBound(compareKeys, items, key, index)
      ensures key in Contents() <==> FoundAt(compareKeys, items, key, index)
      ensures key in Contents() ==> items[index] == (key, Contents()[key])
    {
      var low, high := 0, |items|;
      while low < high
        invariant 0 <= low <= high <= |items|
        invariant forall i :: 0 <= i < low ==> compareKeys(items[i].0, key) < 0
        invariant forall i :: high <= i < |items| ==> compareKeys(items[i].0, key) >= 0
      {
        var mid := (low + high) / 2;
        if compareKeys(items[mid].0, key) < 0 {
          BelowUpTo(compareKeys, items, key, mid);
          low := mid + 1;
        } else {
          AboveFrom(compareKeys, items, key, mid);
          high := mid;
        }
      }
      index := low;
      LowerBoundFinds(compareKeys, items, key, index);
    }

    method Get(key: K) returns (value: Option<V>)
      requires Valid()
      ensures value == if key in Contents() then Some(Contents()[key]) else None
    {
      var index := LowerBound(key);
      if index < |items| && compareKeys(items[index].0, key) == 0 {
        return Some(items[index].1);
      }
      return None;
    }

    method Set(key: K, value: V)
      requires Valid()
      modifies this
      ensures Valid()
      ensures Contents() == old(Contents())[key := value]
    {
      var index := LowerBound(key);
      SplitAt(compareKeys, items, key, index);
      if index < |items| && compareKeys(items[index].0, key) == 0 {
        ReplaceEntry(items, index, key, value);
        items := items[index := (key, value)];
      } else {
        InsertEntry(items, index, key, value);
        InsertSorted(compareKeys, items, index, key, value);
        items := items[..index] + [(key, value)] + items[index..];
      }
    }

    /** Removing a key moves every later entry one place forward. */
    method Delete(key: K)
      requires Valid()
      modifies this
      ensures Valid()
      ensures Contents() == old(Contents()) - {key}
      ensures key !in old(Contents()) ==> items == old(items)
      ensures forall at: nat :: at < |old(items)| && old(items)[at].0 == key ==>
                                  items == old(items)[..at] + old(items)[at + 1..]
    {
      var index := LowerBound(key);
      DeleteFacts(compareKeys, items, key, index);
      if index < |items| && compareKeys(items[index].0, key) == 0 {
        items := items[..index] + items[index + 1..];
      }
    }
  }
}

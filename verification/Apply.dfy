/** Declarative apply: the three-way patch between what was applied before, what is wanted now and
    the live object, with the meaning that RFC 7386, section 2, gives to a merge patch. */
module Apply {
  import opened Options
  import opened Text

  /** A value; `Undefined` is a field set to nothing, which JSON cannot express. */
  datatype Json = Undefined | Null | Scalar(text: Str) | Items(items: seq<Json>) | Object(fields: map<Str, Json>)

  /** No field is undefined: the value could have come from JSON. */
  ghost predicate IsJson(j: Json)
    decreases j
  {
    match j
    case Undefined => false
    case Items(items) => forall i :: 0 <= i < |items| ==> IsJson(items[i])
    case Object(fields) => forall k :: k in fields ==> IsJson(fields[k])
    case _ => true
  }

  /** No field is null; a null inside an array is a value like any other. */
  ghost predicate NullFree(j: Json)
    decreases j
  {
    match j
    case Null => false
    case Object(fields) => forall k :: k in fields ==> NullFree(fields[k])
    case _ => true
  }

  function FieldsOf(j: Json): map<Str, Json> {
    if j.Object? then j.fields else map[]
  }

  function Field(j: Json, key: Str): Json {
    if key in FieldsOf(j) then FieldsOf(j)[key] else Undefined
  }

  // ----- merge patches -----

  /** What a field becomes, if it stays. */
  predicate Removes(patch: map<Str, Json>, key: Str) {
    key in patch && patch[key].Null?
  }

  /** A patch applied to a target: null removes a field, an object patches field by field, and
      anything else replaces the target. */
  function MergePatch(target: Json, patch: Json): Json
    decreases patch
  {
    if !patch.Object? then patch
    else
      var base := FieldsOf(target);
      Object(map k | k in base.Keys + patch.fields.Keys && !Removes(patch.fields, k) ::
        if k in patch.fields then MergePatch(Field(target, k), patch.fields[k]) else base[k])
  }

  // ----- equality -----

  /** The fields and array places that a comparison leaves out, as paths. */
  datatype Comparison = Comparison(ignored: set<Str>, ignoreUndefined: bool)

  const DOT: Unit := 46

  function ChildPath(parent: Str, key: Str): Str {
    if parent == [] then key else parent + [DOT] + key
  }

  /** The path of the place that keys lead to, one after the other. */
  function PathTo(keys: seq<Str>): Str {
    if keys == [] then [] else ChildPath(PathTo(keys[..|keys| - 1]), keys[|keys| - 1])
  }

  function Dotted(keys: seq<Str>): Str {
    if keys == [] then [] else if |keys| == 1 then keys[0] else keys[0] + [DOT] + Dotted(keys[1..])
  }

  /** A path is the keys with dots between them. */
  lemma {:induction false} PathsAreDotted(keys: seq<Str>)
    requires keys != [] && keys[0] != []
    ensures PathTo(keys) == Dotted(keys) && PathTo(keys) != []
  {
    if |keys| == 1 {
      assert PathTo(keys[..0]) == [];
    } else {
      PathsAreDotted(keys[..|keys| - 1]);
      DottedLast(keys);
    }
  }

  lemma {:induction false} DottedLast(keys: seq<Str>)
    requires |keys| > 1
    ensures Dotted(keys) == Dotted(keys[..|keys| - 1]) + [DOT] + keys[|keys| - 1]
  {
    if |keys| > 2 {
      DottedLast(keys[1..]);
      assert keys[1..][..|keys| - 2] == keys[..|keys| - 1][1..];
    }
  }

  function Digits(n: nat): Str {
    if n < 10 then [48 + n] else Digits(n / 10) + [48 + n % 10]
  }

  function ComparableKeys(fields: map<Str, Json>, c: Comparison, path: Str): set<Str> {
    set k | k in fields && ChildPath(path, k) !in c.ignored && (!c.ignoreUndefined || !fields[k].Undefined?)
  }

  /** The recursive comparison: every comparable key of the left is in the right with an equal
      value, and there are as many of them on both sides. */
  predicate DeepEqualAt(left: Json, right: Json, c: Comparison, path: Str)
    decreases left
  {
    if path in c.ignored then true
    else if left == right then true
    else if left.Items? || right.Items? then
      && left.Items? && right.Items? && |left.items| == |right.items|
      && forall i :: 0 <= i < |left.items| ==> DeepEqualAt(left.items[i], right.items[i], c, ChildPath(path, Digits(i)))
    else if left.Object? || right.Object? then
      && left.Object? && right.Object?
      && |ComparableKeys(left.fields, c, path)| == |ComparableKeys(right.fields, c, path)|
      && forall k :: k in left.fields && k in ComparableKeys(left.fields, c, path) ==>
                       k in right.fields && DeepEqualAt(left.fields[k], right.fields[k], c, ChildPath(path, k))
    else false
  }

  /** A value without what the comparison leaves out. */
  function Normalized(j: Json, c: Comparison, path: Str): Json
    decreases j
  {
    if path in c.ignored then Undefined
    else match j
      case Items(items) => Items(seq(|items|, i requires 0 <= i < |items| => Normalized(items[i], c, ChildPath(path, Digits(i)))))
      case Object(fields) =>
        Object(map k | k in fields && ChildPath(path, k) !in c.ignored && (!c.ignoreUndefined || !fields[k].Undefined?)
               :: Normalized(fields[k], c, ChildPath(path, k)))
      case _ => j
  }

  lemma SubsetSameSize<T>(a: set<T>, b: set<T>)
    requires a <= b && |a| == |b|
    ensures a == b
  {
    var rest := b - a;
    assert b == a + rest && |rest| == 0;
  }

  /** Deep equality is equality of the normalized values. */
  lemma {:induction false} DeepEqualMeaning(left: Json, right: Json, c: Comparison, path: Str)
    ensures DeepEqualAt(left, right, c, path) <==> Normalized(left, c, path) == Normalized(right, c, path)
    decreases left, 1
  {
    if path !in c.ignored && left != right {
      if left.Items? && right.Items? {
        if |left.items| == |right.items| {
          ItemsEqual(left.items, right.items, c, path);
        } else {
          assert |Normalized(left, c, path).items| != |Normalized(right, c, path).items|;
        }
      } else if left.Object? && right.Object? {
        ObjectsEqual(left.fields, right.fields, c, path);
      }
    }
  }

  lemma {:induction false} ItemsEqual(left: seq<Json>, right: seq<Json>, c: Comparison, path: Str)
    requires |left| == |right| && path !in c.ignored
    ensures (forall i :: 0 <= i < |left| ==> DeepEqualAt(left[i], right[i], c, ChildPath(path, Digits(i)))) <==>
            Normalized(Items(left), c, path) == Normalized(Items(right), c, path)
    decreases Items(left), 0
  {
    forall i | 0 <= i < |left|
      ensures DeepEqualAt(left[i], right[i], c, ChildPath(path, Digits(i))) <==>
              Normalized(left[i], c, ChildPath(path, Digits(i))) == Normalized(right[i], c, ChildPath(path, Digits(i)))
    {
      DeepEqualMeaning(left[i], right[i], c, ChildPath(path, Digits(i)));
    }
    var l, r := Normalized(Items(left), c, path).items, Normalized(Items(right), c, path).items;
    if l == r {
      forall i | 0 <= i < |left|
        ensures Normalized(left[i], c, ChildPath(path, Digits(i))) == Normalized(right[i], c, ChildPath(path, Digits(i)))
      {
        assert l[i] == r[i];
      }
    }
  }

  predicate FieldsEqual(left: map<Str, Json>, right: map<Str, Json>, c: Comparison, path: Str) {
    && |ComparableKeys(left, c, path)| == |ComparableKeys(right, c, path)|
    && forall k :: k in left && k in ComparableKeys(left, c, path) ==>
                     k in right && DeepEqualAt(left[k], right[k], c, ChildPath(path, k))
  }

  lemma {:induction false} ObjectsEqual(left: map<Str, Json>, right: map<Str, Json>, c: Comparison, path: Str)
    requires path !in c.ignored
    ensures FieldsEqual(left, right, c, path) <==> Normalized(Object(left), c, path) == Normalized(Object(right), c, path)
    decreases Object(left), 0
  {
    var l, r := Normalized(Object(left), c, path).fields, Normalized(Object(right), c, path).fields;
    assert l.Keys == ComparableKeys(left, c, path) && r.Keys == ComparableKeys(right, c, path);
    forall k | k in left && k in right
      ensures DeepEqualAt(left[k], right[k], c, ChildPath(path, k)) <==>
              Normalized(left[k], c, ChildPath(path, k)) == Normalized(right[k], c, ChildPath(path, k))
    {
      DeepEqualMeaning(left[k], right[k], c, ChildPath(path, k));
    }
    if FieldsEqual(left, right, c, path) {
      forall k | k in l
        ensures k in r && l[k] == r[k]
      {
        StaysDefined(left[k], right[k], c, ChildPath(path, k));
      }
      SubsetSameSize(l.Keys, r.Keys);
    }
    if l == r {
      forall k | k in ComparableKeys(left, c, path)
        ensures k in right && DeepEqualAt(left[k], right[k], c, ChildPath(path, k))
      {
        assert k in l && k in r && l[k] == r[k];
      }
    }
  }

  /** Where nothing is ignored, a defined value equals only defined values. */
  lemma StaysDefined(left: Json, right: Json, c: Comparison, path: Str)
    requires path !in c.ignored && DeepEqualAt(left, right, c, path)
    ensures left.Undefined? <==> right.Undefined?
  {
  }

  const PLAIN := Comparison({}, false)

  /** Comparing everything is equality. */
  lemma {:induction false} PlainIsEquality(left: Json, right: Json)
    ensures DeepEqualAt(left, right, PLAIN, []) <==> left == right
  {
    DeepEqualMeaning(left, right, PLAIN, []);
    NothingNormalized(left, []);
    NothingNormalized(right, []);
  }

  lemma {:induction false} NothingNormalized(j: Json, path: Str)
    ensures Normalized(j, PLAIN, path) == j
    decreases j
  {
    match j {
      case Items(items) =>
        forall i | 0 <= i < |items|
          ensures Normalized(items[i], PLAIN, ChildPath(path, Digits(i))) == items[i]
        {
          NothingNormalized(items[i], ChildPath(path, Digits(i)));
        }
        assert Normalized(j, PLAIN, path).items == items;
      case Object(fields) =>
        forall k | k in fields
          ensures Normalized(fields[k], PLAIN, ChildPath(path, k)) == fields[k]
        {
          NothingNormalized(fields[k], ChildPath(path, k));
        }
        assert Normalized(j, PLAIN, path).fields == fields;
      case _ =>
    }
  }

  // ----- the three-way patch -----

  /** Whether the patch names a field of the wanted object. */
  predicate Silent(existing: Json, previous: Json, wanted: Json, key: Str)
    requires key in FieldsOf(wanted)
    decreases wanted, 0
  {
    var d, p := FieldsOf(wanted)[key], Field(previous, key);
    if d.Undefined? then true
    else if d.Object? && p.Object? then ThreeWay(Field(existing, key), p, d) == map[]
    else d == p
  }

  /** The patch from what was applied before and what is wanted; the live object has no part in it. */
  function ThreeWay(existing: Json, previous: Json, wanted: Json): (patch: map<Str, Json>)
    decreases wanted, 1
  {
    var d, p := FieldsOf(wanted), FieldsOf(previous);
    map k | k in p.Keys + d.Keys && (k !in d || !Silent(existing, previous, wanted, k)) ::
      if k !in d then Null
      else if d[k].Object? && Field(previous, k).Object? then Object(ThreeWay(Field(existing, k), p[k], d[k]))
      else d[k]
  }

  function Units(name: string): Str {
    seq(|name|, i requires 0 <= i < |name| => name[i] as int % 0x1_0000)
  }

  /** The functions that every object inherits. */
  const INHERITED: set<Str> := {
    Units("constructor"), Units("toString"), Units("toLocaleString"), Units("valueOf"), Units("hasOwnProperty"),
    Units("isPrototypeOf"), Units("propertyIsEnumerable"), Units("__defineGetter__"), Units("__defineSetter__"),
    Units("__lookupGetter__"), Units("__lookupSetter__")}

  /** A field that was applied before and is not wanted any more, but whose name every object has:
      the inherited function is taken for the wanted value, and it cannot be copied. */
  predicate RefusedAt(previous: Json, wanted: Json, key: Str)
    decreases wanted, 0
  {
    key in FieldsOf(previous) &&
    if key !in FieldsOf(wanted) then key in INHERITED
    else FieldsOf(wanted)[key].Object? && FieldsOf(previous)[key].Object? && Refused(FieldsOf(previous)[key], FieldsOf(wanted)[key])
  }

  predicate Refused(previous: Json, wanted: Json)
    decreases wanted, 1
  {
    exists key :: key in FieldsOf(previous) && RefusedAt(previous, wanted, key)
  }

  /** The loop of the source over the keys of both objects; there is no patch when it throws. */
  method CreateThreeWayMergePatch(existing: Json, previous: Json, wanted: Json) returns (patch: Option<map<Str, Json>>)
    ensures patch == if Refused(previous, wanted) then None else Some(ThreeWay(existing, previous, wanted))
    decreases wanted
  {
    hide ThreeWay, Silent, Restricted, DeepEqualAt;
    var d, p := FieldsOf(wanted), FieldsOf(previous);
    var keys := p.Keys + d.Keys;
    var built: map<Str, Json> := map[];
    var left := keys;
    RestrictedWhole(existing, previous, wanted);
    while left != {}
      invariant left <= keys && built == Restricted(ThreeWay(existing, previous, wanted), keys - left)
      invariant forall k :: k in keys - left ==> !RefusedAt(previous, wanted, k)
      decreases left
    {
      hide ThreeWay, Silent, Restricted, DeepEqualAt;
      var key :| key in left;
      ghost var whole, done := ThreeWay(existing, previous, wanted), keys - left;
      ThreeWayAt(existing, previous, wanted, key);
      left := left - {key};
      RestrictedMore(whole, done, key);
      assert keys - left == done + {key};
      if key !in d {
        if key in INHERITED {
          assert RefusedAt(previous, wanted, key);
          return None;
        }
        built := built[key := Null];
        continue;
      }
      if d[key].Undefined? {
        continue;
      }
      if d[key].Object? && Field(previous, key).Object? {
        var child := CreateThreeWayMergePatch(Field(existing, key), Field(previous, key), d[key]);
        if child.None? {
          assert RefusedAt(previous, wanted, key);
          return None;
        }
        if |child.value| > 0 {
          built := built[key := Object(child.value)];
        }
        continue;
      }
      PlainIsEquality(d[key], Field(previous, key));
      if !DeepEqualAt(d[key], Field(previous, key), PLAIN, []) {
        built := built[key := d[key]];
      }
    }
    hide ThreeWay, Silent, Restricted, DeepEqualAt;
    assert keys - {} == keys;
    return Some(built);
  }

  /** What was applied is never refused when it is wanted again. */
  lemma {:induction false} AgainNotRefused(wanted: Json)
    ensures !Refused(wanted, wanted)
    decreases wanted
  {
    forall key | key in FieldsOf(wanted)
      ensures !RefusedAt(wanted, wanted, key)
    {
      AgainNotRefused(FieldsOf(wanted)[key]);
    }
  }

  /** Every name that all objects inherit does it: a field of that name was applied, and nothing is
      wanted any more. */
  lemma InheritedExample(name: Str, value: Json)
    requires name in INHERITED
    ensures Refused(Object(map[name := value]), Object(map[]))
    ensures Units("constructor") in INHERITED
  {
    assert RefusedAt(Object(map[name := value]), Object(map[]), name);
  }

  lemma RestrictedWhole(existing: Json, previous: Json, wanted: Json)
    ensures var whole := ThreeWay(existing, previous, wanted);
            var keys := FieldsOf(previous).Keys + FieldsOf(wanted).Keys;
            Restricted(whole, keys) == whole && Restricted(whole, keys - keys) == map[]
  {
  }

  function Restricted(m: map<Str, Json>, keys: set<Str>): map<Str, Json> {
    map k | k in m && k in keys :: m[k]
  }

  lemma RestrictedMore(m: map<Str, Json>, keys: set<Str>, key: Str)
    ensures Restricted(m, keys + {key}) == if key in m then Restricted(m, keys)[key := m[key]] else Restricted(m, keys)
  {
  }

  /** What the patch holds for one key. */
  lemma ThreeWayAt(existing: Json, previous: Json, wanted: Json, key: Str)
    requires key in FieldsOf(previous).Keys + FieldsOf(wanted).Keys
    ensures var whole, d, p := ThreeWay(existing, previous, wanted), FieldsOf(wanted), Field(previous, key);
            if key !in d then key in whole && whole[key] == Null
            else if d[key].Undefined? then key !in whole
            else if d[key].Object? && p.Object? then
              var child := ThreeWay(Field(existing, key), p, d[key]);
              if child == map[] then key !in whole else key in whole && whole[key] == Object(child)
            else if d[key] == p then key !in whole else key in whole && whole[key] == d[key]
  {
  }

  /** The live object has no part in the patch. */
  lemma {:induction false} LiveIsIgnored(a: Json, b: Json, previous: Json, wanted: Json)
    ensures ThreeWay(a, previous, wanted) == ThreeWay(b, previous, wanted)
    decreases wanted
  {
    hide ThreeWay, Silent;
    OnlyKeys(a, previous, wanted);
    OnlyKeys(b, previous, wanted);
    var x, y := ThreeWay(a, previous, wanted), ThreeWay(b, previous, wanted);
    forall k | k in FieldsOf(previous).Keys + FieldsOf(wanted).Keys
      ensures k in x <==> k in y
      ensures k in x ==> x[k] == y[k]
    {
      ThreeWayAt(a, previous, wanted, k);
      ThreeWayAt(b, previous, wanted, k);
      if k in FieldsOf(wanted) {
        LiveIsIgnored(Field(a, k), Field(b, k), Field(previous, k), FieldsOf(wanted)[k]);
      }
    }
  }

  /** Exactly when there is nothing to patch: what was applied is what is wanted. So applying the
      same object again gives the empty patch. */
  lemma {:induction false} EmptyExactly(existing: Json, previous: Json, wanted: Json)
    requires IsJson(previous) && IsJson(wanted) && previous.Object? && wanted.Object?
    ensures ThreeWay(existing, previous, wanted) == map[] <==> previous == wanted
    decreases wanted
  {
    var d, p, patch := wanted.fields, previous.fields, ThreeWay(existing, previous, wanted);
    forall k | k in p.Keys + d.Keys
      ensures k in patch <==> !(k in p && k in d && p[k] == d[k])
    {
      ThreeWayAt(existing, previous, wanted, k);
      if k in d && k in p && d[k].Object? && p[k].Object? {
        EmptyExactly(Field(existing, k), p[k], d[k]);
      }
    }
    hide ThreeWay;
    if patch == map[] {
      assert forall k :: k in p.Keys + d.Keys ==> k !in patch;
      assert p == d;
    }
    OnlyKeys(existing, previous, wanted);
  }

  lemma OnlyKeys(existing: Json, previous: Json, wanted: Json)
    ensures ThreeWay(existing, previous, wanted).Keys <= FieldsOf(previous).Keys + FieldsOf(wanted).Keys
  {
  }

  // ----- what applying does -----

  /** A wanted value laid over a live one: it wins wherever it says something. */
  function Overlay(live: Json, wanted: Json): Json
    decreases wanted
  {
    if !wanted.Object? then wanted
    else
      var base := FieldsOf(live);
      Object(map k | k in base.Keys + wanted.fields.Keys ::
        if k in wanted.fields then Overlay(Field(live, k), wanted.fields[k]) else base[k])
  }

  /** Fields that were applied before and are wanted unchanged are left as they are. */
  predicate Unchanged(previous: Json, wanted: Json, key: Str) {
    key in FieldsOf(wanted) && key in FieldsOf(previous) && FieldsOf(wanted)[key] == FieldsOf(previous)[key]
  }

  predicate Stays(live: Json, previous: Json, wanted: Json, key: Str) {
    if key in FieldsOf(wanted) then Unchanged(previous, wanted, key) ==> key in FieldsOf(live)
    else key in FieldsOf(live) && key !in FieldsOf(previous)
  }

  /** The three-way merge itself: what was applied before and is no longer wanted goes, what is
      newly wanted is laid over, and everything else of the live object stays. */
  function Merged(live: Json, previous: Json, wanted: Json): Json
    decreases wanted
  {
    var base, d, p := FieldsOf(live), FieldsOf(wanted), FieldsOf(previous);
    Object(map k | k in base.Keys + d.Keys && Stays(live, previous, wanted, k) ::
      if k !in d || Unchanged(previous, wanted, k) then Field(live, k)
      else if d[k].Object? && Field(previous, k).Object? then Merged(Field(live, k), p[k], d[k])
      else Overlay(Field(live, k), d[k]))
  }

  lemma {:induction false} PatchLaysOver(live: Json, wanted: Json)
    requires NullFree(wanted)
    ensures MergePatch(live, wanted) == Overlay(live, wanted)
    decreases wanted
  {
    if wanted.Object? {
      forall k | k in wanted.fields
        ensures MergePatch(Field(live, k), wanted.fields[k]) == Overlay(Field(live, k), wanted.fields[k])
      {
        PatchLaysOver(Field(live, k), wanted.fields[k]);
      }
      assert forall k :: k in wanted.fields ==> !Removes(wanted.fields, k);
      assert MergePatch(live, wanted).fields == Overlay(live, wanted).fields;
    }
  }

  /** Applying the computed patch is the three-way merge. */
  lemma {:induction false} PatchMerges(live: Json, previous: Json, wanted: Json)
    requires IsJson(previous) && IsJson(wanted) && NullFree(wanted) && previous.Object? && wanted.Object?
    ensures MergePatch(live, Object(ThreeWay(live, previous, wanted))) == Merged(live, previous, wanted)
    decreases wanted
  {
    hide ThreeWay, Silent;
    var patch := ThreeWay(live, previous, wanted);
    var after, merged := MergePatch(live, Object(patch)), Merged(live, previous, wanted);
    OnlyKeys(live, previous, wanted);
    forall k | k in FieldsOf(live).Keys + previous.fields.Keys + wanted.fields.Keys
      ensures k in after.fields <==> k in merged.fields
      ensures k in after.fields ==> after.fields[k] == merged.fields[k]
    {
      PatchMergesAt(live, previous, wanted, k);
    }
    assert after.fields == merged.fields;
  }

  lemma {:induction false} PatchMergesAt(live: Json, previous: Json, wanted: Json, k: Str)
    requires IsJson(previous) && IsJson(wanted) && NullFree(wanted) && previous.Object? && wanted.Object?
    requires k in FieldsOf(live).Keys + previous.fields.Keys + wanted.fields.Keys
    ensures var after, merged := MergePatch(live, Object(ThreeWay(live, previous, wanted))), Merged(live, previous, wanted);
            (k in after.fields <==> k in merged.fields) && (k in after.fields ==> after.fields[k] == merged.fields[k])
    decreases wanted, k in wanted.fields
  {
    var d, p := wanted.fields, previous.fields;
    OnlyKeys(live, previous, wanted);
    if k in p || k in d {
      ThreeWayAt(live, previous, wanted, k);
    }
    if k in d {
      var q := Field(previous, k);
      if d[k].Object? && q.Object? {
        EmptyExactly(Field(live, k), q, d[k]);
        PatchMerges(Field(live, k), q, d[k]);
      } else {
        PatchLaysOver(Field(live, k), d[k]);
      }
    }
    hide ThreeWay, Overlay;
  }

  /** The value holds everything that is wanted. */
  ghost predicate Contains(value: Json, wanted: Json)
    decreases wanted
  {
    if wanted.Object? then
      value.Object? && forall k :: k in wanted.fields ==> k in value.fields && Contains(value.fields[k], wanted.fields[k])
    else value == wanted
  }

  lemma {:induction false} OverlayContains(live: Json, wanted: Json)
    ensures Contains(Overlay(live, wanted), wanted)
    decreases wanted
  {
    if wanted.Object? {
      forall k | k in wanted.fields
        ensures Contains(Overlay(Field(live, k), wanted.fields[k]), wanted.fields[k])
      {
        OverlayContains(Field(live, k), wanted.fields[k]);
      }
    }
  }

  /** Wherever what was applied before and what is wanted agree, the live object still has it. */
  ghost predicate NoDrift(live: Json, previous: Json, wanted: Json)
    decreases wanted
  {
    forall k :: k in FieldsOf(wanted) && k in FieldsOf(previous) ==>
      if FieldsOf(wanted)[k] == FieldsOf(previous)[k] then
        k in FieldsOf(live) && Contains(FieldsOf(live)[k], FieldsOf(wanted)[k])
      else FieldsOf(wanted)[k].Object? && FieldsOf(previous)[k].Object? ==>
        NoDrift(Field(live, k), FieldsOf(previous)[k], FieldsOf(wanted)[k])
  }

  lemma {:induction false} MergedContains(live: Json, previous: Json, wanted: Json)
    requires previous.Object? && wanted.Object?
    ensures Contains(Merged(live, previous, wanted), wanted) <==> NoDrift(live, previous, wanted)
    decreases wanted
  {
    var d, p, merged := wanted.fields, previous.fields, Merged(live, previous, wanted).fields;
    forall k | k in d
      ensures k in merged && Contains(merged[k], d[k]) <==>
              (k in p ==>
                 if d[k] == p[k] then k in FieldsOf(live) && Contains(FieldsOf(live)[k], d[k])
                 else d[k].Object? && p[k].Object? ==> NoDrift(Field(live, k), p[k], d[k]))
    {
      if k in p && d[k] != p[k] && d[k].Object? && p[k].Object? {
        MergedContains(Field(live, k), p[k], d[k]);
      } else {
        OverlayContains(Field(live, k), d[k]);
      }
    }
  }

  /** Exactly when applying achieves what is wanted: the live object has not drifted where what was
      applied before and what is wanted agree. A live object that still contains everything applied
      before has not. */
  lemma ApplyAchieves(live: Json, previous: Json, wanted: Json)
    requires IsJson(previous) && IsJson(wanted) && NullFree(wanted) && previous.Object? && wanted.Object?
    ensures Contains(MergePatch(live, Object(ThreeWay(live, previous, wanted))), wanted) <==> NoDrift(live, previous, wanted)
    ensures Contains(live, previous) ==> NoDrift(live, previous, wanted)
  {
    PatchMerges(live, previous, wanted);
    MergedContains(live, previous, wanted);
    if Contains(live, previous) {
      ContainedHasNotDrifted(live, previous, wanted);
    }
  }

  lemma {:induction false} ContainedHasNotDrifted(live: Json, previous: Json, wanted: Json)
    requires Contains(live, previous)
    ensures NoDrift(live, previous, wanted)
    decreases wanted
  {
    forall k | k in FieldsOf(wanted) && k in FieldsOf(previous) && FieldsOf(wanted)[k] != FieldsOf(previous)[k]
      ensures NoDrift(Field(live, k), FieldsOf(previous)[k], FieldsOf(wanted)[k])
    {
      ContainedHasNotDrifted(Field(live, k), FieldsOf(previous)[k], FieldsOf(wanted)[k]);
    }
  }

  /** Field by field, at the level of the two objects: what was applied before and is not wanted any
      more is gone, and what neither names is as it was. */
  lemma AppliedFields(live: Json, previous: Json, wanted: Json, key: Str)
    requires IsJson(previous) && IsJson(wanted) && NullFree(wanted) && previous.Object? && wanted.Object?
    requires key !in wanted.fields
    ensures var after := MergePatch(live, Object(ThreeWay(live, previous, wanted)));
            && after.Object?
            && (key in after.fields <==> key in FieldsOf(live) && key !in previous.fields)
            && (key in after.fields ==> after.fields[key] == FieldsOf(live)[key])
  {
    PatchMerges(live, previous, wanted);
  }

  /** And so at every shared level below. */
  lemma AppliedBelow(live: Json, previous: Json, wanted: Json, key: Str)
    requires IsJson(previous) && IsJson(wanted) && NullFree(wanted) && previous.Object? && wanted.Object?
    requires key in wanted.fields && key in previous.fields && wanted.fields[key].Object? && previous.fields[key].Object?
    requires wanted.fields[key] != previous.fields[key]
    ensures var after := MergePatch(live, Object(ThreeWay(live, previous, wanted)));
            && after.Object? && key in after.fields
            && after.fields[key] == MergePatch(Field(live, key), Object(ThreeWay(Field(live, key), previous.fields[key], wanted.fields[key])))
  {
    PatchMerges(live, previous, wanted);
    PatchMerges(Field(live, key), previous.fields[key], wanted.fields[key]);
  }

  /** A field that drifted is not repaired: the patch does not look at the live object. */
  lemma DriftExample() returns (live: Json, wanted: Json)
    ensures IsJson(wanted) && NullFree(wanted) && wanted.Object?
    ensures !Contains(MergePatch(live, Object(ThreeWay(live, wanted, wanted))), wanted)
  {
    var key: Str := [97];
    wanted := Object(map[key := Scalar([49])]);
    live := Object(map[key := Scalar([50])]);
    EmptyExactly(live, wanted, wanted);
    assert Field(live, key) == Scalar([50]);
    assert !Contains(live, wanted);
    assert MergePatch(live, Object(map[])).fields == live.fields;
  }
}

/**
 * The settings data model: the admin pages, the fields a settings form
 * holds, and the sections and fieldsets that group fields and keep a
 * dictionary of them by ID.
 */
module DataModel {
  import opened Wrappers
  import Text
  import PA = PhpArray

  /** A setting: its ID, the data type that picks its filter, its default and the conditions its filter reads. */
  datatype Field = Field(id: string, dataType: string, defaultValue: PA.Value, conditions: PA.Value)

  datatype GroupKind = SectionKind | FieldsetKind

  /** What a section holds: a field, or a nested section or fieldset as it was when it was added. */
  datatype Item =
    | FieldItem(field: Field)
    | GroupItem(kind: GroupKind, id: string, style: string, fields: seq<Item>, dictionary: seq<(PA.Key, Item)>)

  function ItemID(x: Item): string
  {
    if x.FieldItem? then x.field.id else x.id
  }

  /** The dictionary key an item is registered under. */
  function KeyOf(x: Item): PA.Key
  {
    PA.KeyOfString(ItemID(x))
  }

  /** `$new_field instanceof static::class`: a group of the receiver's class or of a subclass of it. */
  predicate InstanceOf(x: Item, receiver: GroupKind)
  {
    x.GroupItem? && (receiver == SectionKind || x.kind == FieldsetKind)
  }

  /** A group without an ID, of the receiver's class, is merged: its fields are registered instead of the group. */
  predicate Merged(x: Item, receiver: GroupKind)
  {
    InstanceOf(x, receiver) && !PA.TruthyString(x.id)
  }

  /** The dictionary after each of `items` is written under its key, one after another. */
  function Written(dict: seq<(PA.Key, Item)>, items: seq<Item>): (r: seq<(PA.Key, Item)>)
    ensures PA.DistinctKeys(dict) ==> PA.DistinctKeys(r)
  {
    if items == [] then dict
    else
      var last := items[|items| - 1];
      PA.Set(Written(dict, items[..|items| - 1]), KeyOf(last), last)
  }

  /** The last of `items` whose key is `k`, if any is. */
  function LastWithKey<T>(items: seq<T>, key: T -> PA.Key, k: PA.Key): (r: Option<T>)
    ensures r.Some? ==> r.value in items && key(r.value) == k
  {
    if items == [] then None
    else if key(items[|items| - 1]) == k then Some(items[|items| - 1])
    else LastWithKey(items[..|items| - 1], key, k)
  }

  /** Nothing is found under a key exactly when no item has it, and what is found has no later rival. */
  lemma LastWithKeyFacts<T>(items: seq<T>, key: T -> PA.Key, k: PA.Key)
    ensures LastWithKey(items, key, k).None? <==> forall i :: 0 <= i < |items| ==> key(items[i]) != k
    ensures LastWithKey(items, key, k).Some? ==>
      exists i :: 0 <= i < |items| && items[i] == LastWithKey(items, key, k).value
                  && forall j :: i < j < |items| ==> key(items[j]) != k
  {
    LastWithKeyNone(items, key, k);
    if LastWithKey(items, key, k).Some? {
      LastWithKeySome(items, key, k);
    }
  }

  lemma {:induction false} LastWithKeyNone<T>(items: seq<T>, key: T -> PA.Key, k: PA.Key)
    ensures LastWithKey(items, key, k).None? <==> forall i :: 0 <= i < |items| ==> key(items[i]) != k
  {
    if items != [] {
      var n := |items| - 1;
      var init := items[..n];
      LastWithKeyNone(init, key, k);
      assert forall i :: 0 <= i < n ==> init[i] == items[i];
    }
  }

  lemma {:induction false} LastWithKeySome<T>(items: seq<T>, key: T -> PA.Key, k: PA.Key)
    requires LastWithKey(items, key, k).Some?
    ensures exists i :: 0 <= i < |items| && items[i] == LastWithKey(items, key, k).value
                  && forall j :: i < j < |items| ==> key(items[j]) != k
  {
    var n := |items| - 1;
    var init := items[..n];
    if key(items[n]) == k {
      assert items[n] == LastWithKey(items, key, k).value;
    } else {
      LastWithKeySome(init, key, k);
      var i :| 0 <= i < n && init[i] == LastWithKey(init, key, k).value
               && forall j :: i < j < n ==> key(init[j]) != k;
      assert items[i] == init[i];
      forall j | i < j < |items| ensures key(items[j]) != k {
        if j < n {
          assert items[j] == init[j];
        }
      }
    }
  }

  /** After writing `items`, a key finds the last item written under it, or what it found before. */
  lemma {:induction false} WrittenGet(dict: seq<(PA.Key, Item)>, items: seq<Item>, k: PA.Key)
    ensures PA.Get(Written(dict, items), k) == if LastWithKey(items, KeyOf, k).Some? then LastWithKey(items, KeyOf, k) else PA.Get(dict, k)
  {
    if items != [] {
      WrittenGet(dict, items[..|items| - 1], k);
    }
  }

  /** `updateFieldsDictionary`: the dictionary after `x` is added to a group of kind `receiver`. */
  function Registered(dict: seq<(PA.Key, Item)>, receiver: GroupKind, x: Item): seq<(PA.Key, Item)>
  {
    if Merged(x, receiver) then Written(dict, x.fields) else PA.Set(dict, KeyOf(x), x)
  }

  /**
   * A registered item is found under its ID and nothing else changes; a
   * merged group leaves each of its fields findable under its own ID, the
   * last one winning when two share an ID.
   */
  lemma RegisteredFacts(dict: seq<(PA.Key, Item)>, receiver: GroupKind, x: Item)
    ensures var r := Registered(dict, receiver, x);
      && (!Merged(x, receiver) ==>
            PA.Get(r, KeyOf(x)) == Some(x) && forall k :: k != KeyOf(x) ==> PA.Get(r, k) == PA.Get(dict, k))
      && (Merged(x, receiver) ==>
            forall k :: PA.Get(r, k) == if LastWithKey(x.fields, KeyOf, k).Some? then LastWithKey(x.fields, KeyOf, k) else PA.Get(dict, k))
      && (Merged(x, receiver) ==> forall f :: f in x.fields ==> PA.Get(r, KeyOf(f)).Some?)
      && (PA.DistinctKeys(dict) ==> PA.DistinctKeys(r))
  {
    if Merged(x, receiver) {
      forall k ensures PA.Get(Written(dict, x.fields), k)
                    == if LastWithKey(x.fields, KeyOf, k).Some? then LastWithKey(x.fields, KeyOf, k) else PA.Get(dict, k) {
        WrittenGet(dict, x.fields, k);
      }
      forall f | f in x.fields ensures PA.Get(Written(dict, x.fields), KeyOf(f)).Some? {
        WrittenGet(dict, x.fields, KeyOf(f));
        LastWithKeyFacts(x.fields, KeyOf, KeyOf(f));
        var i :| 0 <= i < |x.fields| && x.fields[i] == f;
      }
    }
  }

  /** The dictionary of a group built from `items`, added one by one. */
  function RegisteredAll(receiver: GroupKind, items: seq<Item>): seq<(PA.Key, Item)>
  {
    if items == [] then []
    else Registered(RegisteredAll(receiver, items[..|items| - 1]), receiver, items[|items| - 1])
  }

  /** An entry of the array `reorderFields` builds: a value taken from the ordering, or a field object. */
  datatype Slot = Plain(value: PA.Value) | Object(item: Item)

  /** `(array) $ordered_keys`, before any field is written into it. */
  function Plains(a: seq<(PA.Key, PA.Value)>): (r: seq<(PA.Key, Slot)>)
    ensures |r| == |a| && forall i :: 0 <= i < |a| ==> r[i] == (a[i].0, Plain(a[i].1))
  {
    seq(|a|, i requires 0 <= i < |a| => (a[i].0, Plain(a[i].1)))
  }

  /** What a slot holds once the dictionary is written over it. */
  function Lookup(d: seq<(PA.Key, Item)>, k: PA.Key, s: Slot): Slot
  {
    match PA.Get(d, k)
    case Some(x) => Object(x)
    case None => s
  }

  /** The ordering's own entries, each replaced by the field written under its key. */
  function Replaced(p: seq<(PA.Key, Slot)>, d: seq<(PA.Key, Item)>): (r: seq<(PA.Key, Slot)>)
    ensures |r| == |p| && forall i :: 0 <= i < |p| ==> r[i] == (p[i].0, Lookup(d, p[i].0, p[i].1))
  {
    seq(|p|, i requires 0 <= i < |p| => (p[i].0, Lookup(d, p[i].0, p[i].1)))
  }

  /** The fields whose keys the ordering does not list, appended in dictionary order. */
  function Appended(d: seq<(PA.Key, Item)>, ks: seq<PA.Key>): (r: seq<(PA.Key, Slot)>)
    ensures forall i :: 0 <= i < |r| ==> r[i].0 in PA.Keys(d) && r[i].0 !in ks
  {
    if d == [] then []
    else
      var last := d[|d| - 1];
      var rest := Appended(d[..|d| - 1], ks);
      PA.KeysOfFront(d);
      if last.0 in ks then rest else rest + [(last.0, Object(last.1))]
  }

  /** The field objects of an array, in order: what `reorderFields` keeps. */
  function ObjectEntries(a: seq<(PA.Key, Slot)>): seq<(PA.Key, Item)>
  {
    if a == [] then []
    else
      var last := a[|a| - 1];
      var rest := ObjectEntries(a[..|a| - 1]);
      if last.1.Object? then rest + [(last.0, last.1.item)] else rest
  }

  /** An object entry keeps its key. */
  lemma {:induction false} ObjectEntriesKeys(a: seq<(PA.Key, Slot)>)
    ensures forall i :: 0 <= i < |ObjectEntries(a)| ==> ObjectEntries(a)[i].0 in PA.Keys(a)
  {
    if a != [] {
      var init := a[..|a| - 1];
      var last := a[|a| - 1];
      ObjectEntriesKeys(init);
      assert a == init + [last];
      PA.KeysConcat(init, [last]);
      var w := ObjectEntries(init);
      forall i | 0 <= i < |ObjectEntries(a)| ensures ObjectEntries(a)[i].0 in PA.Keys(a) {
        if i < |w| {
          assert ObjectEntries(a)[i] == w[i];
          assert w[i].0 in PA.Keys(init);
        } else {
          assert ObjectEntries(a)[i].0 == last.0 == PA.Keys(a)[|a| - 1];
        }
      }
    }
  }

  function Wrapped(a: seq<(PA.Key, Item)>): seq<(PA.Key, Slot)>
  {
    seq(|a|, i requires 0 <= i < |a| => (a[i].0, Object(a[i].1)))
  }

  /** The listed keys that name a field, in the order listed, each with its field. */
  function Listed(ks: seq<PA.Key>, d: seq<(PA.Key, Item)>): seq<(PA.Key, Item)>
  {
    if ks == [] then []
    else
      var rest := Listed(ks[..|ks| - 1], d);
      match PA.Get(d, ks[|ks| - 1])
      case Some(x) => rest + [(ks[|ks| - 1], x)]
      case None => rest
  }

  /** The dictionary entries whose keys are not listed, in dictionary order. */
  function Unlisted(d: seq<(PA.Key, Item)>, ks: seq<PA.Key>): seq<(PA.Key, Item)>
  {
    if d == [] then []
    else
      var rest := Unlisted(d[..|d| - 1], ks);
      if d[|d| - 1].0 in ks then rest else rest + [d[|d| - 1]]
  }

  /** The dictionary `reorderFields` leaves: the listed fields first, in the given order, then the others. */
  function Reordered(orderedKeys: seq<(PA.Key, PA.Value)>, d: seq<(PA.Key, Item)>): seq<(PA.Key, Item)>
  {
    Listed(PA.Keys(orderedKeys), d) + Unlisted(d, PA.Keys(orderedKeys))
  }

  /** The keys of `ks` that are among `pool`, in order. */
  function Among(ks: seq<PA.Key>, pool: seq<PA.Key>): seq<PA.Key>
  {
    if ks == [] then []
    else Among(ks[..|ks| - 1], pool) + (if ks[|ks| - 1] in pool then [ks[|ks| - 1]] else [])
  }

  /** The keys of `ks` that are not among `pool`, in order. */
  function NotAmong(ks: seq<PA.Key>, pool: seq<PA.Key>): seq<PA.Key>
  {
    if ks == [] then []
    else NotAmong(ks[..|ks| - 1], pool) + (if ks[|ks| - 1] !in pool then [ks[|ks| - 1]] else [])
  }

  lemma {:induction false} ListedGet(ks: seq<PA.Key>, d: seq<(PA.Key, Item)>, k: PA.Key)
    ensures PA.Get(Listed(ks, d), k) == if k in ks then PA.Get(d, k) else None
  {
    if ks != [] {
      var init, last := ks[..|ks| - 1], ks[|ks| - 1];
      assert ks == init + [last];
      ListedGet(init, d, k);
      var rest := Listed(init, d);
      PA.GetFacts(rest, k);
      PA.GetFacts(d, k);
      match PA.Get(d, last)
      case Some(x) =>
        PA.GetConcat(rest, [(last, x)], k);
      case None =>
    }
  }

  lemma {:induction false} UnlistedGet(d: seq<(PA.Key, Item)>, ks: seq<PA.Key>, k: PA.Key)
    requires PA.DistinctKeys(d)
    ensures PA.Get(Unlisted(d, ks), k) == if k in ks then None else PA.Get(d, k)
  {
    if d != [] {
      var init, e := d[..|d| - 1], d[|d| - 1];
      assert d == init + [e];
      assert PA.DistinctKeys(init);
      UnlistedGet(init, ks, k);
      var rest := Unlisted(init, ks);
      PA.GetConcat(init, [e], k);
      PA.GetFacts(init, k);
      PA.GetFacts(rest, k);
      PA.KeysConcat(init, [e]);
      if e.0 !in ks {
        PA.GetConcat(rest, [e], k);
      }
    }
  }

  lemma {:induction false} ListedDistinct(ks: seq<PA.Key>, d: seq<(PA.Key, Item)>)
    requires forall i, j :: 0 <= i < j < |ks| ==> ks[i] != ks[j]
    ensures PA.DistinctKeys(Listed(ks, d))
  {
    if ks != [] {
      var init, last := ks[..|ks| - 1], ks[|ks| - 1];
      ListedDistinct(init, d);
      var rest := Listed(init, d);
      ListedGet(init, d, last);
      PA.GetFacts(rest, last);
      match PA.Get(d, last)
      case Some(x) =>
        PA.DistinctConcat(rest, [(last, x)]);
      case None =>
    }
  }

  lemma {:induction false} UnlistedDistinct(d: seq<(PA.Key, Item)>, ks: seq<PA.Key>)
    requires PA.DistinctKeys(d)
    ensures PA.DistinctKeys(Unlisted(d, ks))
  {
    if d != [] {
      var init, e := d[..|d| - 1], d[|d| - 1];
      assert PA.DistinctKeys(init);
      UnlistedDistinct(init, ks);
      var rest := Unlisted(init, ks);
      UnlistedGet(init, ks, e.0);
      PA.GetFacts(rest, e.0);
      PA.GetFacts(init, e.0);
      assert e.0 !in PA.Keys(init) by {
        forall i | 0 <= i < |init| ensures init[i].0 != e.0 {
          assert init[i] == d[i];
        }
      }
      if e.0 !in ks {
        PA.DistinctConcat(rest, [e]);
      }
    }
  }

  /**
   * `reorderFields` loses no field and invents none: every key finds the
   * same field as before, no key is doubled, and the new dictionary is a
   * permutation of the old one.
   */
  lemma ReorderedIsPermutation(orderedKeys: seq<(PA.Key, PA.Value)>, d: seq<(PA.Key, Item)>)
    requires PA.DistinctKeys(orderedKeys) && PA.DistinctKeys(d)
    ensures forall k :: PA.Get(Reordered(orderedKeys, d), k) == PA.Get(d, k)
    ensures PA.DistinctKeys(Reordered(orderedKeys, d))
    ensures multiset(Reordered(orderedKeys, d)) == multiset(d)
  {
    var ks := PA.Keys(orderedKeys);
    var l, u := Listed(ks, d), Unlisted(d, ks);
    ListedDistinct(ks, d);
    UnlistedDistinct(d, ks);
    forall i | 0 <= i < |u| ensures u[i].0 !in PA.Keys(l) {
      UnlistedGet(d, ks, u[i].0);
      PA.GetFacts(u, u[i].0);
      ListedGet(ks, d, u[i].0);
      PA.GetFacts(l, u[i].0);
      assert PA.Keys(u)[i] == u[i].0;
    }
    PA.DistinctConcat(l, u);
    forall k ensures PA.Get(l + u, k) == PA.Get(d, k) {
      PA.GetConcat(l, u, k);
      ListedGet(ks, d, k);
      UnlistedGet(d, ks, k);
      PA.GetFacts(l, k);
    }
    PA.SameEntries(l + u, d);
  }

  lemma {:induction false} ListedKeys(ks: seq<PA.Key>, d: seq<(PA.Key, Item)>)
    ensures PA.Keys(Listed(ks, d)) == Among(ks, PA.Keys(d))
  {
    if ks != [] {
      var init, last := ks[..|ks| - 1], ks[|ks| - 1];
      ListedKeys(init, d);
      PA.GetFacts(d, last);
      match PA.Get(d, last)
      case Some(x) =>
        PA.KeysConcat(Listed(init, d), [(last, x)]);
      case None =>
    }
  }

  lemma {:induction false} UnlistedKeys(d: seq<(PA.Key, Item)>, ks: seq<PA.Key>)
    ensures PA.Keys(Unlisted(d, ks)) == NotAmong(PA.Keys(d), ks)
  {
    if d != [] {
      var init, e := d[..|d| - 1], d[|d| - 1];
      var kd := PA.Keys(d);
      UnlistedKeys(init, ks);
      assert kd[..|d| - 1] == PA.Keys(init) && kd[|d| - 1] == e.0;
      assert NotAmong(kd, ks) == NotAmong(PA.Keys(init), ks) + (if e.0 !in ks then [e.0] else []);
      if e.0 !in ks {
        assert Unlisted(d, ks) == Unlisted(init, ks) + [e];
        PA.KeysConcat(Unlisted(init, ks), [e]);
      } else {
        assert Unlisted(d, ks) == Unlisted(init, ks);
      }
    }
  }

  /** The new order: the listed keys that name fields, as listed, then the other keys, as they were. */
  lemma ReorderedOrder(orderedKeys: seq<(PA.Key, PA.Value)>, d: seq<(PA.Key, Item)>)
    ensures PA.Keys(Reordered(orderedKeys, d))
         == Among(PA.Keys(orderedKeys), PA.Keys(d)) + NotAmong(PA.Keys(d), PA.Keys(orderedKeys))
  {
    var ks := PA.Keys(orderedKeys);
    ListedKeys(ks, d);
    UnlistedKeys(d, ks);
    PA.KeysConcat(Listed(ks, d), Unlisted(d, ks));
  }

  /** One step of the first loop of `reorderFields`: writing the next field keeps the array in its described shape. */
  lemma OverlayStep(p: seq<(PA.Key, Slot)>, d: seq<(PA.Key, Item)>, e: (PA.Key, Item))
    requires PA.DistinctKeys(p)
    requires e.0 !in PA.Keys(d)
    ensures PA.Set(Replaced(p, d) + Appended(d, PA.Keys(p)), e.0, Object(e.1))
         == Replaced(p, d + [e]) + Appended(d + [e], PA.Keys(p))
  {
    if e.0 in PA.Keys(p) {
      OverlayListed(p, d, e);
    } else {
      OverlayUnlisted(p, d, e);
    }
  }

  /** Outside the new key, looking up in the longer dictionary is looking up in the shorter one. */
  lemma LookupOther(d: seq<(PA.Key, Item)>, e: (PA.Key, Item), k: PA.Key, s: Slot)
    requires k != e.0
    ensures Lookup(d + [e], k, s) == Lookup(d, k, s)
  {
    PA.GetConcat(d, [e], k);
    PA.GetFacts(d, k);
  }

  lemma OverlayListed(p: seq<(PA.Key, Slot)>, d: seq<(PA.Key, Item)>, e: (PA.Key, Item))
    requires PA.DistinctKeys(p)
    requires e.0 !in PA.Keys(d) && e.0 in PA.Keys(p)
    ensures PA.Set(Replaced(p, d) + Appended(d, PA.Keys(p)), e.0, Object(e.1))
         == Replaced(p, d + [e]) + Appended(d + [e], PA.Keys(p))
  {
    var a, b, k := Replaced(p, d), Appended(d, PA.Keys(p)), e.0;
    var d' := d + [e];
    assert d'[..|d'| - 1] == d && d'[|d'| - 1] == e;
    assert Appended(d', PA.Keys(p)) == b;
    var idx :| 0 <= idx < |p| && PA.Keys(p)[idx] == k;
    assert PA.Keys(a)[idx] == k;
    forall j | 0 <= j < idx ensures a[j].0 != a[idx].0 {
      assert a[j].0 == p[j].0 && a[idx].0 == p[idx].0;
    }
    PA.KeyNotBefore(a, idx);
    PA.RawSetFront(a, b, k, Object(e.1));
    PA.RawSetAt(a, idx, Object(e.1));
    ReplacedListed(p, d, e, idx);
  }

  /** Writing a listed field replaces the one entry of the ordering that lists it. */
  lemma ReplacedListed(p: seq<(PA.Key, Slot)>, d: seq<(PA.Key, Item)>, e: (PA.Key, Item), idx: nat)
    requires PA.DistinctKeys(p)
    requires e.0 !in PA.Keys(d) && idx < |p| && p[idx].0 == e.0
    ensures Replaced(p, d + [e]) == Replaced(p, d)[idx := (e.0, Object(e.1))]
  {
    var d' := d + [e];
    PA.GetConcat(d, [e], e.0);
    PA.GetFacts(d, e.0);
    assert Lookup(d', e.0, p[idx].1) == Object(e.1);
    forall j | 0 <= j < |p| && j != idx ensures Replaced(p, d')[j] == Replaced(p, d)[j] {
      LookupOther(d, e, p[j].0, p[j].1);
    }
  }

  lemma OverlayUnlisted(p: seq<(PA.Key, Slot)>, d: seq<(PA.Key, Item)>, e: (PA.Key, Item))
    requires e.0 !in PA.Keys(d) && e.0 !in PA.Keys(p)
    ensures PA.Set(Replaced(p, d) + Appended(d, PA.Keys(p)), e.0, Object(e.1))
         == Replaced(p, d + [e]) + Appended(d + [e], PA.Keys(p))
  {
    var a, b, k := Replaced(p, d), Appended(d, PA.Keys(p)), e.0;
    var d' := d + [e];
    assert d'[..|d'| - 1] == d && d'[|d'| - 1] == e;
    assert Appended(d', PA.Keys(p)) == b + [(k, Object(e.1))];
    assert k !in PA.Keys(a) by {
      forall j | 0 <= j < |a| ensures a[j].0 != k {
        assert PA.Keys(p)[j] == p[j].0;
      }
    }
    assert k !in PA.Keys(b);
    forall j | 0 <= j < |p| ensures Replaced(p, d')[j] == a[j] {
      assert PA.Keys(p)[j] == p[j].0;
      LookupOther(d, e, p[j].0, p[j].1);
    }
    assert Replaced(p, d') == a;
    SetNewAtEnd(a, b, k, Object(e.1));
  }

  /** Writing a key in neither part adds it after both. */
  lemma SetNewAtEnd(a: seq<(PA.Key, Slot)>, b: seq<(PA.Key, Slot)>, k: PA.Key, v: Slot)
    requires k !in PA.Keys(a) && k !in PA.Keys(b)
    ensures PA.Set(a + b, k, v) == a + (b + [(k, v)])
  {
    PA.KeysConcat(a, b);
    PA.RawSetNew(a + b, k, v);
    assert (a + b) + [(k, v)] == a + (b + [(k, v)]);
  }

  lemma {:induction false} ObjectEntriesConcat(a: seq<(PA.Key, Slot)>, b: seq<(PA.Key, Slot)>)
    ensures ObjectEntries(a + b) == ObjectEntries(a) + ObjectEntries(b)
    decreases |b|
  {
    if b == [] {
      assert a + b == a;
    } else {
      var init := b[..|b| - 1];
      assert (a + b)[..|a + b| - 1] == a + init;
      ObjectEntriesConcat(a, init);
    }
  }

  lemma {:induction false} ObjectEntriesWrapped(a: seq<(PA.Key, Item)>)
    ensures ObjectEntries(Wrapped(a)) == a
  {
    if a != [] {
      assert Wrapped(a)[..|a| - 1] == Wrapped(a[..|a| - 1]);
      ObjectEntriesWrapped(a[..|a| - 1]);
    }
  }

  lemma {:induction false} ObjectEntriesReplaced(o: seq<(PA.Key, PA.Value)>, d: seq<(PA.Key, Item)>)
    ensures ObjectEntries(Replaced(Plains(o), d)) == Listed(PA.Keys(o), d)
  {
    if o != [] {
      var init := o[..|o| - 1];
      assert Replaced(Plains(o), d)[..|o| - 1] == Replaced(Plains(init), d);
      assert PA.Keys(o)[..|o| - 1] == PA.Keys(init);
      ObjectEntriesReplaced(init, d);
    }
  }

  lemma {:induction false} ObjectEntriesAppended(d: seq<(PA.Key, Item)>, ks: seq<PA.Key>)
    ensures ObjectEntries(Appended(d, ks)) == Unlisted(d, ks)
  {
    if d != [] {
      var init := d[..|d| - 1];
      ObjectEntriesAppended(init, ks);
      if d[|d| - 1].0 !in ks {
        var rest := Appended(init, ks);
        var last := (d[|d| - 1].0, Object(d[|d| - 1].1));
        assert (rest + [last])[..|rest|] == rest;
      }
    }
  }

  /** The field objects of an array are the values of its object entries. */
  function Objects(a: seq<(PA.Key, Slot)>): seq<Item>
  {
    PA.Values(ObjectEntries(a))
  }

  /** A settings section, or a fieldset: its fields in order, and the dictionary that finds them by ID. */
  class Section {
    const kind: GroupKind
    var id: string
    var title: string
    const style: string
    var fields: seq<Item>
    var dictionary: seq<(PA.Key, Item)>

    predicate Valid()
      reads this
    {
      PA.DistinctKeys(dictionary)
    }

    /** `new Section($title, $id, $fields)` and `new Fieldset($title, $id, $style, $fields)`: each field is added in turn. */
    constructor(kind: GroupKind, title: string, id: string, style: string, items: seq<Item>)
      ensures this.kind == kind && this.title == title && this.id == id && this.style == style
      ensures fields == items && dictionary == RegisteredAll(kind, items)
      ensures Valid()
    {
      this.kind := kind;
      this.title := title;
      this.id := id;
      this.style := style;
      fields := [];
      dictionary := [];
      new;
      AddFields(items);
    }

    /** The constructor's loop: each item is added in turn. */
    method AddFields(items: seq<Item>)
      requires fields == [] && dictionary == []
      modifies this`fields, this`dictionary
      ensures fields == items && dictionary == RegisteredAll(kind, items)
      ensures Valid()
    {
      var i := 0;
      while i < |items|
        invariant 0 <= i <= |items|
        invariant fields == items[..i] && dictionary == RegisteredAll(kind, items[..i]) && Valid()
      {
        AddField(items[i]);
        assert items[..i + 1][..i] == items[..i];
        i := i + 1;
      }
      assert items[..|items|] == items;
    }

    /** The section as a value, as another section or the data controller receives it. */
    function Snapshot(): Item
      reads this
    {
      GroupItem(kind, id, style, fields, dictionary)
    }

    /** `addField`: appends the item to the fields and registers it in the dictionary. */
    method AddField(x: Item)
      requires Valid()
      modifies this`fields, this`dictionary
      ensures fields == old(fields) + [x]
      ensures dictionary == Registered(old(dictionary), kind, x)
      ensures Valid()
    {
      fields := fields + [x];
      UpdateFieldsDictionary(x);
    }

    /** `updateFieldsDictionary`: a merged group registers each of its fields, anything else registers itself. */
    method UpdateFieldsDictionary(x: Item)
      requires Valid()
      modifies this`dictionary
      ensures dictionary == Registered(old(dictionary), kind, x)
      ensures Valid()
    {
      if Merged(x, kind) {
        var group := x.fields;
        var i := 0;
        while i < |group|
          invariant 0 <= i <= |group|
          invariant dictionary == Written(old(dictionary), group[..i]) && Valid()
        {
          dictionary := PA.Set(dictionary, KeyOf(group[i]), group[i]);
          assert group[..i + 1][..i] == group[..i];
          i := i + 1;
        }
        assert group[..|group|] == group;
        return;
      }
      dictionary := PA.Set(dictionary, KeyOf(x), x);
    }

    /** `getField`: the item registered under `k`, and nothing (PHP's false) when there is none. */
    function GetField(k: PA.Key): (r: Option<Item>)
      reads this
      ensures r.None? <==> k !in PA.Keys(dictionary)
      ensures r.Some? ==> (k, r.value) in dictionary
    {
      PA.GetFacts(dictionary, k);
      PA.Get(dictionary, k)
    }

    /**
     * `reorderFields`: the fields listed in `orderedKeys` first, in the
     * order given, then the remaining ones in dictionary order; listed keys
     * that name no field are dropped. The fields follow the dictionary.
     */
    method ReorderFields(orderedKeys: seq<(PA.Key, PA.Value)>)
      requires kind == FieldsetKind && Valid() && PA.DistinctKeys(orderedKeys)
      modifies this`fields, this`dictionary
      ensures dictionary == Reordered(orderedKeys, old(dictionary))
      ensures fields == PA.Values(dictionary)
      ensures Valid()
    {
      var p := Plains(orderedKeys);
      var ordered := WriteFields(p, dictionary);
      ghost var d := dictionary;
      assert PA.Keys(p) == PA.Keys(orderedKeys);
      ObjectEntriesConcat(Replaced(p, d), Appended(d, PA.Keys(p)));
      ObjectEntriesReplaced(orderedKeys, d);
      ObjectEntriesAppended(d, PA.Keys(p));
      var objects, kept := KeepObjects(ordered);
      fields := objects;
      dictionary := ObjectEntries(kept);
      ReorderedIsPermutation(orderedKeys, d);
    }
  }

  /** Pass `i` of the first loop of `reorderFields`. */
  lemma WriteStepAt(p: seq<(PA.Key, Slot)>, dict: seq<(PA.Key, Item)>, i: nat)
    requires PA.DistinctKeys(p) && PA.DistinctKeys(dict) && i < |dict|
    ensures PA.Set(Replaced(p, dict[..i]) + Appended(dict[..i], PA.Keys(p)), dict[i].0, Object(dict[i].1))
         == Replaced(p, dict[..i + 1]) + Appended(dict[..i + 1], PA.Keys(p))
  {
    Text.TakeSnoc(dict, i);
    forall j | 0 <= j < i ensures dict[j].0 != dict[i].0 { }
    PA.KeyNotBefore(dict, i);
    OverlayStep(p, dict[..i], dict[i]);
  }

  /** The first loop of `reorderFields`: every dictionary entry is written over the ordering. */
  method WriteFields(p: seq<(PA.Key, Slot)>, dict: seq<(PA.Key, Item)>) returns (ordered: seq<(PA.Key, Slot)>)
    requires PA.DistinctKeys(p) && PA.DistinctKeys(dict)
    ensures ordered == Replaced(p, dict) + Appended(dict, PA.Keys(p))
    ensures PA.DistinctKeys(ordered)
  {
    ordered := p;
    assert Replaced(p, []) == p;
    assert dict[..0] == [];
    var i := 0;
    while i < |dict|
      invariant 0 <= i <= |dict|
      invariant ordered == Replaced(p, dict[..i]) + Appended(dict[..i], PA.Keys(p))
      invariant PA.DistinctKeys(ordered)
    {
      WriteStepAt(p, dict, i);
      ordered := PA.Set(ordered, dict[i].0, Object(dict[i].1));
      i := i + 1;
    }
    assert dict[..i] == dict;
  }

  /**
   * The second loop of `reorderFields`: the field objects, in order, and
   * the array with every entry that is not a field object unset.
   */
  method KeepObjects(ordered: seq<(PA.Key, Slot)>) returns (objects: seq<Item>, kept: seq<(PA.Key, Slot)>)
    requires PA.DistinctKeys(ordered)
    ensures objects == Objects(ordered)
    ensures ObjectEntries(kept) == ObjectEntries(ordered)
  {
    objects := [];
    kept := ordered;
    var j := 0;
    assert ordered[j..] == ordered && ordered[..0] == [];
    while j < |ordered|
      invariant 0 <= j <= |ordered|
      invariant objects == Objects(ordered[..j])
      invariant kept == Wrapped(ObjectEntries(ordered[..j])) + ordered[j..]
    {
      KeepStep(ordered, j, objects, kept);
      if ordered[j].1.Object? {
        objects := objects + [ordered[j].1.item];
      } else {
        kept := PA.Unset(kept, ordered[j].0);
      }
      j := j + 1;
    }
    assert ordered[..j] == ordered && ordered[j..] == [];
    assert kept == Wrapped(ObjectEntries(ordered));
    ObjectEntriesWrapped(ObjectEntries(ordered));
  }

  /** One step of the second loop: an object is kept, any other entry is unset. */
  lemma KeepStep(ordered: seq<(PA.Key, Slot)>, j: nat, objects: seq<Item>, kept: seq<(PA.Key, Slot)>)
    requires j < |ordered| && PA.DistinctKeys(ordered)
    requires objects == Objects(ordered[..j])
    requires kept == Wrapped(ObjectEntries(ordered[..j])) + ordered[j..]
    ensures ordered[j].1.Object? ==>
      && objects + [ordered[j].1.item] == Objects(ordered[..j + 1])
      && kept == Wrapped(ObjectEntries(ordered[..j + 1])) + ordered[j + 1..]
    ensures ordered[j].1.Plain? ==>
      && objects == Objects(ordered[..j + 1])
      && PA.Unset(kept, ordered[j].0) == Wrapped(ObjectEntries(ordered[..j + 1])) + ordered[j + 1..]
  {
    var w := ObjectEntries(ordered[..j]);
    assert ordered[..j + 1][..j] == ordered[..j];
    assert ordered[j..] == [ordered[j]] + ordered[j + 1..];
    if ordered[j].1.Object? {
      KeepObject(ordered, j, w);
    } else {
      assert ObjectEntries(ordered[..j + 1]) == w;
      UnsetPlain(ordered, j, w);
      assert kept == Wrapped(w) + [ordered[j]] + ordered[j + 1..];
    }
  }

  lemma KeepObject(ordered: seq<(PA.Key, Slot)>, j: nat, w: seq<(PA.Key, Item)>)
    requires j < |ordered| && ordered[j].1.Object?
    requires w == ObjectEntries(ordered[..j])
    ensures ObjectEntries(ordered[..j + 1]) == w + [(ordered[j].0, ordered[j].1.item)]
    ensures Wrapped(ObjectEntries(ordered[..j + 1])) + ordered[j + 1..] == Wrapped(w) + ordered[j..]
  {
    var entry := ordered[j];
    assert ordered[..j + 1][..j] == ordered[..j];
    assert ordered[j..] == [entry] + ordered[j + 1..];
    assert Wrapped(w + [(entry.0, entry.1.item)]) == Wrapped(w) + [entry];
  }

  /** The second loop of `reorderFields` unsets a plain entry without touching the rest. */
  lemma UnsetPlain(ordered: seq<(PA.Key, Slot)>, j: nat, w: seq<(PA.Key, Item)>)
    requires j < |ordered| && PA.DistinctKeys(ordered)
    requires w == ObjectEntries(ordered[..j])
    ensures PA.RawUnset(Wrapped(w) + [ordered[j]] + ordered[j + 1..], ordered[j].0) == Wrapped(w) + ordered[j + 1..]
  {
    var k := ordered[j].0;
    assert k !in PA.Keys(ordered[..j]) by {
      forall i | 0 <= i < j ensures ordered[..j][i].0 != k {
        assert ordered[..j][i] == ordered[i];
      }
    }
    ObjectEntriesKeys(ordered[..j]);
    assert k !in PA.Keys(Wrapped(w)) by {
      forall i | 0 <= i < |w| ensures Wrapped(w)[i].0 != k {
        assert w[i].0 in PA.Keys(ordered[..j]);
      }
    }
    var rest := ordered[j + 1..];
    assert k !in PA.Keys(rest) by {
      forall i | 0 <= i < |rest| ensures rest[i].0 != k {
        assert rest[i] == ordered[j + 1 + i];
      }
    }
    PA.RawUnsetAt(Wrapped(w), k, ordered[j].1, ordered[j + 1..]);
  }

  /** Whether `sub` occurs in `s`, as `strpos($s, $sub) !== false` tests. */
  predicate Contains(s: string, sub: string)
  {
    exists i :: 0 <= i <= |s| && Text.StartsWith(s[i..], sub)
  }

  /** The parent menu slug of a page: its own menu ID when that names a PHP file, else the admin screen. */
  function ParentSlugOf(menuID: string): (r: string)
    ensures PA.TruthyString(r)
    ensures Contains(menuID, ".php") ==> r == menuID
    ensures !Contains(menuID, ".php") ==> r == "admin.php"
  {
    if Contains(menuID, ".php") then
      var i :| 0 <= i <= |menuID| && Text.StartsWith(menuID[i..], ".php");
      assert |menuID| >= 4 && menuID != "0";
      menuID
    else
      "admin.php"
  }

  /** An admin page of the plugin. */
  class Page {
    const namespace: string
    const id: string
    const menuID: string
    const title: string
    const menuTitle: string
    const viewClass: string
    const controllerClass: string
    /** The memoised parent slug; empty until first asked for. */
    var parentSlug: string

    constructor(namespace: string, id: string, menuID: string, title: string, menuTitle: string,
                viewClass: string, controllerClass: string)
      ensures this.namespace == namespace && this.id == id && this.menuID == menuID
      ensures this.title == title && this.menuTitle == menuTitle
      ensures this.viewClass == viewClass && this.controllerClass == controllerClass
      ensures parentSlug == ""
    {
      this.namespace := namespace;
      this.id := id;
      this.menuID := menuID;
      this.title := title;
      this.menuTitle := menuTitle;
      this.viewClass := viewClass;
      this.controllerClass := controllerClass;
      parentSlug := "";
    }

    /** `namespacedID`: the plugin's namespace, a dash, the page ID. */
    function NamespacedID(): string
    {
      namespace + "-" + id
    }

    /** `parentSlug`: computed on first use, then the same value on every call. */
    method ParentSlug() returns (slug: string)
      modifies this`parentSlug
      ensures slug == parentSlug
      ensures PA.TruthyString(old(parentSlug)) ==> slug == old(parentSlug)
      ensures !PA.TruthyString(old(parentSlug)) ==> slug == ParentSlugOf(menuID)
      ensures PA.TruthyString(parentSlug)
    {
      if !PA.TruthyString(parentSlug) {
        parentSlug := ParentSlugOf(menuID);
      }
      slug := parentSlug;
    }
  }

  /** Pages of one namespace have distinct namespaced IDs exactly when their IDs differ. */
  lemma NamespacedIDsDistinct(p: Page, q: Page)
    requires p.namespace == q.namespace
    ensures p.NamespacedID() == q.NamespacedID() <==> p.id == q.id
  {
    var n := |p.namespace| + 1;
    if p.NamespacedID() == q.NamespacedID() {
      assert p.NamespacedID()[n..] == p.id;
      assert q.NamespacedID()[n..] == q.id;
    }
  }
}

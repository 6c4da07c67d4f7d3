/**
 * `DataController`: the admin pages of the plugin, the settings sections
 * each page registers, and the walks over a section's dictionary that give
 * the defaults of its options, fill missing options from those defaults and
 * sanitise submitted options.
 */
module DataControl {
  import opened Wrappers
  import PA = PhpArray
  import DM = DataModel
  import OF = OptionFilters

  /** A PHP array of options. */
  type Entries = seq<(PA.Key, PA.Value)>

  /** A PHP array has distinct keys, and so has every array nested in it. */
  predicate WellKeyed(v: PA.Value)
    decreases v
  {
    v.VArray? ==> PA.DistinctKeys(v.entries) && forall i :: 0 <= i < |v.entries| ==> WellKeyed(v.entries[i].1)
  }

  // ---------------------------------------------------------------------
  // fillOptionsArrayWithDefaults

  /**
   * The options once the first `n` defaults are filled in, one after another:
   * an array default makes room for itself where nothing is set and is
   * filled in recursively; a scalar default is written only where nothing
   * is set, and a boolean default is written as false. A value set where
   * the defaults hold an array, but which is not an array itself, is left
   * as it is.
   */
  function Filled(options: Entries, defaults: Entries, n: nat): Entries
    requires n <= |defaults|
    decreases PA.VArray(defaults), n
  {
    if n == 0 then options
    else
      var o := Filled(options, defaults, n - 1);
      var (key, value) := defaults[n - 1];
      if value.VArray? then
        var present := if PA.IsSet(o, key) then PA.Get(o, key).value else PA.VArray([]);
        if present.VArray? then PA.RawSet(o, key, PA.VArray(Filled(present.entries, value.entries, |value.entries|)))
        else o
      else if PA.IsSet(o, key) then o
      else PA.RawSet(o, key, if value.VBool? then PA.VBool(false) else value)
  }

  /** The options with all the defaults filled in. */
  function FilledAll(options: Entries, defaults: Entries): Entries
  {
    Filled(options, defaults, |defaults|)
  }

  /** What the fill leaves under the key of the default `value`, given the options it starts from. */
  function FilledValue(options: Entries, key: PA.Key, value: PA.Value): PA.Value
  {
    if value.VArray? then
      var present := if PA.IsSet(options, key) then PA.Get(options, key).value else PA.VArray([]);
      if present.VArray? then PA.VArray(FilledAll(present.entries, value.entries)) else present
    else if PA.IsSet(options, key) then PA.Get(options, key).value
    else if value.VBool? then PA.VBool(false)
    else value
  }

  /** `fillOptionsArrayWithDefaults`: the options array, passed by reference in the source, comes back filled. */
  method FillOptionsArrayWithDefaults(options: Entries, defaults: Entries) returns (filled: Entries)
    ensures filled == FilledAll(options, defaults)
    decreases PA.VArray(defaults), 1
  {
    filled := options;
    for i := 0 to |defaults|
      invariant filled == Filled(options, defaults, i)
    {
      FilledOneByOne(options, defaults, i + 1);
      filled := FillOption(filled, defaults[i].0, defaults[i].1);
    }
  }

  /** One step of the loop in `fillOptionsArrayWithDefaults`: the default `value` filled in under `key`. */
  method FillOption(options: Entries, key: PA.Key, value: PA.Value) returns (filled: Entries)
    ensures filled == Filled(options, [(key, value)], 1)
    decreases value, 2
  {
    filled := options;
    if value.VArray? {
      if !PA.IsSet(filled, key) {
        filled := PA.RawSet(filled, key, PA.VArray([]));
        PA.SetGet(options, key, PA.VArray([]));
      }
      var current := PA.Get(filled, key).value;
      if current.VArray? {
        var nested := FillOptionsArrayWithDefaults(current.entries, value.entries);
        if !PA.IsSet(options, key) {
          PA.SetTwice(options, key, PA.VArray([]), PA.VArray(nested));
        }
        filled := PA.RawSet(filled, key, PA.VArray(nested));
      }
    } else if !PA.IsSet(filled, key) {
      filled := PA.RawSet(filled, key, if value.VBool? then PA.VBool(false) else value);
    }
  }

  /** Filling `n` defaults is filling the first `n - 1` and then the last on its own. */
  lemma FilledOneByOne(options: Entries, defaults: Entries, n: nat)
    requires 0 < n <= |defaults|
    ensures Filled(options, defaults, n) == Filled(Filled(options, defaults, n - 1), [defaults[n - 1]], 1)
  {
  }

  /** The last of `n` defaults either finds its outcome already in place or writes it. */
  lemma FilledLast(options: Entries, defaults: Entries, n: nat)
    requires 0 < n <= |defaults|
    ensures var prev, key, value := Filled(options, defaults, n - 1), defaults[n - 1].0, defaults[n - 1].1;
      var w := FilledValue(prev, key, value);
      || (Filled(options, defaults, n) == prev && PA.Get(prev, key) == Some(w))
      || Filled(options, defaults, n) == PA.RawSet(prev, key, w)
  {
  }

  /** A key no default among the first `n` has keeps what the options hold under it. */
  lemma {:induction false} FilledElsewhere(options: Entries, defaults: Entries, n: nat, k: PA.Key)
    requires n <= |defaults| && k !in PA.Keys(defaults[..n])
    ensures PA.Get(Filled(options, defaults, n), k) == PA.Get(options, k)
  {
    if n > 0 {
      var prev, key, value := Filled(options, defaults, n - 1), defaults[n - 1].0, defaults[n - 1].1;
      assert k != key && k !in PA.Keys(defaults[..n - 1]) by {
        PA.KeysOfPrefix(defaults, n - 1);
      }
      FilledElsewhere(options, defaults, n - 1, k);
      assert PA.Get(Filled(options, defaults, n), k) == PA.Get(prev, k) by {
        FilledLast(options, defaults, n);
        PA.SetGetOther(prev, key, FilledValue(prev, key, value), k);
      }
    }
  }

  /** Under the key of one of the first `n` defaults the fill leaves `FilledValue`. */
  lemma {:induction false} FilledAt(options: Entries, defaults: Entries, n: nat, i: nat)
    requires i < n <= |defaults| && PA.DistinctKeys(defaults)
    ensures PA.Get(Filled(options, defaults, n), defaults[i].0) == Some(FilledValue(options, defaults[i].0, defaults[i].1))
  {
    var prev, key, value := Filled(options, defaults, n - 1), defaults[n - 1].0, defaults[n - 1].1;
    FilledLast(options, defaults, n);
    var w := FilledValue(prev, key, value);
    if i == n - 1 {
      assert key !in PA.Keys(defaults[..n - 1]);
      FilledElsewhere(options, defaults, n - 1, key);
      assert PA.IsSet(prev, key) == PA.IsSet(options, key);
      PA.SetGet(prev, key, w);
    } else {
      FilledAt(options, defaults, n - 1, i);
      assert key != defaults[i].0;
      PA.SetGetOther(prev, key, w, defaults[i].0);
    }
  }

  /** The keys after the fill: those of the options, then those of the defaults that were missing. */
  lemma {:induction false} FilledKeys(options: Entries, defaults: Entries, n: nat, x: PA.Key)
    requires n <= |defaults|
    ensures x in PA.Keys(Filled(options, defaults, n)) <==> x in PA.Keys(options) || x in PA.Keys(defaults[..n])
  {
    if n > 0 {
      var now, before, last := Filled(options, defaults, n), Filled(options, defaults, n - 1), defaults[n - 1].0;
      assert x in PA.Keys(now) <==> x in PA.Keys(before) || x == last by {
        FilledStep(options, defaults, n);
      }
      assert x in PA.Keys(before) <==> x in PA.Keys(options) || x in PA.Keys(defaults[..n - 1]) by {
        FilledKeys(options, defaults, n - 1, x);
      }
      assert x in PA.Keys(defaults[..n]) <==> x in PA.Keys(defaults[..n - 1]) || x == last by {
        PA.KeysOfPrefix(defaults, n - 1);
        assert defaults[..n - 1 + 1] == defaults[..n];
      }
    }
  }

  /** Distinct keys stay distinct. */
  lemma {:induction false} FilledDistinct(options: Entries, defaults: Entries, n: nat)
    requires n <= |defaults| && PA.DistinctKeys(options)
    ensures PA.DistinctKeys(Filled(options, defaults, n))
  {
    if n > 0 {
      FilledDistinct(options, defaults, n - 1);
      FilledStep(options, defaults, n);
    }
  }

  /** One default adds at most its own key. */
  lemma FilledStep(options: Entries, defaults: Entries, n: nat)
    requires 0 < n <= |defaults|
    ensures forall x :: x in PA.Keys(Filled(options, defaults, n)) <==>
      x in PA.Keys(Filled(options, defaults, n - 1)) || x == defaults[n - 1].0
    ensures PA.DistinctKeys(Filled(options, defaults, n - 1)) ==> PA.DistinctKeys(Filled(options, defaults, n))
  {
    var prev, key, value := Filled(options, defaults, n - 1), defaults[n - 1].0, defaults[n - 1].1;
    var w := FilledValue(prev, key, value);
    FilledLast(options, defaults, n);
    PA.SetKeys(prev, key, w);
    PA.GetFacts(prev, key);
    if PA.DistinctKeys(prev) {
      PA.SetDistinct(prev, key, w);
    }
  }

  /**
   * The fill never overwrites a value that is set: a set scalar stays as
   * it is, and so does a set array, which only gains the keys the nested
   * defaults add.
   */
  lemma FillNeverOverwrites(options: Entries, defaults: Entries, i: nat)
    requires PA.DistinctKeys(defaults) && i < |defaults| && PA.IsSet(options, defaults[i].0)
    ensures var (key, value) := defaults[i];
      var current := PA.Get(options, key).value;
      PA.Get(FilledAll(options, defaults), key) ==
        if value.VArray? && current.VArray? then Some(PA.VArray(FilledAll(current.entries, value.entries)))
        else Some(current)
  {
    FilledAt(options, defaults, |defaults|, i);
  }

  /** A default whose key is not set is written: an array filled in from nothing, false for a boolean, the default itself otherwise. */
  lemma FillSuppliesMissing(options: Entries, defaults: Entries, i: nat)
    requires PA.DistinctKeys(defaults) && i < |defaults| && !PA.IsSet(options, defaults[i].0)
    ensures var (key, value) := defaults[i];
      PA.Get(FilledAll(options, defaults), key) ==
        Some(if value.VArray? then PA.VArray(FilledAll([], value.entries))
             else if value.VBool? then PA.VBool(false)
             else value)
  {
    FilledAt(options, defaults, |defaults|, i);
  }

  /** Keys the defaults do not have are left alone, and no key other than theirs is added. */
  lemma FillLeavesTheRest(options: Entries, defaults: Entries, k: PA.Key)
    ensures k !in PA.Keys(defaults) ==> PA.Get(FilledAll(options, defaults), k) == PA.Get(options, k)
    ensures k in PA.Keys(FilledAll(options, defaults)) <==> k in PA.Keys(options) || k in PA.Keys(defaults)
    ensures PA.DistinctKeys(options) ==> PA.DistinctKeys(FilledAll(options, defaults))
  {
    assert defaults[..|defaults|] == defaults;
    FilledKeys(options, defaults, |defaults|, k);
    if PA.DistinctKeys(options) {
      FilledDistinct(options, defaults, |defaults|);
    }
    if k !in PA.Keys(defaults) {
      FilledElsewhere(options, defaults, |defaults|, k);
    }
  }

  /** Every key path of `defaults` is found in `r`, as deep as `r` holds arrays along it. */
  predicate Covers(r: Entries, defaults: Entries)
    decreases PA.VArray(defaults)
  {
    forall i :: 0 <= i < |defaults| ==>
      PA.Get(r, defaults[i].0).Some? &&
      (defaults[i].1.VArray? && PA.Get(r, defaults[i].0).value.VArray? ==>
         Covers(PA.Get(r, defaults[i].0).value.entries, defaults[i].1.entries))
  }

  /** After the fill every key path of the defaults exists. */
  lemma {:induction false} FillCoversDefaults(options: Entries, defaults: Entries)
    requires WellKeyed(PA.VArray(defaults))
    ensures Covers(FilledAll(options, defaults), defaults)
    decreases PA.VArray(defaults)
  {
    var r := FilledAll(options, defaults);
    forall i | 0 <= i < |defaults|
      ensures PA.Get(r, defaults[i].0).Some?
      ensures defaults[i].1.VArray? && PA.Get(r, defaults[i].0).value.VArray? ==>
         Covers(PA.Get(r, defaults[i].0).value.entries, defaults[i].1.entries)
    {
      var (key, value) := defaults[i];
      FilledAt(options, defaults, |defaults|, i);
      if value.VArray? {
        var present := if PA.IsSet(options, key) then PA.Get(options, key).value else PA.VArray([]);
        if present.VArray? {
          FillCoversDefaults(present.entries, value.entries);
        }
      }
    }
  }

  // ---------------------------------------------------------------------
  // Walking a section's dictionary

  /**
   * Every group in `x` keeps distinct keys and, below the top, holds only
   * fields and fieldsets, and every field in it satisfies `ok`. A nested
   * section would make the walks below call a field method on it.
   */
  predicate Holds(x: DM.Item, ok: DM.Field -> bool)
    decreases x
  {
    match x
    case FieldItem(f) => ok(f)
    case GroupItem(_, _, _, _, dict) =>
      PA.DistinctKeys(dict) &&
      forall i :: 0 <= i < |dict| ==>
        (dict[i].1.GroupItem? ==> dict[i].1.kind == DM.FieldsetKind) && Holds(dict[i].1, ok)
  }

  predicate AnyField(f: DM.Field) { true }

  /** A field whose data type is `option` would make `filterOption` call itself without end. */
  predicate FilterableField(f: DM.Field) { OF.FilterFor(f.dataType) != Some(OF.SelfFilter) }

  /** A section or fieldset whose defaults can be collected. */
  predicate WellFormed(group: DM.Item)
  {
    group.GroupItem? && Holds(group, AnyField)
  }

  /** A section or fieldset whose options can be sanitised. */
  predicate Sanitisable(group: DM.Item)
  {
    group.GroupItem? && Holds(group, FilterableField)
  }

  /** What a group's dictionary holds under `k`, with the entry it comes from. */
  lemma DictionaryEntry(group: DM.Item, ok: DM.Field -> bool, k: PA.Key)
    requires group.GroupItem? && Holds(group, ok) && PA.Get(group.dictionary, k).Some?
    ensures var x := PA.Get(group.dictionary, k).value;
      && (exists i :: 0 <= i < |group.dictionary| && group.dictionary[i] == (k, x))
      && Holds(x, ok) && (x.GroupItem? ==> x.kind == DM.FieldsetKind)
  {
    PA.GetFacts(group.dictionary, k);
  }

  /**
   * Every key of `r` names an entry of the group's dictionary, and under a
   * fieldset's key there is an array that conforms to the fieldset in turn.
   */
  predicate Conforms(r: Entries, group: DM.Item)
    requires group.GroupItem?
    decreases group
  {
    (forall k :: k in PA.Keys(r) ==> k in PA.Keys(group.dictionary)) &&
    forall i :: 0 <= i < |group.dictionary| ==>
      (group.dictionary[i].1.GroupItem? && PA.Get(r, group.dictionary[i].0).Some? ==>
         PA.Get(r, group.dictionary[i].0).value.VArray? &&
         Conforms(PA.Get(r, group.dictionary[i].0).value.entries, group.dictionary[i].1))
  }

  // ---------------------------------------------------------------------
  // sanitisationCallback

  /**
   * The filter hook each sanitised value passes through,
   * `sitetree_data_controller_sanitised_option_value`, given the value, the
   * option's key and the ID of the section or fieldset it belongs to.
   */
  type OptionHook = (PA.Value, PA.Key, string) -> PA.Value

  /** How a field's submitted value is filtered before the hook sees it. */
  type FieldFilter = (PA.Value, DM.Field) -> PA.Value

  /** `SiteTreeOptionsFilter::filterOption` with the given sanitising functions, for every field it can filter. */
  function FilterOf(s: OF.Sanitizers): FieldFilter
  {
    (v: PA.Value, f: DM.Field) => if FilterableField(f) then OF.Filtered(v, f, s) else v
  }

  /** The hook applied to a filtered value. */
  function Hooked(hook: OptionHook, value: PA.Value, id: PA.Key, groupID: string): PA.Value
  {
    hook(value, id, groupID)
  }

  /** `(array) $options`: an array as it is, null as the empty array, any other value as its only entry, under 0. */
  function AsArray(v: PA.Value): Entries
  {
    match v
    case VArray(e) => e
    case VNull => []
    case _ => [(PA.IntKey(0), v)]
  }

  /**
   * The options once the first `n` submitted entries are dealt with: an
   * entry without a field is removed, a fieldset's entry is sanitised
   * against the fieldset, and a field's entry is filtered and passed
   * through the hook. The walk is stated for any field filter.
   */
  function Sanitised(group: DM.Item, options: Entries, n: nat, filter: FieldFilter, hook: OptionHook): Entries
    requires group.GroupItem? && n <= |options|
    decreases group, n
  {
    if n == 0 then options
    else
      var o := Sanitised(group, options, n - 1, filter, hook);
      var (id, value) := options[n - 1];
      match PA.Get(group.dictionary, id)
      case None => PA.RawUnset(o, id)
      case Some(field) =>
        PA.GetFacts(group.dictionary, id);
        if field.GroupItem? then
          var nested := AsArray(value);
          PA.RawSet(o, id, PA.VArray(Sanitised(field, nested, |nested|, filter, hook)))
        else
          PA.RawSet(o, id, Hooked(hook, filter(value, field.field), id, group.id))
  }

  /** One submitted entry more: removed without a field, written back sanitised with one. */
  lemma SanitisedStep(group: DM.Item, options: Entries, n: nat, filter: FieldFilter, hook: OptionHook)
    requires group.GroupItem? && 0 < n <= |options|
    ensures var (id, value) := options[n - 1];
      var o := Sanitised(group, options, n - 1, filter, hook);
      Sanitised(group, options, n, filter, hook) ==
        if PA.Get(group.dictionary, id).None? then PA.RawUnset(o, id)
        else PA.RawSet(o, id, SanitisedEntry(group, id, value, filter, hook))
  {
  }

  /** The submitted options, sanitised against the group. */
  function SanitisedAll(group: DM.Item, v: PA.Value, filter: FieldFilter, hook: OptionHook): Entries
    requires group.GroupItem?
  {
    Sanitised(group, AsArray(v), |AsArray(v)|, filter, hook)
  }

  /** What sanitising leaves for a submitted `value` under the key `id` of a field or fieldset. */
  function SanitisedEntry(group: DM.Item, id: PA.Key, value: PA.Value, filter: FieldFilter, hook: OptionHook): PA.Value
    requires group.GroupItem? && PA.Get(group.dictionary, id).Some?
  {
    var field := PA.Get(group.dictionary, id).value;
    PA.GetFacts(group.dictionary, id);
    if field.GroupItem? then PA.VArray(SanitisedAll(field, value, filter, hook))
    else Hooked(hook, filter(value, field.field), id, group.id)
  }

  /**
   * `sanitisationCallback`: each submitted entry is looked up in the
   * group's dictionary and removed, sanitised against a fieldset, or
   * filtered by `SiteTreeOptionsFilter` and the hook.
   */
  method SanitisationCallback(group: DM.Item, value: PA.Value, s: OF.Sanitizers, hook: OptionHook)
    returns (options: Entries)
    requires Sanitisable(group)
    ensures options == SanitisedAll(group, value, FilterOf(s), hook)
    decreases group, 1
  {
    var submitted := AsArray(value);
    options := submitted;
    var i := 0;
    while i < |submitted|
      invariant 0 <= i <= |submitted|
      invariant options == Sanitised(group, submitted, i, FilterOf(s), hook)
    {
      var (id, optionValue) := submitted[i];
      SanitisedStep(group, submitted, i + 1, FilterOf(s), hook);
      options := SanitiseOption(group, options, id, optionValue, s, hook);
      i := i + 1;
    }
  }

  /** One pass of the loop of `sanitisationCallback`, for the entry `id => value`. */
  method SanitiseOption(group: DM.Item, options: Entries, id: PA.Key, value: PA.Value, s: OF.Sanitizers, hook: OptionHook)
    returns (r: Entries)
    requires Sanitisable(group)
    ensures r == if PA.Get(group.dictionary, id).None? then PA.RawUnset(options, id)
                 else PA.RawSet(options, id, SanitisedEntry(group, id, value, FilterOf(s), hook))
    decreases group, 0
  {
    var field := PA.Get(group.dictionary, id);
    if field.Some? {
      DictionaryEntry(group, FilterableField, id);
      if field.value.GroupItem? {
        var nested := SanitisationCallback(field.value, value, s, hook);
        r := PA.Set(options, id, PA.VArray(nested));
      } else {
        var filtered := FilterField(field.value.field, value, s);
        r := PA.Set(options, id, Hooked(hook, filtered, id, group.id));
      }
    } else {
      r := PA.Unset(options, id);
    }
  }

  /** `new SiteTreeOptionsFilter($option_value, $field)` and its `filterOption`. */
  method FilterField(field: DM.Field, value: PA.Value, s: OF.Sanitizers) returns (filtered: PA.Value)
    requires FilterableField(field)
    ensures filtered == OF.Filtered(value, field, s) == FilterOf(s)(value, field)
  {
    var filter := new OF.OptionsFilter(value, field, s);
    filtered := filter.FilterOption();
  }

  /** Entries with distinct keys, each of whose values is a PHP array at every depth. */
  lemma AsArrayWellKeyed(v: PA.Value)
    requires WellKeyed(v)
    ensures PA.DistinctKeys(AsArray(v))
    ensures forall i :: 0 <= i < |AsArray(v)| ==> WellKeyed(AsArray(v)[i].1)
  {
  }

  /** A key none of the first `n` submitted entries has keeps what the options hold under it. */
  lemma {:induction false} SanitisedElsewhere(group: DM.Item, options: Entries, n: nat, filter: FieldFilter, hook: OptionHook, k: PA.Key)
    requires group.GroupItem? && n <= |options| && k !in PA.Keys(options[..n])
    ensures PA.Get(Sanitised(group, options, n, filter, hook), k) == PA.Get(options, k)
  {
    if n > 0 {
      PA.KeysOfPrefix(options, n - 1);
      assert options[..n - 1 + 1] == options[..n];
      SanitisedElsewhere(group, options, n - 1, filter, hook, k);
      SanitisedOther(group, options, n, filter, hook, k);
    }
  }

  /** An entry leaves the other keys alone. */
  lemma SanitisedOther(group: DM.Item, options: Entries, n: nat, filter: FieldFilter, hook: OptionHook, k: PA.Key)
    requires group.GroupItem? && 0 < n <= |options| && k != options[n - 1].0
    ensures PA.Get(Sanitised(group, options, n, filter, hook), k) == PA.Get(Sanitised(group, options, n - 1, filter, hook), k)
  {
    var (id, value) := options[n - 1];
    var o := Sanitised(group, options, n - 1, filter, hook);
    SanitisedStep(group, options, n, filter, hook);
    if PA.Get(group.dictionary, id).None? {
      PA.UnsetFacts(o, id);
    } else {
      PA.SetGetOther(o, id, SanitisedEntry(group, id, value, filter, hook), k);
    }
  }

  /** Under the key of one of the first `n` submitted entries: nothing without a field, the sanitised entry with one. */
  lemma {:induction false} SanitisedAt(group: DM.Item, options: Entries, n: nat, filter: FieldFilter, hook: OptionHook, i: nat)
    requires group.GroupItem? && PA.DistinctKeys(options) && i < n <= |options|
    ensures var (id, value) := options[i];
      PA.Get(Sanitised(group, options, n, filter, hook), id) ==
        if PA.Get(group.dictionary, id).Some? then Some(SanitisedEntry(group, id, value, filter, hook)) else None
  {
    var (id, value) := options[i];
    if i == n - 1 {
      var o := Sanitised(group, options, n - 1, filter, hook);
      var r := Sanitised(group, options, n, filter, hook);
      SanitisedStep(group, options, n, filter, hook);
      if PA.Get(group.dictionary, id).None? {
        PA.UnsetFacts(o, id);
        PA.GetFacts(r, id);
      } else {
        PA.SetGet(o, id, SanitisedEntry(group, id, value, filter, hook));
      }
    } else {
      SanitisedAt(group, options, n - 1, filter, hook, i);
      SanitisedOther(group, options, n, filter, hook, id);
    }
  }

  /**
   * Sanitising keeps exactly the submitted keys that have a field or a
   * fieldset in the group, each with its sanitised value, and drops every
   * other key.
   */
  lemma SanitisationKeepsOnlyFields(group: DM.Item, v: PA.Value, filter: FieldFilter, hook: OptionHook, k: PA.Key)
    requires group.GroupItem? && WellKeyed(v)
    ensures var r, submitted := SanitisedAll(group, v, filter, hook), AsArray(v);
      && (k in PA.Keys(r) <==> k in PA.Keys(submitted) && k in PA.Keys(group.dictionary))
      && (PA.Get(submitted, k).Some? && PA.Get(group.dictionary, k).Some? ==>
            PA.Get(r, k) == Some(SanitisedEntry(group, k, PA.Get(submitted, k).value, filter, hook)))
  {
    var r, submitted := SanitisedAll(group, v, filter, hook), AsArray(v);
    AsArrayWellKeyed(v);
    PA.GetFacts(r, k);
    PA.GetFacts(submitted, k);
    PA.GetFacts(group.dictionary, k);
    if k in PA.Keys(submitted) {
      var i :| 0 <= i < |submitted| && submitted[i].0 == k;
      SanitisedAt(group, submitted, |submitted|, filter, hook, i);
    } else {
      assert submitted[..|submitted|] == submitted;
      SanitisedElsewhere(group, submitted, |submitted|, filter, hook, k);
    }
  }

  /** At every depth, sanitised options hold only keys with a field or fieldset, and an array under each fieldset's key. */
  lemma {:induction false} SanitisedConforms(group: DM.Item, v: PA.Value, filter: FieldFilter, hook: OptionHook)
    requires WellFormed(group) && WellKeyed(v)
    ensures Conforms(SanitisedAll(group, v, filter, hook), group)
    decreases group
  {
    var r, submitted := SanitisedAll(group, v, filter, hook), AsArray(v);
    var dict := group.dictionary;
    AsArrayWellKeyed(v);
    forall k | k in PA.Keys(r) ensures k in PA.Keys(dict) {
      SanitisationKeepsOnlyFields(group, v, filter, hook, k);
    }
    forall i | 0 <= i < |dict| && dict[i].1.GroupItem? && PA.Get(r, dict[i].0).Some?
      ensures PA.Get(r, dict[i].0).value.VArray? && Conforms(PA.Get(r, dict[i].0).value.entries, dict[i].1)
    {
      var (k, x) := dict[i];
      PA.GetFacts(r, k);
      SanitisationKeepsOnlyFields(group, v, filter, hook, k);
      PA.GetFacts(dict, k);
      assert PA.Get(dict, k) == Some(x);
      PA.GetFacts(submitted, k);
      var j :| 0 <= j < |submitted| && submitted[j] == (k, PA.Get(submitted, k).value);
      assert Holds(x, AnyField);
      SanitisedConforms(x, submitted[j].1, filter, hook);
    }
  }

  // ---------------------------------------------------------------------
  // defaultsCallback

  /** The defaults after the first `n` dictionary entries: each key mapped to its field's default, or to a fieldset's own defaults. */
  function Defaults(group: DM.Item, n: nat): Entries
    requires WellFormed(group) && n <= |group.dictionary|
    decreases group, n
  {
    if n == 0 then []
    else
      var (k, x) := group.dictionary[n - 1];
      var d := if x.GroupItem? then PA.VArray(Defaults(x, |x.dictionary|)) else x.field.defaultValue;
      PA.RawSet(Defaults(group, n - 1), k, d)
  }

  function DefaultsOf(group: DM.Item): Entries
    requires WellFormed(group)
  {
    Defaults(group, |group.dictionary|)
  }

  /** What one dictionary entry contributes: a field's default, or a fieldset's defaults as an array. */
  function DefaultOf(x: DM.Item): PA.Value
    requires x.GroupItem? ==> WellFormed(x)
  {
    if x.GroupItem? then PA.VArray(DefaultsOf(x)) else x.field.defaultValue
  }

  /** `defaultsCallback`: walks the dictionary in order, recursing into fieldsets. */
  method DefaultsCallback(group: DM.Item) returns (defaults: Entries)
    requires WellFormed(group)
    ensures defaults == DefaultsOf(group)
    decreases group
  {
    var fields := group.dictionary;
    defaults := [];
    for i := 0 to |fields|
      invariant defaults == Defaults(group, i)
    {
      var (id, field) := fields[i];
      var value;
      if field.GroupItem? {
        var nested := DefaultsCallback(field);
        value := PA.VArray(nested);
      } else {
        value := field.field.defaultValue;
      }
      defaults := PA.RawSet(defaults, id, value);
    }
  }

  /** The defaults list the dictionary's keys in its order, each with its entry's default. */
  lemma {:induction false} DefaultsShape(group: DM.Item, n: nat)
    requires WellFormed(group) && n <= |group.dictionary|
    ensures var r, dict := Defaults(group, n), group.dictionary;
      && |r| == n
      && forall i :: 0 <= i < n ==> r[i] == (dict[i].0, DefaultOf(dict[i].1))
  {
    if n > 0 {
      var dict := group.dictionary;
      var before, k, x := Defaults(group, n - 1), dict[n - 1].0, dict[n - 1].1;
      assert Defaults(group, n) == PA.RawSet(before, k, DefaultOf(x));
      DefaultsShape(group, n - 1);
      assert k !in PA.Keys(before) by {
        assert PA.Keys(before) == PA.Keys(dict[..n - 1]);
      }
      PA.RawSetNew(before, k, DefaultOf(x));
      var r := Defaults(group, n);
      assert r == before + [(k, DefaultOf(x))];
      forall i | 0 <= i < n ensures r[i] == (dict[i].0, DefaultOf(dict[i].1)) {
        if i < n - 1 {
          assert r[i] == before[i];
        }
      }
    }
  }

  /** The defaults have the shape a sanitised submission has: only dictionary keys, an array under each fieldset. */
  lemma {:induction false} DefaultsConform(group: DM.Item)
    requires WellFormed(group)
    ensures Conforms(DefaultsOf(group), group)
    decreases group
  {
    var r, dict := DefaultsOf(group), group.dictionary;
    DefaultsShape(group, |dict|);
    assert PA.Keys(r) == PA.Keys(dict);
    forall i | 0 <= i < |dict| && dict[i].1.GroupItem? && PA.Get(r, dict[i].0).Some?
      ensures PA.Get(r, dict[i].0).value.VArray? && Conforms(PA.Get(r, dict[i].0).value.entries, dict[i].1)
    {
      assert PA.DistinctKeys(r);
      PA.GetFacts(r, dict[i].0);
      assert PA.Get(r, dict[i].0) == Some(PA.VArray(DefaultsOf(dict[i].1)));
      DefaultsConform(dict[i].1);
    }
  }

  // ---------------------------------------------------------------------
  // The controller: pages and registered sections

  /** What one admin page is built from. */
  datatype PagePlan = PagePlan(id: string, title: string, menuTitle: string, viewClass: string, controllerClass: string)

  const DashboardPlan := PagePlan("dashboard", "SiteTree Dashboard", "Dashboard", "DashboardPageView", "DashboardController")
  const SiteTreePlan := PagePlan("site_tree", "Site Tree Settings", "Site Tree Settings", "PageView", "PageController")
  const AdvancedPlan := PagePlan("advanced", "Advanced Settings", "Advanced Settings", "PageView", "PageController")

  /** The pages `pages()` builds, in order; the Site Tree settings page only when it is included. */
  function PagePlans(includeSiteTree: bool): seq<PagePlan>
  {
    [DashboardPlan] + (if includeSiteTree then [SiteTreePlan] else []) + [AdvancedPlan]
  }

  /** The dashboard comes first and the advanced settings last; the Site Tree page is listed exactly when included, in between. */
  lemma PagePlansOrder(includeSiteTree: bool)
    ensures var r := PagePlans(includeSiteTree);
      && |r| >= 2 && r[0].id == "dashboard" && r[|r| - 1].id == "advanced"
      && ((exists i :: 0 <= i < |r| && r[i].id == "site_tree") <==> includeSiteTree)
      && (includeSiteTree ==> r[1].id == "site_tree")
      && forall i, j :: 0 <= i < j < |r| ==> r[i].id != r[j].id
  {
    var r := PagePlans(includeSiteTree);
    var d, t, a := DashboardPlan.id, SiteTreePlan.id, AdvancedPlan.id;
    assert d[0] == 'd' && t[0] == 's' && a[0] == 'a';
    assert d != t && t != a && d != a;
    if !includeSiteTree {
      assert r == [DashboardPlan, AdvancedPlan];
    } else {
      assert r == [DashboardPlan, SiteTreePlan, AdvancedPlan];
      assert r[1].id == t;
    }
  }

  /** The pages are those the plans describe, in the plugin's namespace and with no menu ID. */
  predicate BuiltFrom(ps: seq<DM.Page>, plans: seq<PagePlan>, namespace: string)
  {
    |ps| == |plans| &&
    forall i :: 0 <= i < |ps| ==>
      ps[i].namespace == namespace && ps[i].menuID == "" && ps[i].id == plans[i].id &&
      ps[i].title == plans[i].title && ps[i].menuTitle == plans[i].menuTitle &&
      ps[i].viewClass == plans[i].viewClass && ps[i].controllerClass == plans[i].controllerClass
  }

  /** The sections registered for each page, by page ID and then by section ID or position. */
  type Sections = seq<(PA.Key, seq<(PA.Key, DM.Item)>)>

  /** The page a section is registered for: the one named, or else the one whose data is loading. */
  function TargetPage(pageID: string, loading: string): string
  {
    if pageID == "" then loading else pageID
  }

  /** The sections once `section` is registered for `pageID`: under its ID when that is truthy, else appended. */
  function Stored(sections: Sections, pageID: string, section: DM.Item): Sections
  {
    var pk := PA.KeyOfString(pageID);
    var group := PA.Get(sections, pk).GetOr([]);
    var sid := DM.ItemID(section);
    PA.RawSet(sections, pk, if PA.TruthyString(sid) then PA.RawSet(group, PA.KeyOfString(sid), section) else PA.Append(group, section))
  }

  /** What `getSections` gives for a page: the one section asked for, keyed by its ID, or all of them when none is asked for. */
  function SectionsIn(sections: Sections, pageID: string, sectionID: string): seq<(PA.Key, DM.Item)>
  {
    var group := PA.Get(sections, PA.KeyOfString(pageID));
    if PA.TruthyString(sectionID) then
      var sk := PA.KeyOfString(sectionID);
      if group.Some? && PA.Get(group.value, sk).Some? then [(sk, PA.Get(group.value, sk).value)] else []
    else group.GetOr([])
  }

  /** Every page's sections, and the pages themselves, have distinct keys. */
  predicate SectionsKeyed(sections: Sections)
  {
    PA.DistinctKeys(sections) && forall i :: 0 <= i < |sections| ==> PA.DistinctKeys(sections[i].1)
  }

  /** A section registered under a truthy ID is what asking for that ID then gives, alone. */
  lemma RegisterThenGet(sections: Sections, pageID: string, section: DM.Item)
    requires PA.TruthyString(DM.ItemID(section))
    ensures SectionsIn(Stored(sections, pageID, section), pageID, DM.ItemID(section)) == [(DM.KeyOf(section), section)]
  {
    var pk := PA.KeyOfString(pageID);
    var group := PA.Get(sections, pk).GetOr([]);
    var g := PA.RawSet(group, DM.KeyOf(section), section);
    PA.SetGet(sections, pk, g);
    PA.SetGet(group, DM.KeyOf(section), section);
  }

  /**
   * Registering changes all of the page's sections only as `registerSection`
   * promises: an ID-less section is appended at the next integer key, any
   * other is written under its ID and the rest stay as they were.
   */
  lemma RegisterThenGetAll(sections: Sections, pageID: string, section: DM.Item, k: PA.Key)
    ensures var before, after := SectionsIn(sections, pageID, ""), SectionsIn(Stored(sections, pageID, section), pageID, "");
      && (!PA.TruthyString(DM.ItemID(section)) ==> after == before + [(PA.IntKey(PA.NextIndex(before)), section)])
      && (PA.TruthyString(DM.ItemID(section)) ==>
            && PA.Get(after, DM.KeyOf(section)) == Some(section)
            && (k != DM.KeyOf(section) ==> PA.Get(after, k) == PA.Get(before, k))
            && (k in PA.Keys(after) <==> k in PA.Keys(before) || k == DM.KeyOf(section)))
  {
    var pk := PA.KeyOfString(pageID);
    var group := PA.Get(sections, pk).GetOr([]);
    var g := if PA.TruthyString(DM.ItemID(section)) then PA.RawSet(group, DM.KeyOf(section), section) else PA.Append(group, section);
    PA.SetGet(sections, pk, g);
    PA.SetFacts(group, DM.KeyOf(section), section);
  }

  /** Registering for one page leaves what every other page gives unchanged. */
  lemma RegisterElsewhere(sections: Sections, pageID: string, section: DM.Item, otherPage: string, sectionID: string)
    requires PA.KeyOfString(otherPage) != PA.KeyOfString(pageID)
    ensures SectionsIn(Stored(sections, pageID, section), otherPage, sectionID) == SectionsIn(sections, otherPage, sectionID)
  {
    var pk := PA.KeyOfString(pageID);
    var group := PA.Get(sections, pk).GetOr([]);
    var sid := DM.ItemID(section);
    var g := if PA.TruthyString(sid) then PA.RawSet(group, PA.KeyOfString(sid), section) else PA.Append(group, section);
    PA.SetGetOther(sections, pk, g, PA.KeyOfString(otherPage));
  }

  /** Asking for a section ID gives that one section when the page has it, and nothing otherwise. */
  lemma GetSectionByID(sections: Sections, pageID: string, sectionID: string)
    requires PA.TruthyString(sectionID)
    ensures var r, sk := SectionsIn(sections, pageID, sectionID), PA.KeyOfString(sectionID);
      var group := PA.Get(sections, PA.KeyOfString(pageID)).GetOr([]);
      && |r| <= 1
      && (r == [] <==> sk !in PA.Keys(group))
      && (r != [] ==> r[0].0 == sk && (sk, r[0].1) in group)
  {
    var group := PA.Get(sections, PA.KeyOfString(pageID)).GetOr([]);
    var sk := PA.KeyOfString(sectionID);
    PA.GetFacts(group, sk);
    PA.GetFacts(sections, PA.KeyOfString(pageID));
  }

  /** Registering keeps every key distinct. */
  lemma StoredKeyed(sections: Sections, pageID: string, section: DM.Item)
    requires SectionsKeyed(sections)
    ensures SectionsKeyed(Stored(sections, pageID, section))
  {
    var pk := PA.KeyOfString(pageID);
    var group := PA.Get(sections, pk).GetOr([]);
    var sid := DM.ItemID(section);
    var g := if PA.TruthyString(sid) then PA.RawSet(group, PA.KeyOfString(sid), section) else PA.Append(group, section);
    PA.GetFacts(sections, pk);
    assert PA.DistinctKeys(group);
    if PA.TruthyString(sid) {
      PA.SetDistinct(group, PA.KeyOfString(sid), section);
    }
    var r := PA.RawSet(sections, pk, g);
    PA.SetDistinct(sections, pk, g);
    forall i | 0 <= i < |r| ensures PA.DistinctKeys(r[i].1) {
      PA.GetFacts(r, r[i].0);
      if r[i].0 == pk {
        PA.SetGet(sections, pk, g);
      } else {
        PA.SetGetOther(sections, pk, g, r[i].0);
        PA.GetFacts(sections, r[i].0);
      }
    }
  }

  /** `DataController`: the plugin's admin pages and the sections registered for them. */
  class DataController {
    const pluginID: string
    /** The memoised pages; empty until first asked for. */
    var pages: seq<DM.Page>
    var sections: Sections
    /** The page whose data file is being loaded; set only while sections are loaded. */
    var currentlyLoadingDataID: string

    constructor(pluginID: string)
      ensures this.pluginID == pluginID && pages == [] && sections == [] && currentlyLoadingDataID == ""
    {
      this.pluginID := pluginID;
      pages := [];
      sections := [];
      currentlyLoadingDataID := "";
    }

    /** A new page of the plugin's namespace, as `plan` describes it. */
    method Build(plan: PagePlan) returns (page: DM.Page)
      ensures fresh(page) && BuiltFrom([page], [plan], pluginID)
    {
      page := new DM.Page(pluginID, plan.id, "", plan.title, plan.menuTitle, plan.viewClass, plan.controllerClass);
    }

    /**
     * `pages()`: built on the first call, with the Site Tree page when
     * non-active pages are included or the Site Tree is active; every later
     * call gives the same pages back.
     */
    method Pages(includeNonActive: bool, siteTreeActive: bool) returns (ps: seq<DM.Page>)
      modifies this`pages
      ensures ps == pages
      ensures old(pages) != [] ==> pages == old(pages)
      ensures old(pages) == [] ==> BuiltFrom(pages, PagePlans(includeNonActive || siteTreeActive), pluginID)
    {
      if pages == [] {
        var dashboard := Build(DashboardPlan);
        pages := [dashboard];
        if includeNonActive || siteTreeActive {
          var siteTree := Build(SiteTreePlan);
          pages := pages + [siteTree];
        }
        var advanced := Build(AdvancedPlan);
        pages := pages + [advanced];
      }
      ps := pages;
    }

    /** `page($id)`: the first page with that ID, or none. */
    method Page(id: string) returns (page: Option<DM.Page>)
      modifies this`pages
      ensures old(pages) != [] ==> pages == old(pages)
      ensures old(pages) == [] ==> BuiltFrom(pages, PagePlans(true), pluginID)
      ensures page.None? <==> forall i :: 0 <= i < |pages| ==> pages[i].id != id
      ensures page.Some? ==> exists i :: 0 <= i < |pages| && pages[i] == page.value && pages[i].id == id &&
                                        forall j :: 0 <= j < i ==> pages[j].id != id
    {
      var ps := Pages(true, false);
      for i := 0 to |ps|
        invariant forall j :: 0 <= j < i ==> ps[j].id != id
      {
        if ps[i].id == id {
          return Some(ps[i]);
        }
      }
      return None;
    }

    /** `registerSection`: an empty page ID means the page being loaded. */
    method RegisterSection(section: DM.Item, pageID: string)
      modifies this`sections
      ensures sections == Stored(old(sections), TargetPage(pageID, currentlyLoadingDataID), section)
      ensures SectionsKeyed(old(sections)) ==> SectionsKeyed(sections)
    {
      ghost var before := sections;
      var pk := PA.KeyOfString(TargetPage(pageID, currentlyLoadingDataID));
      var sectionID := DM.ItemID(section);
      var group := PA.Get(sections, pk).GetOr([]);
      if PA.TruthyString(sectionID) {
        group := PA.RawSet(group, PA.KeyOfString(sectionID), section);
      } else {
        group := PA.Append(group, section);
      }
      sections := PA.RawSet(sections, pk, group);
      if SectionsKeyed(before) {
        StoredKeyed(before, TargetPage(pageID, currentlyLoadingDataID), section);
      }
    }

    /** `getSections`: an empty page ID means the page being loaded. */
    function GetSections(sectionID: string, pageID: string): seq<(PA.Key, DM.Item)>
      reads this
    {
      SectionsIn(sections, TargetPage(pageID, currentlyLoadingDataID), sectionID)
    }
  }
}

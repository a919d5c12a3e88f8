/**
 * lib/kegPresets.ts: the built-in keg presets, loading them merged with what
 * the browser's local storage holds, saving, updating one entry and resetting.
 *
 * Local storage is one optional text cell (`item`); `JSON.parse` and
 * `JSON.stringify` are the functions `parse` and `stringify` (parse failure is
 * `None`). `typeof window === 'undefined'` (rendering on the server) is
 * `browser == false`. The live contents of the `DEFAULT_KEG_PRESETS` object are
 * the field `defaultsObj`, because `getKegPresets` hands out that very object.
 */
module KegPresets {
  import opened Wrappers

  datatype KegPreset = KegPreset(
    name: string,
    capacityLiters: real,
    emptyWeightGrams: real,
    fullWeightGrams: real,
    description: string)

  /** `Partial<KegPreset>`: a field that is `None` is absent. */
  datatype PresetPatch = PresetPatch(
    name: Option<string>,
    capacityLiters: Option<real>,
    emptyWeightGrams: Option<real>,
    fullWeightGrams: Option<real>,
    description: Option<string>)

  datatype PresetKey = HalfBarrel | QuarterBarrel | SixthBarrel | Cornelius | Custom {
    /** The property name the key has in the stored JSON object. */
    function Name(): string {
      match this
      case HalfBarrel => "half-barrel"
      case QuarterBarrel => "quarter-barrel"
      case SixthBarrel => "sixth-barrel"
      case Cornelius => "cornelius"
      case Custom => "custom"
    }
  }

  /** A record of presets by property name, as a JavaScript object holds them. */
  type Presets = map<string, KegPreset>

  /** The storage key the presets live under. */
  const StorageKey: string := "keg-presets"

  function DefaultPresets(): (d: Presets)
    ensures |d| == 5
    ensures forall k: PresetKey :: k.Name() in d
    ensures forall name :: name in d ==> d[name].fullWeightGrams > d[name].emptyWeightGrams >= 0.0
  {
    var d := map[
      "half-barrel" := KegPreset("Half Barrel", 58.67, 13500.0, 72800.0, "15.5 gallons (standard US keg)"),
      "quarter-barrel" := KegPreset("Quarter Barrel", 29.34, 8200.0, 38100.0, "7.75 gallons (pony keg)"),
      "sixth-barrel" := KegPreset("Sixth Barrel", 19.53, 6800.0, 26600.0, "5.16 gallons (sixtel)"),
      "cornelius" := KegPreset("Cornelius Keg", 19.0, 4000.0, 23000.0, "5 gallons (homebrew keg)"),
      "custom" := KegPreset("Custom", 58.67, 13500.0, 72800.0, "Enter custom values")];
    assert d.Keys == {"half-barrel", "quarter-barrel", "sixth-barrel", "cornelius", "custom"};
    d
  }

  /** Every one of the five keys has an entry. */
  predicate HasAllKeys(p: Presets) {
    forall k: PresetKey :: k.Name() in p
  }

  /** `{ ...presets[key], ...patch }`: the fields present in the patch win. */
  function ApplyPatch(p: KegPreset, patch: PresetPatch): (q: KegPreset)
    ensures q.name == patch.name.GetOr(p.name)
    ensures q.capacityLiters == patch.capacityLiters.GetOr(p.capacityLiters)
    ensures q.emptyWeightGrams == patch.emptyWeightGrams.GetOr(p.emptyWeightGrams)
    ensures q.fullWeightGrams == patch.fullWeightGrams.GetOr(p.fullWeightGrams)
    ensures q.description == patch.description.GetOr(p.description)
    ensures patch == PresetPatch(None, None, None, None, None) ==> q == p
  {
    KegPreset(
      patch.name.GetOr(p.name),
      patch.capacityLiters.GetOr(p.capacityLiters),
      patch.emptyWeightGrams.GetOr(p.emptyWeightGrams),
      patch.fullWeightGrams.GetOr(p.fullWeightGrams),
      patch.description.GetOr(p.description))
  }

  /**
   * True when `getKegPresets` answers the defaults object itself rather than
   * a fresh merge: on the server, with nothing (or the empty text) stored, or
   * when parsing fails.
   */
  predicate LoadsDefaultsObject(browser: bool, item: Option<string>, parse: string -> Option<Presets>): (r: bool)
    ensures !r ==> browser && item.Some? && item.value != "" && parse(item.value).Some?
  {
    !browser || item.None? || item.value == "" || parse(item.value).None?
  }

  /**
   * `getKegPresets` as a function of the defaults, the stored text and the
   * parser: the defaults, overlaid key by key with what was stored.
   */
  function Loaded(browser: bool, defaults: Presets, item: Option<string>, parse: string -> Option<Presets>): (r: Presets)
    ensures LoadsDefaultsObject(browser, item, parse) ==> r == defaults
    ensures !LoadsDefaultsObject(browser, item, parse) ==>
              && var stored := parse(item.value).value;
              && r.Keys == defaults.Keys + stored.Keys
              && (forall k :: k in stored ==> r[k] == stored[k])
              && (forall k :: k in defaults && k !in stored ==> r[k] == defaults[k])
    ensures defaults.Keys <= r.Keys
  {
    if LoadsDefaultsObject(browser, item, parse) then defaults
    else defaults + parse(item.value).value
  }

  /**
   * Saving a record that holds every default key and loading it again gives
   * that same record back, provided `parse` reads back what `stringify` wrote.
   */
  lemma SaveThenLoad(defaults: Presets, p: Presets, parse: string -> Option<Presets>, stringify: Presets -> string)
    requires defaults.Keys <= p.Keys
    requires stringify(p) != ""
    requires parse(stringify(p)) == Some(p)
    ensures Loaded(true, defaults, Some(stringify(p)), parse) == p
  {
    var r := Loaded(true, defaults, Some(stringify(p)), parse);
    assert r.Keys == p.Keys;
    assert forall k :: k in r ==> r[k] == p[k];
  }

  /** With the storage key removed, loading gives the defaults. */
  lemma ResetThenLoad(browser: bool, defaults: Presets, parse: string -> Option<Presets>)
    ensures Loaded(browser, defaults, None, parse) == defaults
  {
  }

  /** The store: the defaults object and the local-storage cell, with the codec. */
  class PresetStore {
    const browser: bool
    const parse: string -> Option<Presets>
    const stringify: Presets -> string
    var defaultsObj: Presets
    var item: Option<string>

    ghost predicate Valid()
      reads this
    {
      HasAllKeys(defaultsObj)
    }

    /** The defaults object still holds the built-in values. */
    ghost predicate Pristine()
      reads this
    {
      defaultsObj == DefaultPresets()
    }

    constructor (browser: bool, parse: string -> Option<Presets>, stringify: Presets -> string, item: Option<string>)
      ensures Valid() && Pristine()
      ensures this.browser == browser && this.parse == parse && this.stringify == stringify
      ensures this.item == item
    {
      this.browser := browser;
      this.parse := parse;
      this.stringify := stringify;
      this.item := item;
      defaultsObj := DefaultPresets();
    }

    /** `getKegPresets()`. */
    function Load(): (r: Presets)
      reads this
      requires Valid()
      ensures HasAllKeys(r)
      ensures r == Loaded(browser, defaultsObj, item, parse)
    {
      Loaded(browser, defaultsObj, item, parse)
    }

    /** `saveKegPresets(p)`: writes the JSON text, except on the server. */
    method Save(p: Presets)
      modifies this`item
      ensures item == if browser then Some(stringify(p)) else old(item)
    {
      if browser {
        item := Some(stringify(p));
      }
    }

    /** `resetKegPresets()`: removes the stored text, except on the server. */
    method Reset()
      modifies this`item
      ensures item == if browser then None else old(item)
      ensures browser && Valid() ==> Load() == defaultsObj
    {
      if browser {
        item := None;
      }
    }

    /**
     * `updateKegPreset` as written: it writes the patched entry into the object
     * `getKegPresets` returned, which is `DEFAULT_KEG_PRESETS` itself whenever
     * nothing usable is stored, so the built-in defaults change too.
     */
    method UpdateAsWritten(key: PresetKey, patch: PresetPatch)
      requires Valid()
      modifies this
      ensures Valid()
      ensures var updated := old(Load())[key.Name() := ApplyPatch(old(Load())[key.Name()], patch)];
              && item == (if browser then Some(stringify(updated)) else old(item))
              && defaultsObj == (if old(LoadsDefaultsObject(browser, item, parse)) then updated else old(defaultsObj))
    {
      var presets := Load();
      var aliased := LoadsDefaultsObject(browser, item, parse);
      presets := presets[key.Name() := ApplyPatch(presets[key.Name()], patch)];
      if aliased {
        defaultsObj := presets;
      }
      Save(presets);
    }

    /**
     * `updateKegPreset` as intended: the patched record is a copy, the defaults
     * are left alone, and only entry `key` differs from what was loaded.
     */
    method Update(key: PresetKey, patch: PresetPatch)
      requires Valid()
      modifies this`item
      ensures Valid() && defaultsObj == old(defaultsObj)
      ensures var updated := old(Load())[key.Name() := ApplyPatch(old(Load())[key.Name()], patch)];
              && item == (if browser then Some(stringify(updated)) else old(item))
              && (browser && stringify(updated) != "" && parse(stringify(updated)) == Some(updated) ==> Load() == updated)
    {
      var presets := Load();
      presets := presets[key.Name() := ApplyPatch(presets[key.Name()], patch)];
      Save(presets);
      if browser && stringify(presets) != "" && parse(stringify(presets)) == Some(presets) {
        SaveThenLoad(defaultsObj, presets, parse, stringify);
      }
    }
  }

  /**
   * With nothing stored, updating the Cornelius entry as written and then
   * resetting no longer loads the built-in presets.
   */
  method UpdateResetAsWritten() returns (loaded: Presets)
    ensures loaded != DefaultPresets()
    ensures "cornelius" in loaded && loaded["cornelius"].fullWeightGrams == 1.0
  {
    var store := new PresetStore(true, (s: string) => None, (p: Presets) => "{}", None);
    store.UpdateAsWritten(Cornelius, PresetPatch(None, None, None, Some(1.0), None));
    store.Reset();
    loaded := store.Load();
    assert Cornelius.Name() in loaded;
  }

  /** The same sequence with the corrected update loads the built-in presets. */
  method UpdateResetCorrected() returns (loaded: Presets)
    ensures loaded == DefaultPresets()
  {
    var store := new PresetStore(true, (s: string) => None, (p: Presets) => "{}", None);
    store.Update(Cornelius, PresetPatch(None, None, None, Some(1.0), None));
    store.Reset();
    loaded := store.Load();
  }
}

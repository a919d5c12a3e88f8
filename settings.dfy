/**
 * The preset settings page (app/settings/page.tsx): the loaded presets, the
 * key being edited and the edit form, with the handlers that open, change,
 * save and cancel an edit and that reset every preset.
 *
 * The browser's `confirm` dialog is the parameter `confirmed`; the form's
 * `parseFloat` of the typed text is done by the caller.
 */
module Settings {
  import opened Wrappers
  import opened KegPresets

  /** The three numeric inputs of the edit form. */
  datatype FormField = Capacity | EmptyWeight | FullWeight

  /** The form's record after one of its inputs changed. */
  function WithField(form: KegPreset, field: FormField, value: real): (r: KegPreset)
    ensures r.name == form.name && r.description == form.description
    ensures r.capacityLiters == (if field == Capacity then value else form.capacityLiters)
    ensures r.emptyWeightGrams == (if field == EmptyWeight then value else form.emptyWeightGrams)
    ensures r.fullWeightGrams == (if field == FullWeight then value else form.fullWeightGrams)
  {
    match field
    case Capacity => form.(capacityLiters := value)
    case EmptyWeight => form.(emptyWeightGrams := value)
    case FullWeight => form.(fullWeightGrams := value)
  }

  class SettingsPage {
    var presets: Presets
    var editingKey: Option<PresetKey>
    var editForm: Option<KegPreset>
    const store: PresetStore

    /**
     * The page's invariant: the key and the form are set together or not at
     * all, the custom preset is never the one edited, and every key of the
     * defaults has a preset.
     */
    ghost predicate Valid()
      reads this, store
    {
      && (editingKey.None? <==> editForm.None?)
      && editingKey != Some(Custom)
      && HasAllKeys(presets)
      && store.defaultsObj.Keys <= presets.Keys
      && store.Valid()
    }

    /** `useState(getKegPresets())`. */
    constructor (store: PresetStore)
      requires store.Valid()
      ensures Valid() && this.store == store
      ensures presets == store.Load()
      ensures editingKey.None? && editForm.None?
    {
      this.store := store;
      presets := store.Load();
      editingKey, editForm := None, None;
    }

    /** `handleEdit(key)`: opens a copy of the preset; asking for `custom` does nothing. */
    method HandleEdit(key: PresetKey)
      requires Valid()
      modifies this
      ensures Valid() && presets == old(presets)
      ensures key == Custom ==> editingKey == old(editingKey) && editForm == old(editForm)
      ensures key != Custom ==> editingKey == Some(key) && editForm == Some(old(presets)[key.Name()])
    {
      if key == Custom {
        return;
      }
      editingKey := Some(key);
      editForm := Some(presets[key.Name()]);
    }

    /** An input's `onChange` while a preset is being edited. */
    method ChangeField(field: FormField, value: real)
      requires Valid()
      modifies this`editForm
      ensures Valid()
      ensures editForm == if old(editForm).Some? then Some(WithField(old(editForm).value, field, value)) else None
    {
      if editForm.Some? {
        editForm := Some(WithField(editForm.value, field, value));
      }
    }

    /**
     * `handleSave`: with nothing being edited nothing happens. Otherwise the
     * form replaces the edited entry alone, exactly the new record is saved,
     * and editing ends.
     */
    method HandleSave()
      requires Valid()
      modifies this, store`item
      ensures Valid()
      ensures old(editingKey).None? ==>
        presets == old(presets) && editingKey.None? && editForm.None? && store.item == old(store.item)
      ensures old(editingKey).Some? ==>
        && presets == old(presets)[old(editingKey).value.Name() := old(editForm).value]
        && store.item == (if store.browser then Some(store.stringify(presets)) else old(store.item))
        && editingKey.None? && editForm.None?
      ensures (store.browser && old(editingKey).Some? && store.stringify(presets) != ""
               && store.parse(store.stringify(presets)) == Some(presets)) ==> store.Load() == presets
    {
      if editingKey.None? || editForm.None? {
        return;
      }
      var updated := presets[editingKey.value.Name() := editForm.value];
      presets := updated;
      store.Save(updated);
      editingKey, editForm := None, None;
      if store.browser && store.stringify(presets) != "" && store.parse(store.stringify(presets)) == Some(presets) {
        SaveThenLoad(store.defaultsObj, presets, store.parse, store.stringify);
      }
    }

    /** `handleCancel`: editing ends and the presets stay as they were. */
    method HandleCancel()
      requires Valid()
      modifies this
      ensures Valid() && presets == old(presets)
      ensures editingKey.None? && editForm.None?
    {
      editingKey, editForm := None, None;
    }

    /**
     * `handleReset`: unconfirmed, nothing happens; confirmed, the stored
     * presets are removed, the page shows the defaults again and editing ends.
     */
    method HandleReset(confirmed: bool)
      requires Valid()
      modifies this, store`item
      ensures Valid()
      ensures !confirmed ==>
        presets == old(presets) && editingKey == old(editingKey) && editForm == old(editForm)
        && store.item == old(store.item)
      ensures confirmed ==>
        && store.item == (if store.browser then None else old(store.item))
        && presets == Loaded(store.browser, store.defaultsObj, store.item, store.parse)
        && (store.browser ==> presets == store.defaultsObj)
        && (store.browser && store.Pristine() ==> presets == DefaultPresets())
        && editingKey.None? && editForm.None?
    {
      if !confirmed {
        return;
      }
      store.Reset();
      presets := store.Load();
      editingKey, editForm := None, None;
    }
  }
}

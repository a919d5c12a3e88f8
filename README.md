# Keg dashboard: a Dafny model of its client-side logic

The keg dashboard shows kegs of beer whose weight is read by scale devices.
This project models the logic the dashboard runs in the browser, and proves
properties of that model:

- the display helpers: the SRM beer-colour lookup, the status colours, and the
  ABV, IBU and pints formatters;
- the keg-size presets kept in local storage: the defaults, load, save, update
  and reset;
- the analytics page's hour-by-hour grouping of the last day's measurements
  into chart rows (a rounded mean weight and a mean in litres);
- the devices page: attaching the latest weight to each device, the realtime
  patch when a measurement arrives, the "last seen" text, and the edit, cancel
  and save handlers;
- the preset settings page, as a class whose handlers keep an invariant;
- the keg card's "updated … ago" text and status colour;
- the keg form: its initial values, its change handler and its submit.

Modules and files:

| file | module | models |
|---|---|---|
| `wrappers.dfy` | `Wrappers` | `Option`, standing for JavaScript's `null`/`undefined` |
| `decimal.dfy` | `Decimal` | the decimal text of an integer, as a template literal shows it, and reading it back |
| `types.dfy` | `KegTypes` | `lib/types.ts` |
| `presets.dfy` | `KegPresets` | `lib/kegPresets.ts` |
| `analytics.dfy` | `Analytics` | `app/analytics/page.tsx` |
| `devices.dfy` | `Devices` | `app/devices/page.tsx` |
| `settings.dfy` | `Settings` | `app/settings/page.tsx` |
| `kegcard.dfy` | `KegCard` | `components/KegCard/KegCard.tsx` |
| `kegform.dfy` | `KegForm` | `components/KegForm/KegForm.tsx` |

Modelling choices:

- JavaScript numbers are `real`, and elapsed times in milliseconds are `int`. Dafny's
  `/` on `int` with a positive divisor rounds down, as `Math.floor` of the quotient does.
- `Math.round(x)` is `floor(x + 1/2)`; JavaScript rounds halves upward.
- A falsy test is written out case by case: `null`/`undefined` is `None`, and
  `0` and `""` are compared explicitly.
- Text that depends on the locale or on float printing is a function parameter.
  This covers `toFixed(1)`, a number's default text, `toLocaleString`,
  `toLocaleDateString` and `parseFloat`. The minutes, hours, days and pints
  are whole numbers. Below 2^53 in magnitude JavaScript writes such a number in
  plain digits, and that text is modelled exactly. The minutes, hours and days
  stay far below that bound, because dates are limited to 8.64 × 10^15 ms.
  The pints can exceed it. From there on JavaScript writes the shortest digits
  that read back to the double, padded with zeros (`2^60` is written
  `1152921504606847000`), and from 10^21 on exponent form (`1e+21`). That text
  is the number-to-text parameter once more. A contract states
  a plain-digit text through `Decimal.ShownNumber`. It reads the number back and
  accepts only that number's exact text: no leading zeros and no `-0`.
- Local storage is the field `item: Option<string>` of `KegPresets.PresetStore`.
  `JSON.parse` and `JSON.stringify` are the store's functions `parse` (partial:
  `None` is a parse error) and `stringify`. `typeof window === 'undefined'` is
  the store's flag `browser` being false.
- `DEFAULT_KEG_PRESETS` is an object that code can change. It is the store's
  field `defaultsObj` (see Findings).
- A React component's state becomes a class: `Settings.SettingsPage`,
  `Devices.DevicesPage` and `KegForm.KegFormState`. Each state setter becomes a
  field assignment inside the handler's method.
- Database queries, the `alert` and the `confirm` dialog are left to the caller.
  Their answers come in as parameters: the rows, a failure flag or outcome, and
  the confirmation.
- The fill-status derivation (percentage, litres and pints remaining, status
  tag) is computed by the database view `current_keg_status`. The code here
  only declares its fields, so the model takes the status tag as given.
- `KegFormData` declares its weights and capacity as numbers. `handleChange`
  stores `null` in them when their input is cleared, so the model makes them
  optional and follows the code.

## Model

| member | source | states |
|---|---|---|
| `KegTypes.SrmKeysAreSortedTableKeys` | lib/types.ts:126-145 | the sorted keys are strictly ascending and are exactly the 15 keys of the colour table |
| `KegTypes.Closest` | lib/types.ts:146-148 | the reduce's answer is its starting key or one of the keys it walks over |
| `KegTypes.SrmKey` | lib/types.ts:145-148 | the key chosen for a non-zero SRM is a key of the colour table |
| `KegTypes.SrmColor` | lib/types.ts:123-151 | `null` and `0` give `#FFE699`; every answer is one of the table's colours |
| `KegTypes.ClosestIsNearest` | lib/types.ts:146-148 | no key the reduce considers is strictly closer to the SRM than the one it returns |
| `KegTypes.ClosestPrefersSmaller` | lib/types.ts:146-148 | over ascending keys, a key as close as the one returned is never smaller than it: ties go to the smaller key |
| `KegTypes.SrmColorIsNearest` | lib/types.ts:144-150 | for a non-zero SRM the colour is the table colour of the nearest key, the smaller key on a tie |
| `KegTypes.SrmColorOfTableKey` | lib/types.ts:126-150 | a table key is shown in its own colour |
| `KegTypes.SrmColorAtLeastForty` | lib/types.ts:141-150 | every SRM of 40 or more is shown as `#A64200` |
| `KegTypes.SrmColorTieExample` | lib/types.ts:145-148 | SRM 7, midway between keys 6 and 8, gets the colour of 6 |
| `KegTypes.ClosestConcat` | lib/types.ts:146-148 | the reduce over two runs of keys is the reduce over the second, started where the first ended |
| `KegTypes.ClosestAboveAll` | lib/types.ts:146-148 | over ascending keys all at or below the SRM, the reduce ends on the last key |
| `KegTypes.TieHead` | lib/types.ts:146-148 | for SRM 7 the reduce reaches key 6 after the keys 1 to 6 |
| `KegTypes.TieTail` | lib/types.ts:146-148 | for SRM 7 no key above 6 displaces 6 |
| `KegTypes.StatusColor` | lib/types.ts:154-164 | each of the five status tags has a `#rrggbb` colour: `#` followed by six lower-case hex digits |
| `KegTypes.StatusColorsDistinct` | lib/types.ts:155-161 | two different status tags have different colours |
| `KegTypes.FormatAbv` | lib/types.ts:179-181 | `N/A` exactly when the ABV is missing or zero; otherwise the one-decimal text followed by `% ABV` |
| `KegTypes.FormatIbu` | lib/types.ts:183-185 | `N/A` exactly when the IBU is missing or zero; otherwise the number's text followed by ` IBU` |
| `KegTypes.FormatPints` | lib/types.ts:171-173 | below 2^53 in magnitude the text is exactly the decimal digits of an integer n followed by ` pints`, with n ≤ pints < n + 1; from 2^53 on it is the number-to-text of the floor followed by ` pints` |
| `Decimal.DigitValue` | components/KegCard/KegCard.tsx:123-125 | a digit character's value is below ten and renders back to that character |
| `Decimal.NatToString` | components/KegCard/KegCard.tsx:123-125 | the text of a whole number is a non-empty string of digits, and it starts with `0` only for zero itself |
| `Decimal.IntToString` | components/KegCard/KegCard.tsx:123-125 | `${n}` of an integral number: a minus sign exactly for a negative number, then digits with no leading zero except for zero itself |
| `Decimal.ParseIntOfIntToString` | components/KegCard/KegCard.tsx:123-125 | reading back the text of an integer gives that integer |
| `Decimal.ShownNumberOf` | app/devices/page.tsx:139-140 | an integer's text followed by a suffix reads back as that integer |
| `KegPresets.DefaultPresets` | lib/kegPresets.ts:13-49 | the defaults have exactly five keys, one for each preset key, and every entry's full weight exceeds its empty weight, which is at least zero |
| `KegPresets.ApplyPatch` | lib/kegPresets.ts:87 | each field of the patch that is present wins; the others keep their previous values; an empty patch changes nothing |
| `KegPresets.LoadsDefaultsObject` | lib/kegPresets.ts:55-70 | holds exactly where `getKegPresets` returns the `DEFAULT_KEG_PRESETS` object itself: on the server, with nothing or the empty text stored, or when parsing fails; where it does not hold, a browser has stored text that parses to a record |
| `KegPresets.Loaded` | lib/kegPresets.ts:54-71 | on the server, with nothing or the empty text stored, or when parsing fails, the result is the defaults; otherwise its keys are the defaults' keys plus the stored ones, a stored entry overrides its default, and the other defaults are kept; every default key is always present |
| `KegPresets.SaveThenLoad` | lib/kegPresets.ts:60-64 | saving a record that holds every default key and loading again gives back the same record, provided `parse` reads back what `stringify` wrote |
| `KegPresets.ResetThenLoad` | lib/kegPresets.ts:92-95 | with the storage key removed, loading gives the defaults |
| `KegPresets.PresetStore.constructor` | lib/kegPresets.ts:13-51 | the store starts with the built-in defaults and the given storage contents |
| `KegPresets.PresetStore.Load` | lib/kegPresets.ts:54-71 | loading yields every preset key and is `Loaded` of the current defaults and storage |
| `KegPresets.PresetStore.Save` | lib/kegPresets.ts:74-82 | in a browser the stored text becomes `stringify` of the record; on the server nothing changes |
| `KegPresets.PresetStore.Reset` | lib/kegPresets.ts:92-95 | in a browser the stored text is removed and loading then gives the defaults; on the server nothing changes |
| `KegPresets.PresetStore.UpdateAsWritten` | lib/kegPresets.ts:85-89 | the loaded record with entry `key` patched is saved; when loading answered the defaults object itself, that object becomes the patched record too |
| `KegPresets.PresetStore.Update` | lib/kegPresets.ts:85-89 | the loaded record with only entry `key` patched is saved, the defaults stay as they were, and loading gives the patched record back |
| `KegPresets.UpdateResetAsWritten` | lib/kegPresets.ts:54-70 | with nothing stored, patching the Cornelius full weight to 1 and then resetting loads a Cornelius entry with full weight 1, not the built-in presets |
| `KegPresets.UpdateResetCorrected` | lib/kegPresets.ts:85-95 | the same sequence with the corrected update loads the built-in presets |
| `Analytics.Round` | app/analytics/page.tsx:76-77 | `Math.round` lands within half of its argument, halves rounding up |
| `Analytics.Labels` | app/analytics/page.tsx:58-62 | one hour label per measurement, in input order |
| `Analytics.SumAppend` | app/analytics/page.tsx:68 | adding one more weight adds it to the sum |
| `Analytics.FirstIndex` | app/analytics/page.tsx:64-66 | the position where a label first occurs |
| `Analytics.PrefixStep` | app/analytics/page.tsx:57-69 | one more measurement appends its label to the labels, its weight to its own label's group alone, and its label to the distinct labels when new |
| `Analytics.GroupByHour` | app/analytics/page.tsx:57-72 | the loop's map holds exactly the distinct hour labels, in first-occurrence order; each label's sum and count are the sum and size of its group of weights |
| `Analytics.Row` | app/analytics/page.tsx:74-78 | a row from a label's sum and count carries that label, and its weight is within half a gram of the mean `sum / count` |
| `Analytics.PointOf` | app/analytics/page.tsx:57-78 | the chart row of an hour label carries that label, and when the label occurs its weight is within half a gram of the mean of exactly that label's weights |
| `Analytics.Points` | app/analytics/page.tsx:74-78 | one row per key, labelled by that key, in key order |
| `Analytics.ConsumptionChart` | app/analytics/page.tsx:57-78 | the chart data equal the row of each distinct hour label, taken in first-occurrence order |
| `Analytics.PointOfAll` | app/analytics/page.tsx:74-78 | the chart has one row per distinct hour label |
| `Analytics.DistinctMembers` | app/analytics/page.tsx:64-66 | exactly the labels that occur become keys |
| `Analytics.DistinctNoRepeats` | app/analytics/page.tsx:64-66 | no key occurs twice |
| `Analytics.DistinctInFirstOccurrenceOrder` | app/analytics/page.tsx:64-74 | the keys come in the order each label first occurs |
| `Analytics.FirstIndexUnique` | app/analytics/page.tsx:64-66 | a position holding a label not seen before it is that label's first position |
| `Analytics.GroupNonEmpty` | app/analytics/page.tsx:64-69 | every label that occurs has at least one measurement in its group |
| `Analytics.GroupEmpty` | app/analytics/page.tsx:64-69 | a label that does not occur has an empty group |
| `Analytics.TotalCountStep` | app/analytics/page.tsx:69 | one more measurement adds one to the total count over any repeat-free label list holding its label, and nothing to one without it |
| `Analytics.CountsAddUp` | app/analytics/page.tsx:64-69 | the group counts add up to the number of measurements |
| `Analytics.ChartRows` | app/analytics/page.tsx:52-74 | one row for each label that occurs and no other; no repeats; every row's group is non-empty; rows in first-occurrence order |
| `Analytics.EmptyChart` | app/analytics/page.tsx:57-74 | no measurements give no rows |
| `Analytics.SumBounds` | app/analytics/page.tsx:68-69 | weights between two bounds have a sum between count times each bound |
| `Analytics.MeanBounds` | app/analytics/page.tsx:76 | a sum between n times two bounds has its mean between them |
| `Analytics.RoundBetweenWhole` | app/analytics/page.tsx:76 | rounding a value between two whole numbers stays between them |
| `Analytics.RoundedMeanBounds` | app/analytics/page.tsx:76 | a group's mean lies between its weights' bounds, the rounded mean is within half a gram of it, and it stays between whole-gram bounds |
| `Analytics.PointWeightBounds` | app/analytics/page.tsx:76 | a row's weight is its group's mean rounded: within half a gram of a mean that lies between the group's bounds, and between them when they are whole grams |
| `Analytics.RoundedMeanOf` | app/analytics/page.tsx:76 | a sum between n times two bounds has its mean between them, rounded within half of it, and between them when they are whole |
| `Analytics.RowLiters` | app/analytics/page.tsx:77 | a row's litres, from its label's sum and count, are within 0.05 of the mean divided by 1000 and a whole number of tenths |
| `Analytics.PointLiters` | app/analytics/page.tsx:77 | a row's litres are within 0.05 of the mean weight divided by 1000, and a whole number of tenths |
| `Devices.WithLatestWeight` | app/devices/page.tsx:42-47 | the device keeps its fields; the current weight is missing exactly when no measurement exists, and is otherwise the latest weight, with its time |
| `Devices.AttachLatest` | app/devices/page.tsx:29-49 | a missing device list gives no rows; otherwise one row per device, in order, each with its latest measurement |
| `Devices.PatchWeights` | app/devices/page.tsx:74-84 | the list keeps its length and order; devices with the measurement's device id take its weight and time and keep every other field; all other devices are unchanged |
| `Devices.PatchLatestWins` | app/devices/page.tsx:74-84 | of two measurements for the same device, the later one is what remains |
| `Devices.PatchCommutes` | app/devices/page.tsx:74-84 | measurements for different devices give the same list in either order |
| `Devices.PatchUnknownDevice` | app/devices/page.tsx:74-84 | a measurement for a device not in the list changes nothing |
| `Devices.FormatLastSeen` | app/devices/page.tsx:131-142 | missing or empty gives `Never`; under a minute gives `Just now`; then exactly the digits of n and `m ago`, with 1 ≤ n ≤ 59 and n whole minutes elapsed, then n hours with 1 ≤ n ≤ 23, then the locale date |
| `Devices.UpdateOf` | app/devices/page.tsx:109-117 | the update sends the device's id, name and five calibration fields unchanged |
| `Devices.DevicesPage.constructor` | app/devices/page.tsx:14-17 | the page starts with no devices, loading, nothing being edited and not saving |
| `Devices.DevicesPage.ApplyFetch` | app/devices/page.tsx:19-57 | a successful fetch replaces the list with the devices and their latest weights; a failed one keeps it; loading ends |
| `Devices.DevicesPage.OnWeightInserted` | app/devices/page.tsx:72-85 | the list becomes the realtime patch of the previous list |
| `Devices.DevicesPage.HandleEdit` | app/devices/page.tsx:94-96 | the device becomes the one being edited |
| `Devices.DevicesPage.HandleCancel` | app/devices/page.tsx:98-100 | editing ends |
| `Devices.DevicesPage.HandleSave` | app/devices/page.tsx:102-129 | with nothing being edited nothing is sent and nothing changes; otherwise the device's update is sent, on success editing ends and the list is fetched again, on failure the editor stays open, and saving ends false |
| `Settings.WithField` | app/settings/page.tsx:90-130 | an input's change replaces that numeric field of the edit form alone |
| `Settings.SettingsPage.constructor` | app/settings/page.tsx:15-17 | the page starts with the loaded presets and nothing being edited, with its invariant holding |
| `Settings.SettingsPage.HandleEdit` | app/settings/page.tsx:19-23 | `custom` changes nothing; any other key is opened with a copy of its preset; the invariant holds, so the key and form are set together and `custom` is never being edited |
| `Settings.SettingsPage.ChangeField` | app/settings/page.tsx:90-130 | while editing, the form takes the new value in that field; the invariant holds |
| `Settings.SettingsPage.HandleSave` | app/settings/page.tsx:25-37 | with nothing being edited nothing changes; otherwise only the edited entry is replaced by the form, exactly the new record is saved, editing ends, and loading gives the new record back |
| `Settings.SettingsPage.HandleCancel` | app/settings/page.tsx:39-42 | editing ends and the presets stay as they were |
| `Settings.SettingsPage.HandleReset` | app/settings/page.tsx:44-50 | unconfirmed, nothing changes; confirmed, the stored text is removed, the presets become what loading then gives (the defaults), and editing ends |
| `KegCard.TimeAgo` | components/KegCard/KegCard.tsx:119-126 | under 60 s (a future time included) gives `just now`; then exactly the digits of n followed by `m ago` (1 ≤ n ≤ 59), `h ago` (1 ≤ n ≤ 23) or `d ago` (n ≥ 1), where n whole units have elapsed and n + 1 have not |
| `KegCard.TimeAgoJustNow` | components/KegCard/KegCard.tsx:122 | the text is `just now` exactly when less than a minute has elapsed |
| `KegCard.StatusColor` | components/KegCard/KegCard.tsx:128-137 | the card's colour for each status tag is the shared `getStatusColor`'s colour |
| `KegForm.TextOr` | components/KegForm/KegForm.tsx:19-21 | a present non-empty text is kept; a missing or empty one gives the fallback |
| `KegForm.NumberOrNull` | components/KegForm/KegForm.tsx:22-25 | a missing or zero value becomes `null`; any other value is kept |
| `KegForm.NumberOr` | components/KegForm/KegForm.tsx:26-28 | zero gives the default; any other value is kept |
| `KegForm.InitialFormData` | components/KegForm/KegForm.tsx:17-31 | with no keg: empty texts, no ABV/IBU/SRM, full 70000, empty 15000, capacity 58.67, device `keg-scale-1` and the current time; with a keg, each field is that keg's value with the falsy fallback applied |
| `KegForm.FilledKegCarriedOver` | components/KegForm/KegForm.tsx:17-31 | a keg with no missing, zero or empty value comes into the form unchanged |
| `KegForm.InputValue` | components/KegForm/KegForm.tsx:78 | a number input's empty text gives `null` and any other text its parsed number; other inputs store the raw text |
| `KegForm.IsNumberInput` | components/KegForm/KegForm.tsx:171-271 | the `type="number"` inputs are exactly the fields of the form data that hold a number |
| `KegForm.Changed` | components/KegForm/KegForm.tsx:71-80 | only the named field changes, and it takes the input's value |
| `KegForm.ErrorText` | components/KegForm/KegForm.tsx:65 | the error's message when it is present and non-empty, otherwise `Failed to save keg`; never empty |
| `KegForm.KegFormState.constructor` | components/KegForm/KegForm.tsx:14-34 | the form starts with its initial data, not loading and with no error |
| `KegForm.KegFormState.HandleChange` | components/KegForm/KegForm.tsx:71-80 | the form data become the changed data |
| `KegForm.KegFormState.IsEditing` | components/KegForm/KegForm.tsx:15 | `isEditing = !!keg`: the form edits exactly when a keg was supplied |
| `KegForm.KegFormState.HandleSubmit` | components/KegForm/KegForm.tsx:36-69 | the request is an update exactly when editing; editing sends an update keyed by the keg's id with the current time; otherwise an insert of the form data; success is reported exactly when the request succeeded; a failure shows the error text; loading ends false |

## Left out

- Network and database: Supabase queries, realtime channel subscription and removal, the Supabase client setup (which throws when an environment variable is missing) and its realtime subscription helpers in `lib/supabase.ts`, the dashboard's 5-second polling, and `app/manage/page.tsx`. These are foreign library calls; their results enter as parameters.
- Concurrency: overlapping asynchronous fetches and React effect lifecycles are not modelled; each handler runs to completion in one step.
- Rendering: JSX, `console.error`, the `alert` and `confirm` dialogs (`confirm` is the parameter `confirmed`), and the devices page's inline `onChange` edits of the device being edited.
- Floating point: NaN, infinities and double rounding are not modelled (numbers are reals). `toFixed`, number-to-text, `parseFloat` and the locale formats are opaque function parameters.
- `formatVolume` and `formatPercentage`: their whole content is `toFixed(1)` and a suffix, which is locale-free float printing left as a parameter elsewhere; they are not modelled.
- JSON: `JSON.parse` of stored text that is not a presets record (an array, a number, entries missing fields) is not modelled; `parse` returns a record or fails.
- `localStorage.getItem` and `setItem` throwing (storage disabled or full) is not modelled; the cell always accepts writes.
- `localStorage.removeItem` throwing in `resetKegPresets` (lib/kegPresets.ts:94, which has no `try`) is not modelled; the cell is always cleared.
- Settings.SettingsPage.HandleEdit: the settings page lists and edits every key of the loaded record (app/settings/page.tsx:67, 83, `key as KegPresetKey`), extra keys from stored JSON included. The model's loaded record keeps such extra keys, but `HandleEdit` takes one of the five preset keys, so an extra key cannot be opened for editing.
- `Partial<KegPreset>` with a field explicitly set to `undefined` is not modelled; a patch field is present or absent.
- Object key order: the hour labels are assumed not to look like array indices, so `Object.entries` gives them in insertion order.
- The analytics page ignores a `null` measurement list (the chart keeps its old data); the model takes the list as given.
- The fill-status derivation is computed by the database view `current_keg_status` and is not part of this model; `app/layout.tsx` and `lib/database.types.ts` hold no logic and are not part of this model.
- Analytics.PointWeightBounds: the rounded mean is proved to lie between the group's minimum and maximum only when those are whole grams. For fractional weights it can fall outside: two weights of 10.2 g give a mean of 10.2 and a row weight of 10. In general it is proved to lie within half a gram of a mean that lies between them.

## Findings

| source | as written | input that shows it | evidently intended | confidence | as-written member | corrected member |
|---|---|---|---|---|---|---|
| lib/kegPresets.ts:85-89 | `getKegPresets` returns the `DEFAULT_KEG_PRESETS` object itself when nothing usable is stored (lines 54-70), and `updateKegPreset` assigns into the object it got back, so the built-in defaults change | in a browser with nothing stored: `updateKegPreset('cornelius', { full_weight_grams: 1 })`, then `resetKegPresets()`, then `getKegPresets()` still shows the Cornelius full weight as 1 | the update patches a copy; the defaults keep their built-in values, and a reset brings them back | not executed | `KegPresets.UpdateResetAsWritten` (with `KegPresets.PresetStore.UpdateAsWritten`) | `KegPresets.UpdateResetCorrected` (with `KegPresets.PresetStore.Update`) |

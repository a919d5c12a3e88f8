/**
 * The keg form (components/KegForm/KegForm.tsx): its initial values taken
 * from the keg being edited (or the defaults for a new keg), the change
 * handler of its inputs, and the submit that updates or inserts the keg.
 *
 * JavaScript's `||` falls back on a falsy value: `null`/`undefined` (`None`),
 * the empty string and `0`. `parseFloat` of an input's text is the function
 * `parseFloat`; the current time's ISO text is `nowIso`. The query itself is
 * left to the caller, which reports its error (if any).
 */
module KegForm {
  import opened Wrappers

  /** A row of the `kegs` table. */
  datatype Keg = Keg(
    id: string,
    name: string,
    beerName: Option<string>,
    brewery: Option<string>,
    style: Option<string>,
    abv: Option<real>,
    ibu: Option<real>,
    description: Option<string>,
    srm: Option<real>,
    fullWeightGrams: real,
    emptyWeightGrams: real,
    capacityLiters: real,
    isActive: bool,
    deviceId: string,
    tappedAt: Option<string>,
    kickedAt: Option<string>,
    createdAt: string,
    updatedAt: string)

  /**
   * `KegFormData`. The weights and capacity are optional because clearing
   * their number input stores `null` in them.
   */
  datatype KegFormData = KegFormData(
    name: string,
    beerName: string,
    brewery: string,
    style: string,
    abv: Option<real>,
    ibu: Option<real>,
    description: string,
    srm: Option<real>,
    fullWeightGrams: Option<real>,
    emptyWeightGrams: Option<real>,
    capacityLiters: Option<real>,
    deviceId: string,
    tappedAt: string)

  const DefaultFullWeight: real := 70000.0
  const DefaultEmptyWeight: real := 15000.0
  const DefaultCapacity: real := 58.67
  const DefaultDevice: string := "keg-scale-1"
  const SaveFailed: string := "Failed to save keg"

  /** `s || ''` for an optional text. */
  function TextOr(s: Option<string>, fallback: string): (r: string)
    ensures s.Some? && s.value != "" ==> r == s.value
    ensures s.None? || s.value == "" ==> r == fallback
  {
    if s.Some? && s.value != "" then s.value else fallback
  }

  /** `x || null` for an optional number: zero becomes `null`. */
  function NumberOrNull(x: Option<real>): (r: Option<real>)
    ensures r.None? <==> x.None? || x.value == 0.0
    ensures r.Some? ==> r == x
  {
    if x.Some? && x.value != 0.0 then x else None
  }

  /** `x || fallback` for a number: zero falls back. */
  function NumberOr(x: real, fallback: real): (r: real)
    ensures x != 0.0 ==> r == x
    ensures x == 0.0 ==> r == fallback
  {
    if x != 0.0 then x else fallback
  }

  /** The initial `formData`. */
  function InitialFormData(keg: Option<Keg>, nowIso: string): (d: KegFormData)
    ensures keg.None? ==> d == KegFormData("", "", "", "", None, None, "", None,
              Some(DefaultFullWeight), Some(DefaultEmptyWeight), Some(DefaultCapacity), DefaultDevice, nowIso)
    ensures d.fullWeightGrams.Some? && d.emptyWeightGrams.Some? && d.capacityLiters.Some?
    ensures keg.Some? ==> var k := keg.value;
      && d.name == k.name
      && d.beerName == TextOr(k.beerName, "") && d.brewery == TextOr(k.brewery, "")
      && d.style == TextOr(k.style, "") && d.description == TextOr(k.description, "")
      && d.abv == NumberOrNull(k.abv) && d.ibu == NumberOrNull(k.ibu) && d.srm == NumberOrNull(k.srm)
      && d.fullWeightGrams == Some(NumberOr(k.fullWeightGrams, DefaultFullWeight))
      && d.emptyWeightGrams == Some(NumberOr(k.emptyWeightGrams, DefaultEmptyWeight))
      && d.capacityLiters == Some(NumberOr(k.capacityLiters, DefaultCapacity))
      && d.deviceId == (if k.deviceId != "" then k.deviceId else DefaultDevice)
      && d.tappedAt == TextOr(k.tappedAt, nowIso)
  {
    match keg
    case None =>
      KegFormData("", "", "", "", None, None, "", None,
        Some(DefaultFullWeight), Some(DefaultEmptyWeight), Some(DefaultCapacity), DefaultDevice, nowIso)
    case Some(k) =>
      KegFormData(
        k.name,
        TextOr(k.beerName, ""),
        TextOr(k.brewery, ""),
        TextOr(k.style, ""),
        NumberOrNull(k.abv),
        NumberOrNull(k.ibu),
        TextOr(k.description, ""),
        NumberOrNull(k.srm),
        Some(NumberOr(k.fullWeightGrams, DefaultFullWeight)),
        Some(NumberOr(k.emptyWeightGrams, DefaultEmptyWeight)),
        Some(NumberOr(k.capacityLiters, DefaultCapacity)),
        TextOr(Some(k.deviceId), DefaultDevice),
        TextOr(k.tappedAt, nowIso))
  }

  /** A keg whose optional values are all present and none is zero or empty. */
  predicate FullyFilled(k: Keg) {
    && k.beerName.Some? && k.beerName.value != ""
    && k.brewery.Some? && k.brewery.value != ""
    && k.style.Some? && k.style.value != ""
    && k.description.Some? && k.description.value != ""
    && k.abv.Some? && k.abv.value != 0.0
    && k.ibu.Some? && k.ibu.value != 0.0
    && k.srm.Some? && k.srm.value != 0.0
    && k.fullWeightGrams != 0.0 && k.emptyWeightGrams != 0.0 && k.capacityLiters != 0.0
    && k.deviceId != ""
    && k.tappedAt.Some? && k.tappedAt.value != ""
  }

  /** Such a keg's values come into the form unchanged. */
  lemma FilledKegCarriedOver(k: Keg, nowIso: string)
    requires FullyFilled(k)
    ensures InitialFormData(Some(k), nowIso) == KegFormData(
      k.name, k.beerName.value, k.brewery.value, k.style.value, k.abv, k.ibu, k.description.value, k.srm,
      Some(k.fullWeightGrams), Some(k.emptyWeightGrams), Some(k.capacityLiters), k.deviceId, k.tappedAt.value)
  {
  }

  /** The form's inputs, by their `name`. */
  datatype Field =
    | Name | DeviceId | BeerName | Brewery | Style | Abv | Ibu | Srm | Description
    | EmptyWeight | FullWeight | Capacity

  /** The inputs whose `type` is `number`: exactly those whose field holds a number. */
  predicate IsNumberInput(f: Field): (r: bool)
    ensures forall d :: r <==> Get(d, f).Number?
  {
    f.Abv? || f.Ibu? || f.Srm? || f.EmptyWeight? || f.FullWeight? || f.Capacity?
  }

  /** What a field holds: text, or an optional number. */
  datatype FieldValue = Text(text: string) | Number(number: Option<real>)

  function Get(d: KegFormData, f: Field): FieldValue {
    match f
    case Name => Text(d.name)
    case DeviceId => Text(d.deviceId)
    case BeerName => Text(d.beerName)
    case Brewery => Text(d.brewery)
    case Style => Text(d.style)
    case Description => Text(d.description)
    case Abv => Number(d.abv)
    case Ibu => Number(d.ibu)
    case Srm => Number(d.srm)
    case EmptyWeight => Number(d.emptyWeightGrams)
    case FullWeight => Number(d.fullWeightGrams)
    case Capacity => Number(d.capacityLiters)
  }

  /** The value an input's change stores: for a number input, the empty text is `null`. */
  function InputValue(f: Field, value: string, parseFloat: string -> real): (v: FieldValue)
    ensures IsNumberInput(f) <==> v.Number?
    ensures IsNumberInput(f) ==> (v.number.None? <==> value == "")
    ensures IsNumberInput(f) && value != "" ==> v.number == Some(parseFloat(value))
    ensures !IsNumberInput(f) ==> v.text == value
  {
    if IsNumberInput(f) then Number(if value != "" then Some(parseFloat(value)) else None)
    else Text(value)
  }

  /** `handleChange`'s update of the form data: only the named field changes. */
  function Changed(d: KegFormData, f: Field, value: string, parseFloat: string -> real): (r: KegFormData)
    ensures Get(r, f) == InputValue(f, value, parseFloat)
    ensures forall g :: g != f ==> Get(r, g) == Get(d, g)
    ensures r.tappedAt == d.tappedAt
  {
    var v := InputValue(f, value, parseFloat);
    match f
    case Name => d.(name := v.text)
    case DeviceId => d.(deviceId := v.text)
    case BeerName => d.(beerName := v.text)
    case Brewery => d.(brewery := v.text)
    case Style => d.(style := v.text)
    case Description => d.(description := v.text)
    case Abv => d.(abv := v.number)
    case Ibu => d.(ibu := v.number)
    case Srm => d.(srm := v.number)
    case EmptyWeight => d.(emptyWeightGrams := v.number)
    case FullWeight => d.(fullWeightGrams := v.number)
    case Capacity => d.(capacityLiters := v.number)
  }

  /** The message shown when saving fails: the error's message, or a fixed text. */
  function ErrorText(message: Option<string>): (text: string)
    ensures text != ""
    ensures message.Some? && message.value != "" ==> text == message.value
    ensures message.None? || message.value == "" ==> text == SaveFailed
  {
    if message.Some? && message.value != "" then message.value else SaveFailed
  }

  /** What `handleSubmit` sends to the `kegs` table. */
  datatype KegRequest =
    | UpdateKeg(id: string, data: KegFormData, updatedAt: string)
    | InsertKeg(data: KegFormData)

  /** The result of the request: no error, or an error with an optional message. */
  datatype SubmitOutcome = Saved | Failed(message: Option<string>)

  class KegFormState {
    const keg: Option<Keg>
    var formData: KegFormData
    var loading: bool
    var error: Option<string>

    /** The form is editing exactly when a keg was supplied. */
    predicate IsEditing()
    {
      keg.Some?
    }

    constructor (keg: Option<Keg>, nowIso: string)
      ensures this.keg == keg
      ensures formData == InitialFormData(keg, nowIso)
      ensures !loading && error.None?
    {
      this.keg := keg;
      formData := InitialFormData(keg, nowIso);
      loading, error := false, None;
    }

    /** `handleChange` for the input `f` whose text is now `value`. */
    method HandleChange(f: Field, value: string, parseFloat: string -> real)
      modifies this`formData
      ensures formData == Changed(old(formData), f, value, parseFloat)
    {
      formData := Changed(formData, f, value, parseFloat);
    }

    /**
     * `handleSubmit`: an update keyed by the keg's id when editing, else an
     * insert, of the current form data. On success `onSuccess` is due
     * (`succeeded`); on failure the error text is shown. Loading ends false.
     */
    method HandleSubmit(outcome: SubmitOutcome, nowIso: string) returns (request: KegRequest, succeeded: bool)
      modifies this`loading, this`error
      ensures IsEditing() <==> request.UpdateKeg?
      ensures IsEditing() ==> request == UpdateKeg(keg.value.id, formData, nowIso)
      ensures !IsEditing() ==> request == InsertKeg(formData)
      ensures succeeded <==> outcome.Saved?
      ensures error == if outcome.Saved? then None else Some(ErrorText(outcome.message))
      ensures !loading
    {
      loading := true;
      error := None;
      if IsEditing() {
        request := UpdateKeg(keg.value.id, formData, nowIso);
      } else {
        request := InsertKeg(formData);
      }
      succeeded := outcome.Saved?;
      if outcome.Failed? {
        error := Some(ErrorText(outcome.message));
      }
      loading := false;
    }
  }
}

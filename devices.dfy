/**
 * The devices page (app/devices/page.tsx): the device list with each
 * device's latest weight, the realtime patch applied when a new measurement
 * arrives, the "last seen" text, and the edit/cancel/save handlers.
 *
 * The queries, the realtime channel and the `alert` are left to the caller:
 * their results arrive as parameters.
 */
module Devices {
  import opened Wrappers
  import Decimal

  /** A row of the `devices` table. */
  datatype Device = Device(
    id: string,
    deviceId: string,
    name: string,
    calibrationFactor: real,
    tareOffset: real,
    smoothingFactor: real,
    numReadings: real,
    readingInterval: real,
    isOnline: bool,
    lastSeenAt: Option<string>,
    ipAddress: Option<string>,
    macAddress: Option<string>,
    firmwareVersion: Option<string>,
    createdAt: string,
    updatedAt: string)

  /** `DeviceWithWeight`: the device's own fields, and the latest weight beside them. */
  datatype DeviceWithWeight = DeviceWithWeight(
    device: Device,
    currentWeight: Option<real>,
    weightUpdatedAt: Option<string>)

  /** The `weight_grams` and `created_at` of a `weight_measurements` row. */
  datatype WeightRow = WeightRow(deviceId: string, weightGrams: real, createdAt: string)

  /** The columns `handleSave` sends in its update, keyed by the device's `id`. */
  datatype DeviceUpdate = DeviceUpdate(
    id: string,
    name: string,
    calibrationFactor: real,
    tareOffset: real,
    smoothingFactor: real,
    numReadings: real,
    readingInterval: real)

  // ---------------------------------------------------------------------
  // Fetching: each device with its latest measurement
  // ---------------------------------------------------------------------

  /** One device of `fetchDevices`, given its newest measurement (if any). */
  function WithLatestWeight(d: Device, latest: Option<WeightRow>): (w: DeviceWithWeight)
    ensures w.device == d
    ensures w.currentWeight.None? <==> latest.None?
    ensures latest.Some? ==>
              w.currentWeight == Some(latest.value.weightGrams) && w.weightUpdatedAt == Some(latest.value.createdAt)
    ensures latest.None? ==> w.weightUpdatedAt.None?
  {
    match latest
    case None => DeviceWithWeight(d, None, None)
    case Some(row) => DeviceWithWeight(d, Some(row.weightGrams), Some(row.createdAt))
  }

  /**
   * `fetchDevices` after its queries: `rows` is the devices query's data
   * (`null` is `None`), `latestOf` the newest-measurement query per device id.
   */
  function AttachLatest(rows: Option<seq<Device>>, latestOf: string -> Option<WeightRow>): (ws: seq<DeviceWithWeight>)
    ensures rows.None? ==> ws == []
    ensures rows.Some? ==> |ws| == |rows.value|
    ensures rows.Some? ==> forall i :: 0 <= i < |ws| ==>
              ws[i] == WithLatestWeight(rows.value[i], latestOf(rows.value[i].deviceId))
  {
    var ds := rows.GetOr([]);
    seq(|ds|, i requires 0 <= i < |ds| => WithLatestWeight(ds[i], latestOf(ds[i].deviceId)))
  }

  // ---------------------------------------------------------------------
  // The realtime patch
  // ---------------------------------------------------------------------

  /** A device after it has taken on the measurement's weight and time. */
  predicate Took(before: DeviceWithWeight, after: DeviceWithWeight, row: WeightRow) {
    after == DeviceWithWeight(before.device, Some(row.weightGrams), Some(row.createdAt))
  }

  /**
   * The `prev.map(...)` run on each inserted measurement: the devices whose
   * `device_id` matches take on its weight and time; the others stay as they are.
   */
  function PatchWeights(prev: seq<DeviceWithWeight>, row: WeightRow): (next: seq<DeviceWithWeight>)
    ensures |next| == |prev|
    ensures forall i :: 0 <= i < |prev| && prev[i].device.deviceId == row.deviceId ==> Took(prev[i], next[i], row)
    ensures forall i :: 0 <= i < |prev| && prev[i].device.deviceId != row.deviceId ==> next[i] == prev[i]
    ensures forall i :: 0 <= i < |prev| ==> next[i].device == prev[i].device
  {
    seq(|prev|, i requires 0 <= i < |prev| =>
      if prev[i].device.deviceId == row.deviceId
      then prev[i].(currentWeight := Some(row.weightGrams), weightUpdatedAt := Some(row.createdAt))
      else prev[i])
  }

  /** Of two measurements for the same device, the later one is what is shown. */
  lemma PatchLatestWins(prev: seq<DeviceWithWeight>, first: WeightRow, second: WeightRow)
    requires first.deviceId == second.deviceId
    ensures PatchWeights(PatchWeights(prev, first), second) == PatchWeights(prev, second)
  {
    var a := PatchWeights(PatchWeights(prev, first), second);
    var b := PatchWeights(prev, second);
    assert forall i :: 0 <= i < |a| ==> a[i] == b[i];
  }

  /** Measurements for different devices may arrive in either order. */
  lemma PatchCommutes(prev: seq<DeviceWithWeight>, first: WeightRow, second: WeightRow)
    requires first.deviceId != second.deviceId
    ensures PatchWeights(PatchWeights(prev, first), second) == PatchWeights(PatchWeights(prev, second), first)
  {
    var a := PatchWeights(PatchWeights(prev, first), second);
    var b := PatchWeights(PatchWeights(prev, second), first);
    assert forall i :: 0 <= i < |a| ==> a[i] == b[i];
  }

  /** A measurement for a device not in the list changes nothing. */
  lemma PatchUnknownDevice(prev: seq<DeviceWithWeight>, row: WeightRow)
    requires forall i :: 0 <= i < |prev| ==> prev[i].device.deviceId != row.deviceId
    ensures PatchWeights(prev, row) == prev
  {
    assert forall i :: 0 <= i < |prev| ==> PatchWeights(prev, row)[i] == prev[i];
  }

  // ---------------------------------------------------------------------
  // "Last seen"
  // ---------------------------------------------------------------------

  const MinuteMs: int := 60000
  const HourMs: int := 3600000
  const DayMs: int := 86400000

  /**
   * `formatLastSeen`: `elapsedMs` is the milliseconds from `lastSeen` to now,
   * `localeDate` the `toLocaleDateString()` of `lastSeen`. A missing or empty
   * timestamp is never seen; under a minute is "Just now"; then whole minutes
   * up to 59, whole hours up to 23, and after a day the date.
   */
  function FormatLastSeen(lastSeen: Option<string>, elapsedMs: int, localeDate: string): (text: string)
    ensures lastSeen.None? || lastSeen == Some("") ==> text == "Never"
    ensures lastSeen.Some? && lastSeen.value != "" ==>
      && (elapsedMs < MinuteMs ==> text == "Just now")
      && (MinuteMs <= elapsedMs < HourMs ==>
            var n := Decimal.ShownNumber(text, "m ago");
            n.Some? && 1 <= n.value <= 59 && n.value * MinuteMs <= elapsedMs < (n.value + 1) * MinuteMs)
      && (HourMs <= elapsedMs < DayMs ==>
            var n := Decimal.ShownNumber(text, "h ago");
            n.Some? && 1 <= n.value <= 23 && n.value * HourMs <= elapsedMs < (n.value + 1) * HourMs)
      && (DayMs <= elapsedMs ==> text == localeDate)
  {
    if lastSeen.None? || lastSeen.value == "" then "Never"
    else
      var diffMins := elapsedMs / MinuteMs;
      if diffMins < 1 then "Just now"
      else if diffMins < 60 then
        Decimal.ShownNumberOf(diffMins, "m ago");
        Decimal.IntToString(diffMins) + "m ago"
      else if diffMins < 1440 then
        Decimal.ShownNumberOf(diffMins / 60, "h ago");
        Decimal.IntToString(diffMins / 60) + "h ago"
      else localeDate
  }

  // ---------------------------------------------------------------------
  // The page's state and handlers
  // ---------------------------------------------------------------------

  /** The columns `handleSave` writes for the device being edited. */
  function UpdateOf(d: Device): (u: DeviceUpdate)
    ensures u.id == d.id && u.name == d.name
    ensures u.calibrationFactor == d.calibrationFactor && u.tareOffset == d.tareOffset
    ensures u.smoothingFactor == d.smoothingFactor
    ensures u.numReadings == d.numReadings && u.readingInterval == d.readingInterval
  {
    DeviceUpdate(d.id, d.name, d.calibrationFactor, d.tareOffset, d.smoothingFactor, d.numReadings, d.readingInterval)
  }

  class DevicesPage {
    var devices: seq<DeviceWithWeight>
    var loading: bool
    var editingDevice: Option<DeviceWithWeight>
    var saving: bool

    constructor ()
      ensures devices == [] && loading && editingDevice.None? && !saving
    {
      devices, loading, editingDevice, saving := [], true, None, false;
    }

    /**
     * `fetchDevices` once its queries have answered: `rows` is `None` when the
     * devices query failed, in which case the list stays as it was.
     */
    method ApplyFetch(rows: Option<Option<seq<Device>>>, latestOf: string -> Option<WeightRow>)
      modifies this`devices, this`loading
      ensures devices == if rows.Some? then AttachLatest(rows.value, latestOf) else old(devices)
      ensures !loading
    {
      if rows.Some? {
        devices := AttachLatest(rows.value, latestOf);
      }
      loading := false;
    }

    /** The realtime handler for an inserted measurement. */
    method OnWeightInserted(row: WeightRow)
      modifies this`devices
      ensures devices == PatchWeights(old(devices), row)
    {
      devices := PatchWeights(devices, row);
    }

    /** `handleEdit`: a copy of the device becomes the one being edited. */
    method HandleEdit(d: DeviceWithWeight)
      modifies this`editingDevice
      ensures editingDevice == Some(d)
    {
      editingDevice := Some(d);
    }

    /** `handleCancel`. */
    method HandleCancel()
      modifies this`editingDevice
      ensures editingDevice.None?
    {
      editingDevice := None;
    }

    /**
     * `handleSave`: with no device being edited nothing happens. Otherwise the
     * update is sent; `failed` is whether it raised an error. On success
     * editing ends and the list is fetched again (`refetch`); on failure the
     * editor stays open. Either way `saving` ends false.
     */
    method HandleSave(failed: bool) returns (sent: Option<DeviceUpdate>, refetch: bool)
      modifies this`editingDevice, this`saving
      ensures old(editingDevice).None? ==> sent.None? && !refetch && editingDevice.None? && saving == old(saving)
      ensures old(editingDevice).Some? ==>
        && sent == Some(UpdateOf(old(editingDevice).value.device))
        && refetch == !failed
        && editingDevice == (if failed then old(editingDevice) else None)
        && !saving
    {
      if editingDevice.None? {
        return None, false;
      }
      saving := true;
      sent := Some(UpdateOf(editingDevice.value.device));
      refetch := !failed;
      if !failed {
        editingDevice := None;
      }
      saving := false;
    }
  }
}

/** The discovered-device record and its construction from an `ACTION_FOUND` broadcast. */
module Devices {
  import opened Common
  import opened Events

  /** `data class Device(details, name, signal)`: equality is field-wise, as for a Kotlin data class. */
  datatype Device = Device(details: Handle, name: string, signal: Short)

  const DEFAULT_NAME: string := ""
  const DEFAULT_SIGNAL: Short := -99

  /**
    The secondary constructor `Device(intent)`. The device extra is cast to a
    non-null `BluetoothDevice`, so a broadcast without one throws.
  */
  function FromEvent(e: RawEvent): (r: Result<Device, Failure>)
    ensures r.Err? <==> e.device.None?
    ensures r.Err? ==> r.error == NullDevice
    ensures r.Ok? ==> r.value.details == e.device.value
    ensures r.Ok? ==> r.value.name == (if e.name.Some? then e.name.value else DEFAULT_NAME)
    ensures r.Ok? ==> r.value.signal == (if e.rssi.Some? then e.rssi.value else DEFAULT_SIGNAL)
  {
    match e.device
    case None => Err(NullDevice)
    case Some(h) => Ok(Device(h, e.name.GetOr(DEFAULT_NAME), e.rssi.GetOr(DEFAULT_SIGNAL)))
  }

  /** The `ACTION_FOUND` broadcast that reports a device with all its extras. */
  function FoundBroadcast(d: Device): (e: RawEvent)
    ensures e.action == DeviceFound
  {
    RawEvent(DeviceFound, Some(d.details), Some(d.name), Some(d.signal), None)
  }

  /** Reading a device back from its own broadcast gives the same device. */
  lemma FromFoundBroadcast(d: Device)
    ensures FromEvent(FoundBroadcast(d)) == Ok(d)
  {
  }

  /** A broadcast with only a device extra yields the empty name and signal -99. */
  lemma DefaultsApply(h: Handle)
    ensures FromEvent(DeviceEvent(DeviceFound, h)) == Ok(Device(h, "", -99))
  {
  }
}

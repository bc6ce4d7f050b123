/** The stateful half of the TPMS parser: the device-data object that
    `_start_update` and `_update_sensors` write into, and the functions that
    say what state each advertisement leaves behind. */
module TpmsParser {
  import opened Wrappers
  import opened Bytes
  import opened TpmsDecoders

  /** One entry of the advertisement's manufacturer data. */
  datatype ManufacturerEntry = ManufacturerEntry(companyId: uint16, payload: seq<uint8>)

  /** The fields of a received advertisement that the parser reads; the
      manufacturer data is kept in its iteration order. */
  datatype Advertisement = Advertisement(
    address: string,
    name: Option<string>,
    serviceUuids: seq<string>,
    manufacturerData: seq<ManufacturerEntry>)

  /** A timezone-aware wall-clock instant, supplied by the caller. */
  datatype Instant = Instant(epochMicros: int, utcOffsetMinutes: int)

  datatype SensorValue = Number(x: real) | Time(at: Instant)

  /** A sensor value with its display name. */
  datatype SensorEntry = SensorEntry(value: SensorValue, name: string)

  datatype BinarySensorEntry = BinarySensorEntry(value: bool, name: string)

  /** Everything the parser writes on the device-data object. */
  datatype DeviceState = DeviceState(
    manufacturer: Option<string>,
    deviceType: Option<string>,
    deviceName: Option<string>,
    title: Option<string>,
    sensors: map<string, SensorEntry>,
    binarySensors: map<string, BinarySensorEntry>)

  const Manufacturer: string := "TPMS"
  const PressureKey: string := "pressure"
  const TemperatureKey: string := "temperature"
  const BatteryKey: string := "battery"
  const TimestampKey: string := "timestamp"
  const AlarmKey: string := "alarm"

  /** The sensor keys every emitted reading writes. */
  const ReadingKeys: set<string> := {PressureKey, TemperatureKey, BatteryKey, TimestampKey}

  /** Device type, name and title: "TPMS " and the short form of the address. */
  function DeviceLabel(shortAddress: string): string
  {
    "TPMS " + shortAddress
  }

  /** The state `_update_sensors` leaves: the displayName set three times, four
      sensors written, the alarm written only when the reading has one. */
  function Emit(s: DeviceState, displayName: string, r: Reading, now: Instant): (t: DeviceState)
    ensures t.manufacturer == s.manufacturer
    ensures t.deviceType == Some(displayName) && t.deviceName == Some(displayName) && t.title == Some(displayName)
    ensures t.sensors.Keys == s.sensors.Keys + ReadingKeys
    ensures t.sensors[PressureKey] == SensorEntry(Number(r.pressure), "Pressure")
    ensures t.sensors[TemperatureKey] == SensorEntry(Number(r.temperature), "Temperature")
    ensures t.sensors[BatteryKey] == SensorEntry(Number(r.battery as real), "Battery")
    ensures t.sensors[TimestampKey] == SensorEntry(Time(now), "Last Update")
    ensures forall k | k in s.sensors && k !in ReadingKeys :: t.sensors[k] == s.sensors[k]
    ensures t.binarySensors.Keys == s.binarySensors.Keys + (if r.alarm.Some? then {AlarmKey} else {})
    ensures r.alarm.Some? ==> t.binarySensors[AlarmKey] == BinarySensorEntry(r.alarm.value, "Alarm")
    ensures forall k | k in s.binarySensors && k != AlarmKey :: t.binarySensors[k] == s.binarySensors[k]
    ensures r.alarm.None? ==> t.binarySensors == s.binarySensors
  {
    var sensors := s.sensors
      [PressureKey := SensorEntry(Number(r.pressure), "Pressure")]
      [TemperatureKey := SensorEntry(Number(r.temperature), "Temperature")]
      [BatteryKey := SensorEntry(Number(r.battery as real), "Battery")]
      [TimestampKey := SensorEntry(Time(now), "Last Update")];
    var binarySensors :=
      if r.alarm.Some? then s.binarySensors[AlarmKey := BinarySensorEntry(r.alarm.value, "Alarm")]
      else s.binarySensors;
    s.(deviceType := Some(displayName), deviceName := Some(displayName), title := Some(displayName),
       sensors := sensors, binarySensors := binarySensors)
  }

  /** The reading an advertisement yields: only its first manufacturer entry is decoded. */
  function AdvertisedReading(adv: Advertisement): (r: Option<Reading>)
    ensures adv.manufacturerData == [] ==> r.None?
    ensures adv.manufacturerData != [] ==>
      r == Decode(adv.serviceUuids, adv.manufacturerData[0].companyId, adv.manufacturerData[0].payload)
  {
    if |adv.manufacturerData| == 0 then None
    else
      var entry := adv.manufacturerData[0];
      Decode(adv.serviceUuids, entry.companyId, entry.payload)
  }

  /** The state `_start_update` leaves; `shortAddress` stands for the
      address shortening the library provides. */
  function Apply(s: DeviceState, adv: Advertisement, shortAddress: string -> string, now: Instant): (t: DeviceState)
    ensures adv.manufacturerData == [] ==> t == s
    ensures adv.manufacturerData != [] ==> t.manufacturer == Some(Manufacturer)
    ensures AdvertisedReading(adv).None? && adv.manufacturerData != [] ==> t == s.(manufacturer := Some(Manufacturer))
    ensures AdvertisedReading(adv).Some? ==>
      t == Emit(s.(manufacturer := Some(Manufacturer)), DeviceLabel(shortAddress(adv.address)), AdvertisedReading(adv).value, now)
  {
    if |adv.manufacturerData| == 0 then s
    else
      var entry := adv.manufacturerData[0];
      var s1 := s.(manufacturer := Some(Manufacturer));
      match Decode(adv.serviceUuids, entry.companyId, entry.payload)
      case None => s1
      case Some(r) => Emit(s1, DeviceLabel(shortAddress(adv.address)), r, now)
  }

  /** Emitting the same reading twice leaves what emitting it once leaves. */
  lemma EmitIdempotent(s: DeviceState, displayName: string, r: Reading, now: Instant)
    ensures Emit(Emit(s, displayName, r, now), displayName, r, now) == Emit(s, displayName, r, now)
  { }

  /** Processing the same advertisement twice (at the same instant) changes
      nothing the first processing did not. */
  lemma ApplyIdempotent(s: DeviceState, adv: Advertisement, shortAddress: string -> string, now: Instant)
    ensures Apply(Apply(s, adv, shortAddress, now), adv, shortAddress, now) == Apply(s, adv, shortAddress, now)
  { }

  /** Two processings of one advertisement at different instants differ only
      in the timestamp sensor. */
  lemma ApplyDependsOnClockOnlyInTimestamp(s: DeviceState, adv: Advertisement, shortAddress: string -> string, now1: Instant, now2: Instant)
    ensures Apply(s, adv, shortAddress, now1).sensors.Keys == Apply(s, adv, shortAddress, now2).sensors.Keys
    ensures forall k | k in Apply(s, adv, shortAddress, now1).sensors && k != TimestampKey ::
      Apply(s, adv, shortAddress, now1).sensors[k] == Apply(s, adv, shortAddress, now2).sensors[k]
    ensures Apply(s, adv, shortAddress, now1).(sensors := map[]) == Apply(s, adv, shortAddress, now2).(sensors := map[])
  { }

  /** Entries after the first manufacturer entry never influence the result. */
  lemma ApplyReadsFirstEntryOnly(s: DeviceState, adv: Advertisement, more: seq<ManufacturerEntry>, shortAddress: string -> string, now: Instant)
    requires adv.manufacturerData != []
    ensures Apply(s, adv.(manufacturerData := [adv.manufacturerData[0]] + more), shortAddress, now)
         == Apply(s, adv, shortAddress, now)
  { }

  /** Only a type-A advertisement can write the alarm sensor, and it writes it
      exactly when its 16-byte payload decodes; it reflects byte 15. */
  lemma AlarmWrittenOnlyForTypeA(s: DeviceState, adv: Advertisement, shortAddress: string -> string, now: Instant)
    requires adv.manufacturerData != []
    ensures var t := Apply(s, adv, shortAddress, now);
            var e := adv.manufacturerData[0];
            (Classify(adv.serviceUuids, e.companyId) != Some(TypeA) || |e.payload| != 16 ==> t.binarySensors == s.binarySensors) &&
            (Classify(adv.serviceUuids, e.companyId) == Some(TypeA) && |e.payload| == 16 ==>
               AlarmKey in t.binarySensors && t.binarySensors[AlarmKey].value == (e.payload[15] != 0))
  { }

  /** An advertisement that no decoder claims only sets the manufacturer. */
  lemma UnsupportedSetsManufacturerOnly(s: DeviceState, adv: Advertisement, shortAddress: string -> string, now: Instant)
    requires adv.manufacturerData != []
    requires Classify(adv.serviceUuids, adv.manufacturerData[0].companyId).None?
    ensures Apply(s, adv, shortAddress, now) == s.(manufacturer := Some(Manufacturer))
  { }

  /** The device-data object (`TPMSBluetoothDeviceData`): its methods write the
      fields the parser touches. */
  class DeviceData {
    var manufacturer: Option<string>
    var deviceType: Option<string>
    var deviceName: Option<string>
    var title: Option<string>
    var sensors: map<string, SensorEntry>
    var binarySensors: map<string, BinarySensorEntry>

    function State(): DeviceState
      reads this
    {
      DeviceState(manufacturer, deviceType, deviceName, title, sensors, binarySensors)
    }

    constructor ()
      ensures State() == DeviceState(None, None, None, None, map[], map[])
    {
      manufacturer, deviceType, deviceName, title := None, None, None, None;
      sensors, binarySensors := map[], map[];
    }

    method SetDeviceManufacturer(m: string)
      modifies this
      ensures State() == old(State()).(manufacturer := Some(m))
    {
      manufacturer := Some(m);
    }

    method SetDeviceType(t: string)
      modifies this
      ensures State() == old(State()).(deviceType := Some(t))
    {
      deviceType := Some(t);
    }

    method SetDeviceName(n: string)
      modifies this
      ensures State() == old(State()).(deviceName := Some(n))
    {
      deviceName := Some(n);
    }

    method SetTitle(t: string)
      modifies this
      ensures State() == old(State()).(title := Some(t))
    {
      title := Some(t);
    }

    method UpdateSensor(key: string, value: SensorValue, name: string)
      modifies this
      ensures State() == old(State()).(sensors := old(sensors)[key := SensorEntry(value, name)])
    {
      sensors := sensors[key := SensorEntry(value, name)];
    }

    method UpdateBinarySensor(key: string, value: bool, name: string)
      modifies this
      ensures State() == old(State()).(binarySensors := old(binarySensors)[key := BinarySensorEntry(value, name)])
    {
      binarySensors := binarySensors[key := BinarySensorEntry(value, name)];
    }

    /** `_update_sensors`. */
    method UpdateSensors(address: string, pressure: real, battery: int, temperature: real, alarm: Option<bool>,
                         shortAddress: string -> string, now: Instant)
      modifies this
      ensures State() == Emit(old(State()), DeviceLabel(shortAddress(address)),
                              Reading(pressure, temperature, battery, alarm), now)
    {
      var name := DeviceLabel(shortAddress(address));
      SetDeviceType(name);
      SetDeviceName(name);
      SetTitle(name);
      UpdateSensor(PressureKey, Number(pressure), "Pressure");
      UpdateSensor(TemperatureKey, Number(temperature), "Temperature");
      UpdateSensor(BatteryKey, Number(battery as real), "Battery");
      if alarm.Some? {
        UpdateBinarySensor(AlarmKey, alarm.value, "Alarm");
      }
      UpdateSensor(TimestampKey, Time(now), "Last Update");
    }

    /** Writes the reading, if the payload decoded to one. */
    method Report(address: string, r: Option<Reading>, shortAddress: string -> string, now: Instant)
      modifies this
      ensures r.None? ==> State() == old(State())
      ensures r.Some? ==> State() == Emit(old(State()), DeviceLabel(shortAddress(address)), r.value, now)
    {
      if r.Some? {
        UpdateSensors(address, r.value.pressure, r.value.battery, r.value.temperature, r.value.alarm, shortAddress, now);
      }
    }

    /** `_process_tpms_a`. */
    method ProcessTypeA(address: string, localName: Option<string>, data: seq<uint8>,
                        shortAddress: string -> string, now: Instant)
      modifies this
      ensures |data| != 16 ==> State() == old(State())
      ensures |data| == 16 ==> State() == Emit(old(State()), DeviceLabel(shortAddress(address)), DecodeA(data).value, now)
    {
      Report(address, DecodeA(data), shortAddress, now);
    }

    /** `_process_tpms_b`. */
    method ProcessTypeB(address: string, localName: Option<string>, data: seq<uint8>, companyId: uint16,
                        shortAddress: string -> string, now: Instant)
      modifies this
      ensures |data| != 5 ==> State() == old(State())
      ensures |data| == 5 ==>
        State() == Emit(old(State()), DeviceLabel(shortAddress(address)), DecodeB(data, companyId).value, now)
    {
      Report(address, DecodeB(data, companyId), shortAddress, now);
    }

    /** `_process_tpms_c`. */
    method ProcessTypeC(address: string, localName: Option<string>, data: seq<uint8>, companyId: uint16,
                        shortAddress: string -> string, now: Instant)
      modifies this
      ensures |data| != 18 ==> State() == old(State())
      ensures |data| == 18 ==> State() == Emit(old(State()), DeviceLabel(shortAddress(address)), DecodeC(data).value, now)
    {
      Report(address, DecodeC(data), shortAddress, now);
    }

    /** `_start_update`: the manufacturer is set only when there is
        manufacturer data, then the first entry goes to its decoder. */
    method StartUpdate(adv: Advertisement, shortAddress: string -> string, now: Instant)
      modifies this
      ensures State() == Apply(old(State()), adv, shortAddress, now)
    {
      if |adv.manufacturerData| == 0 {
        return;
      }
      var entry := adv.manufacturerData[0];
      SetDeviceManufacturer(Manufacturer);
      if TypeBServiceUuid in adv.serviceUuids {
        ProcessTypeB(adv.address, adv.name, entry.payload, entry.companyId, shortAddress, now);
      } else if Fbb0ServiceUuid in adv.serviceUuids {
        ProcessTypeC(adv.address, adv.name, entry.payload, entry.companyId, shortAddress, now);
      } else if entry.companyId == TypeACompanyId {
        ProcessTypeA(adv.address, adv.name, entry.payload, shortAddress, now);
      } else if entry.companyId in TypeCCompanyIds {
        ProcessTypeC(adv.address, adv.name, entry.payload, entry.companyId, shortAddress, now);
      }
    }
  }
}

/** The pure half of the TPMS advertisement parser: choosing a vendor format
    from the advertised service UUIDs and company identifier, and the three
    fixed-length decoders that turn a manufacturer payload into a reading. */
module TpmsDecoders {
  import opened Wrappers
  import opened Bytes
  import opened Hex
  import opened Rounding

  /** Service UUID that marks a type-B sensor. */
  const TypeBServiceUuid: string := "000027a5-0000-1000-8000-00805f9b34fb"

  /** Service UUID that sends an advertisement to the type-C decoder, unless
      the type-B UUID is advertised as well. */
  const Fbb0ServiceUuid: string := "0000fbb0-0000-1000-8000-00805f9b34fb"

  /** Company identifier of type-A sensors. */
  const TypeACompanyId: int := 256

  /** Company identifiers 0x0180 to 0x0183, decoded as type C. */
  const TypeCCompanyIds: set<int> := {384, 385, 386, 387}

  datatype Format = TypeA | TypeB | TypeC

  /** A decoded reading: pressure in bar, temperature in degrees Celsius,
      battery in percent, and the alarm flag of the formats that carry one. */
  datatype Reading = Reading(pressure: real, temperature: real, battery: int, alarm: Option<bool>)

  /** The format `_start_update` dispatches to; the first matching rule wins. */
  function Classify(serviceUuids: seq<string>, companyId: uint16): (f: Option<Format>)
    ensures f == Some(TypeB) <==> TypeBServiceUuid in serviceUuids
    ensures f == Some(TypeC) <==>
      TypeBServiceUuid !in serviceUuids &&
      (Fbb0ServiceUuid in serviceUuids || companyId in TypeCCompanyIds)
    ensures f == Some(TypeA) <==>
      TypeBServiceUuid !in serviceUuids && Fbb0ServiceUuid !in serviceUuids && companyId == TypeACompanyId
    ensures f == None <==>
      TypeBServiceUuid !in serviceUuids && Fbb0ServiceUuid !in serviceUuids &&
      companyId != TypeACompanyId && companyId !in TypeCCompanyIds
  {
    if TypeBServiceUuid in serviceUuids then Some(TypeB)
    else if Fbb0ServiceUuid in serviceUuids then Some(TypeC)
    else if companyId == TypeACompanyId then Some(TypeA)
    else if companyId in TypeCCompanyIds then Some(TypeC)
    else None
  }

  // ---------------------------------------------------------------- type A

  /** `_process_tpms_a`: 16 bytes; bytes 6..16 unpacked as `=iib?` (taken
      little-endian): signed 32-bit pressure and temperature, a signed battery
      byte and a boolean alarm byte. */
  function DecodeA(data: seq<uint8>): (r: Option<Reading>)
    ensures r.Some? <==> |data| == 16
    ensures r.Some? ==> r.value.alarm == Some(data[15] != 0)
    ensures r.Some? ==> r.value.battery == Signed(data[14], 1) && -128 <= r.value.battery <= 127
    ensures r.Some? ==> r.value.pressure == Signed(UIntLE(data[6..10]), 4) as real / 100000.0
    ensures r.Some? ==> r.value.temperature == Signed(UIntLE(data[10..14]), 4) as real / 100.0
    ensures r.Some? ==> -21474.83648 <= r.value.pressure < 21474.83648
    ensures r.Some? ==> -21474836.48 <= r.value.temperature < 21474836.48
  {
    if |data| != 16 then None
    else
      Pow256Values();
      var pressure := Signed(UIntLE(data[6..10]), 4);
      var temperature := Signed(UIntLE(data[10..14]), 4);
      var battery := Signed(UIntLE(data[14..15]), 1);
      var alarm := data[15] != 0;
      assert UIntLE(data[14..15]) == data[14];
      Some(Reading(pressure as real / 100000.0, temperature as real / 100.0, battery, Some(alarm)))
  }

  /** A type-A payload: six header bytes, then the four packed fields. */
  function EncodeA(header: seq<uint8>, pressure: int, temperature: int, battery: int, alarm: uint8): (data: seq<uint8>)
    requires |header| == 6
    requires -0x8000_0000 <= pressure < 0x8000_0000 && -0x8000_0000 <= temperature < 0x8000_0000
    requires -0x80 <= battery < 0x80
    ensures |data| == 16
  {
    Pow256Values();
    header + ToLE(Unsigned(pressure, 4), 4) + ToLE(Unsigned(temperature, 4), 4)
      + ToLE(Unsigned(battery, 1), 1) + [alarm]
  }

  /** Decoding an encoded type-A payload gives back its fields, scaled. */
  lemma DecodeAOfEncodeA(header: seq<uint8>, pressure: int, temperature: int, battery: int, alarm: uint8)
    requires |header| == 6
    requires -0x8000_0000 <= pressure < 0x8000_0000 && -0x8000_0000 <= temperature < 0x8000_0000
    requires -0x80 <= battery < 0x80
    ensures DecodeA(EncodeA(header, pressure, temperature, battery, alarm))
         == Some(Reading(pressure as real / 100000.0, temperature as real / 100.0, battery, Some(alarm != 0)))
  {
    Pow256Values();
    var p := ToLE(Unsigned(pressure, 4), 4);
    var t := ToLE(Unsigned(temperature, 4), 4);
    var b := ToLE(Unsigned(battery, 1), 1);
    var data := EncodeA(header, pressure, temperature, battery, alarm);
    assert data == header + p + t + b + [alarm];
    assert data[6..10] == p && data[10..14] == t && data[14..15] == b && data[15] == alarm;
  }

  /** Packed pressure 500000, temperature 2500, battery 80 and alarm 1 read
      as 5 bar, 25 degrees, 80 percent and the alarm on. */
  lemma TypeAFixture()
    ensures DecodeA(EncodeA([0, 0, 0, 0, 0, 0], 500000, 2500, 80, 1)) == Some(Reading(5.0, 25.0, 80, Some(true)))
  { }

  // ---------------------------------------------------------------- type B

  /** The company identifier as `_process_tpms_b` rewrites it: `hex()`,
      zero-filled to four digits, split in pairs, pairs reversed and joined. */
  function SwappedCompanyHex(companyId: uint16): string
  {
    Concat(Reverse(Pairs(ZFill(HexString(companyId), 4))))
  }

  /** Characters 2..4 of the swapped company hex are the identifier's high byte. */
  lemma VoltageDigitsAreHighByte(companyId: uint16)
    ensures IsHexString(Slice(SwappedCompanyHex(companyId), 2, 4))
    ensures ParseHex(Slice(SwappedCompanyHex(companyId), 2, 4)) == companyId / 256
  {
    var z := ZFill(HexString(companyId), 4);
    FourDigits(companyId);
    SwapPairsOfFour(z);
    assert z == z[..2] + z[2..];
    ParseHexAppend(z[..2], z[2..]);
    assert Pow16(2) == 256 by { assert Pow16(1) == 16; }
    HighByte(companyId, ParseHex(z[..2]), ParseHex(z[2..]));
  }

  /** `hex(c)[2:].zfill(4)` is four digits spelling c. */
  lemma FourDigits(companyId: uint16)
    ensures |ZFill(HexString(companyId), 4)| == 4
    ensures IsHexString(ZFill(HexString(companyId), 4))
    ensures ParseHex(ZFill(HexString(companyId), 4)) == companyId
  {
    var h := HexString(companyId);
    assert Pow16(4) == 0x1_0000 by {
      assert Pow16(2) == 256 by { assert Pow16(1) == 16; }
      assert Pow16(4) == 16 * (16 * Pow16(2));
    }
    HexStringLength(companyId, 4);
    if |h| < 4 {
      ParseHexAppend(Zeros(4 - |h|), h);
      ParseHexZeros(4 - |h|);
    }
  }

  /** Swapping the two pairs of a four-character string moves its first pair to 2..4. */
  lemma SwapPairsOfFour(z: string)
    requires |z| == 4
    ensures Slice(Concat(Reverse(Pairs(z))), 2, 4) == z[..2]
  {
    assert Pairs(z[2..]) == [z[2..4]] by {
      assert z[2..][..2] == z[2..4];
      assert Pairs(z[2..][2..]) == [];
    }
    assert Pairs(z) == [z[..2], z[2..4]];
    assert Reverse([z[..2], z[2..4]]) == [z[2..4], z[..2]] by {
      assert [z[..2], z[2..4]][1..] == [z[2..4]];
      assert Reverse([z[2..4]]) == [z[2..4]];
    }
    assert Concat([z[2..4], z[..2]]) == z[2..4] + z[..2] by {
      assert [z[2..4], z[..2]][1..] == [z[..2]];
      assert Concat([z[..2]]) == z[..2];
    }
  }

  lemma HighByte(n: int, high: int, low: int)
    requires n == high * 256 + low && 0 <= low < 256
    ensures n / 256 == high
  { }

  /** `data.hex()[0:2]` and `[2:6]` read the first byte and the next two, big-endian. */
  lemma TypeBDataHex(data: seq<uint8>)
    requires |data| == 5
    ensures IsHexString(BytesHex(data)[0..2]) && ParseHex(BytesHex(data)[0..2]) == data[0]
    ensures IsHexString(BytesHex(data)[2..6]) && ParseHex(BytesHex(data)[2..6]) == UIntBE(data[1..3])
  {
    var h0, h1, h2 := ByteHex(data[0]), ByteHex(data[1]), ByteHex(data[2]);
    assert BytesHex(data) == h0 + (h1 + (h2 + BytesHex(data[3..]))) by {
      assert BytesHex(data) == h0 + BytesHex(data[1..]);
      assert data[1..][0] == data[1] && data[1..][1..] == data[2..];
      assert BytesHex(data[1..]) == h1 + BytesHex(data[2..]);
      assert data[2..][0] == data[2] && data[2..][1..] == data[3..];
      assert BytesHex(data[2..]) == h2 + BytesHex(data[3..]);
    }
    assert BytesHex(data)[0..2] == h0;
    assert BytesHex(data)[2..6] == h1 + h2;
    ParseByteHex(data[0]);
    ParseByteHex(data[1]);
    ParseByteHex(data[2]);
    ParseHexAppend(h1, h2);
    assert Pow16(2) == 256 by { assert Pow16(1) == 16; }
    assert data[1..3][..1] == [data[1]];
  }

  const MinVoltage: real := 2.6
  const MaxVoltage: real := 3.3

  /** Battery percentage of a type-B sensor: the voltage mapped linearly from
      [2.6, 3.3] onto [0, 100], clamped, and rounded to an integer. */
  function BatteryFromVoltage(voltage: real): (battery: int)
    ensures 0 <= battery <= 100
    ensures voltage <= MinVoltage ==> battery == 0
    ensures voltage >= MaxVoltage ==> battery == 100
  {
    var level := (voltage - MinVoltage) / (MaxVoltage - MinVoltage) * 100.0;
    RoundHalfEven(Clamp(level, 0.0, 100.0))
  }

  /** A higher voltage never shows a lower battery percentage. */
  lemma BatteryMonotone(v1: real, v2: real)
    requires v1 <= v2
    ensures BatteryFromVoltage(v1) <= BatteryFromVoltage(v2)
  {
    var l1 := (v1 - MinVoltage) / (MaxVoltage - MinVoltage) * 100.0;
    var l2 := (v2 - MinVoltage) / (MaxVoltage - MinVoltage) * 100.0;
    ClampMonotone(l1, l2, 0.0, 100.0);
    RoundHalfEvenMonotone(Clamp(l1, 0.0, 100.0), Clamp(l2, 0.0, 100.0));
  }

  /** Type-B pressure: the raw reading is psi times ten plus 145, converted to bar. */
  function TypeBPressure(raw: int): real
  {
    RoundTo3((raw - 145) as real / 10.0 * 0.0689476)
  }

  /** `_process_tpms_b`, which works on hex text: the payload must print as
      10 hex digits; the voltage comes from the company identifier's digits. */
  function DecodeB(data: seq<uint8>, companyId: uint16): (r: Option<Reading>)
    ensures r.Some? <==> |data| == 5
    ensures r.Some? ==> r.value == Reading(
      TypeBPressure(UIntBE(data[1..3])),
      Signed(data[0], 1) as real,
      BatteryFromVoltage((companyId / 256) as real / 10.0),
      None)
    ensures r.Some? ==> -128.0 <= r.value.temperature <= 127.0 && 0 <= r.value.battery <= 100
  {
    var compHex := SwappedCompanyHex(companyId);
    var dataHex := BytesHex(data);
    if |dataHex| != 10 then None
    else
      VoltageDigitsAreHighByte(companyId);
      TypeBDataHex(data);
      Pow256Values();
      var voltage := ParseHex(Slice(compHex, 2, 4)) as real / 10.0;
      var t := ParseHex(dataHex[0..2]);
      var temperature := if t >= 0x80 then t - 0x100 else t;
      var psi := (ParseHex(dataHex[2..6]) - 145) as real / 10.0;
      var pressure := RoundTo3(psi * 0.0689476);
      var battery := BatteryFromVoltage(voltage);
      assert voltage == (companyId / 256) as real / 10.0;
      assert temperature == Signed(data[0], 1);
      assert pressure == TypeBPressure(UIntBE(data[1..3]));
      Some(Reading(pressure, temperature as real, battery, None))
  }

  /** Temperature byte 0x19, pressure bytes 0x0917 (2327, so 218.2 psi) and
      company identifier 0x2000 (3.2 V) read as 15.044 bar, 25 degrees, 86 percent. */
  lemma TypeBFixture()
    ensures DecodeB([0x19, 0x09, 0x17, 0x00, 0x00], 0x2000) == Some(Reading(15.044, 25.0, 86, None))
  {
    var data: seq<uint8> := [0x19, 0x09, 0x17, 0x00, 0x00];
    assert data[1..3] == [0x09, 0x17];
    assert UIntBE([0x09, 0x17]) == 2327 by { assert [0x09, 0x17][..1] == [0x09]; }
    assert RoundHalfEven(15044.36632) == 15044;
    assert RoundHalfEven(600.0 / 7.0) == 86;
    assert (3.2 - MinVoltage) / (MaxVoltage - MinVoltage) * 100.0 == 600.0 / 7.0;
  }

  // ---------------------------------------------------------------- type C

  /** `_process_tpms_c`: 18 bytes; after the six header bytes, a little-endian
      signed 16-bit temperature at offset 4, an unsigned 32-bit pressure at
      offset 6 and a battery byte at offset 10, capped at 100. */
  function DecodeC(data: seq<uint8>): (r: Option<Reading>)
    ensures r.Some? <==> |data| == 18
    ensures r.Some? ==> r.value.alarm.None? && 0.0 <= r.value.pressure
    ensures r.Some? ==> r.value.battery == (if data[16] < 100 then data[16] else 100)
    ensures r.Some? ==> r.value.temperature == Signed(UIntLE(data[10..12]), 2) as real / 100.0
    ensures r.Some? ==> r.value.pressure == UIntLE(data[12..16]) as real / 100000.0
  {
    if |data| != 18 then None
    else
      var sensorData := data[6..18];
      if |sensorData| >= 10 then
        Pow256Values();
        assert sensorData[6..10] == data[12..16];
        assert sensorData[4..6] == data[10..12];
        var pressureRaw := UIntLE(sensorData[6..10]);
        var temperatureRaw := Signed(UIntLE(sensorData[4..6]), 2);
        var batteryRaw: int := if |sensorData| > 10 then sensorData[10] else 50;
        var battery: int := if 100 < batteryRaw then 100 else if batteryRaw < 0 then 0 else batteryRaw;
        Some(Reading(pressureRaw as real / 100000.0, temperatureRaw as real / 100.0, battery, None))
      else
        None
  }

  /** A type-C payload: ten leading bytes, the temperature, the pressure,
      the battery byte and one trailing byte. */
  function EncodeC(header: seq<uint8>, temperature: int, pressure: nat, battery: uint8, trailer: uint8): (data: seq<uint8>)
    requires |header| == 10
    requires -0x8000 <= temperature < 0x8000 && pressure < 0x1_0000_0000
    ensures |data| == 18
  {
    Pow256Values();
    header + ToLE(Unsigned(temperature, 2), 2) + ToLE(pressure, 4) + [battery, trailer]
  }

  /** Decoding an encoded type-C payload gives back its fields, scaled and capped. */
  lemma DecodeCOfEncodeC(header: seq<uint8>, temperature: int, pressure: nat, battery: uint8, trailer: uint8)
    requires |header| == 10
    requires -0x8000 <= temperature < 0x8000 && pressure < 0x1_0000_0000
    ensures DecodeC(EncodeC(header, temperature, pressure, battery, trailer))
         == Some(Reading(pressure as real / 100000.0, temperature as real / 100.0,
                         if battery < 100 then battery else 100, None))
  {
    Pow256Values();
    var t := ToLE(Unsigned(temperature, 2), 2);
    var p := ToLE(pressure, 4);
    var data := EncodeC(header, temperature, pressure, battery, trailer);
    assert data == header + t + p + [battery, trailer];
    assert data[10..12] == t && data[12..16] == p && data[16] == battery;
  }

  // ---------------------------------------------------------------- dispatch

  /** The reading `_start_update` obtains from one manufacturer entry, if any. */
  function Decode(serviceUuids: seq<string>, companyId: uint16, data: seq<uint8>): (r: Option<Reading>)
    ensures r.Some? && r.value.alarm.Some? <==> Classify(serviceUuids, companyId) == Some(TypeA) && |data| == 16
    ensures r.Some? && Classify(serviceUuids, companyId) != Some(TypeA) ==> 0 <= r.value.battery <= 100
    ensures Classify(serviceUuids, companyId).None? ==> r.None?
    ensures Classify(serviceUuids, companyId) == Some(TypeA) ==> r == DecodeA(data)
    ensures Classify(serviceUuids, companyId) == Some(TypeB) ==> r == DecodeB(data, companyId)
    ensures Classify(serviceUuids, companyId) == Some(TypeC) ==> r == DecodeC(data)
  {
    match Classify(serviceUuids, companyId)
    case None => None
    case Some(TypeA) => DecodeA(data)
    case Some(TypeB) => DecodeB(data, companyId)
    case Some(TypeC) => DecodeC(data)
  }
}

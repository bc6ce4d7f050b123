# TPMS BLE advertisement parser, modelled in Dafny

This project models the core of the `tpms_ble` Home Assistant integration. Tire-pressure sensors broadcast
Bluetooth Low Energy advertisements, and the integration turns them into pressure, temperature, battery
and alarm values. The model covers two parts of it.

- **The advertisement parser** (`custom_components/tpms_ble/tpms_parser/parser.py`).
  - `_start_update` takes the first manufacturer-data entry.
  - It picks one of three vendor formats (A, B, C) from the advertised service UUIDs and the company identifier.
  - The format's fixed-length decoder turns the payload into a reading.
  - `_update_sensors` writes that reading into the device-data object as named sensor values.
- **Manual MAC-address entry** (`custom_components/tpms_ble/config_flow.py`, the manual branch of `async_step_user`).
  - The typed text is trimmed, upper-cased and has its separators normalised.
  - A bare 12-digit form gets its colons.
  - The result is checked against `^([0-9A-F]{2}[:]){5}([0-9A-F]{2})$`.
  - The entry title is built from the last two octets.

Files, one module each:

| file | module | what it holds |
|---|---|---|
| `wrappers.dfy` | `Wrappers` | `Option`, `Result` |
| `bytes.dfy` | `Bytes` | little- and big-endian unsigned fields, two's complement, their encoders and round trips |
| `hex.dfy` | `Hex` | the Python string operations used by decoder B: `hex()`, `zfill`, `re.findall("..")`, `"".join`, slicing, `bytes.hex()`, `int(s, 16)` |
| `rounding.dfy` | `Rounding` | Python's `round` (ties to even) on exact reals, and the clamp |
| `tpms_decoders.dfy` | `TpmsDecoders` | the format classifier and decoders A, B and C, as pure functions returning `Option<Reading>` |
| `tpms_parser.dfy` | `TpmsParser` | the device-data object as class `DeviceData`, its methods `StartUpdate`, `ProcessTypeA/B/C` and `UpdateSensors`, and the functions `Apply` and `Emit` that give the state each one leaves |
| `mac_address.dfy` | `MacAddress` | MAC normalisation, the pattern test, the title, and their lemmas |

The parser methods change the object's fields. Each method's postcondition equates the new state with
`Apply` or `Emit` applied to the old state. The properties are proved about those two functions: which keys
are written, that nothing else changes, idempotence, and that only type A writes the alarm.

Some behaviours of the code that are easy to misread:
- parser.py has no TomTom decoder. An advertisement with the `fbb0` service UUID goes to decoder C, for any company identifier, unless the `000027a5` UUID is also advertised, which sends it to decoder B.
- Decoder A does not clamp its battery value. It is the signed byte as read, in [-128, 127].
- Decoder C writes no reading when the payload is not 18 bytes long.
- The MAC normalisation lives in config_flow.py, outside the parser package. It is modelled here as well.

## Model

| member | source | states |
|---|---|---|
| `TpmsDecoders.Classify` | custom_components/tpms_ble/tpms_parser/parser.py:47-57 | first match wins: the 27a5 UUID gives B whatever the company id; else the fbb0 UUID gives C; else company 256 gives A; else 384-387 give C; else nothing. Each outcome is stated as an if-and-only-if |
| `TpmsDecoders.Decode` | custom_components/tpms_ble/tpms_parser/parser.py:47-57 | a type-A advertisement gets decoder A's result, type B decoder B's (with the company id) and type C decoder C's; an unclassified advertisement gives no reading; a reading has an alarm exactly when the format is A and the payload is 16 bytes; formats B and C give a battery in [0, 100] |
| `TpmsDecoders.DecodeA` | custom_components/tpms_ble/tpms_parser/parser.py:59-74 | a reading exists iff the payload is 16 bytes; the alarm is byte 15 being non-zero; the battery is byte 14 as a signed byte, not clamped; pressure is the signed little-endian 32-bit value at bytes 6..10 divided by 100000 and temperature the one at bytes 10..14 divided by 100, both within the scaled 32-bit range |
| `TpmsDecoders.DecodeAOfEncodeA` | custom_components/tpms_ble/tpms_parser/parser.py:66-73 | a payload packing the fields `=iib?` at offset 6 decodes to pressure/100000, temperature/100, the battery and the alarm flag |
| `TpmsDecoders.TypeAFixture` | custom_components/tpms_ble/tpms_parser/parser.py:66-73 | raw 500000, 2500, 80 and alarm 1 read as 5.0 bar, 25.0 degrees, 80 percent and alarm on |
| `TpmsDecoders.VoltageDigitsAreHighByte` | custom_components/tpms_ble/tpms_parser/parser.py:79-87 | zero-filling, splitting, reversing and rejoining the company id's hex and then taking characters 2..4 gives the id's high byte |
| `TpmsDecoders.TypeBDataHex` | custom_components/tpms_ble/tpms_parser/parser.py:81-91 | on a 5-byte payload, hex characters 0..2 spell byte 0 and characters 2..6 spell bytes 1..3 big-endian |
| `TpmsDecoders.BatteryFromVoltage` | custom_components/tpms_ble/tpms_parser/parser.py:94-97 | the battery is in [0, 100]; it is 0 at or below 2.6 V and 100 at or above 3.3 V |
| `TpmsDecoders.BatteryMonotone` | custom_components/tpms_ble/tpms_parser/parser.py:94-97 | a higher voltage never gives a lower battery percentage, because the clamp and the rounding both keep order |
| `TpmsDecoders.DecodeB` | custom_components/tpms_ble/tpms_parser/parser.py:76-98 | the hex-text decoder gives a reading iff the payload is 5 bytes (10 hex digits). That reading is the signed first byte as temperature (in [-128, 127]), psi = (big-endian bytes 1..3 - 145) / 10 converted to bar and rounded to 3 places, the battery of voltage = high byte of the company id / 10, and no alarm |
| `TpmsDecoders.TypeBFixture` | custom_components/tpms_ble/tpms_parser/parser.py:87-97 | bytes 19 09 17 00 00 with company 0x2000 read as 15.044 bar, 25 degrees and 86 percent |
| `TpmsDecoders.DecodeC` | custom_components/tpms_ble/tpms_parser/parser.py:100-134 | a reading exists iff the payload is 18 bytes, so the short-slice branch and the default battery of 50 never apply. Pressure is little-endian u32 of bytes 12..16 / 100000, temperature is little-endian i16 of bytes 10..12 / 100, battery is min(100, byte 16), and there is no alarm |
| `TpmsDecoders.DecodeCOfEncodeC` | custom_components/tpms_ble/tpms_parser/parser.py:113-127 | a payload built from a temperature, a pressure and a battery byte decodes to them, scaled, with the battery capped at 100 |
| `Rounding.RoundHalfEven` | custom_components/tpms_ble/tpms_parser/parser.py:97 | the result is an integer at most 1/2 from x, and an exact tie goes to the even neighbour |
| `Rounding.RoundTo3` | custom_components/tpms_ble/tpms_parser/parser.py:93 | the result is a multiple of 0.001 within 0.0005 of x |
| `Rounding.Clamp` | custom_components/tpms_ble/tpms_parser/parser.py:97 | `max(lo, min(hi, x))` lies in [lo, hi] and is x when x is already inside |
| `Hex.HexString` | custom_components/tpms_ble/tpms_parser/parser.py:79 | `hex(n)[2:]` is non-empty hex digits that parse back to n |
| `Hex.ParseHexAppend` | custom_components/tpms_ble/tpms_parser/parser.py:87-91 | `int(a + b, 16)` is `int(a, 16) * 16^len(b) + int(b, 16)` |
| `Bytes.ToLE` | custom_components/tpms_ble/tpms_parser/parser.py:119 | the n-byte little-endian encoding of x reads back as x under `int.from_bytes(..., 'little')` |
| `Bytes.ToLEOfUIntLE` | custom_components/tpms_ble/tpms_parser/parser.py:119-120 | re-encoding a little-endian value gives back the same bytes |
| `Bytes.Unsigned` | custom_components/tpms_ble/tpms_parser/parser.py:88-90 | the two's-complement pattern of v reads back as v under the signed reading |
| `Bytes.UnsignedOfSigned` | custom_components/tpms_ble/tpms_parser/parser.py:88-90 | the other half of the round trip: every n-byte pattern is the encoding of its signed reading, so the signed reading is a bijection |
| `TpmsParser.Emit` | custom_components/tpms_ble/tpms_parser/parser.py:141-176 | device type, name and title are all "TPMS " + short address. Pressure, temperature, battery and timestamp are written with their display names. The alarm is written iff the reading has one. Every other key keeps its value, and the manufacturer is untouched |
| `TpmsParser.AdvertisedReading` | custom_components/tpms_ble/tpms_parser/parser.py:41-44 | empty manufacturer data yields no reading; otherwise the reading is the dispatch decoding of the first entry's company id and payload |
| `TpmsParser.Apply` | custom_components/tpms_ble/tpms_parser/parser.py:35-57 | with no manufacturer data nothing changes, not even the manufacturer. Otherwise the manufacturer becomes "TPMS" and then either nothing else changes or the decoded reading is emitted |
| `TpmsParser.EmitIdempotent` | custom_components/tpms_ble/tpms_parser/parser.py:141-176 | emitting a reading twice leaves what emitting it once leaves |
| `TpmsParser.ApplyIdempotent` | custom_components/tpms_ble/tpms_parser/parser.py:35-57 | processing the same advertisement twice at the same instant equals processing it once |
| `TpmsParser.ApplyDependsOnClockOnlyInTimestamp` | custom_components/tpms_ble/tpms_parser/parser.py:171-176 | processing one advertisement at two instants gives states that differ only in the timestamp sensor |
| `TpmsParser.ApplyReadsFirstEntryOnly` | custom_components/tpms_ble/tpms_parser/parser.py:44 | replacing every manufacturer entry after the first changes nothing |
| `TpmsParser.AlarmWrittenOnlyForTypeA` | custom_components/tpms_ble/tpms_parser/parser.py:165-170 | outside type A with 16 bytes the binary sensors are untouched; with them, the alarm holds byte 15 being non-zero |
| `TpmsParser.UnsupportedSetsManufacturerOnly` | custom_components/tpms_ble/tpms_parser/parser.py:45-57 | an advertisement no format claims only sets the manufacturer |
| `TpmsParser.DeviceData.UpdateSensors` | custom_components/tpms_ble/tpms_parser/parser.py:141-176 | the object's new state is `Emit` of its old state |
| `TpmsParser.DeviceData.ProcessTypeA` | custom_components/tpms_ble/tpms_parser/parser.py:59-74 | a payload that is not 16 bytes changes nothing; otherwise the type-A reading is emitted |
| `TpmsParser.DeviceData.ProcessTypeB` | custom_components/tpms_ble/tpms_parser/parser.py:76-98 | a payload that is not 5 bytes changes nothing; otherwise the type-B reading is emitted |
| `TpmsParser.DeviceData.ProcessTypeC` | custom_components/tpms_ble/tpms_parser/parser.py:100-134 | a payload that is not 18 bytes changes nothing; otherwise the type-C reading is emitted |
| `TpmsParser.DeviceData.StartUpdate` | custom_components/tpms_ble/tpms_parser/parser.py:35-57 | the object's new state is `Apply` of its old state and the advertisement |
| `MacAddress.ManualEntry` | custom_components/tpms_ble/config_flow.py:76-91 | `invalid_mac_format` iff the normalised text fails the pattern. An accepted address is the normalised text, 17 characters long, with colons at 2, 5, 8, 11 and 14 and upper-case hex digits elsewhere. Its title is "TPMS " + the last two octets without the colon |
| `MacAddress.PatternIsWellFormed` | custom_components/tpms_ble/config_flow.py:87 | the regular expression, with a final newline ruled out, accepts exactly the well-formed 17-character addresses |
| `MacAddress.NormalizeHasNoFinalNewline` | custom_components/tpms_ble/config_flow.py:77-84 | normalised text never ends in a newline, so `$` can only match at the end of the string |
| `MacAddress.CleanEnd` | custom_components/tpms_ble/config_flow.py:77-79 | text after strip, upper and the separator replacements never ends in whitespace |
| `MacAddress.ColonPairsSpelled` | custom_components/tpms_ble/config_flow.py:80-82 | joining the six pairs of a 12-character string gives `AA:BB:CC:DD:EE:FF` |
| `MacAddress.NormalizeWellFormed` | custom_components/tpms_ble/config_flow.py:77-91 | an accepted address normalises to itself and is accepted again with the same title |
| `MacAddress.NormalizeBare` | custom_components/tpms_ble/config_flow.py:80-82 | the twelve bare digits of an address normalise to the address |
| `MacAddress.NormalizeDashed` | custom_components/tpms_ble/config_flow.py:79 | dashes in place of the colons normalise to the address |
| `MacAddress.NormalizeSpaced` | custom_components/tpms_ble/config_flow.py:79-82 | spaces in place of the colons normalise to the address |
| `MacAddress.NormalizeLower` | custom_components/tpms_ble/config_flow.py:77 | the lower-case spelling normalises to the address |
| `MacAddress.NormalizeLowerDashed` | custom_components/tpms_ble/config_flow.py:77-79 | the lower-case spelling with dashes in place of the colons, as in `aa-bb-cc-dd-ee-ff`, normalises to the address |
| `MacAddress.NormalizeLowerSpaced` | custom_components/tpms_ble/config_flow.py:77-82 | the lower-case spelling with spaces in place of the colons, as in `aa bb cc dd ee ff`, normalises to the address |
| `MacAddress.NormalizePadded` | custom_components/tpms_ble/config_flow.py:77 | whitespace around the address is ignored |
| `MacAddress.TitleOfWellFormed` | custom_components/tpms_ble/config_flow.py:91 | the title of an accepted address is "TPMS " + its digits at 12..14 and 15..17, four upper-case hex digits |

## Left out

- The TomTom decoder and the heuristic pressure search: `parser.py` contains neither, so neither is modelled.
- `supported()` (config_flow.py:42, 108): it is defined in the `BluetoothData` base class, which is not part of this model.
- The configuration-flow machinery. This covers Bluetooth discovery and confirmation, the discovery scan, and the form schemas, including the 12-to-17-character length check on the typed MAC (config_flow.py:118, 122). It also covers unique-id handling and aborts other than `invalid_mac_format`. These are Home Assistant UI plumbing; the normalisation is modelled for every string.
- `short_address` (parser.py:142): a library function whose code is not part of this model. It is a parameter, `shortAddress: string -> string`, applied to the advertisement's address.
- `datetime.now().astimezone()` (parser.py:174): the wall clock is an `Instant` parameter.
- All logging calls.
- The `BluetoothData` base-class setters (`set_device_manufacturer`, `set_device_type`, `set_device_name`, `set_title`, `update_sensor`, `update_binary_sensor`) belong to a library outside this model. They are modelled as plain writes of one field or one map key. Unit of measurement (always `None` here), device id and sensor descriptions are not modelled.
- Python's distinction between `int` and `float` sensor values: every numeric value is stored as a `real`. For example, 80 and 80.0 are the same stored value.
- Floating point: every division is exact `real` division. `int / 100000` and `int / 100` in decoders A and C give the correctly rounded double of the modelled value. The type-B battery agrees exactly, because its unrounded value `100 * (d - 26) / 7` is never within 1/14 of a tie.
- TpmsDecoders.DecodeB: the pressure is `round(psi * 0.0689476, 3)` computed on exact reals (ties to even). IEEE double multiplication and rounding can differ from this in the last decimal place.
- TpmsDecoders.DecodeA: the native byte order of `unpack("=iib?")` is taken as little-endian, which is the byte order of the usual hosts.
- The `except Exception` fallback of decoder C (parser.py:136-139). `DecodeC` shows that no step of the decoding can fail on an 18-byte payload. `_update_sensors` is modelled (`Emit`, `UpdateSensors`); what lies outside the model is the foreign `short_address` and the base-class setters it calls, so only those could raise. The fallback at parser.py:139 calls `_update_sensors`, and with it that same foreign code, again, so a failure that repeats would raise again rather than write the zero reading. Exceptions are not modelled.
- Company identifiers of 65536 or more: the identifier is a 16-bit field (`uint16`), so `hex(...).zfill(4)` always has four digits.
- MacAddress.Upper: upper-casing is modelled for ASCII letters only. Python's full Unicode mapping can change the length (`ß` becomes `SS`), and it can produce hex digits: `ﬀ` (U+FB00) becomes `FF`, which Python would accept.
- The optional advertised name (`local_name`) is passed to the decoders but never used, as in the source.
- Concurrency: the parser is synchronous; there is none to model.

# sensett, modelled in Dafny

sensett is a small daemon for a Raspberry Pi next to a 3D printer. It reads
SHT31 temperature/humidity sensors and SGP40 air-quality sensors over I2C.
It keeps a rolling window of the last ten samples per sensor and exposes the
window means as the sensors' reading attributes. It groups sensors into MQTT
"sensors" that each publish a JSON dictionary on their own topic. It can
drive one printer fan through a threshold rule on one sensor's value.

This project models the core of `hardware.py` and `main.py`:

- `crc.dfy` (module `Crc8`): Sensirion's CRC-8 as a specification, and the
  source's `generate_crc` loop on an unbounded register, proved equal to it.
- `sgp40.dfy` (module `Sgp40Frame`): framing of the compensated measurement
  command of the SGP40 (two tick words, each followed by its CRC) and
  decoding of the response, with the bus transfer as a parameter.
- `sensors.dfy` (module `Sensors`): the two supported kinds and their data
  types, `create_sensor`, the sensors' reading attributes, lookup by name,
  and `MQTTSensor` (lower-cased name, `sensor/<name>` topic).
- `window.dfy` (module `Window`): the ten-sample FIFO window and its mean.
- `fan.dfy` (module `Fan`): the fan rule on values, and the `FanConfig`
  class whose recorded speed changes only on HTTP status 200.
- `acquisition.dfy` (module `Acquisition`): one pass of the `process_data`
  loop. It is a specification on values (`StepSensor`, `RunFrom`) and a
  `Daemon` class whose `Tick` method is proved against it. This covers peer
  discovery through the MQTT groups, the single `try` around the whole
  pass, and the fan update at the end.
- `publication.dfy` (module `Publication`): the dictionaries that
  `publish_sensor_data` builds and the messages it sends per pass.
- `wrappers.dfy` (module `Wrappers`): `Option`.

Sensor reads, the HTTP status of a fan command and the bus transfer are
parameters: a `Readings` value holds what each sensor's `read_data` returns
in one pass, and `fanStatus` / `status` is the HTTP status a fan command
gets back.

Behaviour kept as the code has it:

- Reading attributes start at 0, so before the first SHT31 sample its SGP40
  peer is compensated with 0 °C and 0 %RH, and 0 is what gets published.
- The peer of an SGP40 is found through the last MQTT group that lists it
  together with some other member. That other member is the first one in
  the group's list, and the lookup of it may find no sensor.
- A peer that is itself an SGP40 has no `temp`. The resulting exception
  ends the pass. Later sensors are not read and the fan is not checked,
  but updates made earlier in the pass stay. In the model, whether a
  sensor raises depends on the configuration only, never on readings or
  state (`StepRaisesIff`); a bus that cannot be opened is the one source
  of exceptions it leaves out (see "Left out").
- Windows are keyed by sensor name. Two sensors of one kind with the same
  name share one window.

## Model

| member | source | states |
|---|---|---|
| Crc8.WideShiftLow | hardware.py:126-130 | the source's unmasked bit step, on a register of any width, has the same low byte as the 8-bit CRC step on the masked register: high bits never matter |
| Crc8.GenerateCrc | hardware.py:115-131 | the loop over an unbounded register, masked only at the end, returns a byte equal to the CRC-8 (poly 0x31, init 0xFF) of the buffer |
| Crc8.CrcOfBeef | hardware.py:115-131 | the CRC of the bytes 0xBE 0xEF is 0x92, Sensirion's check value |
| Sgp40Frame.Mask16 | hardware.py:95 | `& 0xFFFF` gives a value below 0x10000 congruent to the input modulo 0x10000, also for a negative tick |
| Sgp40Frame.JoinSplit | hardware.py:96 | splitting a 16-bit value into its high and low byte and joining them gives the value back |
| Sgp40Frame.SplitWord | hardware.py:105 | joining two bytes into a word and splitting it gives the two bytes back |
| Sgp40Frame.TickWord | hardware.py:95-100 | a tick becomes three bytes: two that decode to the tick and the CRC of those two |
| Sgp40Frame.CompensatedCommand | hardware.py:94-101 | the command is 8 bytes: 0x26 0x0F, then the humidity word and its CRC, then the temperature word and its CRC |
| Sgp40Frame.ReadData | hardware.py:83-113 | no value when temperature or humidity is missing; otherwise a value exactly when the transfer of the compensated command yields at least two bytes, and then it is r0 * 256 + r1, below 0x10000 |
| Sensors.CreateSensor | hardware.py:190-198 | a sensor exists exactly for the type names "SHT31" and "SGP40"; it has that kind, name and bus |
| Sensors.CreateSensorOfTypeName | hardware.py:12-35 | every supported kind is created from its own table key |
| Sensors.InitialFields | hardware.py:45-81 | a new object of either kind has the attributes of that kind, and every data type it publishes starts at 0 |
| Sensors.Attr | main.py:129 | `getattr(sensor, data_type, None)` yields a value exactly for the data types of the object's kind |
| Sensors.Lookup | main.py:125 | the first sensor with the name, or None exactly when no sensor has it |
| Sensors.Lower | hardware.py:186 | lower-casing keeps the length, leaves no upper-case letter, moves each ASCII capital 32 code points up to its small letter and keeps every other character |
| Sensors.MakeGroup | hardware.py:178-188 | the name is lower-cased (length kept, no upper-case letter, other characters kept), the topic is "sensor/" followed by it, the members are kept |
| Sensors.MakeGroupCaseInsensitive | hardware.py:186-187 | names that differ only in letter case give the same group name and topic |
| Sensors.LowerKeepsLower | hardware.py:186 | a name without upper-case letters is kept as it is |
| Window.Push | main.py:73-77 | after a push the window ends with the new sample |
| Window.PushBound | main.py:75-76 | a window within capacity grows by one per push until it holds 10, then stays at 10 |
| Window.PushKeepsTail | main.py:73-77 | a window holding the last 10 samples of a history holds the last 10 of that history extended by one sample |
| Window.ReplayIsLastN | main.py:94-96 | pushing any sequence of samples into an empty window leaves exactly its last min(n, 10) samples, in arrival order |
| Window.Mean | main.py:78-79 | the mean of a non-empty window lies between its smallest and its largest sample |
| Window.MeanConstant | main.py:78-79 | a window of identical samples has that sample as its mean |
| Window.MeanBounds | main.py:97 | the mean lies between any lower and upper bound of the samples |
| Fan.DesiredSpeed | hardware.py:157 | the rule asks for 1.0 exactly when the value is at or above the threshold (on-above) or at or below it (otherwise), else 0.0 |
| Fan.ThresholdInclusive | hardware.py:157 | for every threshold, the threshold itself turns the fan on in both directions |
| Fan.ThresholdAtFifty | hardware.py:157 | at threshold 50, 49 leaves the fan off when it turns on above, and 51 when it turns on below |
| Fan.Check | hardware.py:151-176 | a command is sent exactly when the desired speed differs from the recorded one, for the desired speed; the recorded speed becomes it only on status 200 |
| Fan.CheckSettles | hardware.py:158-162 | after a successful command, checks that ask for the same speed send nothing |
| Fan.FailedCommandRetried | hardware.py:173-176 | a failed command keeps the recorded speed, so the next check sends the same command again |
| Fan.RunSendsAtMostOnce | hardware.py:151-176 | over a run of successful checks that all ask for one speed, one command is sent if the recorded speed differed and none otherwise, and the run ends at that speed |
| Fan.FanConfig.constructor | hardware.py:135-149 | the rule is stored and the recorded speed starts at 0 |
| Fan.FanConfig.SetFanSpeed | hardware.py:164-176 | the recorded speed becomes the commanded one on status 200 and is unchanged otherwise |
| Fan.FanConfig.CheckAndUpdateFanSpeed | hardware.py:151-162 | the command sent and the new recorded speed are those of `Fan.Check` on the old recorded speed |
| Acquisition.FirstOther | main.py:85-88 | the first member that differs from the SGP40's name, or None when all members are that name |
| Acquisition.LastQualifying | main.py:83-88 | the last group that lists the SGP40 and some other member; None when no group does |
| Acquisition.PeerOf | main.py:82-88 | a peer is a sensor whose name differs from the SGP40's and shares a group with it; there is none when no group lists the SGP40 with another member |
| Acquisition.ResolvePeer | main.py:82-88 | the nested loop sets the peer to the lookup of the first other member of the last qualifying group, None if there is none |
| Acquisition.StepSensor | main.py:68-97 | processing one sensor keeps every window within 10 samples, the temperature and humidity windows of an SHT31 of equal length, and every object with its kind's attributes |
| Acquisition.RunFrom | main.py:67-98 | the rest of a pass keeps the same invariant |
| Acquisition.ShtFailedReadChangesNothing | main.py:71-72 | a failed SHT31 read changes no window and no attribute |
| Acquisition.ShtSample | main.py:70-79 | a successful SHT31 read pushes into both of its windows, sets temp and hum to their means, and changes nothing else |
| Acquisition.ShtWindowIsTail | main.py:73-77 | the SHT31 windows keep holding the last 10 samples of the readings so far |
| Acquisition.SgpWithoutPeerChangesNothing | main.py:90-92 | without a peer the SGP40 is given None twice and nothing changes |
| Acquisition.SgpPeerWithoutTempRaises | main.py:90 | a peer that is an SGP40 raises, and the pass ends in the state it had reached |
| Acquisition.SgpCompensatedSample | main.py:90-97 | with an SHT31 peer the SGP40 is read with the peer's current temp and hum; a value is pushed and aqi becomes the window mean; a failed read changes nothing |
| Acquisition.FirstPassCompensatesWithZero | main.py:90-92 | before any SHT31 sample its peer SGP40 is read with temperature 0 and humidity 0 |
| Acquisition.RaisedEndsPass | main.py:67-113 | a sensor that raises ends the pass: no later sensor is processed |
| Acquisition.StepRaisesIff | main.py:90 | a sensor raises exactly when it is an SGP40 whose peer is an SGP40, whatever the readings and state |
| Acquisition.FanTrigger | main.py:100-108 | the fan value is aqi of an SGP40 and temp of an SHT31 (the first sensor with the trigger name); there is none exactly when no sensor has that name |
| Acquisition.Daemon.constructor | main.py:59-64 | every attribute starts at 0 and every sensor name has empty windows |
| Acquisition.Daemon.ProcessSht31 | main.py:70-79 | the new state is the SHT31 step of the specification |
| Acquisition.Daemon.ProcessSgp40 | main.py:80-97 | the new state, and whether it raised, are the SGP40 step of the specification |
| Acquisition.Daemon.ProcessSensor | main.py:68-97 | processing one sensor, by its type, gives the new state and the exception outcome of the specification's step |
| Acquisition.Daemon.UpdateFan | main.py:99-110 | without a fan or trigger sensor nothing is sent; otherwise the fan does `Fan.Check` on the trigger value |
| Acquisition.Daemon.Tick | main.py:66-113 | the state after a pass is that of the specification's pass, it raised exactly when the specification did, and the fan is checked only after a pass that did not raise |
| Publication.GroupPayload | main.py:123-129 | whatever the members, a group's dictionary only carries the keys temp, hum and aqi |
| Publication.AddAttrs | main.py:128-129 | the inner loop writes one sensor's data types, with their attributes, over the dictionary built so far |
| Publication.AttrMapSpec | main.py:128-129 | one sensor sets exactly its data types, each to the attribute of that name |
| Publication.EntriesSpec | main.py:124-129 | a member sets exactly the data types of the sensor it names, and nothing if it names none |
| Publication.PayloadKeys | main.py:122-130 | a key is in a group's dictionary exactly when some member names a sensor that publishes it |
| Publication.PayloadLastWins | main.py:124-129 | the value under a key is the attribute of the last member that provides it |
| Publication.BuildPayload | main.py:123-129 | the loop builds the group's dictionary |
| Publication.PublishAll | main.py:122-130 | one message per group, in order, on the group's topic with the group's dictionary |
| Publication.PublishesZerosAtStart | main.py:119-130 | before any sample every published value is 0 |

## Left out

- I2C transactions, `time.sleep`, and the SHT31's conversion of raw bytes
  to °C and %RH: a `Readings` value says what each read returns.
- Sgp40Frame.ReadData: takes the tick values, not the floating-point
  temperature and humidity. The float-to-tick conversion (`int(... + 0.5)`
  for humidity, truncation for temperature) is not modelled. The bus
  transfer is a function parameter, and None stands for a bus error.
- Acquisition.Readings: the SGP40 oracle is not tied to `Sgp40Frame.ReadData`
  inside the pass. It stands for that function applied to the peer's
  converted values.
- Floating-point arithmetic and `round(..., 2)` / `round(..., 0)`: window
  means are exact reals.
- Fan.FanConfig.SetFanSpeed: the HTTP request and its payload string are
  reduced to the status code the request returns. A request that raises
  is not modelled; the fan is checked last in a pass, so it would only add
  a log line.
- MQTT client setup, `json.dumps`, and the broker connection:
  `Publication.PublishAll` returns the (topic, dictionary) pairs it would
  publish.
- The two threads and their interleaving, the 60-second start delay and the
  endless loops: each pass is modelled on its own, and the publisher reads
  the attributes as a snapshot.
- `load_config`, the module-level construction of sensors, fan and groups
  from the configuration, and `globals()` reflection in `create_sensor`
  (reduced to the type name lookup).
- Logging, the `notes`, `data_names` and `data_units` metadata, and the
  fixed I2C addresses (0x44, 0x59): the model has no bus to address.
- Opening the bus: `read_data` calls `smbus2.SMBus(self.i2c_bus)` before
  its `try` (hardware.py:57, hardware.py:91), so a bus that cannot be
  opened raises into the `try` of `process_data` (main.py:67, main.py:112)
  and ends the pass like the SGP40-peer exception. The model's reads only
  return a value or None, so `Acquisition.StepRaisesIff` and
  `Acquisition.Daemon.Tick` do not cover this exception.
- Sensors.MakeGroup: `str.lower` is modelled on ASCII letters only.

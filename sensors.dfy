/**
 * The sensor registry of `hardware.py`: the two supported kinds with their
 * published data types, the factory that maps a configured type name to a
 * kind, the mutable reading fields of a sensor object, the first-match lookup
 * by name used throughout `main.py`, and the MQTT group with its topic.
 */
module Sensors {
  import opened Wrappers

  /** The closed set of entries of `SUPPORTED_SENSORS`. */
  datatype Kind = Sht31 | Sgp40

  /** The key of a kind in `SUPPORTED_SENSORS`, also the configured `type`. */
  function TypeName(k: Kind): string {
    match k
    case Sht31 => "SHT31"
    case Sgp40 => "SGP40"
  }

  /** `SUPPORTED_SENSORS[..]["data_types"]`: the attributes a kind publishes, in order. */
  function DataTypes(k: Kind): seq<string> {
    match k
    case Sht31 => ["temp", "hum"]
    case Sgp40 => ["aqi"]
  }

  /** The immutable identity of one hardware sensor object. */
  datatype SensorConfig = SensorConfig(name: string, kind: Kind, i2cBus: int)

  /**
   * `create_sensor`: an unknown type name has no entry (a `KeyError` at
   * start-up); a known one gives a sensor of that kind with the configured
   * name and bus.
   */
  function CreateSensor(typeName: string, name: string, i2cBus: int): (s: Option<SensorConfig>)
    ensures s.Some? <==> typeName == "SHT31" || typeName == "SGP40"
    ensures s.Some? ==> TypeName(s.value.kind) == typeName && s.value.name == name && s.value.i2cBus == i2cBus
  {
    if typeName == "SHT31" then Some(SensorConfig(name, Sht31, i2cBus))
    else if typeName == "SGP40" then Some(SensorConfig(name, Sgp40, i2cBus))
    else None
  }

  /** Every kind is created from its own type name. */
  lemma CreateSensorOfTypeName(k: Kind, name: string, i2cBus: int)
    ensures CreateSensor(TypeName(k), name, i2cBus) == Some(SensorConfig(name, k, i2cBus))
  {
  }

  /** The reading attributes of a sensor object: `temp`/`hum` of an SHT31, `aqi` of an SGP40. */
  datatype Fields = ShtFields(temp: real, hum: real) | SgpFields(aqi: real)

  function KindOf(f: Fields): Kind {
    match f
    case ShtFields(_, _) => Sht31
    case SgpFields(_) => Sgp40
  }

  /** The constructors start every reading attribute at 0. */
  function InitialFields(k: Kind): (f: Fields)
    ensures KindOf(f) == k
    ensures forall n :: n in DataTypes(k) ==> Attr(f, n) == Some(0.0)
  {
    match k
    case Sht31 => ShtFields(0.0, 0.0)
    case Sgp40 => SgpFields(0.0)
  }

  /**
   * `getattr(sensor, name, None)` for the reading attributes: present
   * exactly for the data types of the object's kind.
   */
  function Attr(f: Fields, name: string): (r: Option<real>)
    ensures r.Some? <==> name in DataTypes(KindOf(f))
  {
    match f
    case ShtFields(t, h) => if name == "temp" then Some(t) else if name == "hum" then Some(h) else None
    case SgpFields(a) => if name == "aqi" then Some(a) else None
  }

  /**
   * `next((s for s in hardware_sensors if s.name == name), None)`: the index
   * of the first sensor with that name, or `None` when there is none.
   */
  function Lookup(sensors: seq<SensorConfig>, name: string): (r: Option<nat>)
    ensures r.Some? ==> r.value < |sensors| && sensors[r.value].name == name
    ensures r.Some? ==> forall j :: 0 <= j < r.value ==> sensors[j].name != name
    ensures r.None? ==> forall j :: 0 <= j < |sensors| ==> sensors[j].name != name
  {
    if |sensors| == 0 then None
    else if sensors[0].name == name then Some(0)
    else match Lookup(sensors[1..], name)
      case None => None
      case Some(j) => Some(j + 1)
  }

  // ---------------------------------------------------------------------
  // MQTT groups
  // ---------------------------------------------------------------------

  /** `str.lower` on one character (ASCII letters only). */
  function LowerChar(c: char): char {
    if 'A' <= c <= 'Z' then (c as int - 'A' as int + 'a' as int) as char else c
  }

  predicate IsLower(s: string) {
    forall i :: 0 <= i < |s| ==> !('A' <= s[i] <= 'Z')
  }

  /** `str.lower`: every ASCII capital becomes its small letter, 32 code points up; nothing else changes. */
  function Lower(s: string): (r: string)
    ensures |r| == |s| && IsLower(r)
    ensures forall i :: 0 <= i < |s| && !('A' <= s[i] <= 'Z') ==> r[i] == s[i]
    ensures forall i :: 0 <= i < |s| && 'A' <= s[i] <= 'Z' ==> r[i] as int == s[i] as int + 32
  {
    seq(|s|, i requires 0 <= i < |s| => LowerChar(s[i]))
  }

  /** An `MQTTSensor`: lower-cased name, its topic, and the names of its hardware sensors. */
  datatype Group = Group(name: string, topic: string, members: seq<string>)

  const TopicPrefix := "sensor/"

  /** `MQTTSensor.__init__`. */
  function MakeGroup(name: string, members: seq<string>): (g: Group)
    ensures g.members == members
    ensures |g.name| == |name| && IsLower(g.name)
    ensures forall i :: 0 <= i < |name| && !('A' <= name[i] <= 'Z') ==> g.name[i] == name[i]
    ensures g.topic == TopicPrefix + g.name
  {
    var lowered := Lower(name);
    Group(lowered, TopicPrefix + lowered, members)
  }

  /**
   * Names that differ only in the case of their letters give the same
   * group name and topic, and a name that is already lower case is kept.
   */
  lemma {:induction false} MakeGroupCaseInsensitive(a: string, b: string, members: seq<string>)
    requires |a| == |b| && forall i :: 0 <= i < |a| ==> LowerChar(a[i]) == LowerChar(b[i])
    ensures MakeGroup(a, members) == MakeGroup(b, members)
  {
    assert Lower(a) == Lower(b);
  }

  lemma LowerKeepsLower(s: string)
    requires IsLower(s)
    ensures Lower(s) == s
  {
    assert forall i :: 0 <= i < |s| ==> LowerChar(s[i]) == s[i];
  }
}

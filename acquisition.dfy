/**
 * One pass of the `process_data` loop: every hardware sensor in list order
 * is read, its sample pushed into its rolling window and its reading
 * attribute set to the window mean; an SGP40 is first given the temperature
 * and humidity of the peer found through the MQTT groups; afterwards the fan
 * rule is checked against its trigger sensor.
 *
 * The whole pass runs inside one `try`, so an exception (reading `.temp` of
 * a peer that is itself an SGP40) ends the pass: later sensors are not read
 * and the fan is not checked, but what was already written stays.
 *
 * Sensor reads are oracles: `sht(i)` is what `read_data()` of the sensor at
 * position `i` returns, and `sgp(i, t, h)` what `read_data(t, h)` of the
 * SGP40 at position `i` returns when both inputs are present.
 */
module Acquisition {
  import opened Wrappers
  import opened Sensors
  import opened Window
  import Fan

  /**
   * What the loop keeps between passes: the reading attributes of each
   * sensor object, by position in `hardware_sensors`, and the windows of
   * `temp_humidity_data` and `air_quality_data`, by sensor name.
   */
  datatype State = State(fields: seq<Fields>,
                         tempWin: map<string, seq<real>>,
                         humWin: map<string, seq<real>>,
                         aqWin: map<string, seq<real>>)

  /** The sensor reads of one pass. */
  datatype Readings = Readings(sht: nat -> Option<(real, real)>, sgp: (nat, real, real) -> Option<int>)

  /**
   * Every object has the attributes of its kind, every sensor has its
   * windows, an SHT31's two windows have equal length, and no window holds
   * more than `SampleCount` samples.
   */
  predicate WellFormed(sensors: seq<SensorConfig>, st: State) {
    && |st.fields| == |sensors|
    && (forall i :: 0 <= i < |sensors| ==> KindOf(st.fields[i]) == sensors[i].kind)
    && (forall i :: 0 <= i < |sensors| && sensors[i].kind == Sht31 ==>
          sensors[i].name in st.tempWin && sensors[i].name in st.humWin)
    && (forall i :: 0 <= i < |sensors| && sensors[i].kind == Sgp40 ==> sensors[i].name in st.aqWin)
    && (forall n :: n in st.tempWin ==> n in st.humWin && |st.tempWin[n]| == |st.humWin[n]| <= SampleCount)
    && (forall n :: n in st.aqWin ==> |st.aqWin[n]| <= SampleCount)
  }

  function NamesOf(sensors: seq<SensorConfig>, k: Kind): set<string> {
    set i | 0 <= i < |sensors| && sensors[i].kind == k :: sensors[i].name
  }

  /** Before the first pass: attributes at 0 and an empty window for every sensor name. */
  function Initial(sensors: seq<SensorConfig>): (st: State)
    ensures WellFormed(sensors, st)
  {
    var th := map n | n in NamesOf(sensors, Sht31) :: [];
    State(seq(|sensors|, i requires 0 <= i < |sensors| => InitialFields(sensors[i].kind)),
          th, th, map n | n in NamesOf(sensors, Sgp40) :: [])
  }

  // ---------------------------------------------------------------------
  // Peer discovery
  // ---------------------------------------------------------------------

  /** The position of the first member other than `name`. */
  function FirstOther(members: seq<string>, name: string): (r: Option<nat>)
    ensures r.Some? ==> r.value < |members| && members[r.value] != name
    ensures r.Some? ==> forall j :: 0 <= j < r.value ==> members[j] == name
    ensures r.None? ==> forall j :: 0 <= j < |members| ==> members[j] == name
  {
    if |members| == 0 then None
    else if members[0] != name then Some(0)
    else match FirstOther(members[1..], name)
      case None => None
      case Some(j) => Some(j + 1)
  }

  /** A group that overwrites the peer: it lists `name` and some other member. */
  predicate Qualifies(g: Group, name: string) {
    name in g.members && FirstOther(g.members, name).Some?
  }

  /** The last group that qualifies, or `None` when none does. */
  function LastQualifying(groups: seq<Group>, name: string): (r: Option<nat>)
    ensures r.Some? ==> r.value < |groups| && Qualifies(groups[r.value], name)
    ensures r.Some? ==> forall j :: r.value < j < |groups| ==> !Qualifies(groups[j], name)
    ensures r.None? ==> forall j :: 0 <= j < |groups| ==> !Qualifies(groups[j], name)
  {
    if |groups| == 0 then None
    else if Qualifies(groups[|groups| - 1], name) then Some(|groups| - 1)
    else LastQualifying(groups[..|groups| - 1], name)
  }

  /**
   * The compensation peer of the SGP40 called `name`: the sensor named by
   * the first other member of the last qualifying group. That lookup may
   * itself find nothing, which then is the answer.
   */
  function PeerOf(sensors: seq<SensorConfig>, groups: seq<Group>, name: string): (r: Option<nat>)
    ensures r.Some? ==> r.value < |sensors|
    ensures r.Some? ==> sensors[r.value].name != name
    ensures r.Some? ==> exists g :: 0 <= g < |groups| && name in groups[g].members
                                  && sensors[r.value].name in groups[g].members
    ensures LastQualifying(groups, name).None? ==> r.None?
  {
    match LastQualifying(groups, name)
    case None => None
    case Some(g) =>
      var k := FirstOther(groups[g].members, name).value;
      var r := Lookup(sensors, groups[g].members[k]);
      assert r.Some? ==> sensors[r.value].name == groups[g].members[k];
      r
  }

  /**
   * The nested loop of `process_data` that sets `related_sht31_sensor`:
   * every group holding the SGP40 overwrites it with the lookup of its first
   * other member.
   */
  method ResolvePeer(sensors: seq<SensorConfig>, groups: seq<Group>, name: string) returns (related: Option<nat>)
    ensures related == PeerOf(sensors, groups, name)
  {
    related := None;
    for g := 0 to |groups|
      invariant related == PeerOf(sensors, groups[..g], name)
    {
      assert groups[..g + 1][..g] == groups[..g];
      var members := groups[g].members;
      if name in members {
        var k := 0;
        var found := false;
        while k < |members| && !found
          invariant 0 <= k <= |members|
          invariant !found ==> forall j :: 0 <= j < k ==> members[j] == name
          invariant !found ==> related == PeerOf(sensors, groups[..g], name)
          invariant found ==> FirstOther(members, name) == Some(k - 1)
          invariant found ==> related == Lookup(sensors, members[k - 1])
        {
          if members[k] != name {
            related := Lookup(sensors, members[k]);
            found := true;
          }
          k := k + 1;
        }
      }
    }
    assert groups[..|groups|] == groups;
  }

  // ---------------------------------------------------------------------
  // One sensor, one pass
  // ---------------------------------------------------------------------

  /** A new SHT31 sample: both windows take one sample and both attributes become their means. */
  function PushSht(st: State, i: nat, name: string, t: real, h: real): State
    requires name in st.tempWin && name in st.humWin && i < |st.fields|
  {
    var tw := Push(st.tempWin[name], t);
    var hw := Push(st.humWin[name], h);
    st.(fields := st.fields[i := ShtFields(Mean(tw), Mean(hw))],
        tempWin := st.tempWin[name := tw],
        humWin := st.humWin[name := hw])
  }

  /** A new SGP40 sample: its window takes it and `aqi` becomes the mean. */
  function PushAqi(st: State, i: nat, name: string, v: real): State
    requires name in st.aqWin && i < |st.fields|
  {
    var w := Push(st.aqWin[name], v);
    st.(fields := st.fields[i := SgpFields(Mean(w))], aqWin := st.aqWin[name := w])
  }

  /** How processing a sensor ended: normally, or with an exception that ends the pass. */
  datatype Outcome = Done(st: State) | Raised(st: State)

  /** Processing the sensor at position `i`. */
  function StepSensor(sensors: seq<SensorConfig>, groups: seq<Group>, st: State, rd: Readings, i: nat): (o: Outcome)
    requires WellFormed(sensors, st) && i < |sensors|
    ensures WellFormed(sensors, o.st)
  {
    var s := sensors[i];
    match s.kind
    case Sht31 =>
      (match rd.sht(i)
       case None => Done(st)
       case Some((t, h)) => Done(PushSht(st, i, s.name, t, h)))
    case Sgp40 =>
      match PeerOf(sensors, groups, s.name)
      case None => Done(st)
      case Some(p) =>
        match st.fields[p]
        case SgpFields(_) => Raised(st)
        case ShtFields(t, h) =>
          match rd.sgp(i, t, h)
          case None => Done(st)
          case Some(v) => Done(PushAqi(st, i, s.name, v as real))
  }

  /**
   * The rest of a pass from position `i` on, after the sensors before it
   * ended in `o`: an exception skips every remaining sensor.
   */
  function RunFrom(sensors: seq<SensorConfig>, groups: seq<Group>, o: Outcome, rd: Readings, i: nat): (r: Outcome)
    requires WellFormed(sensors, o.st) && i <= |sensors|
    ensures WellFormed(sensors, r.st)
    decreases |sensors| - i
  {
    if i == |sensors| || o.Raised? then o
    else RunFrom(sensors, groups, StepSensor(sensors, groups, o.st, rd, i), rd, i + 1)
  }

  /** All sensors of a pass, in list order. */
  function RunSensors(sensors: seq<SensorConfig>, groups: seq<Group>, st: State, rd: Readings): Outcome
    requires WellFormed(sensors, st)
  {
    RunFrom(sensors, groups, Done(st), rd, 0)
  }

  /** A sensor that raises ends the pass in the state it found: no later sensor is read. */
  lemma RaisedEndsPass(sensors: seq<SensorConfig>, groups: seq<Group>, st: State, rd: Readings, i: nat)
    requires WellFormed(sensors, st) && i < |sensors|
    requires StepSensor(sensors, groups, st, rd, i).Raised?
    ensures RunFrom(sensors, groups, Done(st), rd, i) == Raised(st)
  {
  }

  /** The SGP40 at position `i` has a peer that is itself an SGP40, so reading the peer's `temp` raises. */
  predicate RaisesAt(sensors: seq<SensorConfig>, groups: seq<Group>, i: nat)
    requires i < |sensors|
  {
    var p := PeerOf(sensors, groups, sensors[i].name);
    sensors[i].kind == Sgp40 && p.Some? && sensors[p.value].kind == Sgp40
  }

  /**
   * In this model, whether a sensor raises depends on the configuration
   * alone, never on readings or state (a bus that cannot be opened is not
   * modelled as an exception).
   */
  lemma StepRaisesIff(sensors: seq<SensorConfig>, groups: seq<Group>, st: State, rd: Readings, i: nat)
    requires WellFormed(sensors, st) && i < |sensors|
    ensures StepSensor(sensors, groups, st, rd, i).Raised? <==> RaisesAt(sensors, groups, i)
  {
    var p := PeerOf(sensors, groups, sensors[i].name);
    if p.Some? {
      assert KindOf(st.fields[p.value]) == sensors[p.value].kind;
    }
  }

  // ---------------------------------------------------------------------
  // What one step does
  // ---------------------------------------------------------------------

  /** A failed SHT31 read leaves windows and attributes as they were. */
  lemma ShtFailedReadChangesNothing(sensors: seq<SensorConfig>, groups: seq<Group>, st: State, rd: Readings, i: nat)
    requires WellFormed(sensors, st) && i < |sensors| && sensors[i].kind == Sht31
    requires rd.sht(i).None?
    ensures StepSensor(sensors, groups, st, rd, i) == Done(st)
  {
  }

  /**
   * A successful SHT31 read pushes into both windows of its name, sets both
   * attributes to the means of the windows now held, and changes nothing else.
   */
  lemma ShtSample(sensors: seq<SensorConfig>, groups: seq<Group>, st: State, rd: Readings, i: nat, t: real, h: real)
    requires WellFormed(sensors, st) && i < |sensors| && sensors[i].kind == Sht31
    requires rd.sht(i) == Some((t, h))
    ensures var o := StepSensor(sensors, groups, st, rd, i);
      var name := sensors[i].name;
      && o.Done?
      && o.st.tempWin == st.tempWin[name := Push(st.tempWin[name], t)]
      && o.st.humWin == st.humWin[name := Push(st.humWin[name], h)]
      && o.st.fields[i] == ShtFields(Mean(o.st.tempWin[name]), Mean(o.st.humWin[name]))
      && (forall j :: 0 <= j < |sensors| && j != i ==> o.st.fields[j] == st.fields[j])
      && o.st.aqWin == st.aqWin
  {
  }

  /**
   * If the window of a name holds the last `SampleCount` of that name's
   * samples so far, it still does after one more successful read.
   */
  lemma ShtWindowIsTail(sensors: seq<SensorConfig>, groups: seq<Group>, st: State, rd: Readings, i: nat,
                        temps: seq<real>, hums: seq<real>, t: real, h: real)
    requires WellFormed(sensors, st) && i < |sensors| && sensors[i].kind == Sht31
    requires rd.sht(i) == Some((t, h))
    requires st.tempWin[sensors[i].name] == LastN(temps) && st.humWin[sensors[i].name] == LastN(hums)
    ensures var o := StepSensor(sensors, groups, st, rd, i);
      && o.st.tempWin[sensors[i].name] == LastN(temps + [t])
      && o.st.humWin[sensors[i].name] == LastN(hums + [h])
  {
    PushKeepsTail(st.tempWin[sensors[i].name], temps, t);
    PushKeepsTail(st.humWin[sensors[i].name], hums, h);
  }

  /** Without a peer both compensation inputs are `None`: no read, nothing changes. */
  lemma SgpWithoutPeerChangesNothing(sensors: seq<SensorConfig>, groups: seq<Group>, st: State, rd: Readings, i: nat)
    requires WellFormed(sensors, st) && i < |sensors| && sensors[i].kind == Sgp40
    requires PeerOf(sensors, groups, sensors[i].name).None?
    ensures StepSensor(sensors, groups, st, rd, i) == Done(st)
  {
  }

  /** A peer that is itself an SGP40 has no `temp`: the pass raises, in the state it found. */
  lemma SgpPeerWithoutTempRaises(sensors: seq<SensorConfig>, groups: seq<Group>, st: State, rd: Readings, i: nat)
    requires WellFormed(sensors, st) && i < |sensors| && sensors[i].kind == Sgp40
    requires var p := PeerOf(sensors, groups, sensors[i].name); p.Some? && sensors[p.value].kind == Sgp40
    ensures StepSensor(sensors, groups, st, rd, i) == Raised(st)
    ensures RunFrom(sensors, groups, Done(st), rd, i) == Raised(st)
  {
  }

  /**
   * With an SHT31 peer, the SGP40 is read with the peer's current `temp` and
   * `hum`; a successful read pushes into its window and sets `aqi` to the
   * window mean, a failed one changes nothing.
   */
  lemma SgpCompensatedSample(sensors: seq<SensorConfig>, groups: seq<Group>, st: State, rd: Readings, i: nat, p: nat)
    requires WellFormed(sensors, st) && i < |sensors| && sensors[i].kind == Sgp40
    requires PeerOf(sensors, groups, sensors[i].name) == Some(p) && sensors[p].kind == Sht31
    ensures var o := StepSensor(sensors, groups, st, rd, i);
      var name := sensors[i].name;
      var reading := rd.sgp(i, st.fields[p].temp, st.fields[p].hum);
      && o.Done?
      && (reading.None? ==> o.st == st)
      && (reading.Some? ==>
            && o.st.aqWin == st.aqWin[name := Push(st.aqWin[name], reading.value as real)]
            && o.st.fields[i] == SgpFields(Mean(o.st.aqWin[name]))
            && (forall j :: 0 <= j < |sensors| && j != i ==> o.st.fields[j] == st.fields[j])
            && o.st.tempWin == st.tempWin && o.st.humWin == st.humWin)
  {
  }

  /**
   * Before the first SHT31 sample its attributes are still 0, so an SGP40
   * whose peer it is gets read with temperature 0 and humidity 0.
   */
  lemma FirstPassCompensatesWithZero(sensors: seq<SensorConfig>, groups: seq<Group>, rd: Readings, i: nat, p: nat)
    requires i < |sensors| && sensors[i].kind == Sgp40
    requires PeerOf(sensors, groups, sensors[i].name) == Some(p) && sensors[p].kind == Sht31
    ensures StepSensor(sensors, groups, Initial(sensors), rd, i)
         == match rd.sgp(i, 0.0, 0.0)
            case None => Done(Initial(sensors))
            case Some(v) => Done(PushAqi(Initial(sensors), i, sensors[i].name, v as real))
  {
  }

  /** The value the fan rule reads: `aqi` of an SGP40, `temp` of an SHT31; none without a trigger sensor. */
  function FanTrigger(sensors: seq<SensorConfig>, fields: seq<Fields>, trigger: string): (v: Option<real>)
    requires |fields| == |sensors|
    requires forall i :: 0 <= i < |sensors| ==> KindOf(fields[i]) == sensors[i].kind
    ensures v.None? <==> forall j :: 0 <= j < |sensors| ==> sensors[j].name != trigger
    ensures v.Some? ==> var j := Lookup(sensors, trigger).value;
      v == Attr(fields[j], if sensors[j].kind == Sgp40 then "aqi" else "temp")
  {
    match Lookup(sensors, trigger)
    case None => None
    case Some(j) =>
      assert KindOf(fields[j]) == sensors[j].kind;
      match fields[j]
      case ShtFields(t, _) => Some(t)
      case SgpFields(a) => Some(a)
  }

  /** The process state that `process_data` and the sensor objects hold. */
  class Daemon {
    const sensors: seq<SensorConfig>
    const groups: seq<Group>
    const fan: Fan.FanConfig?
    var fields: seq<Fields>
    var tempWin: map<string, seq<real>>
    var humWin: map<string, seq<real>>
    var aqWin: map<string, seq<real>>

    function Snapshot(): State
      reads this
    {
      State(fields, tempWin, humWin, aqWin)
    }

    ghost predicate Valid()
      reads this
    {
      WellFormed(sensors, Snapshot())
    }

    /** The sensor objects as created, and the set-up loop of `process_data` that gives each an empty window. */
    constructor (sensors: seq<SensorConfig>, groups: seq<Group>, fan: Fan.FanConfig?)
      ensures this.sensors == sensors && this.groups == groups && this.fan == fan
      ensures Valid() && Snapshot() == Initial(sensors)
    {
      var fs: seq<Fields> := [];
      var th: map<string, seq<real>> := map[];
      var aq: map<string, seq<real>> := map[];
      for i := 0 to |sensors|
        invariant fs == seq(i, j requires 0 <= j < i => InitialFields(sensors[j].kind))
        invariant th == map n | n in NamesOf(sensors[..i], Sht31) :: []
        invariant aq == map n | n in NamesOf(sensors[..i], Sgp40) :: []
      {
        NamesOfSnoc(sensors, i);
        fs := fs + [InitialFields(sensors[i].kind)];
        match sensors[i].kind
        case Sht31 => th := th[sensors[i].name := []];
        case Sgp40 => aq := aq[sensors[i].name := []];
      }
      assert sensors[..|sensors|] == sensors;
      this.sensors := sensors;
      this.groups := groups;
      this.fan := fan;
      fields := fs;
      tempWin := th;
      humWin := th;
      aqWin := aq;
    }

    /** The SHT31 branch of the pass for the sensor at position `i`. */
    method ProcessSht31(rd: Readings, i: nat)
      requires Valid() && i < |sensors| && sensors[i].kind == Sht31
      modifies this
      ensures Valid()
      ensures Done(Snapshot()) == StepSensor(sensors, groups, old(Snapshot()), rd, i)
    {
      var name := sensors[i].name;
      var reading := rd.sht(i);
      if reading.Some? {
        var (t, h) := reading.value;
        ShtSample(sensors, groups, Snapshot(), rd, i, t, h);
        var tw := tempWin[name] + [t];
        var hw := humWin[name] + [h];
        if |tw| > SampleCount {
          tw := tw[1..];
          hw := hw[1..];
        }
        assert tw == Push(tempWin[name], t) && hw == Push(humWin[name], h);
        tempWin := tempWin[name := tw];
        humWin := humWin[name := hw];
        fields := fields[i := ShtFields(Mean(tw), Mean(hw))];
        assert Snapshot() == PushSht(old(Snapshot()), i, name, t, h);
      }
    }

    /** The SGP40 branch of the pass for the sensor at position `i`; `raised` when its peer has no `temp`. */
    method ProcessSgp40(rd: Readings, i: nat) returns (raised: bool)
      requires Valid() && i < |sensors| && sensors[i].kind == Sgp40
      modifies this
      ensures Valid()
      ensures (if raised then Raised(Snapshot()) else Done(Snapshot())) == StepSensor(sensors, groups, old(Snapshot()), rd, i)
    {
      raised := false;
      var name := sensors[i].name;
      var related := ResolvePeer(sensors, groups, name);
      if related.Some? {
        match fields[related.value]
        case SgpFields(_) =>
          raised := true;
        case ShtFields(t, h) =>
          SgpCompensatedSample(sensors, groups, Snapshot(), rd, i, related.value);
          var reading := rd.sgp(i, t, h);
          if reading.Some? {
            var w := aqWin[name] + [reading.value as real];
            if |w| > SampleCount {
              w := w[1..];
            }
            aqWin := aqWin[name := w];
            fields := fields[i := SgpFields(Mean(w))];
          }
      }
    }

    /** The body of the sensor loop of `process_data`: dispatch on the sensor's type. */
    method ProcessSensor(rd: Readings, i: nat) returns (raised: bool)
      requires Valid() && i < |sensors|
      modifies this
      ensures Valid()
      ensures (if raised then Raised(Snapshot()) else Done(Snapshot())) == StepSensor(sensors, groups, old(Snapshot()), rd, i)
    {
      raised := false;
      match sensors[i].kind {
        case Sht31 =>
          ProcessSht31(rd, i);
        case Sgp40 =>
          raised := ProcessSgp40(rd, i);
      }
    }

    /**
     * One pass of the `process_data` loop. `raised` tells whether the pass
     * ended in the `except` branch; `command` is the fan command posted, if
     * any, which got `fanStatus` back.
     */
    method Tick(rd: Readings, fanStatus: int) returns (raised: bool, command: Option<real>)
      requires Valid()
      modifies this, fan
      ensures Valid()
      ensures var o := RunSensors(sensors, groups, old(Snapshot()), rd);
        Snapshot() == o.st && raised == o.Raised?
      ensures fan == null || raised || FanTrigger(sensors, fields, fan.triggerSensor).None? ==>
        command == None && (fan != null ==> fan.currentSpeed == old(fan.currentSpeed))
      ensures fan != null && !raised && FanTrigger(sensors, fields, fan.triggerSensor).Some? ==>
        var d := Fan.Check(old(fan.currentSpeed), fan.triggerOnAbove, fan.triggerValue,
                           FanTrigger(sensors, fields, fan.triggerSensor).value, fanStatus);
        command == d.command && fan.currentSpeed == d.speed
    {
      raised, command := false, None;
      ghost var o := Done(Snapshot());
      var i := 0;
      while i < |sensors| && !raised
        invariant 0 <= i <= |sensors|
        invariant Valid() && o.st == Snapshot() && raised == o.Raised?
        invariant RunSensors(sensors, groups, old(Snapshot()), rd) == RunFrom(sensors, groups, o, rd, i)
        invariant fan != null ==> fan.currentSpeed == old(fan.currentSpeed)
      {
        RunFromStep(sensors, groups, Snapshot(), rd, i);
        o := StepSensor(sensors, groups, Snapshot(), rd, i);
        raised := ProcessSensor(rd, i);
        i := i + 1;
      }
      if !raised {
        command := UpdateFan(fanStatus);
      }
    }

    /** The fan part of a pass that did not raise. */
    method UpdateFan(fanStatus: int) returns (command: Option<real>)
      requires Valid()
      modifies fan
      ensures fan == null || FanTrigger(sensors, fields, fan.triggerSensor).None? ==>
        command == None && (fan != null ==> fan.currentSpeed == old(fan.currentSpeed))
      ensures fan != null && FanTrigger(sensors, fields, fan.triggerSensor).Some? ==>
        var d := Fan.Check(old(fan.currentSpeed), fan.triggerOnAbove, fan.triggerValue,
                           FanTrigger(sensors, fields, fan.triggerSensor).value, fanStatus);
        command == d.command && fan.currentSpeed == d.speed
    {
      command := None;
      if fan != null {
        var trigger := Lookup(sensors, fan.triggerSensor);
        if trigger.Some? {
          var value := match fields[trigger.value]
            case ShtFields(t, _) => t
            case SgpFields(a) => a;
          command := fan.CheckAndUpdateFanSpeed(value, fanStatus);
        }
      }
    }
  }

  lemma RunFromStep(sensors: seq<SensorConfig>, groups: seq<Group>, st: State, rd: Readings, i: nat)
    requires WellFormed(sensors, st) && i < |sensors|
    ensures RunFrom(sensors, groups, Done(st), rd, i)
         == RunFrom(sensors, groups, StepSensor(sensors, groups, st, rd, i), rd, i + 1)
  {
  }

  lemma NamesOfSnoc(sensors: seq<SensorConfig>, i: nat)
    requires i < |sensors|
    ensures NamesOf(sensors[..i + 1], sensors[i].kind) == NamesOf(sensors[..i], sensors[i].kind) + {sensors[i].name}
    ensures forall k :: k != sensors[i].kind ==> NamesOf(sensors[..i + 1], k) == NamesOf(sensors[..i], k)
  {
    var p, q := sensors[..i], sensors[..i + 1];
    assert forall j :: 0 <= j < i ==> q[j] == p[j];
    assert q[i] == sensors[i];
  }
}

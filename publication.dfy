/**
 * The body of `publish_sensor_data`: for every MQTT group, a dictionary
 * filled member by member with the data types of the hardware sensor of
 * that name, each mapped to the current attribute value; a member naming no
 * hardware sensor adds nothing, and a later member overwrites the keys an
 * earlier one set. One message per group is handed to the MQTT client.
 */
module Publication {
  import opened Wrappers
  import opened Sensors

  /** `sensor_data_filtered`: data type to attribute value (`None` stands for JSON null). */
  type Payload = map<string, Option<real>>

  /** The keys one sensor object sets, in the order of `names`. */
  function AttrMap(f: Fields, names: seq<string>): Payload {
    if |names| == 0 then map[]
    else AttrMap(f, names[..|names| - 1])[names[|names| - 1] := Attr(f, names[|names| - 1])]
  }

  lemma {:induction false} AttrMapSpec(f: Fields, names: seq<string>)
    ensures AttrMap(f, names).Keys == set k | k in names
    ensures forall k :: k in AttrMap(f, names) ==> AttrMap(f, names)[k] == Attr(f, k)
  {
    if |names| > 0 {
      AttrMapSpec(f, names[..|names| - 1]);
      assert names == names[..|names| - 1] + [names[|names| - 1]];
    }
  }

  /** What one member of a group contributes. */
  function Entries(sensors: seq<SensorConfig>, fields: seq<Fields>, member: string): (r: Payload)
    requires |fields| == |sensors|
    ensures r.Keys <= {"temp", "hum", "aqi"}
  {
    match Lookup(sensors, member)
    case None => map[]
    case Some(j) =>
      AttrMapSpec(fields[j], DataTypes(sensors[j].kind));
      AttrMap(fields[j], DataTypes(sensors[j].kind))
  }

  /**
   * The dictionary of a group with these members, later members overriding
   * earlier ones; whatever the members, it only ever carries the known data
   * types.
   */
  function GroupPayload(sensors: seq<SensorConfig>, fields: seq<Fields>, members: seq<string>): (r: Payload)
    requires |fields| == |sensors|
    ensures r.Keys <= {"temp", "hum", "aqi"}
  {
    if |members| == 0 then map[]
    else GroupPayload(sensors, fields, members[..|members| - 1]) + Entries(sensors, fields, members[|members| - 1])
  }

  /** Member `m` names a hardware sensor that publishes data type `k`. */
  predicate Provides(sensors: seq<SensorConfig>, m: string, k: string) {
    var j := Lookup(sensors, m);
    j.Some? && k in DataTypes(sensors[j.value].kind)
  }

  lemma EntriesSpec(sensors: seq<SensorConfig>, fields: seq<Fields>, m: string)
    requires |fields| == |sensors|
    ensures forall k :: k in Entries(sensors, fields, m) <==> Provides(sensors, m, k)
    ensures forall k :: k in Entries(sensors, fields, m) ==>
      Entries(sensors, fields, m)[k] == Attr(fields[Lookup(sensors, m).value], k)
  {
    var j := Lookup(sensors, m);
    if j.Some? {
      AttrMapSpec(fields[j.value], DataTypes(sensors[j.value].kind));
    }
  }

  /**
   * The keys of a group's dictionary are exactly the data types of its
   * members that exist as hardware sensors.
   */
  lemma {:induction false} PayloadKeys(sensors: seq<SensorConfig>, fields: seq<Fields>, members: seq<string>, k: string)
    requires |fields| == |sensors|
    ensures k in GroupPayload(sensors, fields, members) <==>
      exists j :: 0 <= j < |members| && Provides(sensors, members[j], k)
  {
    if |members| > 0 {
      var n := |members| - 1;
      PayloadKeys(sensors, fields, members[..n], k);
      EntriesSpec(sensors, fields, members[n]);
      assert k in GroupPayload(sensors, fields, members) <==>
        k in GroupPayload(sensors, fields, members[..n]) || Provides(sensors, members[n], k);
      if exists j :: 0 <= j < |members| && Provides(sensors, members[j], k) {
        var j :| 0 <= j < |members| && Provides(sensors, members[j], k);
        if j < n {
          assert members[..n][j] == members[j];
        }
      }
      if exists j :: 0 <= j < n && Provides(sensors, members[..n][j], k) {
        var j :| 0 <= j < n && Provides(sensors, members[..n][j], k);
        assert members[j] == members[..n][j];
      }
    }
  }

  /**
   * The value under a key comes from the last member that provides it:
   * for duplicate keys the later member wins.
   */
  lemma {:induction false} PayloadLastWins(sensors: seq<SensorConfig>, fields: seq<Fields>, members: seq<string>, k: string, j: nat)
    requires |fields| == |sensors|
    requires j < |members| && Provides(sensors, members[j], k)
    requires forall l :: j < l < |members| ==> !Provides(sensors, members[l], k)
    ensures k in GroupPayload(sensors, fields, members)
    ensures GroupPayload(sensors, fields, members)[k] == Attr(fields[Lookup(sensors, members[j]).value], k)
  {
    var n := |members| - 1;
    EntriesSpec(sensors, fields, members[n]);
    if j < n {
      assert members[..n][j] == members[j];
      forall l | j < l < n ensures !Provides(sensors, members[..n][l], k) {
        assert members[..n][l] == members[l];
      }
      PayloadLastWins(sensors, fields, members[..n], k, j);
    }
  }

  /**
   * The loop of `publish_sensor_data` that fills the dictionary of one group:
   * the result has exactly the keys above, each with the last provider's value.
   */
  method BuildPayload(sensors: seq<SensorConfig>, fields: seq<Fields>, members: seq<string>) returns (payload: Payload)
    requires |fields| == |sensors|
    ensures payload == GroupPayload(sensors, fields, members)
  {
    payload := map[];
    for m := 0 to |members|
      invariant payload == GroupPayload(sensors, fields, members[..m])
    {
      assert members[..m + 1][..m] == members[..m];
      var sensor := Lookup(sensors, members[m]);
      if sensor.Some? {
        var j := sensor.value;
        payload := AddAttrs(payload, fields[j], DataTypes(sensors[j].kind));
      }
    }
    assert members[..|members|] == members;
  }

  /** The inner loop of `publish_sensor_data`: one sensor object's data types written into the dictionary. */
  method AddAttrs(payload: Payload, f: Fields, dataTypes: seq<string>) returns (r: Payload)
    ensures r == payload + AttrMap(f, dataTypes)
  {
    r := payload;
    for d := 0 to |dataTypes|
      invariant r == payload + AttrMap(f, dataTypes[..d])
    {
      assert dataTypes[..d + 1][..d] == dataTypes[..d];
      r := r[dataTypes[d] := Attr(f, dataTypes[d])];
    }
    assert dataTypes[..|dataTypes|] == dataTypes;
  }

  /**
   * One pass of `publish_sensor_data`: one message per group, in order, on
   * the group's topic.
   */
  method PublishAll(sensors: seq<SensorConfig>, fields: seq<Fields>, groups: seq<Group>)
    returns (messages: seq<(string, Payload)>)
    requires |fields| == |sensors|
    ensures |messages| == |groups|
    ensures forall g :: 0 <= g < |groups| ==>
      messages[g] == (groups[g].topic, GroupPayload(sensors, fields, groups[g].members))
  {
    messages := [];
    for g := 0 to |groups|
      invariant |messages| == g
      invariant forall h :: 0 <= h < g ==>
        messages[h] == (groups[h].topic, GroupPayload(sensors, fields, groups[h].members))
    {
      var payload := BuildPayload(sensors, fields, groups[g].members);
      messages := messages + [(groups[g].topic, payload)];
    }
  }

  /**
   * Before any sample the attributes still hold their initial 0, and that
   * is what gets published: every value of every group's dictionary is 0.
   */
  lemma {:induction false} PublishesZerosAtStart(sensors: seq<SensorConfig>, fields: seq<Fields>, members: seq<string>)
    requires |fields| == |sensors|
    requires forall j :: 0 <= j < |sensors| ==> fields[j] == InitialFields(sensors[j].kind)
    ensures forall k :: k in GroupPayload(sensors, fields, members) ==> GroupPayload(sensors, fields, members)[k] == Some(0.0)
  {
    if |members| > 0 {
      var n := |members| - 1;
      PublishesZerosAtStart(sensors, fields, members[..n]);
      EntriesSpec(sensors, fields, members[n]);
    }
  }
}

/**
 * `MessageParser.parseTemperaturePacket` and `parseEnergyPacket`: one insert
 * per sample child, in child order, each sample's readings collected by an
 * inner loop over its children.
 */
module SampleDecoders {
  import opened Wrappers
  import opened Dom
  import opened Telemetry
  import Rtems

  const TagTempSample := "TemperatureSample"
  const TagEnergySample := "EnergySample"
  const TagTemp := "temp"
  const TagVoltage := "voltage"
  const TagCurrent := "current"
  const TagSensor1 := "Sensor1"
  const TagSensor2 := "Sensor2"
  const TagSensor3 := "Sensor3"
  const TagBattery1 := "Battery1"
  const TagBattery2 := "Battery2"
  const TagBattery3 := "Battery3"

  /** `Float.parseFloat`, which is not part of this model; `None` is a `NumberFormatException`. */
  type FloatParser = string -> Option<Float>

  /** The two sample-carrying packet types. */
  datatype SampleKind = TemperatureSamples | EnergySamples

  function SampleTag(kind: SampleKind): string
  {
    match kind
    case TemperatureSamples => TagTempSample
    case EnergySamples => TagEnergySample
  }

  // ---- the inner loops, as specification functions; None means the loop threw ----

  /** The sensor locals `sensor1`, `sensor2`, `sensor3`. */
  datatype Sensors = Sensors(sensor1: Float, sensor2: Float, sensor3: Float)

  const NoSensors := Sensors(FloatZero, FloatZero, FloatZero)

  /** One child of a sample: its `temp` is read before the name switch, then parsed for a known sensor. */
  function SensorStep(acc: Sensors, sensor: Node, parseFloat: FloatParser): Option<Sensors>
  {
    match AttributeValue(sensor, TagTemp)
    case None => None
    case Some(temp) =>
      var name := NodeName(sensor);
      if name == TagSensor1 then
        (match parseFloat(temp) case None => None case Some(v) => Some(acc.(sensor1 := v)))
      else if name == TagSensor2 then
        (match parseFloat(temp) case None => None case Some(v) => Some(acc.(sensor2 := v)))
      else if name == TagSensor3 then
        (match parseFloat(temp) case None => None case Some(v) => Some(acc.(sensor3 := v)))
      else Some(acc)
  }

  function SensorsWalk(sensors: seq<Node>, parseFloat: FloatParser): Option<Sensors>
    decreases |sensors|
  {
    if sensors == [] then Some(NoSensors)
    else match SensorsWalk(sensors[..|sensors| - 1], parseFloat)
      case None => None
      case Some(acc) => SensorStep(acc, sensors[|sensors| - 1], parseFloat)
  }

  /** The battery locals. */
  datatype Batteries = Batteries(battery1Voltage: Float, battery2Voltage: Float, battery3Voltage: Float,
                                 battery1Current: Float, battery2Current: Float, battery3Current: Float)

  const NoBatteries := Batteries(FloatZero, FloatZero, FloatZero, FloatZero, FloatZero, FloatZero)

  /** One child of a sample: `voltage` and `current` are read before the name switch, then parsed for a known battery. */
  function BatteryStep(acc: Batteries, battery: Node, parseFloat: FloatParser): Option<Batteries>
  {
    match (AttributeValue(battery, TagVoltage), AttributeValue(battery, TagCurrent))
    case (Some(voltage), Some(current)) =>
      var name := NodeName(battery);
      if name != TagBattery1 && name != TagBattery2 && name != TagBattery3 then Some(acc)
      else
        (match (parseFloat(voltage), parseFloat(current))
         case (Some(v), Some(c)) =>
           if name == TagBattery1 then Some(acc.(battery1Voltage := v, battery1Current := c))
           else if name == TagBattery2 then Some(acc.(battery2Voltage := v, battery2Current := c))
           else Some(acc.(battery3Voltage := v, battery3Current := c))
         case _ => None)
    case _ => None
  }

  function BatteriesWalk(batteries: seq<Node>, parseFloat: FloatParser): Option<Batteries>
    decreases |batteries|
  {
    if batteries == [] then Some(NoBatteries)
    else match BatteriesWalk(batteries[..|batteries| - 1], parseFloat)
      case None => None
      case Some(acc) => BatteryStep(acc, batteries[|batteries| - 1], parseFloat)
  }

  // ---- one sample, and the outer loop ----

  /** The record one `TemperatureSample` element yields, or `None` if decoding it throws. */
  function DecodeTemperatureSample(sample: Node, parseFloat: FloatParser): Option<Record>
  {
    match AttributeValue(sample, TagTime)
    case None => None
    case Some(time) =>
      (match SensorsWalk(ChildNodes(sample), parseFloat)
       case None => None
       case Some(s) => Some(TemperatureRecord(s.sensor1, s.sensor2, s.sensor3, Rtems.ParseRtemsTimestamp(time))))
  }

  /** The record one `EnergySample` element yields, or `None` if decoding it throws. */
  function DecodeEnergySample(sample: Node, parseFloat: FloatParser): Option<Record>
  {
    match AttributeValue(sample, TagTime)
    case None => None
    case Some(time) =>
      (match BatteriesWalk(ChildNodes(sample), parseFloat)
       case None => None
       case Some(b) =>
         Some(EnergyRecord(b.battery1Voltage, b.battery2Voltage, b.battery3Voltage,
                           b.battery1Current, b.battery2Current, b.battery3Current,
                           Rtems.ParseRtemsTimestamp(time))))
  }

  function DecodeSample(kind: SampleKind, sample: Node, parseFloat: FloatParser): Option<Record>
  {
    match kind
    case TemperatureSamples => DecodeTemperatureSample(sample, parseFloat)
    case EnergySamples => DecodeEnergySample(sample, parseFloat)
  }

  /** The outer loop over the packet's children: every sample is inserted as soon as it is decoded. */
  function SampleWalk(cs: seq<Node>, kind: SampleKind, parseFloat: FloatParser): Decoded
    decreases |cs|
  {
    if cs == [] then Decoded([], false)
    else
      var d := SampleWalk(cs[..|cs| - 1], kind, parseFloat);
      var c := cs[|cs| - 1];
      if d.failed || NodeName(c) != SampleTag(kind) then d
      else match DecodeSample(kind, c, parseFloat)
        case None => Decoded(d.inserts, true)
        case Some(r) => Decoded(d.inserts + [r], false)
  }

  /** One more child of the packet: the outer loop's step, stated on prefixes. */
  lemma SampleWalkNext(cs: seq<Node>, i: nat, kind: SampleKind, parseFloat: FloatParser)
    requires i < |cs|
    ensures var d := SampleWalk(cs[..i], kind, parseFloat);
      SampleWalk(cs[..i + 1], kind, parseFloat) ==
        if d.failed || NodeName(cs[i]) != SampleTag(kind) then d
        else match DecodeSample(kind, cs[i], parseFloat)
          case None => Decoded(d.inserts, true)
          case Some(r) => Decoded(d.inserts + [r], false)
  {
    assert cs[..i + 1][..i] == cs[..i];
  }

  lemma {:induction false} SampleWalkSticky(cs: seq<Node>, k: nat, kind: SampleKind, parseFloat: FloatParser)
    requires k <= |cs| && SampleWalk(cs[..k], kind, parseFloat).failed
    ensures SampleWalk(cs, kind, parseFloat) == SampleWalk(cs[..k], kind, parseFloat)
    decreases |cs|
  {
    if k < |cs| {
      assert cs[..|cs| - 1][..k] == cs[..k];
      SampleWalkSticky(cs[..|cs| - 1], k, kind, parseFloat);
    } else {
      assert cs[..k] == cs;
    }
  }

  // ---- the methods ----

  /** The inner loop of `parseTemperaturePacket` over one sample's children. */
  method ReadSensors(sensors: seq<Node>, parseFloat: FloatParser) returns (r: Option<Sensors>)
    ensures r == SensorsWalk(sensors, parseFloat)
  {
    var sensor1, sensor2, sensor3 := FloatZero, FloatZero, FloatZero;
    for j := 0 to |sensors|
      invariant SensorsWalk(sensors[..j], parseFloat) == Some(Sensors(sensor1, sensor2, sensor3))
    {
      var sensor := sensors[j];
      assert sensors[..j + 1][..j] == sensors[..j];
      var temp := AttributeValue(sensor, TagTemp);
      if temp.None? {
        SensorsWalkSticky(sensors, j + 1, parseFloat);
        return None;
      }
      var name := NodeName(sensor);
      if name == TagSensor1 || name == TagSensor2 || name == TagSensor3 {
        var v := parseFloat(temp.value);
        if v.None? {
          SensorsWalkSticky(sensors, j + 1, parseFloat);
          return None;
        }
        if name == TagSensor1 {
          sensor1 := v.value;
        } else if name == TagSensor2 {
          sensor2 := v.value;
        } else {
          sensor3 := v.value;
        }
      }
    }
    assert sensors[..|sensors|] == sensors;
    return Some(Sensors(sensor1, sensor2, sensor3));
  }

  /** `parseTemperaturePacket`: the records it inserts, and whether it then threw. */
  method ParseTemperaturePacket(packet: Node, parseFloat: FloatParser) returns (inserts: seq<Record>, failed: bool)
    ensures Decoded(inserts, failed) == SampleWalk(ChildNodes(packet), TemperatureSamples, parseFloat)
  {
    var children := ChildNodes(packet);
    inserts := [];
    for i := 0 to |children|
      invariant SampleWalk(children[..i], TemperatureSamples, parseFloat) == Decoded(inserts, false)
    {
      var child := children[i];
      SampleWalkNext(children, i, TemperatureSamples, parseFloat);
      if NodeName(child) == TagTempSample {
        var sampleTimestamp := AttributeValue(child, TagTime);
        if sampleTimestamp.None? {
          SampleWalkSticky(children, i + 1, TemperatureSamples, parseFloat);
          return inserts, true;
        }
        var ts := Rtems.ParseRtemsTimestamp(sampleTimestamp.value);
        var sensors := ReadSensors(ChildNodes(child), parseFloat);
        if sensors.None? {
          SampleWalkSticky(children, i + 1, TemperatureSamples, parseFloat);
          return inserts, true;
        }
        var s := sensors.value;
        assert DecodeSample(TemperatureSamples, child, parseFloat)
          == Some(TemperatureRecord(s.sensor1, s.sensor2, s.sensor3, ts));
        inserts := inserts + [TemperatureRecord(s.sensor1, s.sensor2, s.sensor3, ts)];
      }
    }
    assert children[..|children|] == children;
    return inserts, false;
  }

  /** The inner loop of `parseEnergyPacket` over one sample's children. */
  method ReadBatteries(batteries: seq<Node>, parseFloat: FloatParser) returns (r: Option<Batteries>)
    ensures r == BatteriesWalk(batteries, parseFloat)
  {
    var batt1V, batt2V, batt3V, batt1C, batt2C, batt3C :=
      FloatZero, FloatZero, FloatZero, FloatZero, FloatZero, FloatZero;
    for j := 0 to |batteries|
      invariant BatteriesWalk(batteries[..j], parseFloat) ==
                Some(Batteries(batt1V, batt2V, batt3V, batt1C, batt2C, batt3C))
    {
      var battery := batteries[j];
      assert batteries[..j + 1][..j] == batteries[..j];
      var voltage := AttributeValue(battery, TagVoltage);
      var current := AttributeValue(battery, TagCurrent);
      if voltage.None? || current.None? {
        BatteriesWalkSticky(batteries, j + 1, parseFloat);
        return None;
      }
      var name := NodeName(battery);
      if name == TagBattery1 || name == TagBattery2 || name == TagBattery3 {
        var v := parseFloat(voltage.value);
        var c := parseFloat(current.value);
        if v.None? || c.None? {
          BatteriesWalkSticky(batteries, j + 1, parseFloat);
          return None;
        }
        if name == TagBattery1 {
          batt1V, batt1C := v.value, c.value;
        } else if name == TagBattery2 {
          batt2V, batt2C := v.value, c.value;
        } else {
          batt3V, batt3C := v.value, c.value;
        }
      }
    }
    assert batteries[..|batteries|] == batteries;
    return Some(Batteries(batt1V, batt2V, batt3V, batt1C, batt2C, batt3C));
  }

  /** `parseEnergyPacket`: the records it inserts, and whether it then threw. */
  method ParseEnergyPacket(packet: Node, parseFloat: FloatParser) returns (inserts: seq<Record>, failed: bool)
    ensures Decoded(inserts, failed) == SampleWalk(ChildNodes(packet), EnergySamples, parseFloat)
  {
    var children := ChildNodes(packet);
    inserts := [];
    for i := 0 to |children|
      invariant SampleWalk(children[..i], EnergySamples, parseFloat) == Decoded(inserts, false)
    {
      var child := children[i];
      SampleWalkNext(children, i, EnergySamples, parseFloat);
      if NodeName(child) == TagEnergySample {
        var sampleTimestamp := AttributeValue(child, TagTime);
        if sampleTimestamp.None? {
          SampleWalkSticky(children, i + 1, EnergySamples, parseFloat);
          return inserts, true;
        }
        var ts := Rtems.ParseRtemsTimestamp(sampleTimestamp.value);
        var batteries := ReadBatteries(ChildNodes(child), parseFloat);
        if batteries.None? {
          SampleWalkSticky(children, i + 1, EnergySamples, parseFloat);
          return inserts, true;
        }
        var b := batteries.value;
        assert DecodeSample(EnergySamples, child, parseFloat)
          == Some(EnergyRecord(b.battery1Voltage, b.battery2Voltage, b.battery3Voltage,
                               b.battery1Current, b.battery2Current, b.battery3Current, ts));
        inserts := inserts + [EnergyRecord(b.battery1Voltage, b.battery2Voltage, b.battery3Voltage,
                                           b.battery1Current, b.battery2Current, b.battery3Current, ts)];
      }
    }
    assert children[..|children|] == children;
    return inserts, false;
  }

  lemma {:induction false} SensorsWalkSticky(sensors: seq<Node>, k: nat, parseFloat: FloatParser)
    requires k <= |sensors| && SensorsWalk(sensors[..k], parseFloat).None?
    ensures SensorsWalk(sensors, parseFloat).None?
    decreases |sensors|
  {
    if k < |sensors| {
      assert sensors[..|sensors| - 1][..k] == sensors[..k];
      SensorsWalkSticky(sensors[..|sensors| - 1], k, parseFloat);
    } else {
      assert sensors[..k] == sensors;
    }
  }

  lemma {:induction false} BatteriesWalkSticky(batteries: seq<Node>, k: nat, parseFloat: FloatParser)
    requires k <= |batteries| && BatteriesWalk(batteries[..k], parseFloat).None?
    ensures BatteriesWalk(batteries, parseFloat).None?
    decreases |batteries|
  {
    if k < |batteries| {
      assert batteries[..|batteries| - 1][..k] == batteries[..k];
      BatteriesWalkSticky(batteries[..|batteries| - 1], k, parseFloat);
    } else {
      assert batteries[..k] == batteries;
    }
  }

  // ---- an independent description of the result ----

  /** The sample children of a packet, in child order. */
  function Samples(cs: seq<Node>, tag: string): (r: seq<Node>)
    decreases |cs|
  {
    if cs == [] then []
    else Samples(cs[..|cs| - 1], tag) + (if NodeName(cs[|cs| - 1]) == tag then [cs[|cs| - 1]] else [])
  }

  /**
   * The outer loop inserts the decoded sample children in child order, up to
   * the first sample whose decoding throws: it throws exactly when it inserted
   * fewer records than there are samples, and then the next sample is the one
   * that threw. Children with other names contribute nothing.
   */
  lemma {:induction false} SampleWalkReference(cs: seq<Node>, kind: SampleKind, parseFloat: FloatParser)
    ensures var d, ss := SampleWalk(cs, kind, parseFloat), Samples(cs, SampleTag(kind));
      && |d.inserts| <= |ss|
      && (forall i :: 0 <= i < |d.inserts| ==> DecodeSample(kind, ss[i], parseFloat) == Some(d.inserts[i]))
      && (d.failed <==> |d.inserts| < |ss|)
      && (d.failed ==> DecodeSample(kind, ss[|d.inserts|], parseFloat).None?)
    decreases |cs|
  {
    if cs != [] {
      var init := cs[..|cs| - 1];
      SampleWalkReference(init, kind, parseFloat);
      var ss0 := Samples(init, SampleTag(kind));
      assert forall i :: 0 <= i < |ss0| ==> Samples(cs, SampleTag(kind))[i] == ss0[i];
    }
  }

  /** The last child with the given node name. */
  function LastNamed(items: seq<Node>, tag: string): Option<Node>
    decreases |items|
  {
    if items == [] then None
    else if NodeName(items[|items| - 1]) == tag then Some(items[|items| - 1])
    else LastNamed(items[..|items| - 1], tag)
  }

  /** The reading an item's attribute gives; the literal 0 when there is no such item. */
  function ReadingOf(item: Option<Node>, attribute: string, parseFloat: FloatParser): Float
  {
    match item
    case None => FloatZero
    case Some(n) =>
      (match AttributeValue(n, attribute)
       case Some(text) => (match parseFloat(text) case Some(v) => v case None => FloatZero)
       case None => FloatZero)
  }

  predicate IsSensorTag(name: string)
  {
    name == TagSensor1 || name == TagSensor2 || name == TagSensor3
  }

  /** A sample child the sensor loop throws on: no `temp` attribute, or an unparsable one on a sensor. */
  predicate BadSensor(n: Node, parseFloat: FloatParser)
  {
    || AttributeValue(n, TagTemp).None?
    || (IsSensorTag(NodeName(n)) && parseFloat(AttributeValue(n, TagTemp).value).None?)
  }

  /** What the sensor loop is expected to leave behind: each reading from the last child with that sensor's name. */
  function SensorReadings(items: seq<Node>, parseFloat: FloatParser): Sensors
  {
    Sensors(ReadingOf(LastNamed(items, TagSensor1), TagTemp, parseFloat),
            ReadingOf(LastNamed(items, TagSensor2), TagTemp, parseFloat),
            ReadingOf(LastNamed(items, TagSensor3), TagTemp, parseFloat))
  }

  lemma SensorReadingsStep(items: seq<Node>, parseFloat: FloatParser)
    requires items != [] && !BadSensor(items[|items| - 1], parseFloat)
    ensures SensorStep(SensorReadings(items[..|items| - 1], parseFloat), items[|items| - 1], parseFloat)
            == Some(SensorReadings(items, parseFloat))
  {
  }

  lemma {:induction false} SensorsWalkReference(items: seq<Node>, parseFloat: FloatParser)
    ensures SensorsWalk(items, parseFloat).None? <==> exists j :: 0 <= j < |items| && BadSensor(items[j], parseFloat)
    ensures SensorsWalk(items, parseFloat).Some? ==> SensorsWalk(items, parseFloat).value == SensorReadings(items, parseFloat)
    decreases |items|
  {
    if items != [] {
      var init, last := items[..|items| - 1], items[|items| - 1];
      SensorsWalkReference(init, parseFloat);
      assert forall j :: 0 <= j < |init| ==> init[j] == items[j];
      if SensorsWalk(init, parseFloat).Some? {
        if BadSensor(last, parseFloat) {
          assert SensorStep(SensorsWalk(init, parseFloat).value, last, parseFloat).None?;
          assert BadSensor(items[|items| - 1], parseFloat);
        } else {
          SensorReadingsStep(items, parseFloat);
        }
      }
    }
  }

  /**
   * One `TemperatureSample` decodes unless it lacks `time` or has a bad child;
   * each sensor reading is that of the last child with the sensor's name, 0
   * when there is none, and the record carries the sample's own timestamp.
   */
  lemma TemperatureSampleReference(sample: Node, parseFloat: FloatParser)
    ensures var sensors := ChildNodes(sample);
      DecodeTemperatureSample(sample, parseFloat).None? <==>
        || AttributeValue(sample, TagTime).None?
        || exists j :: 0 <= j < |sensors| && BadSensor(sensors[j], parseFloat)
    ensures var sensors := ChildNodes(sample);
      DecodeTemperatureSample(sample, parseFloat).Some? ==>
        DecodeTemperatureSample(sample, parseFloat).value ==
          TemperatureRecord(ReadingOf(LastNamed(sensors, TagSensor1), TagTemp, parseFloat),
                            ReadingOf(LastNamed(sensors, TagSensor2), TagTemp, parseFloat),
                            ReadingOf(LastNamed(sensors, TagSensor3), TagTemp, parseFloat),
                            Rtems.ParseRtemsTimestamp(AttributeValue(sample, TagTime).value))
  {
    SensorsWalkReference(ChildNodes(sample), parseFloat);
  }

  predicate IsBatteryTag(name: string)
  {
    name == TagBattery1 || name == TagBattery2 || name == TagBattery3
  }

  /** A sample child the battery loop throws on: no `voltage` or `current`, or an unparsable one on a battery. */
  predicate BadBattery(n: Node, parseFloat: FloatParser)
  {
    || AttributeValue(n, TagVoltage).None?
    || AttributeValue(n, TagCurrent).None?
    || (&& IsBatteryTag(NodeName(n))
        && (|| parseFloat(AttributeValue(n, TagVoltage).value).None?
            || parseFloat(AttributeValue(n, TagCurrent).value).None?))
  }

  /** What the battery loop is expected to leave behind: each pair from the last child with that battery's name. */
  function BatteryReadings(items: seq<Node>, parseFloat: FloatParser): Batteries
  {
    Batteries(ReadingOf(LastNamed(items, TagBattery1), TagVoltage, parseFloat),
              ReadingOf(LastNamed(items, TagBattery2), TagVoltage, parseFloat),
              ReadingOf(LastNamed(items, TagBattery3), TagVoltage, parseFloat),
              ReadingOf(LastNamed(items, TagBattery1), TagCurrent, parseFloat),
              ReadingOf(LastNamed(items, TagBattery2), TagCurrent, parseFloat),
              ReadingOf(LastNamed(items, TagBattery3), TagCurrent, parseFloat))
  }

  lemma BatteryReadingsStep(items: seq<Node>, parseFloat: FloatParser)
    requires items != [] && !BadBattery(items[|items| - 1], parseFloat)
    ensures BatteryStep(BatteryReadings(items[..|items| - 1], parseFloat), items[|items| - 1], parseFloat)
            == Some(BatteryReadings(items, parseFloat))
  {
  }

  lemma {:induction false} BatteriesWalkReference(items: seq<Node>, parseFloat: FloatParser)
    ensures BatteriesWalk(items, parseFloat).None? <==> exists j :: 0 <= j < |items| && BadBattery(items[j], parseFloat)
    ensures BatteriesWalk(items, parseFloat).Some? ==> BatteriesWalk(items, parseFloat).value == BatteryReadings(items, parseFloat)
    decreases |items|
  {
    if items != [] {
      var init, last := items[..|items| - 1], items[|items| - 1];
      BatteriesWalkReference(init, parseFloat);
      assert forall j :: 0 <= j < |init| ==> init[j] == items[j];
      if BatteriesWalk(init, parseFloat).Some? {
        if BadBattery(last, parseFloat) {
          assert BatteryStep(BatteriesWalk(init, parseFloat).value, last, parseFloat).None?;
          assert BadBattery(items[|items| - 1], parseFloat);
        } else {
          BatteryReadingsStep(items, parseFloat);
          assert BatteriesWalk(items, parseFloat) == Some(BatteryReadings(items, parseFloat));
        }
      }
    }
  }

  /**
   * One `EnergySample` decodes unless it lacks `time` or has a bad child; each
   * battery's voltage and current are those of the last child with its name,
   * 0 when there is none, and the record carries the sample's own timestamp.
   */
  lemma EnergySampleReference(sample: Node, parseFloat: FloatParser)
    ensures var batteries := ChildNodes(sample);
      DecodeEnergySample(sample, parseFloat).None? <==>
        || AttributeValue(sample, TagTime).None?
        || exists j :: 0 <= j < |batteries| && BadBattery(batteries[j], parseFloat)
    ensures var bs := ChildNodes(sample);
      DecodeEnergySample(sample, parseFloat).Some? ==>
        DecodeEnergySample(sample, parseFloat).value ==
          EnergyRecord(ReadingOf(LastNamed(bs, TagBattery1), TagVoltage, parseFloat),
                       ReadingOf(LastNamed(bs, TagBattery2), TagVoltage, parseFloat),
                       ReadingOf(LastNamed(bs, TagBattery3), TagVoltage, parseFloat),
                       ReadingOf(LastNamed(bs, TagBattery1), TagCurrent, parseFloat),
                       ReadingOf(LastNamed(bs, TagBattery2), TagCurrent, parseFloat),
                       ReadingOf(LastNamed(bs, TagBattery3), TagCurrent, parseFloat),
                       Rtems.ParseRtemsTimestamp(AttributeValue(sample, TagTime).value))
  {
    BatteriesWalkReference(ChildNodes(sample), parseFloat);
  }
}

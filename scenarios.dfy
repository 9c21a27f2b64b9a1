/**
 * A worked message: one Energy telemetry document taken through routing,
 * timestamp parsing and sample decoding, with the record it inserts.
 */
module Scenarios {
  import opened Wrappers
  import opened Dom
  import opened Telemetry
  import opened Parser
  import Rtems
  import SampleDecoders

  const SampleTime := "20240229235959"

  function BatteryNode(): Node
  {
    Element("Battery1", map["voltage" := "3.7", "current" := "0.5"], [])
  }

  function SampleNode(): Node
  {
    Element("EnergySample", map["time" := SampleTime], [BatteryNode()])
  }

  function PacketNode(): Node
  {
    Element("downstreamPacket", map[], [SampleNode()])
  }

  function TypeNode(): Node
  {
    Element("type", map[], [Text("Energy")])
  }

  /** `<message><type>Energy</type><downstreamPacket>…</downstreamPacket></message>`. */
  function EnergyDocument(): Document
  {
    Document(Element("message", map[], [TypeNode(), PacketNode()]))
  }

  /** The document is routed to the Energy decoder with its `downstreamPacket`. */
  lemma EnergyDocumentRoute()
    ensures RouteOf(EnergyDocument()) == Decode(EnergyPacket, PacketNode())
  {
    var root := EnergyDocument().root;
    var typ := TypeNode();
    assert TextContent(typ) == "Energy" by {
      assert seq(1, i requires 0 <= i < 1 => TextContent(typ.children[i])) == ["Energy"];
      assert Flatten(["Energy"]) == "Energy";
    }
    FirstInDocumentOrder(root, TagType, 0);
    assert !HasElement(typ, TagDownPacket) by {
      assert !HasElement(Text("Energy"), TagDownPacket);
    }
    FirstInDocumentOrder(root, TagDownPacket, 1);
  }

  /** The sample's `time` reads as 29 February 2024, 23:59:59. */
  lemma SampleTimeParses()
    ensures Rtems.ParseRtemsTimestamp(SampleTime) == Rtems.At(Rtems.CivilTime(2024, 2, 29, 23, 59, 59))
  {
    var ts := SampleTime;
    assert Rtems.WellFormed(ts);
    assert ts[0..4] == "2024" && ts[4..6] == "02" && ts[6..8] == "29";
    assert ts[8..10] == "23" && ts[10..12] == "59" && ts[12..14] == "59";
    FourDigitsValue("2024");
    TwoDigitsValue("02");
    TwoDigitsValue("29");
    TwoDigitsValue("23");
    TwoDigitsValue("59");
  }

  /** The one sample yields one record: Battery1's pair, zeros for the others, the sample's own time. */
  lemma EnergySampleDecodes(pf: SampleDecoders.FloatParser, v: Float, c: Float)
    requires pf("3.7") == Some(v) && pf("0.5") == Some(c)
    ensures SampleDecoders.SampleWalk(ChildNodes(PacketNode()), SampleDecoders.EnergySamples, pf) ==
      Decoded([EnergyRecord(v, FloatZero, FloatZero, c, FloatZero, FloatZero, Rtems.ParseRtemsTimestamp(SampleTime))], false)
  {
    var battery, sample := BatteryNode(), SampleNode();
    assert [battery][..0] == [];
    assert SampleDecoders.BatteriesWalk([battery], pf) ==
      Some(SampleDecoders.Batteries(v, FloatZero, FloatZero, c, FloatZero, FloatZero));
    assert [sample][..0] == [];
  }

  /** `parseMessage` on the document inserts exactly that record and logs nothing. */
  lemma EnergyMessageScenario(pf: SampleDecoders.FloatParser, v: Float, c: Float)
    requires pf("3.7") == Some(v) && pf("0.5") == Some(c)
    ensures ParseMessageSpec(EnergyDocument(), pf) ==
      Dispatch([EnergyRecord(v, FloatZero, FloatZero, c, FloatZero, FloatZero,
                             Rtems.At(Rtems.CivilTime(2024, 2, 29, 23, 59, 59)))], [], Completed)
  {
    EnergyDocumentRoute();
    SampleTimeParses();
    EnergySampleDecodes(pf, v, c);
    var r := EnergyRecord(v, FloatZero, FloatZero, c, FloatZero, FloatZero, Rtems.ParseRtemsTimestamp(SampleTime));
    assert DecodePacket(EnergyPacket, PacketNode(), pf) == Decoded([r], false);
  }

  /** The value of a two-digit string. */
  lemma TwoDigitsValue(s: string)
    requires |s| == 2 && Rtems.AllDigits(s)
    ensures Rtems.Value(s) == Rtems.DigitValue(s[0]) * 10 + Rtems.DigitValue(s[1])
  {
    var head := s[..1];
    assert head[..0] == [];
    assert Rtems.Value(head) == Rtems.DigitValue(s[0]);
    assert s[..|s| - 1] == head;
  }

  /** The value of a four-digit string. */
  lemma FourDigitsValue(s: string)
    requires |s| == 4 && Rtems.AllDigits(s)
    ensures Rtems.Value(s) == (Rtems.DigitValue(s[0]) * 10 + Rtems.DigitValue(s[1])) * 100
                              + Rtems.DigitValue(s[2]) * 10 + Rtems.DigitValue(s[3])
  {
    var front, mid := s[..2], s[..3];
    TwoDigitsValue(front);
    assert mid[..|mid| - 1] == front;
    assert s[..|s| - 1] == mid;
  }
}

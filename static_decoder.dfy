/**
 * `MessageParser.parseStaticPacket`: one walk over the packet's children that
 * keeps the satellite state and six module status/timestamp pairs, then one
 * insert of the satellite record.
 */
module StaticDecoder {
  import opened Wrappers
  import opened Dom
  import opened Telemetry
  import Rtems

  const TagState := "state"
  const TagModule := "Module"
  const TagName := "name"
  const TagStatus := "status"

  /** The six monitored modules. */
  datatype ModuleId =
    TemperatureModule | EnergyModule | PayloadModule | SbandModule | SolarPanelsModule | ThermalControlModule

  /** The module-name switch of the info loop; `None` is its empty default branch. */
  function ModuleNamed(name: string): Option<ModuleId>
  {
    if name == "Temperature" then Some(TemperatureModule)
    else if name == "Energy" then Some(EnergyModule)
    else if name == "Payload" then Some(PayloadModule)
    else if name == "Sband" then Some(SbandModule)
    else if name == "SolarPanels" then Some(SolarPanelsModule)
    else if name == "ThermalControl" then Some(ThermalControlModule)
    else None
  }

  /** One status/timestamp pair of locals; a null status or timestamp is `None`. */
  datatype Slot = Slot(status: Option<Status>, time: Option<Rtems.Instant>)

  /** The initial pair: `Status.UNKNOWN` and a null timestamp. */
  const Unreported := Slot(Some(Status.Unknown), None)

  /** The twelve module locals. */
  datatype Modules = Modules(temperature: Slot, energy: Slot, payload: Slot, sband: Slot,
                             solarPanels: Slot, thermalControl: Slot)
  {
    function Get(m: ModuleId): Slot
    {
      match m
      case TemperatureModule => temperature
      case EnergyModule => energy
      case PayloadModule => payload
      case SbandModule => sband
      case SolarPanelsModule => solarPanels
      case ThermalControlModule => thermalControl
    }

    function Set(m: ModuleId, s: Slot): (r: Modules)
      ensures r.Get(m) == s
      ensures forall m' :: m' != m ==> r.Get(m') == Get(m')
    {
      match m
      case TemperatureModule => this.(temperature := s)
      case EnergyModule => this.(energy := s)
      case PayloadModule => this.(payload := s)
      case SbandModule => this.(sband := s)
      case SolarPanelsModule => this.(solarPanels := s)
      case ThermalControlModule => this.(thermalControl := s)
    }
  }

  const NoneReported := Modules(Unreported, Unreported, Unreported, Unreported, Unreported, Unreported)

  /** The walk's locals: the satellite state and the module pairs. */
  datatype Walk = Walk(state: SatelliteState, modules: Modules)

  const Initial := Walk(SatelliteState.Unknown, NoneReported)

  // ---- the walk, as specification functions; None is a null dereference ----

  /** One info node of a `Module` element whose `time` attribute is `time`. */
  function InfoStep(mods: Modules, info: Node, time: string): Option<Modules>
  {
    match (AttributeValue(info, TagName), AttributeValue(info, TagStatus))
    case (Some(name), Some(status)) =>
      (match ModuleNamed(name)
       case Some(m) => Some(mods.Set(m, Slot(StringToStatus(status), Some(Rtems.ParseRtemsTimestamp(time)))))
       case None => Some(mods))
    case _ => None
  }

  /** The info loop over the children of one `Module` element, from the pairs `start`. */
  function InfosWalk(infos: seq<Node>, start: Modules, time: string): Option<Modules>
    decreases |infos|
  {
    if infos == [] then Some(start)
    else match InfosWalk(infos[..|infos| - 1], start, time)
      case None => None
      case Some(mods) => InfoStep(mods, infos[|infos| - 1], time)
  }

  /** One child of the packet. */
  function ChildStep(w: Walk, child: Node): Option<Walk>
  {
    if NodeName(child) == TagState then
      Some(w.(state := StringToSatState(TextContent(child))))
    else if NodeName(child) == TagModule then
      match AttributeValue(child, TagTime)
      case None => None
      case Some(time) =>
        (match InfosWalk(ChildNodes(child), w.modules, time)
         case None => None
         case Some(mods) => Some(w.(modules := mods)))
    else Some(w)
  }

  /** The child loop over `cs`, from the initial locals. */
  function ChildrenWalk(cs: seq<Node>): Option<Walk>
    decreases |cs|
  {
    if cs == [] then Some(Initial)
    else match ChildrenWalk(cs[..|cs| - 1])
      case None => None
      case Some(w) => ChildStep(w, cs[|cs| - 1])
  }

  /**
   * The record the insert receives; `None` when a status is null, since the
   * log message built before the insert calls `toString()` on every status.
   */
  function StaticRecord(w: Walk): Option<Record>
  {
    var ms := w.modules;
    if NoNullStatus(ms) then
      Some(SatelliteRecord(w.state,
        ModuleReport(ms.temperature.status.value, ms.temperature.time),
        ModuleReport(ms.energy.status.value, ms.energy.time),
        ModuleReport(ms.sband.status.value, ms.sband.time),
        ModuleReport(ms.payload.status.value, ms.payload.time),
        ModuleReport(ms.solarPanels.status.value, ms.solarPanels.time),
        ModuleReport(ms.thermalControl.status.value, ms.thermalControl.time)))
    else None
  }

  predicate NoNullStatus(ms: Modules)
  {
    && ms.temperature.status.Some? && ms.energy.status.Some? && ms.payload.status.Some?
    && ms.sband.status.Some? && ms.solarPanels.status.Some? && ms.thermalControl.status.Some?
  }

  lemma NoNullStatusEveryModule(ms: Modules)
    ensures NoNullStatus(ms) <==> forall m :: ms.Get(m).status.Some?
  {
    if !NoNullStatus(ms) {
      var m :| m in [TemperatureModule, EnergyModule, PayloadModule, SbandModule, SolarPanelsModule, ThermalControlModule]
               && ms.Get(m).status.None?;
    }
  }

  /** What `parseStaticPacket(packet)` inserts: one record after the whole walk, or nothing if it throws. */
  function DecodeStatic(packet: Node): (d: Decoded)
    ensures |d.inserts| == (if d.failed then 0 else 1)
    ensures !d.failed ==> d.inserts[0].SatelliteRecord?
  {
    match ChildrenWalk(ChildNodes(packet))
    case None => Decoded([], true)
    case Some(w) =>
      (match StaticRecord(w)
       case None => Decoded([], true)
       case Some(r) => Decoded([r], false))
  }

  // ---- the method ----

  /** `parseStaticPacket`, with its two nested loops over the packet's children and each Module's children. */
  method ParseStaticPacket(packet: Node) returns (inserts: seq<Record>, failed: bool)
    ensures Decoded(inserts, failed) == DecodeStatic(packet)
  {
    var children := ChildNodes(packet);
    var satState := SatelliteState.Unknown;
    var modules := NoneReported;
    for i := 0 to |children|
      invariant ChildrenWalk(children[..i]) == Some(Walk(satState, modules))
    {
      var child := children[i];
      ChildrenWalkNext(children, i);
      if NodeName(child) == TagState {
        satState := StringToSatState(TextContent(child));
      } else if NodeName(child) == TagModule {
        var moduleTimestamp := AttributeValue(child, TagTime);
        if moduleTimestamp.None? {
          ChildrenWalkSticky(children, i + 1);
          return [], true;
        }
        var updated := ParseModuleInfos(ChildNodes(child), modules, moduleTimestamp.value);
        if updated.None? {
          ChildrenWalkSticky(children, i + 1);
          return [], true;
        }
        modules := updated.value;
      }
    }
    assert children[..|children|] == children;
    var record := StaticRecord(Walk(satState, modules));
    if record.None? {
      return [], true;
    }
    return [record.value], false;
  }

  /** The inner loop of `parseStaticPacket` over the children of one `Module` element. */
  method ParseModuleInfos(infos: seq<Node>, start: Modules, moduleTimestamp: string) returns (r: Option<Modules>)
    ensures r == InfosWalk(infos, start, moduleTimestamp)
  {
    var modules := start;
    for j := 0 to |infos|
      invariant InfosWalk(infos[..j], start, moduleTimestamp) == Some(modules)
    {
      var info := infos[j];
      InfosWalkNext(infos, j, start, moduleTimestamp);
      var moduleName := AttributeValue(info, TagName);
      var statusText := AttributeValue(info, TagStatus);
      if moduleName.None? || statusText.None? {
        InfosWalkSticky(infos, j + 1, start, moduleTimestamp);
        return None;
      }
      var moduleStatus := StringToStatus(statusText.value);
      match ModuleNamed(moduleName.value)
      case Some(m) =>
        modules := modules.Set(m, Slot(moduleStatus, Some(Rtems.ParseRtemsTimestamp(moduleTimestamp))));
      case None =>
    }
    assert infos[..|infos|] == infos;
    return Some(modules);
  }

  /** One more info node: the inner loop's step, stated on prefixes. */
  lemma InfosWalkNext(infos: seq<Node>, j: nat, start: Modules, time: string)
    requires j < |infos|
    ensures InfosWalk(infos[..j + 1], start, time) ==
      match InfosWalk(infos[..j], start, time)
      case None => None
      case Some(mods) => InfoStep(mods, infos[j], time)
  {
    assert infos[..j + 1][..j] == infos[..j];
  }

  /** One more child of the packet: the outer loop's step, stated on prefixes. */
  lemma ChildrenWalkNext(cs: seq<Node>, i: nat)
    requires i < |cs|
    ensures ChildrenWalk(cs[..i + 1]) ==
      match ChildrenWalk(cs[..i])
      case None => None
      case Some(w) => ChildStep(w, cs[i])
  {
    assert cs[..i + 1][..i] == cs[..i];
  }

  lemma {:induction false} InfosWalkSticky(infos: seq<Node>, k: nat, start: Modules, time: string)
    requires k <= |infos| && InfosWalk(infos[..k], start, time) == None
    ensures InfosWalk(infos, start, time) == None
    decreases |infos|
  {
    if k < |infos| {
      assert infos[..|infos| - 1][..k] == infos[..k];
      InfosWalkSticky(infos[..|infos| - 1], k, start, time);
    } else {
      assert infos[..k] == infos;
    }
  }

  lemma {:induction false} ChildrenWalkSticky(cs: seq<Node>, k: nat)
    requires k <= |cs| && ChildrenWalk(cs[..k]) == None
    ensures ChildrenWalk(cs) == None
    decreases |cs|
  {
    if k < |cs| {
      assert cs[..|cs| - 1][..k] == cs[..k];
      ChildrenWalkSticky(cs[..|cs| - 1], k);
    } else {
      assert cs[..k] == cs;
    }
  }

  // ---- an independent description of the result ----

  /** An info node Java dereferences null on: a text node, or one without a `name` or `status` attribute. */
  predicate BadInfo(info: Node)
  {
    AttributeValue(info, TagName).None? || AttributeValue(info, TagStatus).None?
  }

  /** A `Module` child the walk throws on. */
  predicate MalformedModule(c: Node)
  {
    && NodeName(c) == TagModule
    && (|| AttributeValue(c, TagTime).None?
        || exists j :: 0 <= j < |ChildNodes(c)| && BadInfo(ChildNodes(c)[j]))
  }

  predicate NamesModule(info: Node, m: ModuleId)
  {
    AttributeValue(info, TagName).Some? && ModuleNamed(AttributeValue(info, TagName).value) == Some(m)
  }

  /** The last info node that names `m`. */
  function LastNaming(infos: seq<Node>, m: ModuleId): Option<Node>
    decreases |infos|
  {
    if infos == [] then None
    else if NamesModule(infos[|infos| - 1], m) then Some(infos[|infos| - 1])
    else LastNaming(infos[..|infos| - 1], m)
  }

  /** An info node naming a module, with the `time` of its enclosing `Module` element. */
  datatype Mention = Mention(info: Node, time: string)

  function MentionIn(c: Node, m: ModuleId): Option<Mention>
  {
    if NodeName(c) != TagModule || AttributeValue(c, TagTime).None? then None
    else match LastNaming(ChildNodes(c), m)
      case None => None
      case Some(info) => Some(Mention(info, AttributeValue(c, TagTime).value))
  }

  /** The last mention of `m` among the packet's children, in document order. */
  function LastMention(cs: seq<Node>, m: ModuleId): Option<Mention>
    decreases |cs|
  {
    if cs == [] then None
    else if MentionIn(cs[|cs| - 1], m).Some? then MentionIn(cs[|cs| - 1], m)
    else LastMention(cs[..|cs| - 1], m)
  }

  /** The text of the last `state` child. */
  function LastStateText(cs: seq<Node>): Option<string>
    decreases |cs|
  {
    if cs == [] then None
    else if NodeName(cs[|cs| - 1]) == TagState then Some(TextContent(cs[|cs| - 1]))
    else LastStateText(cs[..|cs| - 1])
  }

  /** The status a mention reports (null for an unrecognised string); `UNKNOWN` when never mentioned. */
  function MentionedStatus(x: Option<Mention>): Option<Status>
  {
    match x
    case None => Some(Status.Unknown)
    case Some(mention) =>
      (match AttributeValue(mention.info, TagStatus)
       case Some(s) => StringToStatus(s)
       case None => None)
  }

  function MentionedTime(x: Option<Mention>): Option<Rtems.Instant>
  {
    match x
    case None => None
    case Some(mention) => Some(Rtems.ParseRtemsTimestamp(mention.time))
  }

  function SlotFor(x: Option<Mention>): Slot
  {
    Slot(MentionedStatus(x), MentionedTime(x))
  }

  function ReportedState(text: Option<string>): SatelliteState
  {
    match text
    case None => SatelliteState.Unknown
    case Some(t) => StringToSatState(t)
  }

  /** The report the satellite record carries for module `m`. */
  function RecordReport(r: Record, m: ModuleId): ModuleReport
    requires r.SatelliteRecord?
  {
    match m
    case TemperatureModule => r.temperature
    case EnergyModule => r.energy
    case PayloadModule => r.payload
    case SbandModule => r.sband
    case SolarPanelsModule => r.solarPanels
    case ThermalControlModule => r.thermalControl
  }

  /** The info loop throws exactly on a bad info node; otherwise each pair is set by the last info naming it. */
  lemma {:induction false} InfosWalkReference(infos: seq<Node>, start: Modules, time: string)
    ensures InfosWalk(infos, start, time).None? <==> exists j :: 0 <= j < |infos| && BadInfo(infos[j])
    ensures InfosWalk(infos, start, time).Some? ==>
      forall m :: InfosWalk(infos, start, time).value.Get(m) ==
        match LastNaming(infos, m)
        case None => start.Get(m)
        case Some(info) => SlotFor(Some(Mention(info, time)))
    decreases |infos|
  {
    if infos != [] {
      var init, x := infos[..|infos| - 1], infos[|infos| - 1];
      InfosWalkReference(init, start, time);
      assert forall j :: 0 <= j < |init| ==> init[j] == infos[j];
      if InfosWalk(init, start, time).Some? && !BadInfo(x) {
        var before := InfosWalk(init, start, time).value;
        forall m
          ensures InfosWalk(infos, start, time).value.Get(m) ==
            match LastNaming(infos, m)
            case None => start.Get(m)
            case Some(info) => SlotFor(Some(Mention(info, time)))
        {
          if NamesModule(x, m) {
            assert LastNaming(infos, m) == Some(x);
          } else {
            assert LastNaming(infos, m) == LastNaming(init, m);
            assert InfosWalk(infos, start, time).value.Get(m) == before.Get(m);
          }
        }
      }
    }
  }

  /** The child loop throws exactly on a malformed `Module` child. */
  lemma {:induction false} ChildrenWalkFails(cs: seq<Node>)
    ensures ChildrenWalk(cs).None? <==> exists i :: 0 <= i < |cs| && MalformedModule(cs[i])
    decreases |cs|
  {
    if cs != [] {
      var init, c := cs[..|cs| - 1], cs[|cs| - 1];
      ChildrenWalkFails(init);
      assert forall i :: 0 <= i < |init| ==> init[i] == cs[i];
      if ChildrenWalk(init).Some? {
        var w := ChildrenWalk(init).value;
        if NodeName(c) == TagModule && AttributeValue(c, TagTime).Some? {
          InfosWalkReference(ChildNodes(c), w.modules, AttributeValue(c, TagTime).value);
        }
        if MalformedModule(c) {
          assert MalformedModule(cs[|cs| - 1]);
        }
      }
    }
  }

  /** When the child loop completes, the last `state` child and each module's last mention decide the locals. */
  lemma {:induction false} ChildrenWalkValues(cs: seq<Node>)
    requires ChildrenWalk(cs).Some?
    ensures ChildrenWalk(cs).value.state == ReportedState(LastStateText(cs))
    ensures forall m :: ChildrenWalk(cs).value.modules.Get(m) == SlotFor(LastMention(cs, m))
    decreases |cs|
  {
    if cs != [] {
      var init, c := cs[..|cs| - 1], cs[|cs| - 1];
      ChildrenWalkValues(init);
      var w := ChildrenWalk(init).value;
      if NodeName(c) == TagModule && AttributeValue(c, TagTime).Some? {
        var time := AttributeValue(c, TagTime).value;
        InfosWalkReference(ChildNodes(c), w.modules, time);
        forall m
          ensures ChildrenWalk(cs).value.modules.Get(m) == SlotFor(LastMention(cs, m))
        {
          if LastNaming(ChildNodes(c), m).Some? {
            assert LastMention(cs, m) == MentionIn(c, m);
          } else {
            assert LastMention(cs, m) == LastMention(init, m);
          }
        }
      } else {
        forall m ensures LastMention(cs, m) == LastMention(init, m) {
          assert MentionIn(c, m).None?;
        }
      }
    }
  }

  /** The child loop throws exactly on a malformed `Module`; otherwise the last `state` and the last mentions decide. */
  lemma ChildrenWalkReference(cs: seq<Node>)
    ensures ChildrenWalk(cs).None? <==> exists i :: 0 <= i < |cs| && MalformedModule(cs[i])
    ensures ChildrenWalk(cs).Some? ==>
      && ChildrenWalk(cs).value.state == ReportedState(LastStateText(cs))
      && forall m :: ChildrenWalk(cs).value.modules.Get(m) == SlotFor(LastMention(cs, m))
  {
    ChildrenWalkFails(cs);
    if ChildrenWalk(cs).Some? {
      ChildrenWalkValues(cs);
    }
  }

  /**
   * The Static decoder throws, and inserts nothing, exactly when a `Module`
   * child is malformed or a module's deciding mention has an unrecognised status.
   */
  lemma StaticFailure(packet: Node)
    ensures var cs := ChildNodes(packet);
      DecodeStatic(packet).failed <==>
        || (exists i :: 0 <= i < |cs| && MalformedModule(cs[i]))
        || (exists m :: MentionedStatus(LastMention(cs, m)).None?)
  {
    var cs := ChildNodes(packet);
    ChildrenWalkReference(cs);
    if ChildrenWalk(cs).Some? {
      var ms := ChildrenWalk(cs).value.modules;
      assert DecodeStatic(packet).failed == !NoNullStatus(ms);
      assert !exists i :: 0 <= i < |cs| && MalformedModule(cs[i]);
      NoNullStatusEveryModule(ms);
      forall m ensures ms.Get(m).status == MentionedStatus(LastMention(cs, m)) {
        assert ms.Get(m) == SlotFor(LastMention(cs, m));
      }
      if !NoNullStatus(ms) {
        var m :| ms.Get(m).status.None?;
        assert MentionedStatus(LastMention(cs, m)).None?;
      } else {
        assert forall m :: MentionedStatus(LastMention(cs, m)).Some?;
      }
    }
  }

  /**
   * A successful Static decoding inserts one record whose satellite state comes
   * from the last `state` child and whose every module report comes from that
   * module's last mention: `UNKNOWN`/null if never named, else the mention's
   * status and the `time` of its enclosing `Module`.
   */
  lemma StaticRecordReference(packet: Node)
    requires !DecodeStatic(packet).failed
    ensures var cs := ChildNodes(packet); var d := DecodeStatic(packet);
      && |d.inserts| == 1 && d.inserts[0].SatelliteRecord?
      && d.inserts[0].state == ReportedState(LastStateText(cs))
      && (forall m :: LastMention(cs, m).None? ==>
            RecordReport(d.inserts[0], m) == ModuleReport(Status.Unknown, None))
      && (forall m :: LastMention(cs, m).Some? ==>
            && MentionedStatus(LastMention(cs, m)).Some?
            && RecordReport(d.inserts[0], m) ==
                 ModuleReport(MentionedStatus(LastMention(cs, m)).value,
                              Some(Rtems.ParseRtemsTimestamp(LastMention(cs, m).value.time))))
  {
    var cs := ChildNodes(packet);
    ChildrenWalkReference(cs);
    var ms := ChildrenWalk(cs).value.modules;
    NoNullStatusEveryModule(ms);
    var r := DecodeStatic(packet).inserts[0];
    forall m ensures RecordReport(r, m) == ModuleReport(ms.Get(m).status.value, ms.Get(m).time) {
      assert ms.Get(m).status.Some?;
    }
  }
}

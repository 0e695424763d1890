/** The light's public operations other than the ramps (`LightBulb`): the
    state property setters, which first stop the ramps a new value would
    fight with; `SetProperties`, which hands a set of changes to the
    client; `Toggle`, `InstantOn`, `InstantOff`, `Raise`, `Lower`; and the
    temporary change, which saves the light's look and later hands it back
    to the client. Each is a function from the light before to the light
    after. */
module LightBulbSetters {
  import opened Common
  import Platform
  import LS = LightStates
  import opened Json
  import opened LightBulbProperties
  import opened LightBulbs

  /** An assignment through one of the light's own property setters. */
  datatype Setting =
    | SetOn(on: Platform.Int16)
    | SetBrightness(n: UShort)
    | SetHue(n: UShort)
    | SetSaturation(n: UShort)
    | SetXY(x: real, y: real)
    | SetColorTemperature(n: UShort)
    | SetKnownColorTemperature(k: KnownTemperature)
    | SetAlert(alert: LS.Alert)
    | SetEffect(effect: LS.Effect)

  /** The stops a setter performs before it assigns the state. */
  function StopsFor(b: Bulb, s: Setting): (r: Bulb)
    ensures r == b.(ramps := r.ramps)
  {
    match s
    case SetOn(v) => if !Platform.ToBool(v) then AfterStopCycles(b) else b
    case SetBrightness(_) => AfterStopDims(b)
    case SetHue(_) => AfterStop(b, CycleHue)
    case SetSaturation(_) => AfterStop(b, CycleSaturation)
    case SetXY(_, _) => b
    case SetColorTemperature(_) => AfterStop(b, CycleColorTemperature)
    case SetKnownColorTemperature(_) => AfterStop(b, CycleColorTemperature)
    case SetAlert(_) => AfterStopCycles(b)
    case SetEffect(_) => AfterStopCycles(b)
  }

  /** The state setter a light setter then calls, if any: the named
      temperature setter assigns only `Warm` and `Daylight`. */
  function AssignmentFor(s: Setting): Option<LS.Assignment>
  {
    match s
    case SetOn(v) => Some(LS.AssignOn(Platform.ToBool(v)))
    case SetBrightness(n) => Some(LS.AssignBrightness(n))
    case SetHue(n) => Some(LS.AssignHue(n))
    case SetSaturation(n) => Some(LS.AssignSaturation(n))
    case SetXY(x, y) => Some(LS.AssignXY(x, y))
    case SetColorTemperature(n) => Some(LS.AssignColorTemperature(n))
    case SetKnownColorTemperature(k) => if k == Custom then None else Some(LS.AssignColorTemperature(Mireds(k)))
    case SetAlert(x) => Some(LS.AssignAlert(x))
    case SetEffect(x) => Some(LS.AssignEffect(x))
  }

  /** A light property setter: its stops, then the state setter. */
  function AfterSetting(b: Bulb, s: Setting, accepts: bool): (r: Bulb)
    ensures r.saved == b.saved && r.handed == b.handed && r.installed == b.installed &&
      r.requesting == b.requesting && r.transitionTime == b.transitionTime
    ensures AssignmentFor(s).None? ==> r.d == b.d && r.outbox == b.outbox
  {
    var b1 := StopsFor(b, s);
    match AssignmentFor(s)
    case None => b1
    case Some(x) => AfterWrite(b1, x, accepts)
  }

  /** The ramps each setter halts: every ramp for `On` = false, `Alert`
      and `Effect`; the three brightness ramps for `Brightness`; the
      property's own cycle for `Hue`, `Saturation` and the colour
      temperatures; none for `XY` or `On` = true. */
  function Halts(s: Setting): set<Axis>
  {
    match s
    case SetOn(v) => if Platform.ToBool(v) then {} else {Raise, Lower, CycleDim, CycleColorTemperature, CycleHue, CycleSaturation}
    case SetBrightness(_) => {Raise, Lower, CycleDim}
    case SetHue(_) => {CycleHue}
    case SetSaturation(_) => {CycleSaturation}
    case SetXY(_, _) => {}
    case SetColorTemperature(_) => {CycleColorTemperature}
    case SetKnownColorTemperature(_) => {CycleColorTemperature}
    case SetAlert(_) => {Raise, Lower, CycleDim, CycleColorTemperature, CycleHue, CycleSaturation}
    case SetEffect(_) => {Raise, Lower, CycleDim, CycleColorTemperature, CycleHue, CycleSaturation}
  }

  /** A setter's stops halt exactly the ramps `Halts` names (the others
      are untouched) and change nothing but the ramps. */
  lemma StopsForEffect(b: Bulb, s: Setting)
    ensures forall a | a in Halts(s) :: !StopsFor(b, s).ramps.Get(a).inProgress
    ensures forall a | a !in Halts(s) :: StopsFor(b, s).ramps.Get(a) == b.ramps.Get(a)
    ensures StopsFor(b, s).(ramps := b.ramps) == b
  {
    match s
    case SetOn(v) =>
      if !Platform.ToBool(v) {
        StopCyclesStopsAll(b);
      }
    case SetBrightness(_) => StopDimsStopsDims(b);
    case SetHue(_) => StopEffect(b, CycleHue);
    case SetSaturation(_) => StopEffect(b, CycleSaturation);
    case SetXY(_, _) =>
    case SetColorTemperature(_) => StopEffect(b, CycleColorTemperature);
    case SetKnownColorTemperature(_) => StopEffect(b, CycleColorTemperature);
    case SetAlert(_) => StopCyclesStopsAll(b);
    case SetEffect(_) => StopCyclesStopsAll(b);
  }

  /** A setter halts exactly the ramps `Halts` names, and its state
      setter sees the light as it was: the state stores the assignment
      when it would have before the stops, and a `Custom` temperature
      leaves the state alone. */
  lemma SettingEffect(b: Bulb, s: Setting, accepts: bool)
    ensures var e := AfterSetting(b, s, accepts);
      (forall a | a in Halts(s) :: !e.ramps.Get(a).inProgress) &&
      (forall a | a !in Halts(s) :: e.ramps.Get(a) == b.ramps.Get(a))
    ensures AssignmentFor(s).None? ==> AfterSetting(b, s, accepts).d == b.d
    ensures AssignmentFor(s).Some? ==>
      AfterSetting(b, s, accepts).d == LS.Written(b.d, AssignmentFor(s).value, Stores(b, accepts))
  {
    StopsForEffect(b, s);
    var b1 := StopsFor(b, s);
    if AssignmentFor(s).Some? {
      WriteKeeps(b1, AssignmentFor(s).value, accepts);
    }
  }

  /** A setter keeps the ramps sound. */
  lemma SettingKeepsSound(b: Bulb, s: Setting, accepts: bool)
    requires Sound(b.ramps)
    ensures Sound(AfterSetting(b, s, accepts).ramps)
  {
    match s
    case SetOn(v) =>
      if !Platform.ToBool(v) {
        StopCyclesKeepsSound(b);
      }
    case SetBrightness(_) => StopDimsKeepsSound(b);
    case SetHue(_) => StopKeepsSound(b, CycleHue);
    case SetSaturation(_) => StopKeepsSound(b, CycleSaturation);
    case SetXY(_, _) =>
    case SetColorTemperature(_) => StopKeepsSound(b, CycleColorTemperature);
    case SetKnownColorTemperature(_) => StopKeepsSound(b, CycleColorTemperature);
    case SetAlert(_) => StopCyclesKeepsSound(b);
    case SetEffect(_) => StopCyclesKeepsSound(b);
    var b1 := StopsFor(b, s);
    if AssignmentFor(s).Some? {
      WriteKeeps(b1, AssignmentFor(s).value, accepts);
    }
  }

  /** A stop behind a request flag, on the ramps alone. */
  function StopIf(rs: Ramps, flag: bool, a: Axis): Ramps
  {
    if flag then StopRamp(rs, a) else rs
  }

  /** The stops `SetProperties` performs: the brightness ramps when the
      request sets the brightness, and the cycle of each colour property
      it sets, in the source's order. */
  function PropertyStops(rs: Ramps, p: Properties): Ramps
  {
    var rs1 := StopIf(rs, Platform.ToBool(p.setBrightness), Raise);
    var rs2 := StopIf(rs1, Platform.ToBool(p.setBrightness), Lower);
    var rs3 := StopIf(rs2, Platform.ToBool(p.setBrightness), CycleDim);
    var rs4 := StopIf(rs3, Platform.ToBool(p.setHue), CycleHue);
    var rs5 := StopIf(rs4, Platform.ToBool(p.setSaturation), CycleSaturation);
    StopIf(rs5, Platform.ToBool(p.setColorTemperature), CycleColorTemperature)
  }

  /** `SetProperties`: the stops, then the request handed to the client. */
  function AfterSetProperties(b: Bulb, p: Properties): Bulb
  {
    b.(ramps := PropertyStops(b.ramps, p), handed := b.handed + [p])
  }

  /** The ramps a request halts: the brightness ramps when it sets the
      brightness, and the cycle of each colour property it sets; an XY or
      offset request halts nothing. */
  function PropertyHalts(p: Properties): set<Axis>
  {
    (if Platform.ToBool(p.setBrightness) then {Raise, Lower, CycleDim} else {}) +
    (if Platform.ToBool(p.setHue) then {CycleHue} else {}) +
    (if Platform.ToBool(p.setSaturation) then {CycleSaturation} else {}) +
    (if Platform.ToBool(p.setColorTemperature) then {CycleColorTemperature} else {})
  }

  /** A flagged stop halts its ramp when the flag is raised, keeps the
      ramps sound, and touches no other ramp. */
  lemma StopIfEffect(rs: Ramps, flag: bool, a: Axis)
    ensures flag ==> !StopIf(rs, flag, a).Get(a).inProgress
    ensures !flag ==> StopIf(rs, flag, a) == rs
    ensures forall x | x != a :: StopIf(rs, flag, a).Get(x) == rs.Get(x)
    ensures Sound(rs) ==> Sound(StopIf(rs, flag, a))
  {
    if flag && rs.Get(a).inProgress && Sound(rs) {
      PutSound(rs, a, Stopped(rs.Get(a), a));
    }
  }

  /** `SetProperties` halts every ramp `PropertyHalts` names ... */
  lemma SetPropertiesHalts(rs: Ramps, p: Properties)
    ensures forall a | a in PropertyHalts(p) :: !PropertyStops(rs, p).Get(a).inProgress
  {
    var rs1 := StopIf(rs, Platform.ToBool(p.setBrightness), Raise);
    var rs2 := StopIf(rs1, Platform.ToBool(p.setBrightness), Lower);
    var rs3 := StopIf(rs2, Platform.ToBool(p.setBrightness), CycleDim);
    var rs4 := StopIf(rs3, Platform.ToBool(p.setHue), CycleHue);
    var rs5 := StopIf(rs4, Platform.ToBool(p.setSaturation), CycleSaturation);
    StopIfEffect(rs, Platform.ToBool(p.setBrightness), Raise);
    StopIfEffect(rs1, Platform.ToBool(p.setBrightness), Lower);
    StopIfEffect(rs2, Platform.ToBool(p.setBrightness), CycleDim);
    StopIfEffect(rs3, Platform.ToBool(p.setHue), CycleHue);
    StopIfEffect(rs4, Platform.ToBool(p.setSaturation), CycleSaturation);
    StopIfEffect(rs5, Platform.ToBool(p.setColorTemperature), CycleColorTemperature);
  }

  /** ... and leaves every other ramp as it was. */
  lemma SetPropertiesSpares(rs: Ramps, p: Properties)
    ensures forall a | a !in PropertyHalts(p) :: PropertyStops(rs, p).Get(a) == rs.Get(a)
  {
    var rs1 := StopIf(rs, Platform.ToBool(p.setBrightness), Raise);
    var rs2 := StopIf(rs1, Platform.ToBool(p.setBrightness), Lower);
    var rs3 := StopIf(rs2, Platform.ToBool(p.setBrightness), CycleDim);
    var rs4 := StopIf(rs3, Platform.ToBool(p.setHue), CycleHue);
    var rs5 := StopIf(rs4, Platform.ToBool(p.setSaturation), CycleSaturation);
    StopIfEffect(rs, Platform.ToBool(p.setBrightness), Raise);
    StopIfEffect(rs1, Platform.ToBool(p.setBrightness), Lower);
    StopIfEffect(rs2, Platform.ToBool(p.setBrightness), CycleDim);
    StopIfEffect(rs3, Platform.ToBool(p.setHue), CycleHue);
    StopIfEffect(rs4, Platform.ToBool(p.setSaturation), CycleSaturation);
    StopIfEffect(rs5, Platform.ToBool(p.setColorTemperature), CycleColorTemperature);
  }

  /** `SetProperties` keeps the ramps sound. */
  lemma SetPropertiesKeepsSound(rs: Ramps, p: Properties)
    requires Sound(rs)
    ensures Sound(PropertyStops(rs, p))
  {
    var rs1 := StopIf(rs, Platform.ToBool(p.setBrightness), Raise);
    var rs2 := StopIf(rs1, Platform.ToBool(p.setBrightness), Lower);
    var rs3 := StopIf(rs2, Platform.ToBool(p.setBrightness), CycleDim);
    var rs4 := StopIf(rs3, Platform.ToBool(p.setHue), CycleHue);
    var rs5 := StopIf(rs4, Platform.ToBool(p.setSaturation), CycleSaturation);
    StopIfEffect(rs, Platform.ToBool(p.setBrightness), Raise);
    StopIfEffect(rs1, Platform.ToBool(p.setBrightness), Lower);
    StopIfEffect(rs2, Platform.ToBool(p.setBrightness), CycleDim);
    StopIfEffect(rs3, Platform.ToBool(p.setHue), CycleHue);
    StopIfEffect(rs4, Platform.ToBool(p.setSaturation), CycleSaturation);
    StopIfEffect(rs5, Platform.ToBool(p.setColorTemperature), CycleColorTemperature);
  }

  /** `Raise` and `Lower` hand the client a brightness offset of the
      step's size, up or down, and stop no ramp. */
  lemma RaiseLowerHandOffset(b: Bulb, change: UShort)
    ensures AfterSetProperties(b, RaiseProperties(change)) == b.(handed := b.handed + [RaiseProperties(change)])
    ensures AfterSetProperties(b, LowerProperties(change)) == b.(handed := b.handed + [LowerProperties(change)])
    ensures RaiseProperties(change).brightnessOffset == BrightnessChange(change)
    ensures LowerProperties(change).brightnessOffset == -BrightnessChange(change)
  {
  }

  /** `Toggle`: the state's `On` setter with the opposite value, without
      the light's stops. */
  function AfterToggle(b: Bulb, accepts: bool): Bulb
  {
    AfterWrite(b, LS.AssignOn(!b.d.on), accepts)
  }

  /** A toggle the state stores turns the light over, and toggling twice
      gives back whether the light is on, stored or not. */
  lemma ToggleTwice(b: Bulb, accepts: bool)
    ensures Stores(b, accepts) ==> AfterToggle(b, accepts).d.on == !b.d.on
    ensures AfterToggle(AfterToggle(b, accepts), accepts).d.on == b.d.on
  {
    WriteKeeps(b, LS.AssignOn(!b.d.on), accepts);
  }

  /** `InstantOn`: the state's brightness setter with the maximum and a
      transition time of 0, the light's own transition time kept. */
  function AfterInstantOn(b: Bulb, accepts: bool): Bulb
  {
    AfterWrite(b.(transitionTime := 0), LS.AssignBrightness(LS.MaxBrightness), accepts).(transitionTime := b.transitionTime)
  }

  /** `InstantOff`: the state's `On` setter with false and a transition
      time of 0, then a refresh, the light's own transition time kept. */
  function AfterInstantOff(b: Bulb, accepts: bool): Bulb
  {
    var e := AfterWrite(b.(transitionTime := 0), LS.AssignOn(false), accepts);
    e.(transitionTime := b.transitionTime, refreshes := e.refreshes + 1)
  }

  /** `InstantOn` asks the client, when it sends at all, for the maximum
      brightness with a transition time of 0 (turning the light on with
      it), stores that brightness when the state stores, and keeps the
      light's transition time and ramps. */
  lemma InstantOnEffect(b: Bulb, accepts: bool)
    ensures var e := AfterInstantOn(b, accepts);
      e.transitionTime == b.transitionTime && e.ramps == b.ramps &&
      (b.installed && !b.requesting ==>
        e.outbox == b.outbox + [Sent(LS.Request("bri", LS.Plain(JInt(LS.MaxBrightness)), true, None), 0)]) &&
      (!b.installed || b.requesting ==> e.outbox == b.outbox) &&
      (Stores(b, accepts) ==> e.d.brightness == LS.MaxBrightness)
  {
  }

  /** `InstantOff` asks the client, when it sends at all, to turn the light
      off with a transition time of 0, asks for one refresh, and keeps the
      light's transition time and ramps. */
  lemma InstantOffEffect(b: Bulb, accepts: bool)
    ensures var e := AfterInstantOff(b, accepts);
      e.transitionTime == b.transitionTime && e.ramps == b.ramps && e.refreshes == b.refreshes + 1 &&
      (b.installed && !b.requesting ==>
        e.outbox == b.outbox + [Sent(LS.Request("on", LS.Plain(JBool(false)), false, None), 0)]) &&
      (!b.installed || b.requesting ==> e.outbox == b.outbox) &&
      (Stores(b, accepts) ==> !e.d.on)
  {
  }

  /** The request `BeginTemporaryChange` saves, as written: the
      brightness, and the values of the current colour mode with their
      flags raised, but the brightness flag left clear. */
  function SavedAsWritten(d: LS.StateData): (r: Properties)
    ensures r.brightness == d.brightness && !Platform.ToBool(r.setBrightness)
    ensures r.transitionTimeToUse == -1 && r.colorNameOrHexRgb.None?
  {
    var p := Empty().(brightness := d.brightness);
    match d.colorMode
    case HueSaturation =>
      p.(hue := d.hue, saturation := d.saturation,
         setHue := Platform.ToPlatformBool(true), setSaturation := Platform.ToPlatformBool(true))
    case ColorTemperature =>
      p.(colorTemperature := d.colorTemperature, setColorTemperature := Platform.ToPlatformBool(true))
    case XY =>
      p.(xy := d.xy, setXY := Platform.ToPlatformBool(true))
    case _ => p
  }

  /** The request `BeginTemporaryChange` is evidently meant to save: the
      same, with the brightness flag raised so that the saved brightness
      is applied when the change ends. */
  function Saved(d: LS.StateData): (r: Properties)
    ensures Platform.ToBool(r.setBrightness)
    ensures r.(setBrightness := SavedAsWritten(d).setBrightness) == SavedAsWritten(d)
  {
    SavedAsWritten(d).(setBrightness := Platform.ToPlatformBool(true))
  }

  /** A request that, once applied, gives the light back the brightness
      and the colour of its current mode. */
  predicate Restores(p: Properties, d: LS.StateData)
  {
    Platform.ToBool(p.setBrightness) && p.brightness == d.brightness &&
    (d.colorMode == LS.HueSaturation ==>
      Platform.ToBool(p.setHue) && p.hue == d.hue && Platform.ToBool(p.setSaturation) && p.saturation == d.saturation) &&
    (d.colorMode == LS.ColorTemperature ==>
      Platform.ToBool(p.setColorTemperature) && p.colorTemperature == d.colorTemperature) &&
    (d.colorMode == LS.XY ==> Platform.ToBool(p.setXY) && p.xy == d.xy)
  }

  /** As written, the saved request never restores the brightness: its
      flag is clear, whatever the light's state. */
  lemma SavedAsWrittenLosesBrightness(d: LS.StateData)
    ensures !Platform.ToBool(SavedAsWritten(d).setBrightness)
    ensures !Restores(SavedAsWritten(d), d)
  {
  }

  /** The corrected saved request restores the light's brightness and
      colour, and asks for nothing else: no offset and no colour name. */
  lemma SavedRestores(d: LS.StateData)
    ensures Restores(Saved(d), d)
    ensures var p := Saved(d);
      !Platform.ToBool(p.setBrightnessOffset) && !Platform.ToBool(p.setHueOffset) &&
      !Platform.ToBool(p.setSaturationOffset) && !Platform.ToBool(p.setXYOffset) &&
      !Platform.ToBool(p.setColorTemperatureOffset) && p.colorNameOrHexRgb.None? &&
      p.transitionTimeToUse == -1
  {
  }

  /** `BeginTemporaryChange`: save the light's look unless a change is
      already under way. */
  function AfterBegin(b: Bulb): (r: Bulb)
    ensures b.saved.Some? ==> r == b
    ensures b.saved.None? ==> r == b.(saved := r.saved) && r.saved.Some? && Restores(r.saved.value, b.d)
  {
    if b.saved.Some? then b else b.(saved := Some(Saved(b.d)))
  }

  /** `EndTemporaryChange`: when a change is under way, forget the saved
      request and hand it to the client through `SetProperties`. */
  function AfterEnd(b: Bulb): (r: Bulb)
    ensures r.saved.None?
    ensures b.saved.None? ==> r == b
    ensures b.saved.Some? ==> r.handed == b.handed + [b.saved.value] && r.d == b.d && r.outbox == b.outbox
  {
    if b.saved.None? then b else AfterSetProperties(b.(saved := None), b.saved.value)
  }

  /** A temporary change begun and ended hands the client a request that
      restores the light as it was when the change began, and leaves no
      change under way; a second begin keeps the first saved request. */
  lemma TemporaryChangeRestores(b: Bulb)
    requires b.saved.None?
    ensures var e := AfterEnd(AfterBegin(b));
      e.saved.None? && |e.handed| == |b.handed| + 1 && Restores(e.handed[|b.handed|], b.d)
    ensures AfterBegin(AfterBegin(b)) == AfterBegin(b)
  {
    SavedRestores(b.d);
  }

  /** The ramp time setters (`RaiseTime`, `CycleHueTime`, ...). */
  function AfterSetTime(b: Bulb, a: Axis, time: UShort): Bulb
  {
    b.(ramps := b.ramps.Put(a, b.ramps.Get(a).(time := time)))
  }

  /** Setting a ramp's time keeps the ramps sound, and the ramp's next
      launch uses it: it throws exactly when the time is below 100 ms. */
  lemma SetTimeEffect(b: Bulb, a: Axis, time: UShort)
    ensures Sound(b.ramps) ==> Sound(AfterSetTime(b, a, time).ramps)
    ensures AfterSetTime(b, a, time).ramps.Get(a).time == time
    ensures Timing(AfterSetTime(b, a, time).ramps.Get(a).time, High(a)).Throws? <==> time < 100
  {
    if Sound(b.ramps) {
      PutSound(b.ramps, a, b.ramps.Get(a).(time := time));
    }
  }

  /** The `Type` setter: the type and the capabilities derived from it. */
  function AfterSetType(b: Bulb, lightType: string): Bulb
  {
    b.(lightType := lightType, capabilities := Capabilities(lightType))
  }
}

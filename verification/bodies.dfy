/** The body of a state request built from a set of changes
    (`ExecuteSetHueProperties`): an ordered list of (wire name, value)
    pairs and the colour mode the request implies, read off the light's
    current state and the requested `Properties`. */
module Bodies {
  import opened Common
  import opened Json
  import LS = LightStates
  import opened LightBulbProperties
  import Platform
  import Colors
  import Text

  /** The wire names the builder sends. */
  datatype Wire = On | Bri | BriInc | XY | XYInc | CT | CTInc | Hue | Sat | HueInc | SatInc | TransitionTime
  {
    /** The name as written in the body. */
    function Name(): string
    {
      match this
      case On => "on"
      case Bri => "bri"
      case BriInc => "bri_inc"
      case XY => "xy"
      case XYInc => "xy_inc"
      case CT => "ct"
      case CTInc => "ct_inc"
      case Hue => "hue"
      case Sat => "sat"
      case HueInc => "hue_inc"
      case SatInc => "sat_inc"
      case TransitionTime => "transitiontime"
    }
  }

  type Param = (Wire, Json)

  /** What one stage of the builder yields: pairs to add and the colour
      mode chosen so far, an unknown colour name (the request is dropped
      and an error raised), or an exception. */
  datatype Built =
    | Ready(pairs: seq<Param>, mode: Option<LS.ColorMode>)
    | InvalidColor(name: string)
    | Fault(exception: string)

  /** A raised platform flag. */
  predicate Flag(f: Platform.Int16)
  {
    Platform.ToBool(f)
  }

  /** A colour name or hex string was given (`!string.IsNullOrEmpty`). */
  predicate Named(p: Properties)
  {
    p.colorNameOrHexRgb.Some? && p.colorNameOrHexRgb.value != []
  }

  /** Hue or saturation was asked for. */
  predicate HueOrSaturation(p: Properties)
  {
    Flag(p.setHue) || Flag(p.setSaturation)
  }

  function XYJson(xy: (real, real)): Json
  {
    JArray([JReal(xy.0), JReal(xy.1)])
  }

  /** A request's mode if one was chosen, else `m`. */
  function OrElse(mode: Option<LS.ColorMode>, m: LS.ColorMode): LS.ColorMode
  {
    if mode.Some? then mode.value else m
  }

  /** Some pair of the body carries wire name `w`. */
  predicate Has(pairs: seq<Param>, w: Wire)
  {
    pairs != [] && (pairs[|pairs| - 1].0 == w || Has(pairs[..|pairs| - 1], w))
  }

  lemma {:induction false} HasAppend(a: seq<Param>, b: seq<Param>, w: Wire)
    ensures Has(a + b, w) <==> Has(a, w) || Has(b, w)
    decreases |b|
  {
    if b != [] {
      assert (a + b)[..|a + b| - 1] == a + b[..|b| - 1];
      HasAppend(a, b[..|b| - 1], w);
    } else {
      assert a + b == a;
    }
  }

  lemma HasOne(x: Param, w: Wire)
    ensures Has([x], w) <==> x.0 == w
  {
    assert [x][..0] == [];
  }

  /** A light that is off is turned on first. */
  function TurnOn(d: LS.StateData): seq<Param>
  {
    if !d.on then [(On, JBool(true))] else []
  }

  /** The brightness: an absolute value only when it differs from the
      light's (sent as the scaled percentage when that flag is raised),
      otherwise an offset when one was asked for. */
  function Brightness(d: LS.StateData, p: Properties): seq<Param>
  {
    if Flag(p.setBrightness) then
      if p.brightness != d.brightness then
        [(Bri, if Flag(p.setBrightnessPercentage) then JReal(p.brightnessPercentage as real / 100.0 * 254.0)
                 else JInt(p.brightness))]
      else []
    else if Flag(p.setBrightnessOffset) then [(BriInc, JInt(p.brightnessOffset as int))]
    else []
  }

  /** The XY group: an absolute pair (both the requested and the light's
      pair are dereferenced, so either being null raises) sent when it
      differs or the light is in another mode, or else an offset (whose
      pair is dereferenced for the debug line, so a null offset raises).
      Either chooses XY. */
  function XYPart(d: LS.StateData, p: Properties): (r: Built)
    ensures !r.InvalidColor?
  {
    if Flag(p.setXY) then
      if p.xy.None? || d.xy.None? then Fault("NullReferenceException")
      else Ready(if p.xy.value != d.xy.value || d.colorMode != LS.XY then [(XY, XYJson(p.xy.value))] else [],
                 Some(LS.XY))
    else if Flag(p.setXYOffset) then
      if p.xyOffset.None? then Fault("NullReferenceException")
      else Ready([(XYInc, XYJson(p.xyOffset.value))], Some(LS.XY))
    else Ready([], None)
  }

  /** The colour temperature group, choosing its mode only when none was
      chosen yet. */
  function CTPart(d: LS.StateData, p: Properties, mode: Option<LS.ColorMode>): (r: Built)
    ensures r.Ready?
  {
    var m := OrElse(mode, LS.ColorTemperature);
    if Flag(p.setColorTemperature) then
      Ready(if p.colorTemperature != d.colorTemperature || d.colorMode != m then [(CT, JInt(p.colorTemperature))] else [],
            Some(m))
    else if Flag(p.setColorTemperatureOffset) then
      Ready([(CTInc, JInt(p.colorTemperatureOffset as int))], Some(m))
    else Ready([], mode)
  }

  /** The hue pair of the hue and saturation group, with `m` the mode
      chosen: sent when the light is out of that mode, or when hue was
      asked for and differs. */
  function HuePair(d: LS.StateData, p: Properties, m: LS.ColorMode): seq<Param>
  {
    if d.colorMode != m || (Flag(p.setHue) && p.hue != d.hue) then [(Hue, JInt(p.hue))] else []
  }

  /** The saturation pair, likewise (sent as the scaled percentage when
      that flag is raised). */
  function SatPair(d: LS.StateData, p: Properties, m: LS.ColorMode): seq<Param>
  {
    if d.colorMode != m || (Flag(p.setSaturation) && p.saturation != d.saturation) then
      [(Sat, if Flag(p.setSaturationPercentage) then JReal(p.saturationPercentage as real / 100.0 * 254.0)
               else JInt(p.saturation))]
    else []
  }

  /** The hue and saturation group: out of the chosen mode both are sent;
      in it, each only when asked for and different. */
  function HSPart(d: LS.StateData, p: Properties, mode: Option<LS.ColorMode>): (r: Built)
    ensures r.Ready?
  {
    var m := OrElse(mode, LS.HueSaturation);
    Ready(HuePair(d, p, m) + SatPair(d, p, m), Some(m))
  }

  /** The colour group: the colour resolved from its name or hex form and
      converted to XY by `toXY`, sent when it differs from the light's
      pair or the light is out of mode `m`. */
  function ColorPart(d: LS.StateData, text: string, m: LS.ColorMode,
                     colors: map<string, Colors.Rgb>, toXY: Colors.Rgb -> (real, real)): (r: Built)
    requires text != []
    ensures r.Ready? ==> r.mode == Some(m) && |r.pairs| <= 1 && (r.pairs != [] ==> r.pairs[0].0 == XY)
  {
    match Colors.Resolve(text, colors)
    case Throws(e) => Fault(e)
    case Done(None) => InvalidColor(text)
    case Done(Some(rgb)) =>
      if d.xy.None? then Fault("NullReferenceException")
      else
        var point := toXY(rgb);
        Ready(if point != d.xy.value || d.colorMode != m then [(XY, XYJson(point))] else [], Some(m))
  }

  function HueOffsetPair(p: Properties): seq<Param>
  {
    if Flag(p.setHueOffset) then [(HueInc, JInt(p.hueOffset as int))] else []
  }

  function SatOffsetPair(p: Properties): seq<Param>
  {
    if Flag(p.setSaturationOffset) then [(SatInc, JInt(p.saturationOffset as int))] else []
  }

  /** The hue and saturation offsets, each choosing hue/saturation mode
      when no mode was chosen yet. */
  function OffsetPart(p: Properties, mode: Option<LS.ColorMode>): (r: Built)
    ensures r.Ready?
  {
    Ready(HueOffsetPair(p) + SatOffsetPair(p),
          if Flag(p.setHueOffset) || Flag(p.setSaturationOffset) then Some(OrElse(mode, LS.HueSaturation)) else mode)
  }

  /** The last group: hue and saturation, else a colour, else the
      offsets. */
  function LastPart(d: LS.StateData, p: Properties, mode: Option<LS.ColorMode>,
                    colors: map<string, Colors.Rgb>, toXY: Colors.Rgb -> (real, real)): Built
  {
    if HueOrSaturation(p) then HSPart(d, p, mode)
    else if Named(p) then ColorPart(d, p.colorNameOrHexRgb.value, OrElse(mode, LS.XY), colors, toXY)
    else OffsetPart(p, mode)
  }

  /** The whole body before any transition time, with the chosen mode, or
      the failure that ends the request. */
  function Plan(d: LS.StateData, p: Properties, colors: map<string, Colors.Rgb>, toXY: Colors.Rgb -> (real, real)): (r: Built)
    ensures r.Ready? ==> TurnOn(d) + Brightness(d, p) <= r.pairs
    ensures r.InvalidColor? ==> !HueOrSaturation(p) && Named(p) && r.name == p.colorNameOrHexRgb.value
    ensures Flag(p.setXY) && (p.xy.None? || d.xy.None?) ==> r == Fault("NullReferenceException")
  {
    var head := TurnOn(d) + Brightness(d, p);
    var xy := XYPart(d, p);
    if !xy.Ready? then xy
    else
      var ct := CTPart(d, p, xy.mode);
      var last := LastPart(d, p, ct.mode, colors, toXY);
      if !last.Ready? then last
      else Ready(head + xy.pairs + ct.pairs + last.pairs, last.mode)
  }

  /** The transition time put in the body (`AddTransitionTime`): the
      request's own when non-negative, else the light's when
      non-negative, else the client's default. */
  function ChooseTransitionTime(custom: Option<Short>, lightTime: Short, defaultTime: Short): Short
  {
    if custom.Some? && custom.value >= 0 then custom.value
    else if lightTime >= 0 then lightTime
    else defaultTime
  }

  /** The pair it adds: none for a negative time. */
  function TransitionPairs(t: Short): seq<Param>
  {
    if t >= 0 then [(TransitionTime, JInt(t))] else []
  }

  /** The first non-negative value of a list of candidates, if any. */
  function FirstNonNegative(candidates: seq<int>): Option<int>
  {
    if candidates == [] then None
    else if candidates[0] >= 0 then Some(candidates[0])
    else FirstNonNegative(candidates[1..])
  }

  /** The transition time sent is the first non-negative one of the
      request's, the light's and the default, and none is sent when all
      are negative. */
  lemma TransitionOrder(custom: Option<Short>, lightTime: Short, defaultTime: Short)
    ensures var candidates := (if custom.Some? then [custom.value as int] else []) + [lightTime as int, defaultTime as int];
      var first := FirstNonNegative(candidates);
      TransitionPairs(ChooseTransitionTime(custom, lightTime, defaultTime)) ==
        if first.Some? then [(TransitionTime, JInt(first.value))] else []
  {
    var tail := [lightTime as int, defaultTime as int];
    assert FirstNonNegative([defaultTime as int]) == if defaultTime >= 0 then Some(defaultTime as int) else None by {
      assert [defaultTime as int][1..] == [];
    }
    assert FirstNonNegative(tail) == if lightTime >= 0 then Some(lightTime as int) else FirstNonNegative([defaultTime as int]) by {
      assert tail[1..] == [defaultTime as int];
    }
    if custom.Some? {
      assert ([custom.value as int] + tail)[1..] == tail;
    } else {
      assert [] + tail == tail;
    }
  }

  /** The colour mode a request chooses: the first group asked for in the
      order XY (absolute or offset), colour temperature (absolute or
      offset), hue/saturation, a colour name (as XY), hue/saturation
      offsets. */
  function ChosenMode(p: Properties): Option<LS.ColorMode>
  {
    if Flag(p.setXY) || Flag(p.setXYOffset) then Some(LS.XY)
    else if Flag(p.setColorTemperature) || Flag(p.setColorTemperatureOffset) then Some(LS.ColorTemperature)
    else if HueOrSaturation(p) then Some(LS.HueSaturation)
    else if Named(p) then Some(LS.XY)
    else if Flag(p.setHueOffset) || Flag(p.setSaturationOffset) then Some(LS.HueSaturation)
    else None
  }

  /** A body that is built carries the mode of the first group asked
      for. */
  lemma PlanMode(d: LS.StateData, p: Properties, colors: map<string, Colors.Rgb>, toXY: Colors.Rgb -> (real, real))
    requires Plan(d, p, colors, toXY).Ready?
    ensures Plan(d, p, colors, toXY).mode == ChosenMode(p)
  {
  }

  /** The colour a colour-named request resolves to, converted, differs
      from the light's pair or the light is out of mode `m`. */
  predicate ColorSends(d: LS.StateData, text: string, m: LS.ColorMode,
                       colors: map<string, Colors.Rgb>, toXY: Colors.Rgb -> (real, real))
    requires text != []
  {
    var c := Colors.Resolve(text, colors);
    c.Done? && c.value.Some? && d.xy.Some? && (toXY(c.value.value) != d.xy.value || d.colorMode != m)
  }

  /** When each wire name is sent, stated group by group from the request
      and the light's state, with `m` the chosen mode. */
  predicate Expected(d: LS.StateData, p: Properties, colors: map<string, Colors.Rgb>, toXY: Colors.Rgb -> (real, real), w: Wire)
  {
    var m := ChosenMode(p);
    match w
    case On => !d.on
    case Bri => Flag(p.setBrightness) && p.brightness != d.brightness
    case BriInc => !Flag(p.setBrightness) && Flag(p.setBrightnessOffset)
    case XY =>
      (Flag(p.setXY) && p.xy.Some? && d.xy.Some? && (p.xy.value != d.xy.value || d.colorMode != LS.XY)) ||
      (!HueOrSaturation(p) && Named(p) && m.Some? && ColorSends(d, p.colorNameOrHexRgb.value, m.value, colors, toXY))
    case XYInc => !Flag(p.setXY) && Flag(p.setXYOffset)
    case CT =>
      Flag(p.setColorTemperature) && m.Some? && (p.colorTemperature != d.colorTemperature || d.colorMode != m.value)
    case CTInc => !Flag(p.setColorTemperature) && Flag(p.setColorTemperatureOffset)
    case Hue => HueOrSaturation(p) && m.Some? && (d.colorMode != m.value || (Flag(p.setHue) && p.hue != d.hue))
    case Sat => HueOrSaturation(p) && m.Some? && (d.colorMode != m.value || (Flag(p.setSaturation) && p.saturation != d.saturation))
    case HueInc => !HueOrSaturation(p) && !Named(p) && Flag(p.setHueOffset)
    case SatInc => !HueOrSaturation(p) && !Named(p) && Flag(p.setSaturationOffset)
    case TransitionTime => false
  }

  lemma HeadHas(d: LS.StateData, p: Properties, w: Wire)
    ensures Has(TurnOn(d) + Brightness(d, p), w) <==>
      (w == On && !d.on) ||
      (w == Bri && Flag(p.setBrightness) && p.brightness != d.brightness) ||
      (w == BriInc && !Flag(p.setBrightness) && Flag(p.setBrightnessOffset))
  {
    HasAppend(TurnOn(d), Brightness(d, p), w);
    assert !Has([], w);
    if !d.on {
      HasOne((On, JBool(true)), w);
    }
    if Brightness(d, p) != [] {
      HasOne(Brightness(d, p)[0], w);
      assert Brightness(d, p) == [Brightness(d, p)[0]];
    }
  }

  lemma XYHas(d: LS.StateData, p: Properties, w: Wire)
    requires XYPart(d, p).Ready?
    ensures Has(XYPart(d, p).pairs, w) <==>
      (w == XY && Flag(p.setXY) && (p.xy.value != d.xy.value || d.colorMode != LS.XY)) ||
      (w == XYInc && !Flag(p.setXY) && Flag(p.setXYOffset))
  {
    var pairs := XYPart(d, p).pairs;
    assert !Has([], w);
    if pairs != [] {
      HasOne(pairs[0], w);
      assert pairs == [pairs[0]];
    }
  }

  lemma CTHas(d: LS.StateData, p: Properties, mode: Option<LS.ColorMode>, w: Wire)
    ensures Has(CTPart(d, p, mode).pairs, w) <==>
      (w == CT && Flag(p.setColorTemperature) &&
       (p.colorTemperature != d.colorTemperature || d.colorMode != OrElse(mode, LS.ColorTemperature))) ||
      (w == CTInc && !Flag(p.setColorTemperature) && Flag(p.setColorTemperatureOffset))
  {
    var pairs := CTPart(d, p, mode).pairs;
    assert !Has([], w);
    if pairs != [] {
      HasOne(pairs[0], w);
      assert pairs == [pairs[0]];
    }
  }

  lemma PairHas(pairs: seq<Param>, w: Wire)
    requires |pairs| <= 1
    ensures Has(pairs, w) <==> pairs != [] && pairs[0].0 == w
  {
    if pairs != [] {
      HasOne(pairs[0], w);
      assert pairs == [pairs[0]];
    }
  }

  lemma LastHas(d: LS.StateData, p: Properties, mode: Option<LS.ColorMode>,
                colors: map<string, Colors.Rgb>, toXY: Colors.Rgb -> (real, real), w: Wire)
    requires LastPart(d, p, mode, colors, toXY).Ready?
    ensures var m := OrElse(mode, LS.HueSaturation);
      Has(LastPart(d, p, mode, colors, toXY).pairs, w) <==>
      if HueOrSaturation(p) then
        (w == Hue && (d.colorMode != m || (Flag(p.setHue) && p.hue != d.hue))) ||
        (w == Sat && (d.colorMode != m || (Flag(p.setSaturation) && p.saturation != d.saturation)))
      else if Named(p) then
        w == XY && ColorSends(d, p.colorNameOrHexRgb.value, OrElse(mode, LS.XY), colors, toXY)
      else
        (w == HueInc && Flag(p.setHueOffset)) || (w == SatInc && Flag(p.setSaturationOffset))
  {
    var m := OrElse(mode, LS.HueSaturation);
    if HueOrSaturation(p) {
      HasAppend(HuePair(d, p, m), SatPair(d, p, m), w);
      PairHas(HuePair(d, p, m), w);
      PairHas(SatPair(d, p, m), w);
    } else if Named(p) {
      PairHas(LastPart(d, p, mode, colors, toXY).pairs, w);
    } else {
      HasAppend(HueOffsetPair(p), SatOffsetPair(p), w);
      PairHas(HueOffsetPair(p), w);
      PairHas(SatOffsetPair(p), w);
    }
  }

  /** The body is the concatenation of its groups, so it carries a wire
      name exactly when one of the groups does. */
  lemma PlanHas(d: LS.StateData, p: Properties, colors: map<string, Colors.Rgb>, toXY: Colors.Rgb -> (real, real), w: Wire)
    requires Plan(d, p, colors, toXY).Ready?
    ensures var xy := XYPart(d, p);
      var ct := CTPart(d, p, xy.mode);
      var last := LastPart(d, p, ct.mode, colors, toXY);
      Has(Plan(d, p, colors, toXY).pairs, w) <==>
        Has(TurnOn(d) + Brightness(d, p), w) || Has(xy.pairs, w) || Has(ct.pairs, w) || Has(last.pairs, w)
  {
    var head := TurnOn(d) + Brightness(d, p);
    var xy := XYPart(d, p);
    var ct := CTPart(d, p, xy.mode);
    var last := LastPart(d, p, ct.mode, colors, toXY);
    HasAppend(head, xy.pairs, w);
    HasAppend(head + xy.pairs, ct.pairs, w);
    HasAppend(head + xy.pairs + ct.pairs, last.pairs, w);
  }

  /** The modes the later groups see, in terms of the mode finally
      chosen. */
  lemma PlanModes(d: LS.StateData, p: Properties, colors: map<string, Colors.Rgb>, toXY: Colors.Rgb -> (real, real))
    requires Plan(d, p, colors, toXY).Ready?
    ensures var xy := XYPart(d, p);
      var ct := CTPart(d, p, xy.mode);
      var m := ChosenMode(p);
      (Flag(p.setColorTemperature) ==> m == Some(OrElse(xy.mode, LS.ColorTemperature))) &&
      (HueOrSaturation(p) ==> m == Some(OrElse(ct.mode, LS.HueSaturation))) &&
      (!HueOrSaturation(p) && Named(p) ==> m == Some(OrElse(ct.mode, LS.XY)))
  {
  }

  /** A built body sends each wire name exactly when `Expected` says. */
  lemma PlanSends(d: LS.StateData, p: Properties, colors: map<string, Colors.Rgb>, toXY: Colors.Rgb -> (real, real), w: Wire)
    requires Plan(d, p, colors, toXY).Ready?
    ensures Has(Plan(d, p, colors, toXY).pairs, w) <==> Expected(d, p, colors, toXY, w)
  {
    var xy := XYPart(d, p);
    var ct := CTPart(d, p, xy.mode);
    PlanHas(d, p, colors, toXY, w);
    PlanModes(d, p, colors, toXY);
    HeadHas(d, p, w);
    XYHas(d, p, w);
    CTHas(d, p, xy.mode, w);
    LastHas(d, p, ct.mode, colors, toXY, w);
  }

  /** An off light is turned on by the first pair; an on light gets no
      `on` pair. */
  lemma PlanTurnsOn(d: LS.StateData, p: Properties, colors: map<string, Colors.Rgb>, toXY: Colors.Rgb -> (real, real))
    requires Plan(d, p, colors, toXY).Ready?
    ensures var pairs := Plan(d, p, colors, toXY).pairs;
      (!d.on ==> pairs != [] && pairs[0] == (On, JBool(true))) && (d.on ==> !Has(pairs, On))
  {
    PlanSends(d, p, colors, toXY, On);
  }

  /** Within each group the absolute form excludes the offset form:
      `bri`/`bri_inc`, `ct`/`ct_inc`, hue and saturation against their
      offsets, and an XY offset is only sent without an absolute XY. */
  lemma PlanExclusive(d: LS.StateData, p: Properties, colors: map<string, Colors.Rgb>, toXY: Colors.Rgb -> (real, real))
    requires Plan(d, p, colors, toXY).Ready?
    ensures var pairs := Plan(d, p, colors, toXY).pairs;
      !(Has(pairs, Bri) && Has(pairs, BriInc)) &&
      !(Has(pairs, CT) && Has(pairs, CTInc)) &&
      !((Has(pairs, Hue) || Has(pairs, Sat)) && (Has(pairs, HueInc) || Has(pairs, SatInc))) &&
      (Has(pairs, XYInc) ==> !Flag(p.setXY))
  {
    PlanSends(d, p, colors, toXY, Bri);
    PlanSends(d, p, colors, toXY, BriInc);
    PlanSends(d, p, colors, toXY, CT);
    PlanSends(d, p, colors, toXY, CTInc);
    PlanSends(d, p, colors, toXY, Hue);
    PlanSends(d, p, colors, toXY, Sat);
    PlanSends(d, p, colors, toXY, HueInc);
    PlanSends(d, p, colors, toXY, SatInc);
    PlanSends(d, p, colors, toXY, XYInc);
  }

  /** The exception to that exclusivity: a colour name resolves to an XY
      pair of its own, so with an XY offset both `xy` and `xy_inc` are
      sent. */
  lemma ColorWithXYOffset(d: LS.StateData, p: Properties, colors: map<string, Colors.Rgb>, toXY: Colors.Rgb -> (real, real))
    requires Plan(d, p, colors, toXY).Ready?
    requires !Flag(p.setXY) && Flag(p.setXYOffset) && !HueOrSaturation(p) && Named(p)
    requires ColorSends(d, p.colorNameOrHexRgb.value, LS.XY, colors, toXY)
    ensures Has(Plan(d, p, colors, toXY).pairs, XY) && Has(Plan(d, p, colors, toXY).pairs, XYInc)
  {
    PlanSends(d, p, colors, toXY, XY);
    PlanSends(d, p, colors, toXY, XYInc);
  }

  /** Out of the chosen mode, asking for hue or saturation sends both. */
  lemma PlanPairsHueSaturation(d: LS.StateData, p: Properties, colors: map<string, Colors.Rgb>, toXY: Colors.Rgb -> (real, real))
    requires Plan(d, p, colors, toXY).Ready?
    requires HueOrSaturation(p) && Some(d.colorMode) != ChosenMode(p)
    ensures Has(Plan(d, p, colors, toXY).pairs, Hue) && Has(Plan(d, p, colors, toXY).pairs, Sat)
  {
    PlanSends(d, p, colors, toXY, Hue);
    PlanSends(d, p, colors, toXY, Sat);
  }

  /** A name with no leading `#` that the colour table does not hold. */
  predicate UnknownColor(text: string, colors: map<string, Colors.Rgb>)
    requires text != []
  {
    text[0] != '#' && Text.Lower(text) !in colors
  }

  /** The colour text raises: a hexadecimal form that does not parse, or a
      resolved colour compared with a null XY pair. */
  predicate ColorFault(d: LS.StateData, text: string, colors: map<string, Colors.Rgb>)
    requires text != []
  {
    var c := Colors.Resolve(text, colors);
    c.Throws? || (c.value.Some? && d.xy.None?)
  }

  /** The builder's failures: a null XY pair dereferenced for an absolute
      XY raises, and so does a null XY offset; so does a hex colour that does not parse or a colour
      compared with a null XY pair; an unknown colour name (no leading
      `#`) drops the request. */
  lemma PlanFailures(d: LS.StateData, p: Properties, colors: map<string, Colors.Rgb>, toXY: Colors.Rgb -> (real, real))
    ensures var r := Plan(d, p, colors, toXY);
      var xyFails := if Flag(p.setXY) then p.xy.None? || d.xy.None? else Flag(p.setXYOffset) && p.xyOffset.None?;
      var colorPath := !xyFails && !HueOrSaturation(p) && Named(p);
      (xyFails ==> r == Fault("NullReferenceException")) &&
      (r.InvalidColor? <==> colorPath && UnknownColor(p.colorNameOrHexRgb.value, colors)) &&
      (r.InvalidColor? ==> r.name == p.colorNameOrHexRgb.value) &&
      (r.Fault? <==> xyFails || (colorPath && ColorFault(d, p.colorNameOrHexRgb.value, colors)))
  {
  }

  /** A stage's pairs appended to the body built so far. */
  function Extend(body: seq<Param>, b: Built): Built
  {
    if b.Ready? then Ready(body + b.pairs, b.mode) else b
  }

  /** `ExecuteSetHueProperties`' builder as the client runs it: the pairs
      are appended group by group and the mode is chosen on the way; an
      exception or an unknown colour name ends the build. */
  method BuildBody(d: LS.StateData, p: Properties, colors: map<string, Colors.Rgb>, toXY: Colors.Rgb -> (real, real))
    returns (r: Built)
    ensures r == Plan(d, p, colors, toXY)
  {
    var body := AppendHead(d, p);
    r := AppendXY(d, p, body);
    if !r.Ready? {
      return;
    }
    r := AppendCT(d, p, r.pairs, r.mode);
    r := AppendLast(d, p, r.pairs, r.mode, colors, toXY);
  }

  /** The turn-on pair and the brightness group. */
  method AppendHead(d: LS.StateData, p: Properties) returns (body: seq<Param>)
    ensures body == TurnOn(d) + Brightness(d, p)
  {
    body := [];
    if !d.on {
      body := body + [(On, JBool(true))];
    }
    if Flag(p.setBrightness) {
      if p.brightness != d.brightness {
        if Flag(p.setBrightnessPercentage) {
          body := body + [(Bri, JReal(p.brightnessPercentage as real / 100.0 * 254.0))];
        } else {
          body := body + [(Bri, JInt(p.brightness))];
        }
      }
    } else if Flag(p.setBrightnessOffset) {
      body := body + [(BriInc, JInt(p.brightnessOffset as int))];
    }
  }

  /** The XY group appended to `body`. */
  method AppendXY(d: LS.StateData, p: Properties, body: seq<Param>) returns (r: Built)
    ensures r == Extend(body, XYPart(d, p))
  {
    var pairs := body;
    if Flag(p.setXY) {
      var mode := LS.XY;
      if p.xy.None? || d.xy.None? {
        return Fault("NullReferenceException");
      }
      if p.xy.value != d.xy.value || d.colorMode != mode {
        pairs := pairs + [(XY, XYJson(p.xy.value))];
      }
      r := Ready(pairs, Some(mode));
    } else if Flag(p.setXYOffset) {
      if p.xyOffset.None? {
        return Fault("NullReferenceException");
      }
      pairs := pairs + [(XYInc, XYJson(p.xyOffset.value))];
      r := Ready(pairs, Some(LS.XY));
    } else {
      r := Ready(pairs, None);
    }
  }

  /** The colour temperature group appended to `body`, `mode` being the
      mode chosen so far. */
  method AppendCT(d: LS.StateData, p: Properties, body: seq<Param>, mode: Option<LS.ColorMode>) returns (r: Built)
    ensures r == Extend(body, CTPart(d, p, mode))
  {
    var pairs, m := body, mode;
    if Flag(p.setColorTemperature) {
      if m.None? {
        m := Some(LS.ColorTemperature);
      }
      if p.colorTemperature != d.colorTemperature || d.colorMode != m.value {
        pairs := pairs + [(CT, JInt(p.colorTemperature))];
      }
    } else if Flag(p.setColorTemperatureOffset) {
      if m.None? {
        m := Some(LS.ColorTemperature);
      }
      pairs := pairs + [(CTInc, JInt(p.colorTemperatureOffset as int))];
    }
    r := Ready(pairs, m);
  }

  /** The last group appended to `body`: hue and saturation, else the
      colour, else the offsets. */
  method AppendLast(d: LS.StateData, p: Properties, body: seq<Param>, mode: Option<LS.ColorMode>,
                    colors: map<string, Colors.Rgb>, toXY: Colors.Rgb -> (real, real)) returns (r: Built)
    ensures r == Extend(body, LastPart(d, p, mode, colors, toXY))
  {
    if Flag(p.setHue) || Flag(p.setSaturation) {
      r := AppendHS(d, p, body, mode);
    } else if p.colorNameOrHexRgb.Some? && p.colorNameOrHexRgb.value != [] {
      r := AppendColor(d, p.colorNameOrHexRgb.value, body, OrElse(mode, LS.XY), colors, toXY);
    } else {
      var pairs, m := body, mode;
      if Flag(p.setHueOffset) {
        if m.None? {
          m := Some(LS.HueSaturation);
        }
        pairs := pairs + [(HueInc, JInt(p.hueOffset as int))];
      }
      if Flag(p.setSaturationOffset) {
        if m.None? {
          m := Some(LS.HueSaturation);
        }
        pairs := pairs + [(SatInc, JInt(p.saturationOffset as int))];
      }
      r := Ready(pairs, m);
    }
  }

  /** The hue and saturation group appended to `body`. */
  method AppendHS(d: LS.StateData, p: Properties, body: seq<Param>, mode: Option<LS.ColorMode>) returns (r: Built)
    ensures r == Extend(body, HSPart(d, p, mode))
  {
    var pairs, m := body, mode;
    if m.None? {
      m := Some(LS.HueSaturation);
    }
    if d.colorMode != m.value || (Flag(p.setHue) && p.hue != d.hue) {
      pairs := pairs + [(Hue, JInt(p.hue))];
    }
    if d.colorMode != m.value || (Flag(p.setSaturation) && p.saturation != d.saturation) {
      if Flag(p.setSaturationPercentage) {
        pairs := pairs + [(Sat, JReal(p.saturationPercentage as real / 100.0 * 254.0))];
      } else {
        pairs := pairs + [(Sat, JInt(p.saturation))];
      }
    }
    r := Ready(pairs, m);
  }

  /** The colour group appended to `body`, `m` being the mode chosen. */
  method AppendColor(d: LS.StateData, text: string, body: seq<Param>, m: LS.ColorMode,
                     colors: map<string, Colors.Rgb>, toXY: Colors.Rgb -> (real, real)) returns (r: Built)
    requires text != []
    ensures r == Extend(body, ColorPart(d, text, m, colors, toXY))
  {
    var color := Colors.Resolve(text, colors);
    if color.Throws? {
      return Fault(color.exception);
    }
    if color.value.None? {
      return InvalidColor(text);
    }
    if d.xy.None? {
      return Fault("NullReferenceException");
    }
    var point := toXY(color.value.value);
    var pairs := body;
    if point != d.xy.value || d.colorMode != m {
      pairs := pairs + [(XY, XYJson(point))];
    }
    r := Ready(pairs, Some(m));
  }
}

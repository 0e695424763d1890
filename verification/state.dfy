/** A light's state (`State`): its properties, the public setters that ask
    the bridge before storing, the internal setters that keep the colour
    mode and its wire key in step, and the wire-name table through which
    values echoed by the bridge are stored. */
module LightStates {
  import opened Common
  import opened Json
  import Text

  /** The bridge's limits (`BridgeClient`'s constants). */
  const MinBrightness := 1
  const MaxBrightness := 254
  const MinHue := 0
  const MaxHue := 65535
  const MinSaturation := 1
  const MaxSaturation := 254
  const MinColorTemperature := 153
  const MaxColorTemperature := 500

  datatype ColorMode = NotSupported | None | HueSaturation | ColorTemperature | XY
  datatype Alert = None | Select | LSelect
  datatype Effect = None | ColorLoop

  /** The wire key the `ColorMode` setter stores for a mode (`null` for
      `NotSupported`). */
  function KeyOf(m: ColorMode): Option<string>
  {
    match m
    case NotSupported => Option.None
    case None => Some("")
    case HueSaturation => Some("hs")
    case ColorTemperature => Some("ct")
    case XY => Some("xy")
  }

  /** The mode the `ColorModeKey` setter derives from a wire key, compared
      after lower-casing. */
  function ModeOf(key: Option<string>): ColorMode
  {
    if key.None? then NotSupported
    else
      var k := Text.Lower(key.value);
      if k == "hs" then HueSaturation
      else if k == "ct" then ColorTemperature
      else if k == "xy" then XY
      else ColorMode.None
  }

  /** Every mode reads back from its own key. */
  lemma ModeOfKeyOf(m: ColorMode)
    ensures ModeOf(KeyOf(m)) == m
  {
    match m
    case NotSupported =>
    case None => assert Text.Lower("") == "";
    case HueSaturation => assert Text.Lower("hs") == "hs";
    case ColorTemperature => assert Text.Lower("ct") == "ct";
    case XY => assert Text.Lower("xy") == "xy";
  }

  /** A key is the one its mode would store exactly when it is null, empty
      or one of the three lower-case mode keys; any other key (an
      upper-case "HS", an unknown "hs2") reads as a mode whose own key
      differs from it. */
  lemma KeyOfModeOf(key: Option<string>)
    ensures KeyOf(ModeOf(key)) == key <==>
      key.None? || key.value in {"", "hs", "ct", "xy"}
  {
    if key.Some? && key.value in {"", "hs", "ct", "xy"} {
      ModeOfKeyOf(ModeOf(key));
      assert Text.Lower("") == "" && Text.Lower("hs") == "hs" && Text.Lower("ct") == "ct" && Text.Lower("xy") == "xy";
    }
  }

  /** The stored state of a light. `xy` is `None` while the pair is null. */
  datatype StateData = StateData(
    on: bool,
    brightness: UShort,
    hue: UShort,
    saturation: UShort,
    xy: Option<(real, real)>,
    colorTemperature: UShort,
    alert: Alert,
    effect: Effect,
    colorModeKey: Option<string>,
    colorMode: ColorMode,
    isOnline: bool)

  /** The colour mode agrees with its wire key. */
  predicate Consistent(d: StateData)
  {
    ModeOf(d.colorModeKey) == d.colorMode
  }

  /** The state once the `ColorMode` setter has run with `m`, including the
      key it stores and the mode the key setter re-derives from it. */
  function ModeChain(d: StateData, m: ColorMode): StateData
  {
    if m == d.colorMode then d else d.(colorMode := m, colorModeKey := KeyOf(m))
  }

  /** The notifications the `ColorMode` setter raises. */
  function ModeNotices(d: StateData, m: ColorMode): seq<string>
  {
    if m == d.colorMode then []
    else ["ColorMode"] + (if KeyOf(m) == d.colorModeKey then [] else ["ColorModeKey"])
  }

  /** The state once the `ColorModeKey` setter has run with `k`: the mode
      follows the key; the key is normalised to the mode's own key only
      when the mode changed. */
  function KeyChain(d: StateData, k: Option<string>): StateData
  {
    if k == d.colorModeKey then d
    else
      var m := ModeOf(k);
      d.(colorModeKey := if m == d.colorMode then k else KeyOf(m), colorMode := m)
  }

  /** The notifications the `ColorModeKey` setter raises. */
  function KeyNotices(d: StateData, k: Option<string>): seq<string>
  {
    if k == d.colorModeKey then []
    else
      ["ColorModeKey"] +
      (if ModeOf(k) == d.colorMode then []
       else ["ColorMode"] + (if KeyOf(ModeOf(k)) == k then [] else ["ColorModeKey"]))
  }

  /** Setting the mode leaves the mode as asked and the key agreeing with
      it, and changes nothing else. */
  lemma ModeChainSets(d: StateData, m: ColorMode)
    requires m != d.colorMode || Consistent(d)
    ensures ModeChain(d, m).colorMode == m
    ensures Consistent(ModeChain(d, m))
    ensures ModeChain(d, m).(colorMode := d.colorMode, colorModeKey := d.colorModeKey) == d
  {
    ModeOfKeyOf(m);
  }

  /** Setting a new key leaves the mode that key reads as, keeps the key
      itself unless that changed the mode, and changes nothing else; the
      state stays consistent. */
  lemma KeyChainSets(d: StateData, k: Option<string>)
    requires k != d.colorModeKey || Consistent(d)
    ensures Consistent(KeyChain(d, k))
    ensures k != d.colorModeKey ==> KeyChain(d, k).colorMode == ModeOf(k)
    ensures ModeOf(k) == d.colorMode ==> KeyChain(d, k).colorModeKey == k
    ensures KeyChain(d, k).(colorMode := d.colorMode, colorModeKey := d.colorModeKey) == d
  {
    ModeOfKeyOf(ModeOf(k));
  }

  /** A value handed to the request action: a plain JSON value, or an enum
      member, which the request body writes as its lower-cased name. */
  datatype Arg = Plain(value: Json) | Member(name: string)

  /** What a public setter asks the request action to send: the wire name
      and value, whether the light must be turned on first, and the colour
      mode the change implies. */
  datatype Request = Request(key: string, arg: Arg, turnOn: bool, mode: Option<ColorMode>)

  /** An assignment through one of the state's setters, with the value as
      handed to the setter. */
  datatype Assignment =
    | AssignOn(b: bool)
    | AssignBrightness(n: UShort)
    | AssignHue(n: UShort)
    | AssignSaturation(n: UShort)
    | AssignXY(x: real, y: real)
    | AssignColorTemperature(n: UShort)
    | AssignAlert(alert: Alert)
    | AssignEffect(effect: Effect)
    | AssignColorModeKey(key: Option<string>)
    | AssignIsOnline(b: bool)

  /** The setters that go through the request action (the others are
      internal setters that store directly). */
  predicate Public(a: Assignment)
  {
    !a.AssignColorModeKey? && !a.AssignIsOnline?
  }

  function AlertName(a: Alert): string
  {
    match a
    case None => "None"
    case Select => "Select"
    case LSelect => "LSelect"
  }

  function EffectName(e: Effect): string
  {
    match e
    case None => "None"
    case ColorLoop => "ColorLoop"
  }

  const AlertNames: seq<(string, Alert)> := [("None", Alert.None), ("Select", Select), ("LSelect", LSelect)]
  const EffectNames: seq<(string, Effect)> := [("None", Effect.None), ("ColorLoop", ColorLoop)]

  /** The brightness a setter stores: at most the maximum. */
  function ClampBrightness(n: UShort): (r: UShort)
    ensures r <= MaxBrightness && (n <= MaxBrightness ==> r == n)
  {
    Min(n, MaxBrightness)
  }

  function ClampSaturation(n: UShort): (r: UShort)
    ensures r <= MaxSaturation && (n <= MaxSaturation ==> r == n)
  {
    Min(n, MaxSaturation)
  }

  function ClampColorTemperature(n: UShort): (r: UShort)
    ensures MinColorTemperature <= r <= MaxColorTemperature
    ensures MinColorTemperature <= n <= MaxColorTemperature ==> r == n
  {
    Max(MinColorTemperature, Min(n, MaxColorTemperature))
  }

  /** The request a public setter hands to the action: the value it would
      store, under the property's wire name, with the turn-on flag and
      colour mode of that property. */
  function RequestFor(a: Assignment): Option<Request>
  {
    match a
    case AssignOn(b) => Some(Request("on", Plain(JBool(b)), false, Option.None))
    case AssignBrightness(n) => Some(Request("bri", Plain(JInt(ClampBrightness(n))), true, Option.None))
    case AssignHue(n) => Some(Request("hue", Plain(JInt(n)), true, Some(HueSaturation)))
    case AssignSaturation(n) => Some(Request("sat", Plain(JInt(ClampSaturation(n))), true, Some(HueSaturation)))
    case AssignXY(x, y) => Some(Request("xy", Plain(JArray([JReal(x), JReal(y)])), true, Some(XY)))
    case AssignColorTemperature(n) =>
      Some(Request("ct", Plain(JInt(ClampColorTemperature(n))), true, Some(ColorMode.ColorTemperature)))
    case AssignAlert(x) => Some(Request("alert", Member(AlertName(x)), false, Option.None))
    case AssignEffect(x) => Some(Request("effect", Member(EffectName(x)), false, Option.None))
    case AssignColorModeKey(_) => Option.None
    case AssignIsOnline(_) => Option.None
  }

  /** The state once an assignment is stored. */
  function Store(d: StateData, a: Assignment): StateData
  {
    match a
    case AssignOn(b) => d.(on := b)
    case AssignBrightness(n) => d.(brightness := ClampBrightness(n))
    case AssignHue(n) => d.(hue := n)
    case AssignSaturation(n) => d.(saturation := ClampSaturation(n))
    case AssignXY(x, y) => d.(xy := Some((x, y)))
    case AssignColorTemperature(n) => d.(colorTemperature := ClampColorTemperature(n))
    case AssignAlert(x) => d.(alert := x)
    case AssignEffect(x) => d.(effect := x)
    case AssignColorModeKey(k) => KeyChain(d, k)
    case AssignIsOnline(b) => d.(isOnline := b)
  }

  /** The name of the property an assignment sets. */
  function PropertyName(a: Assignment): string
  {
    match a
    case AssignOn(_) => "On"
    case AssignBrightness(_) => "Brightness"
    case AssignHue(_) => "Hue"
    case AssignSaturation(_) => "Saturation"
    case AssignXY(_, _) => "XY"
    case AssignColorTemperature(_) => "ColorTemperature"
    case AssignAlert(_) => "Alert"
    case AssignEffect(_) => "Effect"
    case AssignColorModeKey(_) => "ColorModeKey"
    case AssignIsOnline(_) => "IsOnline"
  }

  /** The notifications an assignment raises: a public setter always
      notifies, stored or not; `IsOnline` only on a change; the key setter
      as its chain does. */
  function Notices(d: StateData, a: Assignment): seq<string>
  {
    if Public(a) then [PropertyName(a)]
    else if a.AssignIsOnline? then (if a.b != d.isOnline then ["IsOnline"] else [])
    else KeyNotices(d, a.key)
  }

  /** Whether the request action lets a public setter store its value: no
      action installed, a request already in progress (the action then
      answers true without sending), or the bridge accepted the change. */
  predicate Accepts(actionInstalled: bool, inProgress: bool, bridgeAccepts: bool)
  {
    !actionInstalled || inProgress || bridgeAccepts
  }

  /** The state after a setter ran, given whether the action let it
      store: internal setters always store. */
  function Written(d: StateData, a: Assignment, stores: bool): StateData
  {
    if !Public(a) || stores then Store(d, a) else d
  }

  /** The request actually sent: only an installed action that is not
      already inside a request sends one. */
  function Sent(actionInstalled: bool, inProgress: bool, a: Assignment): Option<Request>
  {
    if Public(a) && actionInstalled && !inProgress then RequestFor(a) else Option.None
  }

  /** The wire-name table (`GetHuePropertySetters`): the assignment a
      bridge value under a wire name makes, `None` for a name the table
      lacks, or the exception its conversion raises. */
  function Decode(name: string, value: Json): Option<Outcome<Assignment>>
  {
    if name == "on" then Some(Convert(ToBool(value), (b: bool) => AssignOn(b)))
    else if name == "bri" then Some(Convert(ToUShort(value), (n: UShort) => AssignBrightness(n)))
    else if name == "hue" then Some(Convert(ToUShort(value), (n: UShort) => AssignHue(n)))
    else if name == "sat" then Some(Convert(ToUShort(value), (n: UShort) => AssignSaturation(n)))
    else if name == "xy" then Some(Convert(ToPair(value), (p: (real, real)) => AssignXY(p.0, p.1)))
    else if name == "ct" then Some(Convert(ToUShort(value), (n: UShort) => AssignColorTemperature(n)))
    else if name == "alert" then Some(Convert(ParseEnum(value, AlertNames), (x: Alert) => AssignAlert(x)))
    else if name == "effect" then Some(Convert(ParseEnum(value, EffectNames), (x: Effect) => AssignEffect(x)))
    else if name == "colormode" then Some(Convert(ToText(value), (k: Option<string>) => AssignColorModeKey(k)))
    else if name == "reachable" then Some(Convert(ToBool(value), (b: bool) => AssignIsOnline(b)))
    else Option.None
  }

  /** Apply a setter to a converted value, passing a conversion failure
      on. */
  function Convert<T>(v: Outcome<T>, setter: T -> Assignment): Outcome<Assignment>
  {
    match v
    case Done(x) => Done(setter(x))
    case Throws(e) => Throws(e)
  }

  /** How the request body writes a value handed to the action. */
  function WireForm(arg: Arg): Json
  {
    match arg
    case Plain(v) => v
    case Member(name) => JText(Text.Lower(name))
  }

  /** Storing the echo of a public setter's request gives the state the
      setter itself stores. */
  predicate EchoStores(d: StateData, a: Assignment)
    requires Public(a)
  {
    var r := RequestFor(a).value;
    var echo := Decode(r.key, WireForm(r.arg));
    echo.Some? && echo.value.Done? && Store(d, echo.value.value) == Store(d, a)
  }

  /** The wire-name table inverts the requests: when the bridge echoes a
      request's value back under its wire name, storing the echo gives the
      state the setter itself stores. */
  lemma EchoRoundTrip(d: StateData, a: Assignment)
    requires Public(a)
    ensures EchoStores(d, a)
  {
    if a.AssignAlert? || a.AssignEffect? {
      EchoMember(d, a);
    } else {
      EchoPlain(d, a);
    }
  }

  /** The echo of a numeric, boolean or XY request. */
  lemma EchoPlain(d: StateData, a: Assignment)
    requires Public(a) && !a.AssignAlert? && !a.AssignEffect?
    ensures EchoStores(d, a)
  {
    match a
    case AssignOn(b) =>
      assert Decode("on", JBool(b)) == Some(Done(a));
    case AssignBrightness(n) =>
      assert Decode("bri", JInt(ClampBrightness(n))) == Some(Done(AssignBrightness(ClampBrightness(n))));
    case AssignHue(n) =>
      assert Decode("hue", JInt(n)) == Some(Done(a));
    case AssignSaturation(n) =>
      assert Decode("sat", JInt(ClampSaturation(n))) == Some(Done(AssignSaturation(ClampSaturation(n))));
    case AssignXY(x, y) =>
      assert Decode("xy", JArray([JReal(x), JReal(y)])) == Some(Done(a));
    case AssignColorTemperature(n) =>
      var c := ClampColorTemperature(n);
      assert Decode("ct", JInt(c)) == Some(Done(AssignColorTemperature(c)));
  }

  /** The echo of an alert or effect request, sent as the member's
      lower-cased name. */
  lemma EchoMember(d: StateData, a: Assignment)
    requires a.AssignAlert? || a.AssignEffect?
    ensures EchoStores(d, a)
  {
    match a
    case AssignAlert(x) =>
      AlertEcho(x);
      assert Decode("alert", JText(Text.Lower(AlertName(x)))) == Some(Done(a));
    case AssignEffect(x) =>
      EffectEcho(x);
      assert Decode("effect", JText(Text.Lower(EffectName(x)))) == Some(Done(a));
  }

  /** An alert's lower-cased name parses back to the alert. */
  lemma AlertEcho(x: Alert)
    ensures ParseEnum(JText(Text.Lower(AlertName(x))), AlertNames) == Done(x)
  {
    assert Text.Lower("None") == "none" && Text.Lower("none") == "none";
    assert Text.Lower("Select") == "select" && Text.Lower("select") == "select";
    assert Text.Lower("LSelect") == "lselect" && Text.Lower("lselect") == "lselect";
  }

  /** An effect's lower-cased name parses back to the effect. */
  lemma EffectEcho(x: Effect)
    ensures ParseEnum(JText(Text.Lower(EffectName(x))), EffectNames) == Done(x)
  {
    assert Text.Lower("None") == "none" && Text.Lower("none") == "none";
    assert Text.Lower("ColorLoop") == "colorloop" && Text.Lower("colorloop") == "colorloop";
  }

  /** Storing an assignment keeps every value within the bridge's limits
      when it was within them before, and keeps the colour mode agreeing
      with its key. */
  lemma StoreKeepsLimits(d: StateData, a: Assignment)
    requires d.brightness <= MaxBrightness && d.saturation <= MaxSaturation
    requires MinColorTemperature <= d.colorTemperature <= MaxColorTemperature
    requires Consistent(d)
    ensures var e := Store(d, a);
      e.brightness <= MaxBrightness && e.saturation <= MaxSaturation &&
      MinColorTemperature <= e.colorTemperature <= MaxColorTemperature &&
      Consistent(e)
  {
    if a.AssignColorModeKey? {
      KeyChainSets(d, a.key);
    }
  }

  /** A light's state object. `actionInstalled` says whether the client
      has installed its request action; `requestInProgress` is the flag
      the action sets while its own request is being sent. */
  class LightState {
    var data: StateData
    var notified: seq<string>
    var actionInstalled: bool
    var requestInProgress: bool

    constructor (d: StateData)
      ensures data == d && notified == [] && !actionInstalled && !requestInProgress
    {
      data := d;
      notified := [];
      actionInstalled := false;
      requestInProgress := false;
    }

    /** The `ColorMode` setter: store the mode and, when it changed, the
        key the mode stores. */
    method SetColorMode(m: ColorMode)
      modifies this
      ensures data == ModeChain(old(data), m)
      ensures notified == old(notified) + ModeNotices(old(data), m)
      ensures actionInstalled == old(actionInstalled) && requestInProgress == old(requestInProgress)
      decreases if m == data.colorMode then 0 else 3
    {
      if m != data.colorMode {
        data := data.(colorMode := m);
        notified := notified + ["ColorMode"];
        ModeOfKeyOf(m);
        SetColorModeKey(KeyOf(m));
      }
    }

    /** The `ColorModeKey` setter: store the key and, when it changed, the
        mode it reads as. */
    method SetColorModeKey(k: Option<string>)
      modifies this
      ensures data == KeyChain(old(data), k)
      ensures notified == old(notified) + KeyNotices(old(data), k)
      ensures actionInstalled == old(actionInstalled) && requestInProgress == old(requestInProgress)
      decreases if k == data.colorModeKey then 0 else if ModeOf(k) == data.colorMode then 1 else 4
    {
      if k != data.colorModeKey {
        data := data.(colorModeKey := k);
        notified := notified + ["ColorModeKey"];
        SetColorMode(ModeOf(k));
      }
    }

    /** Assign a property through its setter. A public setter asks the
        request action and stores the (clamped) value only if the action
        lets it, then notifies in any case; `bridgeAccepts` is the outcome
        the bridge would report for a request actually sent. */
    method Set(a: Assignment, bridgeAccepts: bool) returns (sent: Option<Request>)
      modifies this
      ensures sent == Sent(old(actionInstalled), old(requestInProgress), a)
      ensures data == Written(old(data), a, Accepts(old(actionInstalled), old(requestInProgress), bridgeAccepts))
      ensures notified == old(notified) + Notices(old(data), a)
      ensures actionInstalled == old(actionInstalled) && requestInProgress == old(requestInProgress)
    {
      sent := Option.None;
      if a.AssignColorModeKey? {
        SetColorModeKey(a.key);
      } else if a.AssignIsOnline? {
        if a.b != data.isOnline {
          data := data.(isOnline := a.b);
          notified := notified + ["IsOnline"];
        }
      } else {
        var store := true;
        if actionInstalled {
          if !requestInProgress {
            sent := RequestFor(a);
            store := bridgeAccepts;
          }
        }
        if store {
          data := Store(data, a);
        }
        notified := notified + [PropertyName(a)];
      }
    }

    /** `UpdateHueProperty`: store a value the bridge reported under its
        wire name; an unknown name is ignored, a value that does not
        convert raises the conversion's exception and stores nothing. */
    method UpdateHueProperty(name: string, value: Json, bridgeAccepts: bool) returns (failure: Option<string>, sent: Option<Request>)
      modifies this
      ensures Decode(name, value).None? ==>
        failure.None? && sent.None? && data == old(data) && notified == old(notified)
      ensures Decode(name, value).Some? && Decode(name, value).value.Throws? ==>
        failure == Some(Decode(name, value).value.exception) && sent.None? &&
        data == old(data) && notified == old(notified)
      ensures Decode(name, value).Some? && Decode(name, value).value.Done? ==>
        var a := Decode(name, value).value.value;
        failure.None? &&
        sent == Sent(old(actionInstalled), old(requestInProgress), a) &&
        data == Written(old(data), a, Accepts(old(actionInstalled), old(requestInProgress), bridgeAccepts)) &&
        notified == old(notified) + Notices(old(data), a)
      ensures actionInstalled == old(actionInstalled) && requestInProgress == old(requestInProgress)
    {
      failure, sent := Option.None, Option.None;
      match Decode(name, value)
      case None =>
      case Some(Throws(e)) =>
        failure := Some(e);
      case Some(Done(a)) =>
        sent := Set(a, bridgeAccepts);
    }
  }
}

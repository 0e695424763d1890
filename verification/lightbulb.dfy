/** A light (`LightBulb`): its capabilities, the property setters that
    stop the ramps a new value would fight with, the commands that hand a
    set of changes to the client, and the six ramps (raise, lower, and
    the dim, colour-temperature, hue and saturation cycles) that step a
    property of the light's state on every timer tick until it reaches a
    bound. */
module LightBulbs {
  import opened Common
  import Platform
  import Text
  import LS = LightStates
  import opened LightBulbProperties

  /** What a light can do (`LightBulbCapabilities`). */
  datatype Capability = OnOff | Dimmable | ColorTemperature | Color

  /** The light types the client recognises, lower-cased. */
  const KnownTypes: set<string> := {"dimmable light", "color temperature light", "color light", "extended color light"}

  /** The capabilities the `Type` setter derives from the light's type,
      compared after lower-casing; an unknown type has none. */
  function Capabilities(lightType: string): (caps: set<Capability>)
    ensures caps == {} <==> Text.Lower(lightType) !in KnownTypes
    ensures caps != {} ==> OnOff in caps
    ensures Color in caps ==> Dimmable in caps
  {
    var t := Text.Lower(lightType);
    if t == "dimmable light" then {OnOff, Dimmable}
    else if t == "color temperature light" then {OnOff, ColorTemperature}
    else if t == "color light" then {OnOff, Dimmable, Color}
    else if t == "extended color light" then {OnOff, Dimmable, ColorTemperature, Color}
    else {}
  }

  /** Types that differ only in letter case have the same capabilities. */
  lemma CapabilitiesIgnoreCase(a: string, b: string)
    requires Text.EqualsIgnoreCase(a, b)
    ensures Capabilities(a) == Capabilities(b)
  {
  }

  /** The named colour temperatures (`LightBulbColorTemperature`). */
  datatype KnownTemperature = Custom | Warm | Daylight

  /** The mired value of a named temperature. */
  function Mireds(k: KnownTemperature): UShort
  {
    match k
    case Custom => 0
    case Warm => 300
    case Daylight => 153
  }

  /** The `KnownColorTemperature` getter: the name of the light's colour
      temperature, `Custom` for any value without one. */
  function KnownColorTemperature(ct: UShort): (k: KnownTemperature)
    ensures k != Custom <==> ct == Mireds(Warm) || ct == Mireds(Daylight)
    ensures k != Custom ==> Mireds(k) == ct
  {
    if ct == Mireds(Warm) then Warm
    else if ct == Mireds(Daylight) then Daylight
    else Custom
  }

  /** The size of a `Raise` or `Lower` step: the requested change, at
      least 254 / 100 truncated (2) and at most the largest `short`. */
  function BrightnessChange(change: UShort): (offset: Short)
    ensures 2 <= offset <= 0x7FFF
    ensures 2 <= change <= 0x7FFF ==> offset == change
  {
    Max(LS.MaxBrightness / 100, Min(change, 0x7FFF))
  }

  /** The request `Raise` hands to the client: a positive brightness
      offset and nothing else. */
  function RaiseProperties(change: UShort): Properties
  {
    Empty().(setBrightnessOffset := Platform.ToPlatformBool(true), brightnessOffset := BrightnessChange(change))
  }

  /** The request `Lower` hands to the client: the same offset, negated. */
  function LowerProperties(change: UShort): Properties
  {
    Empty().(setBrightnessOffset := Platform.ToPlatformBool(true), brightnessOffset := -BrightnessChange(change))
  }

  /** Raise and Lower ask for the same magnitude in opposite directions,
      and ask for nothing but a brightness offset. */
  lemma RaiseLowerOpposite(change: UShort)
    ensures RaiseProperties(change).brightnessOffset == -LowerProperties(change).brightnessOffset > 0
    ensures RaiseProperties(change).(brightnessOffset := 0) == LowerProperties(change).(brightnessOffset := 0)
    ensures Platform.ToBool(RaiseProperties(change).setBrightnessOffset)
    ensures RaiseProperties(change).(setBrightnessOffset := 0).NothingSet()
  {
  }

  /** The six ramps. */
  datatype Axis = Raise | Lower | CycleDim | CycleColorTemperature | CycleHue | CycleSaturation

  /** The ramps that step the brightness. */
  predicate Dims(a: Axis)
  {
    a == Raise || a == Lower || a == CycleDim
  }

  /** The least value of the property an axis steps. */
  function Low(a: Axis): UShort
  {
    match a
    case CycleColorTemperature => LS.MinColorTemperature
    case CycleHue => LS.MinHue
    case CycleSaturation => LS.MinSaturation
    case _ => LS.MinBrightness
  }

  /** The greatest value of the property an axis steps. */
  function High(a: Axis): (h: UShort)
    ensures Low(a) < h
  {
    match a
    case CycleColorTemperature => LS.MaxColorTemperature
    case CycleHue => LS.MaxHue
    case CycleSaturation => LS.MaxSaturation
    case _ => LS.MaxBrightness
  }

  /** The time a full sweep is meant to take, in milliseconds, before the
      caller changes it. */
  function DefaultTime(a: Axis): UShort
  {
    if a == CycleHue then 10000 else 2000
  }

  /** The state property an axis steps. */
  function Value(a: Axis, d: LS.StateData): UShort
  {
    match a
    case CycleColorTemperature => d.colorTemperature
    case CycleHue => d.hue
    case CycleSaturation => d.saturation
    case _ => d.brightness
  }

  /** The state setter an axis steps the property through. */
  function Assign(a: Axis, v: UShort): LS.Assignment
  {
    match a
    case CycleColorTemperature => LS.AssignColorTemperature(v)
    case CycleHue => LS.AssignHue(v)
    case CycleSaturation => LS.AssignSaturation(v)
    case _ => LS.AssignBrightness(v)
  }

  /** A value within an axis's bounds, once stored, reads back unchanged:
      the state setter's clamps do not touch it. */
  lemma StoreValue(d: LS.StateData, a: Axis, v: UShort)
    requires Low(a) <= v <= High(a)
    ensures Value(a, LS.Store(d, Assign(a, v))) == v
    ensures LS.Public(Assign(a, v))
  {
  }

  /** One ramp's bookkeeping: the sweep time, whether its timer exists,
      the stored direction (`Some(true)` is up; the raise and lower ramps
      keep none), the in-progress flag, and the interval and step the
      running timer was started with. */
  datatype Ramp = Ramp(time: UShort, running: bool, direction: Option<bool>, inProgress: bool, interval: nat, offset: nat)

  /** A ramp that has never run. */
  function Idle(a: Axis): Ramp
  {
    Ramp(DefaultTime(a), false, None, false, 0, 0)
  }

  /** The six ramps of a light. */
  datatype Ramps = Ramps(raise: Ramp, lower: Ramp, cycleDim: Ramp, cycleColorTemperature: Ramp, cycleHue: Ramp, cycleSaturation: Ramp)
  {
    function Get(a: Axis): Ramp
    {
      match a
      case Raise => raise
      case Lower => lower
      case CycleDim => cycleDim
      case CycleColorTemperature => cycleColorTemperature
      case CycleHue => cycleHue
      case CycleSaturation => cycleSaturation
    }

    function Put(a: Axis, r: Ramp): (rs: Ramps)
      ensures rs.Get(a) == r
      ensures forall b | b != a :: rs.Get(b) == Get(b)
    {
      match a
      case Raise => this.(raise := r)
      case Lower => this.(lower := r)
      case CycleDim => this.(cycleDim := r)
      case CycleColorTemperature => this.(cycleColorTemperature := r)
      case CycleHue => this.(cycleHue := r)
      case CycleSaturation => this.(cycleSaturation := r)
    }
  }

  /** The ramps of a light that has never run one. */
  function AllIdle(): Ramps
  {
    Ramps(Idle(Raise), Idle(Lower), Idle(CycleDim), Idle(CycleColorTemperature), Idle(CycleHue), Idle(CycleSaturation))
  }

  /** A ramp's timer exists exactly while it is in progress. */
  predicate Settled(r: Ramp)
  {
    r.running == r.inProgress
  }

  /** The invariant of a light's ramps: every timer agrees with its flag,
      the raise and lower ramps store no direction, and at most one of
      the three brightness ramps is in progress. */
  predicate Sound(rs: Ramps)
  {
    (forall a :: Settled(rs.Get(a))) &&
    rs.Get(Raise).direction.None? && rs.Get(Lower).direction.None? &&
    (forall a, x | Dims(a) && Dims(x) && a != x :: !(rs.Get(a).inProgress && rs.Get(x).inProgress))
  }

  /** A light that has never run a ramp is sound. */
  lemma IdleSound()
    ensures Sound(AllIdle())
  {
    assert forall a :: AllIdle().Get(a) == Idle(a);
  }

  /** Replacing one ramp keeps the ramps sound when the new ramp is
      settled, stores no direction if it is raise or lower, and, when it
      is a brightness ramp in progress, no other brightness ramp is. */
  lemma PutSound(rs: Ramps, a: Axis, r: Ramp)
    requires Sound(rs) && Settled(r)
    requires a == Raise || a == Lower ==> r.direction.None?
    requires Dims(a) && r.inProgress ==> forall x | Dims(x) && x != a :: !rs.Get(x).inProgress
    ensures Sound(rs.Put(a, r))
  {
    var e := rs.Put(a, r);
    forall x ensures Settled(e.Get(x)) {
      if x != a {
        assert e.Get(x) == rs.Get(x);
      }
    }
  }

  /** `StopCycleProperty`'s effect on a ramp: no timer, a stored direction
      reversed (the raise and lower ramps pass a throwaway direction, so
      theirs stays as it is), not in progress. */
  function Stopped(r: Ramp, a: Axis): (s: Ramp)
    ensures !s.running && !s.inProgress && s.time == r.time
  {
    var direction := if a == Raise || a == Lower || r.direction.None? then r.direction else Some(!r.direction.value);
    r.(running := false, direction := direction, inProgress := false)
  }

  /** The direction setter's effect on the ramps: a cycle stores the
      direction; raise and lower store nothing. */
  function Directed(rs: Ramps, a: Axis, up: bool): Ramps
  {
    if a == Raise || a == Lower then rs else rs.Put(a, rs.Get(a).(direction := Some(up)))
  }

  /** Storing a direction changes no timer, no flag and no step. */
  lemma DirectedEffect(rs: Ramps, a: Axis, up: bool)
    ensures forall x :: Directed(rs, a, up).Get(x).(direction := rs.Get(x).direction) == rs.Get(x)
  {
  }

  /** Storing a direction keeps the ramps sound. */
  lemma DirectedSound(rs: Ramps, a: Axis, up: bool)
    requires Sound(rs)
    ensures Sound(Directed(rs, a, up))
  {
    if a != Raise && a != Lower {
      PutSound(rs, a, rs.Get(a).(direction := Some(up)));
    }
  }

  /** The direction a ramp's timer reads: up for raise, down for lower,
      the stored one for a cycle. */
  function Direction(rs: Ramps, a: Axis): Option<bool>
  {
    if a == Raise then Some(true)
    else if a == Lower then Some(false)
    else rs.Get(a).direction
  }

  /** The direction `StartCycleProperty` hands to the direction setter,
      if it calls it: up below the minimum or while the light is off,
      otherwise down at or above the maximum, otherwise up when no
      direction is stored; with a direction stored and the value inside
      its bounds the setter is not called. */
  function Orientation(v: int, on: bool, low: int, high: int, stored: Option<bool>): Option<bool>
  {
    if v < low || !on then Some(true)
    else if v >= high then Some(false)
    else if stored.None? then Some(true)
    else None
  }

  /** The direction a cycle runs in once started: always defined, and
      down exactly when the light is on, the value is not below the
      minimum, and either the value is at or above the maximum or the
      stored direction is down. */
  lemma OrientationRule(v: int, on: bool, low: int, high: int, stored: Option<bool>)
    requires low < high
    ensures var o := Orientation(v, on, low, high, stored);
      var run := if o.Some? then o else stored;
      run.Some? &&
      (run == Some(false) <==> on && low <= v && (v >= high || stored == Some(false)))
  {
  }

  /** Integer division by a positive divisor does not grow a natural
      number, and the quotient times the divisor does not exceed it. */
  lemma DivBounds(n: nat, k: nat)
    requires k >= 1
    ensures n / k <= n && k * (n / k) <= n
    ensures n < k ==> n / k == 0
    ensures k <= n ==> n / k >= 1
  {
  }

  /** The repeat interval and step of a ramp over `0..high` that is to
      take `time` milliseconds: the interval is `time / high` but at least
      100 ms (no more than ten commands a second), the step is `high`
      divided by the number of intervals in `time`, at least 1. When
      `time` is below 100 the number of intervals is zero and the
      division throws. */
  function Timing(time: UShort, high: UShort): (r: Outcome<(nat, nat)>)
    requires high > 0
    ensures r.Throws? <==> time < 100
    ensures r.Throws? ==> r.exception == "DivideByZeroException"
    ensures r.Done? ==> 100 <= r.value.0 && 1 <= r.value.1 <= high
    ensures r.Done? ==> r.value.0 * (time / r.value.0) <= time
  {
    DivBounds(time, high);
    var interval := Max(100, time / high);
    DivBounds(time, interval);
    var ticks := time / interval;
    if ticks == 0 then Throws("DivideByZeroException")
    else
      DivBounds(high, ticks);
      Done((interval, Max(1, high / ticks)))
  }

  /** What one tick does to a running ramp's value `v`: a step towards
      the bound in the direction of travel, by the ramp's step but never
      past the bound, or, once the value is at or beyond the bound, a
      turn (reverse and stop). */
  datatype Move = Step(to: int) | Turn

  function Next(v: int, up: bool, offset: nat, low: int, high: int): (m: Move)
    ensures m.Turn? <==> (if up then v >= high else v <= low)
    ensures m.Step? && up ==> v <= m.to <= high
    ensures m.Step? && !up ==> low <= m.to <= v
    ensures m.Step? && offset >= 1 ==> m.to != v
  {
    if up then (if v >= high then Turn else Step(v + Min(offset, high - v)))
    else (if v <= low then Turn else Step(v - Min(offset, v - low)))
  }

  /** The value a ramp holds after `n` ticks when every step is stored:
      it stays put once the ramp turns. */
  function Run(v: int, up: bool, offset: nat, low: int, high: int, n: nat): int
    decreases n
  {
    if n == 0 then v
    else match Next(v, up, offset, low, high)
      case Turn => v
      case Step(x) => Run(x, up, offset, low, high, n - 1)
  }

  /** The number of steps of size `offset` from `v` up to `high`, the last
      one shortened to land on it. */
  function StepsUp(v: int, offset: nat, high: int): nat
    requires offset >= 1
    decreases high - v
  {
    if v >= high then 0 else 1 + StepsUp(v + Min(offset, high - v), offset, high)
  }

  /** The number of steps of size `offset` from `v` down to `low`. */
  function StepsDown(v: int, offset: nat, low: int): nat
    requires offset >= 1
    decreases v - low
  {
    if v <= low then 0 else 1 + StepsDown(v - Min(offset, v - low), offset, low)
  }

  /** Every step moves at least one unit, so a ramp needs no more steps
      than the distance to its bound, and one step when the step covers
      the whole distance. */
  lemma {:induction false} StepsUpBound(v: int, offset: nat, high: int)
    requires offset >= 1 && v <= high
    ensures StepsUp(v, offset, high) <= high - v
    ensures v < high <= v + offset ==> StepsUp(v, offset, high) == 1
    decreases high - v
  {
    if v < high {
      StepsUpBound(v + Min(offset, high - v), offset, high);
    }
  }

  lemma {:induction false} StepsDownBound(v: int, offset: nat, low: int)
    requires offset >= 1 && low <= v
    ensures StepsDown(v, offset, low) <= v - low
    ensures v - offset <= low < v ==> StepsDown(v, offset, low) == 1
    decreases v - low
  {
    if low < v {
      StepsDownBound(v - Min(offset, v - low), offset, low);
    }
  }

  /** A ramp going up reaches its maximum after `StepsUp` ticks, never
      leaving its bounds on the way, and turns on the next tick. */
  lemma {:induction false} RunUpReaches(v: int, offset: nat, low: int, high: int)
    requires offset >= 1 && low <= v <= high
    ensures Run(v, true, offset, low, high, StepsUp(v, offset, high)) == high
    ensures forall n: nat :: low <= Run(v, true, offset, low, high, n) <= high
    ensures Next(high, true, offset, low, high) == Turn
    decreases high - v
  {
    if v < high {
      var x := v + Min(offset, high - v);
      RunUpReaches(x, offset, low, high);
      forall n: nat ensures low <= Run(v, true, offset, low, high, n) <= high {
        if n > 0 {
          assert Run(v, true, offset, low, high, n) == Run(x, true, offset, low, high, n - 1);
        }
      }
    } else {
      forall n: nat ensures Run(v, true, offset, low, high, n) == v {
      }
    }
  }

  /** A ramp going down reaches its minimum after `StepsDown` ticks,
      never leaving its bounds on the way, and turns on the next tick. */
  lemma {:induction false} RunDownReaches(v: int, offset: nat, low: int, high: int)
    requires offset >= 1 && low <= v <= high
    ensures Run(v, false, offset, low, high, StepsDown(v, offset, low)) == low
    ensures forall n: nat :: low <= Run(v, false, offset, low, high, n) <= high
    ensures Next(low, false, offset, low, high) == Turn
    decreases v - low
  {
    if v > low {
      var x := v - Min(offset, v - low);
      RunDownReaches(x, offset, low, high);
      forall n: nat ensures low <= Run(v, false, offset, low, high, n) <= high {
        if n > 0 {
          assert Run(v, false, offset, low, high, n) == Run(x, false, offset, low, high, n - 1);
        }
      }
    } else {
      forall n: nat ensures Run(v, false, offset, low, high, n) == v {
      }
    }
  }

  /** A request the light's state handed to the client, with the light's
      transition time at that moment (which the client puts in the
      body). */
  datatype Sent = Sent(request: LS.Request, transitionTime: Short)

  /** Everything a light holds, and what it has handed to the client: the
      state's data, notifications and request flags, the requests the
      state sent, the ramps, the transition time, the properties saved by
      a temporary change, the property sets handed to the client, the
      number of refreshes asked for, and the type with its
      capabilities. */
  datatype Bulb = Bulb(
    d: LS.StateData,
    notified: seq<string>,
    installed: bool,
    requesting: bool,
    outbox: seq<Sent>,
    ramps: Ramps,
    transitionTime: Short,
    saved: Option<Properties>,
    handed: seq<Properties>,
    refreshes: nat,
    lightType: string,
    capabilities: set<Capability>)

  /** Whether a state setter called now stores its value. */
  predicate Stores(b: Bulb, accepts: bool)
  {
    LS.Accepts(b.installed, b.requesting, accepts)
  }

  /** After a state setter ran: the state as `LightState.Set` leaves it,
      and the request it sent, if any, in the outbox. */
  function AfterWrite(b: Bulb, a: LS.Assignment, accepts: bool): Bulb
  {
    var sent := LS.Sent(b.installed, b.requesting, a);
    b.(d := LS.Written(b.d, a, Stores(b, accepts)),
       notified := b.notified + LS.Notices(b.d, a),
       outbox := b.outbox + (if sent.Some? then [Sent(sent.value, b.transitionTime)] else []))
  }

  /** A state setter leaves the ramps, the request flags and everything
      the light itself holds as they were. */
  lemma WriteKeeps(b: Bulb, a: LS.Assignment, accepts: bool)
    ensures var e := AfterWrite(b, a, accepts);
      e.ramps == b.ramps && e.installed == b.installed && e.requesting == b.requesting &&
      e.transitionTime == b.transitionTime && e.saved == b.saved && e.handed == b.handed &&
      e.refreshes == b.refreshes && e.lightType == b.lightType && e.capabilities == b.capabilities
  {
  }

  /** Writing an in-bounds value through the axis's setter: the property
      reads the value back if the state stored it and is unchanged
      otherwise. */
  lemma WriteStep(b: Bulb, a: Axis, v: UShort, accepts: bool)
    requires Low(a) <= v <= High(a)
    ensures Value(a, AfterWrite(b, Assign(a, v), accepts).d) == (if Stores(b, accepts) then v else Value(a, b.d))
  {
    StoreValue(b.d, a, v);
  }

  /** `StopCycleProperty` behind the axis's in-progress guard, on the
      ramps alone. */
  function StopRamp(rs: Ramps, a: Axis): Ramps
  {
    if !rs.Get(a).inProgress then rs else rs.Put(a, Stopped(rs.Get(a), a))
  }

  /** Stopping one ramp of a light. */
  function AfterStop(b: Bulb, a: Axis): (r: Bulb)
    ensures r == b.(ramps := r.ramps)
  {
    b.(ramps := StopRamp(b.ramps, a))
  }

  /** Stopping the three brightness ramps, in the source's order. */
  function AfterStopDims(b: Bulb): Bulb
  {
    AfterStop(AfterStop(AfterStop(b, Raise), Lower), CycleDim)
  }

  /** `StopCycles`: stop every ramp. */
  function AfterStopCycles(b: Bulb): Bulb
  {
    AfterStop(AfterStop(AfterStop(AfterStopDims(b), CycleHue), CycleSaturation), CycleColorTemperature)
  }

  /** Stopping a ramp clears its timer and flag, reverses a stored
      direction of a running cycle, keeps the ramps sound, and touches
      nothing else. */
  lemma StopEffect(b: Bulb, a: Axis)
    ensures var r := AfterStop(b, a).ramps.Get(a);
      !r.inProgress && (!r.running || r == b.ramps.Get(a)) && r.time == b.ramps.Get(a).time
    ensures forall x | x != a :: AfterStop(b, a).ramps.Get(x) == b.ramps.Get(x)
    ensures AfterStop(b, a).(ramps := b.ramps) == b
  {
  }

  /** Stopping a ramp keeps the ramps sound. */
  lemma StopKeepsSound(b: Bulb, a: Axis)
    requires Sound(b.ramps)
    ensures Sound(AfterStop(b, a).ramps)
  {
    if b.ramps.Get(a).inProgress {
      PutSound(b.ramps, a, Stopped(b.ramps.Get(a), a));
    }
  }

  /** Stopping the brightness ramps leaves none of them in progress, keeps
      the ramps sound, and touches nothing but their bookkeeping. */
  lemma StopDimsStopsDims(b: Bulb)
    ensures forall a | Dims(a) :: !AfterStopDims(b).ramps.Get(a).inProgress
    ensures forall a | !Dims(a) :: AfterStopDims(b).ramps.Get(a) == b.ramps.Get(a)
    ensures AfterStopDims(b).(ramps := b.ramps) == b
  {
    var b1 := AfterStop(b, Raise);
    var b2 := AfterStop(b1, Lower);
    StopEffect(b, Raise);
    StopEffect(b1, Lower);
    StopEffect(b2, CycleDim);
  }

  /** `StopCycles` leaves no ramp in progress, keeps the ramps sound, and
      touches nothing but their bookkeeping. */
  lemma StopCyclesStopsAll(b: Bulb)
    ensures forall a :: !AfterStopCycles(b).ramps.Get(a).inProgress
    ensures AfterStopCycles(b).(ramps := b.ramps) == b
  {
    var b1 := AfterStop(b, Raise);
    var b2 := AfterStop(b1, Lower);
    var b3 := AfterStop(b2, CycleDim);
    var b4 := AfterStop(b3, CycleHue);
    var b5 := AfterStop(b4, CycleSaturation);
    var b6 := AfterStop(b5, CycleColorTemperature);
    StopEffect(b, Raise);
    StopEffect(b1, Lower);
    StopEffect(b2, CycleDim);
    StopEffect(b3, CycleHue);
    StopEffect(b4, CycleSaturation);
    StopEffect(b5, CycleColorTemperature);
    forall a ensures !b6.ramps.Get(a).inProgress {
    }
  }

  /** `StopCycles` keeps the ramps sound. */
  lemma StopCyclesKeepsSound(b: Bulb)
    requires Sound(b.ramps)
    ensures Sound(AfterStopCycles(b).ramps)
  {
    var b1 := AfterStop(b, Raise);
    var b2 := AfterStop(b1, Lower);
    var b3 := AfterStop(b2, CycleDim);
    var b4 := AfterStop(b3, CycleHue);
    var b5 := AfterStop(b4, CycleSaturation);
    StopKeepsSound(b, Raise);
    StopKeepsSound(b1, Lower);
    StopKeepsSound(b2, CycleDim);
    StopKeepsSound(b3, CycleHue);
    StopKeepsSound(b4, CycleSaturation);
    StopKeepsSound(b5, CycleColorTemperature);
  }

  /** Stopping the brightness ramps keeps the ramps sound. */
  lemma StopDimsKeepsSound(b: Bulb)
    requires Sound(b.ramps)
    ensures Sound(AfterStopDims(b).ramps)
  {
    var b1 := AfterStop(b, Raise);
    var b2 := AfterStop(b1, Lower);
    StopKeepsSound(b, Raise);
    StopKeepsSound(b1, Lower);
    StopKeepsSound(b2, CycleDim);
  }

  /** The direction setter a ramp was started with: raise ignores it,
      lower turns the light off once its brightness is at the minimum,
      and a cycle stores the direction. */
  function AfterSetDirection(b: Bulb, a: Axis, up: bool, accepts: bool): Bulb
  {
    if a == Lower && b.d.brightness <= LS.MinBrightness then AfterWrite(b, LS.AssignOn(false), accepts)
    else b.(ramps := Directed(b.ramps, a, up))
  }

  /** The direction setter changes the ramps as `Directed` says, and the
      state only for the lower ramp at the minimum brightness, which
      turns the light off when the state stores it. */
  lemma SetDirectionEffect(b: Bulb, a: Axis, up: bool, accepts: bool)
    ensures AfterSetDirection(b, a, up, accepts).ramps == Directed(b.ramps, a, up)
    ensures a != Lower || b.d.brightness > LS.MinBrightness ==> AfterSetDirection(b, a, up, accepts).d == b.d
    ensures a == Lower && b.d.brightness <= LS.MinBrightness && Stores(b, accepts) ==>
      !AfterSetDirection(b, a, up, accepts).d.on
    ensures Stores(AfterSetDirection(b, a, up, accepts), accepts) == Stores(b, accepts)
    ensures Value(a, AfterSetDirection(b, a, up, accepts).d) == Value(a, b.d)
  {
    if a == Lower && b.d.brightness <= LS.MinBrightness {
      WriteKeeps(b, LS.AssignOn(false), accepts);
    }
  }

  /** The ramp's timer dropped. */
  function Disposed(rs: Ramps, a: Axis): Ramps
  {
    rs.Put(a, rs.Get(a).(running := false))
  }

  /** The first half of `StartCycleProperty`: the timer dropped, then the
      start-time choice of direction handed to the direction setter when
      `Orientation` calls it. */
  function Oriented(b: Bulb, a: Axis, accepts: bool): Bulb
  {
    var o := Orientation(Value(a, b.d), b.d.on, Low(a), High(a), Direction(b.ramps, a));
    var b1 := b.(ramps := Disposed(b.ramps, a));
    if o.Some? then AfterSetDirection(b1, a, o.value, accepts) else b1
  }

  /** The first half of a launch changes the ramps by dropping the timer
      and storing the direction `Orientation` chooses, if any. */
  lemma OrientEffect(b: Bulb, a: Axis, accepts: bool)
    ensures var o := Orientation(Value(a, b.d), b.d.on, Low(a), High(a), Direction(b.ramps, a));
      var rs1 := Disposed(b.ramps, a);
      Oriented(b, a, accepts).ramps == (if o.Some? then Directed(rs1, a, o.value) else rs1)
  {
    var o := Orientation(Value(a, b.d), b.d.on, Low(a), High(a), Direction(b.ramps, a));
    if o.Some? {
      SetDirectionEffect(b.(ramps := Disposed(b.ramps, a)), a, o.value, accepts);
    }
  }

  /** The second half of `StartCycleProperty`: the flag set and the timer
      started with the timing of the ramp's time, or the ramps unchanged
      and the exception the timing throws. */
  function Armed(rs: Ramps, a: Axis): (Ramps, Option<string>)
  {
    var r := rs.Get(a);
    match Timing(r.time, High(a))
    case Throws(e) => (rs, Some(e))
    case Done(t) => (rs.Put(a, r.(running := true, inProgress := true, interval := t.0, offset := t.1)), None)
  }

  /** What a launch does to the ramps, given the direction (if any) the
      orientation hands to the direction setter. */
  function Launched(rs: Ramps, a: Axis, o: Option<bool>): (Ramps, Option<string>)
  {
    var rs1 := Disposed(rs, a);
    Armed(if o.Some? then Directed(rs1, a, o.value) else rs1, a)
  }

  /** `StartCycleProperty`: both halves. The state changes only through
      the direction setter. The second component is the exception
      thrown. */
  function AfterLaunch(b: Bulb, a: Axis, accepts: bool): (r: (Bulb, Option<string>))
    ensures r.0.saved == b.saved && r.0.handed == b.handed && r.0.installed == b.installed &&
      r.0.requesting == b.requesting
    ensures r.1.None? ==> r.0.ramps.Get(a).running && r.0.ramps.Get(a).inProgress
  {
    var b1 := Oriented(b, a, accepts);
    var armed := Armed(b1.ramps, a);
    (b1.(ramps := armed.0), armed.1)
  }

  /** A launch's ramps are those `Launched` gives for the direction
      `Orientation` chooses. */
  lemma LaunchRamps(b: Bulb, a: Axis, accepts: bool)
    ensures var o := Orientation(Value(a, b.d), b.d.on, Low(a), High(a), Direction(b.ramps, a));
      AfterLaunch(b, a, accepts).0.ramps == Launched(b.ramps, a, o).0 &&
      AfterLaunch(b, a, accepts).1 == Launched(b.ramps, a, o).1
  {
    OrientEffect(b, a, accepts);
  }

  /** The ramps a start stops first: each brightness ramp stops the other
      two. */
  function AfterStopRivals(b: Bulb, a: Axis): (r: Bulb)
    ensures r == b.(ramps := r.ramps)
  {
    match a
    case Raise => AfterStop(AfterStop(b, Lower), CycleDim)
    case Lower => AfterStop(AfterStop(b, Raise), CycleDim)
    case CycleDim => AfterStop(AfterStop(b, Raise), Lower)
    case _ => b
  }

  /** Before a brightness ramp starts on a light that is off, raise (and a
      dim cycle not stored as going up) first sets the brightness to the
      minimum. */
  function AfterPrepare(b: Bulb, a: Axis, accepts: bool): (r: Bulb)
    ensures r == b.(d := r.d, notified := r.notified, outbox := r.outbox)
  {
    if (a == Raise && !b.d.on) || (a == CycleDim && !b.d.on && b.ramps.Get(CycleDim).direction != Some(true))
    then AfterWrite(b, LS.AssignBrightness(LS.MinBrightness), accepts)
    else b
  }

  /** `StartRaise`, `StartLower`, `StartCycleDim`, ...: nothing if the
      ramp is in progress; otherwise stop its rivals, prepare, launch. */
  function AfterStart(b: Bulb, a: Axis, accepts: bool): (r: (Bulb, Option<string>))
    ensures b.ramps.Get(a).inProgress ==> r == (b, None)
    ensures r.0.saved == b.saved && r.0.handed == b.handed && r.0.installed == b.installed &&
      r.0.requesting == b.requesting
  {
    if b.ramps.Get(a).inProgress then (b, None)
    else AfterLaunch(AfterPrepare(AfterStopRivals(b, a), a, accepts), a, accepts)
  }

  /** Launching a ramp that is not in progress: when the timing throws
      the ramp is left without a timer and not in progress; otherwise it
      runs, in progress, with the timing's interval and step. No other
      ramp changes. */
  lemma LaunchedEffect(rs: Ramps, a: Axis, o: Option<bool>)
    requires !rs.Get(a).inProgress
    ensures var (e, failure) := Launched(rs, a, o);
      var t := Timing(rs.Get(a).time, High(a));
      var r := e.Get(a);
      (t.Throws? ==> failure == Some(t.exception) && !r.running && !r.inProgress) &&
      (t.Done? ==> failure.None? && r.running && r.inProgress && r.interval == t.value.0 && r.offset == t.value.1) &&
      (forall x | x != a :: e.Get(x) == rs.Get(x))
  {
    var rs1 := Disposed(rs, a);
    if o.Some? {
      DirectedEffect(rs1, a, o.value);
    }
  }

  /** A launch keeps the ramps sound when no other brightness ramp is in
      progress. */
  lemma LaunchedSound(rs: Ramps, a: Axis, o: Option<bool>)
    requires !rs.Get(a).inProgress && Sound(rs)
    requires Dims(a) ==> forall x | Dims(x) && x != a :: !rs.Get(x).inProgress
    ensures Sound(Launched(rs, a, o).0)
  {
    var rs1 := Disposed(rs, a);
    PutSound(rs, a, rs.Get(a).(running := false));
    var rs2 := if o.Some? then Directed(rs1, a, o.value) else rs1;
    if o.Some? {
      DirectedSound(rs1, a, o.value);
    }
    var r := rs2.Get(a);
    match Timing(r.time, High(a))
    case Throws(_) =>
    case Done(t) =>
      PutSound(rs2, a, r.(running := true, inProgress := true, interval := t.0, offset := t.1));
  }

  /** After the rivals of a brightness ramp are stopped, neither is in
      progress, the ramp itself is as it was, and the ramps stay
      sound. */
  lemma RivalsStopped(b: Bulb, a: Axis)
    ensures Dims(a) ==> forall x | Dims(x) && x != a :: !AfterStopRivals(b, a).ramps.Get(x).inProgress
    ensures AfterStopRivals(b, a).ramps.Get(a) == b.ramps.Get(a)
    ensures AfterStopRivals(b, a).(ramps := b.ramps) == b
  {
    match a
    case Raise =>
      StopEffect(b, Lower);
      StopEffect(AfterStop(b, Lower), CycleDim);
    case Lower =>
      StopEffect(b, Raise);
      StopEffect(AfterStop(b, Raise), CycleDim);
    case CycleDim =>
      StopEffect(b, Raise);
      StopEffect(AfterStop(b, Raise), Lower);
    case _ =>
  }

  /** Stopping the rivals keeps the ramps sound. */
  lemma RivalsKeepSound(b: Bulb, a: Axis)
    requires Sound(b.ramps)
    ensures Sound(AfterStopRivals(b, a).ramps)
  {
    match a
    case Raise =>
      StopKeepsSound(b, Lower);
      StopKeepsSound(AfterStop(b, Lower), CycleDim);
    case Lower =>
      StopKeepsSound(b, Raise);
      StopKeepsSound(AfterStop(b, Raise), CycleDim);
    case CycleDim =>
      StopKeepsSound(b, Raise);
      StopKeepsSound(AfterStop(b, Raise), Lower);
    case _ =>
  }

  /** `StartRaise`, `StartLower` and `StartCycleDim` stop the other two
      brightness ramps before they launch; a start on a ramp already in
      progress changes nothing. */
  lemma StartEffect(b: Bulb, a: Axis, accepts: bool)
    ensures b.ramps.Get(a).inProgress ==> AfterStart(b, a, accepts) == (b, None)
    ensures Dims(a) && !b.ramps.Get(a).inProgress ==>
      forall x | Dims(x) && x != a :: !AfterStart(b, a, accepts).0.ramps.Get(x).inProgress
  {
    if Dims(a) && !b.ramps.Get(a).inProgress {
      PreparedEffect(b, a, accepts);
      var b2 := AfterPrepare(AfterStopRivals(b, a), a, accepts);
      var o := Orientation(Value(a, b2.d), b2.d.on, Low(a), High(a), Direction(b2.ramps, a));
      LaunchRamps(b2, a, accepts);
      LaunchedEffect(b2.ramps, a, o);
    }
  }

  /** A start keeps the ramps sound. */
  lemma StartKeepsSound(b: Bulb, a: Axis, accepts: bool)
    requires Sound(b.ramps)
    ensures Sound(AfterStart(b, a, accepts).0.ramps)
  {
    if !b.ramps.Get(a).inProgress {
      PreparedEffect(b, a, accepts);
      var b2 := AfterPrepare(AfterStopRivals(b, a), a, accepts);
      RivalsKeepSound(b, a);
      var o := Orientation(Value(a, b2.d), b2.d.on, Low(a), High(a), Direction(b2.ramps, a));
      LaunchRamps(b2, a, accepts);
      LaunchedSound(b2.ramps, a, o);
    }
  }

  /** The light a start launches from, its rivals stopped and itself
      prepared: its ramps are those after the rivals stopped, with the
      ramp itself still not in progress. */
  lemma PreparedEffect(b: Bulb, a: Axis, accepts: bool)
    requires !b.ramps.Get(a).inProgress
    ensures var e := AfterPrepare(AfterStopRivals(b, a), a, accepts);
      e.ramps == AfterStopRivals(b, a).ramps && !e.ramps.Get(a).inProgress &&
      (Dims(a) ==> forall x | Dims(x) && x != a :: !e.ramps.Get(x).inProgress)
  {
    var b1 := AfterStopRivals(b, a);
    RivalsStopped(b, a);
    WriteKeeps(b1, LS.AssignBrightness(LS.MinBrightness), accepts);
  }

  /** `StartRaise` on a light that is off first sets the brightness to the
      minimum (when the state stores it); raising then starts from
      there. */
  lemma StartRaiseFromOff(b: Bulb, accepts: bool)
    requires !b.d.on && !b.ramps.Get(Raise).inProgress && Stores(b, accepts)
    ensures AfterStart(b, Raise, accepts).0.d.brightness == LS.MinBrightness
  {
    var b1 := AfterStopRivals(b, Raise);
    RivalsStopped(b, Raise);
    var b2 := AfterPrepare(b1, Raise, accepts);
    assert b2.d.brightness == LS.MinBrightness;
    assert Oriented(b2, Raise, accepts).d == b2.d;
  }

  /** A cycle started on a light that is on at a value inside its bounds
      keeps its stored direction; started below its minimum, at or above
      its maximum, or on a light that is off, it runs up, down and up
      respectively. */
  lemma StartCycleDirection(b: Bulb, a: Axis, accepts: bool)
    requires a != Raise && a != Lower
    ensures var v := Value(a, b.d); var stored := b.ramps.Get(a).direction;
      var o := Orientation(v, b.d.on, Low(a), High(a), stored);
      Oriented(b, a, accepts).ramps.Get(a).direction == (if o.Some? then o else stored)
  {
    OrientEffect(b, a, accepts);
  }

  /** The end of a ramp at its bound: no timer, not in progress. */
  function Halted(b: Bulb, a: Axis): Bulb
  {
    b.(ramps := b.ramps.Put(a, b.ramps.Get(a).(running := false, inProgress := false)))
  }

  /** One timer tick: nothing once the timer is gone; otherwise the move
      `Next` chooses, a step written through the state's setter or, at
      the bound, the opposite direction handed to the direction setter
      and the ramp stopped. */
  function AfterTick(b: Bulb, a: Axis, accepts: bool): (r: Bulb)
    ensures !b.ramps.Get(a).running ==> r == b
    ensures r.saved == b.saved && r.handed == b.handed && r.installed == b.installed &&
      r.requesting == b.requesting && r.transitionTime == b.transitionTime
  {
    var r := b.ramps.Get(a);
    var up := Direction(b.ramps, a) == Some(true);
    if !r.running then b
    else match Next(Value(a, b.d), up, r.offset, Low(a), High(a))
      case Step(x) => AfterWrite(b, Assign(a, x), accepts)
      case Turn => Halted(AfterSetDirection(b, a, !up, accepts), a)
  }

  /** A tick that steps: the property takes the step's value when the
      state stores it, and the ramps (so the direction and the step) stay
      as they are, ready for the next tick, which `Run` then follows. */
  lemma TickSteps(b: Bulb, a: Axis, accepts: bool)
    requires b.ramps.Get(a).running && Low(a) <= Value(a, b.d) <= High(a)
    requires Next(Value(a, b.d), Direction(b.ramps, a) == Some(true), b.ramps.Get(a).offset, Low(a), High(a)).Step?
    ensures var x := Next(Value(a, b.d), Direction(b.ramps, a) == Some(true), b.ramps.Get(a).offset, Low(a), High(a)).to;
      var e := AfterTick(b, a, accepts);
      e.ramps == b.ramps && Stores(e, accepts) == Stores(b, accepts) &&
      Value(a, e.d) == (if Stores(b, accepts) then x else Value(a, b.d))
  {
    var x := Next(Value(a, b.d), Direction(b.ramps, a) == Some(true), b.ramps.Get(a).offset, Low(a), High(a)).to;
    WriteKeeps(b, Assign(a, x), accepts);
    WriteStep(b, a, x, accepts);
  }

  /** A tick at the bound: the property keeps its value, the ramp stops,
      a cycle stores the opposite direction, and the lower ramp turns the
      light off when its brightness is at the minimum. */
  lemma TickTurns(b: Bulb, a: Axis, accepts: bool)
    requires b.ramps.Get(a).running
    requires Next(Value(a, b.d), Direction(b.ramps, a) == Some(true), b.ramps.Get(a).offset, Low(a), High(a)).Turn?
    ensures var e := AfterTick(b, a, accepts);
      Value(a, e.d) == Value(a, b.d) && Stores(e, accepts) == Stores(b, accepts) &&
      !e.ramps.Get(a).running && !e.ramps.Get(a).inProgress &&
      (a != Raise && a != Lower ==> e.ramps.Get(a).direction == Some(Direction(b.ramps, a) != Some(true))) &&
      (a == Lower && Stores(b, accepts) ==> !e.d.on)
  {
    var up := Direction(b.ramps, a) == Some(true);
    SetDirectionEffect(b, a, !up, accepts);
  }

  /** A tick keeps the ramps sound. */
  lemma TickKeepsSound(b: Bulb, a: Axis, accepts: bool)
    requires Sound(b.ramps)
    ensures Sound(AfterTick(b, a, accepts).ramps)
  {
    var r := b.ramps.Get(a);
    var up := Direction(b.ramps, a) == Some(true);
    if r.running {
      match Next(Value(a, b.d), up, r.offset, Low(a), High(a))
      case Step(x) =>
        WriteKeeps(b, Assign(a, x), accepts);
      case Turn =>
        var b1 := AfterSetDirection(b, a, !up, accepts);
        SetDirectionEffect(b, a, !up, accepts);
        DirectedSound(b.ramps, a, !up);
        PutSound(b1.ramps, a, b1.ramps.Get(a).(running := false, inProgress := false));
    }
  }
}

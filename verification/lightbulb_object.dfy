/** The light as an object (`LightBulb`): its state object, the ramps'
    timers, flags and directions, the transition time, the properties a
    temporary change saved, and what it handed to the client. Every
    method is proved to leave the light as the matching function of
    `LightBulbs` or `LightBulbSetters` says, and to keep the ramps
    sound. The client is represented by what the light hands it: the
    requests the state sent (`outbox`), the property sets handed to
    `SetHuePropertiesRequestAction` (`handed`) and the refreshes asked
    for. */
module LightBulbObjects {
  import opened Common
  import LS = LightStates
  import opened LightBulbProperties
  import opened LightBulbs
  import opened LightBulbSetters
  import Platform

  class LightBulb {
    const state: LS.LightState
    var outbox: seq<Sent>
    var ramps: Ramps
    var transitionTime: Short
    var saved: Option<Properties>
    var handed: seq<Properties>
    var refreshes: nat
    var lightType: string
    var capabilities: set<Capability>

    /** The light as a value. */
    function Snapshot(): Bulb
      reads this, state
    {
      Bulb(state.data, state.notified, state.actionInstalled, state.requestInProgress,
           outbox, ramps, transitionTime, saved, handed, refreshes, lightType, capabilities)
    }

    /** The object invariant: the ramps are sound. */
    predicate Valid()
      reads this
    {
      Sound(ramps)
    }

    /** A light over a given state: no ramp has run, the transition time
        is the default -1, no temporary change is under way, nothing has
        been handed to the client, and no type is known yet. */
    constructor (s: LS.LightState)
      ensures state == s && Valid()
      ensures Snapshot() == Bulb(s.data, s.notified, s.actionInstalled, s.requestInProgress,
                                 [], AllIdle(), -1, None, [], 0, [], {})
    {
      state := s;
      outbox := [];
      ramps := AllIdle();
      transitionTime := -1;
      saved := None;
      handed := [];
      refreshes := 0;
      lightType := [];
      capabilities := {};
      IdleSound();
    }

    /** A state setter called by the light: the state's own `Set`, whose
        request the client sends with the light's transition time. */
    method Write(a: LS.Assignment, accepts: bool)
      modifies this, state
      ensures Snapshot() == AfterWrite(old(Snapshot()), a, accepts)
    {
      var sent := state.Set(a, accepts);
      if sent.Some? {
        outbox := outbox + [Sent(sent.value, transitionTime)];
      }
    }

    /** `StopRaise`, `StopLower`, `StopCycleDim`, ...: behind the ramp's
        in-progress guard, `StopCycleProperty` drops the timer, reverses a
        stored direction and clears the flag. */
    method Stop(a: Axis)
      requires Valid()
      modifies this
      ensures Snapshot() == AfterStop(old(Snapshot()), a) && Valid()
    {
      var r := ramps.Get(a);
      if r.inProgress {
        var direction := if a == Axis.Raise || a == Axis.Lower || r.direction.None? then r.direction else Some(!r.direction.value);
        ramps := ramps.Put(a, r.(running := false, direction := direction, inProgress := false));
      }
      StopKeepsSound(old(Snapshot()), a);
    }

    /** The stops of the brightness setter. */
    method StopDims()
      requires Valid()
      modifies this
      ensures Snapshot() == AfterStopDims(old(Snapshot())) && Valid()
    {
      Stop(Axis.Raise);
      Stop(Axis.Lower);
      Stop(CycleDim);
    }

    /** `StopCycles`. */
    method StopCycles()
      requires Valid()
      modifies this
      ensures Snapshot() == AfterStopCycles(old(Snapshot())) && Valid()
    {
      StopDims();
      Stop(CycleHue);
      Stop(CycleSaturation);
      Stop(CycleColorTemperature);
    }

    /** The direction setter a ramp is started with. */
    method SetDirection(a: Axis, up: bool, accepts: bool)
      modifies this, state
      ensures Snapshot() == AfterSetDirection(old(Snapshot()), a, up, accepts)
    {
      if a == Axis.Lower {
        if state.data.brightness <= LS.MinBrightness {
          Write(LS.AssignOn(false), accepts);
        }
      } else if a != Axis.Raise {
        ramps := ramps.Put(a, ramps.Get(a).(direction := Some(up)));
      }
    }

    /** The first half of `StartCycleProperty`: drop any timer, then
        hand the direction setter up below the minimum or while the light
        is off, otherwise down at or above the maximum, otherwise up when
        no direction is stored. */
    method Orient(a: Axis, accepts: bool)
      modifies this, state
      ensures Snapshot() == Oriented(old(Snapshot()), a, accepts)
    {
      ghost var b := Snapshot();
      ramps := ramps.Put(a, ramps.Get(a).(running := false));
      assert Snapshot() == b.(ramps := Disposed(b.ramps, a));
      var v := Value(a, state.data);
      var up: Option<bool> := None;
      if v < Low(a) || !state.data.on {
        up := Some(true);
      } else if v >= High(a) {
        up := Some(false);
      } else if Direction(ramps, a).None? {
        up := Some(true);
      }
      assert up == Orientation(Value(a, b.d), b.d.on, Low(a), High(a), Direction(b.ramps, a));
      if up.Some? {
        SetDirection(a, up.value, accepts);
      }
    }

    /** The second half of `StartCycleProperty`: the repeat interval is
        the time over the maximum but at least 100 ms, the step the
        maximum over the number of intervals in the time, at least 1 (the
        division throws when there is no whole interval); then the flag
        is set and the timer started. */
    method Arm(a: Axis) returns (failure: Option<string>)
      modifies this
      ensures (ramps, failure) == Armed(old(ramps), a)
      ensures Snapshot() == old(Snapshot()).(ramps := ramps)
    {
      var time := ramps.Get(a).time;
      var interval := Max(100, time / High(a));
      var ticks := time / interval;
      if ticks == 0 {
        failure := Some("DivideByZeroException");
        return;
      }
      var offset := Max(1, High(a) / ticks);
      ramps := ramps.Put(a, ramps.Get(a).(running := true, inProgress := true, interval := interval, offset := offset));
      failure := None;
    }

    /** `StartCycleProperty`. */
    method Launch(a: Axis, accepts: bool) returns (failure: Option<string>)
      modifies this, state
      ensures (Snapshot(), failure) == AfterLaunch(old(Snapshot()), a, accepts)
    {
      Orient(a, accepts);
      failure := Arm(a);
    }

    /** `StartRaise`, `StartLower`, `StartCycleDim`, `StartCycleHue`, ...:
        nothing while the ramp is in progress; otherwise stop the other
        brightness ramps (for a brightness ramp), set the brightness to
        the minimum when raising a light that is off (or dim cycling it
        without a stored upward direction), then launch. */
    method Start(a: Axis, accepts: bool) returns (failure: Option<string>)
      requires Valid()
      modifies this, state
      ensures (Snapshot(), failure) == AfterStart(old(Snapshot()), a, accepts) && Valid()
    {
      StartKeepsSound(Snapshot(), a, accepts);
      if ramps.Get(a).inProgress {
        return None;
      }
      if a == Axis.Raise {
        Stop(Axis.Lower);
        Stop(CycleDim);
      } else if a == Axis.Lower {
        Stop(Axis.Raise);
        Stop(CycleDim);
      } else if a == CycleDim {
        Stop(Axis.Raise);
        Stop(Axis.Lower);
      }
      if (a == Axis.Raise && !state.data.on) || (a == CycleDim && !state.data.on && ramps.Get(CycleDim).direction != Some(true)) {
        Write(LS.AssignBrightness(LS.MinBrightness), accepts);
      }
      failure := Launch(a, accepts);
    }

    /** The end of a ramp at its bound: the opposite direction handed to
        the direction setter, the timer dropped and the flag cleared. */
    method Turn(a: Axis, up: bool, accepts: bool)
      modifies this, state
      ensures Snapshot() == Halted(AfterSetDirection(old(Snapshot()), a, !up, accepts), a)
    {
      SetDirection(a, !up, accepts);
      ramps := ramps.Put(a, ramps.Get(a).(running := false, inProgress := false));
    }

    /** One tick of a running ramp's timer: moving up, turn at or above
        the maximum or write the value plus the step, never past the
        maximum; moving down, the same towards the minimum. */
    method Advance(a: Axis, accepts: bool)
      requires ramps.Get(a).running
      modifies this, state
      ensures Snapshot() == AfterTick(old(Snapshot()), a, accepts)
    {
      var r := ramps.Get(a);
      var up := Direction(ramps, a) == Some(true);
      var v := Value(a, state.data);
      ghost var m := Next(v, up, r.offset, Low(a), High(a));
      if up {
        if v >= High(a) {
          Turn(a, up, accepts);
        } else {
          assert m == Step(v + Min(r.offset, High(a) - v));
          Write(Assign(a, v + Min(r.offset, High(a) - v)), accepts);
        }
      } else {
        if v <= Low(a) {
          Turn(a, up, accepts);
        } else {
          assert m == Step(v - Min(r.offset, v - Low(a)));
          Write(Assign(a, v - Min(r.offset, v - Low(a))), accepts);
        }
      }
    }

    /** One tick of a ramp's timer: nothing once the timer is gone,
        otherwise the ramp advances. */
    method Tick(a: Axis, accepts: bool)
      requires Valid()
      modifies this, state
      ensures Snapshot() == AfterTick(old(Snapshot()), a, accepts) && Valid()
    {
      TickKeepsSound(Snapshot(), a, accepts);
      if ramps.Get(a).running {
        Advance(a, accepts);
      }
    }

    /** The stops a property setter makes before it writes. */
    method HaltFor(s: Setting)
      requires Valid()
      modifies this
      ensures Snapshot() == StopsFor(old(Snapshot()), s)
    {
      match s {
        case SetOn(v) =>
          if !Platform.ToBool(v) {
            StopCycles();
          }
        case SetBrightness(_) => StopDims();
        case SetHue(_) => Stop(CycleHue);
        case SetSaturation(_) => Stop(CycleSaturation);
        case SetXY(_, _) =>
        case SetColorTemperature(_) => Stop(CycleColorTemperature);
        case SetKnownColorTemperature(_) => Stop(CycleColorTemperature);
        case SetAlert(_) => StopCycles();
        case SetEffect(_) => StopCycles();
      }
    }

    /** The property setters `On`, `Brightness`, `Hue`, `Saturation`,
        `XY`, `ColorTemperature`, `KnownColorTemperature`, `Alert` and
        `Effect`: the stops, then the state's setter (none for a custom
        named temperature). */
    method Set(s: Setting, accepts: bool)
      requires Valid()
      modifies this, state
      ensures Snapshot() == AfterSetting(old(Snapshot()), s, accepts) && Valid()
    {
      SettingKeepsSound(Snapshot(), s, accepts);
      HaltFor(s);
      var assignment := AssignmentFor(s);
      if assignment.Some? {
        Write(assignment.value, accepts);
      }
    }

    /** `SetProperties`: stop the ramps of each property the request sets,
        then hand the request to the client. */
    method SetProperties(p: Properties)
      requires Valid()
      modifies this
      ensures Snapshot() == AfterSetProperties(old(Snapshot()), p) && Valid()
    {
      SetPropertiesKeepsSound(ramps, p);
      if Platform.ToBool(p.setBrightness) {
        Stop(Axis.Raise);
        Stop(Axis.Lower);
        Stop(CycleDim);
      }
      if Platform.ToBool(p.setHue) {
        Stop(CycleHue);
      }
      if Platform.ToBool(p.setSaturation) {
        Stop(CycleSaturation);
      }
      if Platform.ToBool(p.setColorTemperature) {
        Stop(CycleColorTemperature);
      }
      handed := handed + [p];
    }

    /** `Toggle`. */
    method Toggle(accepts: bool)
      modifies this, state
      ensures Snapshot() == AfterToggle(old(Snapshot()), accepts)
    {
      Write(LS.AssignOn(!state.data.on), accepts);
    }

    /** `Refresh`: ask the client to read the light back. */
    method Refresh()
      modifies this
      ensures Snapshot() == old(Snapshot()).(refreshes := old(refreshes) + 1)
    {
      refreshes := refreshes + 1;
    }

    /** `InstantOn`: the maximum brightness with a transition time of 0. */
    method InstantOn(accepts: bool)
      modifies this, state
      ensures Snapshot() == AfterInstantOn(old(Snapshot()), accepts)
    {
      var savedTime := transitionTime;
      transitionTime := 0;
      Write(LS.AssignBrightness(LS.MaxBrightness), accepts);
      transitionTime := savedTime;
    }

    /** `InstantOff`: off with a transition time of 0, then a refresh. */
    method InstantOff(accepts: bool)
      modifies this, state
      ensures Snapshot() == AfterInstantOff(old(Snapshot()), accepts)
    {
      var savedTime := transitionTime;
      transitionTime := 0;
      Write(LS.AssignOn(false), accepts);
      Refresh();
      transitionTime := savedTime;
    }

    /** `Raise`: a brightness offset of the step's size. */
    method Raise(change: UShort)
      requires Valid()
      modifies this
      ensures Snapshot() == AfterSetProperties(old(Snapshot()), RaiseProperties(change)) && Valid()
    {
      SetProperties(Empty().(setBrightnessOffset := Platform.ToPlatformBool(true), brightnessOffset := BrightnessChange(change)));
    }

    /** `Lower`: the same offset, negated. */
    method Lower(change: UShort)
      requires Valid()
      modifies this
      ensures Snapshot() == AfterSetProperties(old(Snapshot()), LowerProperties(change)) && Valid()
    {
      SetProperties(Empty().(setBrightnessOffset := Platform.ToPlatformBool(true), brightnessOffset := -BrightnessChange(change)));
    }

    /** `BeginTemporaryChange`: unless a change is already under way, save
        the brightness and the colour of the current mode. */
    method BeginTemporaryChange()
      modifies this
      ensures Snapshot() == AfterBegin(old(Snapshot()))
    {
      if saved.Some? {
        return;
      }
      var d := state.data;
      var p := Empty().(brightness := d.brightness, setBrightness := Platform.ToPlatformBool(true));
      match d.colorMode {
        case HueSaturation =>
          p := p.(hue := d.hue, saturation := d.saturation,
                  setHue := Platform.ToPlatformBool(true), setSaturation := Platform.ToPlatformBool(true));
        case ColorTemperature =>
          p := p.(colorTemperature := d.colorTemperature, setColorTemperature := Platform.ToPlatformBool(true));
        case XY =>
          p := p.(xy := d.xy, setXY := Platform.ToPlatformBool(true));
        case _ =>
      }
      saved := Some(p);
    }

    /** `EndTemporaryChange`: when a change is under way, forget the saved
        request and hand it to the client through `SetProperties`. */
    method EndTemporaryChange()
      requires Valid()
      modifies this
      ensures Snapshot() == AfterEnd(old(Snapshot())) && Valid()
    {
      if saved.None? {
        return;
      }
      var p := saved.value;
      saved := None;
      SetProperties(p);
    }

    /** The ramp time setters (`RaiseTime`, `LowerTime`, `CycleDimTime`,
        `CycleHueTime`, ...). */
    method SetTime(a: Axis, time: UShort)
      requires Valid()
      modifies this
      ensures Snapshot() == AfterSetTime(old(Snapshot()), a, time) && Valid()
    {
      SetTimeEffect(Snapshot(), a, time);
      ramps := ramps.Put(a, ramps.Get(a).(time := time));
    }

    /** The `TransitionTime` setter. */
    method SetTransitionTime(time: Short)
      modifies this
      ensures Snapshot() == old(Snapshot()).(transitionTime := time)
    {
      transitionTime := time;
    }

    /** The `Type` setter. */
    method SetType(t: string)
      modifies this
      ensures Snapshot() == AfterSetType(old(Snapshot()), t)
    {
      lightType := t;
      capabilities := Capabilities(t);
    }
  }
}

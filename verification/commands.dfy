/** The client's light commands (`ExecuteSetHueProperties`,
    `ExecuteSetHueProperty`, `AddTransitionTime`, `SendStateUpdate` and
    the `Execute` wrapper around the request actions). A command builds a
    body, puts it to the light's state resource, reports the errors in
    the answer, writes back into the state only the values the bridge
    confirmed, and then either records the colour mode the command chose
    or, when something failed, asks for the light to be read back. The
    bridge's answer to the put is a parameter. */
module Commands {
  import opened Common
  import opened Json
  import LS = LightStates
  import opened LightBulbProperties
  import opened LightBulbs
  import LightBulbObjects
  import opened Bodies
  import opened BridgeResults
  import Colors
  import Addresses
  import Text

  /** The resource names of a light and of its state. */
  const LightsApi := "lights"
  const StateApi := "state"

  /** The API path a command puts to (`MakeApi(lights, id, state)`). */
  function StatePath(id: string): string
  {
    Addresses.MakeApi([LightsApi, id, StateApi])
  }

  /** The prefix of the success addresses the bridge confirms values
      under: `/lights/<id>/state/`. */
  function Prefix(id: string): string
  {
    "/" + LightsApi + "/" + id + "/" + StateApi + "/"
  }

  /** A body as written: wire names and values. */
  type Body = seq<(string, Json)>

  /** A put to the bridge: the API path and the body. */
  datatype Put = Put(api: string, body: Body)

  /** The builder's pairs under their wire names. */
  function Spell(pairs: seq<Param>): (r: Body)
    ensures |r| == |pairs|
    ensures forall i | 0 <= i < |pairs| :: r[i] == (pairs[i].0.Name(), pairs[i].1)
  {
    seq(|pairs|, i requires 0 <= i < |pairs| => (pairs[i].0.Name(), pairs[i].1))
  }

  /** The state property a body name writes: the name without `_inc`. */
  function Strip(name: string): string
  {
    Text.RemoveAll(name, "_inc")
  }

  /** The state while confirmed values are written back: the data, the
      notifications, and the conversion exception that stopped the
      write-back, if any. */
  datatype Echo = Echo(d: LS.StateData, notified: seq<string>, failure: Option<string>)

  /** Write back one confirmed value under a state property name
      (`UpdateHueProperty` while the command's own request is in
      progress, so the setter stores without asking the bridge): an
      unknown name is ignored, a value that does not convert stops the
      write-back with the conversion's exception. */
  function Confirm(e: Echo, name: string, value: Json): Echo
  {
    if e.failure.Some? then e
    else match LS.Decode(name, value)
      case None => e
      case Some(Throws(x)) => e.(failure := Some(x))
      case Some(Done(a)) => Echo(LS.Store(e.d, a), e.notified + LS.Notices(e.d, a), None)
  }

  /** Write back, in body order, each body value whose property the
      success map `m` holds an address for. */
  function ConfirmPairs(e: Echo, body: Body, m: map<string, Json>, prefix: string): Echo
  {
    if body == [] then e
    else
      var before := ConfirmPairs(e, body[..|body| - 1], m, prefix);
      var name := Strip(body[|body| - 1].0);
      if prefix + name in m then Confirm(before, name, m[prefix + name]) else before
  }

  /** Write back what every successful result confirms, in order. */
  function ConfirmResults(e: Echo, body: Body, results: seq<Result>, prefix: string): Echo
  {
    if results == [] then e
    else
      var before := ConfirmResults(e, body, results[..|results| - 1], prefix);
      var last := results[|results| - 1];
      if last.error.None? && last.success.Some? then ConfirmPairs(before, body, last.success.value, prefix)
      else before
  }

  lemma {:induction false} FailedPairsStay(e: Echo, body: Body, m: map<string, Json>, prefix: string)
    requires e.failure.Some?
    ensures ConfirmPairs(e, body, m, prefix) == e
  {
    if body != [] {
      FailedPairsStay(e, body[..|body| - 1], m, prefix);
    }
  }

  lemma {:induction false} FailedResultsStay(e: Echo, body: Body, results: seq<Result>, prefix: string)
    requires e.failure.Some?
    ensures ConfirmResults(e, body, results, prefix) == e
  {
    if results != [] {
      FailedResultsStay(e, body, results[..|results| - 1], prefix);
      var last := results[|results| - 1];
      if last.error.None? && last.success.Some? {
        FailedPairsStay(e, body, last.success.value, prefix);
      }
    }
  }

  /** One write-back: `UpdateHueProperty` on the light's state while the
      command's request is in progress. */
  method ConfirmOne(state: LS.LightState, name: string, value: Json) returns (failure: Option<string>)
    requires state.requestInProgress
    modifies state
    ensures Echo(state.data, state.notified, failure) == Confirm(Echo(old(state.data), old(state.notified), None), name, value)
    ensures state.actionInstalled == old(state.actionInstalled) && state.requestInProgress
  {
    var sent;
    failure, sent := state.UpdateHueProperty(name, value, true);
  }

  /** The write-back loop over one successful result's map. */
  method ConfirmMap(state: LS.LightState, body: Body, m: map<string, Json>, prefix: string) returns (failure: Option<string>)
    requires state.requestInProgress
    modifies state
    ensures Echo(state.data, state.notified, failure) == ConfirmPairs(Echo(old(state.data), old(state.notified), None), body, m, prefix)
    ensures state.actionInstalled == old(state.actionInstalled) && state.requestInProgress
  {
    ghost var start := Echo(state.data, state.notified, None);
    failure := None;
    var j := 0;
    while j < |body|
      invariant 0 <= j <= |body| && state.requestInProgress && failure.None?
      invariant state.actionInstalled == old(state.actionInstalled)
      invariant Echo(state.data, state.notified, None) == ConfirmPairs(start, body[..j], m, prefix)
    {
      assert body[..j + 1][..j] == body[..j];
      var name := Strip(body[j].0);
      if prefix + name in m {
        failure := ConfirmOne(state, name, m[prefix + name]);
        if failure.Some? {
          assert ConfirmPairs(start, body[..j + 1], m, prefix) == Echo(state.data, state.notified, failure);
          FailedPairsStay(Echo(state.data, state.notified, failure), body[j + 1..], m, prefix);
          PairsSplit(start, body[..j + 1], body[j + 1..], m, prefix);
          assert body[..j + 1] + body[j + 1..] == body;
          return;
        }
      }
      j := j + 1;
    }
    assert body[..j] == body;
  }

  /** Writing back a body in two parts is writing back the first part,
      then the second. */
  lemma {:induction false} PairsSplit(e: Echo, a: Body, b: Body, m: map<string, Json>, prefix: string)
    ensures ConfirmPairs(e, a + b, m, prefix) == ConfirmPairs(ConfirmPairs(e, a, m, prefix), b, m, prefix)
    decreases |b|
  {
    if b == [] {
      assert a + b == a;
    } else {
      assert (a + b)[..|a + b| - 1] == a + b[..|b| - 1];
      PairsSplit(e, a, b[..|b| - 1], m, prefix);
    }
  }

  /** The write-back loop over the results: every successful result's
      map, in order, stopping at the first conversion exception. */
  method ConfirmAll(state: LS.LightState, body: Body, results: seq<Result>, prefix: string) returns (failure: Option<string>)
    requires state.requestInProgress
    modifies state
    ensures Echo(state.data, state.notified, failure) == ConfirmResults(Echo(old(state.data), old(state.notified), None), body, results, prefix)
    ensures state.actionInstalled == old(state.actionInstalled) && state.requestInProgress
  {
    ghost var start := Echo(state.data, state.notified, None);
    failure := None;
    var i := 0;
    while i < |results|
      invariant 0 <= i <= |results| && state.requestInProgress && failure.None?
      invariant state.actionInstalled == old(state.actionInstalled)
      invariant Echo(state.data, state.notified, None) == ConfirmResults(start, body, results[..i], prefix)
    {
      assert results[..i + 1][..i] == results[..i];
      var result := results[i];
      if result.error.None? && result.success.Some? {
        failure := ConfirmMap(state, body, result.success.value, prefix);
        if failure.Some? {
          assert ConfirmResults(start, body, results[..i + 1], prefix) == Echo(state.data, state.notified, failure);
          ResultsStop(start, body, results, i, prefix);
          return;
        }
      }
      i := i + 1;
    }
    assert results[..i] == results;
  }

  /** Once the write-back of the first `i + 1` results failed, the later
      results change nothing. */
  lemma {:induction false} ResultsStop(e: Echo, body: Body, results: seq<Result>, i: nat, prefix: string)
    requires i < |results| && ConfirmResults(e, body, results[..i + 1], prefix).failure.Some?
    ensures ConfirmResults(e, body, results, prefix) == ConfirmResults(e, body, results[..i + 1], prefix)
    decreases |results| - i
  {
    if i + 1 < |results| {
      var front := results[..|results| - 1];
      assert front[..i + 1] == results[..i + 1];
      ResultsStop(e, body, front, i, prefix);
      var last := results[|results| - 1];
      if last.error.None? && last.success.Some? {
        FailedPairsStay(ConfirmResults(e, body, front, prefix), body, last.success.value, prefix);
      }
    } else {
      assert results[..i + 1] == results;
    }
  }

  /** What a command touches: the light (its state and its refresh
      requests), the reports raised, and the puts sent. */
  datatype World = World(bulb: Bulb, raised: seq<Report>, puts: seq<Put>)

  /** A command's effect and its answer: true when the bridge reported
      every change as done, or the exception that escaped it. */
  datatype Answer = Answer(world: World, outcome: Outcome<bool>)

  /** The transition time pair `AddTransitionTime` appends. */
  function TransitionBody(custom: Option<Short>, b: Bulb, defaultTime: Short): Body
  {
    Spell(TransitionPairs(ChooseTransitionTime(custom, b.transitionTime, defaultTime)))
  }

  /** `SendStateUpdate`: nothing for an empty body; otherwise append the
      transition time when asked to, put the body, report the errors in
      the answer, write back what the bridge confirmed, and then record
      the chosen colour mode when everything succeeded, or ask for the
      light to be read back when something failed and a mode was
      chosen. */
  function Send(w: World, id: string, defaultTime: Short, body: Body, addTransition: bool,
                mode: Option<LS.ColorMode>, results: seq<Result>): (r: Answer)
    ensures body == [] ==> r == Answer(w, Done(true))
    ensures body != [] ==>
      r.world.puts == w.puts + [Put(StatePath(id), if addTransition then body + TransitionBody(None, w.bulb, defaultTime) else body)] &&
      r.world.raised == w.raised + Reports(results)
    ensures body != [] && r.outcome == Done(true) ==> AllSucceeded(results)
    ensures r.world.bulb.refreshes != w.bulb.refreshes ==>
      r.world.bulb.refreshes == w.bulb.refreshes + 1 && r.outcome == Done(false) && mode.Some?
    ensures r.world.bulb.requesting == w.bulb.requesting && r.world.bulb.ramps == w.bulb.ramps
  {
    if body == [] then Answer(w, Done(true))
    else
      var sent := if addTransition then body + TransitionBody(None, w.bulb, defaultTime) else body;
      var e := ConfirmResults(Echo(w.bulb.d, w.bulb.notified, None), sent, results, Prefix(id));
      var b := w.bulb.(d := e.d, notified := e.notified);
      var after := World(b, w.raised + Reports(results), w.puts + [Put(StatePath(id), sent)]);
      if e.failure.Some? then Answer(after, Throws(e.failure.value))
      else if mode.None? then Answer(after, Done(AllSucceeded(results)))
      else if AllSucceeded(results) then
        Answer(after.(bulb := b.(d := LS.ModeChain(e.d, mode.value), notified := e.notified + LS.ModeNotices(e.d, mode.value))),
               Done(true))
      else Answer(after.(bulb := b.(refreshes := b.refreshes + 1)), Done(false))
  }

  /** The message raised for a colour name the table does not hold. */
  function InvalidColorMessage(name: string): string
  {
    "Invalid color: " + name
  }

  /** `ExecuteSetHueProperties`: a light already inside a request answers
      true at once; otherwise the body is built, an unknown colour name is
      reported (answering false), and the body, with the request's own
      transition time when it has one, is sent. */
  function SetProperties(w: World, id: string, defaultTime: Short, p: Properties,
                         colors: map<string, Colors.Rgb>, toXY: Colors.Rgb -> (real, real), results: seq<Result>): (r: Answer)
    ensures w.bulb.requesting ==> r == Answer(w, Done(true))
    ensures |w.puts| <= |r.world.puts| <= |w.puts| + 1 && r.world.puts[..|w.puts|] == w.puts
    ensures !w.bulb.requesting && Plan(w.bulb.d, p, colors, toXY).InvalidColor? ==>
      r.outcome == Done(false) && r.world.puts == w.puts &&
      r.world.raised == w.raised + [Message(InvalidColorMessage(p.colorNameOrHexRgb.value))]
    ensures !w.bulb.requesting && Plan(w.bulb.d, p, colors, toXY).Fault? ==> r.world == w && r.outcome.Throws?
  {
    if w.bulb.requesting then Answer(w, Done(true))
    else match Plan(w.bulb.d, p, colors, toXY)
      case Fault(x) => Answer(w, Throws(x))
      case InvalidColor(name) => Answer(w.(raised := w.raised + [Message(InvalidColorMessage(name))]), Done(false))
      case Ready(pairs, mode) =>
        var custom := p.transitionTimeToUse >= 0;
        var body := if custom then Spell(pairs) + TransitionBody(Some(p.transitionTimeToUse), w.bulb, defaultTime) else Spell(pairs);
        Send(w, id, defaultTime, body, !custom, mode, results)
  }

  /** The body `ExecuteSetHueProperty` sends for a setter's request: the
      turn-on pair when the setter asks for it and the light is off, then
      the value under its wire name. */
  function PropertyBody(d: LS.StateData, r: LS.Request): Body
  {
    (if r.turnOn && !d.on then [("on", JBool(true))] else []) + [(r.key, LS.WireForm(r.arg))]
  }

  /** `ExecuteSetHueProperty`: a light already inside a request answers
      true at once; otherwise the setter's request is sent with the
      light's transition time. */
  function SetProperty(w: World, id: string, defaultTime: Short, r: LS.Request, results: seq<Result>): (a: Answer)
    ensures w.bulb.requesting ==> a == Answer(w, Done(true))
    ensures !w.bulb.requesting ==>
      a.world.puts == w.puts + [Put(StatePath(id), PropertyBody(w.bulb.d, r) + TransitionBody(None, w.bulb, defaultTime))]
  {
    if w.bulb.requesting then Answer(w, Done(true))
    else Send(w, id, defaultTime, PropertyBody(w.bulb.d, r), true, r.mode, results)
  }

  /** The `Execute` wrapper: an exception is reported as a message and
      the action answers false. */
  function Execute(a: Answer): (r: (World, bool))
    ensures r.1 <==> a.outcome == Done(true)
    ensures a.outcome.Done? ==> r.0 == a.world
    ensures a.outcome.Throws? ==>
      r.0 == a.world.(raised := a.world.raised + [Message(a.outcome.exception)])
  {
    match a.outcome
    case Done(ok) => (a.world, ok)
    case Throws(x) => (a.world.(raised := a.world.raised + [Message(x)]), false)
  }

  /** The client, as far as light commands go: where it reports errors,
      the default transition time for lights (-1: the bridge's own), and
      the puts it has sent. */
  class Client {
    const channel: ErrorChannel
    var defaultTransitionTime: Short
    var puts: seq<Put>

    constructor (c: ErrorChannel)
      ensures channel == c && defaultTransitionTime == -1 && puts == []
    {
      channel := c;
      defaultTransitionTime := -1;
      puts := [];
    }

    /** What a command on `bulb` touches. */
    function WorldOf(bulb: LightBulbObjects.LightBulb): World
      reads this, channel, bulb, bulb.state
    {
      World(bulb.Snapshot(), channel.raised, puts)
    }

    /** `LightBulbsDefaultTransitionTime`'s setter. */
    method SetDefaultTransitionTime(t: Short)
      modifies this
      ensures defaultTransitionTime == t && puts == old(puts)
    {
      defaultTransitionTime := t;
    }

    /** `SendStateUpdate`, on a light whose state is inside this
        command's request. */
    method SendStateUpdate(bulb: LightBulbObjects.LightBulb, id: string, body: Body, addTransition: bool,
                           mode: Option<LS.ColorMode>, results: seq<Result>) returns (r: Outcome<bool>)
      requires bulb.state.requestInProgress
      modifies this, channel, bulb, bulb.state
      ensures Answer(WorldOf(bulb), r) == Send(old(WorldOf(bulb)), id, defaultTransitionTime, body, addTransition, mode, results)
      ensures defaultTransitionTime == old(defaultTransitionTime)
    {
      if body == [] {
        return Done(true);
      }
      ghost var w0 := WorldOf(bulb);
      var sent := body;
      if addTransition {
        sent := sent + TransitionBody(None, bulb.Snapshot(), defaultTransitionTime);
      }
      puts := puts + [Put(StatePath(id), sent)];
      var allSuccess := channel.ParseResults(results);
      var failure := ConfirmAll(bulb.state, sent, results, Prefix(id));
      if failure.Some? {
        assert bulb.Snapshot() == w0.bulb.(d := bulb.state.data, notified := bulb.state.notified);
        return Throws(failure.value);
      }
      if allSuccess {
        if mode.Some? {
          bulb.state.SetColorMode(mode.value);
        }
      } else if mode.Some? {
        bulb.Refresh();
      }
      r := Done(allSuccess);
    }

    /** `ExecuteSetHueProperties`: the in-progress guard, the flag set for
        the duration of the command and cleared after it (also when an
        exception escapes), the body built, and the send. */
    method ExecuteSetHueProperties(bulb: LightBulbObjects.LightBulb, id: string, p: Properties,
                                   colors: map<string, Colors.Rgb>, toXY: Colors.Rgb -> (real, real),
                                   results: seq<Result>) returns (r: Outcome<bool>)
      modifies this, channel, bulb, bulb.state
      ensures Answer(WorldOf(bulb), r) == SetProperties(old(WorldOf(bulb)), id, defaultTransitionTime, p, colors, toXY, results)
      ensures defaultTransitionTime == old(defaultTransitionTime)
    {
      if bulb.state.requestInProgress {
        return Done(true);
      }
      ghost var w0 := WorldOf(bulb);
      bulb.state.requestInProgress := true;
      var built := BuildBody(bulb.state.data, p, colors, toXY);
      if built.Fault? {
        bulb.state.requestInProgress := false;
        assert WorldOf(bulb) == w0;
        return Throws(built.exception);
      }
      if built.InvalidColor? {
        channel.Raise(Message(InvalidColorMessage(built.name)));
        bulb.state.requestInProgress := false;
        assert WorldOf(bulb) == w0.(raised := w0.raised + [Message(InvalidColorMessage(built.name))]);
        return Done(false);
      }
      var body := Spell(built.pairs);
      var addTransition := true;
      if p.transitionTimeToUse >= 0 {
        body := body + TransitionBody(Some(p.transitionTimeToUse), bulb.Snapshot(), defaultTransitionTime);
        addTransition := false;
      }
      assert WorldOf(bulb) == w0.(bulb := w0.bulb.(requesting := true));
      r := SendStateUpdate(bulb, id, body, addTransition, built.mode, results);
      bulb.state.requestInProgress := false;
      SendIgnoresFlag(w0, true, id, defaultTransitionTime, body, addTransition, built.mode, results);
      ReadyCommand(w0, id, defaultTransitionTime, p, colors, toXY, results);
    }

    /** `ExecuteSetHueProperty`: the in-progress guard and flag, and the
        setter's request sent with the light's transition time. */
    method ExecuteSetHueProperty(bulb: LightBulbObjects.LightBulb, id: string, request: LS.Request,
                                 results: seq<Result>) returns (r: Outcome<bool>)
      modifies this, channel, bulb, bulb.state
      ensures Answer(WorldOf(bulb), r) == SetProperty(old(WorldOf(bulb)), id, defaultTransitionTime, request, results)
      ensures defaultTransitionTime == old(defaultTransitionTime)
    {
      if bulb.state.requestInProgress {
        return Done(true);
      }
      ghost var w0 := WorldOf(bulb);
      bulb.state.requestInProgress := true;
      var body: Body := [];
      if request.turnOn && !bulb.state.data.on {
        body := body + [("on", JBool(true))];
      }
      body := body + [(request.key, LS.WireForm(request.arg))];
      assert body == PropertyBody(w0.bulb.d, request);
      assert WorldOf(bulb) == w0.(bulb := w0.bulb.(requesting := true));
      r := SendStateUpdate(bulb, id, body, true, request.mode, results);
      bulb.state.requestInProgress := false;
      SendIgnoresFlag(w0, true, id, defaultTransitionTime, body, true, request.mode, results);
    }

    /** `SetHuePropertiesRequestAction`: `ExecuteSetHueProperties` inside
        `Execute`. */
    method SetHuePropertiesAction(bulb: LightBulbObjects.LightBulb, id: string, p: Properties,
                                  colors: map<string, Colors.Rgb>, toXY: Colors.Rgb -> (real, real),
                                  results: seq<Result>) returns (ok: bool)
      modifies this, channel, bulb, bulb.state
      ensures (WorldOf(bulb), ok) == Execute(SetProperties(old(WorldOf(bulb)), id, defaultTransitionTime, p, colors, toXY, results))
    {
      var r := ExecuteSetHueProperties(bulb, id, p, colors, toXY, results);
      ghost var w := WorldOf(bulb);
      ok := Catch(r);
      assert WorldOf(bulb) == w.(raised := channel.raised);
    }

    /** `SetHuePropertyRequestAction`: `ExecuteSetHueProperty` inside
        `Execute`. */
    method SetHuePropertyAction(bulb: LightBulbObjects.LightBulb, id: string, request: LS.Request,
                                results: seq<Result>) returns (ok: bool)
      modifies this, channel, bulb, bulb.state
      ensures (WorldOf(bulb), ok) == Execute(SetProperty(old(WorldOf(bulb)), id, defaultTransitionTime, request, results))
    {
      var r := ExecuteSetHueProperty(bulb, id, request, results);
      ghost var w := WorldOf(bulb);
      ok := Catch(r);
      assert WorldOf(bulb) == w.(raised := channel.raised);
      assert (WorldOf(bulb), ok) == Execute(Answer(w, r));
    }

    /** The catch of `Execute`: report an exception and answer false. */
    method Catch(r: Outcome<bool>) returns (ok: bool)
      modifies channel
      ensures ok == (r.Done? && r.value)
      ensures channel.raised == if r.Throws? then old(channel.raised) + [Message(r.exception)] else old(channel.raised)
    {
      if r.Throws? {
        channel.Raise(Message(r.exception));
        return false;
      }
      ok := r.value;
    }
  }

  /** A command whose body was built is the send of that body, with the
      request's own transition time when it has one. */
  lemma ReadyCommand(w: World, id: string, defaultTime: Short, p: Properties,
                     colors: map<string, Colors.Rgb>, toXY: Colors.Rgb -> (real, real), results: seq<Result>)
    requires !w.bulb.requesting && Plan(w.bulb.d, p, colors, toXY).Ready?
    ensures var built := Plan(w.bulb.d, p, colors, toXY);
      var custom := p.transitionTimeToUse >= 0;
      var body := if custom then Spell(built.pairs) + TransitionBody(Some(p.transitionTimeToUse), w.bulb, defaultTime) else Spell(built.pairs);
      SetProperties(w, id, defaultTime, p, colors, toXY, results) == Send(w, id, defaultTime, body, !custom, built.mode, results)
  {
  }

  /** `Send` does not look at the in-progress flag, and leaves it as it
      found it. */
  lemma SendIgnoresFlag(w: World, flag: bool, id: string, defaultTime: Short, body: Body, addTransition: bool,
                        mode: Option<LS.ColorMode>, results: seq<Result>)
    ensures var a := Send(w, id, defaultTime, body, addTransition, mode, results);
      var b := Send(w.(bulb := w.bulb.(requesting := flag)), id, defaultTime, body, addTransition, mode, results);
      b.outcome == a.outcome && b.world.bulb.requesting == flag &&
      b.world.(bulb := b.world.bulb.(requesting := w.bulb.requesting)) == a.world
  {
  }

  /** A name with no underscore, so no `_inc` in it. */
  predicate Plain(s: string)
  {
    forall i | 0 <= i < |s| :: s[i] != '_'
  }

  lemma StripPlain(s: string)
    requires Plain(s)
    ensures Strip(s) == s
  {
    forall i | 0 <= i < |s| ensures !Text.StartsWith(s[i..], "_inc") {
      if |s[i..]| >= 4 {
        assert s[i..][..4][0] == s[i];
      }
    }
    Text.RemoveAllAbsent(s, "_inc");
  }

  lemma StripInc(s: string)
    requires Plain(s)
    ensures Strip(s + "_inc") == s
  {
    forall i | 0 <= i < |s| ensures !Text.StartsWith((s + "_inc")[i..], "_inc") {
      assert (s + "_inc")[i..][..4][0] == s[i];
    }
    Text.RemoveAllSuffix(s, "_inc");
  }

  /** The absolute wire an offset wire adjusts; other wires are their own. */
  function Base(w: Wire): Wire
  {
    match w
    case BriInc => Bri
    case XYInc => XY
    case CTInc => CT
    case HueInc => Hue
    case SatInc => Sat
    case _ => w
  }

  /** The write-back of a pair looks its value up under the absolute
      property: `bri_inc` under `bri`, and so on; every other name is
      looked up as it is. */
  lemma StripWire(w: Wire)
    ensures Strip(w.Name()) == Base(w).Name()
  {
    var b := Base(w).Name();
    assert Plain(b);
    if w != Base(w) {
      assert w.Name() == b + "_inc";
      StripInc(b);
    } else {
      StripPlain(b);
    }
  }

  /** The wire name under which the bridge reports the property an
      assignment sets. */
  function WireName(a: LS.Assignment): string
  {
    match a
    case AssignOn(_) => "on"
    case AssignBrightness(_) => "bri"
    case AssignHue(_) => "hue"
    case AssignSaturation(_) => "sat"
    case AssignXY(_, _) => "xy"
    case AssignColorTemperature(_) => "ct"
    case AssignAlert(_) => "alert"
    case AssignEffect(_) => "effect"
    case AssignColorModeKey(_) => "colormode"
    case AssignIsOnline(_) => "reachable"
  }

  /** Two states agree on the property reported under wire name `f` (the
      colour mode and its key count as one property). */
  predicate SameField(d1: LS.StateData, d2: LS.StateData, f: string)
  {
    if f == "on" then d1.on == d2.on
    else if f == "bri" then d1.brightness == d2.brightness
    else if f == "hue" then d1.hue == d2.hue
    else if f == "sat" then d1.saturation == d2.saturation
    else if f == "xy" then d1.xy == d2.xy
    else if f == "ct" then d1.colorTemperature == d2.colorTemperature
    else if f == "alert" then d1.alert == d2.alert
    else if f == "effect" then d1.effect == d2.effect
    else if f == "colormode" then d1.colorMode == d2.colorMode && d1.colorModeKey == d2.colorModeKey
    else if f == "reachable" then d1.isOnline == d2.isOnline
    else true
  }

  lemma SameFieldTrans(d1: LS.StateData, d2: LS.StateData, d3: LS.StateData, f: string)
    requires SameField(d1, d2, f) && SameField(d2, d3, f)
    ensures SameField(d1, d3, f)
  {
  }

  /** A value decoded under a wire name sets the property of that name. */
  lemma DecodeName(n: string, v: Json, a: LS.Assignment)
    requires LS.Decode(n, v) == Some(Done(a))
    ensures WireName(a) == n
  {
    if n == "on" {
    } else if n == "bri" {
    } else if n == "hue" {
    } else if n == "sat" {
    } else if n == "xy" {
    } else if n == "ct" {
    } else if n == "alert" {
    } else if n == "effect" {
    } else if n == "colormode" {
    } else {
      assert n == "reachable";
    }
  }

  /** Storing an assignment leaves every other property as it was. */
  lemma StoreFrame(d: LS.StateData, a: LS.Assignment, f: string)
    requires f != WireName(a)
    ensures SameField(LS.Store(d, a), d, f)
  {
  }

  /** Writing back one result's confirmed values leaves a property the
      result does not confirm as it was. */
  lemma {:induction false} ConfirmPairsFrame(e: Echo, body: Body, m: map<string, Json>, prefix: string, f: string)
    requires prefix + f !in m
    ensures SameField(ConfirmPairs(e, body, m, prefix).d, e.d, f)
  {
    if body != [] {
      var before := ConfirmPairs(e, body[..|body| - 1], m, prefix);
      ConfirmPairsFrame(e, body[..|body| - 1], m, prefix, f);
      var name := Strip(body[|body| - 1].0);
      if prefix + name in m && before.failure.None? {
        var value := m[prefix + name];
        if LS.Decode(name, value).Some? && LS.Decode(name, value).value.Done? {
          var a := LS.Decode(name, value).value.value;
          DecodeName(name, value, a);
          StoreFrame(before.d, a, f);
          SameFieldTrans(LS.Store(before.d, a), before.d, e.d, f);
        }
      }
    }
  }

  /** Nothing unconfirmed changes: a property that no successful result
      confirms keeps its value through the write-back. */
  lemma {:induction false} Unconfirmed(e: Echo, body: Body, results: seq<Result>, prefix: string, f: string)
    requires forall i | 0 <= i < |results| && results[i].error.None? && results[i].success.Some? ::
      prefix + f !in results[i].success.value
    ensures SameField(ConfirmResults(e, body, results, prefix).d, e.d, f)
  {
    if results != [] {
      var front := results[..|results| - 1];
      Unconfirmed(e, body, front, prefix, f);
      var last := results[|results| - 1];
      if last.error.None? && last.success.Some? {
        var before := ConfirmResults(e, body, front, prefix);
        ConfirmPairsFrame(before, body, last.success.value, prefix, f);
        SameFieldTrans(ConfirmPairs(before, body, last.success.value, prefix).d, before.d, e.d, f);
      }
    }
  }

  /** A light already inside a request answers true and nothing
      changes, for either kind of command. */
  lemma InProgressAnswersTrue(w: World, id: string, defaultTime: Short, p: Properties,
                              colors: map<string, Colors.Rgb>, toXY: Colors.Rgb -> (real, real),
                              r: LS.Request, results: seq<Result>)
    requires w.bulb.requesting
    ensures SetProperties(w, id, defaultTime, p, colors, toXY, results) == Answer(w, Done(true))
    ensures SetProperty(w, id, defaultTime, r, results) == Answer(w, Done(true))
  {
  }

  /** A command that asks for nothing new, without a transition time of
      its own, sends nothing and answers true. */
  lemma EmptyCommand(w: World, id: string, defaultTime: Short, p: Properties,
                     colors: map<string, Colors.Rgb>, toXY: Colors.Rgb -> (real, real), results: seq<Result>)
    requires Plan(w.bulb.d, p, colors, toXY).Ready? && Plan(w.bulb.d, p, colors, toXY).pairs == []
    requires p.transitionTimeToUse < 0
    ensures SetProperties(w, id, defaultTime, p, colors, toXY, results) == Answer(w, Done(true))
  {
    if !w.bulb.requesting {
      assert Spell([]) == [];
    }
  }

  /** A non-empty body is put once, after the errors in the answer are
      reported. */
  lemma SendPuts(w: World, id: string, defaultTime: Short, body: Body, addTransition: bool,
                 mode: Option<LS.ColorMode>, results: seq<Result>)
    requires body != []
    ensures var a := Send(w, id, defaultTime, body, addTransition, mode, results);
      var sent := if addTransition then body + TransitionBody(None, w.bulb, defaultTime) else body;
      a.world.puts == w.puts + [Put(StatePath(id), sent)] && a.world.raised == w.raised + Reports(results)
  {
  }

  /** A command whose body was built puts exactly once: the built pairs,
      then the transition time chosen by `ChooseTransitionTime` from the
      request's, the light's and the default (none when all are
      negative); an empty body with a transition time of its own still
      goes out. The errors in the answer are reported first. */
  lemma CommandBody(w: World, id: string, defaultTime: Short, p: Properties,
                    colors: map<string, Colors.Rgb>, toXY: Colors.Rgb -> (real, real), results: seq<Result>)
    requires !w.bulb.requesting && Plan(w.bulb.d, p, colors, toXY).Ready?
    requires Plan(w.bulb.d, p, colors, toXY).pairs != [] || p.transitionTimeToUse >= 0
    ensures var a := SetProperties(w, id, defaultTime, p, colors, toXY, results);
      var body := Spell(Plan(w.bulb.d, p, colors, toXY).pairs) + TransitionBody(Some(p.transitionTimeToUse), w.bulb, defaultTime);
      a.world.puts == w.puts + [Put(StatePath(id), body)] &&
      a.world.raised == w.raised + Reports(results)
  {
    var built := Plan(w.bulb.d, p, colors, toXY);
    ReadyCommand(w, id, defaultTime, p, colors, toXY, results);
    var custom := p.transitionTimeToUse >= 0;
    var transition := TransitionBody(Some(p.transitionTimeToUse), w.bulb, defaultTime);
    var body := if custom then Spell(built.pairs) + transition else Spell(built.pairs);
    if custom {
      assert transition != [];
    } else {
      assert |Spell(built.pairs)| == |built.pairs|;
      assert transition == TransitionBody(None, w.bulb, defaultTime);
    }
    SendPuts(w, id, defaultTime, body, !custom, built.mode, results);
  }

  /** The colour mode a sent command chose is recorded only when every
      result succeeded; when some result failed the light is read back
      instead, and its state is what the write-back left. A command that
      chose no mode never asks for a read-back. */
  lemma CommandMode(w: World, id: string, defaultTime: Short, p: Properties,
                    colors: map<string, Colors.Rgb>, toXY: Colors.Rgb -> (real, real), results: seq<Result>)
    requires !w.bulb.requesting && Plan(w.bulb.d, p, colors, toXY).Ready?
    requires Plan(w.bulb.d, p, colors, toXY).pairs != [] || p.transitionTimeToUse >= 0
    requires !SetProperties(w, id, defaultTime, p, colors, toXY, results).outcome.Throws?
    ensures var a := SetProperties(w, id, defaultTime, p, colors, toXY, results);
      var mode := Plan(w.bulb.d, p, colors, toXY).mode;
      a.outcome == Done(AllSucceeded(results)) &&
      (mode.Some? && AllSucceeded(results) ==> a.world.bulb.d.colorMode == mode.value && a.world.bulb.refreshes == w.bulb.refreshes) &&
      (mode.Some? && !AllSucceeded(results) ==> a.world.bulb.refreshes == w.bulb.refreshes + 1) &&
      (mode.None? ==> a.world.bulb.refreshes == w.bulb.refreshes)
  {
    var built := Plan(w.bulb.d, p, colors, toXY);
    ReadyCommand(w, id, defaultTime, p, colors, toXY, results);
    var custom := p.transitionTimeToUse >= 0;
    if custom {
      assert TransitionBody(Some(p.transitionTimeToUse), w.bulb, defaultTime) != [];
    } else {
      assert |Spell(built.pairs)| == |built.pairs|;
    }
  }

  /** A setter's request is written under a plain wire name other than
      `on` (for a request that turns the light on) and `transitiontime`. */
  lemma RequestKey(a: LS.Assignment)
    requires LS.Public(a)
    ensures var r := LS.RequestFor(a).value;
      Strip(r.key) == r.key && r.key != "transitiontime" && (r.turnOn ==> r.key != "on")
  {
    var r := LS.RequestFor(a).value;
    assert Plain(r.key);
    StripPlain(r.key);
  }

  lemma StripFixed()
    ensures Strip("on") == "on" && Strip("transitiontime") == "transitiontime"
  {
    assert Plain("on");
    StripPlain("on");
    assert Plain("transitiontime");
    StripPlain("transitiontime");
  }

  lemma PrefixDistinct(prefix: string, x: string, y: string)
    requires x != y
    ensures prefix + x != prefix + y
  {
    assert (prefix + x)[|prefix|..] == x;
    assert (prefix + y)[|prefix|..] == y;
  }

  /** Writing back a single pair. */
  lemma ConfirmOnePair(e: Echo, pair: (string, Json), m: map<string, Json>, prefix: string)
    ensures ConfirmPairs(e, [pair], m, prefix) ==
      var name := Strip(pair.0);
      if prefix + name in m then Confirm(e, name, m[prefix + name]) else e
  {
    assert [pair][..0] == [];
  }

  /** Writing back a setter's request body against a map that confirms
      only the request's own value stores the echoed value. */
  lemma ConfirmRequestBody(e: Echo, r: LS.Request, a: LS.Assignment, tail: Body, prefix: string)
    requires LS.Public(a) && r == LS.RequestFor(a).value && e.failure.None?
    requires tail == [] || (tail[0].0 == "transitiontime" && |tail| == 1)
    ensures var m := map[prefix + r.key := LS.WireForm(r.arg)];
      var body := PropertyBody(e.d, r) + tail;
      ConfirmPairs(e, body, m, prefix) == Confirm(e, r.key, LS.WireForm(r.arg))
  {
    var m := map[prefix + r.key := LS.WireForm(r.arg)];
    RequestKey(a);
    StripFixed();
    var head := if r.turnOn && !e.d.on then [("on", JBool(true))] else [];
    var own := [(r.key, LS.WireForm(r.arg))];
    if head != [] {
      PrefixDistinct(prefix, "on", r.key);
      ConfirmOnePair(e, head[0], m, prefix);
      assert head == [head[0]];
    }
    assert ConfirmPairs(e, head, m, prefix) == e;
    PairsSplit(e, head, own, m, prefix);
    ConfirmOnePair(e, own[0], m, prefix);
    var confirmed := Confirm(e, r.key, LS.WireForm(r.arg));
    PairsSplit(e, head + own, tail, m, prefix);
    if tail != [] {
      PrefixDistinct(prefix, "transitiontime", r.key);
      ConfirmOnePair(confirmed, tail[0], m, prefix);
      assert tail == [tail[0]];
    }
  }

  /** A setter's request that the bridge confirms by echoing its value
      under the property's address leaves the state as the setter itself
      stores it, then in the colour mode the request carries; the command
      answers true. */
  lemma ConfirmedSetter(w: World, id: string, defaultTime: Short, a: LS.Assignment)
    requires LS.Public(a) && !w.bulb.requesting
    ensures var r := LS.RequestFor(a).value;
      var results := [Result(None, Some(map[Prefix(id) + r.key := LS.WireForm(r.arg)]))];
      var answer := SetProperty(w, id, defaultTime, r, results);
      var stored := LS.Store(w.bulb.d, a);
      answer.outcome == Done(true) &&
      answer.world.bulb.d == if r.mode.Some? then LS.ModeChain(stored, r.mode.value) else stored
  {
    var r := LS.RequestFor(a).value;
    var m := map[Prefix(id) + r.key := LS.WireForm(r.arg)];
    var results := [Result(None, Some(m))];
    var e0 := Echo(w.bulb.d, w.bulb.notified, None);
    var tail := TransitionBody(None, w.bulb, defaultTime);
    ConfirmRequestBody(e0, r, a, tail, Prefix(id));
    LS.EchoRoundTrip(w.bulb.d, a);
    var sent := PropertyBody(w.bulb.d, r) + tail;
    assert results[..0] == [];
    assert ConfirmResults(e0, sent, results, Prefix(id)) == ConfirmPairs(e0, sent, m, Prefix(id));
    assert AllSucceeded(results);
  }
}

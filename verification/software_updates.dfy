/** The two asynchronous software-update operations of the bridge client:
    checking for an update and applying one. Both share one timer (a
    second operation cannot begin while it exists); a begin method tests
    its preconditions in a fixed order, asks the bridge to start, and
    installs the timer; each timer tick refreshes the bridge
    configuration, tests for completion, counts, and stops the timer on
    completion or when the count reaches the time limit.

    The bridge configuration enters as the part these operations read:
    the software-update state and flags, the portal sign-on flag (a
    platform boolean), and whether the API version is older than 1.4,
    which is either known or an exception from parsing the version text.
    A refresh is a given new configuration or the exception it raised;
    the bridge's answer to a request is its decoded results array. */
module SoftwareUpdates {
  import opened Common
  import Platform
  import opened BridgeResults
  import opened Decisions

  /** `SoftwareUpdateState`, as the number the bridge sends. */
  const NoUpdate := 0
  const UpdateDownloading := 1
  const UpdateAvailableToApply := 2
  const ApplyingUpdate := 3

  /** The time between two ticks and the time limit, in milliseconds:
      about five minutes of checking, fifteen of applying. */
  const CheckInterval := 5000
  const CheckLimit := 5 * 60 * 1000
  const ApplyInterval := 1000
  const ApplyLimit := 15 * 60 * 1000

  const NotInitialized := "Initialize not called"

  datatype UpdateStatus = UpdateStatus(updateState: int, checkForUpdate: bool, notify: bool,
                                       signedOn: Platform.Int16, apiBefore14: Outcome<bool>)

  /** Which operation the shared timer is running. */
  datatype Job = Checking | Applying

  /** The client's side of the operations: whether it was initialised, the
      configuration it holds, the timer and the running operation's tick
      counter. */
  datatype Updates = Updates(configured: bool, status: UpdateStatus, timer: Option<Job>, counter: int)

  datatype BeginCheckResult =
    | Failed | CheckOrUpdateAlreadyInProgress | OldBridgeMustUseOfficialHueApp | NotConnectedToHuePortal
    | BridgeIsBusyAndCannotCheckForUpdates | Started | UpdateAlreadyDownloading | UpdateAlreadyAvailable

  datatype CheckResult = Failed | TimedOut | LostConnectingToHuePortal | Completed

  datatype BeginApplyResult =
    | Failed | CheckOrUpdateAlreadyInProgress | NoUpdateAvailable | UpdateStillDownloading
    | UpdateAlreadyBeingApplied | Started

  datatype ApplyResult = Failed | TimedOutWaitingForUpdateToComplete | Completed

  /** A begin: the new state, the answer and the errors raised. */
  datatype Began<R> = Began(state: Updates, result: R, reports: seq<Report>)

  /** A tick: the new state, the completion event raised (if any) and the
      errors raised. */
  datatype Ticked<R> = Ticked(state: Updates, result: Option<R>, reports: seq<Report>)

  // ---------------------------------------------------------------------
  // Checking for an update

  /** The tests `ExecuteBeginCheckForSoftwareUpdates` makes on the
      refreshed configuration, in order. A version that does not parse
      raises its exception, which the client turns into `Failed`. */
  function CheckRules(st: UpdateStatus): (r: seq<Rule<BeginCheckResult>>)
    ensures |r| == 6
    ensures forall i | 0 <= i < |r| ::
      r[i].verdict != BeginCheckResult.Started && r[i].verdict != BeginCheckResult.CheckOrUpdateAlreadyInProgress
  {
    [Rule(st.updateState == UpdateAvailableToApply, BeginCheckResult.UpdateAlreadyAvailable),
     Rule(st.checkForUpdate, BeginCheckResult.BridgeIsBusyAndCannotCheckForUpdates),
     Rule(st.apiBefore14 != Done(false),
          if st.apiBefore14.Throws? then BeginCheckResult.Failed else BeginCheckResult.OldBridgeMustUseOfficialHueApp),
     Rule(!Platform.ToBool(st.signedOn), BeginCheckResult.NotConnectedToHuePortal),
     Rule(st.updateState == UpdateDownloading, BeginCheckResult.UpdateAlreadyDownloading),
     Rule(st.updateState != NoUpdate, BeginCheckResult.BridgeIsBusyAndCannotCheckForUpdates)]
  }

  /** `BeginCheckForSoftwareUpdates`: refused before initialisation and
      while the timer exists; otherwise the configuration is refreshed and
      the first test that holds answers; when none holds the bridge is
      asked to check, and on success the client marks the check as
      running and starts the timer with a zero count. */
  function BeginCheck(u: Updates, refreshed: Outcome<UpdateStatus>, answer: seq<Result>): (r: Began<BeginCheckResult>)
    ensures r.state.configured == u.configured
    ensures !u.configured || u.timer.Some? ==> r.state == u
    ensures r.result != BeginCheckResult.Started ==> r.state.timer == u.timer && r.state.counter == u.counter
    ensures r.result == BeginCheckResult.CheckOrUpdateAlreadyInProgress <==> u.configured && u.timer.Some?
  {
    if !u.configured then Began(u, BeginCheckResult.Failed, [Message(NotInitialized)])
    else if u.timer.Some? then Began(u, BeginCheckResult.CheckOrUpdateAlreadyInProgress, [])
    else if refreshed.Throws? then Began(u, BeginCheckResult.Failed, [Message(refreshed.exception)])
    else
      var st := refreshed.value;
      match Decide(CheckRules(st))
      case Some(v) =>
        DecideSome(CheckRules(st));
        Began(u.(status := st), v,
              if v == BeginCheckResult.Failed && st.apiBefore14.Throws? then [Message(st.apiBefore14.exception)] else [])
      case None =>
        if AllSucceeded(answer) then
          Began(u.(status := st.(checkForUpdate := true), timer := Some(Checking), counter := 0),
                BeginCheckResult.Started, Reports(answer))
        else Began(u.(status := st), BeginCheckResult.Failed, Reports(answer))
  }

  /** A check starts exactly when the client is initialised and idle, the
      refreshed bridge has no update and is not checking, runs API 1.4 or
      later, is signed on to the portal, and accepts the request; it then
      runs with a zero count and the check flag set. */
  lemma BeginCheckStarted(u: Updates, refreshed: Outcome<UpdateStatus>, answer: seq<Result>)
    ensures var b := BeginCheck(u, refreshed, answer);
      (b.result == BeginCheckResult.Started <==>
        u.configured && u.timer.None? && refreshed.Done? &&
        refreshed.value.updateState == NoUpdate && !refreshed.value.checkForUpdate &&
        refreshed.value.apiBefore14 == Done(false) && Platform.ToBool(refreshed.value.signedOn) &&
        AllSucceeded(answer)) &&
      (b.result == BeginCheckResult.Started ==>
        b.state.timer == Some(Checking) && b.state.counter == 0 && b.state.status.checkForUpdate)
  {
    if u.configured && u.timer.None? && refreshed.Done? {
      var rules := CheckRules(refreshed.value);
      if Decide(rules).Some? {
        DecideSome(rules);
        var i :| FirstApplying(rules, i) && Decide(rules).value == rules[i].verdict;
        assert i in {0, 1, 2, 3, 4, 5};
        assert rules[i].verdict != BeginCheckResult.Started;
      } else {
        assert !rules[0].applies && !rules[1].applies && !rules[2].applies;
        assert !rules[3].applies && !rules[4].applies && !rules[5].applies;
      }
    }
  }

  /** Once the client is initialised and idle, the answer is that of the
      first test that holds, and nothing but the configuration changes. */
  lemma BeginCheckOrder(u: Updates, st: UpdateStatus, answer: seq<Result>, i: int)
    requires u.configured && u.timer.None? && FirstApplying(CheckRules(st), i)
    ensures BeginCheck(u, Done(st), answer).result == CheckRules(st)[i].verdict
    ensures BeginCheck(u, Done(st), answer).state == u.(status := st)
  {
    DecideFirst(CheckRules(st), i);
  }

  /** `ExecuteCompleteCheckForSoftwareUpdate`: the check is over when the
      bridge has cleared its check flag; it then reports a lost portal
      connection when the bridge is not signed on, and completion
      otherwise. */
  function CheckCompletion(st: UpdateStatus): Option<CheckResult>
  {
    if st.checkForUpdate then None
    else if !Platform.ToBool(st.signedOn) then Some(CheckResult.LostConnectingToHuePortal)
    else Some(CheckResult.Completed)
  }

  /** A tick of the check's timer. With no timer it does nothing. A
      refresh that raises stops the timer, clears the check flag and
      reports `Failed`. Otherwise the count goes up; the timer stops, the
      check flag is cleared and the event raised when the count reaches
      the limit or the check is over for a reason other than a lost
      portal connection, which is reported with the timer left running. A
      time-out with no completion reports `TimedOut`. */
  function CheckTick(u: Updates, refreshed: Outcome<UpdateStatus>): (r: Ticked<CheckResult>)
    requires u.timer != Some(Applying)
    ensures r.state.timer != Some(Applying)
  {
    if u.timer.None? then Ticked(u, None, [])
    else if refreshed.Throws? then
      Ticked(u.(status := u.status.(checkForUpdate := false), timer := None), Some(CheckResult.Failed),
             [Message(refreshed.exception)])
    else
      var st := refreshed.value;
      var result := CheckCompletion(st);
      var n := u.counter + 1;
      if n * CheckInterval >= CheckLimit || (result.Some? && result.value != CheckResult.LostConnectingToHuePortal) then
        Ticked(u.(status := st.(checkForUpdate := false), timer := None, counter := n),
               if result.None? then Some(CheckResult.TimedOut) else result, [])
      else Ticked(u.(status := st, counter := n), result, [])
  }

  /** `n` ticks in a row that all see the refreshed configuration `st`;
      the event is the last tick's. */
  function CheckTicks(u: Updates, st: UpdateStatus, n: nat): (r: Ticked<CheckResult>)
    requires u.timer != Some(Applying)
    ensures r.state.timer != Some(Applying)
  {
    if n == 0 then Ticked(u, None, []) else CheckTick(CheckTicks(u, st, n - 1).state, Done(st))
  }

  /** A check the bridge never finishes runs for 60 ticks of five
      seconds: the timer runs and nothing is reported before the 60th
      tick, which stops it, clears the check flag and reports
      `TimedOut`. */
  lemma {:induction false} CheckTimesOut(u: Updates, st: UpdateStatus, n: nat)
    requires u.timer == Some(Checking) && u.counter == 0 && st.checkForUpdate && n <= 60
    ensures var r := CheckTicks(u, st, n);
      r.state.counter == n && (r.state.timer == Some(Checking) <==> n < 60) &&
      (n < 60 ==> r.result.None?) &&
      (n == 60 ==> r.state.timer.None? && r.result == Some(CheckResult.TimedOut) && !r.state.status.checkForUpdate)
  {
    if n > 0 {
      CheckTimesOut(u, st, n - 1);
    }
  }

  /** A lost portal connection is reported without stopping the timer
      while the limit is not reached; a completed check stops it. */
  lemma CheckLostConnectionKeepsRunning(u: Updates, st: UpdateStatus)
    requires u.timer == Some(Checking) && (u.counter + 1) * CheckInterval < CheckLimit
    requires !st.checkForUpdate
    ensures var r := CheckTick(u, Done(st));
      if Platform.ToBool(st.signedOn) then r.result == Some(CheckResult.Completed) && r.state.timer.None?
      else r.result == Some(CheckResult.LostConnectingToHuePortal) && r.state.timer == Some(Checking)
  {
    if !Platform.ToBool(st.signedOn) {
      assert CheckCompletion(st) == Some(CheckResult.LostConnectingToHuePortal);
    }
  }

  // ---------------------------------------------------------------------
  // Applying an update

  /** The tests `ExecuteBeginApplySoftwareUpdates` makes on the refreshed
      configuration, in order. */
  function ApplyRules(st: UpdateStatus): (r: seq<Rule<BeginApplyResult>>)
    ensures |r| == 3
    ensures forall i | 0 <= i < |r| ::
      r[i].verdict != BeginApplyResult.Started && r[i].verdict != BeginApplyResult.CheckOrUpdateAlreadyInProgress &&
      r[i].verdict != BeginApplyResult.Failed
  {
    [Rule(st.updateState == UpdateDownloading, BeginApplyResult.UpdateStillDownloading),
     Rule(st.updateState == ApplyingUpdate, BeginApplyResult.UpdateAlreadyBeingApplied),
     Rule(st.updateState == NoUpdate, BeginApplyResult.NoUpdateAvailable)]
  }

  /** `BeginApplySoftwareUpdates`: refused before initialisation and while
      the timer exists; otherwise the configuration is refreshed and the
      first test that holds answers; when none holds the bridge is asked
      to apply the update, and on success the timer starts with a zero
      count. */
  function BeginApply(u: Updates, refreshed: Outcome<UpdateStatus>, answer: seq<Result>): (r: Began<BeginApplyResult>)
    ensures r.state.configured == u.configured
    ensures !u.configured || u.timer.Some? ==> r.state == u
    ensures r.result != BeginApplyResult.Started ==> r.state.timer == u.timer && r.state.counter == u.counter
    ensures r.result == BeginApplyResult.CheckOrUpdateAlreadyInProgress <==> u.configured && u.timer.Some?
  {
    if !u.configured then Began(u, BeginApplyResult.Failed, [Message(NotInitialized)])
    else if u.timer.Some? then Began(u, BeginApplyResult.CheckOrUpdateAlreadyInProgress, [])
    else if refreshed.Throws? then Began(u, BeginApplyResult.Failed, [Message(refreshed.exception)])
    else
      var st := refreshed.value;
      match Decide(ApplyRules(st))
      case Some(v) =>
        DecideSome(ApplyRules(st));
        Began(u.(status := st), v, [])
      case None =>
        if AllSucceeded(answer) then
          Began(u.(status := st, timer := Some(Applying), counter := 0), BeginApplyResult.Started, Reports(answer))
        else Began(u.(status := st), BeginApplyResult.Failed, Reports(answer))
  }

  /** An update is applied exactly when the client is initialised and
      idle, the refreshed bridge's update state is none of "no update",
      "downloading" and "applying", and the bridge accepts the request. */
  lemma BeginApplyStarted(u: Updates, refreshed: Outcome<UpdateStatus>, answer: seq<Result>)
    ensures var b := BeginApply(u, refreshed, answer);
      (b.result == BeginApplyResult.Started <==>
        u.configured && u.timer.None? && refreshed.Done? &&
        refreshed.value.updateState !in {NoUpdate, UpdateDownloading, ApplyingUpdate} && AllSucceeded(answer)) &&
      (b.result == BeginApplyResult.Started ==> b.state.timer == Some(Applying) && b.state.counter == 0)
  {
    if u.configured && u.timer.None? && refreshed.Done? {
      var rules := ApplyRules(refreshed.value);
      if Decide(rules).Some? {
        DecideSome(rules);
        var i :| FirstApplying(rules, i) && Decide(rules).value == rules[i].verdict;
        assert i in {0, 1, 2};
        assert rules[i].verdict != BeginApplyResult.Started;
      } else {
        assert !rules[0].applies && !rules[1].applies && !rules[2].applies;
      }
    }
  }

  /** Once the client is initialised and idle, the answer is that of the
      first test that holds. */
  lemma BeginApplyOrder(u: Updates, st: UpdateStatus, answer: seq<Result>, i: int)
    requires u.configured && u.timer.None? && FirstApplying(ApplyRules(st), i)
    ensures BeginApply(u, Done(st), answer).result == ApplyRules(st)[i].verdict
    ensures BeginApply(u, Done(st), answer).state == u.(status := st)
  {
    DecideFirst(ApplyRules(st), i);
  }

  /** `ExecuteCompleteApplySoftwareUpdate`: the update is over once the
      bridge sets its notify flag. */
  function ApplyCompletion(st: UpdateStatus): Option<ApplyResult>
  {
    if st.notify then Some(ApplyResult.Completed) else None
  }

  /** A tick of the apply timer. A refresh that raises stops the timer,
      clears the check flag and reports `Failed`. Otherwise the count
      goes up; on completion or when the count reaches the limit the
      client asks the bridge to clear its notify flag (`answer` is the
      bridge's answer) and clears its own copy when every result
      succeeded, the timer stops and the event is raised, `TimedOut...`
      when the update did not complete. */
  function ApplyTick(u: Updates, refreshed: Outcome<UpdateStatus>, answer: seq<Result>): (r: Ticked<ApplyResult>)
    requires u.timer == Some(Applying)
    ensures r.state.timer.Some? ==> r.state.timer == Some(Applying)
  {
    if refreshed.Throws? then
      Ticked(u.(status := u.status.(checkForUpdate := false), timer := None), Some(ApplyResult.Failed),
             [Message(refreshed.exception)])
    else
      var st := refreshed.value;
      var result := ApplyCompletion(st);
      var n := u.counter + 1;
      if n * ApplyInterval >= ApplyLimit || result == Some(ApplyResult.Completed) then
        Ticked(u.(status := if AllSucceeded(answer) then st.(notify := false) else st, timer := None, counter := n),
               if result.None? then Some(ApplyResult.TimedOutWaitingForUpdateToComplete) else result, Reports(answer))
      else Ticked(u.(status := st, counter := n), result, [])
  }

  /** A tick that sees the bridge's notify flag raised completes the
      update whatever the count: the timer stops, `Completed` is raised,
      the bridge's answer to clearing its flag is reported, and the
      client's copy of the flag is cleared exactly when every result of
      that answer succeeded. */
  lemma ApplyCompletes(u: Updates, st: UpdateStatus, answer: seq<Result>)
    requires u.timer == Some(Applying) && st.notify
    ensures var r := ApplyTick(u, Done(st), answer);
      r.state.timer.None? && r.result == Some(ApplyResult.Completed) &&
      r.state.counter == u.counter + 1 && r.reports == Reports(answer) &&
      r.state.configured == u.configured &&
      (AllSucceeded(answer) ==> r.state.status == st.(notify := false)) &&
      (!AllSucceeded(answer) ==> r.state.status == st)
  {
  }

  /** A tick whose refresh raises ends the update as `Failed`: the timer
      stops, the check flag is cleared, the rest of the status and the
      count are kept and the exception is reported. */
  lemma ApplyRefreshFails(u: Updates, e: string, answer: seq<Result>)
    requires u.timer == Some(Applying)
    ensures var r := ApplyTick(u, Throws(e), answer);
      r.state.timer.None? && r.result == Some(ApplyResult.Failed) &&
      r.state.status == u.status.(checkForUpdate := false) &&
      r.state.counter == u.counter && r.state.configured == u.configured &&
      r.reports == [Message(e)]
  {
  }

  /** A tick before the limit that does not see the notify flag only
      counts and keeps the refreshed status; nothing is raised. */
  lemma ApplyWaits(u: Updates, st: UpdateStatus, answer: seq<Result>)
    requires u.timer == Some(Applying) && !st.notify && (u.counter + 1) * ApplyInterval < ApplyLimit
    ensures var r := ApplyTick(u, Done(st), answer);
      r.state == u.(status := st, counter := u.counter + 1) && r.result.None? && r.reports == []
  {
  }

  /** `n` ticks in a row that all see `st`, as long as the timer runs;
      the bridge answers the request to clear its notify flag with no
      results. */
  function ApplyTicks(u: Updates, st: UpdateStatus, n: nat): (r: Ticked<ApplyResult>)
    requires u.timer == Some(Applying)
    ensures r.state.timer.Some? ==> r.state.timer == Some(Applying)
  {
    if n == 0 then Ticked(u, None, [])
    else
      var before := ApplyTicks(u, st, n - 1);
      if before.state.timer.None? then before else ApplyTick(before.state, Done(st), [])
  }

  /** An update that never completes is waited for 900 ticks of one
      second; the 900th stops the timer and reports the time-out. */
  lemma {:induction false} ApplyTimesOut(u: Updates, st: UpdateStatus, n: nat)
    requires u.timer == Some(Applying) && u.counter == 0 && !st.notify && n <= 900
    ensures var r := ApplyTicks(u, st, n);
      r.state.counter == n && (r.state.timer == Some(Applying) <==> n < 900) &&
      (n < 900 ==> r.result.None?) &&
      (n == 900 ==> r.result == Some(ApplyResult.TimedOutWaitingForUpdateToComplete))
  {
    if n > 0 {
      ApplyTimesOut(u, st, n - 1);
    }
  }

  // ---------------------------------------------------------------------
  // The client

  /** The client's software-update state, updated in place by the begin
      methods and the timer ticks. */
  class SoftwareUpdater {
    var configured: bool
    var status: UpdateStatus
    var timer: Option<Job>
    var counter: int

    function Contents(): Updates
      reads this
    {
      Updates(configured, status, timer, counter)
    }

    constructor (configured: bool, status: UpdateStatus)
      ensures Contents() == Updates(configured, status, None, 0)
    {
      this.configured := configured;
      this.status := status;
      timer := None;
      counter := 0;
    }

    /** `BeginCheckForSoftwareUpdates`. */
    method BeginCheckForSoftwareUpdates(channel: ErrorChannel, refreshed: Outcome<UpdateStatus>, answer: seq<Result>)
      returns (result: BeginCheckResult)
      modifies this, channel
      ensures var b := BeginCheck(old(Contents()), refreshed, answer);
        Contents() == b.state && result == b.result && channel.raised == old(channel.raised) + b.reports
    {
      if !configured {
        channel.Raise(Message(NotInitialized));
        return BeginCheckResult.Failed;
      }
      if timer.Some? {
        return BeginCheckResult.CheckOrUpdateAlreadyInProgress;
      }
      if refreshed.Throws? {
        channel.Raise(Message(refreshed.exception));
        return BeginCheckResult.Failed;
      }
      status := refreshed.value;
      if status.updateState == UpdateAvailableToApply {
        DecideFirst(CheckRules(status), 0);
        return BeginCheckResult.UpdateAlreadyAvailable;
      }
      if status.checkForUpdate {
        DecideFirst(CheckRules(status), 1);
        return BeginCheckResult.BridgeIsBusyAndCannotCheckForUpdates;
      }
      if status.apiBefore14.Throws? {
        DecideFirst(CheckRules(status), 2);
        channel.Raise(Message(status.apiBefore14.exception));
        return BeginCheckResult.Failed;
      }
      if status.apiBefore14.value {
        DecideFirst(CheckRules(status), 2);
        return BeginCheckResult.OldBridgeMustUseOfficialHueApp;
      }
      if !Platform.ToBool(status.signedOn) {
        DecideFirst(CheckRules(status), 3);
        return BeginCheckResult.NotConnectedToHuePortal;
      }
      if status.updateState == UpdateDownloading {
        DecideFirst(CheckRules(status), 4);
        return BeginCheckResult.UpdateAlreadyDownloading;
      }
      if status.updateState != NoUpdate {
        DecideFirst(CheckRules(status), 5);
        return BeginCheckResult.BridgeIsBusyAndCannotCheckForUpdates;
      }
      var accepted := channel.ParseResults(answer);
      if !accepted {
        return BeginCheckResult.Failed;
      }
      status := status.(checkForUpdate := true);
      counter := 0;
      timer := Some(Checking);
      result := BeginCheckResult.Started;
    }

    /** The check timer's callback. */
    method CheckTimerElapsed(channel: ErrorChannel, refreshed: Outcome<UpdateStatus>) returns (completed: Option<CheckResult>)
      requires timer != Some(Applying)
      modifies this, channel
      ensures var t := CheckTick(old(Contents()), refreshed);
        Contents() == t.state && completed == t.result && channel.raised == old(channel.raised) + t.reports
    {
      if timer.None? {
        return None;
      }
      if refreshed.Throws? {
        status := status.(checkForUpdate := false);
        timer := None;
        channel.Raise(Message(refreshed.exception));
        return Some(CheckResult.Failed);
      }
      status := refreshed.value;
      completed := CheckCompletion(status);
      counter := counter + 1;
      var timedOut := counter * CheckInterval >= CheckLimit;
      if timedOut || (completed.Some? && completed.value != CheckResult.LostConnectingToHuePortal) {
        status := status.(checkForUpdate := false);
        timer := None;
        if completed.None? {
          completed := Some(CheckResult.TimedOut);
        }
      }
    }

    /** `BeginApplySoftwareUpdates`. */
    method BeginApplySoftwareUpdates(channel: ErrorChannel, refreshed: Outcome<UpdateStatus>, answer: seq<Result>)
      returns (result: BeginApplyResult)
      modifies this, channel
      ensures var b := BeginApply(old(Contents()), refreshed, answer);
        Contents() == b.state && result == b.result && channel.raised == old(channel.raised) + b.reports
    {
      if !configured {
        channel.Raise(Message(NotInitialized));
        return BeginApplyResult.Failed;
      }
      if timer.Some? {
        return BeginApplyResult.CheckOrUpdateAlreadyInProgress;
      }
      if refreshed.Throws? {
        channel.Raise(Message(refreshed.exception));
        return BeginApplyResult.Failed;
      }
      status := refreshed.value;
      if status.updateState == UpdateDownloading {
        DecideFirst(ApplyRules(status), 0);
        return BeginApplyResult.UpdateStillDownloading;
      }
      if status.updateState == ApplyingUpdate {
        DecideFirst(ApplyRules(status), 1);
        return BeginApplyResult.UpdateAlreadyBeingApplied;
      }
      if status.updateState == NoUpdate {
        DecideFirst(ApplyRules(status), 2);
        return BeginApplyResult.NoUpdateAvailable;
      }
      var accepted := channel.ParseResults(answer);
      if !accepted {
        return BeginApplyResult.Failed;
      }
      counter := 0;
      timer := Some(Applying);
      result := BeginApplyResult.Started;
    }

    /** The apply timer's callback. */
    method ApplyTimerElapsed(channel: ErrorChannel, refreshed: Outcome<UpdateStatus>, answer: seq<Result>)
      returns (completed: Option<ApplyResult>)
      requires timer == Some(Applying)
      modifies this, channel
      ensures var t := ApplyTick(old(Contents()), refreshed, answer);
        Contents() == t.state && completed == t.result && channel.raised == old(channel.raised) + t.reports
    {
      if refreshed.Throws? {
        status := status.(checkForUpdate := false);
        timer := None;
        channel.Raise(Message(refreshed.exception));
        return Some(ApplyResult.Failed);
      }
      status := refreshed.value;
      completed := ApplyCompletion(status);
      counter := counter + 1;
      var timedOut := counter * ApplyInterval >= ApplyLimit;
      if timedOut || completed == Some(ApplyResult.Completed) {
        var cleared := channel.ParseResults(answer);
        if cleared {
          status := status.(notify := false);
        }
        timer := None;
        if completed.None? {
          completed := Some(ApplyResult.TimedOutWaitingForUpdateToComplete);
        }
      }
    }
  }
}

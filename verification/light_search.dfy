/** The asynchronous search for new lights. The begin method asks the
    bridge to search and, when the bridge confirms, installs a timer with
    a zero count and an empty list of the ids seen so far, whether or not
    a search is already running. Each tick reads the bridge's list of new
    lights: its `lastscan` entry says whether the scan is still active,
    did not run, or finished; every other entry is a light found, whose
    id is added to the list and announced with its name. The timer stops
    once the scan has an outcome or the count reaches the 65-second
    limit, and a finished scan with lights found asks for those lights to
    be refreshed and the list re-sorted.

    The bridge's answers enter decoded: a results array for the begin
    request; for a tick, the answer text, its elements when it decodes as
    an array, and its members in order when it decodes as an object. */
module LightSearches {
  import opened Common
  import opened BridgeResults

  /** The address the bridge confirms a search under (`"/" + Api` of the
      lights). */
  const LightsAddress := "/lights"
  const LastScanKey := "lastscan"

  /** One tick a second, for about 65 seconds. */
  const SearchInterval := 1000
  const SearchLimit := 65 * 1000

  const NotInitialized := "Initialize not called"
  const BeginFailedMessage := "Failed to begin search for new lights"
  const UnexpectedPrefix := "Unexpected response while searching for new lights: "
  const NotStartedMessage := "Searching for new lights did not start or complete; Make sure the bridge is stays powered on"

  datatype BeginSearchResult = Failed | Started
  datatype SearchResult = Failed | Completed

  /** A member value of the new-lights answer as the decoder gives it: a
      date (the decoder turns date-like text into one), other text, an
      object (a light, with its `name` if it has one), null, or anything
      else. */
  datatype NewValue = DateValue | TextValue(s: string) | ObjectValue(name: Option<string>) | NullValue | OtherValue

  /** The client's side of the search: whether it was initialised, the
      timer, its tick count and the ids found so far. */
  datatype Search = Search(configured: bool, timerPresent: bool, counter: int, ids: seq<string>)

  datatype SearchBegan = SearchBegan(state: Search, result: BeginSearchResult, reports: seq<Report>)

  /** A tick: the new state, the completion event (if any), the errors
      raised, the lights announced as (id, name), and the ids of the
      lights to refresh. */
  datatype SearchTicked = SearchTicked(state: Search, result: Option<SearchResult>, reports: seq<Report>,
                                       found: seq<(string, string)>, refresh: seq<string>)

  // ---------------------------------------------------------------------
  // Beginning a search

  /** A successful result that does not confirm the search under the
      lights' address. */
  predicate Unconfirmed(r: Result)
  {
    r.error.None? && r.success.Some? && LightsAddress !in r.success.value
  }

  predicate AnyUnconfirmed(answer: seq<Result>)
  {
    exists i | 0 <= i < |answer| :: Unconfirmed(answer[i])
  }

  /** `BeginSearchForNewLightBulbs`: refused before initialisation; a
      failed result, or a successful one that does not name the lights'
      address, fails the search; otherwise a new timer starts with a zero
      count and no ids found. There is no test for a search already
      running. */
  function BeginSearch(s: Search, answer: seq<Result>): (r: SearchBegan)
    ensures r.result == BeginSearchResult.Started <==> s.configured && AllSucceeded(answer) && !AnyUnconfirmed(answer)
    ensures r.result == BeginSearchResult.Failed ==> r.state == s && r.reports != []
    ensures r.result == BeginSearchResult.Started ==> r.state == Search(true, true, 0, [])
  {
    if !s.configured then SearchBegan(s, BeginSearchResult.Failed, [Message(NotInitialized)])
    else if !AllSucceeded(answer) then
      ReportsCount(answer);
      SearchBegan(s, BeginSearchResult.Failed, Reports(answer))
    else if AnyUnconfirmed(answer) then
      SearchBegan(s, BeginSearchResult.Failed, Reports(answer) + [Message(BeginFailedMessage)])
    else SearchBegan(Search(true, true, 0, []), BeginSearchResult.Started, Reports(answer))
  }

  /** A begin while a search runs starts the search afresh: the answer
      and the new state do not depend on whether a timer was running. */
  lemma BeginSearchRestarts(s: Search, answer: seq<Result>)
    requires s.configured && AllSucceeded(answer) && !AnyUnconfirmed(answer)
    ensures var b := BeginSearch(s, answer);
      b.result == BeginSearchResult.Started && b.state == Search(true, true, 0, []) && b.reports == []
  {
    ReportsCount(answer);
  }

  /** The loop of `ExecuteBeginSearchForNewLightBulbs` over the results:
      whether every one confirms the search. */
  method AllConfirmed(answer: seq<Result>) returns (confirmed: bool)
    ensures confirmed <==> !AnyUnconfirmed(answer)
  {
    var i := 0;
    while i < |answer|
      invariant 0 <= i <= |answer|
      invariant forall k | 0 <= k < i :: !Unconfirmed(answer[k])
    {
      if answer[i].error.None? && answer[i].success.Some? {
        if LightsAddress !in answer[i].success.value {
          return false;
        }
      }
      i := i + 1;
    }
    return true;
  }

  // ---------------------------------------------------------------------
  // Reading the new-lights answer

  /** What the walk over the new-lights answer has gathered: the outcome
      so far, the ids found (across ticks), the lights announced, the
      errors raised and the exception that stopped it, if any. */
  datatype Scan = Scan(result: Option<SearchResult>, ids: seq<string>, found: seq<(string, string)>,
                       reports: seq<Report>, exception: Option<string>)

  /** The walk of `ExecuteCompleteSearchForNewLightBulbs` over the
      answer's members, in order. For `lastscan`: a date stops the walk;
      "none" or a value that is not text raise an error and make the
      outcome `Failed`; "active" changes nothing; any other text makes it
      `Completed`. Any other member is a light: its id is added, then its
      value must be an object (null raises a null-reference exception,
      anything else an invalid cast, which stop the walk), and a light
      with a name is announced. */
  function ScanEntries(response: string, entries: seq<(string, NewValue)>, acc: Scan): (r: Scan)
    requires acc.exception.None?
    ensures acc.found <= r.found && acc.reports <= r.reports && acc.ids <= r.ids
    ensures acc.result.Some? ==> r.result.Some?
    ensures r.exception.Some? ==> r.exception.value in {"NullReferenceException", "InvalidCastException"}
    decreases |entries|
  {
    if entries == [] then acc
    else
      var key, value := entries[0].0, entries[0].1;
      if key == LastScanKey then
        if value.DateValue? then acc
        else if !value.TextValue? then
          ScanEntries(response, entries[1..],
                      acc.(result := Some(SearchResult.Failed), reports := acc.reports + [Message(UnexpectedPrefix + response)]))
        else if value.s == "none" then
          ScanEntries(response, entries[1..],
                      acc.(result := Some(SearchResult.Failed), reports := acc.reports + [Message(NotStartedMessage)]))
        else if value.s == "active" then ScanEntries(response, entries[1..], acc)
        else ScanEntries(response, entries[1..], acc.(result := Some(SearchResult.Completed)))
      else if value.ObjectValue? then
        ScanEntries(response, entries[1..],
                    acc.(ids := acc.ids + [key],
                         found := if value.name.Some? then acc.found + [(key, value.name.value)] else acc.found))
      else
        acc.(ids := acc.ids + [key],
             exception := Some(if value.NullValue? then "NullReferenceException" else "InvalidCastException"))
  }

  /** A `lastscan` date ends the walk: nothing after it is read. */
  lemma {:induction false} ScanStopsAtDate(response: string, pre: seq<(string, NewValue)>,
                                           post: seq<(string, NewValue)>, acc: Scan)
    requires acc.exception.None?
    ensures ScanEntries(response, pre + [(LastScanKey, DateValue)] + post, acc) == ScanEntries(response, pre, acc)
    decreases |pre|
  {
    var all := pre + [(LastScanKey, DateValue)] + post;
    if pre == [] {
      assert all[0] == (LastScanKey, DateValue);
    } else {
      assert all[0] == pre[0];
      assert all[1..] == pre[1..] + [(LastScanKey, DateValue)] + post;
      var key, value := pre[0].0, pre[0].1;
      if key == LastScanKey {
        if !value.DateValue? {
          var next :=
            if !value.TextValue? then acc.(result := Some(SearchResult.Failed), reports := acc.reports + [Message(UnexpectedPrefix + response)])
            else if value.s == "none" then acc.(result := Some(SearchResult.Failed), reports := acc.reports + [Message(NotStartedMessage)])
            else if value.s == "active" then acc
            else acc.(result := Some(SearchResult.Completed));
          ScanStopsAtDate(response, pre[1..], post, next);
        }
      } else if value.ObjectValue? {
        ScanStopsAtDate(response, pre[1..], post,
          acc.(ids := acc.ids + [key], found := if value.name.Some? then acc.found + [(key, value.name.value)] else acc.found));
      }
    }
  }

  /** Member `k` is a `lastscan` naming a finished scan. */
  predicate FinishedAt(entries: seq<(string, NewValue)>, k: int)
  {
    0 <= k < |entries| && entries[k].0 == LastScanKey && entries[k].1.TextValue? &&
    entries[k].1.s != "none" && entries[k].1.s != "active"
  }

  /** `id` is the key of a member other than `lastscan`. */
  predicate LightKey(entries: seq<(string, NewValue)>, id: string)
  {
    id != LastScanKey && exists k | 0 <= k < |entries| :: entries[k].0 == id
  }

  /** The walk only completes on a `lastscan` that names a finished scan,
      and only adds ids of light members, after the ids it had. */
  lemma {:induction false} ScanFacts(response: string, entries: seq<(string, NewValue)>, acc: Scan)
    requires acc.exception.None?
    ensures var r := ScanEntries(response, entries, acc);
      (r.result == Some(SearchResult.Completed) ==>
        acc.result == Some(SearchResult.Completed) || exists k :: FinishedAt(entries, k)) &&
      |acc.ids| <= |r.ids| && r.ids[..|acc.ids|] == acc.ids &&
      (forall k | |acc.ids| <= k < |r.ids| :: LightKey(entries, r.ids[k]))
    decreases |entries|
  {
    if entries != [] {
      var key, value := entries[0].0, entries[0].1;
      var rest := entries[1..];
      var r := ScanEntries(response, entries, acc);
      if key == LastScanKey {
        if !value.DateValue? {
          var next :=
            if !value.TextValue? then acc.(result := Some(SearchResult.Failed), reports := acc.reports + [Message(UnexpectedPrefix + response)])
            else if value.s == "none" then acc.(result := Some(SearchResult.Failed), reports := acc.reports + [Message(NotStartedMessage)])
            else if value.s == "active" then acc
            else acc.(result := Some(SearchResult.Completed));
          ScanFacts(response, rest, next);
          LightKeysGrow(entries, r.ids[|acc.ids|..]);
          if r.result == Some(SearchResult.Completed) && acc.result != Some(SearchResult.Completed) {
            if next.result == Some(SearchResult.Completed) {
              assert FinishedAt(entries, 0);
            } else {
              var k :| FinishedAt(rest, k);
              assert FinishedAt(entries, k + 1);
            }
          }
        }
      } else {
        var next := acc.(ids := acc.ids + [key]);
        assert LightKey(entries, key) by {
          assert entries[0].0 == key;
        }
        if value.ObjectValue? {
          var next' := next.(found := if value.name.Some? then acc.found + [(key, value.name.value)] else acc.found);
          ScanFacts(response, rest, next');
          forall k | |acc.ids| <= k < |r.ids| ensures LightKey(entries, r.ids[k]) {
            if k > |acc.ids| {
              var j :| 0 <= j < |rest| && rest[j].0 == r.ids[k];
              assert entries[j + 1].0 == r.ids[k];
            } else {
              assert r.ids[k] == r.ids[..|next.ids|][k];
            }
          }
          if r.result == Some(SearchResult.Completed) && acc.result != Some(SearchResult.Completed) {
            var k :| FinishedAt(rest, k);
            assert FinishedAt(entries, k + 1);
          }
        }
      }
    }
  }

  /** A light key of the later members is a light key of the whole
      answer. */
  lemma LightKeysGrow(entries: seq<(string, NewValue)>, added: seq<string>)
    requires entries != [] && forall k | 0 <= k < |added| :: LightKey(entries[1..], added[k])
    ensures forall k | 0 <= k < |added| :: LightKey(entries, added[k])
  {
    forall k | 0 <= k < |added| ensures LightKey(entries, added[k]) {
      var j :| 0 <= j < |entries[1..]| && entries[1..][j].0 == added[k];
      assert entries[j + 1].0 == added[k];
    }
  }

  // ---------------------------------------------------------------------
  // A tick

  /** The end of a tick that read the answer: the count goes up, and the
      timer stops when there is an outcome or the count reaches the
      limit, a time-out counting as `Completed`. */
  function Finish(s: Search, result: Option<SearchResult>, reports: seq<Report>,
                  found: seq<(string, string)>, refresh: seq<string>): (r: SearchTicked)
    ensures r.state == s.(timerPresent := r.state.timerPresent, counter := s.counter + 1)
    ensures r.reports == reports && r.found == found && r.refresh == refresh
    ensures result.Some? ==> r.result == result && !r.state.timerPresent
    ensures (s.counter + 1) * SearchInterval >= SearchLimit ==> r.result.Some? && !r.state.timerPresent
    ensures r.result.Some? ==> !r.state.timerPresent
  {
    var n := s.counter + 1;
    if n * SearchInterval >= SearchLimit || result.Some? then
      SearchTicked(s.(timerPresent := false, counter := n),
                   if result.None? then Some(SearchResult.Completed) else result, reports, found, refresh)
    else SearchTicked(s.(counter := n), result, reports, found, refresh)
  }

  /** The rest of a tick once the answer has been walked: an exception
      stops the timer, is raised and reports `Failed`; otherwise the tick
      ends as `Finish` says, and a completed scan with ids found asks for
      those lights to be refreshed. */
  function AfterScan(s: Search, scan: Scan): (r: SearchTicked)
    ensures r.state.ids == scan.ids && r.found == scan.found && scan.reports <= r.reports
    ensures scan.exception.Some? ==> r.result == Some(SearchResult.Failed) && !r.state.timerPresent && r.refresh == []
    ensures r.refresh != [] ==> r.refresh == scan.ids && r.result == Some(SearchResult.Completed) && !r.state.timerPresent
  {
    if scan.exception.Some? then
      SearchTicked(s.(timerPresent := false, ids := scan.ids), Some(SearchResult.Failed),
                   scan.reports + [Message(scan.exception.value)], scan.found, [])
    else
      Finish(s.(ids := scan.ids), scan.result, scan.reports, scan.found,
             if scan.result == Some(SearchResult.Completed) && |scan.ids| > 0 then scan.ids else [])
  }

  /** A tick of the search timer. With no timer it does nothing. The
      errors of the answer are raised first; an answer that reports errors
      makes the outcome `Failed`, any other is walked. */
  function SearchTick(s: Search, response: string, decoded: Option<seq<Element>>,
                      entries: seq<(string, NewValue)>): (r: SearchTicked)
    ensures !s.timerPresent ==> r == SearchTicked(s, None, [], [], [])
    ensures s.timerPresent ==> r.state.counter <= s.counter + 1 && s.ids <= r.state.ids
    ensures r.result.Some? ==> !r.state.timerPresent
    ensures r.refresh != [] ==> r.result == Some(SearchResult.Completed) && r.refresh == r.state.ids
  {
    if !s.timerPresent then SearchTicked(s, None, [], [], [])
    else
      var errors := AnswerReports(response, decoded);
      if ErrorAnswer(response, decoded) then Finish(s, Some(SearchResult.Failed), errors, [], [])
      else
        var t := AfterScan(s, ScanEntries(response, entries, Scan(None, s.ids, [], [], None)));
        t.(reports := errors + t.reports)
  }

  /** The answer of a bridge still scanning and with no new light. */
  const StillActive: seq<(string, NewValue)> := [(LastScanKey, TextValue("active"))]

  /** `n` ticks in a row that all read a still-active scan. */
  function SearchTicks(s: Search, response: string, decoded: Option<seq<Element>>, n: nat): SearchTicked
  {
    if n == 0 then SearchTicked(s, None, [], [], [])
    else SearchTick(SearchTicks(s, response, decoded, n - 1).state, response, decoded, StillActive)
  }

  /** A scan that stays active is waited for 65 ticks of one second; the
      65th stops the timer and reports the search as `Completed`, with no
      light to refresh. */
  lemma {:induction false} SearchTimesOut(s: Search, response: string, decoded: Option<seq<Element>>, n: nat)
    requires s.timerPresent && s.counter == 0 && !ErrorAnswer(response, decoded) && n <= 65
    ensures var r := SearchTicks(s, response, decoded, n);
      r.state.counter == n && r.state.ids == s.ids && (r.state.timerPresent <==> n < 65) &&
      (n < 65 ==> r.result.None?) &&
      (n == 65 ==> r.result == Some(SearchResult.Completed) && r.refresh == [])
  {
    if n > 0 {
      SearchTimesOut(s, response, decoded, n - 1);
      var before := SearchTicks(s, response, decoded, n - 1).state;
      var acc := Scan(None, before.ids, [], [], None);
      assert ScanEntries(response, StillActive, acc) == acc by {
        assert StillActive[1..] == [];
      }
    }
  }

  // ---------------------------------------------------------------------
  // The client

  /** The client's search state, updated in place by the begin method
      and the timer ticks. */
  class LightSearch {
    var configured: bool
    var timerPresent: bool
    var counter: int
    var ids: seq<string>

    function Contents(): Search
      reads this
    {
      Search(configured, timerPresent, counter, ids)
    }

    constructor (configured: bool)
      ensures Contents() == Search(configured, false, 0, [])
    {
      this.configured := configured;
      timerPresent := false;
      counter := 0;
      ids := [];
    }

    /** `BeginSearchForNewLightBulbs`. */
    method BeginSearchForNewLightBulbs(channel: ErrorChannel, answer: seq<Result>) returns (result: BeginSearchResult)
      modifies this, channel
      ensures var b := BeginSearch(old(Contents()), answer);
        Contents() == b.state && result == b.result && channel.raised == old(channel.raised) + b.reports
    {
      if !configured {
        channel.Raise(Message(NotInitialized));
        return BeginSearchResult.Failed;
      }
      var success := channel.ParseResults(answer);
      if !success {
        return BeginSearchResult.Failed;
      }
      var confirmed := AllConfirmed(answer);
      if !confirmed {
        channel.Raise(Message(BeginFailedMessage));
        return BeginSearchResult.Failed;
      }
      counter := 0;
      ids := [];
      timerPresent := true;
      result := BeginSearchResult.Started;
    }

    /** The walk over the new-lights answer, adding the ids found to the
        list kept across ticks. */
    method ScanNewLights(channel: ErrorChannel, response: string, entries: seq<(string, NewValue)>)
      returns (result: Option<SearchResult>, found: seq<(string, string)>, exception: Option<string>)
      modifies this, channel
      ensures var r := ScanEntries(response, entries, Scan(None, old(ids), [], [], None));
        ids == r.ids && result == r.result && found == r.found && exception == r.exception &&
        channel.raised == old(channel.raised) + r.reports
      ensures configured == old(configured) && timerPresent == old(timerPresent) && counter == old(counter)
    {
      ghost var goal := ScanEntries(response, entries, Scan(None, ids, [], [], None));
      result, found, exception := None, [], None;
      ghost var reports: seq<Report> := [];
      var i := 0;
      while i < |entries|
        invariant 0 <= i <= |entries|
        invariant ScanEntries(response, entries[i..], Scan(result, ids, found, reports, None)) == goal
        invariant channel.raised == old(channel.raised) + reports
        invariant exception.None?
        invariant configured == old(configured) && timerPresent == old(timerPresent) && counter == old(counter)
      {
        var key, value := entries[i].0, entries[i].1;
        assert entries[i..][0] == entries[i] && entries[i..][1..] == entries[i + 1..];
        if key == LastScanKey {
          if value.DateValue? {
            break;
          }
          if !value.TextValue? {
            channel.Raise(Message(UnexpectedPrefix + response));
            reports := reports + [Message(UnexpectedPrefix + response)];
            result := Some(SearchResult.Failed);
          } else if value.s == "none" {
            channel.Raise(Message(NotStartedMessage));
            reports := reports + [Message(NotStartedMessage)];
            result := Some(SearchResult.Failed);
          } else if value.s != "active" {
            result := Some(SearchResult.Completed);
          }
        } else {
          ids := ids + [key];
          if !value.ObjectValue? {
            exception := Some(if value.NullValue? then "NullReferenceException" else "InvalidCastException");
            return;
          }
          if value.name.Some? {
            found := found + [(key, value.name.value)];
          }
        }
        i := i + 1;
      }
    }

    /** The search timer's callback. */
    method SearchTimerElapsed(channel: ErrorChannel, response: string, decoded: Option<seq<Element>>,
                              entries: seq<(string, NewValue)>)
      returns (completed: Option<SearchResult>, found: seq<(string, string)>, refresh: seq<string>)
      modifies this, channel
      ensures var t := SearchTick(old(Contents()), response, decoded, entries);
        Contents() == t.state && completed == t.result && found == t.found && refresh == t.refresh &&
        channel.raised == old(channel.raised) + t.reports
    {
      found, refresh := [], [];
      if !timerPresent {
        return None, [], [];
      }
      var anyErrors := channel.CheckForErrors(response, decoded);
      if anyErrors {
        completed := CountTick(Some(SearchResult.Failed));
      } else {
        completed, found, refresh := ReadNewLights(channel, response, entries);
      }
    }

    /** The walk over the answer and the rest of the tick, as `AfterScan`
        states it. */
    method ReadNewLights(channel: ErrorChannel, response: string, entries: seq<(string, NewValue)>)
      returns (completed: Option<SearchResult>, found: seq<(string, string)>, refresh: seq<string>)
      modifies this, channel
      ensures var t := AfterScan(old(Contents()), ScanEntries(response, entries, Scan(None, old(ids), [], [], None)));
        Contents() == t.state && completed == t.result && found == t.found && refresh == t.refresh &&
        channel.raised == old(channel.raised) + t.reports
    {
      var exception;
      completed, found, exception := ScanNewLights(channel, response, entries);
      if exception.Some? {
        timerPresent := false;
        channel.Raise(Message(exception.value));
        return Some(SearchResult.Failed), found, [];
      }
      refresh := if completed == Some(SearchResult.Completed) && |ids| > 0 then ids else [];
      completed := CountTick(completed);
    }

    /** The end of a tick that read the answer, as `Finish` states it. */
    method CountTick(result: Option<SearchResult>) returns (completed: Option<SearchResult>)
      modifies this
      ensures var t := Finish(old(Contents()), result, [], [], []);
        Contents() == t.state && completed == t.result
    {
      completed := result;
      counter := counter + 1;
      var done := counter * SearchInterval >= SearchLimit;
      if done || completed.Some? {
        timerPresent := false;
        if completed.None? {
          completed := Some(SearchResult.Completed);
        }
      }
    }
  }
}

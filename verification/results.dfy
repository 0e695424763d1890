/** What the bridge answers to a request, and how the client reports the
    errors in it (`RaiseError`, `ParseResultsAndReportErrors`,
    `CheckForAndReportErrors`). The JSON text itself is decoded elsewhere;
    the answers here are the decoded values. */
module BridgeResults {
  import opened Common
  import opened Json
  import Text

  /** An error the bridge reports: its type number, the resource address
      and a description. */
  datatype Error = Error(errorType: int, address: string, description: string)

  /** One element of a results array: an error, a success map from
      resource address to the value the bridge now holds, or both or
      neither as decoded. */
  datatype Result = Result(error: Option<Error>, success: Option<map<string, Json>>)

  /** What the client hands to its `ErrorOccurred` subscribers. */
  datatype Report = Report(description: string, userError: bool)

  /** The error type the bridge uses when its link button was not pressed. */
  const LinkButtonNotPressed := 101

  const LinkButtonMessage := "The button on the Hue Bridge was not pressed within 30 seconds of attempting authentication."

  /** `RaiseError(Error)`: a link-button error is a user error with a fixed
      description; every other type passes its description on. */
  function Classify(e: Error): (r: Report)
    ensures r.userError <==> e.errorType == LinkButtonNotPressed
    ensures r.description == if r.userError then LinkButtonMessage else e.description
  {
    if e.errorType == LinkButtonNotPressed then Report(LinkButtonMessage, true)
    else Report(e.description, false)
  }

  /** `RaiseError(Exception)` and `RaiseError(string)`: a message with type
      0, never a user error. */
  function Message(description: string): (r: Report)
    ensures !r.userError
  {
    Classify(Error(0, "", description))
  }

  /** The reports for the failed results, in order. */
  function Reports(results: seq<Result>): seq<Report>
  {
    if results == [] then []
    else
      var last := results[|results| - 1];
      Reports(results[..|results| - 1]) + (if last.error.Some? then [Classify(last.error.value)] else [])
  }

  /** No result carries an error. */
  predicate AllSucceeded(results: seq<Result>)
  {
    forall i | 0 <= i < |results| :: results[i].error.None?
  }

  /** There is one report per failed result, so nothing is reported
      exactly when every result succeeded. */
  lemma {:induction false} ReportsCount(results: seq<Result>)
    ensures |Reports(results)| == |set i | 0 <= i < |results| && results[i].error.Some?|
    ensures Reports(results) == [] <==> AllSucceeded(results)
  {
    if results != [] {
      var n := |results| - 1;
      var front := results[..n];
      ReportsCount(front);
      var before := set i | 0 <= i < n && front[i].error.Some?;
      var after := set i | 0 <= i < |results| && results[i].error.Some?;
      if results[n].error.Some? {
        assert after == before + {n};
      } else {
        assert after == before;
      }
      if AllSucceeded(front) && results[n].error.None? {
        assert AllSucceeded(results);
      }
    }
  }

  /** An element of an array the bridge answered with: an object with an
      `error` member, or anything else. */
  datatype Element = ErrorElement(error: Error) | OtherElement

  /** The reports for the error elements, in order. */
  function ElementReports(elements: seq<Element>): seq<Report>
  {
    if elements == [] then []
    else
      var last := elements[|elements| - 1];
      ElementReports(elements[..|elements| - 1]) + (if last.ErrorElement? then [Classify(last.error)] else [])
  }

  /** Some element is an error. */
  predicate AnyError(elements: seq<Element>)
  {
    exists i | 0 <= i < |elements| :: elements[i].ErrorElement?
  }

  /** The marker whose absence lets the client skip decoding. */
  const ErrorMarker := "\"error\""

  /** `CheckForAndReportErrors` found an error in the answer. */
  predicate ErrorAnswer(response: string, decoded: Option<seq<Element>>)
  {
    Text.Contains(response, ErrorMarker) && decoded.Some? && AnyError(decoded.value)
  }

  /** The reports `CheckForAndReportErrors` raises for the answer. */
  function AnswerReports(response: string, decoded: Option<seq<Element>>): seq<Report>
  {
    if Text.Contains(response, ErrorMarker) && decoded.Some? then ElementReports(decoded.value) else []
  }

  /** The client's error channel: every report raised so far, in order
      (`RaiseError` firing `ErrorOccurred`). */
  class ErrorChannel {
    var raised: seq<Report>

    constructor ()
      ensures raised == []
    {
      raised := [];
    }

    /** `RaiseError`. */
    method Raise(r: Report)
      modifies this
      ensures raised == old(raised) + [r]
    {
      raised := raised + [r];
    }

    /** `ParseResultsAndReportErrors`: raise every error in order; the
        answer is whether there was none. */
    method ParseResults(results: seq<Result>) returns (allSuccess: bool)
      modifies this
      ensures allSuccess == AllSucceeded(results)
      ensures raised == old(raised) + Reports(results)
    {
      allSuccess := true;
      var i := 0;
      while i < |results|
        invariant 0 <= i <= |results|
        invariant allSuccess == AllSucceeded(results[..i])
        invariant raised == old(raised) + Reports(results[..i])
      {
        assert results[..i + 1][..i] == results[..i];
        if results[i].error.Some? {
          allSuccess := false;
          Raise(Classify(results[i].error.value));
        }
        i := i + 1;
      }
      assert results[..i] == results;
    }

    /** `CheckForAndReportErrors`: for an answer that mentions an error and
        decodes as an array (`decoded`), raise every error element in order
        and say whether there was one; any other answer is not an error. */
    method CheckForErrors(response: string, decoded: Option<seq<Element>>) returns (anyErrors: bool)
      modifies this
      ensures anyErrors <==> Text.Contains(response, ErrorMarker) && decoded.Some? && AnyError(decoded.value)
      ensures raised == old(raised) +
        if Text.Contains(response, ErrorMarker) && decoded.Some? then ElementReports(decoded.value) else []
    {
      anyErrors := false;
      if !Text.Contains(response, ErrorMarker) || decoded.None? {
        return;
      }
      var elements := decoded.value;
      var i := 0;
      while i < |elements|
        invariant 0 <= i <= |elements|
        invariant anyErrors == AnyError(elements[..i])
        invariant raised == old(raised) + ElementReports(elements[..i])
      {
        assert elements[..i + 1][..i] == elements[..i];
        if elements[i].ErrorElement? {
          anyErrors := true;
          Raise(Classify(elements[i].error));
        }
        assert AnyError(elements[..i + 1]) <==> AnyError(elements[..i]) || elements[i].ErrorElement? by {
          if AnyError(elements[..i + 1]) && !elements[i].ErrorElement? {
            var k :| 0 <= k < i + 1 && elements[..i + 1][k].ErrorElement?;
            assert elements[..i][k].ErrorElement?;
          }
          if elements[i].ErrorElement? {
            assert elements[..i + 1][i].ErrorElement?;
          }
          if AnyError(elements[..i]) {
            var k :| 0 <= k < i && elements[..i][k].ErrorElement?;
            assert elements[..i + 1][k].ErrorElement?;
          }
        }
        i := i + 1;
      }
      assert elements[..i] == elements;
    }
  }
}

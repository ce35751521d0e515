/**
 * The panel's display mode. A child presenter asks for a mode change and the
 * month panel accepts every request except one for "date": a month picker
 * never drills down into a day grid. The mode is any string a child passes.
 */
module PanelMode {

  const InitialMode := "month"
  const DateMode := "date"

  /** The mode after one request to change to `requested`. */
  function PanelChange(mode: string, requested: string): (r: string)
    ensures r == mode || r == requested
    ensures requested == DateMode ==> r == mode
    ensures requested != DateMode ==> r == requested
  {
    if requested != DateMode then requested else mode
  }

  /** The mode after a history of requests, the latest last. */
  function ModeAfter(start: string, requests: seq<string>): string {
    if requests == [] then start
    else PanelChange(ModeAfter(start, requests[..|requests| - 1]), requests[|requests| - 1])
  }

  lemma ModeAfterAppend(start: string, requests: seq<string>, requested: string)
    ensures ModeAfter(start, requests + [requested]) == PanelChange(ModeAfter(start, requests), requested)
  {
  }

  /** Request `i` was accepted and every later request was "date". */
  predicate IsLatestAccepted(requests: seq<string>, i: int) {
    0 <= i < |requests| && requests[i] != DateMode &&
    forall j :: i < j < |requests| ==> requests[j] == DateMode
  }

  /**
   * The mode is the latest request that was not "date", or the starting mode
   * when every request was "date".
   */
  lemma {:induction false} ModeIsLatestAccepted(start: string, requests: seq<string>)
    ensures (forall i :: 0 <= i < |requests| ==> requests[i] == DateMode) ==>
      ModeAfter(start, requests) == start
    ensures forall i :: IsLatestAccepted(requests, i) ==> ModeAfter(start, requests) == requests[i]
  {
    if requests != [] {
      var n := |requests| - 1;
      var prefix := requests[..n];
      ModeIsLatestAccepted(start, prefix);
      assert ModeAfter(start, requests) == PanelChange(ModeAfter(start, prefix), requests[n]);
      if requests[n] != DateMode {
        // the last request is the latest accepted one
        forall i | IsLatestAccepted(requests, i)
          ensures i == n
        {
        }
      } else {
        // a final "date" request leaves the mode the prefix reached
        forall i | IsLatestAccepted(requests, i)
          ensures IsLatestAccepted(prefix, i)
        {
        }
        if forall i :: 0 <= i < |requests| ==> requests[i] == DateMode {
          assert forall i :: 0 <= i < |prefix| ==> prefix[i] == DateMode;
        }
      }
    }
  }

  /** Starting anywhere but "date", no history of requests ever reaches "date". */
  lemma {:induction false} NeverDate(start: string, requests: seq<string>)
    requires start != DateMode
    ensures ModeAfter(start, requests) != DateMode
  {
    if requests != [] {
      NeverDate(start, requests[..|requests| - 1]);
    }
  }

  /** Repeating a request changes nothing more. */
  lemma PanelChangeIdempotent(mode: string, requested: string)
    ensures PanelChange(PanelChange(mode, requested), requested) == PanelChange(mode, requested)
  {
  }
}

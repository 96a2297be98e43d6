/** The `find` command's loops: the walk through one detector's pages of
    finding IDs, and the pass over one page of fetched findings. */
module FindUsers {
  import opened Outcomes
  import opened CloudTrail
  import opened Resolver

  /** What GuardDuty answers to a request for a page of finding IDs. */
  datatype ListResponse = ListFailed | Listed(findingIds: seq<string>, nextToken: Option<string>)

  /** The finding-list service for one detector, as a function of the
      continuation token sent (nil for the first page). */
  type FindingLister = Option<string> -> ListResponse

  /** A walk through the pages: the token sent with each request, in order,
      the non-empty pages of IDs fetched, and whether the walk stopped by
      itself rather than by running out of request budget. */
  datatype Walk = Walk(requests: seq<Option<string>>, pages: seq<seq<string>>, finished: bool)

  /** A nil or empty continuation token means there are no more pages. */
  predicate NoMoreTokens(next: Option<string>)
  {
    next.None? || next.value == ""
  }

  /** The per-page stop rule: a response with no IDs, or with no usable next
      token, ends the walk. */
  predicate LastPage(r: ListResponse)
  {
    r.Listed? && (r.findingIds == [] || NoMoreTokens(r.nextToken))
  }

  /** The walk with a failed request ending it, as a fetch error that leaves
      no IDs. `fuel` bounds the number of requests. */
  function WalkPages(list: FindingLister, token: Option<string>, fuel: nat): (w: Walk)
    ensures |w.requests| <= fuel
    ensures |w.pages| <= |w.requests| <= |w.pages| + 1
    ensures fuel > 0 ==> |w.requests| > 0 && w.requests[0] == token
    ensures !w.finished ==> |w.requests| == fuel
    decreases fuel
  {
    if fuel == 0 then Walk([], [], false)
    else
      match list(token)
      case ListFailed => Walk([token], [], true)
      case Listed(ids, next) =>
        if ids == [] then Walk([token], [], true)
        else if NoMoreTokens(next) then Walk([token], [ids], true)
        else
          var rest := WalkPages(list, next, fuel - 1);
          Walk([token] + rest.requests, [ids] + rest.pages, rest.finished)
  }

  /** The corrected walk unfolded once, when the first page neither fails nor ends it. */
  lemma WalkContinues(list: FindingLister, token: Option<string>, fuel: nat)
    requires fuel > 0 && list(token).Listed? && !LastPage(list(token))
    ensures WalkPages(list, token, fuel)
         == var rest := WalkPages(list, list(token).nextToken, fuel - 1);
            Walk([token] + rest.requests, [list(token).findingIds] + rest.pages, rest.finished)
  {
  }

  /** Each page the corrected walk fetches is the non-empty list of IDs
      returned to the request sent for it. */
  lemma {:induction false} WalkPagesMatchRequests(list: FindingLister, token: Option<string>, fuel: nat)
    ensures var w := WalkPages(list, token, fuel);
            forall i :: 0 <= i < |w.pages| ==>
              list(w.requests[i]).Listed? && list(w.requests[i]).findingIds == w.pages[i] && w.pages[i] != []
    decreases fuel
  {
    if fuel > 0 && list(token).Listed? && !LastPage(list(token)) {
      var next := list(token).nextToken;
      WalkPagesMatchRequests(list, next, fuel - 1);
      WalkContinues(list, token, fuel);
      var rest := WalkPages(list, next, fuel - 1);
      var w := WalkPages(list, token, fuel);
      forall i | 0 <= i < |w.pages|
        ensures list(w.requests[i]).Listed? && list(w.requests[i]).findingIds == w.pages[i] && w.pages[i] != []
      {
        if i > 0 {
          assert w.requests[i] == rest.requests[i - 1] && w.pages[i] == rest.pages[i - 1];
        }
      }
    }
  }

  /** Each request of the corrected walk after the first sends the token
      returned by the one before, and that earlier page did not end the walk. */
  lemma {:induction false} WalkFollowsTokens(list: FindingLister, token: Option<string>, fuel: nat)
    ensures var w := WalkPages(list, token, fuel);
            forall i :: 0 <= i < |w.requests| - 1 ==>
              list(w.requests[i]).Listed? && !LastPage(list(w.requests[i]))
              && w.requests[i + 1] == list(w.requests[i]).nextToken
    decreases fuel
  {
    if fuel > 0 && list(token).Listed? && !LastPage(list(token)) {
      var next := list(token).nextToken;
      WalkFollowsTokens(list, next, fuel - 1);
      WalkContinues(list, token, fuel);
      var rest := WalkPages(list, next, fuel - 1);
      var w := WalkPages(list, token, fuel);
      forall i | 0 <= i < |w.requests| - 1
        ensures list(w.requests[i]).Listed? && !LastPage(list(w.requests[i]))
                && w.requests[i + 1] == list(w.requests[i]).nextToken
      {
        if i > 0 {
          assert w.requests[i] == rest.requests[i - 1] && w.requests[i + 1] == rest.requests[i];
        }
      }
    }
  }

  /** The corrected walk stops by itself exactly when its last request failed
      or returned a last page. */
  lemma {:induction false} WalkStopsAtLastPage(list: FindingLister, token: Option<string>, fuel: nat)
    ensures var w := WalkPages(list, token, fuel);
            w.finished <==>
              |w.requests| > 0
              && (list(w.requests[|w.requests| - 1]).ListFailed? || LastPage(list(w.requests[|w.requests| - 1])))
    decreases fuel
  {
    if fuel > 0 && list(token).Listed? && !LastPage(list(token)) {
      var next := list(token).nextToken;
      WalkStopsAtLastPage(list, next, fuel - 1);
      WalkContinues(list, token, fuel);
      var rest := WalkPages(list, next, fuel - 1);
      var w := WalkPages(list, token, fuel);
      if rest.requests != [] {
        assert w.requests[|w.requests| - 1] == rest.requests[|rest.requests| - 1];
      }
    }
  }

  /** The walk as the command performs it: a failed request is sent again
      with the same token. */
  function WalkPagesAsWritten(list: FindingLister, token: Option<string>, fuel: nat): (w: Walk)
    ensures |w.requests| <= fuel
    ensures fuel > 0 ==> |w.requests| > 0 && w.requests[0] == token
    ensures !w.finished ==> |w.requests| == fuel
    decreases fuel
  {
    if fuel == 0 then Walk([], [], false)
    else
      match list(token)
      case ListFailed =>
        var rest := WalkPagesAsWritten(list, token, fuel - 1);
        Walk([token] + rest.requests, rest.pages, rest.finished)
      case Listed(ids, next) =>
        if ids == [] then Walk([token], [], true)
        else if NoMoreTokens(next) then Walk([token], [ids], true)
        else
          var rest := WalkPagesAsWritten(list, next, fuel - 1);
          Walk([token] + rest.requests, [ids] + rest.pages, rest.finished)
  }

  /** A request that keeps failing is retried with the same token for as long
      as requests are allowed: the walk never stops and fetches nothing. */
  lemma {:induction false} FailingPageRetriedForever(list: FindingLister, token: Option<string>, fuel: nat)
    requires list(token).ListFailed?
    ensures !WalkPagesAsWritten(list, token, fuel).finished
    ensures WalkPagesAsWritten(list, token, fuel).pages == []
    ensures forall i :: 0 <= i < |WalkPagesAsWritten(list, token, fuel).requests| ==>
              WalkPagesAsWritten(list, token, fuel).requests[i] == token
    decreases fuel
  {
    if fuel > 0 {
      FailingPageRetriedForever(list, token, fuel - 1);
    }
  }

  /** Every request of the corrected walk adds a page, except a last request
      that failed or listed no IDs: a last page that lists IDs is kept. */
  lemma {:induction false} WalkKeepsListedPages(list: FindingLister, token: Option<string>, fuel: nat)
    ensures var w := WalkPages(list, token, fuel);
            |w.pages| == |w.requests| <==>
              (|w.requests| == 0
               || (list(w.requests[|w.requests| - 1]).Listed? && list(w.requests[|w.requests| - 1]).findingIds != []))
    decreases fuel
  {
    if fuel > 0 && list(token).Listed? && !LastPage(list(token)) {
      var next := list(token).nextToken;
      WalkKeepsListedPages(list, next, fuel - 1);
      WalkContinues(list, token, fuel);
      var rest := WalkPages(list, next, fuel - 1);
      var w := WalkPages(list, token, fuel);
      if rest.requests != [] {
        assert w.requests[|w.requests| - 1] == rest.requests[|rest.requests| - 1];
      }
    }
  }

  /** In the corrected walk a failed request is never re-sent: it is the last
      request, and the walk has stopped by itself. */
  lemma FailedRequestEndsWalk(list: FindingLister, token: Option<string>, fuel: nat)
    ensures var w := WalkPages(list, token, fuel);
            forall i :: 0 <= i < |w.requests| && list(w.requests[i]).ListFailed? ==>
              i == |w.requests| - 1 && w.finished
  {
    WalkFollowsTokens(list, token, fuel);
    WalkStopsAtLastPage(list, token, fuel);
  }

  /** When no request fails, the correction changes nothing. */
  lemma {:induction false} WalksAgreeWithoutFailures(list: FindingLister, token: Option<string>, fuel: nat)
    requires forall i :: 0 <= i < |WalkPages(list, token, fuel).requests| ==>
                           list(WalkPages(list, token, fuel).requests[i]).Listed?
    ensures WalkPagesAsWritten(list, token, fuel) == WalkPages(list, token, fuel)
    decreases fuel
  {
    if fuel > 0 && list(token).Listed? && !LastPage(list(token)) {
      var next := list(token).nextToken;
      WalkContinues(list, token, fuel);
      var w := WalkPages(list, token, fuel);
      var rest := WalkPages(list, next, fuel - 1);
      forall i | 0 <= i < |rest.requests|
        ensures list(rest.requests[i]).Listed?
      {
        assert rest.requests[i] == w.requests[i + 1];
      }
      WalksAgreeWithoutFailures(list, next, fuel - 1);
    }
  }

  /** A walk that stopped by itself stops the same way with a larger budget. */
  lemma {:induction false} FinishedWalkIgnoresBudget(list: FindingLister, token: Option<string>, fuel: nat, more: nat)
    requires WalkPages(list, token, fuel).finished
    requires fuel <= more
    ensures WalkPages(list, token, more) == WalkPages(list, token, fuel)
    decreases fuel
  {
    if fuel > 0 && list(token).Listed? && !LastPage(list(token)) {
      WalkContinues(list, token, fuel);
      WalkContinues(list, token, more);
      FinishedWalkIgnoresBudget(list, list(token).nextToken, fuel - 1, more - 1);
    }
  }

  /** The records printed for a page of fetched findings, in order: nil
      findings and skipped findings print nothing. */
  function Printed(trail: Trail, findings: seq<Option<Finding>>): (out: seq<FindingDetail>)
    ensures |out| <= |findings|
    ensures forall i :: 0 <= i < |out| ==> out[i].assumedRoleArn != ""
    decreases |findings|
  {
    if findings == [] then []
    else
      var before := Printed(trail, findings[..|findings| - 1]);
      match findings[|findings| - 1]
      case None => before
      case Some(f) =>
        var res := ResolveFinding(trail, f);
        if res.outcome.Ok? then before + [res.outcome.value] else before
  }

  /** The audit-log lookups made for a page of fetched findings, in order. */
  function Issued(trail: Trail, findings: seq<Option<Finding>>): (out: seq<Query>)
    ensures |out| <= 2 * |findings|
    decreases |findings|
  {
    if findings == [] then []
    else
      var before := Issued(trail, findings[..|findings| - 1]);
      match findings[|findings| - 1]
      case None => before
      case Some(f) => before + ResolveFinding(trail, f).queries
  }

  /** Resolves each fetched finding in turn, collecting the printed records
      and the lookups made. */
  method ProcessFindings(trail: Trail, findings: seq<Option<Finding>>) returns (printed: seq<FindingDetail>, queries: seq<Query>)
    ensures printed == Printed(trail, findings)
    ensures queries == Issued(trail, findings)
  {
    printed, queries := [], [];
    var i := 0;
    while i < |findings|
      invariant 0 <= i <= |findings|
      invariant printed == Printed(trail, findings[..i])
      invariant queries == Issued(trail, findings[..i])
    {
      assert findings[..i + 1][..i] == findings[..i];
      if findings[i].Some? {
        var res := ResolveFinding(trail, findings[i].value);
        queries := queries + res.queries;
        if res.outcome.Ok? {
          printed := printed + [res.outcome.value];
        }
      }
      i := i + 1;
    }
    assert findings[..i] == findings;
  }
}

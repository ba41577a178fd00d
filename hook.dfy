/** The client's `useFeedback` hook: the `feedbacks`, `loading` and `error`
    state and the three operations that update it, plus the
    `feedbackService.getFeedbacks` wrapper whose error fallback decides what
    a failed load looks like. Each awaited call is a parameter: the outcome
    its promise settled with. */
module UseFeedback {
  import opened Common

  const LoadFailed := "Failed to load feedbacks"

  /** The author as the client receives it with a post. */
  datatype Author = Author(id: nat, email: string, avatar: Option<string>)

  /** The client's own copy of a listed post. */
  datatype Feedback = Feedback(id: nat, title: string, description: string, author: Author,
                               createdAt: string, votes: nat, categoryId: nat, statusId: nat)

  datatype Page = Page(total: nat, pages: nat, currentPage: nat)

  datatype FeedbacksResponse = FeedbacksResponse(posts: seq<Feedback>, pagination: Page)

  /** How an awaited call settled: resolved with a value or rejected with an error. */
  datatype Outcome<T> = Resolved(value: T) | Rejected(error: string)

  /** The response the service substitutes for a failed request. */
  const EmptyResponse := FeedbacksResponse([], Page(0, 0, 1))

  /** `feedbackService.getFeedbacks` as written: a failed request is logged
      and resolves with an empty page instead of rejecting. */
  function GetFeedbacksService(http: Outcome<FeedbacksResponse>): (r: Outcome<FeedbacksResponse>)
    ensures r.Resolved?
    ensures http.Resolved? ==> r == http
    ensures http.Rejected? ==> r.value == EmptyResponse
  {
    if http.Resolved? then http else Resolved(EmptyResponse)
  }

  /** The service rethrowing its failure, as its `createFeedback` and
      `toggleVote` siblings do. */
  function GetFeedbacksRethrowing(http: Outcome<FeedbacksResponse>): (r: Outcome<FeedbacksResponse>)
    ensures r.Rejected? <==> http.Rejected?
    ensures r.Resolved? ==> r == http
  {
    http
  }

  datatype HookState = HookState(feedbacks: seq<Feedback>, loading: bool, error: Option<string>)

  /** `fetchFeedbacks` once the service call settled: on success the list is
      replaced and the error cleared; on failure the list stays and the error
      is set; `loading` ends false either way. */
  function FetchStep(st: HookState, served: Outcome<FeedbacksResponse>): (r: HookState)
    ensures !r.loading
    ensures served.Resolved? ==> r.feedbacks == served.value.posts && r.error == None
    ensures served.Rejected? ==> r.feedbacks == st.feedbacks && r.error == Some(LoadFailed)
  {
    match served
    case Resolved(response) => HookState(response.posts, false, None)
    case Rejected(_) => st.(loading := false, error := Some(LoadFailed))
  }

  /** `createFeedback` once the service call settled: the created post goes
      in front of the previous list, in the previous order; a failure leaves
      the state as it was. */
  function CreateStep(st: HookState, created: Outcome<Feedback>): (r: HookState)
    ensures created.Resolved? ==> |r.feedbacks| == |st.feedbacks| + 1 && r.feedbacks[0] == created.value
                                  && r.feedbacks[1..] == st.feedbacks
    ensures r.loading == st.loading && r.error == st.error
    ensures created.Rejected? ==> r == st
  {
    if created.Resolved? then st.(feedbacks := [created.value] + st.feedbacks) else st
  }

  /** `toggleVote` once both calls settled: a successful vote is followed by a
      refetch; a failed vote is swallowed and changes nothing. */
  function VoteStep(st: HookState, voted: Outcome<()>, refetch: Outcome<FeedbacksResponse>): (r: HookState)
    ensures voted.Rejected? ==> r == st
    ensures voted.Resolved? ==> r == FetchStep(st, refetch)
  {
    if voted.Resolved? then FetchStep(st, refetch) else st
  }

  class FeedbackHook {
    var feedbacks: seq<Feedback>
    var loading: bool
    var error: Option<string>

    function State(): HookState
      reads this
    {
      HookState(feedbacks, loading, error)
    }

    /** The initial state: an empty list, loading, no error. */
    constructor ()
      ensures State() == HookState([], true, None)
    {
      feedbacks, loading, error := [], true, None;
    }

    method FetchFeedbacks(served: Outcome<FeedbacksResponse>)
      modifies this
      ensures State() == FetchStep(old(State()), served)
    {
      loading := true;
      if served.Resolved? {
        feedbacks := served.value.posts;
        error := None;
      } else {
        error := Some(LoadFailed);
      }
      loading := false;
    }

    /** Returns the created post, or rethrows the service's error. */
    method CreateFeedback(created: Outcome<Feedback>) returns (result: Outcome<Feedback>)
      modifies this
      ensures State() == CreateStep(old(State()), created)
      ensures result == created
    {
      if created.Resolved? {
        feedbacks := [created.value] + feedbacks;
      }
      result := created;
    }

    /** Never rethrows: there is no result. */
    method ToggleVote(voted: Outcome<()>, refetch: Outcome<FeedbacksResponse>)
      modifies this
      ensures State() == VoteStep(old(State()), voted, refetch)
    {
      if voted.Resolved? {
        FetchFeedbacks(refetch);
      }
    }
  }

  /** With the service as written, the hook's failure branch is never taken:
      a failed request empties the list and leaves `error` null. */
  lemma FailedLoadLooksEmpty(st: HookState, e: string)
    ensures FetchStep(st, GetFeedbacksService(Rejected(e))) == HookState([], false, None)
  {
  }

  /** With the service as written, a failed load ends in the same state as
      a load of an empty board. */
  lemma FailedLoadIndistinguishable(st: HookState, e: string)
    ensures FetchStep(st, GetFeedbacksService(Rejected(e)))
         == FetchStep(st, GetFeedbacksService(Resolved(EmptyResponse)))
  {
  }

  /** With a rethrowing service, a failed request keeps the list and reports
      the error. */
  lemma FailedLoadReportsError(st: HookState, e: string)
    ensures FetchStep(st, GetFeedbacksRethrowing(Rejected(e))) == HookState(st.feedbacks, false, Some(LoadFailed))
  {
  }

  /** Creating posts one after another puts them in front, most recent first,
      with the earlier list behind them unchanged; `loading` and `error` are
      not touched. */
  lemma {:induction false} CreatesPrepend(st: HookState, created: seq<Feedback>)
    ensures CreateAll(st, created).feedbacks == Reverse(created) + st.feedbacks
    ensures CreateAll(st, created).loading == st.loading && CreateAll(st, created).error == st.error
  {
    if created != [] {
      var init, last := created[..|created| - 1], created[|created| - 1];
      CreatesPrepend(st, init);
      assert Reverse(created) == [last] + Reverse(init);
    }
  }

  /** The state after creating each of `created` in turn, all succeeding. */
  function CreateAll(st: HookState, created: seq<Feedback>): HookState
  {
    if created == [] then st
    else CreateStep(CreateAll(st, created[..|created| - 1]), Resolved(created[|created| - 1]))
  }

  function Reverse(s: seq<Feedback>): (r: seq<Feedback>)
    ensures |r| == |s|
  {
    if s == [] then [] else [s[|s| - 1]] + Reverse(s[..|s| - 1])
  }
}

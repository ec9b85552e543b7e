/** The feedback report of frontend/src/app/feedback/page.tsx: the effect
    that fetches the evaluation of a session, which view the page renders,
    and the colour and badge of the overall score. */
module FeedbackPage {
  import opened Wrappers
  import opened ErrorHandler
  import opened Client

  /** The evaluation the backend returns. */
  datatype Feedback = Feedback(
    overallScore: real,
    strengths: seq<string>,
    weaknesses: seq<string>,
    communicationFeedback: string,
    technicalFeedback: string,
    suggestions: seq<string>)

  const DashboardPath := "/dashboard"
  const GreenStyle := "bg-green-100 text-green-900"
  const YellowStyle := "bg-yellow-100 text-yellow-900"
  const RedStyle := "bg-red-100 text-red-900"
  const StarBadge := "\U{1F31F}"
  const ThumbsUpBadge := "\U{1F44D}"
  const UptrendBadge := "\U{1F4C8}"

  /** `getScoreColor`. */
  function ScoreColor(score: real): string {
    if score >= 8.0 then GreenStyle
    else if score >= 6.0 then YellowStyle
    else RedStyle
  }

  /** `getScoreBadge`. */
  function ScoreBadge(score: real): string {
    if score >= 8.0 then StarBadge
    else if score >= 6.0 then ThumbsUpBadge
    else UptrendBadge
  }

  /** The three bands of the score, as a reference for both functions. */
  datatype Tier = Strong | Fair | Weak

  function TierOf(score: real): (t: Tier)
    ensures t == Strong <==> score >= 8.0
    ensures t == Fair <==> 6.0 <= score < 8.0
    ensures t == Weak <==> score < 6.0
  {
    if score >= 8.0 then Strong else if score >= 6.0 then Fair else Weak
  }

  /** A tier's place in the order Weak < Fair < Strong. */
  function Rank(t: Tier): nat {
    match t
    case Weak => 0
    case Fair => 1
    case Strong => 2
  }

  /** Colour and badge are both fixed by the tier: green and the star for
      8 and above, yellow and the thumbs-up from 6 below 8, red and the
      uptrend below 6. */
  lemma ScoreStyling(score: real)
    ensures TierOf(score) == Strong ==> ScoreColor(score) == GreenStyle && ScoreBadge(score) == StarBadge
    ensures TierOf(score) == Fair ==> ScoreColor(score) == YellowStyle && ScoreBadge(score) == ThumbsUpBadge
    ensures TierOf(score) == Weak ==> ScoreColor(score) == RedStyle && ScoreBadge(score) == UptrendBadge
  {
  }

  /** The colour and the badge always agree: scores styled alike carry the
      same badge, and the other way round. */
  lemma ColourAndBadgeAgree(a: real, b: real)
    ensures ScoreColor(a) == ScoreColor(b) <==> ScoreBadge(a) == ScoreBadge(b)
    ensures ScoreColor(a) == ScoreColor(b) <==> TierOf(a) == TierOf(b)
  {
    ScoreStyling(a);
    ScoreStyling(b);
    assert |GreenStyle| != |YellowStyle| && |GreenStyle| != |RedStyle| && |YellowStyle| != |RedStyle|;
    assert StarBadge[0] != ThumbsUpBadge[0] && StarBadge[0] != UptrendBadge[0] && ThumbsUpBadge[0] != UptrendBadge[0];
  }

  /** A higher score never gets a lower band. */
  lemma TierMonotone(a: real, b: real)
    requires a <= b
    ensures Rank(TierOf(a)) <= Rank(TierOf(b))
  {
  }

  /** What the page renders. */
  datatype View =
    | LoadingView
    | ErrorView(message: string)
    | NoFeedbackView
    | ReportView(feedback: Feedback, color: string, badge: string)

  /** The render: loading first, then the error, then the absence of
      feedback, and only then the report. */
  function ViewOf(loading: bool, error: string, feedback: Option<Feedback>): (v: View)
    ensures loading ==> v == LoadingView
    ensures !loading && error != "" ==> v == ErrorView(error)
    ensures !loading && error == "" && feedback.None? ==> v == NoFeedbackView
    ensures v.ReportView? <==> !loading && error == "" && feedback.Some?
    ensures v.ReportView? ==>
      v.feedback == feedback.value && v.color == ScoreColor(v.feedback.overallScore)
      && v.badge == ScoreBadge(v.feedback.overallScore)
  {
    if loading then LoadingView
    else if error != "" then ErrorView(error)
    else match feedback
      case None => NoFeedbackView
      case Some(f) => ReportView(f, ScoreColor(f.overallScore), ScoreBadge(f.overallScore))
  }

  /** The page: `session_id` from the query string, its state fields, and
      the paths it was sent to. */
  class FeedbackPage {
    const sessionId: int
    var feedback: Option<Feedback>
    var loading: bool
    var error: string
    var navigations: seq<string>

    constructor (sessionId: int)
      ensures this.sessionId == sessionId && feedback.None? && loading && error == "" && navigations == []
    {
      this.sessionId := sessionId;
      feedback, loading, error, navigations := None, true, "", [];
    }

    function View(): View
      reads this
    {
      ViewOf(loading, error, feedback)
    }

    /** `fetchFeedback`: without a session id the page goes to the dashboard
        and sends nothing (and stays loading); otherwise it posts the
        request, keeps the evaluation or the error text, and stops loading.
        A reply whose body is empty is `None`. */
    method FetchFeedback(reply: Response<Option<Feedback>>) returns (requests: seq<Request>)
      modifies this
      ensures sessionId == 0 ==>
        requests == [] && navigations == old(navigations) + [DashboardPath]
        && feedback == old(feedback) && loading == old(loading) && error == old(error)
      ensures sessionId != 0 ==>
        && requests == [FeedbackRequest(sessionId)] && !loading && navigations == old(navigations)
        && (reply.Success? ==> feedback == reply.data && error == old(error))
        && (reply.Failure? ==> feedback == old(feedback) && error == GetErrorMessage(reply.error))
    {
      if sessionId == 0 {
        navigations := navigations + [DashboardPath];
        return [];
      }
      requests := [FeedbackRequest(sessionId)];
      match reply {
        case Success(data) =>
          feedback := data;
        case Failure(err) =>
          error := GetErrorMessage(err);
      }
      loading := false;
    }
  }
}

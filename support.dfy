/**
 * The support responder (`support_query`): a keyword classifier over the
 * lower-cased question (or, failing that, the issue). Returns and refunds
 * win over tracking; anything else gets the default answer.
 */
module Support {
  import opened Optional
  import opened Text

  datatype Answer = Answer(text: string, sourceDoc: string)

  const ReturnsDoc := "returns_policy.txt"
  const TrackingDoc := "tracking_faq"
  const DefaultDoc := "faq_default"
  const TrackingAnswer := "To track your order, go to Orders -> Select order -> Track. Estimated delivery shown there."
  const DefaultAnswer := "Please provide your order id so we can look up delivery status or returns instructions."

  /** The text classified: the question if non-empty, else the issue if non-empty, else nothing; lower-cased. */
  function QueryText(question: Option<string>, issue: Option<string>): string
  {
    Lower(
      if question.Some? && question.value != "" then question.value
      else if issue.Some? && issue.value != "" then issue.value
      else "")
  }

  ghost predicate MentionsReturns(q: string)
  {
    Occurs(q, "return") || Occurs(q, "refund")
  }

  ghost predicate MentionsTracking(q: string)
  {
    Occurs(q, "track") || Occurs(q, "where")
  }

  /**
   * Answers with the returns policy when the text mentions a return or a
   * refund, else with the tracking note when it mentions tracking or
   * "where", else with the default request for an order id.
   */
  function SupportQuery(question: Option<string>, issue: Option<string>, policy: string): (a: Answer)
    ensures a.sourceDoc == ReturnsDoc <==> MentionsReturns(QueryText(question, issue))
    ensures a.sourceDoc == TrackingDoc <==>
      !MentionsReturns(QueryText(question, issue)) && MentionsTracking(QueryText(question, issue))
    ensures a.sourceDoc == DefaultDoc <==>
      !MentionsReturns(QueryText(question, issue)) && !MentionsTracking(QueryText(question, issue))
    ensures a.sourceDoc == ReturnsDoc ==> a.text == policy
    ensures a.sourceDoc == TrackingDoc ==> a.text == TrackingAnswer
    ensures a.sourceDoc == DefaultDoc ==> a.text == DefaultAnswer
  {
    var q := QueryText(question, issue);
    ContainsIffOccurs(q, "return");
    ContainsIffOccurs(q, "refund");
    ContainsIffOccurs(q, "track");
    ContainsIffOccurs(q, "where");
    if Contains(q, "return") || Contains(q, "refund") then Answer(policy, ReturnsDoc)
    else if Contains(q, "track") || Contains(q, "where") then Answer(TrackingAnswer, TrackingDoc)
    else Answer(DefaultAnswer, DefaultDoc)
  }

  /** The issue is looked at only when the question is missing or empty. */
  lemma QuestionTakesPrecedence(question: string, issue: Option<string>, policy: string)
    requires question != ""
    ensures SupportQuery(Some(question), issue, policy) == SupportQuery(Some(question), None, policy)
  {
  }
}

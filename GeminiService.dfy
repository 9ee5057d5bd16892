/**
 * The insight request: the session history is projected onto a compact summary, the summary
 * is sent to an external text model, and the reply is turned into the text to show. The
 * model is an input, a function from the summary it is sent to its reply; the prompt
 * wording, the credentials and the sampling parameters are not modelled.
 */
module GeminiService {
  import opened Types
  import opened Rounding

  /** One entry of `sessionSummary`. */
  datatype SessionSummary = SessionSummary(task: string, category: TaskCategory, durationMinutes: int, distractions: nat)

  function SummaryOf(s: FocusSession): SessionSummary
  {
    SessionSummary(s.taskName, s.category, FloorDiv(s.duration, 60), s.distractions)
  }

  /**
   * `sessions.map(...)`: one entry per session, in the same order, keeping the task name,
   * the category and the distraction count and giving the duration in whole minutes (floor).
   */
  function Summarize(sessions: seq<FocusSession>): (r: seq<SessionSummary>)
    ensures |r| == |sessions|
    ensures forall i :: 0 <= i < |r| ==>
      && r[i].task == sessions[i].taskName
      && r[i].category == sessions[i].category
      && r[i].distractions == sessions[i].distractions
      && 60 * r[i].durationMinutes <= sessions[i].duration < 60 * r[i].durationMinutes + 60
  {
    seq(|sessions|, i requires 0 <= i < |sessions| => SummaryOf(sessions[i]))
  }

  /** The summary of a history is the summaries of its parts, in order. */
  lemma SummarizeConcat(a: seq<FocusSession>, b: seq<FocusSession>)
    ensures Summarize(a + b) == Summarize(a) + Summarize(b)
  {
    assert forall i :: 0 <= i < |a| ==> (a + b)[i] == a[i];
    assert forall i :: |a| <= i < |a| + |b| ==> (a + b)[i] == b[i - |a|];
  }

  /** The text returned when the reply carries no text. */
  const NO_INSIGHT := "Unable to generate insights at this time."

  /** The text returned when the request fails. */
  const CONNECTION_ERROR := "Error connecting to AI advisor. Please check your connectivity."

  /** What the model request came back with: a reply whose text may be missing, or a failure. */
  datatype ModelReply = Replied(text: Option<string>) | Failed

  /**
   * `return response.text || NO_INSIGHT` inside the `try`, `return CONNECTION_ERROR` in the
   * `catch`: non-empty reply text verbatim, a fixed fallback for missing or empty text, a
   * fixed error message for a failure. The result is never empty.
   */
  function SelectInsight(reply: ModelReply): (r: string)
    ensures r != ""
    ensures reply.Replied? && reply.text.Some? && reply.text.value != "" ==> r == reply.text.value
    ensures reply.Replied? && (reply.text == None || reply.text == Some("")) ==> r == NO_INSIGHT
    ensures reply.Failed? ==> r == CONNECTION_ERROR
  {
    match reply
    case Replied(Some(t)) => if t != "" then t else NO_INSIGHT
    case Replied(None) => NO_INSIGHT
    case Failed => CONNECTION_ERROR
  }

  /** The caller cannot tell a failed request from a reply that happens to read like one. */
  lemma FailureIndistinguishable()
    ensures SelectInsight(Failed) == SelectInsight(Replied(Some(CONNECTION_ERROR)))
    ensures SelectInsight(Replied(None)) == SelectInsight(Replied(Some(NO_INSIGHT)))
  {
  }

  /** How the asynchronous call settled: with a text, or by throwing. */
  datatype CallOutcome = Returned(text: string) | Threw

  /**
   * `analyzeProductivity`: the client is created before the `try`, so a failure there
   * escapes to the caller; after that the call always returns a non-empty text, chosen from
   * what the model replies to the summary of exactly these sessions.
   */
  function AnalyzeProductivity(
    sessions: seq<FocusSession>, clientCreated: bool, model: seq<SessionSummary> -> ModelReply): (r: CallOutcome)
    ensures r.Returned? <==> clientCreated
    ensures r.Returned? ==> r.text != ""
    ensures var reply := model(Summarize(sessions));
      && (clientCreated && reply.Failed? ==> r == Returned(CONNECTION_ERROR))
      && (clientCreated && reply.Replied? && reply.text.Some? && reply.text.value != "" ==>
            r == Returned(reply.text.value))
      && (clientCreated && reply.Replied? && (reply.text == None || reply.text == Some("")) ==>
            r == Returned(NO_INSIGHT))
  {
    if clientCreated then Returned(SelectInsight(model(Summarize(sessions)))) else Threw
  }
}

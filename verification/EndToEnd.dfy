/** From the button in the popup to the answers of the plugin. */
module EndToEnd {
  import opened Types
  import opened Translator
  import opened AgentModel
  import opened ServicePlugin

  /** A user who presses allow, or never, is not asked again: the data the agent sends for that answer
      make the plugin find exactly that decision for the triple, over every later history that leaves
      the triple alone and is not too long for the cache. A plain deny decides nothing for good, and
      neither does an error or no answer, as long as the predefined denial is not a per-life type. */
  lemma ButtonDecidesLaterChecks(types: PolicyTypes, capacity: nat, history: seq<PluginEvent>, key: RequestData,
                                 response: NResponseType, later: seq<PluginEvent>)
    requires types.Valid() && ServicePlugin.LeavesAlone(types, later, key)
    requires var made := history + [Updated(key, AnswerData(FromPopup(response)))];
      |TriplesUsed(types, capacity, made, later)| <= capacity - 2
    ensures var made := history + [Updated(key, AnswerData(FromPopup(response)))];
      match response
      case Allow =>
        && Remembered(types, capacity, made + later, key)
        && LastDecision(types, made + later, key) == Some(ALLOW_PER_LIFE)
      case Never =>
        && Remembered(types, capacity, made + later, key)
        && LastDecision(types, made + later, key) == Some(DENY_PER_LIFE)
      case _ =>
        (response.Deny? || !PerLife(types.deny)) ==>
        LastDecision(types, made + later, key) == LastDecision(types, history, key)
  {
    hide DataToAnswer, AnswerData, Hash, TriplesUsed, LastDecision, Remembered, ServicePlugin.LeavesAlone;
    var data := AnswerData(FromPopup(response));
    AnswerReachesPlugin(types, response);
    hide FromPopup;
    if response.Allow? || response.Never? {
      PermanentAnswerStands(types, capacity, history, key, data, later);
    } else {
      LastDecisionIs(types, history, Updated(key, data), key);
      DecisionStands(types, history + [Updated(key, data)], later, key);
    }
  }
}

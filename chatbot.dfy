/** The canned replies of src/lib/rag/chatbot.ts (`getQuickAnswer`): a
    query that contains one of a few greeting keys is answered without a
    search. */
module Chatbot {
  import opened Wrappers
  import opened Strings

  /** The `quickAnswers` record as `Object.entries` lists it. */
  type QuickAnswers = seq<(string, string)>

  function DefaultQuickAnswers(): QuickAnswers {
    [ ("안녕", "안녕하세요! \U{1F44B} WorkFree AI 어시스턴트입니다. 무엇을 도와드릴까요?"),
      ("고마워", "천만에요! \U{1F60A} 더 궁금한 것이 있으시면 언제든 물어보세요!"),
      ("감사", "도움이 되어서 기쁩니다! \U{1F499} WorkFree와 함께 효율적인 업무 되세요!") ]
  }

  /** The answer of the first entry whose key occurs in the query. */
  function FirstAnswer(query: string, answers: QuickAnswers): (r: Option<string>)
    ensures r.None? <==> forall j :: 0 <= j < |answers| ==> !Contains(query, answers[j].0)
    ensures r.Some? ==>
              exists j :: 0 <= j < |answers| && Contains(query, answers[j].0) && r.value == answers[j].1 &&
                forall k :: 0 <= k < j ==> !Contains(query, answers[k].0)
  {
    if answers == [] then None
    else if Contains(query, answers[0].0) then Some(answers[0].1)
    else
      var r := FirstAnswer(query, answers[1..]);
      assert forall j :: 1 <= j < |answers| ==> answers[j] == answers[1..][j - 1];
      r
  }

  /** Lines 126-139: the loop returns the first matching entry's answer
      and `null` when none matches. */
  method GetQuickAnswer(query: string, answers: QuickAnswers) returns (r: Option<string>)
    ensures r == FirstAnswer(query, answers)
  {
    for i := 0 to |answers|
      invariant FirstAnswer(query, answers) == FirstAnswer(query, answers[i..])
    {
      assert answers[i..][1..] == answers[i + 1..];
      var (key, value) := answers[i];
      if Contains(query, key) {
        return Some(value);
      }
    }
    return None;
  }

  /** With the built-in answers: no answer exactly when the query contains
      none of 안녕, 고마워 and 감사. */
  lemma NoAnswerIff(query: string)
    ensures FirstAnswer(query, DefaultQuickAnswers()).None? <==>
              !Contains(query, "안녕") && !Contains(query, "고마워") && !Contains(query, "감사")
  {
    var t := DefaultQuickAnswers();
    assert t[0].0 == "안녕" && t[1].0 == "고마워" && t[2].0 == "감사";
  }

  /** A query with several keys gets the answer of the earliest key in the
      record: a greeting wins over a thank-you. */
  lemma {:induction false} EarlierKeyWins(query: string, answers: QuickAnswers, j: nat)
    requires j < |answers| && Contains(query, answers[j].0)
    requires forall k :: 0 <= k < j ==> !Contains(query, answers[k].0)
    ensures FirstAnswer(query, answers) == Some(answers[j].1)
    decreases j
  {
    if j > 0 {
      assert !Contains(query, answers[0].0);
      assert answers[1..][j - 1] == answers[j];
      EarlierKeyWins(query, answers[1..], j - 1);
    }
  }

  lemma GreetingWins(query: string)
    requires Contains(query, "안녕")
    ensures FirstAnswer(query, DefaultQuickAnswers()) == Some(DefaultQuickAnswers()[0].1)
  {
  }
}

/** The couples' quiz: new questions go to the front of the list, and
    answers and the reveal switch are updated on the question with a
    given id. Each operation hands a new list to the parent. */
module Quiz {
  import opened Text
  import opened Js
  import opened Types

  /** A question not yet answered or revealed; its id is `Date.now().toString()`. */
  function NewQuestion(now: nat, text: string): QuizQuestion {
    QuizQuestion(NatToString(now), text, None, None, false)
  }

  /** `handleAddCustom`: the new list, or `None` when the typed text is
      blank and nothing is handed to the parent. */
  function AddCustom(questions: seq<QuizQuestion>, custom: string, now: nat): Option<seq<QuizQuestion>> {
    if IsBlank(custom) then None else Some([NewQuestion(now, custom)] + questions)
  }

  /** `handleGenerate` once the generated text has arrived. */
  function AddGenerated(questions: seq<QuizQuestion>, text: string, now: nat): seq<QuizQuestion> {
    [NewQuestion(now, text)] + questions
  }

  datatype AnswerField = MyAnswer | PartnerAnswer

  function SetAnswer(q: QuizQuestion, field: AnswerField, value: string): QuizQuestion {
    match field
    case MyAnswer => q.(myAnswer := Some(value))
    case PartnerAnswer => q.(partnerAnswer := Some(value))
  }

  /** `handleAnswer(id, field, value)` */
  function Answer(questions: seq<QuizQuestion>, id: string, field: AnswerField, value: string): seq<QuizQuestion> {
    seq(|questions|, i requires 0 <= i < |questions| =>
      if questions[i].id == id then SetAnswer(questions[i], field, value) else questions[i])
  }

  /** `toggleReveal(id)` */
  function ToggleReveal(questions: seq<QuizQuestion>, id: string): seq<QuizQuestion> {
    seq(|questions|, i requires 0 <= i < |questions| =>
      if questions[i].id == id then questions[i].(isRevealed := !questions[i].isRevealed) else questions[i])
  }

  /** A blank or whitespace-only entry adds nothing; any other entry is
      added in front exactly as typed, untrimmed, hidden and unanswered,
      ahead of the unchanged old list. */
  lemma AddCustomPrepends(questions: seq<QuizQuestion>, custom: string, now: nat)
    ensures AddCustom(questions, custom, now).None? <==> Trim(custom) == ""
    ensures AddCustom(questions, custom, now).Some? ==>
      var r := AddCustom(questions, custom, now).value;
      && |r| == |questions| + 1 && r[1..] == questions
      && r[0].question == custom && !r[0].isRevealed
      && r[0].myAnswer.None? && r[0].partnerAnswer.None?
  {
    TrimEmptyIffBlank(custom);
    if !IsBlank(custom) {
      assert AddCustom(questions, custom, now).value[1..] == questions;
    }
  }

  /** A generated question is likewise added hidden in front of the
      unchanged old list. */
  lemma AddGeneratedPrepends(questions: seq<QuizQuestion>, text: string, now: nat)
    ensures var r := AddGenerated(questions, text, now);
      |r| == |questions| + 1 && r[1..] == questions && r[0].question == text && !r[0].isRevealed
  {
    assert AddGenerated(questions, text, now)[1..] == questions;
  }

  /** Only the named field of the questions with that id changes; length,
      order and everything else stay. */
  lemma AnswerOnlyTouchesMatch(questions: seq<QuizQuestion>, id: string, field: AnswerField, value: string)
    ensures var r := Answer(questions, id, field, value);
      && |r| == |questions|
      && (forall i :: 0 <= i < |r| && questions[i].id != id ==> r[i] == questions[i])
      && (forall i :: 0 <= i < |r| && questions[i].id == id ==>
            && r[i].id == id && r[i].question == questions[i].question
            && r[i].isRevealed == questions[i].isRevealed
            && (field == MyAnswer ==> r[i].myAnswer == Some(value) && r[i].partnerAnswer == questions[i].partnerAnswer)
            && (field == PartnerAnswer ==> r[i].partnerAnswer == Some(value) && r[i].myAnswer == questions[i].myAnswer))
  {
  }

  /** Only the questions with that id flip, and toggling twice restores the
      list. */
  lemma ToggleRevealFlips(questions: seq<QuizQuestion>, id: string)
    ensures var r := ToggleReveal(questions, id);
      && |r| == |questions|
      && (forall i :: 0 <= i < |r| ==>
            r[i] == (if questions[i].id == id then questions[i].(isRevealed := !questions[i].isRevealed) else questions[i]))
      && ToggleReveal(r, id) == questions
  {
    var r := ToggleReveal(questions, id);
    assert forall i :: 0 <= i < |r| ==> ToggleReveal(r, id)[i] == questions[i];
  }
}

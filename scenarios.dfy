/**
 * Concrete runs of the session: the three-question example quiz, and the
 * two inputs on which the page as written misbehaves.
 */
module Scenarios {
  import opened Wrappers
  import opened Json
  import opened Fetcher
  import opened Quiz

  const Paris: Value := Str("Paris")

  /** One question in the documented shape, answered by option "a". */
  const CapitalQuestion: Value :=
    Object(map[
      "mcq" := Str("What is the capital of France?"),
      "options" := Object(map["a" := Paris, "b" := Str("Lyon"), "c" := Str("Nice"), "d" := Str("Lille")]),
      "correct" := Str("a")])

  /** A question whose letter is a list: looking it up in the options
      raises TypeError (unhashable), not KeyError. */
  const ListLetterQuestion: Value :=
    Object(map[
      "mcq" := Str("q"),
      "options" := Object(map["a" := Str("x")]),
      "correct" := Array([Str("a")])])

  /** A well-formed question without its "mcq" text. */
  const UntitledQuestion: Value :=
    Object(map["options" := Object(map["a" := Str("x")]), "correct" := Str("a")])

  /** A parser that decodes every text to `doc`. */
  function Decodes(doc: Value): string -> Parse {
    _ => Parsed(doc)
  }

  /** The finding at lines 131-139, as written: the list letter escapes
      the KeyError handler and leaves a question without an answer. */
  lemma ListLetterAbortsAsWritten()
    ensures var step := GenerateAsWritten("t", Payload("p"), Decodes(Object(map["mcqs" := Array([ListLetterQuestion])])));
            step.status == Aborted(0, Fault)
            && step.questions == [ListLetterQuestion] && step.answers == []
            && FirstFault(step.questions, step.answers, 0) == Some(0)
  {
    var doc := Object(map["mcqs" := Array([ListLetterQuestion])]);
    assert McqsField(doc) == Ok([ListLetterQuestion]);
    assert AnswerOf(ListLetterQuestion) == Fault;
    AbortedLeavesHalfQuiz("t", Payload("p"), Decodes(doc));
  }

  /** The finding at line 173, as written: a question without "mcq" is
      accepted and displayed, but the result loop raises on it. */
  lemma UntitledQuestionFaultsAsWritten()
    ensures Consistent([UntitledQuestion], [Str("x")])
    ensures DeriveAnswerKey([UntitledQuestion]) == Answers([Str("x")])
    ensures FirstFault([UntitledQuestion], [Str("x")], 0) == Some(0)
  {
    assert AnswerOf(UntitledQuestion) == Found(Str("x"));
  }

  /** The example quiz: three copies of one question, all answered
      "Paris", score 3 out of 3; leaving one unanswered gives no score. */
  method RunExample(render: Value -> string) {
    var session := new Session();
    var questions := [CapitalQuestion, CapitalQuestion, CapitalQuestion];
    var doc := Object(map["mcqs" := Array(questions)]);
    assert McqsField(doc) == Ok(questions);
    assert AnswerOf(CapitalQuestion) == Found(Paris);
    var status := session.Generate("Paris is the capital of France.", Payload("{}"), Decodes(doc));
    assert status == Generated;
    assert session.correctedAnswers == [Paris, Paris, Paris];
    AnswerKeyScoresFull(session.questions, [Paris, Paris, Paris], render);
    var result := session.Submit([Paris, Paris, Paris], render);
    assert result == Scored(3, 3);
    result := session.Submit([Paris, Paris, Null], render);
    assert result == Unanswered;
  }

  /** Generating from empty text clears the quiz shown before. */
  method RunClear() {
    var session := new Session();
    var doc := Object(map["mcqs" := Array([CapitalQuestion])]);
    assert McqsField(doc) == Ok([CapitalQuestion]);
    assert AnswerOf(CapitalQuestion) == Found(Paris);
    var status := session.Generate("Paris is the capital of France.", Payload("{}"), Decodes(doc));
    assert status == Generated && session.questions == [CapitalQuestion];
    status := session.Generate("", Payload("{}"), Decodes(doc));
    assert status == NeedsText && session.questions == [] && session.correctedAnswers == [];
  }

  /** The corrected page clears the quiz whose letter is a list. */
  method RunListLetter(render: Value -> string) {
    var session := new Session();
    var doc := Object(map["mcqs" := Array([ListLetterQuestion])]);
    ListLetterAbortsAsWritten();
    var status := session.Generate("t", Payload("p"), Decodes(doc));
    assert status == InvalidStructure(0, Fault);
    assert session.questions == [] && session.correctedAnswers == [];
    var result := session.Submit([], render);
    assert result == NoForm;
  }

  /** The corrected page scores the question that has no text. */
  method RunUntitled(render: Value -> string) {
    var session := new Session();
    var doc := Object(map["mcqs" := Array([UntitledQuestion])]);
    assert McqsField(doc) == Ok([UntitledQuestion]);
    assert AnswerOf(UntitledQuestion) == Found(Str("x"));
    var status := session.Generate("t", Payload("p"), Decodes(doc));
    assert session.correctedAnswers == [Str("x")];
    AnswerKeyScoresFull(session.questions, [Str("x")], render);
    var result := session.Submit([Str("x")], render);
    assert result == Scored(1, 1);
  }
}

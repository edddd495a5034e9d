/**
 * The page logic of `main`: the session store with its two lists, the
 * "Generate" transition, the answer key, and submission with scoring.
 */
module Quiz {
  import opened Wrappers
  import opened Text
  import opened Json
  import opened Fetcher

  /** `q["options"][q["correct"]]`, evaluated as Python does: the options
      first, then the letter, then the lookup of the letter. */
  function AnswerOf(q: Value): (r: Lookup)
    ensures !q.Object? ==> r == Fault
    ensures q.Object? && ("options" !in q.fields || "correct" !in q.fields) ==> r == MissingKey
    ensures q.Object? && "options" in q.fields && "correct" in q.fields ==>
              r == Subscript(q.fields["options"], q.fields["correct"])
    ensures q.Object? && "options" in q.fields && "correct" in q.fields
            && q.fields["options"].Object? && q.fields["correct"].Str? ==>
              (r.Found? <==> q.fields["correct"].s in q.fields["options"].fields)
  {
    match Subscript(q, Str("options"))
    case Found(options) =>
      (match Subscript(q, Str("correct"))
       case Found(correct) => Subscript(options, correct)
       case failure => failure)
    case failure => failure
  }

  /** The answer-key comprehension of lines 133-135: either every answer,
      or the first question whose lookup raised and what it raised. */
  datatype AnswerKey = Answers(key: seq<Value>) | Raised(at: nat, error: Lookup)

  function DeriveAnswerKey(questions: seq<Value>): (d: AnswerKey)
    ensures d.Answers? <==> forall i :: 0 <= i < |questions| ==> AnswerOf(questions[i]).Found?
    ensures d.Answers? ==> |d.key| == |questions|
                           && forall i :: 0 <= i < |questions| ==> AnswerOf(questions[i]) == Found(d.key[i])
    ensures d.Raised? ==> d.at < |questions| && d.error == AnswerOf(questions[d.at]) && !d.error.Found?
                          && forall j :: 0 <= j < d.at ==> AnswerOf(questions[j]).Found?
  {
    if questions == [] then Answers([])
    else
      match AnswerOf(questions[0])
      case Found(v) =>
        (match DeriveAnswerKey(questions[1..])
         case Answers(rest) => Answers([v] + rest)
         case Raised(at, error) => Raised(at + 1, error))
      case error => Raised(0, error)
  }

  /** The question list and the answer list agree: same length, and each
      answer is its question's `options[correct]`. */
  predicate Consistent(questions: seq<Value>, answers: seq<Value>) {
    |questions| == |answers|
    && forall i :: 0 <= i < |questions| ==> AnswerOf(questions[i]) == Found(answers[i])
  }

  /** What "Generate" reports. */
  datatype Status =
    | NeedsText                              // the text area was empty
    | FetchFailed(notice: Notice)            // fetch_questions returned []
    | InvalidStructure(at: nat, error: Lookup)  // the answer key could not be built; state cleared
    | Aborted(at: nat, error: Lookup)        // an exception escaped the handler (as written only)
    | Generated                              // "Quiz generated successfully!"

  /** The session after "Generate", and its status. */
  datatype Step = Step(questions: seq<Value>, answers: seq<Value>, status: Status)

  /** Lines 121-141 as written: both lists are reset, refilled on success,
      and `questions` is cleared again only when the answer key raises a
      KeyError.  Any other exception escapes with `questions` already
      stored and `corrected_answers` still empty. */
  function GenerateAsWritten(text: string, reply: Reply, parse: string -> Parse): (step: Step)
    ensures Consistent(step.questions, step.answers) <==> !step.status.Aborted?
    ensures step.questions != [] <==> step.status.Generated? || step.status.Aborted?
  {
    if text == [] then Step([], [], NeedsText)
    else
      var fetched := Fetch(reply, parse);
      if fetched.questions == [] then Step([], [], FetchFailed(fetched.notice.value))
      else
        match DeriveAnswerKey(fetched.questions)
        case Answers(key) => Step(fetched.questions, key, Generated)
        case Raised(at, MissingKey) => Step([], [], InvalidStructure(at, MissingKey))
        case Raised(at, error) => Step(fetched.questions, [], Aborted(at, error))
  }

  /** Lines 169-173 as written raise at question `i` when the answer list
      is too short for it (`corrected_answers[i]`) or when the question
      has no "mcq" (`question['mcq']`). */
  predicate ResultLoopRaises(questions: seq<Value>, answers: seq<Value>, i: nat)
    requires i < |questions|
  {
    i >= |answers| || !Subscript(questions[i], Str("mcq")).Found?
  }

  /** The first question, from `from` on, at which the result loop as
      written raises, if any. */
  function FirstFault(questions: seq<Value>, answers: seq<Value>, from: nat): (r: Option<nat>)
    requires from <= |questions|
    decreases |questions| - from
    ensures r.Some? ==> from <= r.value < |questions| && ResultLoopRaises(questions, answers, r.value)
                        && forall j :: from <= j < r.value ==> !ResultLoopRaises(questions, answers, j)
    ensures r.None? ==> forall j :: from <= j < |questions| ==> !ResultLoopRaises(questions, answers, j)
  {
    if from == |questions| then None
    else if ResultLoopRaises(questions, answers, from) then Some(from)
    else FirstFault(questions, answers, from + 1)
  }

  /** As written, an escaped lookup error leaves a half-built quiz: the
      questions are stored, the answer list is empty, and the result loop
      raises at the first question (`corrected_answers[0]`). */
  lemma AbortedLeavesHalfQuiz(text: string, reply: Reply, parse: string -> Parse)
    requires GenerateAsWritten(text, reply, parse).status.Aborted?
    ensures var step := GenerateAsWritten(text, reply, parse);
            step.questions != [] && step.answers == []
            && FirstFault(step.questions, step.answers, 0) == Some(0)
  {
  }

  /** `str(x).strip().lower()`. */
  function Normalize(s: string): string {
    Lower(Strip(s))
  }

  /** A normal form carries no surrounding whitespace and no capital
      letter, so normalising it again changes nothing. */
  lemma NormalizeIsCanonical(s: string)
    ensures Trimmed(Normalize(s))
    ensures forall i :: 0 <= i < |Normalize(s)| ==> !('A' <= Normalize(s)[i] <= 'Z')
    ensures Normalize(Normalize(s)) == Normalize(s)
  {
    var n := Normalize(s);
    StripLower(Strip(s));
    StripTrimmed(Strip(s));
    StripTrimmed(n);
    LowerIdempotent(Strip(s));
  }

  /** Surrounding whitespace never changes the normal form. */
  lemma NormalizeIgnoresPadding(w1: string, s: string, w2: string)
    requires AllSpace(w1) && AllSpace(w2)
    ensures Normalize(w1 + s + w2) == Normalize(s)
  {
    StripIgnoresPadding(w1, s, w2);
  }

  /** Neither does letter case. */
  lemma NormalizeIgnoresCase(s: string)
    ensures Normalize(Lower(s)) == Normalize(s)
  {
    StripLower(s);
    LowerIdempotent(Strip(s));
  }

  /** A selection is right when it equals the answer after `str()`,
      trimming and lower-casing; `render` is Python's `str()`. */
  predicate Matches(pick: Value, answer: Value, render: Value -> string) {
    Normalize(render(pick)) == Normalize(render(answer))
  }

  /** A selection is right whenever, once both are lower-cased, it renders
      as the answer with whitespace around it: letter case on either side
      and surrounding whitespace do not matter. */
  lemma MatchesUpToPaddingAndCase(pick: Value, answer: Value, render: Value -> string,
                                  w1: string, w2: string)
    requires AllSpace(w1) && AllSpace(w2)
    requires Lower(render(pick)) == w1 + Lower(render(answer)) + w2
    ensures Matches(pick, answer, render)
  {
    StripLower(render(pick));
    StripIgnoresPadding(w1, Lower(render(answer)), w2);
    StripLower(render(answer));
  }

  /** The number of true entries, never more than there are entries. */
  function Count(verdicts: seq<bool>): (c: nat)
    ensures c <= |verdicts|
  {
    if verdicts == [] then 0
    else Count(verdicts[..|verdicts| - 1]) + (if verdicts[|verdicts| - 1] then 1 else 0)
  }

  /** A count reaches the length exactly when every entry is true. */
  lemma {:induction false} CountBounded(verdicts: seq<bool>)
    ensures Count(verdicts) == |verdicts| <==> forall i :: 0 <= i < |verdicts| ==> verdicts[i]
  {
    if verdicts != [] {
      var n := |verdicts| - 1;
      var front := verdicts[..n];
      CountBounded(front);
      assert forall i :: 0 <= i < n ==> front[i] == verdicts[i];
    }
  }

  /** The positions of the true entries. */
  function TruePositions(verdicts: seq<bool>): set<int> {
    set i | 0 <= i < |verdicts| && verdicts[i]
  }

  /** A count is the size of the set of true positions. */
  lemma {:induction false} CountIsSize(verdicts: seq<bool>)
    ensures Count(verdicts) == |TruePositions(verdicts)|
  {
    if verdicts != [] {
      var n := |verdicts| - 1;
      var front := verdicts[..n];
      CountIsSize(front);
      var before := TruePositions(front);
      var last: set<int> := if verdicts[n] then {n} else {};
      assert TruePositions(verdicts) == before + last;
      assert n !in before;
    } else {
      assert TruePositions(verdicts) == {};
    }
  }

  /** Question by question, whether the selection matches the answer. */
  function Verdicts(picks: seq<Value>, answers: seq<Value>, render: Value -> string): seq<bool>
    requires |picks| == |answers|
  {
    seq(|picks|, i requires 0 <= i < |picks| => Matches(picks[i], answers[i], render))
  }

  /** The marks of a submission: the number of matching questions, at
      most one per question. */
  function Marks(picks: seq<Value>, answers: seq<Value>, render: Value -> string): (m: nat)
    requires |picks| == |answers|
    ensures m <= |answers|
  {
    Count(Verdicts(picks, answers, render))
  }

  /** Marks lie between 0 and the number of questions, reach it exactly
      when every selection matches, and equal the number of indices
      whose selection matches. */
  lemma MarksBounded(picks: seq<Value>, answers: seq<Value>, render: Value -> string)
    requires |picks| == |answers|
    ensures Marks(picks, answers, render) <= |answers|
    ensures Marks(picks, answers, render) == |answers|
            <==> forall i :: 0 <= i < |answers| ==> Matches(picks[i], answers[i], render)
    ensures Marks(picks, answers, render)
            == |set i | 0 <= i < |answers| && Matches(picks[i], answers[i], render)|
  {
    var v := Verdicts(picks, answers, render);
    assert forall i | 0 <= i < |v| :: v[i] == Matches(picks[i], answers[i], render);
    CountBounded(v);
    CountIsSize(v);
    assert TruePositions(v) == set i | 0 <= i < |answers| && Matches(picks[i], answers[i], render);
  }

  /** Selecting `options[correct]` for every question earns full marks. */
  lemma AnswerKeyScoresFull(questions: seq<Value>, picks: seq<Value>, render: Value -> string)
    requires DeriveAnswerKey(questions).Answers?
    requires |picks| == |questions|
    requires forall i :: 0 <= i < |questions| ==> AnswerOf(questions[i]) == Found(picks[i])
    ensures Marks(picks, DeriveAnswerKey(questions).key, render) == |questions|
  {
    var key := DeriveAnswerKey(questions).key;
    assert picks == key;
    MarksBounded(picks, key, render);
  }

  /** The result loop of lines 165-178, without its read of "mcq": one
      mark for each question whose selection matches its answer. */
  method Score(picks: seq<Value>, answers: seq<Value>, render: Value -> string) returns (marks: nat)
    requires |picks| == |answers|
    ensures marks == Marks(picks, answers, render)
  {
    ghost var verdicts := Verdicts(picks, answers, render);
    marks := 0;
    var i := 0;
    while i < |answers|
      invariant 0 <= i <= |answers|
      invariant marks == Count(verdicts[..i])
    {
      var selected := picks[i];
      var correct := answers[i];
      assert verdicts[..i + 1][..i] == verdicts[..i];
      assert verdicts[i] == Matches(selected, correct, render);
      if Matches(selected, correct, render) {
        marks := marks + 1;
      }
      i := i + 1;
    }
    assert verdicts[..i] == verdicts;
  }

  /** How a submission ends. */
  datatype Submission =
    | NoForm                                 // no questions: the form is not shown
    | Unanswered                             // "Please answer all questions"
    | Scored(marks: nat, total: nat)         // "{marks} out of {total}"

  /** The per-session store (`st.session_state`) with its two lists. */
  class Session {
    var questions: seq<Value>
    var correctedAnswers: seq<Value>

    ghost predicate Valid()
      reads this
    {
      Consistent(questions, correctedAnswers)
    }

    /** First access: both lists default to empty (lines 106-107). */
    constructor ()
      ensures Valid()
      ensures questions == [] && correctedAnswers == []
    {
      questions := [];
      correctedAnswers := [];
    }

    /** The "Generate" button (lines 121-141): clear both lists, then
        fill them only from a successful fetch whose answer key can be
        built; a lookup failure of any kind clears the quiz again. */
    method Generate(text: string, reply: Reply, parse: string -> Parse) returns (status: Status)
      modifies this
      ensures Valid()
      ensures !status.Aborted?
      ensures text == [] ==> status == NeedsText
      ensures questions != [] <==> status == Generated
      ensures status == Generated ==>
                text != [] && questions == Fetch(reply, parse).questions
                && DeriveAnswerKey(questions) == Answers(correctedAnswers)
      ensures status.FetchFailed? ==> text != [] && Fetch(reply, parse).notice == Some(status.notice)
      ensures status.InvalidStructure? ==>
                text != [] && DeriveAnswerKey(Fetch(reply, parse).questions) == Raised(status.at, status.error)
      ensures var step := GenerateAsWritten(text, reply, parse);
              if step.status.Aborted?
              then status == InvalidStructure(step.status.at, step.status.error)
                   && questions == [] && correctedAnswers == []
              else status == step.status && questions == step.questions && correctedAnswers == step.answers
    {
      questions := [];
      correctedAnswers := [];
      if text == [] {
        return NeedsText;
      }
      var fetched := Fetch(reply, parse);
      if fetched.questions == [] {
        return FetchFailed(fetched.notice.value);
      }
      questions := fetched.questions;
      match DeriveAnswerKey(questions) {
        case Answers(key) =>
          correctedAnswers := key;
          status := Generated;
        case Raised(at, error) =>
          questions := [];
          status := InvalidStructure(at, error);
      }
    }

    /** The quiz form (lines 144-184), with the result loop corrected so
        that it never reads "mcq" (line 173 does, without a default):
        `picks` are the radio values, one per question, with `Null` for
        Python's None.  An unset selection stops the submission; otherwise
        the marks are counted. */
    method Submit(picks: seq<Value>, render: Value -> string) returns (result: Submission)
      requires Valid()
      requires |picks| == |questions|
      ensures questions == [] ==> result == NoForm
      ensures questions != [] && Null in picks ==> result == Unanswered
      ensures questions != [] && Null !in picks ==>
                result == Scored(Marks(picks, correctedAnswers, render), |questions|)
    {
      if questions == [] {
        return NoForm;
      }
      // `user_selections`: its keys are 0, 1, ... in insertion order, so it
      // is held as the sequence of its values.
      var selections: seq<Value> := [];
      var i := 0;
      while i < |questions|
        invariant 0 <= i <= |questions|
        invariant selections == picks[..i]
      {
        selections := selections + [picks[i]];
        i := i + 1;
      }
      assert selections == picks;
      if Null in selections {
        return Unanswered;
      }
      var marks := Score(selections, correctedAnswers, render);
      return Scored(marks, |questions|);
    }
  }
}

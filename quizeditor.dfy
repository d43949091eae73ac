/**
 * The teacher's quiz editor: a title, a retry limit, a time limit and a list of questions, each
 * with its choices and the index of the correct one. The form always keeps at least one
 * question and at least two choices per question, and its submit handler checks the form before
 * it posts the quiz to the server.
 */
module QuizEditor {
  import opened Common
  import opened Strings
  import Quizzes

  /** A question as the editor holds it. */
  datatype EditorQuestion = EditorQuestion(text: string, choices: seq<string>, correctIndex: int)

  /** The new question `addQuestion` appends and the form starts with. */
  const BlankQuestion: EditorQuestion := EditorQuestion("", ["", ""], 0)

  /** A question the form can hold: two choices or more, and the marked choice one of them. */
  predicate WellFormed(q: EditorQuestion)
  {
    |q.choices| >= 2 && 0 <= q.correctIndex < |q.choices|
  }

  /** The messages the submit handler can show; question numbers count from 1. */
  datatype EditorError =
    | NoError
    | TitleMissing
    | RetryOutOfRange
    | TimeTooShort
    | QuestionEmpty(number: nat)
    | ChoiceEmpty(number: nat)
    | NotLoggedIn
    | SaveFailed

  /** The question's text and every one of its choices have a non-blank character. */
  predicate Filled(q: EditorQuestion)
  {
    !IsBlank(q.text) && forall c :: 0 <= c < |q.choices| ==> !IsBlank(q.choices[c])
  }

  predicate AllFilled(qs: seq<EditorQuestion>)
  {
    forall i :: 0 <= i < |qs| ==> Filled(qs[i])
  }

  /** The message for a question that is not filled in, numbered from 1. */
  function Problem(q: EditorQuestion, i: nat): (e: EditorError)
    requires !Filled(q)
    ensures e == QuestionEmpty(i + 1) || e == ChoiceEmpty(i + 1)
    ensures e.QuestionEmpty? <==> IsBlank(q.text)
  {
    if IsBlank(q.text) then QuestionEmpty(i + 1) else ChoiceEmpty(i + 1)
  }

  /** `choices.some(c => !c.trim())` */
  method SomeBlank(choices: seq<string>) returns (found: bool)
    ensures found <==> exists c :: 0 <= c < |choices| && IsBlank(choices[c])
  {
    found := false;
    var c := 0;
    while c < |choices| && !found
      invariant 0 <= c <= |choices|
      invariant found <==> exists k :: 0 <= k < c && IsBlank(choices[k])
    {
      found := IsBlank(choices[c]);
      c := c + 1;
    }
  }

  /**
   * The question loop of the submit handler: NoError when every question is filled in,
   * otherwise the message for the first question that is not.
   */
  method FirstProblem(qs: seq<EditorQuestion>) returns (e: EditorError)
    ensures e == NoError <==> AllFilled(qs)
    ensures e != NoError ==>
      exists i :: 0 <= i < |qs| && !Filled(qs[i]) && e == Problem(qs[i], i) && forall j :: 0 <= j < i ==> Filled(qs[j])
  {
    var i := 0;
    while i < |qs|
      invariant 0 <= i <= |qs|
      invariant AllFilled(qs[..i])
    {
      if IsBlank(qs[i].text) {
        return QuestionEmpty(i + 1);
      }
      var blank := SomeBlank(qs[i].choices);
      if blank {
        return ChoiceEmpty(i + 1);
      }
      i := i + 1;
    }
    return NoError;
  }

  /** `retryLimit < 1 || retryLimit > 3`; a NaN (None) compares false both ways and passes. */
  predicate RetryRejected(r: Option<int>)
  {
    r.Some? && (r.value < 1 || r.value > 3)
  }

  /** `timeLimit < 1`; a NaN passes. */
  predicate TimeRejected(t: Option<int>)
  {
    t.Some? && t.value < 1
  }

  /** A number as the JSON body carries it; NaN is sent as null, which the server reads as missing. */
  function JsonNumber(v: Option<int>): int
  {
    if v.Some? then v.value else 0
  }

  /** The request body the editor posts. */
  function Body(title: string, retry: Option<int>, time: Option<int>, qs: seq<EditorQuestion>): (b: Quizzes.QuizBody)
    ensures b.title == title && b.questions.Some? && |b.questions.value| == |qs|
    ensures forall i :: 0 <= i < |qs| ==>
      b.questions.value[i] == Quizzes.QuestionInput(qs[i].text, Some(qs[i].choices), Some(qs[i].correctIndex))
  {
    Quizzes.QuizBody(title, JsonNumber(retry), JsonNumber(time),
      Some(seq(|qs|, i requires 0 <= i < |qs| => Quizzes.QuestionInput(qs[i].text, Some(qs[i].choices), Some(qs[i].correctIndex)))))
  }

  /** A string with a non-space character is not empty. */
  lemma NonBlankNonEmpty(s: string)
    requires !IsBlank(s)
    ensures s != ""
  {
  }

  /** A text of Unicode space separators, such as the full-width space, trims to nothing. */
  lemma UnicodeSpacesBlank()
    ensures IsBlank("\U{3000}") && IsBlank("\U{1680}\U{2000}\U{200A}\U{202F}\U{205F}")
  {
  }

  /**
   * What the editor lets through, the server accepts: a form of well-formed questions that
   * passes every client check posts a body the create handler validates, provided both limits
   * are numbers. A NaN limit passes the client and is refused by the server.
   */
  lemma {:induction false} ClientChecksImplyServerChecks(title: string, retry: Option<int>, time: Option<int>, qs: seq<EditorQuestion>)
    requires forall i :: 0 <= i < |qs| ==> WellFormed(qs[i]) && Filled(qs[i])
    requires !IsBlank(title) && !RetryRejected(retry) && !TimeRejected(time)
    ensures Quizzes.QuizOk(Body(title, retry, time, qs)) <==> retry.Some? && time.Some?
  {
    var b := Body(title, retry, time, qs);
    forall i | 0 <= i < |qs|
      ensures Quizzes.QuestionOk(b.questions.value[i])
    {
      var q := qs[i];
      assert b.questions.value[i] == Quizzes.QuestionInput(q.text, Some(q.choices), Some(q.correctIndex));
      assert WellFormed(q) && Filled(q);
      NonBlankNonEmpty(q.text);
      forall k | 0 <= k < |q.choices|
        ensures q.choices[k] != ""
      {
        NonBlankNonEmpty(q.choices[k]);
      }
    }
    NonBlankNonEmpty(title);
  }

  /** `choices.splice(c, 1)` followed by the reset of an index that fell off the end. */
  function WithoutChoice(q: EditorQuestion, c: nat): (r: EditorQuestion)
    requires c < |q.choices|
    ensures r.text == q.text && |r.choices| == |q.choices| - 1
    ensures forall k :: 0 <= k < c ==> r.choices[k] == q.choices[k]
    ensures forall k :: c <= k < |r.choices| ==> r.choices[k] == q.choices[k + 1]
    ensures r.correctIndex == if q.correctIndex >= |q.choices| - 1 then 0 else q.correctIndex
  {
    var choices := q.choices[..c] + q.choices[c + 1..];
    EditorQuestion(q.text, choices, if q.correctIndex >= |choices| then 0 else q.correctIndex)
  }

  /** Removing a choice keeps a well-formed question with more than two choices well-formed. */
  lemma WithoutChoiceWellFormed(q: EditorQuestion, c: nat)
    requires WellFormed(q) && |q.choices| > 2 && c < |q.choices|
    ensures WellFormed(WithoutChoice(q, c))
  {
  }

  /**
   * The index is not shifted when an earlier choice is removed: the marked answer moves to the
   * choice that followed the old one.
   */
  lemma RemovalMovesMark(q: EditorQuestion, c: nat)
    requires WellFormed(q) && c < q.correctIndex < |q.choices| - 1
    ensures WithoutChoice(q, c).choices[WithoutChoice(q, c).correctIndex] == q.choices[q.correctIndex + 1]
  {
  }

  class Editor {
    var title: string
    /** None stands for the NaN that `parseInt` gives for an empty or non-numeric field. */
    var retryLimit: Option<int>
    var timeLimit: Option<int>
    var questions: seq<EditorQuestion>
    var error: EditorError

    /** The form keeps one question or more, each well-formed. */
    ghost predicate Valid()
      reads this
    {
      |questions| >= 1 && forall i :: 0 <= i < |questions| ==> WellFormed(questions[i])
    }

    constructor ()
      ensures Valid()
      ensures title == "" && retryLimit == Some(3) && timeLimit == Some(10)
      ensures questions == [BlankQuestion] && error == NoError
    {
      title := "";
      retryLimit := Some(3);
      timeLimit := Some(10);
      questions := [BlankQuestion];
      error := NoError;
    }

    method SetTitle(value: string)
      modifies this`title
      ensures title == value
    {
      title := value;
    }

    method SetRetryLimit(value: Option<int>)
      modifies this`retryLimit
      ensures retryLimit == value
    {
      retryLimit := value;
    }

    method SetTimeLimit(value: Option<int>)
      modifies this`timeLimit
      ensures timeLimit == value
    {
      timeLimit := value;
    }

    /** `handleQuestionText` */
    method SetQuestionText(idx: nat, value: string)
      requires Valid() && idx < |questions|
      modifies this`questions
      ensures Valid()
      ensures questions == old(questions)[idx := old(questions)[idx].(text := value)]
    {
      questions := questions[idx := questions[idx].(text := value)];
    }

    /** `handleChoiceChange` */
    method SetChoice(qIdx: nat, cIdx: nat, value: string)
      requires Valid() && qIdx < |questions| && cIdx < |questions[qIdx].choices|
      modifies this`questions
      ensures Valid()
      ensures questions == old(questions)[qIdx := old(questions)[qIdx].(choices := old(questions)[qIdx].choices[cIdx := value])]
    {
      var q := questions[qIdx];
      questions := questions[qIdx := q.(choices := q.choices[cIdx := value])];
    }

    /** `handleCorrectIndex`, called from the radio button of choice `index`. */
    method SetCorrectIndex(qIdx: nat, index: nat)
      requires Valid() && qIdx < |questions| && index < |questions[qIdx].choices|
      modifies this`questions
      ensures Valid()
      ensures questions == old(questions)[qIdx := old(questions)[qIdx].(correctIndex := index)]
    {
      questions := questions[qIdx := questions[qIdx].(correctIndex := index)];
    }

    /** `addChoice`: an empty choice at the end. */
    method AddChoice(qIdx: nat)
      requires Valid() && qIdx < |questions|
      modifies this`questions
      ensures Valid()
      ensures questions == old(questions)[qIdx := old(questions)[qIdx].(choices := old(questions)[qIdx].choices + [""])]
    {
      var q := questions[qIdx];
      questions := questions[qIdx := q.(choices := q.choices + [""])];
    }

    /** `removeChoice`: only a question with more than two choices loses one. */
    method RemoveChoice(qIdx: nat, cIdx: nat)
      requires Valid() && qIdx < |questions| && cIdx < |questions[qIdx].choices|
      modifies this`questions
      ensures Valid()
      ensures |old(questions)[qIdx].choices| <= 2 ==> questions == old(questions)
      ensures |old(questions)[qIdx].choices| > 2 ==> questions == old(questions)[qIdx := WithoutChoice(old(questions)[qIdx], cIdx)]
    {
      if |questions[qIdx].choices| > 2 {
        WithoutChoiceWellFormed(questions[qIdx], cIdx);
        questions := questions[qIdx := WithoutChoice(questions[qIdx], cIdx)];
      }
    }

    /** `addQuestion`: a blank question at the end. */
    method AddQuestion()
      requires Valid()
      modifies this`questions
      ensures Valid()
      ensures questions == old(questions) + [BlankQuestion]
    {
      questions := questions + [BlankQuestion];
    }

    /** `removeQuestion`: the last remaining question cannot be removed. */
    method RemoveQuestion(qIdx: nat)
      requires Valid() && qIdx < |questions|
      modifies this`questions
      ensures Valid()
      ensures |old(questions)| <= 1 ==> questions == old(questions)
      ensures |old(questions)| > 1 ==> questions == old(questions)[..qIdx] + old(questions)[qIdx + 1..]
    {
      if |questions| > 1 {
        questions := questions[..qIdx] + questions[qIdx + 1..];
      }
    }

    /**
     * `handleSubmit`: the checks in order (title, retry limit, time limit, each question, login),
     * then the post; `saved` is whether the server stored the quiz. The body is returned when it
     * is sent.
     */
    method Submit(loggedIn: bool, saved: bool) returns (sent: Option<Quizzes.QuizBody>)
      requires Valid()
      modifies this`error
      ensures sent.Some? <==>
        && !IsBlank(title) && !RetryRejected(retryLimit) && !TimeRejected(timeLimit)
        && AllFilled(questions) && loggedIn
      ensures sent.Some? ==> sent.value == Body(title, retryLimit, timeLimit, questions)
      ensures sent.Some? ==> (Quizzes.QuizOk(sent.value) <==> retryLimit.Some? && timeLimit.Some?)
      ensures sent.Some? ==> error == (if saved then NoError else SaveFailed)
      ensures IsBlank(title) ==> error == TitleMissing
      ensures !IsBlank(title) && RetryRejected(retryLimit) ==> error == RetryOutOfRange
      ensures !IsBlank(title) && !RetryRejected(retryLimit) && TimeRejected(timeLimit) ==> error == TimeTooShort
      ensures !IsBlank(title) && !RetryRejected(retryLimit) && !TimeRejected(timeLimit) && !AllFilled(questions) ==>
        exists i :: 0 <= i < |questions| && !Filled(questions[i]) && error == Problem(questions[i], i)
                    && forall j :: 0 <= j < i ==> Filled(questions[j])
      ensures !IsBlank(title) && !RetryRejected(retryLimit) && !TimeRejected(timeLimit) && AllFilled(questions) && !loggedIn ==>
        error == NotLoggedIn
    {
      error := NoError;
      sent := None;
      if IsBlank(title) {
        error := TitleMissing;
        return;
      }
      if RetryRejected(retryLimit) {
        error := RetryOutOfRange;
        return;
      }
      if TimeRejected(timeLimit) {
        error := TimeTooShort;
        return;
      }
      var problem := FirstProblem(questions);
      if problem != NoError {
        error := problem;
        return;
      }
      if !loggedIn {
        error := NotLoggedIn;
        return;
      }
      ClientChecksImplyServerChecks(title, retryLimit, timeLimit, questions);
      sent := Some(Body(title, retryLimit, timeLimit, questions));
      if !saved {
        error := SaveFailed;
      }
    }
  }
}

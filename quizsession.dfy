/**
 * The quiz page a student takes a quiz on: it loads the quiz detail, lets the student start
 * (when retries are left), answer question by question against a countdown, and finish, which
 * scores the answers and posts the percentage to the server.
 *
 * Every React state variable of the page is a field of `Session`; every handler is a method.
 * The countdown is a `Tick` event (one firing of the one-second interval), and the network
 * round trip of the submission is split into `Finish`, which returns the request it sends, and
 * `SubmitDone`, which applies the answer.
 */
module QuizSession {
  import opened Common
  import opened Strings
  import Quizzes

  // ---------------------------------------------------------------- time display

  /** JavaScript's `%`: the remainder takes the sign of the dividend. */
  function JsRem(a: int, b: nat): (r: int)
    requires b > 0
    ensures a >= 0 ==> 0 <= r < b
    ensures a < 0 ==> -(b as int) < r <= 0
  {
    if a >= 0 then a % b else -((-a) % b)
  }

  /** `formatTime`: whole minutes (rounded down) and the remaining seconds, each padded to two digits. */
  function FormatTime(seconds: int): string
  {
    PadStart2(IntToString(seconds / 60)) + ":" + PadStart2(IntToString(JsRem(seconds, 60)))
  }

  /** A two-digit field as `padStart(2, "0")` renders a number below 100. */
  lemma {:induction false} PaddedValue(n: nat)
    requires n < 100
    ensures |PadStart2(NatToString(n))| == 2 && AllDigits(PadStart2(NatToString(n)))
    ensures DigitsValue(PadStart2(NatToString(n))) == n
  {
    NatToStringShort(n);
    NatToStringValue(n);
    PaddedDigits(NatToString(n));
  }

  /** Whole minutes and JavaScript's remainder split a time below 100 minutes into its fields. */
  lemma TimeFields(seconds: int)
    requires 0 <= seconds < 6000
    ensures 0 <= seconds / 60 < 100 && 0 <= JsRem(seconds, 60) < 60
    ensures (seconds / 60) * 60 + JsRem(seconds, 60) == seconds
  {
  }

  /** Two two-character fields joined by a colon. */
  lemma ColonFields(a: string, b: string)
    requires |a| == 2 && |b| == 2
    ensures var r := a + ":" + b;
      && |r| == 5 && r[2] == ':' && r[..2] == a && r[3..] == b
      && r[0] == a[0] && r[1] == a[1] && r[3] == b[0] && r[4] == b[1]
  {
  }

  /**
   * For any time below 100 minutes the display is `MM:SS`: five characters, a colon in the
   * middle, seconds below 60, and reading the two fields back gives the time.
   */
  lemma {:induction false} FormatTimeReadBack(seconds: int)
    requires 0 <= seconds < 6000
    ensures |FormatTime(seconds)| == 5 && FormatTime(seconds)[2] == ':'
    ensures AllDigits(FormatTime(seconds)[..2]) && AllDigits(FormatTime(seconds)[3..])
    ensures DigitsValue(FormatTime(seconds)[3..]) < 60
    ensures DigitsValue(FormatTime(seconds)[..2]) * 60 + DigitsValue(FormatTime(seconds)[3..]) == seconds
  {
    TimeFields(seconds);
    var m: nat := seconds / 60;
    var s: nat := JsRem(seconds, 60);
    PaddedValue(m);
    PaddedValue(s);
    var a := PadStart2(NatToString(m));
    var b := PadStart2(NatToString(s));
    ColonFields(a, b);
    assert FormatTime(seconds) == a + ":" + b;
  }

  // ---------------------------------------------------------------- options and scoring

  /** `String.fromCharCode(65 + i)` stays a single scalar value below this bound. */
  const MaxLabels: nat := 0xD800 - 65

  /** The letter of the i-th choice: A, B, C, ... */
  function Letter(i: nat): (c: char)
    requires i < MaxLabels
    ensures c as int == 65 + i
  {
    (65 + i) as char
  }

  /** The label of an option as the page shows it: `${letter}. ${choice}`. */
  function OptionText(i: nat, choice: string): (t: string)
    requires i < MaxLabels
    ensures |t| >= 3 && t[0] == Letter(i) && t[1] == '.' && t[2] == ' ' && t[3..] == choice
  {
    [Letter(i)] + ". " + choice
  }

  /**
   * The letter the scoring compares against: `String.fromCharCode(65 + correctIndex)`, where a
   * null index counts as 0. A code that is not a scalar value is not modelled and scores nothing.
   */
  function CorrectLabel(ci: Option<int>): (l: Option<char>)
    ensures l.Some? ==> l.value as int == 65 + (if ci.Some? then ci.value else 0)
    ensures ci.Some? && 0 <= ci.value < MaxLabels ==> l == Some(Letter(ci.value))
  {
    var code := 65 + (if ci.Some? then ci.value else 0);
    if 0 <= code < 0xD800 then Some(code as char) else None
  }

  /** A question as the page keeps it after loading. */
  datatype ClientQuestion = ClientQuestion(
    id: nat, text: string, options: seq<string>, correctAnswer: string, correctIndex: Option<int>)

  /** The choices of a loaded question, each within the label range. */
  predicate Labellable(v: Quizzes.QuestionView)
  {
    |v.choices| <= MaxLabels && (v.correctIndex.Some? ==> 0 <= v.correctIndex.value < MaxLabels)
  }

  /** `${letter(correctIndex)}. ${choices[correctIndex]}`, where an out-of-range element reads `undefined`. */
  function CorrectAnswer(v: Quizzes.QuestionView): string
    requires Labellable(v)
  {
    var i := if v.correctIndex.Some? then v.correctIndex.value else 0;
    var l := if v.correctIndex.Some? then [Letter(i)] else [Letter(0)];
    var c := if v.correctIndex.Some? && i < |v.choices| then v.choices[i] else "undefined";
    l + ". " + c
  }

  /** The options of a question: each choice behind its letter. */
  function Options(choices: seq<string>): (os: seq<string>)
    requires |choices| <= MaxLabels
    ensures |os| == |choices|
    ensures forall i :: 0 <= i < |choices| ==> os[i] == OptionText(i, choices[i])
  {
    seq(|choices|, i requires 0 <= i < |choices| => OptionText(i, choices[i]))
  }

  /** The `quiz.questions.map(...)` of the load handler. */
  function ClientQuestions(vs: seq<Quizzes.QuestionView>): (qs: seq<ClientQuestion>)
    requires forall k :: 0 <= k < |vs| ==> Labellable(vs[k])
    ensures |qs| == |vs|
    ensures forall k :: 0 <= k < |vs| ==>
      && Labellable(vs[k])
      && qs[k].id == vs[k].id && qs[k].text == vs[k].text && qs[k].correctIndex == vs[k].correctIndex
      && qs[k].options == Options(vs[k].choices)
  {
    seq(|vs|, k requires 0 <= k < |vs| && Labellable(vs[k]) =>
      ClientQuestion(vs[k].id, vs[k].text, Options(vs[k].choices), CorrectAnswer(vs[k]), vs[k].correctIndex))
  }

  /** Question idx is answered with an option whose text starts with the correct letter and a dot. */
  predicate Correct(qs: seq<ClientQuestion>, answers: map<int, string>, idx: int)
    requires 0 <= idx < |qs|
  {
    var l := CorrectLabel(qs[idx].correctIndex);
    idx in answers && l.Some? && StartsWith(answers[idx], [l.value] + ".")
  }

  /** The number of correctly answered questions, counted from the end. */
  function ScoreOf(qs: seq<ClientQuestion>, answers: map<int, string>): (n: nat)
    ensures n <= |qs|
    decreases |qs|
  {
    if qs == [] then 0
    else
      var k := |qs| - 1;
      ScoreOf(qs[..k], answers) + (if Correct(qs, answers, k) then 1 else 0)
  }

  /** Whether question idx counts depends on that question and its own answer only. */
  lemma CorrectPrefix(qs: seq<ClientQuestion>, answers: map<int, string>, j: nat, idx: nat)
    requires idx < j <= |qs|
    ensures Correct(qs[..j], answers, idx) == Correct(qs, answers, idx)
  {
  }

  /** Picking option i of a question scores exactly when i is the question's correct index. */
  lemma {:induction false} OptionScores(i: nat, choice: string, ci: nat)
    requires i < MaxLabels && ci < MaxLabels
    ensures StartsWith(OptionText(i, choice), [Letter(ci)] + ".") <==> i == ci
  {
    var t := OptionText(i, choice);
    var p := [Letter(ci)] + ".";
    if StartsWith(t, p) {
      assert t[0] == p[0];
    } else {
      assert t[..2] == [t[0], t[1]];
      assert p == [p[0], p[1]];
    }
  }

  /**
   * On a loaded quiz, answering question k with its option i counts exactly when i is the
   * stored correct index; a question whose index is null counts its first option.
   */
  lemma {:induction false} AnswerScores(vs: seq<Quizzes.QuestionView>, answers: map<int, string>, k: nat, i: nat)
    requires forall j :: 0 <= j < |vs| ==> Labellable(vs[j])
    requires k < |vs| && i < |vs[k].choices|
    requires k in answers && answers[k] == ClientQuestions(vs)[k].options[i]
    ensures Correct(ClientQuestions(vs), answers, k) <==>
      i == (if vs[k].correctIndex.Some? then vs[k].correctIndex.value else 0)
  {
    assert Labellable(vs[k]);
    var ci := if vs[k].correctIndex.Some? then vs[k].correctIndex.value else 0;
    assert CorrectLabel(vs[k].correctIndex) == Some(Letter(ci));
    OptionScores(i, vs[k].choices[i], ci);
  }

  /** Every question answered with its correct option gives the full score. */
  lemma {:induction false} FullScore(qs: seq<ClientQuestion>, answers: map<int, string>)
    requires forall k :: 0 <= k < |qs| ==> Correct(qs, answers, k)
    ensures ScoreOf(qs, answers) == |qs|
    decreases |qs|
  {
    if qs != [] {
      var k := |qs| - 1;
      forall j | 0 <= j < k
        ensures Correct(qs[..k], answers, j)
      {
        CorrectPrefix(qs, answers, k, j);
      }
      FullScore(qs[..k], answers);
    }
  }

  /** With no question answered the score is 0. */
  lemma {:induction false} NoAnswersScoreZero(qs: seq<ClientQuestion>)
    ensures ScoreOf(qs, map[]) == 0
    decreases |qs|
  {
    if qs != [] {
      NoAnswersScoreZero(qs[..|qs| - 1]);
    }
  }

  /** The `forEach` of `handleFinish` that adds up the correct answers. */
  method TotalScore(qs: seq<ClientQuestion>, answers: map<int, string>) returns (total: nat)
    ensures total == ScoreOf(qs, answers)
  {
    total := 0;
    var idx := 0;
    while idx < |qs|
      invariant 0 <= idx <= |qs|
      invariant total == ScoreOf(qs[..idx], answers)
    {
      assert qs[..idx + 1][..idx] == qs[..idx];
      CorrectPrefix(qs, answers, idx + 1, idx);
      if Correct(qs, answers, idx) {
        total := total + 1;
      }
      idx := idx + 1;
    }
    assert qs[..idx] == qs;
  }

  /** `Math.round(finalScore / questions.length * 100)`; None where it is NaN, i.e. for a quiz without questions. */
  function Percent(score: nat, n: nat): (p: Option<nat>)
    ensures p.None? <==> n == 0
    ensures p.Some? && score <= n ==> p.value <= 100
    ensures p.Some? && score == n ==> p.value == 100
    ensures p.Some? && score == 0 ==> p.value == 0
  {
    if n == 0 then None else Some(RoundPercent(score, n))
  }

  // ---------------------------------------------------------------- the page

  /** The message the page shows, if any. */
  datatype Notice = Clear | InvalidId | LoadFailed | NoRetriesLeft | SubmitFailed

  /** The body of `POST /api/quiz-results`; a None score is NaN, which is sent as null. */
  datatype Submission = Submission(quizId: Option<nat>, score: Option<nat>)

  /** `remainingRetries || retry_limit`: a count of 0 is falsy and is replaced by the limit. */
  function LoadedRetries(d: Quizzes.QuizDetail): int
  {
    if d.remainingRetries != 0 then d.remainingRetries else d.retryLimit
  }

  /** `time_limit || 10` */
  function LoadedTimeLimit(d: Quizzes.QuizDetail): int
  {
    if d.timeLimit != 0 then d.timeLimit else 10
  }

  predicate DetailLabellable(d: Quizzes.QuizDetail)
  {
    forall k :: 0 <= k < |d.questions| ==> Labellable(d.questions[k])
  }

  class Session {
    var quizId: Option<nat>
    var title: string
    var questions: seq<ClientQuestion>
    var answers: map<int, string>
    var current: int
    var score: nat
    var maxRetries: int
    var remaining: int
    var startPopup: bool
    var started: bool
    var showResult: bool
    var notice: Notice
    var timeLimit: int
    var timeLeft: int
    var submitting: bool
    var loading: bool
    /** Whether the one-second interval is installed. */
    var ticking: bool

    /** The question index never passes the last question (it drops below 0 only by going back from 0). */
    predicate InRange()
      reads this
    {
      current < |questions| || current <= 0
    }

    /**
     * The state the page cannot render: the quiz screen is up (no error, loaded, started, no
     * result) but the index names no question, so reading `questions[currentQuestion].text`
     * throws.
     */
    predicate RenderFails()
      reads this
    {
      !loading && notice == Clear && started && !showResult && !(0 <= current < |questions|)
    }

    /**
     * The page mounts with its initial state and loads quiz `id`; a missing id (or the string
     * "undefined") shows an error, a failed request shows the server's error.
     */
    constructor Load(id: Option<nat>, response: Outcome<Quizzes.QuizDetail>)
      requires response.Ok? ==> DetailLabellable(response.value)
      ensures InRange()
      ensures answers == map[] && current == 0 && score == 0 && !loading
      ensures startPopup && !started && !showResult && timeLeft == 0 && !submitting && !ticking
      ensures quizId == id
      ensures id.Some? && response.Ok? ==>
        var d := response.value;
        && title == d.title && maxRetries == d.retryLimit
        && remaining == LoadedRetries(d) && timeLimit == LoadedTimeLimit(d)
        && questions == ClientQuestions(d.questions) && notice == Clear
      ensures id.None? ==> notice == InvalidId && questions == [] && remaining == 3 && timeLimit == 0
      ensures id.Some? && response.Err? ==> notice == LoadFailed && questions == [] && remaining == 3 && timeLimit == 0
    {
      quizId := id;
      title := "";
      questions := [];
      answers := map[];
      current := 0;
      score := 0;
      maxRetries := 3;
      remaining := 3;
      startPopup := true;
      started := false;
      showResult := false;
      notice := Clear;
      timeLimit := 0;
      timeLeft := 0;
      submitting := false;
      ticking := false;
      if id.None? {
        notice := InvalidId;
      } else if response.Err? {
        notice := LoadFailed;
      } else {
        var d := response.value;
        title := d.title;
        maxRetries := d.retryLimit;
        remaining := LoadedRetries(d);
        timeLimit := LoadedTimeLimit(d);
        questions := ClientQuestions(d.questions);
      }
      loading := false;
    }

    /**
     * `handleFinish` with the `submitQuiz` it calls: stop the interval, score the answers, show
     * the result and, unless a submission is already in flight, send the percentage.
     */
    method Finish() returns (sent: Option<Submission>)
      modifies this`ticking, this`score, this`showResult, this`submitting
      ensures score == ScoreOf(questions, answers)
      ensures showResult && !ticking && submitting
      ensures sent == if old(submitting) then None else Some(Submission(quizId, Percent(score, |questions|)))
      ensures sent.Some? && sent.value.score.Some? ==> sent.value.score.value <= 100
    {
      ticking := false;
      var total := TotalScore(questions, answers);
      score := total;
      showResult := true;
      if submitting {
        sent := None;
      } else {
        submitting := true;
        sent := Some(Submission(quizId, Percent(total, |questions|)));
      }
    }

    /** The server's answer to a submission: one retry fewer (never below 0), or an error. */
    method SubmitDone(accepted: bool)
      modifies this`remaining, this`notice, this`submitting
      ensures !submitting
      ensures accepted ==> remaining == (if old(remaining) > 0 then old(remaining) - 1 else 0) && notice == old(notice)
      ensures !accepted ==> remaining == old(remaining) && notice == SubmitFailed
    {
      if accepted {
        remaining := if remaining - 1 > 0 then remaining - 1 else 0;
      } else {
        notice := SubmitFailed;
      }
      submitting := false;
    }

    /**
     * `startQuiz`: with no retries left only an error is shown; otherwise the countdown starts
     * from the time limit in seconds, and a countdown that starts at 0 finishes at once.
     */
    method Start() returns (sent: Option<Submission>)
      modifies this`notice, this`started, this`timeLeft, this`startPopup, this`ticking
      modifies this`score, this`showResult, this`submitting
      ensures old(remaining) <= 0 ==>
        && notice == NoRetriesLeft && sent.None?
        && started == old(started) && timeLeft == old(timeLeft) && startPopup == old(startPopup)
        && ticking == old(ticking) && score == old(score) && showResult == old(showResult)
        && submitting == old(submitting)
      ensures old(remaining) > 0 ==>
        && notice == Clear && started && timeLeft == timeLimit * 60 && !startPopup
      ensures old(remaining) > 0 && timeLimit * 60 > 0 ==>
        && ticking && sent.None?
        && score == old(score) && showResult == old(showResult) && submitting == old(submitting)
      ensures old(remaining) > 0 && timeLimit * 60 > 0 && |questions| == 0 && !loading && !old(showResult) ==> RenderFails()
      ensures old(remaining) > 0 && timeLimit * 60 <= 0 ==>
        && !ticking && showResult && submitting && score == ScoreOf(questions, answers)
        && sent == if old(submitting) then None else Some(Submission(quizId, Percent(score, |questions|)))
    {
      sent := None;
      if remaining <= 0 {
        notice := NoRetriesLeft;
      } else {
        started := true;
        timeLeft := timeLimit * 60;
        startPopup := false;
        notice := Clear;
        ticking := true;
        if timeLeft <= 0 {
          sent := Finish();
        }
      }
    }

    /** `handleSelect`: the chosen option becomes the answer of the current question. */
    method Select(option: string)
      modifies this`answers
      ensures answers == old(answers)[current := option]
    {
      answers := answers[current := option];
    }

    /** `handleNext`: move on, or finish after the last question. */
    method Next() returns (sent: Option<Submission>)
      modifies this`current, this`ticking, this`score, this`showResult, this`submitting
      requires InRange()
      ensures InRange()
      ensures old(current) + 1 < |questions| ==>
        && current == old(current) + 1 && sent.None?
        && ticking == old(ticking) && score == old(score) && showResult == old(showResult)
        && submitting == old(submitting)
      ensures old(current) + 1 >= |questions| ==>
        && current == old(current) && !ticking && showResult && submitting
        && score == ScoreOf(questions, answers)
        && sent == if old(submitting) then None else Some(Submission(quizId, Percent(score, |questions|)))
    {
      if current + 1 < |questions| {
        current := current + 1;
        sent := None;
      } else {
        sent := Finish();
      }
    }

    /**
     * `handlePrevious`. Its guard `current - 1 < questions.length` holds whenever the index is in
     * range, so going back always steps back one question and never finishes.
     */
    method Previous() returns (sent: Option<Submission>)
      modifies this`current, this`ticking, this`score, this`showResult, this`submitting
      ensures old(InRange()) ==>
        && InRange() && current == old(current) - 1 && sent.None?
        && ticking == old(ticking) && score == old(score) && showResult == old(showResult)
        && submitting == old(submitting)
      ensures old(current) == 0 && old(started) && !old(showResult) && old(notice) == Clear && !loading ==> RenderFails()
    {
      if current - 1 < |questions| {
        current := current - 1;
        sent := None;
      } else {
        sent := Finish();
      }
    }

    /**
     * One firing of the countdown interval: a second passes, and when the time is up the quiz
     * finishes. Without a running interval nothing happens.
     */
    method Tick() returns (sent: Option<Submission>)
      modifies this`timeLeft, this`ticking, this`score, this`showResult, this`submitting
      ensures !(old(started) && old(ticking)) ==> unchanged(this) && sent.None?
      ensures old(started) && old(ticking) ==> timeLeft == old(timeLeft) - 1
      ensures old(started) && old(ticking) && timeLeft > 0 ==>
        && ticking && sent.None?
        && score == old(score) && showResult == old(showResult) && submitting == old(submitting)
      ensures old(started) && old(ticking) && timeLeft <= 0 ==>
        && !ticking && showResult && submitting && score == ScoreOf(questions, answers)
        && sent == if old(submitting) then None else Some(Submission(quizId, Percent(score, |questions|)))
    {
      sent := None;
      if started && ticking {
        timeLeft := timeLeft - 1;
        if timeLeft <= 0 {
          sent := Finish();
        }
      }
    }

    /** `restartQuiz`: with retries left, clear the answers and go back to the start popup. */
    method Restart()
      modifies this`answers, this`current, this`score, this`showResult, this`startPopup
      modifies this`started, this`notice, this`ticking
      ensures old(remaining) <= 0 ==> unchanged(this)
      ensures old(remaining) > 0 ==>
        && answers == map[] && current == 0 && score == 0 && !showResult && startPopup
        && !started && notice == Clear && !ticking
    {
      if remaining > 0 {
        answers := map[];
        current := 0;
        score := 0;
        showResult := false;
        startPopup := true;
        started := false;
        notice := Clear;
        ticking := false;
      }
    }
  }

  /**
   * A student who has used every attempt gets `remainingRetries` 0 from the server, which the
   * `||` replaces by the retry limit, so the page still lets them start; the server then refuses
   * the result.
   */
  lemma UsedUpRetriesReset(d: Quizzes.QuizDetail)
    requires d.remainingRetries == 0 && d.retryLimit >= 1
    ensures LoadedRetries(d) >= 1
  {
  }
}

/**
 * The quiz engine of the server: a teacher stores a quiz with its questions and choices,
 * students read it and record attempts, and the retry limit bounds the attempts a user may
 * record for one quiz.
 */
module Quizzes {
  import opened Common
  import opened Tables

  /** A `quizzes` row. */
  datatype Quiz = Quiz(title: string, retryLimit: int, timeLimit: int, teacher: nat)

  /** The columns of a `questions` row besides its id and quiz id. `correctIndex` is None where it was NULL. */
  datatype Question = Question(text: string, correctIndex: Option<int>)

  /** A `quiz_results` row. `score` is None where the client sent null. */
  datatype Attempt = Attempt(user: nat, quiz: nat, score: Option<int>)

  /** One question of a create request; `choices` is None where it is not an array, `correctIndex` None where it is absent. */
  datatype QuestionInput = QuestionInput(text: string, choices: Option<seq<string>>, correctIndex: Option<int>)

  /**
   * The create request body. A missing or zero `retryLimit` or `timeLimit` is 0, and
   * `questions` is None where it is missing or not an array.
   */
  datatype QuizBody = QuizBody(title: string, retryLimit: int, timeLimit: int, questions: Option<seq<QuestionInput>>)

  /** A question as the detail endpoint sends it. */
  datatype QuestionView = QuestionView(id: nat, text: string, correctIndex: Option<int>, choices: seq<string>)

  /** `GET /api/quizzes/:id` */
  datatype QuizDetail = QuizDetail(
    id: nat, title: string, retryLimit: int, timeLimit: int,
    questions: seq<QuestionView>, remainingRetries: int)

  /** One entry of `GET /api/quizzes`: a teacher's own quiz, or any quiz as another role sees it. */
  datatype QuizSummary =
    | OwnQuiz(title: string, retryLimit: int, questionCount: nat)
    | OpenQuiz(title: string, retryLimit: int, questionCount: nat, highestScore: Option<int>, remainingRetries: int)

  // ---------------------------------------------------------------- validation

  /**
   * One question passes: text, a choices array of at least two non-empty choices, and a
   * correct index that is not out of range. An absent index compares false both ways and
   * so passes.
   */
  predicate QuestionOk(q: QuestionInput)
  {
    && q.text != ""
    && q.choices.Some?
    && |q.choices.value| >= 2
    && (q.correctIndex.Some? ==> 0 <= q.correctIndex.value < |q.choices.value|)
    && forall k :: 0 <= k < |q.choices.value| ==> q.choices.value[k] != ""
  }

  /** The `for (const q of questions)` check, stopping at the first failing question. */
  function CheckQuestions(qs: seq<QuestionInput>): (ok: bool)
    ensures ok <==> forall i :: 0 <= i < |qs| ==> QuestionOk(qs[i])
    decreases |qs|
  {
    if qs == [] then true
    else
      var q := qs[0];
      if q.text == "" || q.choices.None? || |q.choices.value| < 2
         || (q.correctIndex.Some? && (q.correctIndex.value < 0 || q.correctIndex.value >= |q.choices.value|))
      then false
      else if exists k :: 0 <= k < |q.choices.value| && q.choices.value[k] == "" then false
      else
        var rest := CheckQuestions(qs[1..]);
        assert forall i :: 1 <= i < |qs| ==> qs[i] == qs[1..][i - 1];
        rest
  }

  /** Every check the create handler makes before it opens the transaction. */
  predicate QuizOk(b: QuizBody)
  {
    && b.title != ""
    && 1 <= b.retryLimit <= 3
    && b.timeLimit >= 1
    && b.questions.Some?
    && forall i :: 0 <= i < |b.questions.value| ==> QuestionOk(b.questions.value[i])
  }

  /** The handler's checks in its own order: presence, retry range, time limit, then each question. */
  function ValidateQuiz(b: QuizBody): (ok: bool)
    ensures ok <==> QuizOk(b)
  {
    if b.title == "" || b.retryLimit == 0 || b.timeLimit == 0 || b.questions.None? then false
    else if b.retryLimit < 1 || b.retryLimit > 3 then false
    else if b.timeLimit < 1 then false
    else CheckQuestions(b.questions.value)
  }

  /** What the insert loop stores for each question: its text and index, then its choices. */
  function QuizDrafts(qs: seq<QuestionInput>): (r: seq<Draft<Question, string>>)
    ensures |r| == |qs|
    ensures forall i :: 0 <= i < |r| ==> r[i] == Draft(Question(qs[i].text, qs[i].correctIndex), qs[i].choices)
  {
    seq(|qs|, i requires 0 <= i < |qs| => Draft(Question(qs[i].text, qs[i].correctIndex), qs[i].choices))
  }

  // ---------------------------------------------------------------- attempts

  /** `SELECT COUNT(*) FROM quiz_results WHERE quiz_id = ? AND user_id = ?` */
  function Attempts(results: seq<Attempt>, user: nat, quiz: nat): nat
  {
    if results == [] then 0
    else
      var a := results[|results| - 1];
      Attempts(results[..|results| - 1], user, quiz) + (if a.user == user && a.quiz == quiz then 1 else 0)
  }

  /** `MAX(qr.score)` over the user's attempts at a quiz; None (NULL) where there is no non-null score. */
  function HighestScore(results: seq<Attempt>, user: nat, quiz: nat): (r: Option<int>)
    ensures r.Some? ==> exists i :: 0 <= i < |results| && results[i] == Attempt(user, quiz, r)
    ensures r.Some? ==>
      forall i :: 0 <= i < |results| && results[i].user == user && results[i].quiz == quiz && results[i].score.Some? ==>
        results[i].score.value <= r.value
    ensures r.None? ==> forall i :: 0 <= i < |results| && results[i].user == user && results[i].quiz == quiz ==> results[i].score.None?
  {
    if results == [] then None
    else
      var pre := results[..|results| - 1];
      var a := results[|results| - 1];
      var best := HighestScore(pre, user, quiz);
      assert forall i :: 0 <= i < |pre| ==> results[i] == pre[i];
      if a.user != user || a.quiz != quiz || a.score.None? then best
      else if best.None? || best.value < a.score.value then a.score
      else best
  }

  lemma AttemptsSnoc(results: seq<Attempt>, a: Attempt, user: nat, quiz: nat)
    ensures Attempts(results + [a], user, quiz) == Attempts(results, user, quiz) + (if a.user == user && a.quiz == quiz then 1 else 0)
  {
    assert (results + [a])[..|results|] == results;
  }

  /** A user who never attempted a quiz has no attempts at it. */
  lemma {:induction false} AttemptsNone(results: seq<Attempt>, user: nat, quiz: nat)
    requires forall i :: 0 <= i < |results| ==> results[i].user != user || results[i].quiz != quiz
    ensures Attempts(results, user, quiz) == 0
  {
    if results != [] {
      AttemptsNone(results[..|results| - 1], user, quiz);
    }
  }

  /** Storing a new quiz under the next id keeps every stored quiz's limits and attempt counts in bounds. */
  lemma NewQuizKeepsLimits(quizzes: map<nat, Quiz>, results: seq<Attempt>, next: nat, next': nat, quiz: Quiz)
    requires forall q :: q in quizzes ==> q < next && 1 <= quizzes[q].retryLimit <= 3 && quizzes[q].timeLimit >= 1
    requires forall i :: 0 <= i < |results| ==> results[i].quiz in quizzes
    requires forall u, q :: q in quizzes ==> Attempts(results, u, q) <= quizzes[q].retryLimit
    requires next < next' && 1 <= quiz.retryLimit <= 3 && quiz.timeLimit >= 1
    ensures var qz := quizzes[next := quiz];
      && (forall q :: q in qz ==> q < next' && 1 <= qz[q].retryLimit <= 3 && qz[q].timeLimit >= 1)
      && (forall i :: 0 <= i < |results| ==> results[i].quiz in qz)
      && (forall u, q :: q in qz ==> Attempts(results, u, q) <= qz[q].retryLimit)
  {
    forall u {
      AttemptsNone(results, u, next);
    }
  }

  /** `Math.max(0, retry_limit - attempts)` */
  function Clamped(limit: int, attempts: nat): (r: int)
    ensures r >= 0 && r >= limit - attempts
    ensures r == limit - attempts || r == 0
  {
    if limit - attempts > 0 then limit - attempts else 0
  }

  // ---------------------------------------------------------------- reading questions back

  /** `questions.map(q => ({ ..., choices: choices.filter(c => c.question_id === q.id).map(c => c.text) }))` */
  function QuestionViews(qs: seq<Row<Question>>, cs: seq<Row<string>>, quiz: nat): seq<QuestionView>
  {
    if qs == [] then []
    else
      var q := qs[|qs| - 1];
      QuestionViews(qs[..|qs| - 1], cs, quiz)
        + (if q.parent == quiz then [QuestionView(q.id, q.data.text, q.data.correctIndex, Children(cs, q.id))] else [])
  }

  function StripViews(vs: seq<QuestionView>): (r: seq<Node<Question, string>>)
    ensures |r| == |vs|
  {
    seq(|vs|, k requires 0 <= k < |vs| => Node(Question(vs[k].text, vs[k].correctIndex), vs[k].choices))
  }

  /** The detail endpoint sends, in table order, exactly the questions and choices stored for the quiz. */
  lemma {:induction false} QuestionViewsTree(qs: seq<Row<Question>>, cs: seq<Row<string>>, quiz: nat)
    ensures StripViews(QuestionViews(qs, cs, quiz)) == Tree(qs, cs, quiz)
  {
    if qs != [] {
      var pre := qs[..|qs| - 1];
      var q := qs[|qs| - 1];
      QuestionViewsTree(pre, cs, quiz);
      var add := if q.parent == quiz then [QuestionView(q.id, q.data.text, q.data.correctIndex, Children(cs, q.id))] else [];
      assert StripViews(QuestionViews(pre, cs, quiz) + add) == StripViews(QuestionViews(pre, cs, quiz)) + StripViews(add);
    }
  }

  class QuizStore {
    var quizzes: map<nat, Quiz>
    var questions: seq<Row<Question>>
    var choices: seq<Row<string>>
    var results: seq<Attempt>
    /** The next auto-increment id (one counter stands for the three tables' counters). */
    var next: nat

    /**
     * Besides the id discipline: every stored quiz has a retry limit of 1 to 3, every
     * attempt names a stored quiz, and no user holds more attempts at a quiz than its limit.
     */
    ghost predicate Valid()
      reads this
    {
      && TablesOk(questions, choices, next)
      && (forall q :: q in quizzes ==> q < next && 1 <= quizzes[q].retryLimit <= 3 && quizzes[q].timeLimit >= 1)
      && (forall i :: 0 <= i < |results| ==> results[i].quiz in quizzes)
      && (forall u, q :: q in quizzes ==> Attempts(results, u, q) <= quizzes[q].retryLimit)
    }

    constructor()
      ensures Valid()
      ensures quizzes == map[] && questions == [] && choices == [] && results == []
    {
      quizzes, questions, choices, results, next := map[], [], [], [], 1;
    }

    /** POST /api/quizzes: validate, then store the quiz, its questions and their choices in one transaction. */
    method CreateQuiz(caller: Caller, body: QuizBody) returns (out: Outcome<nat>)
      requires Valid()
      modifies this`quizzes, this`questions, this`choices, this`next
      ensures Valid()
      ensures out.Ok? <==> caller.role == Teacher && QuizOk(body)
      ensures caller.role != Teacher ==> out == Err(Forbidden, 403)
      ensures caller.role == Teacher && !QuizOk(body) ==> out == Err(Invalid, 400)
      ensures out.Err? ==> unchanged(this)
      ensures out.Ok? ==>
        && out.value !in old(quizzes)
        && quizzes == old(quizzes)[out.value := Quiz(body.title, body.retryLimit, body.timeLimit, caller.id)]
        && Tree(questions, choices, out.value) == Nodes(QuizDrafts(body.questions.value))
        && (forall q :: q != out.value ==> Tree(questions, choices, q) == Tree(old(questions), old(choices), q))
        && results == old(results)
    {
      if caller.role != Teacher {
        return Err(Forbidden, 403);
      }
      if !ValidateQuiz(body) {
        return Err(Invalid, 400);
      }
      var id := next;
      var drafts := QuizDrafts(body.questions.value);
      assert AllPresent(drafts);
      TreeNoOwner(questions, choices, id);
      var ok, qs, cs, n := InsertTree(questions, choices, next + 1, id, drafts);
      assert Tree(qs, cs, id) == Nodes(drafts);
      NewQuizKeepsLimits(quizzes, results, next, n, Quiz(body.title, body.retryLimit, body.timeLimit, caller.id));
      quizzes, questions, choices, next := quizzes[id := Quiz(body.title, body.retryLimit, body.timeLimit, caller.id)], qs, cs, n;
      out := Ok(id);
    }

    /**
     * GET /api/quizzes/:id. `id` is None for the literal "undefined" the client sends when it
     * has no id. A teacher sees only their own quizzes; a student sees the retries left.
     */
    function GetQuiz(caller: Caller, id: Option<nat>): (r: Outcome<QuizDetail>)
      reads this
      ensures id.None? ==> r == Err(Invalid, 400)
      ensures r.Ok? <==> id.Some? && id.value in quizzes && (caller.role == Teacher ==> quizzes[id.value].teacher == caller.id)
      ensures id.Some? && r.Err? ==> r == Err(NotFound, 404)
      ensures r.Ok? ==>
        && r.value.id == id.value && r.value.title == quizzes[id.value].title
        && r.value.retryLimit == quizzes[id.value].retryLimit && r.value.timeLimit == quizzes[id.value].timeLimit
        && StripViews(r.value.questions) == Tree(questions, choices, id.value)
        && r.value.remainingRetries == if caller.role == Student
             then Clamped(quizzes[id.value].retryLimit, Attempts(results, caller.id, id.value))
             else quizzes[id.value].retryLimit
    {
      if id.None? then Err(Invalid, 400)
      else if id.value !in quizzes || (caller.role == Teacher && quizzes[id.value].teacher != caller.id) then Err(NotFound, 404)
      else
        var q := quizzes[id.value];
        var remaining := if caller.role == Student then Clamped(q.retryLimit, Attempts(results, caller.id, id.value)) else q.retryLimit;
        QuestionViewsTree(questions, choices, id.value);
        Ok(QuizDetail(id.value, q.title, q.retryLimit, q.timeLimit, QuestionViews(questions, choices, id.value), remaining))
    }

    /** GET /api/quizzes: a teacher's own quizzes, or every quiz with the caller's best score and retries left. */
    function ListQuizzes(caller: Caller): (r: map<nat, QuizSummary>)
      reads this
      ensures forall q :: q in r <==> q in quizzes && (caller.role == Teacher ==> quizzes[q].teacher == caller.id)
      ensures forall q :: q in r ==> r[q].retryLimit == quizzes[q].retryLimit && r[q].questionCount == |Tree(questions, choices, q)|
      ensures forall q :: q in r && caller.role == Teacher ==>
        r[q] == OwnQuiz(quizzes[q].title, quizzes[q].retryLimit, |Tree(questions, choices, q)|)
      ensures forall q :: q in r && caller.role != Teacher ==>
        r[q] == OpenQuiz(quizzes[q].title, quizzes[q].retryLimit, |Tree(questions, choices, q)|,
                         HighestScore(results, caller.id, q), quizzes[q].retryLimit - Attempts(results, caller.id, q))
    {
      map q | q in quizzes && (caller.role == Teacher ==> quizzes[q].teacher == caller.id) ::
        if caller.role == Teacher then OwnQuiz(quizzes[q].title, quizzes[q].retryLimit, |Tree(questions, choices, q)|)
        else OpenQuiz(quizzes[q].title, quizzes[q].retryLimit, |Tree(questions, choices, q)|,
                      HighestScore(results, caller.id, q), quizzes[q].retryLimit - Attempts(results, caller.id, q))
    }

    /** POST /api/quiz-results: refuse once the caller's attempts reach the retry limit, otherwise add one attempt. */
    method RecordResult(caller: Caller, quiz: nat, score: Option<Option<int>>) returns (out: Outcome<nat>)
      requires Valid()
      modifies this
      ensures Valid()
      ensures quiz == 0 || score.None? ==> out == Err(Invalid, 400)
      ensures quiz != 0 && score.Some? && quiz !in old(quizzes) ==> out == Err(NotFound, 500)
      ensures quiz != 0 && score.Some? && quiz in old(quizzes) && Attempts(old(results), caller.id, quiz) >= old(quizzes)[quiz].retryLimit
        ==> out == Err(LimitReached, 500)
      ensures out.Ok? <==> quiz != 0 && score.Some? && quiz in old(quizzes) && Attempts(old(results), caller.id, quiz) < old(quizzes)[quiz].retryLimit
      ensures out.Err? ==> unchanged(this)
      ensures out.Ok? ==>
        && results == old(results) + [Attempt(caller.id, quiz, score.value)]
        && quizzes == old(quizzes) && questions == old(questions) && choices == old(choices) && next == old(next)
    {
      if quiz == 0 || score.None? {
        return Err(Invalid, 400);
      }
      if quiz !in quizzes {
        return Err(NotFound, 500);
      }
      var remaining := quizzes[quiz].retryLimit - Attempts(results, caller.id, quiz);
      if remaining <= 0 {
        return Err(LimitReached, 500);
      }
      var a := Attempt(caller.id, quiz, score.value);
      forall u, q {
        AttemptsSnoc(results, a, u, q);
      }
      results := results + [a];
      out := Ok(quiz);
    }
  }

  /**
   * For a student, the list's unclamped `retry_limit - attempts` and the detail's clamped
   * `max(0, retry_limit - attempts)` agree, because a valid store never holds more attempts
   * than the limit.
   */
  lemma ListMatchesDetail(s: QuizStore, caller: Caller, quiz: nat)
    requires s.Valid() && caller.role == Student && quiz in s.quizzes
    ensures s.GetQuiz(caller, Some(quiz)).Ok? && quiz in s.ListQuizzes(caller)
    ensures s.ListQuizzes(caller)[quiz].remainingRetries == s.GetQuiz(caller, Some(quiz)).value.remainingRetries
    ensures 0 <= s.GetQuiz(caller, Some(quiz)).value.remainingRetries <= s.quizzes[quiz].retryLimit
  {
  }
}

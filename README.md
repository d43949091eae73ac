# rtpu learning platform — a verified model of its core

rtpu is a small e-learning platform: an Express server over a relational store of courses
(course → modules → submaterials), enrollments and quizzes (quiz → questions → choices, plus
the attempts students record), and a React client. This project models the parts of it that
carry rules:

- the server's quiz engine: creating a quiz, reading one quiz or the quiz list with the
  caller's remaining retries, and recording an attempt under the retry limit;
- the server's course aggregate: creating, updating (with wholesale replacement of the
  modules), deleting (with the list of uploaded files to unlink) and extending a course,
  enrolling in a course, and grouping flat join rows into module → submaterial trees;
- the client's quiz page (a state machine over start, answer, navigate, tick, finish, submit
  and restart), the quiz editor, the add-modules form with the Google Drive link check, the
  progress helpers, the material page's lookup and url rewriting, and the admin page's date
  field.

Modules:

| file | module | what it holds |
|---|---|---|
| common.dfy | `Common` | `Option`, the handler outcome `Outcome` (a value, or an error kind with its HTTP status), callers and roles, the integer form of `Math.round(a / n * 100)` |
| strings.dfy | `Strings` | prefixes, containment, blank strings, `padStart(2, "0")`, `split`, decimal rendering |
| tables.dfy | `Tables` | parent and child tables as row sequences, the tree of one owner, and the imperative insert / replace / cascade-delete loops every handler shares |
| courses.dfy | `Courses` | the `CourseStore` class and the course handlers |
| grouping.dfy | `Grouping` | the `modulesMap` grouping loop and the `filter`/`map` outline of the list endpoints |
| driveurl.dfy | `DriveLinks` | the Google Drive link pattern shared by the server and the module form |
| quizzes.dfy | `Quizzes` | the `QuizStore` class and the quiz handlers |
| quizsession.dfy | `QuizSession` | the quiz page as a `Session` class |
| quizeditor.dfy | `QuizEditor` | the quiz editor as an `Editor` class |
| moduleform.dfy | `ModuleForm` | the add-modules form as a `Form` class and its validation loop |
| progress.dfy | `Progress` | the stored progress record and `markMaterialDone` / `getPercentage` |
| progresspage.dfy | `ProgressPage` | the progress page's toggle and done count |
| materials.dfy | `Materials` | `findMaterial`, the module normalisation and `getSecureFileUrl` |
| dates.dfy | `Dates` | `parseDateToInputFormat` |

The store is a pair of classes whose fields are the tables (`seq` of rows in insertion order,
`map` for the course and quiz rows) and one auto-increment counter. Each handler is one
method that returns an `Outcome` and changes only the fields its `modifies` names; a handler
that fails inside its transaction restores the tables it had changed, as the rollback does.
Every store method keeps the class invariant `Valid()`: ids increase in table order and every
id and parent id lies below the counter; enrollments hold no duplicate pair; every stored quiz
has a retry limit of 1 to 3 and a time limit of at least 1; every attempt names a stored quiz;
and no user's attempts at a quiz exceed its retry limit.

## Model

| member | source | states |
|---|---|---|
| Common.RoundPercent | frontend/src/components/quiz.jsx:152 | the result is the integer nearest to 100·a/n with halves rounded up; it is at most 100 when a ≤ n, exactly 100 when a = n and 0 when a = 0 |
| Tables.CascadeDelete | backend/server.js:992-1001 | deleting an owner's children and then its rows empties that owner's tree, leaves every other owner's tree as it was and keeps the id invariant |
| Tables.AppendParent | backend/server.js:762-767 | inserting a parent row with the next id gives its owner one more, still childless, node and changes no other owner's tree |
| Tables.AppendChild | backend/server.js:770-779 | inserting a child of the owner's last row extends exactly that node's children and changes no other owner's tree |
| Tables.InsertNode | backend/server.js:761-780 | one parent insert followed by the insert loop over its children: the owner gains exactly one node holding those children in order; other owners are unchanged |
| Tables.InsertTree | backend/server.js:752-782 | the nested insert loop succeeds exactly when every parent carries a children array; then the owner's tree is the old tree followed by the drafts in order, and other owners are unchanged |
| Tables.ReplaceTree | backend/server.js:878-916 | delete then insert: on success the owner's tree is exactly the new drafts, other owners are unchanged |
| Tables.DeleteTree | backend/server.js:888-892 | the owner's tree becomes empty and every other owner's tree is unchanged |
| Courses.CheckSubs | backend/server.js:1057-1065 | the submaterial loop accepts exactly when every submaterial has a title and an empty or Drive-pattern video url |
| Courses.CheckModules | backend/server.js:1047-1066 | the module loop accepts exactly when every module has a title and an array of valid submaterials |
| Courses.ValidateModules | backend/server.js:1035-1066 | the add-modules body passes exactly when it is an array of valid modules, and every failure is a 400 |
| Courses.Created | backend/server.js:730 | a course created by an admin has no teacher, one created by anyone else has the caller as teacher, and it starts with 0 students |
| Courses.UploadsAmongMembers | backend/server.js:974-978 | a url is in the unlink list of the submaterials exactly when some submaterial has it as file url and it starts with "/Uploads/" |
| Courses.SubFilesMembers | backend/server.js:971-978 | the file list holds exactly the file urls of the course's submaterials |
| Courses.DeleteListMembers | backend/server.js:971-978 | delete asks to unlink exactly the course image and file when set, and the submaterial files under "/Uploads/", and nothing else |
| Courses.FilesToDelete | backend/server.js:971-978 | the loop that builds `filesToDelete` returns the course image, the course file and then the uploaded submaterial files; the submaterial files come in the model's table order, since the query that fetches them fixes no order |
| Courses.CourseStore.constructor | backend/server.js:218-1128 | an empty store satisfies the invariant |
| Courses.CourseStore.Enroll | backend/server.js:218-277 | course id 0 is refused with 400; an existing (user, course) pair is refused with 400 and nothing changes; otherwise exactly one enrollment is appended and that course's student count rises by 1, other courses untouched |
| Courses.CourseStore.CreateCourse | backend/server.js:715-795 | succeeds exactly for a non-student with a title and a date whose modules can be stored; students get 403, a missing title or date 400, an unusable modules field 500 with nothing stored; on success the new course has the uploaded files' urls and its outline is exactly the given modules |
| Courses.CourseStore.UpdateCourse | backend/server.js:800-929 | students get 403, a missing title or date 400, an unknown course 500 and a caller who is neither owner nor admin 500, with nothing changed; the replaced image and file are asked to be unlinked; on success the course row is rewritten and, with a modules field, its outline is exactly the new modules while every other course's outline is unchanged |
| Courses.CourseStore.DeleteCourse | backend/server.js:932-1013 | only the owner or an admin may delete; on success the course, its modules and their submaterials are gone, other courses' outlines are unchanged, and the unlink list is exactly `DeleteList` |
| Courses.CourseStore.AddModules | backend/server.js:1023-1128 | an invalid body is 400, an unknown course 404, a teacher who neither owns the course nor faces an admin's course 403; on success the course's existing modules stay and the new ones are appended in order |
| DriveLinks.DriveUrlPattern | backend/server.js:1046 | the one-character test is equivalent to the pattern's reading: a prefix followed by a non-empty run of id characters |
| DriveLinks.DriveUrlExtend | frontend/src/pages/dashboard.jsx:119 | the pattern has no end anchor: anything may follow an accepted url |
| DriveLinks.DriveUrlOf | backend/server.js:1046 | either prefix followed by a non-empty id is accepted |
| DriveLinks.BarePrefixRefused | frontend/src/pages/dashboard.jsx:119 | a prefix with no id after it is refused |
| Grouping.SubsOfUnseen | backend/server.js:177-195 | a module id no row mentions has no submaterials and no title |
| Grouping.ViewStep | backend/server.js:179-195 | one more join row creates its module's entry with the "Untitled Module" fallback on first sight and appends its submaterial, if any, with the "Untitled Material" fallback |
| Grouping.GroupRows | backend/server.js:166-197 | the `forEach` that fills the map yields, in first-appearance order, one view per module id holding its submaterial rows in row order |
| Grouping.KeysDistinct | backend/server.js:177-197 | every module appears once in the grouping |
| Grouping.KeysCover | backend/server.js:177-197 | the grouping has a module for exactly the module ids the rows mention |
| Grouping.SubViewsChildren | backend/server.js:549-556 | a module's submaterials as the list endpoint maps them are exactly its stored submaterials |
| Grouping.CourseModulesOutline | backend/server.js:543-558 | the list endpoints send each course exactly its stored modules and submaterials, in table order |
| Grouping.AppendBlock | backend/server.js:179-195 | the join rows of a module not seen before add one key and change no other module's view |
| Grouping.AppendBlockGrouped | backend/server.js:179-197 | the grouping of those rows is the old grouping followed by that module's view |
| Grouping.BlockSubs | backend/server.js:185-193 | a module's block of join rows groups into its submaterials with the title fallback |
| Grouping.GroupedJoinRows | backend/server.js:144-216 | grouping the left join of a course's modules and submaterials gives the same modules, in the same order, as the stored outline, with the title fallbacks applied |
| Quizzes.CheckQuestions | backend/server.js:1370-1378 | the question loop accepts exactly when every question has text, two or more non-empty choices and, when present, a correct index within the choices |
| Quizzes.ValidateQuiz | backend/server.js:1356-1378 | the create checks in the handler's order accept exactly the bodies `QuizOk` describes: a title, a question array, a retry limit in 1..3, a time limit of at least 1 and valid questions |
| Quizzes.QuizDrafts | backend/server.js:1393-1405 | each input question is stored with its text and correct index, its choices as children, in input order |
| Quizzes.HighestScore | backend/server.js:1438-1449 | the best score is one of the user's recorded scores for the quiz and no recorded score is higher; it is absent when every attempt's score is null |
| Quizzes.AttemptsSnoc | backend/server.js:1660-1674 | appending an attempt raises the count of exactly that user and quiz by one |
| Quizzes.AttemptsNone | backend/server.js:1660-1668 | a user with no recorded attempt at a quiz has a count of 0 |
| Quizzes.NewQuizKeepsLimits | backend/server.js:1386-1405 | storing a new quiz keeps every quiz's attempt counts within its retry limit |
| Quizzes.Clamped | backend/server.js:1494-1501 | the detail endpoint's remaining retries are never negative and are the limit minus the attempts unless that is negative |
| Quizzes.QuestionViewsTree | backend/server.js:1504-1521 | the detail endpoint sends exactly the stored questions with their choices, in table order |
| Quizzes.QuizStore.constructor | backend/server.js:1350-1686 | an empty store satisfies the invariant |
| Quizzes.QuizStore.CreateQuiz | backend/server.js:1350-1417 | succeeds exactly for a teacher with a valid body; others get 403, an invalid body 400, and nothing is stored; on success one quiz with the given limits is stored under a fresh id, its questions and choices are exactly the input's in order, and no other quiz changes |
| Quizzes.QuizStore.GetQuiz | backend/server.js:1464-1531 | a missing id is 400; a quiz that does not exist, or that a teacher does not own, is 404; otherwise the detail carries the quiz's id, stored title, retry limit, time limit and questions and, for a student, the retries left clamped at 0, for any other role the retry limit |
| Quizzes.QuizStore.ListQuizzes | backend/server.js:1421-1461 | a teacher sees exactly their own quizzes, each as its title, retry limit and question count; other roles see every quiz with its title, limit and question count, their best score and the unclamped limit minus attempts |
| Quizzes.QuizStore.RecordResult | backend/server.js:1633-1686 | a missing quiz id or score is 400, an unknown quiz 500, a caller at the retry limit is refused, each with nothing stored; otherwise exactly one attempt with the given score is appended and nothing else changes, so attempts never exceed the limit |
| Quizzes.ListMatchesDetail | backend/server.js:1444-1446 | for a student, whose attempts never exceed the limit, the list and the detail report the same retries left, between 0 and the limit |
| QuizSession.JsRem | frontend/src/components/quiz.jsx:28 | JavaScript's remainder lies in [0, b) for a non-negative dividend and in (-b, 0] for a negative one |
| QuizSession.PaddedValue | frontend/src/components/quiz.jsx:27-28 | a number below 100 renders as two digits that read back as that number |
| QuizSession.TimeFields | frontend/src/components/quiz.jsx:27-28 | minutes and remaining seconds of a time below 100 minutes recombine to the time |
| QuizSession.FormatTimeReadBack | frontend/src/components/quiz.jsx:26-30 | for a time below 100 minutes the display is "mm:ss", both fields are digits, the seconds are below 60 and minutes·60 + seconds is the time |
| QuizSession.Letter | frontend/src/components/quiz.jsx:60 | the i-th choice's letter is the character with code 65 + i |
| QuizSession.OptionText | frontend/src/components/quiz.jsx:60 | an option reads as its letter, a dot, a space and the choice text |
| QuizSession.CorrectLabel | frontend/src/components/quiz.jsx:132 | the letter scoring compares with has code 65 + correct index, a null index counting as 0 |
| QuizSession.Options | frontend/src/components/quiz.jsx:60 | every choice becomes its labelled option, in order |
| QuizSession.ClientQuestions | frontend/src/components/quiz.jsx:57-63 | each loaded question keeps its id, text and correct index and gets its labelled options |
| QuizSession.ScoreOf | frontend/src/components/quiz.jsx:129-134 | the score never exceeds the number of questions |
| QuizSession.OptionScores | frontend/src/components/quiz.jsx:60-133 | picking option i starts with the correct letter and a dot exactly when i is the correct index |
| QuizSession.AnswerScores | frontend/src/components/quiz.jsx:129-134 | a loaded question answered with its i-th option counts exactly when i is its correct index |
| QuizSession.FullScore | frontend/src/components/quiz.jsx:129-134 | all questions answered correctly give the full score |
| QuizSession.NoAnswersScoreZero | frontend/src/components/quiz.jsx:129-134 | with no answers the score is 0 |
| QuizSession.TotalScore | frontend/src/components/quiz.jsx:129-134 | the `forEach` counts exactly the correctly answered questions |
| QuizSession.Percent | frontend/src/components/quiz.jsx:152 | the percentage is NaN exactly for a quiz without questions; otherwise it lies in 0..100, is 100 for a full score and 0 for none |
| QuizSession.UsedUpRetriesReset | frontend/src/components/quiz.jsx:54 | a server count of 0 remaining retries is replaced by the retry limit, so the page lets the student start again |
| QuizSession.Session.Load | frontend/src/components/quiz.jsx:10-74 | the page starts on the start popup with no answers; an invalid id or a failed request shows its error; a loaded quiz sets the title, the labelled questions, the retries with the `||` fallback and the time limit with its default of 10 |
| QuizSession.Session.Finish | frontend/src/components/quiz.jsx:126-152 | finishing stops the countdown, stores the score of the answers, shows the result, and sends the percentage unless a submission is in flight |
| QuizSession.Session.SubmitDone | frontend/src/components/quiz.jsx:163-168 | an accepted submission lowers the retries by one, never below 0; a refused one shows the error; either way the submission is no longer in flight |
| QuizSession.Session.Start | frontend/src/components/quiz.jsx:91-101 | with no retries left only the error is shown; otherwise the quiz starts with the time limit in seconds, a countdown starting at 0 finishes at once, and a quiz without questions is left in a state the page cannot render |
| QuizSession.Session.Select | frontend/src/components/quiz.jsx:103-107 | the chosen option becomes the current question's answer and no other answer changes |
| QuizSession.Session.Next | frontend/src/components/quiz.jsx:109-115 | the index moves to the next question, or the quiz finishes after the last one; the index never passes the last question |
| QuizSession.Session.Previous | frontend/src/components/quiz.jsx:118-124 | with the index in range the guard always holds: the index steps back by one, even from 0, and the finish branch is never taken; going back from the first question leaves a state the page cannot render |
| QuizSession.Session.Tick | frontend/src/components/quiz.jsx:76-89 | without a running countdown nothing changes; otherwise one second passes and, at 0, the quiz finishes |
| QuizSession.Session.Restart | frontend/src/components/quiz.jsx:172-182 | with no retries left nothing changes; otherwise the answers, index and score are cleared and the start popup returns |
| QuizEditor.Problem | frontend/src/pages/addquiz.jsx:76-77 | an unfilled question is reported by its number from 1, as an empty question when its text is blank and otherwise as an empty choice |
| QuizEditor.SomeBlank | frontend/src/pages/addquiz.jsx:77 | the `some` loop finds a choice exactly when one is blank |
| QuizEditor.FirstProblem | frontend/src/pages/addquiz.jsx:75-78 | the question loop reports nothing exactly when every question is filled in, and otherwise reports the first question that is not |
| QuizEditor.Body | frontend/src/pages/addquiz.jsx:84-89 | the posted body carries the title and every question with its text, choices and correct index, in order |
| QuizEditor.UnicodeSpacesBlank | frontend/src/pages/addquiz.jsx:71-77 | a text made only of Unicode space separators, such as the full-width space, counts as blank, as `trim` treats it |
| QuizEditor.NonBlankNonEmpty | frontend/src/pages/addquiz.jsx:71 | a string with a non-space character is not empty |
| QuizEditor.ClientChecksImplyServerChecks | frontend/src/pages/addquiz.jsx:71-78 | a form that passes the editor's checks and keeps its questions well-formed passes the server's create checks exactly when both limits are numbers |
| QuizEditor.WithoutChoice | frontend/src/pages/addquiz.jsx:43-46 | removing a choice shifts the later choices down by one and resets a correct index that fell off the end to 0 |
| QuizEditor.WithoutChoiceWellFormed | frontend/src/pages/addquiz.jsx:40-49 | removing a choice from a question with more than two keeps it well-formed |
| QuizEditor.RemovalMovesMark | frontend/src/pages/addquiz.jsx:40-49 | removing a choice before the correct one leaves the index unchanged, so it now marks the choice that followed |
| QuizEditor.Editor.constructor | frontend/src/pages/addquiz.jsx:7-13 | the form starts with an empty title, limits 3 and 10 and one blank question |
| QuizEditor.Editor.SetTitle | frontend/src/pages/addquiz.jsx:110 | only the title changes |
| QuizEditor.Editor.SetRetryLimit | frontend/src/pages/addquiz.jsx:123 | only the retry limit changes |
| QuizEditor.Editor.SetTimeLimit | frontend/src/pages/addquiz.jsx:138 | only the time limit changes |
| QuizEditor.Editor.SetQuestionText | frontend/src/pages/addquiz.jsx:16-20 | only the addressed question's text changes, and the form stays well-formed |
| QuizEditor.Editor.SetChoice | frontend/src/pages/addquiz.jsx:22-26 | only the addressed choice changes |
| QuizEditor.Editor.SetCorrectIndex | frontend/src/pages/addquiz.jsx:28-32 | only the addressed question's correct index changes, to one of its choices |
| QuizEditor.Editor.AddChoice | frontend/src/pages/addquiz.jsx:34-38 | only the addressed question gains one empty choice at the end |
| QuizEditor.Editor.RemoveChoice | frontend/src/pages/addquiz.jsx:40-49 | a question with two choices is left alone; otherwise it loses the choice and keeps two or more choices and an in-range correct index |
| QuizEditor.Editor.AddQuestion | frontend/src/pages/addquiz.jsx:51-56 | one blank question with two empty choices and index 0 is appended |
| QuizEditor.Editor.RemoveQuestion | frontend/src/pages/addquiz.jsx:58-64 | the last remaining question cannot be removed; otherwise exactly the addressed question goes and the rest keep their order |
| QuizEditor.Editor.Submit | frontend/src/pages/addquiz.jsx:67-95 | the first failing check (blank title, retry outside 1..3, time below 1, an unfilled question, no login) sets its message and nothing is sent; otherwise the form's body is posted and the save failure, if any, is shown |
| ModuleForm.CheckSub | frontend/src/pages/dashboard.jsx:179-186 | checking one submaterial adds exactly its own errors to those found so far |
| ModuleForm.Validate | frontend/src/pages/dashboard.jsx:174-187 | the errors object holds an entry exactly for each empty module title, empty submaterial title and non-empty video url outside the Drive pattern, each with its message |
| ModuleForm.Body | frontend/src/pages/dashboard.jsx:203-208 | the posted body is an array of the form's modules with their titles and submaterials, in order |
| ModuleForm.FormAgreesWithServer | frontend/src/pages/dashboard.jsx:174-187 | the form finds no error exactly when the server's add-modules validation accepts its body |
| ModuleForm.PostProblem | frontend/src/pages/dashboard.jsx:217-229 | a 401 answer means an invalid token and no answer an unreachable server |
| ModuleForm.Form.constructor | frontend/src/pages/dashboard.jsx:114-116 | the form starts with no modules and no errors |
| ModuleForm.Form.AddModule | frontend/src/pages/dashboard.jsx:121-126 | one module with an empty title and one empty submaterial is appended |
| ModuleForm.Form.SetModuleTitle | frontend/src/pages/dashboard.jsx:128-134 | only the addressed module's title changes |
| ModuleForm.Form.AddSub | frontend/src/pages/dashboard.jsx:136-142 | only the addressed module gains one empty submaterial at the end |
| ModuleForm.Form.SetSubField | frontend/src/pages/dashboard.jsx:144-150 | only the addressed field of the addressed submaterial changes |
| ModuleForm.Form.RemoveModule | frontend/src/pages/dashboard.jsx:152-158 | exactly the addressed module goes; the rest keep their order |
| ModuleForm.Form.RemoveSub | frontend/src/pages/dashboard.jsx:160-166 | exactly the addressed submaterial of the addressed module goes, possibly leaving it with none |
| ModuleForm.Form.Submit | frontend/src/pages/dashboard.jsx:168-233 | a body is sent exactly when validation finds no error and the user is logged in, and then the server's validation accepts it; otherwise the errors are shown, and a failed post leaves its reason under `submit` |
| Progress.PercentOf | frontend/src/utils/progress.js:17-21 | 0 of 0 is NaN and more than 0 of 0 infinite; otherwise the nearest integer percentage, at most 100 when done ≤ total and at least 100 when done ≥ total |
| Progress.RoundPercentAtLeast | frontend/src/utils/progress.js:20 | a share of all the materials or more rounds to 100 or more |
| Progress.Marked | frontend/src/utils/progress.js:8-15 | after marking, the material is in the course's list; a material already there leaves the record as it was, a new one is appended; other courses are untouched |
| Progress.MarkedTwice | frontend/src/utils/progress.js:11 | marking is idempotent |
| Progress.MarkedDistinct | frontend/src/utils/progress.js:11-12 | marking never puts a duplicate in any course's list |
| Progress.ProgressStore.constructor | frontend/src/utils/progress.js:2-3 | the record starts empty and unwritten |
| Progress.ProgressStore.MarkDone | frontend/src/utils/progress.js:8-15 | the record becomes `Marked` of the old one and storage is written exactly when an id was appended |
| Progress.ProgressStore.GetPercentage | frontend/src/utils/progress.js:17-21 | the percentage of the course's list length over the total, with 0 done for an unknown course |
| Progress.NotClamped | frontend/src/utils/progress.js:20 | the percentage is not clamped: 2 done of 1 gives 200 |
| ProgressPage.Without | frontend/src/components/progress.jsx:27 | the filter keeps exactly the ids other than the one removed |
| ProgressPage.Toggle | frontend/src/components/progress.jsx:25-31 | the toggled id is in the result exactly when it was not in the list, and no other id changes membership |
| ProgressPage.ToggleTwice | frontend/src/components/progress.jsx:25-31 | toggling an id twice restores the membership of every id |
| ProgressPage.ToggleDistinct | frontend/src/components/progress.jsx:25-31 | toggling keeps a list without duplicates free of them |
| ProgressPage.DoneIds | frontend/src/components/progress.jsx:34-36 | the done ids are exactly the completed ids that are course materials |
| ProgressPage.DoneAtMostTotal | frontend/src/components/progress.jsx:33-37 | with no duplicate in the completed list, the done count never exceeds the number of materials |
| ProgressPage.PagePercentage | frontend/src/components/progress.jsx:33-38 | with no duplicates and at least one material the percentage lies in 0..100 |
| ProgressPage.DuplicatesOverflow | frontend/src/components/progress.jsx:33-38 | a duplicated completed id counts twice and can push the percentage to 200 |
| Materials.FindIn | frontend/src/pages/materidetail.jsx:45-48 | the search of one module returns the first submaterial whose id reads as the target, and nothing exactly when none does |
| Materials.FindInModules | frontend/src/pages/materidetail.jsx:44-50 | the module loop returns the first match in module order, and nothing exactly when no submaterial matches |
| Materials.FindMaterial | frontend/src/pages/materidetail.jsx:42-51 | absent modules give null; otherwise the first submaterial, in module order, whose id reads as the target, or null when there is none |
| Materials.Normalised | frontend/src/pages/materidetail.jsx:84-89 | a module keeps a non-empty submaterial list, otherwise takes its `materials`, otherwise an empty list |
| Materials.Normalise | frontend/src/pages/materidetail.jsx:84-89 | every module is normalised, in order |
| Materials.NormaliseIdempotent | frontend/src/pages/materidetail.jsx:84-89 | normalising twice changes nothing further |
| Materials.RunEnd | frontend/src/pages/materidetail.jsx:118 | the run of id characters from a position ends at the first non-id character or the end |
| Materials.LongRun | frontend/src/pages/materidetail.jsx:118 | the file-id match is the leftmost run of 25 or more id characters, taken as far as it goes, and there is none exactly when no such run exists |
| Materials.SecureFileUrl | frontend/src/pages/materidetail.jsx:110-126 | an empty url gives null; an upload path gets the server origin; a Drive url becomes the preview url of its first long id run, or stays as it is without one; any other url is unchanged |
| Materials.PreviewIsDriveLink | frontend/src/pages/materidetail.jsx:117-121 | a rewritten Drive url is one the Drive link pattern accepts |
| Dates.ToInputFormat | frontend/src/pages/admin.jsx:40-52 | a falsy date gives ""; a year-first date is returned unchanged, taking precedence; a year-last date is reordered into the year-first form; every other date goes to the date parser |
| Dates.ReorderedFields | frontend/src/pages/admin.jsx:45 | the reordered date splits into year, padded month and padded day, and is year-first |
| Dates.JoinedFields | frontend/src/pages/admin.jsx:45 | fields without a dash joined by dashes split back into those fields |
| Dates.SplitNoDash | frontend/src/pages/admin.jsx:42 | a string without a dash splits into itself alone |
| Dates.SplitAfter | frontend/src/pages/admin.jsx:42 | a dash-free head before a dash splits off as the first part |
| Dates.FormattedIsStable | frontend/src/pages/admin.jsx:40-52 | every answer of the string branches is a fixed point of the conversion |
| Dates.YearLastReversed | frontend/src/pages/admin.jsx:45 | a year-last date with two-character day and month comes out as the same three fields reversed |

## Left out

- Authentication and roles: JWT signing and checking and the role middleware (backend/server.js:74-125) are not modelled; every handler receives the resolved caller (id and role), and the client's stored token is a `loggedIn` flag.
- Registration and login with bcrypt, the multer upload configuration and the database pool are not modelled; the names under which uploads were stored are parameters (`Uploads`).
- The file system: only the list of paths a handler asks to unlink is modelled, not the unlinking. The source unlinks before its commit, so a rollback does not bring files back; the model returns the list whatever the outcome and claims no atomicity between files and tables.
- Concurrency: each handler is atomic and handlers run one after another. The source reads the attempt count outside its transaction and enrolls by check-then-insert, so concurrent requests can break the limits this model proves.
- Auto-increment ids: one counter stands for the counters of all tables, and the gaps a rolled-back insert leaves are not modelled. Route and body ids are natural numbers. `None` stands only for the literal "undefined" the quiz detail route refuses; other non-numeric route ids, which the database would cast to a number ("abc" to 0, "5abc" to 5), are not modelled.
- String lengths: JavaScript's `.length` and `padStart` count UTF-16 code units, while the model counts characters, so a character outside the Basic Multilingual Plane counts once here and twice there (`"😀".padStart(2, "0")` is left unchanged by JavaScript but padded by `Strings.PadStart2`); this affects `Dates.YearFirst`, `Dates.YearLast` and `Strings.PadStart2`.
- Floating point: `Math.round(a / n * 100)` is the exact integer formula; `new Date`, `toISOString` and `toLocaleDateString` are not modelled, and the admin date field's parser branch is the result `NeedsDateParse`.
- The browser: React rendering, effects, navigation and axios are not modelled. Server answers are parameters of the methods that receive them, `setInterval` is the `Tick` event, and storage is a `map`. A missing token on the quiz page sends the browser to the login page; that path is not modelled.
- QuizSession.Session.Load: requires every loaded question to have fewer than 55231 choices and a correct index below that, so that `String.fromCharCode(65 + i)` is a single character; longer lists are not modelled.
- QuizSession.Session: when the quiz screen is up and the index names no question (`RenderFails`: after going back from the first question, or after starting a quiz without questions), the page's render of the current question throws and the page is gone. The model does not stop there; the states it reaches afterwards (answers at index -1, a NaN percentage) are not states of the page.
- Quizzes.QuizStore.CreateQuiz: the body's fields are taken as the integers and strings the editor sends; other JSON values the handler's loose checks let through (a fractional or non-numeric limit, a numeric choice) are not modelled.
- QuizSession.CorrectLabel: a correct index whose letter code is not a single character gives no letter, so such an answer never scores.
- ModuleForm.Form.Submit: the `isSubmitting` flag that disables the button, and the message text of the generic server error, are not modelled.
- The quiz editor copies the question list shallowly and mutates the shared question objects; the model replaces the edited question by value, which has the same visible effect because the old list is not read again.
- `JSON.parse` failures of the stored progress record, and the progress page's effect that writes the list back to storage (frontend/src/components/progress.jsx:21-23), are not modelled.
- `/api/courses/public` (it refers to an undefined `db`), the duplicate `/api/enrolled-courses` route, the plain read endpoints and the presentation-only pages are not part of this model.

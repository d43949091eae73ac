/**
 * The dashboard form a teacher uses to add modules, each with its submaterials, to a course. The
 * submit handler checks every title and every video link, keying each problem by the position it
 * belongs to, and posts the modules only when there is none.
 */
module ModuleForm {
  import opened Common
  import opened Tables
  import opened DriveLinks
  import Courses

  datatype FormSub = FormSub(title: string, videoUrl: string)
  datatype FormModule = FormModule(title: string, subs: seq<FormSub>)

  /** The two inputs of a submaterial. */
  datatype SubField = TitleField | VideoUrlField

  /** The keys of the errors object: `module_i`, `submaterial_i_j`, `submaterial_url_i_j` and `submit`. */
  datatype ErrorKey = ModuleTitle(m: nat) | SubTitle(m: nat, s: nat) | SubUrl(m: nat, s: nat) | SubmitKey

  /** Why a submission failed. */
  datatype SubmitProblem = LoginRequired | TokenInvalid | ServerSaid(message: string) | ServerGeneric | Unreachable

  /** The messages, with positions counted from 1 as the page shows them. */
  datatype Message =
    | ModuleTitleRequired(moduleNo: nat)
    | SubTitleRequired(subNo: nat, moduleNo: nat)
    | BadDriveLink(subNo: nat, moduleNo: nat)
    | SubmitFailed(problem: SubmitProblem)

  /** What the post came back with. */
  datatype PostResult = Posted | Rejected(status: int, message: string) | NoResponse

  const NewSub: FormSub := FormSub("", "")
  const NewModule: FormModule := FormModule("", [NewSub])

  /** The validation flags the position `k` names. */
  predicate Flagged(ms: seq<FormModule>, k: ErrorKey)
  {
    match k
    case ModuleTitle(m) => m < |ms| && ms[m].title == ""
    case SubTitle(m, s) => m < |ms| && s < |ms[m].subs| && ms[m].subs[s].title == ""
    case SubUrl(m, s) => m < |ms| && s < |ms[m].subs| && ms[m].subs[s].videoUrl != "" && !DriveUrlOk(ms[m].subs[s].videoUrl)
    case SubmitKey => false
  }

  /** The message stored under a validation key. */
  function MessageFor(k: ErrorKey): Message
  {
    match k
    case ModuleTitle(m) => ModuleTitleRequired(m + 1)
    case SubTitle(m, s) => SubTitleRequired(s + 1, m + 1)
    case SubUrl(m, s) => BadDriveLink(s + 1, m + 1)
    case SubmitKey => SubmitFailed(ServerGeneric)
  }

  /** The module a key belongs to, and where in that module's checks it comes (its title first). */
  function ModuleOf(k: ErrorKey): nat
  {
    match k
    case ModuleTitle(m) => m
    case SubTitle(m, _) => m
    case SubUrl(m, _) => m
    case SubmitKey => 0
  }

  function StepOf(k: ErrorKey): nat
  {
    match k
    case ModuleTitle(_) => 0
    case SubTitle(_, s) => s + 1
    case SubUrl(_, s) => s + 1
    case SubmitKey => 0
  }

  /** The validation has visited the position of `k` once it is at submaterial `s` of module `m`. */
  predicate Visited(k: ErrorKey, m: nat, s: nat)
  {
    ModuleOf(k) < m || (ModuleOf(k) == m && StepOf(k) <= s)
  }

  /** Errors exactly at the flagged positions among those visited, each with its message. */
  ghost predicate ErrorsUpTo(errors: map<ErrorKey, Message>, ms: seq<FormModule>, m: nat, s: nat)
  {
    && (forall k :: k in errors <==> Flagged(ms, k) && Visited(k, m, s))
    && (forall k :: k in errors ==> errors[k] == MessageFor(k))
  }

  /** The checks of one submaterial, added to the errors found so far. */
  method CheckSub(errors: map<ErrorKey, Message>, ms: seq<FormModule>, m: nat, s: nat) returns (errors': map<ErrorKey, Message>)
    requires m < |ms| && s < |ms[m].subs|
    requires ErrorsUpTo(errors, ms, m, s)
    ensures ErrorsUpTo(errors', ms, m, s + 1)
  {
    errors' := errors;
    var sub := ms[m].subs[s];
    if sub.title == "" {
      errors' := errors'[SubTitle(m, s) := MessageFor(SubTitle(m, s))];
    }
    if sub.videoUrl != "" && !DriveUrlOk(sub.videoUrl) {
      errors' := errors'[SubUrl(m, s) := MessageFor(SubUrl(m, s))];
    }
  }

  /** The `forEach` over modules and their submaterials that builds the errors object. */
  method Validate(ms: seq<FormModule>) returns (errors: map<ErrorKey, Message>)
    ensures forall k :: k in errors <==> Flagged(ms, k)
    ensures forall k :: k in errors ==> errors[k] == MessageFor(k)
  {
    errors := map[];
    var m := 0;
    while m < |ms|
      invariant 0 <= m <= |ms|
      invariant forall k :: k in errors <==> Flagged(ms, k) && ModuleOf(k) < m
      invariant forall k :: k in errors ==> errors[k] == MessageFor(k)
    {
      if ms[m].title == "" {
        errors := errors[ModuleTitle(m) := MessageFor(ModuleTitle(m))];
      }
      var s := 0;
      while s < |ms[m].subs|
        invariant 0 <= s <= |ms[m].subs|
        invariant ErrorsUpTo(errors, ms, m, s)
      {
        errors := CheckSub(errors, ms, m, s);
        s := s + 1;
      }
      forall k | Flagged(ms, k) && ModuleOf(k) == m
        ensures StepOf(k) <= s
      {
      }
      m := m + 1;
    }
  }

  /** The `{ modules: form.modules }` body as the add-modules handler reads it. */
  function Body(ms: seq<FormModule>): (b: Courses.ModulesBody)
    ensures b.Items? && |b.items| == |ms|
    ensures forall i :: 0 <= i < |ms| ==>
      && b.items[i].data == ms[i].title && b.items[i].children.Some?
      && |b.items[i].children.value| == |ms[i].subs|
      && forall j :: 0 <= j < |ms[i].subs| ==>
           b.items[i].children.value[j] == Courses.SubInput(ms[i].subs[j].title, Some(ms[i].subs[j].videoUrl))
  {
    Courses.Items(seq(|ms|, i requires 0 <= i < |ms| =>
      Draft(ms[i].title, Some(seq(|ms[i].subs|, j requires 0 <= j < |ms[i].subs| =>
        Courses.SubInput(ms[i].subs[j].title, Some(ms[i].subs[j].videoUrl)))))))
  }

  /**
   * The form and the server agree: the form finds no error exactly when the add-modules
   * handler accepts the body it posts.
   */
  lemma {:induction false} FormAgreesWithServer(ms: seq<FormModule>)
    ensures (forall k :: !Flagged(ms, k)) <==> Courses.ValidateModules(Body(ms)).Ok?
  {
    var b := Body(ms);
    if forall k :: !Flagged(ms, k) {
      forall i | 0 <= i < |ms|
        ensures Courses.ModuleOk(b.items[i])
      {
        assert !Flagged(ms, ModuleTitle(i));
        forall j | 0 <= j < |ms[i].subs|
          ensures Courses.SubOk(b.items[i].children.value[j])
        {
          assert !Flagged(ms, SubTitle(i, j)) && !Flagged(ms, SubUrl(i, j));
        }
      }
    } else {
      var k :| Flagged(ms, k);
      var i := ModuleOf(k);
      assert !Courses.ModuleOk(b.items[i]) by {
        match k
        case ModuleTitle(_) =>
        case SubTitle(_, j) =>
          assert !Courses.SubOk(b.items[i].children.value[j]);
        case SubUrl(_, j) =>
          assert !Courses.SubOk(b.items[i].children.value[j]);
      }
    }
  }

  /** The message a failed post leaves under `submit`. */
  function PostProblem(r: PostResult): (p: SubmitProblem)
    requires !r.Posted?
    ensures p == TokenInvalid <==> r.Rejected? && r.status == 401
    ensures p == Unreachable <==> r.NoResponse?
  {
    match r
    case Rejected(status, message) =>
      if status == 401 then TokenInvalid else if message != "" then ServerSaid(message) else ServerGeneric
    case NoResponse => Unreachable
  }

  class Form {
    var modules: seq<FormModule>
    var errors: map<ErrorKey, Message>

    constructor ()
      ensures modules == [] && errors == map[]
    {
      modules := [];
      errors := map[];
    }

    /** `handleAddModule`: a module with one empty submaterial. */
    method AddModule()
      modifies this`modules
      ensures modules == old(modules) + [NewModule]
    {
      modules := modules + [NewModule];
    }

    /** `handleModuleChange` */
    method SetModuleTitle(m: nat, value: string)
      requires m < |modules|
      modifies this`modules
      ensures modules == old(modules)[m := old(modules)[m].(title := value)]
    {
      modules := modules[m := modules[m].(title := value)];
    }

    /** `handleAddSubmaterial` */
    method AddSub(m: nat)
      requires m < |modules|
      modifies this`modules
      ensures modules == old(modules)[m := old(modules)[m].(subs := old(modules)[m].subs + [NewSub])]
    {
      modules := modules[m := modules[m].(subs := modules[m].subs + [NewSub])];
    }

    /** `handleSubmaterialChange` */
    method SetSubField(m: nat, s: nat, field: SubField, value: string)
      requires m < |modules| && s < |modules[m].subs|
      modifies this`modules
      ensures |modules| == |old(modules)| && |modules[m].subs| == |old(modules)[m].subs|
      ensures forall i :: 0 <= i < |modules| && i != m ==> modules[i] == old(modules)[i]
      ensures modules[m].title == old(modules)[m].title
      ensures forall j :: 0 <= j < |modules[m].subs| && j != s ==> modules[m].subs[j] == old(modules)[m].subs[j]
      ensures modules[m].subs[s] ==
        if field == TitleField then old(modules)[m].subs[s].(title := value) else old(modules)[m].subs[s].(videoUrl := value)
    {
      var sub := modules[m].subs[s];
      var sub' := if field == TitleField then sub.(title := value) else sub.(videoUrl := value);
      modules := modules[m := modules[m].(subs := modules[m].subs[s := sub'])];
    }

    /** `handleRemoveModule` */
    method RemoveModule(m: nat)
      requires m < |modules|
      modifies this`modules
      ensures modules == old(modules)[..m] + old(modules)[m + 1..]
    {
      modules := modules[..m] + modules[m + 1..];
    }

    /** `handleRemoveSubmaterial`: a module may be left with no submaterial. */
    method RemoveSub(m: nat, s: nat)
      requires m < |modules| && s < |modules[m].subs|
      modifies this`modules
      ensures modules == old(modules)[m := old(modules)[m].(subs := old(modules)[m].subs[..s] + old(modules)[m].subs[s + 1..])]
    {
      var subs := modules[m].subs;
      modules := modules[m := modules[m].(subs := subs[..s] + subs[s + 1..])];
    }

    /**
     * `handleSubmit`: validate; post only when no error was found, and only when logged in; a
     * failed post leaves its message under `submit`. The body is returned when it is sent.
     */
    method Submit(loggedIn: bool, result: PostResult) returns (sent: Option<Courses.ModulesBody>)
      modifies this`errors
      ensures sent.Some? <==> (forall k :: !Flagged(modules, k)) && loggedIn
      ensures sent.Some? ==> sent.value == Body(modules) && Courses.ValidateModules(sent.value).Ok?
      ensures (exists k :: Flagged(modules, k)) ==>
        && (forall k :: k in errors <==> Flagged(modules, k))
        && (forall k :: k in errors ==> errors[k] == MessageFor(k))
      ensures (forall k :: !Flagged(modules, k)) && !loggedIn ==> errors == map[SubmitKey := SubmitFailed(LoginRequired)]
      ensures sent.Some? && result.Posted? ==> errors == map[]
      ensures sent.Some? && !result.Posted? ==> errors == map[SubmitKey := SubmitFailed(PostProblem(result))]
    {
      sent := None;
      var found := Validate(modules);
      if found != map[] {
        errors := found;
        return;
      }
      assert forall k :: !Flagged(modules, k) by {
        forall k ensures !Flagged(modules, k) {
          assert k !in found;
        }
      }
      if !loggedIn {
        errors := map[SubmitKey := SubmitFailed(LoginRequired)];
        return;
      }
      FormAgreesWithServer(modules);
      sent := Some(Body(modules));
      if result.Posted? {
        errors := map[];
      } else {
        errors := map[SubmitKey := SubmitFailed(PostProblem(result))];
      }
    }
  }
}

/**
 * The course aggregate of the server: a course row, its modules and their submaterials,
 * the enrollment table, and the handlers that create, update, delete and extend a course
 * and enroll a user in one.
 */
module Courses {
  import opened Common
  import opened Strings
  import opened Tables
  import opened DriveLinks

  /** A `courses` row. `teacher` is None for a course an admin created. */
  datatype Course = Course(
    teacher: Option<nat>,
    title: string,
    date: string,
    description: Option<string>,
    image: Option<string>,
    file: Option<string>,
    students: nat)

  /** The columns of a `submaterials` row besides its id and module id. */
  datatype Sub = Sub(title: string, file: Option<string>)

  /** An `enrollments` row. */
  datatype Enrollment = Enrollment(user: nat, course: nat)

  /** The `modules` form field of create and update: absent (or empty), not valid JSON, or parsed. */
  datatype ModulesField = NoModules | Unparsable | Parsed(items: seq<Draft<string, string>>)

  /** The multipart body of create and update (the fields that are not uploads). */
  datatype CourseForm = CourseForm(
    title: string,
    date: string,
    description: Option<string>,
    imageUrl: Option<string>,            // image_url, read by update only
    fileUrl: Option<string>,             // file_url, read by update only
    modules: ModulesField,
    kept: map<(nat, nat), string>)       // submaterialFiles_<sub index>_<module index>, update only

  /** The names under which multer stored the uploaded files of one request. */
  datatype Uploads = Uploads(image: Option<string>, file: Option<string>, subFiles: seq<string>)

  /** One submaterial of an add-modules payload. */
  datatype SubInput = SubInput(title: string, videoUrl: Option<string>)

  /** The `modules` member of an add-modules JSON body. */
  datatype ModulesBody = Missing | NotArray | Items(items: seq<Draft<string, SubInput>>)

  /** JavaScript truthiness of a nullable string column or field. */
  predicate Truthy(u: Option<string>)
  {
    u.Some? && u.value != ""
  }

  /** `u || null` */
  function OrNull(u: Option<string>): Option<string>
  {
    if Truthy(u) then u else None
  }

  function UploadUrl(name: string): string
  {
    "/Uploads/" + name
  }

  /** The url an optional upload is stored under. */
  function Uploaded(name: Option<string>): Option<string>
  {
    if name.Some? then Some(UploadUrl(name.value)) else None
  }

  /** Create: the j-th submaterial of every module takes the j-th uploaded submaterial file, if any. */
  function CreateSubs(titles: seq<string>, files: seq<string>): (r: seq<Sub>)
    ensures |r| == |titles|
    ensures forall j :: 0 <= j < |r| ==> r[j].title == titles[j]
    ensures forall j :: 0 <= j < |r| ==> r[j].file == if j < |files| then Some(UploadUrl(files[j])) else None
  {
    seq(|titles|, j requires 0 <= j < |titles| => Sub(titles[j], if j < |files| then Some(UploadUrl(files[j])) else None))
  }

  function CreateDrafts(items: seq<Draft<string, string>>, files: seq<string>): (r: seq<Draft<string, Sub>>)
    ensures |r| == |items|
    ensures forall i :: 0 <= i < |r| ==> r[i].data == items[i].data && r[i].children.Some? == items[i].children.Some?
    ensures forall i :: 0 <= i < |r| && items[i].children.Some? ==> r[i].children.value == CreateSubs(items[i].children.value, files)
  {
    seq(|items|, i requires 0 <= i < |items| =>
      Draft(items[i].data, if items[i].children.Some? then Some(CreateSubs(items[i].children.value, files)) else None))
  }

  /**
   * Update: the j-th submaterial of module m takes the j-th uploaded file, otherwise the
   * kept url sent as `submaterialFiles_<j>_<m>` when it is non-empty, otherwise null.
   */
  function UpdateSubs(titles: seq<string>, files: seq<string>, kept: map<(nat, nat), string>, m: nat): (r: seq<Sub>)
    ensures |r| == |titles|
    ensures forall j :: 0 <= j < |r| ==> r[j].title == titles[j]
    ensures forall j :: 0 <= j < |r| ==>
      r[j].file == (if j < |files| then Some(UploadUrl(files[j]))
                    else if (j, m) in kept && kept[(j, m)] != "" then Some(kept[(j, m)])
                    else None)
  {
    seq(|titles|, j requires 0 <= j < |titles| =>
      Sub(titles[j],
        if j < |files| then Some(UploadUrl(files[j]))
        else if (j, m) in kept && kept[(j, m)] != "" then Some(kept[(j, m)])
        else None))
  }

  function UpdateDrafts(items: seq<Draft<string, string>>, files: seq<string>, kept: map<(nat, nat), string>): (r: seq<Draft<string, Sub>>)
    ensures |r| == |items|
    ensures forall i :: 0 <= i < |r| ==> r[i].data == items[i].data && r[i].children.Some? == items[i].children.Some?
    ensures forall i :: 0 <= i < |r| && items[i].children.Some? ==> r[i].children.value == UpdateSubs(items[i].children.value, files, kept, i)
  {
    seq(|items|, i requires 0 <= i < |items| =>
      Draft(items[i].data, if items[i].children.Some? then Some(UpdateSubs(items[i].children.value, files, kept, i)) else None))
  }

  /** Add-modules stores `video_url || null` as the submaterial's file url. */
  function AddDrafts(items: seq<Draft<string, SubInput>>): (r: seq<Draft<string, Sub>>)
    requires AllPresent(items)
    ensures |r| == |items| && AllPresent(r)
    ensures forall i :: 0 <= i < |r| ==> r[i].data == items[i].data && |r[i].children.value| == |items[i].children.value|
    ensures forall i, j :: 0 <= i < |r| && 0 <= j < |r[i].children.value| ==>
      r[i].children.value[j] == Sub(items[i].children.value[j].title, OrNull(items[i].children.value[j].videoUrl))
  {
    seq(|items|, i requires 0 <= i < |items| =>
      Draft(items[i].data, Some(seq(|items[i].children.value|, j requires 0 <= j < |items[i].children.value| =>
        Sub(items[i].children.value[j].title, OrNull(items[i].children.value[j].videoUrl))))))
  }

  // ---------------------------------------------------------------- add-modules validation

  predicate SubOk(s: SubInput)
  {
    s.title != "" && (Truthy(s.videoUrl) ==> DriveUrlOk(s.videoUrl.value))
  }

  /** A module passes: a title, a submaterials array, and every submaterial passes. */
  predicate ModuleOk(m: Draft<string, SubInput>)
  {
    m.data != "" && m.children.Some? && forall j :: 0 <= j < |m.children.value| ==> SubOk(m.children.value[j])
  }

  /** The inner `for (const sub of module.submaterials)` check, stopping at the first failure. */
  function CheckSubs(subs: seq<SubInput>): (ok: bool)
    ensures ok <==> forall j :: 0 <= j < |subs| ==> SubOk(subs[j])
    decreases |subs|
  {
    if subs == [] then true
    else if !SubOk(subs[0]) then false
    else
      var rest := CheckSubs(subs[1..]);
      assert forall j :: 1 <= j < |subs| ==> subs[j] == subs[1..][j - 1];
      rest
  }

  /** The outer `for (const module of modules)` check, stopping at the first failure. */
  function CheckModules(items: seq<Draft<string, SubInput>>): (ok: bool)
    ensures ok <==> forall i :: 0 <= i < |items| ==> ModuleOk(items[i])
    ensures ok ==> AllPresent(items)
    decreases |items|
  {
    if items == [] then true
    else if items[0].data == "" || items[0].children.None? || !CheckSubs(items[0].children.value) then false
    else
      var rest := CheckModules(items[1..]);
      assert forall i :: 1 <= i < |items| ==> items[i] == items[1..][i - 1];
      rest
  }

  /** The body checks of add-modules, every one answered with 400. */
  function ValidateModules(body: ModulesBody): (r: Outcome<seq<Draft<string, SubInput>>>)
    ensures r.Ok? <==> body.Items? && forall i :: 0 <= i < |body.items| ==> ModuleOk(body.items[i])
    ensures r.Ok? ==> r.value == body.items && AllPresent(r.value)
    ensures r.Err? ==> r == Err(Invalid, 400)
  {
    match body
    case Missing => Err(Invalid, 400)
    case NotArray => Err(Invalid, 400)
    case Items(items) => if CheckModules(items) then Ok(items) else Err(Invalid, 400)
  }

  // ---------------------------------------------------------------- the url lists handed to unlink

  /** The old url of a field when it is set and the update replaces it. */
  function Replaced(old_: Option<string>, new_: Option<string>): seq<string>
  {
    if Truthy(old_) && new_ != old_ then [old_.value] else []
  }

  /** The file urls of every submaterial of a course outline, module by module. */
  function SubFiles(tree: seq<Node<string, Sub>>): seq<Option<string>>
  {
    if tree == [] then []
    else SubFiles(tree[..|tree| - 1]) + FilesOf(tree[|tree| - 1].children)
  }

  function FilesOf(subs: seq<Sub>): (r: seq<Option<string>>)
    ensures |r| == |subs| && forall k :: 0 <= k < |r| ==> r[k] == subs[k].file
  {
    seq(|subs|, k requires 0 <= k < |subs| => subs[k].file)
  }

  /** The urls among `files` that name an upload under "/Uploads/", in order. */
  function UploadsAmong(files: seq<Option<string>>): seq<string>
  {
    if files == [] then []
    else
      var f := files[|files| - 1];
      UploadsAmong(files[..|files| - 1]) + (if Truthy(f) && StartsWith(f.value, "/Uploads/") then [f.value] else [])
  }

  /** What delete asks to unlink: the course image, the course file, then the uploaded submaterial files. */
  function DeleteList(c: Course, tree: seq<Node<string, Sub>>): seq<string>
  {
    (if Truthy(c.image) then [c.image.value] else [])
    + (if Truthy(c.file) then [c.file.value] else [])
    + UploadsAmong(SubFiles(tree))
  }

  lemma {:induction false} UploadsAmongMembers(files: seq<Option<string>>, u: string)
    ensures u in UploadsAmong(files) <==> exists i :: 0 <= i < |files| && files[i] == Some(u) && StartsWith(u, "/Uploads/")
  {
    if files != [] {
      var pre := files[..|files| - 1];
      UploadsAmongMembers(pre, u);
      if exists i :: 0 <= i < |files| && files[i] == Some(u) && StartsWith(u, "/Uploads/") {
        var i :| 0 <= i < |files| && files[i] == Some(u) && StartsWith(u, "/Uploads/");
        if i < |pre| {
          assert pre[i] == files[i];
        }
      }
    }
  }

  lemma {:induction false} SubFilesMembers(tree: seq<Node<string, Sub>>, f: Option<string>)
    ensures f in SubFiles(tree) <==> exists n, k :: 0 <= n < |tree| && 0 <= k < |tree[n].children| && tree[n].children[k].file == f
  {
    if tree != [] {
      var pre := tree[..|tree| - 1];
      var last := tree[|tree| - 1];
      SubFilesMembers(pre, f);
      assert SubFiles(tree) == SubFiles(pre) + FilesOf(last.children);
      if f in FilesOf(last.children) {
        var k :| 0 <= k < |last.children| && FilesOf(last.children)[k] == f;
        assert tree[|tree| - 1].children[k].file == f;
      }
      if exists n, k :: 0 <= n < |tree| && 0 <= k < |tree[n].children| && tree[n].children[k].file == f {
        var n, k :| 0 <= n < |tree| && 0 <= k < |tree[n].children| && tree[n].children[k].file == f;
        if n < |pre| {
          assert pre[n] == tree[n];
        } else {
          assert FilesOf(last.children)[k] == f;
        }
      }
    }
  }

  /**
   * Delete asks to unlink exactly the course's set image and file and every submaterial file
   * of the course stored under "/Uploads/" (a Drive link kept as a file url is left alone).
   */
  lemma DeleteListMembers(c: Course, tree: seq<Node<string, Sub>>, u: string)
    ensures u in DeleteList(c, tree) <==>
      || (Truthy(c.image) && u == c.image.value)
      || (Truthy(c.file) && u == c.file.value)
      || (StartsWith(u, "/Uploads/") && exists n, k :: 0 <= n < |tree| && 0 <= k < |tree[n].children| && tree[n].children[k].file == Some(u))
  {
    UploadsAmongMembers(SubFiles(tree), u);
    SubFilesMembers(tree, Some(u));
  }

  /** The `filesToDelete` list of the delete handler, from the course row and the joined submaterial file urls. */
  method FilesToDelete(c: Course, files: seq<Option<string>>) returns (toDelete: seq<string>)
    ensures toDelete == (if Truthy(c.image) then [c.image.value] else [])
                      + (if Truthy(c.file) then [c.file.value] else [])
                      + UploadsAmong(files)
  {
    toDelete := [];
    if Truthy(c.image) {
      toDelete := toDelete + [c.image.value];
    }
    if Truthy(c.file) {
      toDelete := toDelete + [c.file.value];
    }
    ghost var head := toDelete;
    var i := 0;
    while i < |files|
      invariant 0 <= i <= |files|
      invariant toDelete == head + UploadsAmong(files[..i])
    {
      var f := files[i];
      assert files[..i + 1] == files[..i] + [f];
      if Truthy(f) && StartsWith(f.value, "/Uploads/") {
        toDelete := toDelete + [f.value];
      }
      i := i + 1;
    }
    assert files[..i] == files;
  }

  predicate NoDuplicates(es: seq<Enrollment>)
  {
    forall i, j :: 0 <= i < j < |es| ==> es[i] != es[j]
  }

  /** An owner may change a course; an admin may change any. Anyone else, including a teacher facing an admin's course, may not. */
  predicate MayEdit(caller: Caller, c: Course)
  {
    caller.role == Admin || c.teacher == Some(caller.id)
  }

  /** Add-modules: a teacher may extend their own course or an admin's; an admin any course. */
  predicate MayExtend(caller: Caller, c: Course)
  {
    caller.role != Teacher || c.teacher == Some(caller.id) || c.teacher == None
  }

  /** The course row an update writes. */
  function Edited(c: Course, form: CourseForm, up: Uploads): Course
  {
    c.(title := form.title, date := form.date, description := OrNull(form.description),
       image := if up.image.Some? then Uploaded(up.image) else form.imageUrl,
       file := if up.file.Some? then Uploaded(up.file) else form.fileUrl)
  }

  /** The course row a create writes. */
  function Created(caller: Caller, form: CourseForm, up: Uploads): (c: Course)
    ensures c.teacher == if caller.role == Admin then None else Some(caller.id)
    ensures c.students == 0
  {
    Course(if caller.role == Admin then None else Some(caller.id), form.title, form.date,
      OrNull(form.description), Uploaded(up.image), Uploaded(up.file), 0)
  }

  /** Whether a create, update or add request's modules can be stored without the transaction failing. */
  predicate Storable(m: ModulesField)
  {
    m.NoModules? || (m.Parsed? && AllPresent(m.items))
  }

  class CourseStore {
    var courses: map<nat, Course>
    var modules: seq<Row<string>>
    var subs: seq<Row<Sub>>
    var enrollments: seq<Enrollment>
    /** The next auto-increment id (one counter stands for the three tables' counters). */
    var next: nat

    ghost predicate Valid()
      reads this
    {
      && TablesOk(modules, subs, next)
      && (forall c :: c in courses ==> c < next)
      && NoDuplicates(enrollments)
    }

    constructor()
      ensures Valid()
      ensures courses == map[] && modules == [] && subs == [] && enrollments == []
    {
      courses, modules, subs, enrollments, next := map[], [], [], [], 1;
    }

    /** POST /api/enrollments */
    method Enroll(caller: Caller, course: nat) returns (out: Outcome<nat>)
      requires Valid()
      modifies this
      ensures Valid()
      ensures course == 0 ==> out == Err(Invalid, 400) && unchanged(this)
      ensures course != 0 && Enrollment(caller.id, course) in old(enrollments) ==> out == Err(Duplicate, 400) && unchanged(this)
      ensures course != 0 && Enrollment(caller.id, course) !in old(enrollments) ==>
        && enrollments == old(enrollments) + [Enrollment(caller.id, course)]
        && modules == old(modules) && subs == old(subs) && next == old(next)
        && (course in old(courses) ==>
              out == Ok(course) && courses == old(courses)[course := old(courses)[course].(students := old(courses)[course].students + 1)])
        && (course !in old(courses) ==> out == Err(NotFound, 404) && courses == old(courses))
    {
      if course == 0 {
        return Err(Invalid, 400);
      }
      if Enrollment(caller.id, course) in enrollments {
        return Err(Duplicate, 400);
      }
      enrollments := enrollments + [Enrollment(caller.id, course)];
      if course in courses {
        courses := courses[course := courses[course].(students := courses[course].students + 1)];
        out := Ok(course);
      } else {
        out := Err(NotFound, 404);
      }
    }

    /** POST /api/courses: the course row, then its modules and submaterials, in one transaction. */
    method CreateCourse(caller: Caller, form: CourseForm, up: Uploads) returns (out: Outcome<nat>)
      requires Valid()
      modifies this
      ensures Valid()
      ensures out.Ok? <==> caller.role != Student && form.title != "" && form.date != "" && Storable(form.modules)
      ensures caller.role == Student ==> out == Err(Forbidden, 403)
      ensures caller.role != Student && (form.title == "" || form.date == "") ==> out == Err(Invalid, 400)
      ensures caller.role != Student && form.title != "" && form.date != "" && !Storable(form.modules) ==> out == Err(Malformed, 500)
      ensures out.Err? ==> unchanged(this)
      ensures out.Ok? ==>
        && out.value !in old(courses)
        && courses == old(courses)[out.value := Created(caller, form, up)]
        && Tree(modules, subs, out.value) == (if form.modules.Parsed? then Nodes(CreateDrafts(form.modules.items, up.subFiles)) else [])
        && (forall c :: c != out.value ==> Tree(modules, subs, c) == Tree(old(modules), old(subs), c))
        && enrollments == old(enrollments)
    {
      if caller.role == Student {
        return Err(Forbidden, 403);
      }
      if form.title == "" || form.date == "" {
        return Err(Invalid, 400);
      }
      var id := next;
      TreeNoOwner(modules, subs, id);
      match form.modules
      case NoModules =>
        courses := courses[id := Created(caller, form, up)];
        next := next + 1;
        out := Ok(id);
      case Unparsable =>
        out := Err(Malformed, 500);
      case Parsed(items) =>
        var ok, ps, cs, n := InsertTree(modules, subs, next + 1, id, CreateDrafts(items, up.subFiles));
        if ok {
          courses, modules, subs, next := courses[id := Created(caller, form, up)], ps, cs, n;
          out := Ok(id);
        } else {
          out := Err(Malformed, 500);
        }
    }

    /**
     * PUT /api/courses/:id. The old image and file are unlinked before the transaction
     * commits, so `unlinked` is what the handler asked to delete even when it then fails.
     */
    method UpdateCourse(caller: Caller, id: nat, form: CourseForm, up: Uploads) returns (out: Outcome<nat>, unlinked: seq<string>)
      requires Valid()
      modifies this
      ensures Valid()
      ensures out.Ok? <==>
        caller.role != Student && form.title != "" && form.date != "" && id in old(courses)
        && MayEdit(caller, old(courses)[id]) && Storable(form.modules)
      ensures caller.role == Student ==> out == Err(Forbidden, 403)
      ensures caller.role != Student && (form.title == "" || form.date == "") ==> out == Err(Invalid, 400)
      ensures caller.role != Student && form.title != "" && form.date != "" && id !in old(courses) ==> out == Err(NotFound, 500)
      ensures caller.role != Student && form.title != "" && form.date != "" && id in old(courses) && !MayEdit(caller, old(courses)[id])
        ==> out == Err(Forbidden, 500)
      ensures out.Err? ==> unchanged(this)
      ensures unlinked == if caller.role != Student && form.title != "" && form.date != "" && id in old(courses) && MayEdit(caller, old(courses)[id])
        then Replaced(old(courses)[id].image, Edited(old(courses)[id], form, up).image)
           + Replaced(old(courses)[id].file, Edited(old(courses)[id], form, up).file)
        else []
      ensures out.Ok? ==>
        && courses == old(courses)[id := Edited(old(courses)[id], form, up)]
        && Tree(modules, subs, id) == (if form.modules.Parsed? then Nodes(UpdateDrafts(form.modules.items, up.subFiles, form.kept)) else Tree(old(modules), old(subs), id))
        && (forall c :: c != id ==> Tree(modules, subs, c) == Tree(old(modules), old(subs), c))
        && enrollments == old(enrollments)
    {
      unlinked := [];
      if caller.role == Student {
        return Err(Forbidden, 403), [];
      }
      if form.title == "" || form.date == "" {
        return Err(Invalid, 400), [];
      }
      if id !in courses {
        return Err(NotFound, 500), [];
      }
      var current := courses[id];
      if !MayEdit(caller, current) {
        return Err(Forbidden, 500), [];
      }
      var edited := Edited(current, form, up);
      if Truthy(current.image) && edited.image != current.image {
        unlinked := unlinked + [current.image.value];
      }
      if Truthy(current.file) && edited.file != current.file {
        unlinked := unlinked + [current.file.value];
      }
      match form.modules
      case NoModules =>
        courses := courses[id := edited];
        out := Ok(id);
      case Unparsable =>
        out := Err(Malformed, 500);
      case Parsed(items) =>
        var ok, ps, cs, n := ReplaceTree(modules, subs, next, id, UpdateDrafts(items, up.subFiles, form.kept));
        if ok {
          courses, modules, subs, next := courses[id := edited], ps, cs, n;
          out := Ok(id);
        } else {
          out := Err(Malformed, 500);
        }
    }

    /**
     * DELETE /api/courses/:id: the files are unlinked first, then the submaterials, the
     * modules and the course row are deleted. Enrollment rows are not touched.
     */
    method DeleteCourse(caller: Caller, id: nat) returns (out: Outcome<nat>, unlinked: seq<string>)
      requires Valid()
      modifies this
      ensures Valid()
      ensures out.Ok? <==> caller.role != Student && id in old(courses) && MayEdit(caller, old(courses)[id])
      ensures caller.role == Student ==> out == Err(Forbidden, 403)
      ensures caller.role != Student && id !in old(courses) ==> out == Err(NotFound, 500)
      ensures caller.role != Student && id in old(courses) && !MayEdit(caller, old(courses)[id]) ==> out == Err(Forbidden, 500)
      ensures out.Err? ==> unchanged(this) && unlinked == []
      ensures out.Ok? ==>
        && unlinked == DeleteList(old(courses)[id], Tree(old(modules), old(subs), id))
        && courses == old(courses) - {id}
        && Tree(modules, subs, id) == []
        && (forall c :: c != id ==> Tree(modules, subs, c) == Tree(old(modules), old(subs), c))
        && enrollments == old(enrollments)
    {
      unlinked := [];
      if caller.role == Student {
        return Err(Forbidden, 403), [];
      }
      if id !in courses {
        return Err(NotFound, 500), [];
      }
      var current := courses[id];
      if !MayEdit(caller, current) {
        return Err(Forbidden, 500), [];
      }
      unlinked := FilesToDelete(current, SubFiles(Tree(modules, subs, id)));
      modules, subs := DeleteTree(modules, subs, next, id);
      courses := courses - {id};
      out := Ok(id);
    }

    /** POST /api/courses/:id/modules: validate, check ownership, then append the modules. */
    method AddModules(caller: Caller, id: nat, body: ModulesBody) returns (out: Outcome<nat>)
      requires Valid()
      modifies this
      ensures Valid()
      ensures out.Ok? <==>
        caller.role != Student && ValidateModules(body).Ok? && id in old(courses) && MayExtend(caller, old(courses)[id])
      ensures caller.role == Student ==> out == Err(Forbidden, 403)
      ensures caller.role != Student && ValidateModules(body).Err? ==> out == Err(Invalid, 400)
      ensures caller.role != Student && ValidateModules(body).Ok? && id !in old(courses) ==> out == Err(NotFound, 404)
      ensures caller.role != Student && ValidateModules(body).Ok? && id in old(courses) && !MayExtend(caller, old(courses)[id])
        ==> out == Err(Forbidden, 403)
      ensures out.Err? ==> unchanged(this)
      ensures out.Ok? ==>
        && courses == old(courses)
        && Tree(modules, subs, id) == Tree(old(modules), old(subs), id) + Nodes(AddDrafts(body.items))
        && (forall c :: c != id ==> Tree(modules, subs, c) == Tree(old(modules), old(subs), c))
        && enrollments == old(enrollments)
    {
      if caller.role == Student {
        return Err(Forbidden, 403);
      }
      var checked := ValidateModules(body);
      if checked.Err? {
        return Err(checked.kind, checked.status);
      }
      if id !in courses {
        return Err(NotFound, 404);
      }
      if !MayExtend(caller, courses[id]) {
        return Err(Forbidden, 403);
      }
      var ok, ps, cs, n := InsertTree(modules, subs, next, id, AddDrafts(checked.value));
      modules, subs, next := ps, cs, n;
      out := Ok(id);
    }
  }
}

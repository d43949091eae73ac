/**
 * The material page: it finds the submaterial the route names among a course's modules, falls
 * back from a module's `submaterials` to its `materials`, and rewrites a file url into one the
 * browser can open (the server's upload folder, or a Google Drive preview).
 */
module Materials {
  import opened Common
  import opened Strings
  import opened DriveLinks

  /** A submaterial as the page receives it; only its id matters for the lookup. */
  datatype PageSub = PageSub(id: nat, title: string, file: Option<string>)

  /** A module, where either list may be absent. */
  datatype PageModule = PageModule(title: string, submaterials: Option<seq<PageSub>>, materials: Option<seq<PageSub>>)

  // ---------------------------------------------------------------- lookup

  /** `m.id.toString() === targetId.toString()` */
  predicate Matches(m: PageSub, target: string)
  {
    NatToString(m.id) == target
  }

  /** `module.submaterials`, an absent list searched as an empty one. */
  function SubsOf(m: PageModule): seq<PageSub>
  {
    if m.submaterials.Some? then m.submaterials.value else []
  }

  /** Every submaterial in the order the search visits them: module by module. */
  function Flatten(ms: seq<PageModule>): seq<PageSub>
    decreases |ms|
  {
    if ms == [] then [] else SubsOf(ms[0]) + Flatten(ms[1..])
  }

  /** The entry at k is the first that matches. */
  predicate FirstMatchAt(xs: seq<PageSub>, target: string, k: int)
  {
    0 <= k < |xs| && Matches(xs[k], target) && forall j :: 0 <= j < k ==> !Matches(xs[j], target)
  }

  /** `submaterials.find(...)`: the first submaterial with the target id. */
  function FindIn(subs: seq<PageSub>, target: string): (r: Option<PageSub>)
    ensures r.None? <==> forall k :: 0 <= k < |subs| ==> !Matches(subs[k], target)
    ensures r.Some? ==> exists k :: FirstMatchAt(subs, target, k) && subs[k] == r.value
    decreases |subs|
  {
    if subs == [] then None
    else if Matches(subs[0], target) then
      assert FirstMatchAt(subs, target, 0);
      Some(subs[0])
    else
      var r := FindIn(subs[1..], target);
      assert forall k :: 1 <= k < |subs| ==> subs[k] == subs[1..][k - 1];
      if r.Some? then
        var k :| FirstMatchAt(subs[1..], target, k) && subs[1..][k] == r.value;
        assert FirstMatchAt(subs, target, k + 1);
        r
      else r
  }

  /**
   * `findMaterial`: null for absent modules; otherwise the first submaterial, in module order,
   * whose id reads as the target, or null when there is none.
   */
  function FindMaterial(modules: Option<seq<PageModule>>, target: string): (r: Option<PageSub>)
    ensures modules.None? ==> r.None?
    ensures modules.Some? && r.None? ==> forall k :: 0 <= k < |Flatten(modules.value)| ==> !Matches(Flatten(modules.value)[k], target)
    ensures modules.Some? && r.Some? ==>
      exists k :: FirstMatchAt(Flatten(modules.value), target, k) && Flatten(modules.value)[k] == r.value
  {
    if modules.None? then None else FindInModules(modules.value, target)
  }

  /** The `for (const module of modules)` loop, returning at the first module that has a match. */
  function FindInModules(ms: seq<PageModule>, target: string): (r: Option<PageSub>)
    ensures r.None? <==> forall k :: 0 <= k < |Flatten(ms)| ==> !Matches(Flatten(ms)[k], target)
    ensures r.Some? ==> exists k :: FirstMatchAt(Flatten(ms), target, k) && Flatten(ms)[k] == r.value
    decreases |ms|
  {
    if ms == [] then None
    else
      var head := SubsOf(ms[0]);
      var found := FindIn(head, target);
      var rest := Flatten(ms[1..]);
      assert Flatten(ms) == head + rest;
      if found.Some? then
        var k :| FirstMatchAt(head, target, k) && head[k] == found.value;
        FirstMatchPrefix(head, rest, target, k);
        found
      else
        var r := FindInModules(ms[1..], target);
        if r.Some? then
          var k :| FirstMatchAt(rest, target, k) && rest[k] == r.value;
          FirstMatchShift(head, rest, target, k);
          r
        else
          NoMatchConcat(head, rest, target);
          r
  }

  lemma FirstMatchPrefix(head: seq<PageSub>, rest: seq<PageSub>, target: string, k: int)
    requires FirstMatchAt(head, target, k)
    ensures FirstMatchAt(head + rest, target, k) && (head + rest)[k] == head[k]
  {
  }

  lemma FirstMatchShift(head: seq<PageSub>, rest: seq<PageSub>, target: string, k: int)
    requires forall j :: 0 <= j < |head| ==> !Matches(head[j], target)
    requires FirstMatchAt(rest, target, k)
    ensures FirstMatchAt(head + rest, target, |head| + k) && (head + rest)[|head| + k] == rest[k]
  {
  }

  lemma NoMatchConcat(head: seq<PageSub>, rest: seq<PageSub>, target: string)
    requires forall j :: 0 <= j < |head| ==> !Matches(head[j], target)
    requires forall j :: 0 <= j < |rest| ==> !Matches(rest[j], target)
    ensures forall j :: 0 <= j < |head + rest| ==> !Matches((head + rest)[j], target)
  {
  }

  // ---------------------------------------------------------------- normalisation

  /** `submaterials?.length ? submaterials : materials || []` for one module. */
  function Normalised(m: PageModule): (r: PageModule)
    ensures r.title == m.title && r.materials == m.materials && r.submaterials.Some?
    ensures |SubsOf(m)| > 0 ==> r.submaterials == m.submaterials
    ensures |SubsOf(m)| == 0 && m.materials.Some? ==> r.submaterials == m.materials
    ensures |SubsOf(m)| == 0 && m.materials.None? ==> r.submaterials == Some([])
  {
    var subs := if m.submaterials.Some? && |m.submaterials.value| > 0 then m.submaterials.value
                else if m.materials.Some? then m.materials.value
                else [];
    m.(submaterials := Some(subs))
  }

  /** The `modules.map(...)` of the load handler. */
  function Normalise(ms: seq<PageModule>): (r: seq<PageModule>)
    ensures |r| == |ms|
    ensures forall i :: 0 <= i < |ms| ==> r[i] == Normalised(ms[i])
  {
    seq(|ms|, i requires 0 <= i < |ms| => Normalised(ms[i]))
  }

  /** Normalising twice changes nothing further. */
  lemma NormaliseIdempotent(ms: seq<PageModule>)
    ensures Normalise(Normalise(ms)) == Normalise(ms)
  {
    var once := Normalise(ms);
    assert forall i :: 0 <= i < |ms| ==> Normalised(once[i]) == once[i];
  }

  // ---------------------------------------------------------------- file urls

  const ServerOrigin: string := "http://localhost:3000"
  const DriveHost: string := "drive.google.com"
  const PreviewPrefix: string := "https://drive.google.com/file/d/"
  const PreviewSuffix: string := "/preview"

  /** The shortest run the file-id pattern `[-\w]{25,}` accepts. */
  const MinIdRun: nat := 25

  /** The end of the run of id characters that starts at i. */
  function RunEnd(s: string, i: nat): (e: nat)
    requires i <= |s|
    ensures i <= e <= |s| && IdRun(s, i, e) && (e == |s| || !IdChar(s[e]))
    decreases |s| - i
  {
    if i == |s| || !IdChar(s[i]) then i else RunEnd(s, i + 1)
  }

  /** A run of at least 25 id characters starts at i. */
  predicate LongRunAt(s: string, i: int)
  {
    0 <= i && i + MinIdRun <= |s| && IdRun(s, i, i + MinIdRun)
  }

  /**
   * The regular expression's match: the leftmost position where 25 id characters start, taken
   * as far as the run goes. The scan begins at a run boundary i with no long run starting earlier.
   */
  function LongRun(s: string, i: nat): (r: Option<(nat, nat)>)
    requires i <= |s| && (i == 0 || !IdChar(s[i - 1]))
    requires forall p :: 0 <= p < i ==> !LongRunAt(s, p)
    ensures r.None? ==> forall p :: 0 <= p <= |s| ==> !LongRunAt(s, p)
    ensures r.Some? ==>
      var (a, b) := r.value;
      && LongRunAt(s, a) && a + MinIdRun <= b <= |s| && IdRun(s, a, b) && (b == |s| || !IdChar(s[b]))
      && forall p :: 0 <= p < a ==> !LongRunAt(s, p)
    decreases |s| - i
  {
    var e := RunEnd(s, i);
    if e - i >= MinIdRun then Some((i, e))
    else
      assert forall p :: i <= p <= e ==> !LongRunAt(s, p);
      if e == |s| then None
      else LongRun(s, e + 1)
  }

  /** `getSecureFileUrl` */
  function SecureFileUrl(url: Option<string>): (r: Option<string>)
    ensures !Truthy(url) ==> r.None?
    ensures Truthy(url) && (StartsWith(url.value, "/uploads/") || StartsWith(url.value, "/Uploads/")) ==>
      r == Some(ServerOrigin + url.value)
    ensures Truthy(url) && !StartsWith(url.value, "/uploads/") && !StartsWith(url.value, "/Uploads/") ==>
      && (!Contains(url.value, DriveHost) ==> r == url)
      && (Contains(url.value, DriveHost) && LongRun(url.value, 0).None? ==> r == url)
      && (Contains(url.value, DriveHost) && LongRun(url.value, 0).Some? ==>
            var (a, b) := LongRun(url.value, 0).value;
            r == Some(PreviewPrefix + url.value[a..b] + PreviewSuffix))
  {
    if !Truthy(url) then None
    else
      var u := url.value;
      if StartsWith(u, "/uploads/") || StartsWith(u, "/Uploads/") then Some(ServerOrigin + u)
      else if Contains(u, DriveHost) then
        match LongRun(u, 0)
        case Some((a, b)) => Some(PreviewPrefix + u[a..b] + PreviewSuffix)
        case None => url
      else url
  }

  /** `!url`: an absent or empty url. */
  predicate Truthy(url: Option<string>)
  {
    url.Some? && url.value != ""
  }

  /** A Drive link turned into a preview link is one the Drive link pattern accepts. */
  lemma PreviewIsDriveLink(url: string)
    requires url != "" && !StartsWith(url, "/uploads/") && !StartsWith(url, "/Uploads/")
    requires Contains(url, DriveHost) && LongRun(url, 0).Some?
    ensures SecureFileUrl(Some(url)).Some? && DriveUrlOk(SecureFileUrl(Some(url)).value)
  {
    var (a, b) := LongRun(url, 0).value;
    var id := url[a..b];
    assert IdChar(id[0]);
    DriveUrlOf(id + PreviewSuffix);
    assert PreviewPrefix + id + PreviewSuffix == FilePrefix + (id + PreviewSuffix);
  }
}

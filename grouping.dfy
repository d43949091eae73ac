/**
 * The two ways the server turns module and submaterial rows into the nested
 * `modules: [{ id, title, submaterials: [...] }]` shape it sends:
 *  - the course detail endpoint groups the flat rows of a LEFT JOIN in a Map keyed by
 *    module id, with "Untitled" fallbacks for empty titles;
 *  - the course list endpoints filter the module rows of each course and, for each module,
 *    filter the submaterial rows that point at it.
 */
module Grouping {
  import opened Common
  import opened Tables
  import opened Courses

  datatype SubView = SubView(id: nat, title: string, file: Option<string>)
  datatype ModuleView = ModuleView(id: nat, title: string, submaterials: seq<SubView>)

  /** One row of `modules m LEFT JOIN submaterials s`; `subId` is None where no submaterial matched. */
  datatype JoinRow = JoinRow(moduleId: nat, moduleTitle: string, subId: Option<nat>, subTitle: string, subFile: Option<string>)

  /** `t || fallback` for a title column, where NULL is written as "". */
  function Fallback(t: string, fallback: string): string
  {
    if t == "" then fallback else t
  }

  /** `if (row.submaterial_id)`: a matched submaterial with a non-zero id. */
  predicate HasSub(r: JoinRow)
  {
    r.subId.Some? && r.subId.value != 0
  }

  // ---------------------------------------------------------------- what the grouping computes

  /** The module ids in order of first appearance: the keys of the Map, in insertion order. */
  function Keys(rows: seq<JoinRow>): seq<nat>
  {
    if rows == [] then []
    else
      var keys := Keys(rows[..|rows| - 1]);
      var m := rows[|rows| - 1].moduleId;
      if m in keys then keys else keys + [m]
  }

  /** The module title carried by the first row of module m. */
  function TitleOf(rows: seq<JoinRow>, m: nat): string
  {
    if rows == [] then ""
    else
      var pre := rows[..|rows| - 1];
      if m in Keys(pre) then TitleOf(pre, m)
      else if rows[|rows| - 1].moduleId == m then rows[|rows| - 1].moduleTitle
      else ""
  }

  function SubOfRow(r: JoinRow): SubView
    requires HasSub(r)
  {
    SubView(r.subId.value, Fallback(r.subTitle, "Untitled Material"), r.subFile)
  }

  /** The submaterials of module m: every row of m that carries one, in row order. */
  function SubsOf(rows: seq<JoinRow>, m: nat): seq<SubView>
  {
    if rows == [] then []
    else
      var r := rows[|rows| - 1];
      SubsOf(rows[..|rows| - 1], m) + (if r.moduleId == m && HasSub(r) then [SubOfRow(r)] else [])
  }

  function View(rows: seq<JoinRow>, m: nat): ModuleView
  {
    ModuleView(m, Fallback(TitleOf(rows, m), "Untitled Module"), SubsOf(rows, m))
  }

  /** `Array.from(modulesMap.values())` once every row has been seen. */
  function Grouped(rows: seq<JoinRow>): seq<ModuleView>
  {
    seq(|Keys(rows)|, i requires 0 <= i < |Keys(rows)| => View(rows, Keys(rows)[i]))
  }

  /** A module id no row mentions has no submaterials. */
  lemma {:induction false} SubsOfUnseen(rows: seq<JoinRow>, m: nat)
    requires m !in Keys(rows)
    ensures SubsOf(rows, m) == [] && TitleOf(rows, m) == ""
  {
    if rows != [] {
      var pre := rows[..|rows| - 1];
      assert m !in Keys(pre);
      SubsOfUnseen(pre, m);
    }
  }

  /** What one more row does to the view of module m. */
  lemma ViewStep(pre: seq<JoinRow>, r: JoinRow, m: nat)
    requires m in Keys(pre) || m == r.moduleId
    ensures View(pre + [r], m) ==
      var v := if m in Keys(pre) then View(pre, m) else ModuleView(m, Fallback(r.moduleTitle, "Untitled Module"), []);
      v.(submaterials := v.submaterials + (if r.moduleId == m && HasSub(r) then [SubOfRow(r)] else []))
  {
    assert (pre + [r])[..|pre|] == pre;
    if m !in Keys(pre) {
      SubsOfUnseen(pre, m);
    }
  }

  /** The `modulesWithSubmaterials.forEach` loop that fills `modulesMap`. */
  method GroupRows(rows: seq<JoinRow>) returns (modules: seq<ModuleView>)
    ensures modules == Grouped(rows)
  {
    var order: seq<nat> := [];
    var byId: map<nat, ModuleView> := map[];
    var i := 0;
    while i < |rows|
      invariant 0 <= i <= |rows|
      invariant order == Keys(rows[..i])
      invariant forall m :: m in byId <==> m in order
      invariant forall m :: m in byId ==> byId[m] == View(rows[..i], m)
    {
      var r := rows[i];
      assert rows[..i + 1] == rows[..i] + [r];
      if r.moduleId !in byId {
        order := order + [r.moduleId];
      }
      var v := if r.moduleId in byId then byId[r.moduleId]
               else ModuleView(r.moduleId, Fallback(r.moduleTitle, "Untitled Module"), []);
      if HasSub(r) {
        v := v.(submaterials := v.submaterials + [SubView(r.subId.value, Fallback(r.subTitle, "Untitled Material"), r.subFile)]);
      }
      byId := byId[r.moduleId := v];
      forall m | m in byId
        ensures byId[m] == View(rows[..i + 1], m)
      {
        ViewStep(rows[..i], r, m);
      }
      i := i + 1;
    }
    assert rows[..i] == rows;
    modules := seq(|order|, j requires 0 <= j < |order| && order[j] in byId => byId[order[j]]);
  }

  /** Every module id occurs once in the grouping. */
  lemma {:induction false} KeysDistinct(rows: seq<JoinRow>)
    ensures forall i, j :: 0 <= i < j < |Keys(rows)| ==> Keys(rows)[i] != Keys(rows)[j]
  {
    if rows != [] {
      KeysDistinct(rows[..|rows| - 1]);
    }
  }

  /** The grouping has a module for exactly the module ids the rows mention. */
  lemma {:induction false} KeysCover(rows: seq<JoinRow>, m: nat)
    ensures m in Keys(rows) <==> exists i :: 0 <= i < |rows| && rows[i].moduleId == m
  {
    if rows != [] {
      var pre := rows[..|rows| - 1];
      KeysCover(pre, m);
      if exists i :: 0 <= i < |pre| && pre[i].moduleId == m {
        var i :| 0 <= i < |pre| && pre[i].moduleId == m;
        assert rows[i] == pre[i];
      }
      if exists i :: 0 <= i < |rows| && rows[i].moduleId == m {
        var i :| 0 <= i < |rows| && rows[i].moduleId == m;
        if i < |pre| {
          assert pre[i] == rows[i];
        }
      }
    }
  }

  // ---------------------------------------------------------------- the filter/map endpoints

  /** `submaterials.filter(s => s.module_id === m).map(s => ({ id, title, file_url }))` */
  function SubViews(cs: seq<Row<Sub>>, m: nat): seq<SubView>
  {
    if cs == [] then []
    else
      var s := cs[|cs| - 1];
      SubViews(cs[..|cs| - 1], m) + (if s.parent == m then [SubView(s.id, s.data.title, s.data.file)] else [])
  }

  /** `modules.filter(m => m.course_id === course).map(m => ({ id, title, submaterials }))` */
  function CourseModules(ps: seq<Row<string>>, cs: seq<Row<Sub>>, course: nat): seq<ModuleView>
  {
    if ps == [] then []
    else
      var p := ps[|ps| - 1];
      CourseModules(ps[..|ps| - 1], cs, course) + (if p.parent == course then [ModuleView(p.id, p.data, SubViews(cs, p.id))] else [])
  }

  /** The views without their ids, as the store's outline of a course holds them. */
  function StripSubs(vs: seq<SubView>): (r: seq<Sub>)
    ensures |r| == |vs|
  {
    seq(|vs|, k requires 0 <= k < |vs| => Sub(vs[k].title, vs[k].file))
  }

  function Strip(vs: seq<ModuleView>): (r: seq<Node<string, Sub>>)
    ensures |r| == |vs|
  {
    seq(|vs|, k requires 0 <= k < |vs| => Node(vs[k].title, StripSubs(vs[k].submaterials)))
  }

  lemma {:induction false} SubViewsChildren(cs: seq<Row<Sub>>, m: nat)
    ensures StripSubs(SubViews(cs, m)) == Children(cs, m)
  {
    if cs != [] {
      var pre := cs[..|cs| - 1];
      var s := cs[|cs| - 1];
      SubViewsChildren(pre, m);
      var add := if s.parent == m then [SubView(s.id, s.data.title, s.data.file)] else [];
      assert StripSubs(SubViews(pre, m) + add) == StripSubs(SubViews(pre, m)) + StripSubs(add);
    }
  }

  /** The list endpoints send a course the modules and submaterials its outline holds, in table order. */
  lemma {:induction false} CourseModulesOutline(ps: seq<Row<string>>, cs: seq<Row<Sub>>, course: nat)
    ensures Strip(CourseModules(ps, cs, course)) == Tree(ps, cs, course)
  {
    if ps != [] {
      var pre := ps[..|ps| - 1];
      var p := ps[|ps| - 1];
      CourseModulesOutline(pre, cs, course);
      SubViewsChildren(cs, p.id);
      var add := if p.parent == course then [ModuleView(p.id, p.data, SubViews(cs, p.id))] else [];
      assert Strip(CourseModules(pre, cs, course) + add) == Strip(CourseModules(pre, cs, course)) + Strip(add);
    }
  }

  // ---------------------------------------------------------------- both endpoints agree

  /** The LEFT JOIN rows of one module: one row per submaterial, or a single row with no submaterial. */
  function Block(p: Row<string>, subs: seq<SubView>): (b: seq<JoinRow>)
    ensures |b| >= 1 && forall j :: 0 <= j < |b| ==> b[j].moduleId == p.id && b[j].moduleTitle == p.data
  {
    if subs == [] then [JoinRow(p.id, p.data, None, "", None)]
    else seq(|subs|, k requires 0 <= k < |subs| => JoinRow(p.id, p.data, Some(subs[k].id), subs[k].title, subs[k].file))
  }

  /**
   * `modules m LEFT JOIN submaterials s ON m.id = s.module_id WHERE m.course_id = ? ORDER BY m.id, s.id`,
   * for tables whose ids increase in table order.
   */
  function JoinRows(ps: seq<Row<string>>, cs: seq<Row<Sub>>, course: nat): seq<JoinRow>
  {
    if ps == [] then []
    else
      var p := ps[|ps| - 1];
      JoinRows(ps[..|ps| - 1], cs, course) + (if p.parent == course then Block(p, SubViews(cs, p.id)) else [])
  }

  function FallbackSubs(vs: seq<SubView>): (r: seq<SubView>)
    ensures |r| == |vs|
  {
    seq(|vs|, k requires 0 <= k < |vs| => vs[k].(title := Fallback(vs[k].title, "Untitled Material")))
  }

  function WithFallbacks(vs: seq<ModuleView>): (r: seq<ModuleView>)
    ensures |r| == |vs|
  {
    seq(|vs|, k requires 0 <= k < |vs| =>
      ModuleView(vs[k].id, Fallback(vs[k].title, "Untitled Module"), FallbackSubs(vs[k].submaterials)))
  }

  function Ids(vs: seq<ModuleView>): (r: seq<nat>)
    ensures |r| == |vs|
  {
    seq(|vs|, k requires 0 <= k < |vs| => vs[k].id)
  }

  /** Appending the rows of a module not seen before adds one key and leaves the other views alone. */
  lemma AppendBlock(rs: seq<JoinRow>, b: seq<JoinRow>, m: nat)
    requires m !in Keys(rs) && |b| >= 1
    requires forall j :: 0 <= j < |b| ==> b[j].moduleId == m
    ensures Keys(rs + b) == Keys(rs) + [m]
    ensures TitleOf(rs + b, m) == b[0].moduleTitle
    ensures SubsOf(rs + b, m) == SubsOf(b, m)
    ensures forall k :: k != m ==> TitleOf(rs + b, k) == TitleOf(rs, k) && SubsOf(rs + b, k) == SubsOf(rs, k)
  {
    BlockKeys(rs, b, m);
    BlockOwnView(rs, b, m);
    forall k | k != m
      ensures TitleOf(rs + b, k) == TitleOf(rs, k) && SubsOf(rs + b, k) == SubsOf(rs, k)
    {
      BlockOtherView(rs, b, m, k);
    }
  }

  lemma {:induction false} BlockKeys(rs: seq<JoinRow>, b: seq<JoinRow>, m: nat)
    requires m !in Keys(rs) && |b| >= 1
    requires forall j :: 0 <= j < |b| ==> b[j].moduleId == m
    ensures Keys(rs + b) == Keys(rs) + [m]
    decreases |b|
  {
    if |b| == 1 {
      assert (rs + b)[..|rs|] == rs;
    } else {
      var b' := b[..|b| - 1];
      BlockKeys(rs, b', m);
      assert (rs + b)[..|rs + b| - 1] == rs + b';
    }
  }

  lemma {:induction false} BlockOwnView(rs: seq<JoinRow>, b: seq<JoinRow>, m: nat)
    requires m !in Keys(rs) && |b| >= 1
    requires forall j :: 0 <= j < |b| ==> b[j].moduleId == m
    ensures TitleOf(rs + b, m) == b[0].moduleTitle
    ensures SubsOf(rs + b, m) == SubsOf(b, m)
    decreases |b|
  {
    SubsOfUnseen(rs, m);
    if |b| == 1 {
      assert (rs + b)[..|rs|] == rs;
      assert b[..0] == [];
    } else {
      var b' := b[..|b| - 1];
      BlockOwnView(rs, b', m);
      BlockKeys(rs, b', m);
      assert (rs + b)[..|rs + b| - 1] == rs + b';
    }
  }

  lemma {:induction false} BlockOtherView(rs: seq<JoinRow>, b: seq<JoinRow>, m: nat, k: nat)
    requires m !in Keys(rs) && |b| >= 1 && k != m
    requires forall j :: 0 <= j < |b| ==> b[j].moduleId == m
    ensures TitleOf(rs + b, k) == TitleOf(rs, k) && SubsOf(rs + b, k) == SubsOf(rs, k)
    decreases |b|
  {
    if k !in Keys(rs) {
      SubsOfUnseen(rs, k);
    }
    if |b| == 1 {
      assert (rs + b)[..|rs|] == rs;
    } else {
      var b' := b[..|b| - 1];
      BlockOtherView(rs, b', m, k);
      BlockKeys(rs, b', m);
      assert (rs + b)[..|rs + b| - 1] == rs + b';
    }
  }

  lemma AppendBlockGrouped(rs: seq<JoinRow>, b: seq<JoinRow>, m: nat)
    requires m !in Keys(rs) && |b| >= 1
    requires forall j :: 0 <= j < |b| ==> b[j].moduleId == m
    ensures Grouped(rs + b) == Grouped(rs) + [ModuleView(m, Fallback(b[0].moduleTitle, "Untitled Module"), SubsOf(b, m))]
  {
    AppendBlock(rs, b, m);
    KeysDistinct(rs + b);
  }

  /** The grouped submaterials of a module's block are its submaterials with the title fallback. */
  lemma {:induction false} BlockSubs(p: Row<string>, subs: seq<SubView>)
    requires forall k :: 0 <= k < |subs| ==> subs[k].id != 0
    ensures SubsOf(Block(p, subs), p.id) == FallbackSubs(subs)
    decreases |subs|
  {
    if |subs| > 1 {
      var pre := subs[..|subs| - 1];
      BlockSubs(p, pre);
      assert Block(p, subs)[..|subs| - 1] == Block(p, pre);
    } else if |subs| == 1 {
      assert Block(p, subs)[..0] == [];
    }
  }

  lemma {:induction false} SubViewsIds(cs: seq<Row<Sub>>, m: nat)
    requires forall i :: 0 <= i < |cs| ==> cs[i].id != 0
    ensures forall k :: 0 <= k < |SubViews(cs, m)| ==> SubViews(cs, m)[k].id != 0
  {
    if cs != [] {
      SubViewsIds(cs[..|cs| - 1], m);
    }
  }

  lemma {:induction false} CourseModulesIds(ps: seq<Row<string>>, cs: seq<Row<Sub>>, course: nat, x: nat)
    requires forall i :: 0 <= i < |ps| ==> ps[i].id != x
    ensures x !in Ids(CourseModules(ps, cs, course))
  {
    if ps != [] {
      var pre := ps[..|ps| - 1];
      CourseModulesIds(pre, cs, course, x);
      var p := ps[|ps| - 1];
      var add := if p.parent == course then [ModuleView(p.id, p.data, SubViews(cs, p.id))] else [];
      assert Ids(CourseModules(pre, cs, course) + add) == Ids(CourseModules(pre, cs, course)) + Ids(add);
    }
  }

  /** One more module of the course: its block of join rows groups into its view. */
  lemma GroupedOneMore(pre: seq<Row<string>>, p: Row<string>, cs: seq<Row<Sub>>, course: nat)
    requires forall i :: 0 <= i < |pre| ==> pre[i].id != p.id
    requires forall i :: 0 <= i < |cs| ==> cs[i].id != 0
    requires Keys(JoinRows(pre, cs, course)) == Ids(CourseModules(pre, cs, course))
    requires Grouped(JoinRows(pre, cs, course)) == WithFallbacks(CourseModules(pre, cs, course))
    ensures Keys(JoinRows(pre, cs, course) + Block(p, SubViews(cs, p.id))) ==
      Ids(CourseModules(pre, cs, course) + [ModuleView(p.id, p.data, SubViews(cs, p.id))])
    ensures Grouped(JoinRows(pre, cs, course) + Block(p, SubViews(cs, p.id))) ==
      WithFallbacks(CourseModules(pre, cs, course) + [ModuleView(p.id, p.data, SubViews(cs, p.id))])
  {
    var before := CourseModules(pre, cs, course);
    var subs := SubViews(cs, p.id);
    var v := ModuleView(p.id, p.data, subs);
    var rs := JoinRows(pre, cs, course);
    var b := Block(p, subs);
    CourseModulesIds(pre, cs, course, p.id);
    assert Keys(rs + b) == Ids(before + [v]) by {
      AppendBlock(rs, b, p.id);
      IdsAppend(before, v);
    }
    assert Grouped(rs + b) == WithFallbacks(before + [v]) by {
      AppendBlockGrouped(rs, b, p.id);
      SubViewsIds(cs, p.id);
      BlockSubs(p, subs);
      assert b[0].moduleTitle == p.data;
      WithFallbacksAppend(before, v);
    }
  }

  lemma IdsAppend(vs: seq<ModuleView>, v: ModuleView)
    ensures Ids(vs + [v]) == Ids(vs) + [v.id]
  {
  }

  lemma WithFallbacksAppend(vs: seq<ModuleView>, v: ModuleView)
    ensures WithFallbacks(vs + [v]) ==
      WithFallbacks(vs) + [ModuleView(v.id, Fallback(v.title, "Untitled Module"), FallbackSubs(v.submaterials))]
  {
  }

  /**
   * The detail endpoint's grouping of the join rows gives the same modules, in the same
   * order and with the same submaterials, as the list endpoints' filter/map, once the
   * "Untitled" fallbacks are applied; it relies on distinct module ids and non-zero
   * submaterial ids, which the auto-increment counter provides.
   */
  lemma {:induction false} GroupedJoinRows(ps: seq<Row<string>>, cs: seq<Row<Sub>>, course: nat)
    requires forall i, j :: 0 <= i < j < |ps| ==> ps[i].id != ps[j].id
    requires forall i :: 0 <= i < |cs| ==> cs[i].id != 0
    ensures Keys(JoinRows(ps, cs, course)) == Ids(CourseModules(ps, cs, course))
    ensures Grouped(JoinRows(ps, cs, course)) == WithFallbacks(CourseModules(ps, cs, course))
  {
    if ps != [] {
      var pre := ps[..|ps| - 1];
      var p := ps[|ps| - 1];
      GroupedJoinRows(pre, cs, course);
      var before := CourseModules(pre, cs, course);
      if p.parent == course {
        var v := ModuleView(p.id, p.data, SubViews(cs, p.id));
        var b := Block(p, SubViews(cs, p.id));
        GroupedOneMore(pre, p, cs, course);
        assert JoinRows(ps, cs, course) == JoinRows(pre, cs, course) + b;
        assert CourseModules(ps, cs, course) == before + [v];
      } else {
        assert JoinRows(ps, cs, course) == JoinRows(pre, cs, course);
        assert CourseModules(ps, cs, course) == before;
      }
    }
  }
}

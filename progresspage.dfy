/**
 * The progress page of one course: the student toggles each material between done and not
 * done, and the page shows the share of the course's materials that are done.
 */
module ProgressPage {
  import opened Progress

  /** `completedIds.filter(mid => mid !== id)` */
  function Without(ids: seq<MaterialId>, id: MaterialId): (r: seq<MaterialId>)
    ensures forall x :: x in r <==> x in ids && x != id
    ensures |r| <= |ids|
    decreases |ids|
  {
    if ids == [] then []
    else
      var rest := Without(ids[..|ids| - 1], id);
      var last := ids[|ids| - 1];
      assert ids == ids[..|ids| - 1] + [last];
      if last == id then rest else rest + [last]
  }

  /** `toggleComplete`: remove the id when it is in the list, append it otherwise. */
  function Toggle(ids: seq<MaterialId>, id: MaterialId): (r: seq<MaterialId>)
    ensures id in r <==> id !in ids
    ensures forall x :: x != id ==> (x in r <==> x in ids)
  {
    if id in ids then Without(ids, id) else ids + [id]
  }

  /** Toggling the same id twice restores which ids are in the list. */
  lemma ToggleTwice(ids: seq<MaterialId>, id: MaterialId)
    ensures forall x :: x in Toggle(Toggle(ids, id), id) <==> x in ids
  {
  }

  lemma {:induction false} WithoutDistinct(ids: seq<MaterialId>, id: MaterialId)
    requires Distinct(ids)
    ensures Distinct(Without(ids, id))
    decreases |ids|
  {
    if ids != [] {
      var pre := ids[..|ids| - 1];
      assert Distinct(pre);
      WithoutDistinct(pre, id);
      var last := ids[|ids| - 1];
      assert last !in pre;
    }
  }

  /** Toggling keeps a list without duplicates free of them. */
  lemma ToggleDistinct(ids: seq<MaterialId>, id: MaterialId)
    requires Distinct(ids)
    ensures Distinct(Toggle(ids, id))
  {
    if id in ids {
      WithoutDistinct(ids, id);
    }
  }

  /** `completedIds.filter(id => course.materials.some(mat => mat.id === id))` */
  function DoneIds(completed: seq<MaterialId>, materials: seq<MaterialId>): (r: seq<MaterialId>)
    ensures forall x :: x in r <==> x in completed && x in materials
    decreases |completed|
  {
    if completed == [] then []
    else
      var rest := DoneIds(completed[..|completed| - 1], materials);
      var last := completed[|completed| - 1];
      assert completed == completed[..|completed| - 1] + [last];
      if last in materials then rest + [last] else rest
  }

  lemma {:induction false} DoneIdsDistinct(completed: seq<MaterialId>, materials: seq<MaterialId>)
    requires Distinct(completed)
    ensures Distinct(DoneIds(completed, materials))
    decreases |completed|
  {
    if completed != [] {
      var pre := completed[..|completed| - 1];
      assert Distinct(pre);
      DoneIdsDistinct(pre, materials);
      assert completed[|completed| - 1] !in pre;
    }
  }

  /** A list without duplicates has as many elements as its set. */
  lemma {:induction false} DistinctCard(xs: seq<MaterialId>)
    requires Distinct(xs)
    ensures |set x | x in xs| == |xs|
    decreases |xs|
  {
    if xs != [] {
      var pre := xs[..|xs| - 1];
      var last := xs[|xs| - 1];
      assert Distinct(pre);
      DistinctCard(pre);
      assert xs == pre + [last];
      assert (set x | x in xs) == (set x | x in pre) + {last};
      assert last !in (set x | x in pre);
    }
  }

  /** Any list has at most as many distinct elements as entries. */
  lemma {:induction false} SetCardBound(xs: seq<MaterialId>)
    ensures |set x | x in xs| <= |xs|
    decreases |xs|
  {
    if xs != [] {
      var pre := xs[..|xs| - 1];
      var last := xs[|xs| - 1];
      SetCardBound(pre);
      assert xs == pre + [last];
      assert (set x | x in xs) == (set x | x in pre) + {last};
    }
  }

  /**
   * With no duplicate in the completed list, the done count never exceeds the number of
   * materials, so the percentage lies between 0 and 100.
   */
  lemma {:induction false} DoneAtMostTotal(completed: seq<MaterialId>, materials: seq<MaterialId>)
    requires Distinct(completed)
    ensures |DoneIds(completed, materials)| <= |materials|
  {
    var d := DoneIds(completed, materials);
    DoneIdsDistinct(completed, materials);
    DistinctCard(d);
    SetCardBound(materials);
    SubsetCard(set x | x in d, set x | x in materials);
  }

  lemma {:induction false} SubsetCard(a: set<MaterialId>, b: set<MaterialId>)
    requires a <= b
    ensures |a| <= |b|
    decreases |a|
  {
    if a != {} {
      var x :| x in a;
      SubsetCard(a - {x}, b - {x});
    }
  }

  /** `Math.round((done / total) * 100)` with `done` the number of completed course materials. */
  function PagePercentage(completed: seq<MaterialId>, materials: seq<MaterialId>): (r: Ratio)
    ensures Distinct(completed) && |materials| > 0 ==> r.Percent? && r.value <= 100
  {
    var done := DoneIds(completed, materials);
    assert Distinct(completed) ==> |done| <= |materials| by {
      if Distinct(completed) {
        DoneAtMostTotal(completed, materials);
      }
    }
    PercentOf(|done|, |materials|)
  }

  /** A duplicated id counts twice, so a list with duplicates can pass 100. */
  lemma DuplicatesOverflow()
    ensures PagePercentage([NumId(1), NumId(1)], [NumId(1)]) == Percent(200)
  {
    assert DoneIds([NumId(1)], [NumId(1)]) == [NumId(1)];
    assert [NumId(1), NumId(1)][..1] == [NumId(1)];
  }
}

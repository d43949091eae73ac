/**
 * The course-progress record the browser keeps under one storage key: for each course id, the
 * list of material ids the student has marked done, and the percentage derived from it.
 */
module Progress {
  import opened Common

  /** A material id as stored in JSON; strict equality keeps the number 5 and the string "5" apart. */
  datatype MaterialId = NumId(n: int) | StrId(s: string)

  /** `Math.round(done / total * 100)` as JavaScript computes it, including division by 0. */
  datatype Ratio = Percent(value: nat) | NotANumber | Infinite

  function PercentOf(done: nat, total: nat): (r: Ratio)
    ensures total == 0 && done == 0 ==> r == NotANumber
    ensures total == 0 && done > 0 ==> r == Infinite
    ensures total > 0 ==> r.Percent? && 2 * total * r.value <= 200 * done + total < 2 * total * (r.value + 1)
    ensures total > 0 && done <= total ==> r.value <= 100
    ensures total > 0 && done >= total ==> r.value >= 100
  {
    if total == 0 then (if done == 0 then NotANumber else Infinite)
    else
      RoundPercentAtLeast(done, total);
      Percent(RoundPercent(done, total))
  }

  /** A share of all the materials or more rounds to 100 or more. */
  lemma RoundPercentAtLeast(a: nat, n: nat)
    requires n > 0
    ensures a >= n ==> RoundPercent(a, n) >= 100
  {
    if a >= n {
      DivMonotone(200 * n + n, 200 * a + n, 2 * n);
      assert RoundPercent(n, n) == 100;
    }
  }

  /** No id occurs twice. */
  predicate Distinct(xs: seq<MaterialId>)
  {
    forall i, j :: 0 <= i < j < |xs| ==> xs[i] != xs[j]
  }

  /** `data[courseId]?.completed || []` */
  function Completed(data: map<string, seq<MaterialId>>, course: string): seq<MaterialId>
  {
    if course in data then data[course] else []
  }

  /** The record after `markMaterialDone`: the id appended to the course's list unless already there. */
  function Marked(data: map<string, seq<MaterialId>>, course: string, material: MaterialId): (r: map<string, seq<MaterialId>>)
    ensures material in Completed(r, course)
    ensures forall c :: c != course ==> (c in r <==> c in data) && Completed(r, c) == Completed(data, c)
    ensures material in Completed(data, course) ==> r == data
    ensures material !in Completed(data, course) ==> Completed(r, course) == Completed(data, course) + [material]
  {
    if material in Completed(data, course) then data
    else data[course := Completed(data, course) + [material]]
  }

  /** Marking is idempotent. */
  lemma MarkedTwice(data: map<string, seq<MaterialId>>, course: string, material: MaterialId)
    ensures Marked(Marked(data, course, material), course, material) == Marked(data, course, material)
  {
  }

  /** Marking never puts a duplicate in any list. */
  lemma MarkedDistinct(data: map<string, seq<MaterialId>>, course: string, material: MaterialId)
    requires forall c :: c in data ==> Distinct(data[c])
    ensures forall c :: c in Marked(data, course, material) ==> Distinct(Marked(data, course, material)[c])
  {
    var r := Marked(data, course, material);
    forall c | c in r
      ensures Distinct(r[c])
    {
      if c == course && material !in Completed(data, course) {
        assert r[c] == Completed(data, course) + [material];
      }
    }
  }

  /** The browser's storage of the record, and how many times it has been written. */
  class ProgressStore {
    var data: map<string, seq<MaterialId>>
    var saves: nat

    ghost predicate Valid()
      reads this
    {
      forall c :: c in data ==> Distinct(data[c])
    }

    constructor ()
      ensures Valid() && data == map[] && saves == 0
    {
      data := map[];
      saves := 0;
    }

    /** `markMaterialDone`: append the id and write the record back, or leave both alone when it is there. */
    method MarkDone(course: string, material: MaterialId)
      requires Valid()
      modifies this
      ensures Valid()
      ensures data == Marked(old(data), course, material)
      ensures saves == if material in Completed(old(data), course) then old(saves) else old(saves) + 1
    {
      MarkedDistinct(data, course, material);
      var list := if course in data then data[course] else [];
      if material !in list {
        data := data[course := list + [material]];
        saves := saves + 1;
      }
    }

    /** `getPercentage`: the share of done materials; an unknown course has none done. */
    function GetPercentage(course: string, total: nat): (r: Ratio)
      reads this
      ensures r == PercentOf(|Completed(data, course)|, total)
    {
      var done := if course in data then |data[course]| else 0;
      PercentOf(done, total)
    }
  }

  /** The percentage is not clamped: two done out of one gives 200. */
  lemma NotClamped()
    ensures PercentOf(2, 1) == Percent(200)
  {
  }
}

/**
 * The admin page's date field: a stored course date is turned into the `yyyy-MM-dd` form a date
 * input expects. Dates already in that form pass through, `dd-MM-yyyy` dates are reordered, and
 * anything else is handed to the browser's date parser.
 */
module Dates {
  import opened Common
  import opened Strings

  /** What `parseDateToInputFormat` does with a string: an answer, or a trip through `new Date`. */
  datatype InputDate = Formatted(value: string) | NeedsDateParse

  /** The string splits on '-' into three parts and the first has four characters. */
  predicate YearFirst(s: string)
  {
    |Split(s, '-')| == 3 && |Split(s, '-')[0]| == 4
  }

  /** The string splits on '-' into three parts and the last has four characters. */
  predicate YearLast(s: string)
  {
    |Split(s, '-')| == 3 && |Split(s, '-')[2]| == 4
  }

  predicate NoDash(s: string)
  {
    forall i :: 0 <= i < |s| ==> s[i] != '-'
  }

  /** `${parts[2]}-${parts[1].padStart(2, "0")}-${parts[0].padStart(2, "0")}` */
  function Reordered(parts: seq<string>): string
    requires |parts| == 3
  {
    parts[2] + "-" + PadStart2(parts[1]) + "-" + PadStart2(parts[0])
  }

  /**
   * `parseDateToInputFormat` on a string (absent meaning null or undefined): empty for a falsy
   * value; the year-first form unchanged; the year-last form reordered; otherwise the date parser.
   */
  function ToInputFormat(date: Option<string>): (r: InputDate)
    ensures date.None? || date == Some("") ==> r == Formatted("")
    ensures r.NeedsDateParse? <==> date.Some? && date.value != "" && !YearFirst(date.value) && !YearLast(date.value)
    ensures r.Formatted? && r.value != "" ==> YearFirst(r.value)
    ensures date.Some? && YearFirst(date.value) ==> r == Formatted(date.value)
  {
    if date.None? || date.value == "" then Formatted("")
    else
      var parts := Split(date.value, '-');
      if |parts| == 3 && |parts[0]| == 4 then Formatted(date.value)
      else if |parts| == 3 && |parts[2]| == 4 then
        ReorderedFields(date.value);
        Formatted(Reordered(parts))
      else NeedsDateParse
  }

  /**
   * A year-last date comes out with its three fields in reverse order, the day and month padded
   * to two characters, and so in the year-first form.
   */
  lemma {:induction false} ReorderedFields(s: string)
    requires YearLast(s)
    ensures Split(Reordered(Split(s, '-')), '-') == [Split(s, '-')[2], PadStart2(Split(s, '-')[1]), PadStart2(Split(s, '-')[0])]
    ensures YearFirst(Reordered(Split(s, '-')))
  {
    var parts := Split(s, '-');
    PartNoDash(s, 0);
    PartNoDash(s, 1);
    PartNoDash(s, 2);
    JoinedFields(parts[0], parts[1], parts[2]);
    assert Reordered(parts) == parts[2] + "-" + PadStart2(parts[1]) + "-" + PadStart2(parts[0]);
  }

  /** Year, padded month and padded day joined by the separator split back into those fields. */
  lemma JoinedFields(day: string, month: string, year: string)
    requires NoDash(day) && NoDash(month) && NoDash(year)
    ensures Split(year + "-" + PadStart2(month) + "-" + PadStart2(day), '-') == [year, PadStart2(month), PadStart2(day)]
  {
    var d := PadStart2(day);
    var m := PadStart2(month);
    PaddedNoDash(day);
    PaddedNoDash(month);
    SplitNoDash(d);
    SplitAfter(m, d);
    SplitAfter(year, m + "-" + d);
    assert year + "-" + m + "-" + d == year + "-" + (m + "-" + d);
  }

  lemma PartNoDash(s: string, k: nat)
    requires k < |Split(s, '-')|
    ensures NoDash(Split(s, '-')[k])
  {
    SplitParts(s, '-');
  }

  /** Padding with zeros adds no separator. */
  lemma PaddedNoDash(s: string)
    requires NoDash(s)
    ensures NoDash(PadStart2(s))
  {
    var r := PadStart2(s);
    forall i | 0 <= i < |r|
      ensures r[i] != '-'
    {
      if i >= |r| - |s| {
        assert r[i] == r[|r| - |s|..][i - (|r| - |s|)];
      }
    }
  }

  /** A string without a separator splits into itself alone. */
  lemma {:induction false} SplitNoDash(s: string)
    requires NoDash(s)
    ensures Split(s, '-') == [s]
    decreases |s|
  {
    if s != [] {
      SplitNoDash(s[1..]);
      assert [s[0]] + s[1..] == s;
    }
  }

  /** A separator-free head followed by the separator splits off as the first part. */
  lemma {:induction false} SplitAfter(a: string, rest: string)
    requires NoDash(a)
    ensures Split(a + "-" + rest, '-') == [a] + Split(rest, '-')
    decreases |a|
  {
    var s := a + "-" + rest;
    if a == [] {
      assert s == "-" + rest;
      assert s[1..] == rest;
    } else {
      assert s[1..] == a[1..] + "-" + rest;
      SplitAfter(a[1..], rest);
      assert [a[0]] + a[1..] == a;
    }
  }

  /** Every answer of the string branches is a fixed point: formatting it again changes nothing. */
  lemma FormattedIsStable(date: Option<string>)
    requires ToInputFormat(date).Formatted?
    ensures ToInputFormat(Some(ToInputFormat(date).value)) == ToInputFormat(date)
  {
  }

  /** A year-last date with two-digit day and month comes out as the same three fields reversed. */
  lemma {:induction false} YearLastReversed(s: string)
    requires YearLast(s) && !YearFirst(s)
    requires |Split(s, '-')[0]| == 2 && |Split(s, '-')[1]| == 2
    ensures ToInputFormat(Some(s)).Formatted?
    ensures Split(ToInputFormat(Some(s)).value, '-') == [Split(s, '-')[2], Split(s, '-')[1], Split(s, '-')[0]]
  {
    ReorderedFields(s);
  }
}

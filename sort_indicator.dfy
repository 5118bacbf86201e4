/** `SortIndicatorConverter`: the arrow shown in a column header of the item list.
    WPF hands the converter boxed values; `Value` names the shapes that matter. */
module SortIndicator {

  /** A boxed binding value: a string, a bool, or anything else (null included). */
  datatype Value = Str(s: string) | Bool(b: bool) | OtherValue

  const Ascending: string := "\U{25B2}"
  const Descending: string := "\U{25BC}"

  /** `Convert(values, parameter)`: `values[0]` is the sort column, `values[1]` the
      direction, `parameter` the column the header belongs to. */
  function Convert(values: seq<Value>, parameter: Value): (r: string)
    ensures |values| < 2 ==> r == ""
    ensures r == Ascending || r == Descending || r == ""
    ensures r != "" <==>
              |values| >= 2 && values[0].Str? && values[1].Bool? && parameter.Str? &&
              values[0].s == parameter.s
    ensures r != "" ==> (r == Ascending <==> values[1].b)
  {
    if |values| < 2 || !values[0].Str? || !values[1].Bool? || !parameter.Str? then ""
    else if values[0].s != parameter.s then ""
    else if values[1].b then Ascending
    else Descending
  }

  /** The indicator of one header, for the view model's sort column and direction. */
  function HeaderIndicator(sortBy: string, sortAscending: bool, column: string): string {
    Convert([Str(sortBy), Bool(sortAscending)], Str(column))
  }

  /** With well-typed inputs exactly the sorted column shows an arrow, pointing up
      when ascending and down when descending; so at most one header shows one. */
  lemma {:induction false} OnlySortedColumnShowsArrow(sortBy: string, sortAscending: bool, c1: string, c2: string)
    requires HeaderIndicator(sortBy, sortAscending, c1) != ""
    requires HeaderIndicator(sortBy, sortAscending, c2) != ""
    ensures c1 == c2 == sortBy
    ensures HeaderIndicator(sortBy, sortAscending, c1) == if sortAscending then Ascending else Descending
  {
    assert Ascending != "" && Descending != "";
  }
}

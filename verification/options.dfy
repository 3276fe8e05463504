/** The widget's data model: an option record and facts about option lists. */
module Options {

  /** `OptionSchema`: `id` keys the option, `labelText` (the record's
      `label`; `label` is a Dafny keyword) is shown and searched, and `value`
      is an opaque payload the widget carries along. */
  datatype Option = Option(id: string, labelText: string, value: string)

  /** `a` is an order-preserving subsequence of `b`: `a` is `b` with some
      entries dropped and the rest kept in their relative order. */
  predicate IsSubsequence<T(==)>(a: seq<T>, b: seq<T>)
    decreases |b|
  {
    if |a| == 0 then true
    else if |b| == 0 then false
    else (a[0] == b[0] && IsSubsequence(a[1..], b[1..])) || IsSubsequence(a, b[1..])
  }

  /** Some entry of `list` has the given `id`: the membership test the
      select handler and the listbox's check mark use. */
  predicate HasId(list: seq<Option>, id: string) {
    exists k :: 0 <= k < |list| && list[k].id == id
  }

  /** No `id` occurs twice in `list`. */
  predicate DistinctIds(list: seq<Option>) {
    forall i, j :: 0 <= i < j < |list| ==> list[i].id != list[j].id
  }
}

/** The search filter the widget recomputes whenever the search text changes. */
module Filtering {
  import opened Text
  import opened Options

  /** The option's lower-cased label contains `needle`, which the caller has
      already lower-cased. */
  predicate Matches(o: Option, needle: string) {
    Contains(Lower(o.labelText), needle)
  }

  /** The options whose lower-cased label contains `needle`, in their
      original order. */
  function KeepMatching(options: seq<Option>, needle: string): (r: seq<Option>)
    ensures IsSubsequence(r, options)
    ensures forall o :: o in r ==> Matches(o, needle)
    ensures forall o :: multiset(r)[o] == if Matches(o, needle) then multiset(options)[o] else 0
    decreases |options|
  {
    if |options| == 0 then []
    else
      var rest := KeepMatching(options[1..], needle);
      assert options == [options[0]] + options[1..];
      if Matches(options[0], needle) then [options[0]] + rest else rest
  }

  /** The filter effect: an empty search shows every option; otherwise the
      options whose lower-cased label contains the lower-cased search text. */
  function Filter(options: seq<Option>, search: string): (r: seq<Option>)
    ensures |search| == 0 ==> r == options
    ensures IsSubsequence(r, options)
    ensures forall o :: o in r ==> Matches(o, Lower(search))
    ensures forall o :: o in options && Matches(o, Lower(search)) ==> o in r
  {
    if |search| > 0 then KeepMatching(options, Lower(search))
    else
      IsSubsequenceRefl(options);
      options
  }

  /** Every list is a subsequence of itself. */
  lemma {:induction false} IsSubsequenceRefl<T>(a: seq<T>)
    ensures IsSubsequence(a, a)
    decreases |a|
  {
    if |a| > 0 {
      IsSubsequenceRefl(a[1..]);
    }
  }

  /** With the empty needle every option matches, so nothing is dropped. */
  lemma {:induction false} KeepMatchingEmpty(options: seq<Option>)
    ensures KeepMatching(options, "") == options
    decreases |options|
  {
    if |options| > 0 {
      KeepMatchingEmpty(options[1..]);
      assert "" <= Lower(options[0].labelText);
    }
  }

  /** The empty-search branch is only a shortcut: filtering always agrees with
      keeping the options that match the lower-cased search text. */
  lemma FilterIsKeepMatching(options: seq<Option>, search: string)
    ensures Filter(options, search) == KeepMatching(options, Lower(search))
  {
    if |search| == 0 {
      assert Lower(search) == "";
      KeepMatchingEmpty(options);
    }
  }

  /** Keeping the matches of an already filtered list changes nothing. */
  lemma {:induction false} KeepMatchingIdempotent(options: seq<Option>, needle: string)
    ensures KeepMatching(KeepMatching(options, needle), needle) == KeepMatching(options, needle)
    decreases |options|
  {
    if |options| > 0 {
      KeepMatchingIdempotent(options[1..], needle);
      var rest := KeepMatching(options[1..], needle);
      if Matches(options[0], needle) {
        assert ([options[0]] + rest)[1..] == rest;
      }
    }
  }

  /** Filtering the filtered list again with the same search text returns it
      unchanged. */
  lemma FilterIdempotent(options: seq<Option>, search: string)
    ensures Filter(Filter(options, search), search) == Filter(options, search)
  {
    FilterIsKeepMatching(options, search);
    FilterIsKeepMatching(Filter(options, search), search);
    KeepMatchingIdempotent(options, Lower(search));
  }

  /** The filtered list holds each matching option exactly as often as
      `options` does and no other option: together with the order kept, it is
      exactly the matching options of `options`. */
  lemma FilterCounts(options: seq<Option>, search: string, o: Option)
    ensures multiset(Filter(options, search))[o]
         == if Matches(o, Lower(search)) then multiset(options)[o] else 0
  {
    FilterIsKeepMatching(options, search);
  }

  /** The search is case-insensitive: the search text and its lower-cased
      form select the same options. */
  lemma FilterIgnoresCase(options: seq<Option>, search: string)
    ensures Filter(options, Lower(search)) == Filter(options, search)
  {
    LowerIsIdempotent(search);
    FilterIsKeepMatching(options, search);
    FilterIsKeepMatching(options, Lower(search));
  }
}

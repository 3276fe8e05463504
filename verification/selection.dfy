/** The selection handlers: removing a selected option and toggling one. */
module Selection {
  import opened Options

  /** `removeHandler`: drops every selected entry whose `id` is the option's,
      keeping the others in order. */
  function Remove(selected: seq<Option>, option: Option): (r: seq<Option>)
    ensures !HasId(r, option.id)
    ensures IsSubsequence(r, selected)
    ensures forall x :: x in r ==> x in selected
    ensures forall x :: multiset(r)[x] == if x.id == option.id then 0 else multiset(selected)[x]
    ensures !HasId(selected, option.id) ==> r == selected
    decreases |selected|
  {
    if |selected| == 0 then []
    else
      var rest := Remove(selected[1..], option);
      assert selected == [selected[0]] + selected[1..];
      assert HasId(selected[1..], option.id) ==> HasId(selected, option.id) by {
        if HasId(selected[1..], option.id) {
          var k :| 0 <= k < |selected[1..]| && selected[1..][k].id == option.id;
          assert selected[k + 1].id == option.id;
        }
      }
      if selected[0].id == option.id then rest
      else
        var r := [selected[0]] + rest;
        assert !HasId(r, option.id) by {
          forall k | 0 <= k < |r|
            ensures r[k].id != option.id
          {
            if k > 0 {
              assert r[k] == rest[k - 1];
            }
          }
        }
        assert r[1..] == rest;
        r
  }

  /** `selectHandler`: removes the option when an entry with its `id` is
      already selected, and otherwise appends it at the end. */
  function Select(selected: seq<Option>, option: Option): (r: seq<Option>)
    ensures HasId(selected, option.id) ==> r == Remove(selected, option)
    ensures !HasId(selected, option.id) ==>
              |r| == |selected| + 1 && r[..|selected|] == selected && r[|selected|] == option
    ensures HasId(r, option.id) <==> !HasId(selected, option.id)
    ensures forall x :: x in r ==> x in selected || x == option
  {
    if HasId(selected, option.id) then
      Remove(selected, option)
    else
      var r := selected + [option];
      assert r[|selected|].id == option.id;
      r
  }

  /** Removing from a concatenation removes from each part. */
  lemma {:induction false} RemoveAppend(a: seq<Option>, b: seq<Option>, option: Option)
    ensures Remove(a + b, option) == Remove(a, option) + Remove(b, option)
    decreases |a|
  {
    if |a| == 0 {
      assert a + b == b;
    } else {
      assert (a + b)[1..] == a[1..] + b;
      assert (a + b)[0] == a[0];
      RemoveAppend(a[1..], b, option);
    }
  }

  /** Selecting an option that is not selected and then selecting it again
      gives back the original selection, in content and order. */
  lemma SelectTwiceRestores(selected: seq<Option>, option: Option)
    requires !HasId(selected, option.id)
    ensures Select(Select(selected, option), option) == selected
  {
    var once := Select(selected, option);
    assert once == selected + [option];
    RemoveAppend(selected, [option], option);
    assert [option][1..] == [];
  }

  /** Selecting an already selected option twice moves it to the end: its
      entries are dropped and the clicked option is appended. */
  lemma SelectTwiceMovesToEnd(selected: seq<Option>, option: Option)
    requires HasId(selected, option.id)
    ensures Select(Select(selected, option), option) == Remove(selected, option) + [option]
  {
  }

  /** The tail of a list with distinct ids has distinct ids, none of them
      the head's. */
  lemma DistinctTail(list: seq<Option>)
    requires |list| > 0 && DistinctIds(list)
    ensures DistinctIds(list[1..])
    ensures !HasId(list[1..], list[0].id)
  {
    var tail := list[1..];
    forall i, j | 0 <= i < j < |tail|
      ensures tail[i].id != tail[j].id
    {
      assert tail[i] == list[i + 1] && tail[j] == list[j + 1];
    }
    forall k | 0 <= k < |tail|
      ensures tail[k].id != list[0].id
    {
      assert tail[k] == list[k + 1];
    }
  }

  /** Prepending an option whose id a distinct-id list lacks keeps the ids
      distinct. */
  lemma ConsDistinct(head: Option, list: seq<Option>)
    requires DistinctIds(list) && !HasId(list, head.id)
    ensures DistinctIds([head] + list)
  {
    var r := [head] + list;
    forall i, j | 0 <= i < j < |r|
      ensures r[i].id != r[j].id
    {
      assert r[j] == list[j - 1];
      if i > 0 {
        assert r[i] == list[i - 1];
      }
    }
  }

  /** A list whose elements all occur in `list` has only ids `list` has. */
  lemma HasIdOfSubset(sub: seq<Option>, list: seq<Option>, id: string)
    requires forall x :: x in sub ==> x in list
    requires !HasId(list, id)
    ensures !HasId(sub, id)
  {
    forall k | 0 <= k < |sub|
      ensures sub[k].id != id
    {
      assert sub[k] in list;
    }
  }

  /** Removing an entry keeps the selected ids pairwise distinct. */
  lemma {:induction false} RemoveKeepsDistinct(selected: seq<Option>, option: Option)
    requires DistinctIds(selected)
    ensures DistinctIds(Remove(selected, option))
    decreases |selected|
  {
    if |selected| > 0 {
      var tail := selected[1..];
      DistinctTail(selected);
      RemoveKeepsDistinct(tail, option);
      var rest := Remove(tail, option);
      if selected[0].id != option.id {
        HasIdOfSubset(rest, tail, selected[0].id);
        ConsDistinct(selected[0], rest);
      }
    }
  }

  /** Toggling an option keeps the selected ids pairwise distinct. */
  lemma SelectKeepsDistinct(selected: seq<Option>, option: Option)
    requires DistinctIds(selected)
    ensures DistinctIds(Select(selected, option))
  {
    if HasId(selected, option.id) {
      RemoveKeepsDistinct(selected, option);
    } else {
      var r := Select(selected, option);
      forall i, j | 0 <= i < j < |r|
        ensures r[i].id != r[j].id
      {
        if j == |selected| {
          assert r[i] == selected[i];
        } else {
          assert r[i] == selected[i] && r[j] == selected[j];
        }
      }
    }
  }
}

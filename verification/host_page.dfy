/** The host page's five options and scenarios of the widget on them. */
module HostPage {
  import opened Text
  import opened Options
  import opened Filtering
  import opened Selection
  import opened Widget

  function Opt1(): Option { Option("1", "Option 1", "option-1") }
  function Opt2(): Option { Option("2", "Option 2", "option-2") }
  function Opt3(): Option { Option("3", "Option 3", "option-3") }
  function Opt4(): Option { Option("4", "Option 4", "option-4") }
  function Opt5(): Option { Option("5", "Option 5", "option-5") }

  /** The page's hard-coded option list. */
  function PageOptions(): seq<Option> {
    [Opt1(), Opt2(), Opt3(), Opt4(), Opt5()]
  }

  /** The page's labels are "Option " and one digit; lower-cased, such a
      label contains "2" exactly when the digit is 2. */
  lemma DigitLabelMatchesTwo(d: char)
    requires '0' <= d <= '9'
    ensures Contains(Lower("Option " + [d]), "2") <==> d == '2'
  {
    var l := Lower("Option " + [d]);
    assert l == "option " + [d];
    forall i | OccursAt(l, "2", i)
      ensures i == 7 && d == '2'
    {
      assert l[i..i + 1] == [l[i]];
    }
    if d == '2' {
      assert l[7..8] == "2";
      assert OccursAt(l, "2", 7);
    }
  }

  /** Of the page's options, only the one with id "2" matches "2". */
  lemma OnlyOptionTwoMatchesTwo()
    ensures !Matches(Opt1(), "2") && Matches(Opt2(), "2") && !Matches(Opt3(), "2")
    ensures !Matches(Opt4(), "2") && !Matches(Opt5(), "2")
  {
    assert Opt1().labelText == "Option " + ['1'];
    assert Opt2().labelText == "Option " + ['2'];
    assert Opt3().labelText == "Option " + ['3'];
    assert Opt4().labelText == "Option " + ['4'];
    assert Opt5().labelText == "Option " + ['5'];
    DigitLabelMatchesTwo('1');
    DigitLabelMatchesTwo('2');
    DigitLabelMatchesTwo('3');
    DigitLabelMatchesTwo('4');
    DigitLabelMatchesTwo('5');
  }

  /** Searching "2" lists only the option with id "2". */
  lemma SearchTwoListsOptionTwo()
    ensures Filter(PageOptions(), "2") == [Opt2()]
  {
    assert Lower("2") == "2";
    OnlyOptionTwoMatchesTwo();
    var p := PageOptions();
    assert p[1..] == [Opt2(), Opt3(), Opt4(), Opt5()];
    assert p[2..] == [Opt3(), Opt4(), Opt5()];
    assert p[3..] == [Opt4(), Opt5()];
    assert p[4..] == [Opt5()];
    assert p[4..][1..] == [];
    assert KeepMatching(p[4..], "2") == [];
    assert KeepMatching(p[3..], "2") == [];
    assert KeepMatching(p[2..], "2") == [];
    assert KeepMatching(p[1..], "2") == [Opt2()];
    assert KeepMatching(p, "2") == [Opt2()];
  }

  /** From an empty selection, choosing option 1 and then option 3 selects
      both in that order; clicking option 1's chip then leaves option 3. */
  lemma SelectThenRemoveScenario()
    ensures Select(Select([], Opt1()), Opt3()) == [Opt1(), Opt3()]
    ensures Remove([Opt1(), Opt3()], Opt1()) == [Opt3()]
  {
    assert Select([], Opt1()) == [Opt1()];
    assert !HasId([Opt1()], Opt3().id) by {
      assert Opt1().id[0] != Opt3().id[0];
    }
  }

  /** On the page: open the widget, type "option", then clear the search; the
      full list is shown again in its original order. */
  lemma SearchThenClearScenario()
    ensures Run(Init(PageOptions()), [TriggerClick, SearchInput("option"), ClearSearch]).filtered
         == PageOptions()
  {
  }
}

/** The widget as a state machine: one atomic transition per user event. */
module Widget {
  import opened Options
  import opened Filtering
  import opened Selection

  /** The keyboard keys the trigger and the listbox rows react to. */
  predicate IsActivationKey(key: string) {
    key == "Enter" || key == " "
  }

  /** What the user can do to the widget. */
  datatype Event =
    | TriggerClick                          // click on the trigger area
    | TriggerKey(key: string)               // key press on the trigger area, including
                                            // one on a focused chip, which bubbles up
                                            // to the trigger's handler
    | SearchInput(text: string)             // the search input's new contents
    | ClearSearch                           // click on the clear button
    | ChipClick(option: Option)             // click on a selected option's chip
    | RowClick(option: Option)              // click on a listbox row
    | RowKey(option: Option, key: string)   // key press on a listbox row

  /** The widget's own state (`isOpen`, `search`, `filteredOptions`) beside
      the host's: the `options` it was given and the `selectedOptions` it
      updates through the host's setter. */
  datatype State = State(
    options: seq<Option>,
    isOpen: bool,
    search: string,
    filtered: seq<Option>,
    selected: seq<Option>)

  /** The widget as first rendered by the host page: closed, empty search,
      every option listed, nothing selected. */
  function Init(options: seq<Option>): (s: State)
    ensures s.options == options
    ensures !s.isOpen && s.search == "" && s.selected == []
    ensures s.filtered == options
    ensures Valid(s)
  {
    State(options, false, "", options, [])
  }

  /** `setSearch(text)` followed by the filter effect, which React runs only
      when the search text actually changed. */
  function SetSearch(s: State, text: string): (r: State)
    ensures r.search == text
    ensures r.options == s.options && r.isOpen == s.isOpen && r.selected == s.selected
    ensures text != s.search ==> r.filtered == Filter(s.options, text)
    ensures text == s.search ==> r == s
  {
    if text == s.search then s
    else s.(search := text, filtered := Filter(s.options, text))
  }

  /** The state after one event. */
  function Step(s: State, e: Event): (r: State)
    ensures r.options == s.options
    ensures r.isOpen == (if e.TriggerClick? || (e.TriggerKey? && IsActivationKey(e.key)) then !s.isOpen else s.isOpen)
    ensures !e.SearchInput? && !e.ClearSearch? ==> r.search == s.search && r.filtered == s.filtered
    ensures e.SearchInput? ==> r.search == e.text
    ensures e.ClearSearch? ==> r.search == ""
    ensures (e.ChipClick? || e.RowClick? || e.RowKey?) || r.selected == s.selected
  {
    match e
    case TriggerClick => s.(isOpen := !s.isOpen)
    case TriggerKey(key) => if IsActivationKey(key) then s.(isOpen := !s.isOpen) else s
    case SearchInput(text) => SetSearch(s, text)
    case ClearSearch => SetSearch(s, "")
    case ChipClick(option) => s.(selected := Remove(s.selected, option))
    case RowClick(option) => s.(selected := Select(s.selected, option))
    case RowKey(option, key) =>
      if IsActivationKey(key) then s.(selected := Select(s.selected, option)) else s
  }

  /** The event's control is on screen: the search input, the clear button
      and the listbox exist only while the panel is open, the clear button
      only for a non-empty search, a chip only for a selected option, and a
      row only for a listed option. */
  predicate Enabled(s: State, e: Event) {
    match e
    case TriggerClick => true
    case TriggerKey(_) => true
    case SearchInput(_) => s.isOpen
    case ClearSearch => s.isOpen && |s.search| > 0
    case ChipClick(option) => option in s.selected
    case RowClick(option) => s.isOpen && option in s.filtered
    case RowKey(option, _) => s.isOpen && option in s.filtered
  }

  /** What holds between events: the listed options are the filter of the
      search text, the selection has distinct ids, and every selected entry
      is one of the options. */
  predicate Valid(s: State) {
    && s.filtered == Filter(s.options, s.search)
    && DistinctIds(s.selected)
    && (forall x :: x in s.selected ==> x in s.options)
  }

  /** Every event the user can perform keeps the state valid. */
  lemma StepKeepsValid(s: State, e: Event)
    requires Valid(s) && Enabled(s, e)
    ensures Valid(Step(s, e))
  {
    match e
    case ChipClick(option) =>
      RemoveKeepsDistinct(s.selected, option);
    case RowClick(option) =>
      SelectKeepsDistinct(s.selected, option);
    case RowKey(option, key) =>
      SelectKeepsDistinct(s.selected, option);
    case _ =>
  }

  /** The events can be performed one after another from `s`. */
  predicate EnabledRun(s: State, events: seq<Event>)
    decreases |events|
  {
    |events| == 0 || (Enabled(s, events[0]) && EnabledRun(Step(s, events[0]), events[1..]))
  }

  /** The state after a sequence of events. */
  function Run(s: State, events: seq<Event>): State
    decreases |events|
  {
    if |events| == 0 then s else Run(Step(s, events[0]), events[1..])
  }

  /** Every state the user can reach from the initial one is valid. */
  lemma {:induction false} RunKeepsValid(s: State, events: seq<Event>)
    requires Valid(s) && EnabledRun(s, events)
    ensures Valid(Run(s, events))
    decreases |events|
  {
    if |events| > 0 {
      StepKeepsValid(s, events[0]);
      RunKeepsValid(Step(s, events[0]), events[1..]);
    }
  }

  /** The initial state is valid, so every reachable state is. */
  lemma ReachableIsValid(options: seq<Option>, events: seq<Event>)
    requires EnabledRun(Init(options), events)
    ensures Valid(Run(Init(options), events))
  {
    RunKeepsValid(Init(options), events);
  }

  /** The trigger opens a closed widget and closes an open one on a click,
      Enter or Space, changing nothing else; any other key changes nothing. */
  lemma TriggerToggles(s: State, key: string)
    ensures Step(s, TriggerClick) == s.(isOpen := !s.isOpen)
    ensures IsActivationKey(key) ==> Step(s, TriggerKey(key)) == s.(isOpen := !s.isOpen)
    ensures !IsActivationKey(key) ==> Step(s, TriggerKey(key)) == s
    ensures Step(Step(s, TriggerClick), TriggerClick) == s
  {
  }

  /** Clearing the search lists every option again, in its original order.
      The clear button is shown only for a non-empty search, and then the
      change to "" recomputes the list; from an already empty search the
      list is unchanged, which is the full list in a valid state. */
  lemma ClearRestoresOptions(s: State)
    requires |s.search| > 0 || s.filtered == Filter(s.options, s.search)
    ensures Step(s, ClearSearch).search == ""
    ensures Step(s, ClearSearch).filtered == s.options
  {
  }

  /** A listbox row activated by click or by Enter or Space toggles the
      option in the selection; a chip click only ever removes it. */
  lemma RowAndChipUpdateSelection(s: State, option: Option, key: string)
    ensures Step(s, RowClick(option)).selected == Select(s.selected, option)
    ensures IsActivationKey(key) ==> Step(s, RowKey(option, key)).selected == Select(s.selected, option)
    ensures !IsActivationKey(key) ==> Step(s, RowKey(option, key)) == s
    ensures Step(s, ChipClick(option)) == s.(selected := Remove(s.selected, option))
  {
  }
}

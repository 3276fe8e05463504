# MultipleSelect: a verified model of the searchable multi-select widget

The widget shows a trigger area that opens and closes a panel. The trigger
lists the selected options as removable chips. The panel holds a search box
and a listbox of the options whose label contains the search text, ignoring
case. Clicking a row toggles that option in the selection. The host page owns
the selection and passes the widget five static options.

The model is purely functional:

- `text.dfy` (module `Text`): ASCII lower-casing (`Lower`) and substring
  search (`Contains`). `Contains` is proved equal to "occurs at some index".
- `options.dfy` (module `Options`): the `Option` record (`id`, `labelText`
  for the record's `label`, `value`). It also defines order-preserving
  subsequence, `HasId` (the source's `.some(s => s.id === id)`) and distinct ids.
- `filter.dfy` (module `Filtering`): the filter effect and its properties.
- `selection.dfy` (module `Selection`): `removeHandler` and `selectHandler`.
- `widget.dfy` (module `Widget`): the state (`isOpen`, `search`,
  `filteredOptions`, plus the host's `options` and `selectedOptions`). Each
  user event is one atomic transition. The filtered list is a state field,
  recomputed only when the search text changes, as the effect does.
- `host_page.dfy` (module `HostPage`): scenarios on the page's five options.

## Model

| member | source | states |
|---|---|---|
| Text.Lower | components/MultipleSelect/index.tsx:41 | weaker, admitted under "## Left out": `toLowerCase` restricted to ASCII. The result has the input's length, each letter A-Z is mapped to a-z and every other character is kept |
| Options.HasId | components/MultipleSelect/index.tsx:56 | the `.some(selected => selected.id === option.id)` test: some entry of the list carries the id. The same test drives the listbox's check mark at lines 156-158 |
| Filtering.Matches | components/MultipleSelect/index.tsx:41 | the filter callback: the option's lower-cased label contains the lower-cased search text |
| Widget.IsActivationKey | components/MultipleSelect/index.tsx:83 | the key test: the key is `'Enter'` or a single space `' '`. The trigger uses it here, and the listbox rows use the same test at line 149 |
| Text.Contains | components/MultipleSelect/index.tsx:41 | `includes` holds exactly when the search text occurs at some index of the label, and the empty text occurs in every label |
| Filtering.KeepMatching | components/MultipleSelect/index.tsx:40-42 | the kept options are an order-preserving subsequence of the input. Each matches, and each matching option is kept exactly as often as it occurs, while non-matching ones never appear |
| Filtering.Filter | components/MultipleSelect/index.tsx:38-47 | an empty search returns the options unchanged. Otherwise the result is an order-preserving subsequence in which every entry matches the lower-cased search, and every matching option appears |
| Filtering.FilterIsKeepMatching | components/MultipleSelect/index.tsx:39-45 | the empty-search branch agrees with the general filter, because the empty text is contained in every label |
| Filtering.FilterIdempotent | components/MultipleSelect/index.tsx:40-42 | filtering the filtered list again with the same text returns it unchanged |
| Filtering.FilterCounts | components/MultipleSelect/index.tsx:40-42 | the filtered list holds each matching option exactly as often as the options do, and no other option |
| Filtering.FilterIgnoresCase | components/MultipleSelect/index.tsx:41 | a search text and its lower-cased form list the same options |
| Selection.Remove | components/MultipleSelect/index.tsx:49-53 | no entry with the removed id is left. The result is an order-preserving subsequence holding every other entry as often as before. Removing an id that is not selected changes nothing |
| Selection.Select | components/MultipleSelect/index.tsx:55-61 | for an already selected id, Select is Remove. Otherwise it appends exactly the option at the end, keeping the prefix. Either way it flips whether the id is selected, and adds no entry other than the clicked option |
| Selection.SelectTwiceRestores | components/MultipleSelect/index.tsx:49-61 | selecting an unselected option twice gives back the original selection in content and order |
| Selection.SelectTwiceMovesToEnd | components/MultipleSelect/index.tsx:49-61 | selecting an already selected option twice drops its entries and appends it at the end |
| Selection.RemoveKeepsDistinct | components/MultipleSelect/index.tsx:49-53 | removing keeps the selected ids pairwise distinct |
| Selection.SelectKeepsDistinct | components/MultipleSelect/index.tsx:55-61 | toggling keeps the selected ids pairwise distinct |
| Widget.Init | components/MultipleSelect/index.tsx:29-36 | the widget holds the options it was given. It starts closed with an empty search, lists exactly those options, and is already valid. It starts with nothing selected because the host page's selection starts empty (app/page.tsx:13) |
| Widget.SetSearch | components/MultipleSelect/index.tsx:38-47 | a change of the search text sets it and recomputes the listed options as the filter of the new text. Setting the same text changes nothing, as React skips the effect. Nothing else changes |
| Widget.Step | components/MultipleSelect/index.tsx:81-152 | the options never change. `isOpen` flips on a trigger click, Enter or Space and on nothing else. Only search events touch the search text and list, and only chip and row events touch the selection |
| Widget.Enabled | components/MultipleSelect/index.tsx:90-143 | which controls are on screen. The trigger is always there, and a chip exists only for a selected option (lines 90-91). The search input and listbox need the open panel (line 109), the clear button a non-empty search (line 125), and a row a listed option (line 143) |
| Widget.StepKeepsValid | components/MultipleSelect/index.tsx:38-61 | every event whose control is on screen keeps three things: the listed options equal the filter of the search, the selected ids are distinct, and every selected entry is one of the options |
| Widget.RunKeepsValid | components/MultipleSelect/index.tsx:38-61 | any sequence of performable events keeps the state valid |
| Widget.ReachableIsValid | components/MultipleSelect/index.tsx:33-61 | every state reachable from the initial one is valid |
| Widget.TriggerToggles | components/MultipleSelect/index.tsx:81-87 | a click, Enter or Space on the trigger negates `isOpen` and changes nothing else. Any other key changes nothing, and two clicks restore the state |
| Widget.ClearRestoresOptions | components/MultipleSelect/index.tsx:125-129 | when the clear button is shown (a non-empty search), clearing sets the search to "" and recomputes the list, which is then the full option list in order. The same holds from an empty search whose list is already in sync |
| Widget.RowAndChipUpdateSelection | components/MultipleSelect/index.tsx:96-152 | a row click, or Enter or Space on a row, toggles the option. Other keys on a row do nothing. A chip click applies Remove to the selection and changes nothing else, so `isOpen` stays as it was |
| HostPage.SearchTwoListsOptionTwo | app/page.tsx:15-41 | on the page's five options, searching "2" lists only the option with id "2" |
| HostPage.SelectThenRemoveScenario | app/page.tsx:13-41 | from the page's empty selection, choosing option 1 then option 3 gives [1, 3]. Clicking option 1's chip then leaves [3] |
| HostPage.SearchThenClearScenario | app/page.tsx:15-41 | opening the widget, typing "option" and clearing the search lists all five options again in order |

## Left out

- Rendering: the JSX, class strings, icons, captions, placeholders and ARIA
  attributes carry no behaviour. The `Enabled` predicate records only which
  controls are on screen when.
- React scheduling: each event is one atomic transition. `selectHandler`
  tests membership on the rendered `selectedOptions` but updates the pending
  state (`prev`). With one event at a time these are the same list, so
  `Select` reads one list. Several clicks batched into one render are not
  modelled.
- A change of the `options` prop: the host page passes a fixed list, so the
  state holds the options unchanged. The source's effect depends on the search
  text alone, so a new option list would not be re-filtered until the search
  changes. That staleness is not modelled.
- Browser plumbing: `stopPropagation` on chips and `preventDefault` on keys.
  The chip's stopped propagation is reflected only in `isOpen` staying
  unchanged on a chip click.
- Text.Lower: lower-cases ASCII letters only. JavaScript's `toLowerCase`
  follows Unicode case mapping, which the model does not follow. The filter
  properties use only two facts about it, which `toLowerCase` also has:
  `Lower("") == ""` (for the empty-search cases of `Filter` and
  `FilterIsKeepMatching`) and `Lower(Lower(s)) == Lower(s)` (for
  `FilterIgnoresCase`). The page's concrete example also uses the ASCII
  mapping itself.

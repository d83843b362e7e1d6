# Smart Select controller, modelled in Dafny

`createSmartSelect(options)` in `Multi-Select-Banking-Component/smart-select.js` builds a
searchable single- or multi-select dropdown. This project models its headless controller:

- the configuration normalizer (`createConfig`) and its defaults;
- the item store (`createState` and `normalize`);
- the selection set, with its multi- and single-mode toggles, `clearSelection` and the
  `value` getter and setter;
- the filter engine (`applyFilter`: `trim`, `toLowerCase`, `includes`);
- keyboard navigation (`moveActive`);
- the open/close lifecycle (`openDropdown`, `closeDropdown`, `toggleDropdown`);
- the change notifier (`emitChange`);
- the state-changing branches of the event listeners that `bindEvents` and the list and
  chip renderers install.

The DOM is not modelled. Every `smart-select:*` custom event the control dispatches, and
every call of the configured `onChange`, is appended to a notification log.

Modules:

- `Seqs` holds the stable `filter` every list operation uses, with its order and membership lemmas.
- `JsValues` holds the JavaScript values the controller inspects, truthiness, and `String(x)`.
- `JsStrings` holds `trim`, `toLowerCase` and `includes`.
- `SmartConfig` models `createConfig`.
- `Items` models `normalize`.
- `Search` models the query and the matching.
- `Navigation` models the wrap-around arithmetic of `moveActive`.
- `Selection` holds the set operations and the selection policies.
- `Events` models the log and `emitChange`.
- `ControllerSpec` holds the controller state as a `Snapshot` value, one pure transition
  function per operation, and the lemmas stating what each operation promises.
- `Controller` holds the class `SmartSelect`, whose fields are the source's mutable `state`.
  Each method changes those fields in place. Each method is proved to leave exactly the
  state the matching `ControllerSpec` transition describes, and to keep the invariant
  `Valid()`. Under `Valid()`:
  - items are well formed;
  - `filtered` is the items filtered by the last query;
  - the active index is -1 or a row of `filtered`;
  - no id is selected twice.
- `Scenarios` drives the class through the flow of `tests/smart-select.spec.js`: three
  records, two selections, a chip removal, clear, search "BBB1", and clearing the search.
  It also covers single mode.

Behaviour taken from the code where a plain reading of the component's description
could suggest otherwise:

- `closeDropdown` resets the active index to -1 as well (`ControllerSpec.LifecycleTransitions`).
- The `value` setter does not enforce single mode: it can select several ids in a
  single-select control (`ControllerSpec.SetValueKeepsSeveral`).
- With the default `getLabel`, a record without a `label` field gets the label string
  `"undefined"`, which is truthy, so the record is kept rather than dropped
  (`SmartConfig.DefaultLabelOfMissingField`).
- A row click moves the active index to that row only in multi mode while the
  dropdown is open (`Controller.SmartSelect.RowClick`).
- The payload of `change` lists the ids in selection order but the records in item order
  (`Events.SelectedRawsSpec`).

## Model

| member | source | states |
|---|---|---|
| JsValues.ToJsString | Multi-Select-Banking-Component/smart-select.js:288-290 | `String(v)` returns a string unchanged, and gives a non-empty string for every non-string value |
| JsValues.NatToString | Multi-Select-Banking-Component/smart-select.js:290 | the decimal spelling of an index is non-empty, all digits, one digit exactly below 10, and starts with `0` only for 0 |
| JsValues.DecimalValueOfNatToString | Multi-Select-Banking-Component/smart-select.js:290 | reading the decimal spelling back gives the index: the spelling is invertible |
| JsValues.NatToStringInjective | Multi-Select-Banking-Component/smart-select.js:290 | different indices have different decimal spellings |
| JsStrings.TrimStart | Multi-Select-Banking-Component/smart-select.js:184 | the result is a suffix of the input; everything dropped is white space; the result does not start with white space |
| JsStrings.TrimEnd | Multi-Select-Banking-Component/smart-select.js:184 | the result is a prefix of the input; everything dropped is white space; the result does not end with white space |
| JsStrings.TrimIsInnerSlice | Multi-Select-Banking-Component/smart-select.js:184 | `trim()` returns a contiguous slice of its input that neither starts nor ends with white space |
| JsStrings.TrimIdempotent | Multi-Select-Banking-Component/smart-select.js:184 | trimming twice is trimming once |
| JsStrings.TrimmedIsFixed | Multi-Select-Banking-Component/smart-select.js:184 | a string with no white space at either end is left unchanged by `trim()` |
| JsStrings.ToLower | Multi-Select-Banking-Component/smart-select.js:184 | `toLowerCase()` keeps the length and maps each character independently |
| JsStrings.ToLowerIdempotent | Multi-Select-Banking-Component/smart-select.js:184 | lower-casing twice is lower-casing once |
| JsStrings.LowerCharKeepsWhiteSpace | Multi-Select-Banking-Component/smart-select.js:184 | lower-casing neither creates nor removes white space |
| JsStrings.ContainsAt | Multi-Select-Banking-Component/smart-select.js:193 | `text.includes(q)` holds exactly when `q` occurs starting at some position of `text` |
| JsStrings.ContainsNeedsFirstChar | Multi-Select-Banking-Component/smart-select.js:193 | a text in which the query's first character never occurs does not include the query |
| SmartConfig.CreateConfig | Multi-Select-Banking-Component/smart-select.js:253-281 | fails with "SmartSelect: root is required" exactly when `root` is falsy. Otherwise each option is kept as given and the default applies only when it is `undefined`; `multi` defaults to a truthy value. `onChange` is kept exactly when it is callable |
| SmartConfig.CreateConfigIdempotent | Multi-Select-Banking-Component/smart-select.js:253-281 | feeding a normalized configuration back through `createConfig` returns it unchanged |
| SmartConfig.DefaultLabelOfMissingField | Multi-Select-Banking-Component/smart-select.js:260 | the default `getLabel` turns a missing `label` field into the truthy string "undefined" |
| Items.ItemId | Multi-Select-Banking-Component/smart-select.js:287-290 | an item id is never empty: it is `String(baseId)` when the accessor gave a usable id, otherwise `"ss-"` followed by the record's position |
| Items.FallbackIdsDistinct | Multi-Select-Banking-Component/smart-select.js:290 | fallback ids of different positions differ |
| Items.NormalizeSpec | Multi-Select-Banking-Component/smart-select.js:284-299 | `normalize` returns well-formed items (non-empty id, truthy label). It keeps exactly the records whose label is truthy, in their original order, each built from its original position. A non-array gives no items |
| Items.NormalizeFallbackId | Multi-Select-Banking-Component/smart-select.js:286-290 | a kept item whose accessor gave no usable id carries the fallback id of its position in the input, not in the result |
| Search.NormalizeQueryIdempotent | Multi-Select-Banking-Component/smart-select.js:184 | normalizing an already normalized query changes nothing |
| Search.FilterItemsSpec | Multi-Select-Banking-Component/smart-select.js:186-194 | the filtered list is the subsequence of the items, at ascending positions, whose lower-cased id, label or subtitle (or "" for a falsy subtitle) includes the query |
| Search.FilterItemsEmptyQuery | Multi-Select-Banking-Component/smart-select.js:186-195 | every item matches the empty query, so the blank-term branch and the filtering branch agree |
| Search.FilterItemsNarrows | Multi-Select-Banking-Component/smart-select.js:186-194 | extending the query never brings back an item a shorter query had dropped |
| Search.ContainsPrefix | Multi-Select-Banking-Component/smart-select.js:193 | a text that includes a query includes every prefix of it |
| Navigation.NextIndex | Multi-Select-Banking-Component/smart-select.js:417-425 | on a non-empty list the new active index is inside it. From -1, a step down lands on the first row and a step up on the last; otherwise the index wraps around at both ends |
| Navigation.StepsCancel | Multi-Select-Banking-Component/smart-select.js:424 | a step up undoes a step down and vice versa |
| Navigation.StepsDown | Multi-Select-Banking-Component/smart-select.js:417-425 | repeated steps never leave the range -1 up to the last row |
| Navigation.StepsDownCompose | Multi-Select-Banking-Component/smart-select.js:417-425 | taking m steps then n steps is taking m + n steps |
| Navigation.StepsDownFromFirst | Multi-Select-Banking-Component/smart-select.js:417-425 | from the first row, the j-th step down reaches row j |
| Navigation.StepsDownCycle | Multi-Select-Banking-Component/smart-select.js:417-425 | stepping down from the first row visits every row in order, returns to the first after a full lap, and repeats |
| Navigation.StepsDownFromNone | Multi-Select-Banking-Component/smart-select.js:421-422 | with no active row, the first step down reaches the first row and the rest follow as from there |
| Selection.Add | Multi-Select-Banking-Component/smart-select.js:162 | `Set.add` keeps the set duplicate-free, keeps the earlier members first in order, and adds exactly the new member |
| Selection.Delete | Multi-Select-Banking-Component/smart-select.js:160 | `Set.delete` keeps the set duplicate-free and removes exactly the given member. Deleting an absent id changes nothing; deleting a present one cuts out its one position and keeps the other ids in insertion order |
| Selection.FilterOther | Multi-Select-Banking-Component/smart-select.js:160 | filtering out an absent id changes nothing; in a duplicate-free selection, filtering out a present id removes exactly its position |
| Selection.FilterCutsAt | Multi-Select-Banking-Component/smart-select.js:160 | filtering out the id at position k of a duplicate-free selection leaves the ids before and after k, in order |
| Selection.DeleteUndoesAdd | Multi-Select-Banking-Component/smart-select.js:159-163 | adding an absent id and deleting it again restores the set, order included |
| Selection.ToggledMulti | Multi-Select-Banking-Component/smart-select.js:158-163 | a multi-mode toggle flips the id's membership and leaves every other id as it was |
| Selection.ToggledNoDup | Multi-Select-Banking-Component/smart-select.js:153-168 | every toggle keeps the selection duplicate-free |
| Selection.ToggledTwiceRestores | Multi-Select-Banking-Component/smart-select.js:158-163 | toggling an absent id twice in multi mode restores the selection exactly |
| Selection.SingleModeAtMostOne | Multi-Select-Banking-Component/smart-select.js:164-167 | in single mode no sequence of toggles selects more than one id |
| Selection.SelectKnownSpec | Multi-Select-Banking-Component/smart-select.js:236-243 | the setter's loop leaves a duplicate-free selection that holds exactly the given ids that name an item |
| Selection.SelectKnownOrder | Multi-Select-Banking-Component/smart-select.js:238-242 | known ids end up in the order of their first appearance in the input |
| Events.SelectedRaws | Multi-Select-Banking-Component/smart-select.js:9-11 | the payload never has more records than there are items |
| Events.SelectedRawsSpec | Multi-Select-Banking-Component/smart-select.js:8-11 | the payload holds the raw records of exactly the selected items, in item order |
| Events.SelectedRawsEmpty | Multi-Select-Banking-Component/smart-select.js:9-11 | an empty selection has an empty payload |
| Events.ChangeNotice | Multi-Select-Banking-Component/smart-select.js:7-18 | `emitChange` adds exactly one `change` event, last, carrying the ids in selection order and the selected records. When a callback is configured, exactly one `onChange` call comes first, with the same records; without one the `change` event is all that is added |
| Events.NoNewChanges | Multi-Select-Banking-Component/smart-select.js:7-18 | events other than `change` never add to the count of `change` events |
| Events.OneNewChange | Multi-Select-Banking-Component/smart-select.js:7-18 | each `emitChange` adds exactly one `change` event to the log |
| ControllerSpec.LifecycleIdempotent | Multi-Select-Banking-Component/smart-select.js:123-143 | opening an open dropdown and closing a closed one change nothing and emit nothing |
| ControllerSpec.LifecycleTransitions | Multi-Select-Banking-Component/smart-select.js:123-151 | a real open or close flips visibility, resets the active index, and emits exactly one `open` or `close`. Selection and lists are untouched. Toggling flips visibility |
| ControllerSpec.ToggleFalsyId | Multi-Select-Banking-Component/smart-select.js:154 | toggling a falsy id changes nothing and emits nothing |
| ControllerSpec.ToggleMultiSpec | Multi-Select-Banking-Component/smart-select.js:153-173 | in multi mode a toggle flips the id's membership and leaves other ids, lists and visibility alone. It keeps the old log and appends only the change notice, whose `change` carries the new selection |
| ControllerSpec.ToggleSingleSpec | Multi-Select-Banking-Component/smart-select.js:164-172 | in single mode a toggle leaves exactly that id selected and closes the dropdown, emitting `close` only if it was open. It then emits one `change` |
| ControllerSpec.ClearSpec | Multi-Select-Banking-Component/smart-select.js:175-181 | clearing an empty selection is a no-op. Otherwise it empties the selection, keeps the old log and appends only the change notice, whose `change` has empty ids and records |
| ControllerSpec.SetItemsSpec | Multi-Select-Banking-Component/smart-select.js:217-227 | `setItems` shows exactly `normalize(list)` and clears the selection and the active row. It keeps visibility, keeps the old log and appends only the change notice with an empty payload, and re-establishes the invariant |
| ControllerSpec.SetValueSpec | Multi-Select-Banking-Component/smart-select.js:235-247 | the setter selects exactly the given ids that name an item, without duplicates (nothing for a non-array). It leaves the view alone, keeps the old log and always appends the change notice, whose `change` carries the new selection and its records |
| ControllerSpec.SetValueKeepsSeveral | Multi-Select-Banking-Component/smart-select.js:235-247 | the setter does not enforce single mode: two known ids both stay selected |
| ControllerSpec.ApplyFilterSpec | Multi-Select-Banking-Component/smart-select.js:183-200 | `applyFilter` shows all items for a blank term, otherwise exactly the matching items in order. It resets the active row and emits one `search` carrying the normalized query and no `change`. Selection and visibility are kept |
| ControllerSpec.MoveActiveSpec | Multi-Select-Banking-Component/smart-select.js:417-427 | moving on an empty list is a no-op; otherwise the active row lands inside the list and nothing else changes |
| Controller.SmartSelect.constructor | Multi-Select-Banking-Component/smart-select.js:283-311 | the initial state shows `normalize(items)` with nothing selected, no active row and the dropdown closed. The invariant holds |
| Controller.SmartSelect.EmitChange | Multi-Select-Banking-Component/smart-select.js:7-18 | appends the change notice and changes nothing else |
| Controller.SmartSelect.OpenDropdown | Multi-Select-Banking-Component/smart-select.js:123-133 | makes the `openDropdown` transition in place, keeping the invariant |
| Controller.SmartSelect.CloseDropdown | Multi-Select-Banking-Component/smart-select.js:135-143 | makes the `closeDropdown` transition in place, keeping the invariant |
| Controller.SmartSelect.ToggleDropdown | Multi-Select-Banking-Component/smart-select.js:145-151 | makes the `toggleDropdown` transition in place, keeping the invariant |
| Controller.SmartSelect.ToggleSelect | Multi-Select-Banking-Component/smart-select.js:153-173 | makes the `toggleSelect` transition in place and keeps the invariant. If every selected id named an item before and the toggled id names one too, that still holds afterwards |
| Controller.SmartSelect.ClearSelection | Multi-Select-Banking-Component/smart-select.js:175-181 | makes the `clearSelection` transition in place, keeping the invariant |
| Controller.SmartSelect.ApplyFilter | Multi-Select-Banking-Component/smart-select.js:183-200 | makes the `applyFilter` transition in place. The invariant then holds for the new normalized query |
| Controller.SmartSelect.MoveActive | Multi-Select-Banking-Component/smart-select.js:417-427 | makes the `moveActive` transition in place, keeping the active row inside the list |
| Controller.SmartSelect.SetItems | Multi-Select-Banking-Component/smart-select.js:217-227 | makes the `setItems` transition in place. Afterwards the invariant holds for the empty query and every selected id names an item |
| Controller.SmartSelect.Value | Multi-Select-Banking-Component/smart-select.js:232-234 | the getter returns the selected ids in insertion order, each once |
| Controller.SmartSelect.SetValue | Multi-Select-Banking-Component/smart-select.js:235-247 | the setter's loop leaves the selection `ControllerSpec.ValueAssigned` describes, keeps the invariant, and leaves only ids that name an item |
| Controller.SmartSelect.ControlClick | Multi-Select-Banking-Component/smart-select.js:453-455 | a click on the control toggles the dropdown |
| Controller.SmartSelect.ControlKeyDown | Multi-Select-Banking-Component/smart-select.js:457-483 | Enter and Space toggle. ArrowDown on a closed control opens it and activates the first row, if any; on an open one it moves down. ArrowUp moves up only when open. Escape closes. Other keys change nothing |
| Controller.SmartSelect.SearchInput | Multi-Select-Banking-Component/smart-select.js:485-487 | typing in the search box applies the filter to the typed text |
| Controller.SmartSelect.SearchKeyDown | Multi-Select-Banking-Component/smart-select.js:489-511 | arrows move the active row. Enter toggles the active row's item only when the active index is inside the list. Escape closes. Other keys change nothing |
| Controller.SmartSelect.SearchClearClick | Multi-Select-Banking-Component/smart-select.js:513-518 | the search clear button shows all items again and then closes the dropdown |
| Controller.SmartSelect.ClearButtonClick | Multi-Select-Banking-Component/smart-select.js:520-524 | the clear button empties the selection and then closes the dropdown |
| Controller.SmartSelect.RowClick | Multi-Select-Banking-Component/smart-select.js:106-115 | a row click toggles that row's item; in multi mode with the dropdown still open, that row becomes the active one |
| Controller.SmartSelect.ChipRemoveClick | Multi-Select-Banking-Component/smart-select.js:57-60 | a chip's remove button toggles the item the chip shows, which removes it in multi mode |
| Controller.SmartSelect.DocumentClick | Multi-Select-Banking-Component/smart-select.js:526-535 | a click outside the control and the dropdown closes an open dropdown; any other click changes nothing |
| Controller.CreateSmartSelect | Multi-Select-Banking-Component/smart-select.js:1-5 | fails with the configuration error when `root` is falsy and with a `TypeError` when it is a truthy primitive (`createDom` assigns `root.innerHTML` at smart-select.js:323). For an object root it returns a fresh controller over the normalized configuration and `normalize(options.items)`, with the invariant established |
| Scenarios.FirstSelectionNotice | Multi-Select-Banking-Component/tests/smart-select.spec.js:110-113 | selecting F1 calls `onChange` with `[F1]` and then dispatches `change` with the id F1 and the record F1 |
| Scenarios.TestItems | Multi-Select-Banking-Component/tests/smart-select.spec.js:35-56 | the test page's three records all survive normalization, in order |
| Scenarios.SearchFindsF3 | Multi-Select-Banking-Component/tests/smart-select.spec.js:182-195 | typing "BBB1" gives the query "bbb1", which only F3 matches |
| Scenarios.SelectFirstTwo | Multi-Select-Banking-Component/tests/smart-select.spec.js:98-141 | clicking the first two rows in multi mode selects F1 then F2 and keeps the dropdown open |
| Scenarios.RemoveFirstChip | Multi-Select-Banking-Component/tests/smart-select.spec.js:143-156 | removing the first chip (F1) leaves only F2 selected |

## Left out

- Rendering is not modelled: `renderState`, `renderSelectedBar`, `renderList`, `createDom` (apart from its rejection of a primitive root), `syncListSelection`, `updateActiveItem`, `highlightMatch` and `escapeHtml` only write the DOM.
- `positionDropdown`, focus handling and the window `resize` and `scroll` listeners are not modelled; they only move or focus DOM nodes.
- Custom-event dispatch on the control element (`createEmitter`) is modelled as entries appended to the notification log, not as DOM events; `event.preventDefault()` and `stopPropagation()` are not modelled.
- Controller.SmartSelect.DocumentClick: the `composedPath()` test is abstracted into one boolean saying whether the click hit the control or the dropdown.
- Caller-supplied accessors and `onChange` are pure functions of the record in the model. An accessor that throws, has side effects or re-enters the controller is not modelled, and `onChange` is recorded in the log rather than run.
- JsValues.ToJsString: numbers are limited to integers. NaN, infinities, fractions and `-0` are not modelled, and neither are arrays, functions or symbols as values. `Num` is unbounded: integers from 10^21 up, which JavaScript prints in exponent form, and integers beyond 2^53, which are not exact JavaScript numbers, are printed as plain decimals. Every object is printed as `[object Object]`, which holds for plain objects only: a DOM node, a `Date` or an object with its own `toString` prints differently, possibly as `""`. So an id accessor returning such an object, whose `String()` is `""` and which `normalize`'s `i.id &&` filter would drop (smart-select.js:299), is not modelled; in the model every item id is non-empty.
- Controller.CreateSmartSelect: an object root is taken to be a DOM element. A plain object root, which fails at `root.appendChild` (smart-select.js:369), is modelled as succeeding; `createDom` is not modelled beyond the `root.innerHTML` assignment that rejects a primitive root.
- JsStrings.ToLower: lower-cases ASCII and Latin-1 capitals only. Other Unicode case mappings, including ones that change the length, are not modelled.
- Strings are sequences of Unicode scalar values rather than UTF-16 code units, so `includes` on lone surrogates is not modelled.
- Items.Normalize: the elements of an array `items` are records (string-keyed property maps). Primitive elements, such as a bare number in the array, are not modelled. A non-array `items` is modelled as absent and gives no items, as in the source.
- Controller.SmartSelect.MoveActive: requires a step of 1 or -1, the only steps the listeners pass; the source function would accept other steps.
- Controller.SmartSelect.RowClick and Controller.SmartSelect.ChipRemoveClick: require the clicked row or chip to be one that is rendered, i.e. an index into `filtered` or into the selected items. The renderers only create those.
- The `label` and `placeholder` options are stored but only the DOM reads them; the model records them in the configuration and proves nothing else about them.

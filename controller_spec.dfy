/**
 * The controller's operations as transitions of its state, and what each of them
 * promises. The class in module Controller is proved to make exactly these transitions.
 */
module ControllerSpec {
  import opened Wrappers
  import opened JsValues
  import opened Seqs
  import opened SmartConfig
  import opened Items
  import opened Search
  import opened Selection
  import opened Navigation
  import opened Events

  /** The mutable state of the controller and the notifications it has emitted so far. */
  datatype Snapshot = Snapshot(
    items: seq<Item>,
    filtered: seq<Item>,
    selected: seq<string>,
    activeIndex: int,
    isOpen: bool,
    log: seq<Event>)

  /**
   * The invariant: items are well formed, `filtered` is `items` filtered by the query
   * last applied, the active index is -1 or a position of `filtered`, and no id is
   * selected twice.
   */
  ghost predicate Inv(s: Snapshot, query: string) {
    && WellFormed(s.items)
    && s.filtered == FilterItems(s.items, query)
    && -1 <= s.activeIndex < |s.filtered|
    && NoDup(s.selected)
  }

  /** Every selected id is the id of some item. */
  ghost predicate SelectionKnown(s: Snapshot) {
    forall id :: id in s.selected ==> HasId(s.items, id)
  }

  /** The initial state `createState` builds. */
  function Initial(cfg: Config, data: Option<seq<Raw>>): Snapshot {
    var all := Normalize(cfg, data);
    Snapshot(all, all, [], -1, false, [])
  }

  /** `openDropdown()` */
  function Opened(s: Snapshot): Snapshot {
    if s.isOpen then s else s.(isOpen := true, activeIndex := -1, log := s.log + [Open])
  }

  /** `closeDropdown()` */
  function Closed(s: Snapshot): Snapshot {
    if !s.isOpen then s else s.(isOpen := false, activeIndex := -1, log := s.log + [Close])
  }

  /** `toggleDropdown()` */
  function DropdownToggled(s: Snapshot): Snapshot {
    if s.isOpen then Closed(s) else Opened(s)
  }

  /** `emitChange()` */
  function Emitted(s: Snapshot, onChange: Option<nat>): Snapshot {
    s.(log := s.log + ChangeNotice(onChange, s.items, s.selected))
  }

  /** `toggleSelect(id)` */
  function SelectToggled(s: Snapshot, multi: bool, onChange: Option<nat>, id: string): Snapshot {
    if id == "" then s
    else if multi then Emitted(s.(selected := Toggled(s.selected, id, true)), onChange)
    else Emitted(Closed(s.(selected := Toggled(s.selected, id, false))), onChange)
  }

  /** `clearSelection()` */
  function SelectionCleared(s: Snapshot, onChange: Option<nat>): Snapshot {
    if s.selected == [] then s else Emitted(s.(selected := []), onChange)
  }

  /** `applyFilter(term)` */
  function FilterApplied(s: Snapshot, term: string): Snapshot {
    var q := NormalizeQuery(term);
    s.(filtered := if q != "" then FilterItems(s.items, q) else s.items,
       activeIndex := -1,
       log := s.log + [Search(q)])
  }

  /** `moveActive(step)` */
  function Moved(s: Snapshot, step: int): Snapshot
    requires -1 <= s.activeIndex < |s.filtered|
    requires step == 1 || step == -1
  {
    if |s.filtered| == 0 then s else s.(activeIndex := NextIndex(s.activeIndex, step, |s.filtered|))
  }

  /** `setItems(list)` */
  function ItemsReplaced(s: Snapshot, cfg: Config, list: Option<seq<Raw>>): Snapshot {
    var next := Normalize(cfg, list);
    Emitted(s.(items := next, filtered := next, selected := [], activeIndex := -1), cfg.onChange)
  }

  /** `value = ids` */
  function ValueAssigned(s: Snapshot, onChange: Option<nat>, ids: Option<seq<JsValue>>): Snapshot {
    var next := if ids.Some? then SelectKnown([], ids.value, s.items) else [];
    Emitted(s.(selected := next), onChange)
  }

  /** Everything but the log and the selection is as it was. */
  predicate SameView(a: Snapshot, b: Snapshot) {
    a.items == b.items && a.filtered == b.filtered && a.activeIndex == b.activeIndex && a.isOpen == b.isOpen
  }

  // ---------------------------------------------------------------------------
  // Lifecycle

  /** Opening an open dropdown and closing a closed one change nothing. */
  lemma LifecycleIdempotent(s: Snapshot)
    ensures Opened(Opened(s)) == Opened(s)
    ensures Closed(Closed(s)) == Closed(s)
    ensures s.isOpen ==> Opened(s) == s
    ensures !s.isOpen ==> Closed(s) == s
  {
  }

  /**
   * A real transition flips `isOpen`, forgets the active entry and emits exactly one
   * `open` (or `close`) notification; selection and lists stay as they were.
   */
  lemma LifecycleTransitions(s: Snapshot)
    ensures !s.isOpen ==> var o := Opened(s);
      o.isOpen && o.activeIndex == -1 && o.log == s.log + [Open]
      && o.items == s.items && o.filtered == s.filtered && o.selected == s.selected
    ensures s.isOpen ==> var c := Closed(s);
      !c.isOpen && c.activeIndex == -1 && c.log == s.log + [Close]
      && c.items == s.items && c.filtered == s.filtered && c.selected == s.selected
    ensures DropdownToggled(s).isOpen == !s.isOpen
    ensures DropdownToggled(DropdownToggled(s)).isOpen == s.isOpen
  {
  }

  // ---------------------------------------------------------------------------
  // Selection

  /** A falsy id changes nothing and emits nothing. */
  lemma ToggleFalsyId(s: Snapshot, multi: bool, onChange: Option<nat>)
    ensures SelectToggled(s, multi, onChange, "") == s
  {
  }

  /**
   * In multi mode `toggleSelect(id)` flips `id`'s membership, leaves the other members and
   * the rest of the state as they were, and emits exactly one `change` whose payload is
   * the new selection.
   */
  lemma ToggleMultiSpec(s: Snapshot, onChange: Option<nat>, id: string)
    requires id != ""
    ensures var t := SelectToggled(s, true, onChange, id);
      && (id in t.selected <==> id !in s.selected)
      && (forall y :: y != id ==> (y in t.selected <==> y in s.selected))
      && SameView(t, s)
      && t.log == s.log + ChangeNotice(onChange, s.items, t.selected)
      && |Changes(t.log)| == |Changes(s.log)| + 1
      && t.log[|t.log| - 1] == Change(t.selected, SelectedRaws(t.items, t.selected))
  {
    ToggledMulti(s.selected, id);
    OneNewChange(s.log, onChange, s.items, Toggled(s.selected, id, true));
  }

  /**
   * In single mode `toggleSelect(id)` leaves exactly `id` selected, closes the dropdown
   * (emitting `close` when it was open) and emits exactly one `change`.
   */
  lemma ToggleSingleSpec(s: Snapshot, onChange: Option<nat>, id: string)
    requires id != ""
    ensures var t := SelectToggled(s, false, onChange, id);
      && t.selected == [id]
      && !t.isOpen
      && t.items == s.items && t.filtered == s.filtered
      && t.activeIndex == (if s.isOpen then -1 else s.activeIndex)
      && t.log == s.log + (if s.isOpen then [Close] else []) + ChangeNotice(onChange, s.items, [id])
      && |Changes(t.log)| == |Changes(s.log)| + 1
  {
    var closedLog := s.log + (if s.isOpen then [Close] else []);
    NoNewChanges(s.log, if s.isOpen then [Close] else []);
    OneNewChange(closedLog, onChange, s.items, [id]);
  }

  /**
   * `clearSelection()` on an empty selection is a no-op; otherwise it empties the
   * selection and emits exactly one `change` with an empty payload.
   */
  lemma ClearSpec(s: Snapshot, onChange: Option<nat>)
    ensures s.selected == [] ==> SelectionCleared(s, onChange) == s
    ensures s.selected != [] ==> var t := SelectionCleared(s, onChange);
      && t.selected == []
      && SameView(t, s)
      && t.log == s.log + ChangeNotice(onChange, s.items, [])
      && |Changes(t.log)| == |Changes(s.log)| + 1
      && t.log[|t.log| - 1] == Change([], [])
  {
    if s.selected != [] {
      SelectedRawsEmpty(s.items);
      OneNewChange(s.log, onChange, s.items, []);
    }
  }

  /**
   * `setItems(list)` replaces the items by `normalize(list)`, shows all of them, clears the
   * selection and the active entry, and emits exactly one `change` with an empty payload,
   * even when the list is empty or not an array.
   */
  lemma SetItemsSpec(s: Snapshot, cfg: Config, list: Option<seq<Raw>>)
    ensures var t := ItemsReplaced(s, cfg, list);
      && t.items == Normalize(cfg, list) && t.filtered == t.items
      && t.selected == [] && t.activeIndex == -1 && t.isOpen == s.isOpen
      && t.log == s.log + ChangeNotice(cfg.onChange, t.items, [])
      && |Changes(t.log)| == |Changes(s.log)| + 1
      && t.log[|t.log| - 1] == Change([], [])
      && Inv(t, "") && SelectionKnown(t)
  {
    var next := Normalize(cfg, list);
    SelectedRawsEmpty(next);
    OneNewChange(s.log, cfg.onChange, next, []);
    NormalizeSpec(cfg, list);
    FilterItemsEmptyQuery(next);
  }

  /**
   * The `value` setter leaves selected exactly the given ids that name an item, once each
   * and in input order (nothing when the input is not an array), and always emits exactly
   * one `change`.
   */
  lemma SetValueSpec(s: Snapshot, onChange: Option<nat>, ids: Option<seq<JsValue>>)
    ensures var t := ValueAssigned(s, onChange, ids);
      && NoDup(t.selected)
      && (forall x :: x in t.selected <==> ids.Some? && Str(x) in ids.value && HasId(s.items, x))
      && (ids.None? ==> t.selected == [])
      && SameView(t, s)
      && SelectionKnown(t)
      && t.log == s.log + ChangeNotice(onChange, s.items, t.selected)
      && |Changes(t.log)| == |Changes(s.log)| + 1
      && t.log[|t.log| - 1] == Change(t.selected, SelectedRaws(s.items, t.selected))
  {
    if ids.Some? {
      SelectKnownSpec([], ids.value, s.items);
    }
    OneNewChange(s.log, onChange, s.items, ValueAssigned(s, onChange, ids).selected);
  }

  /** The setter does not enforce single mode: two known ids stay selected. */
  lemma SetValueKeepsSeveral(onChange: Option<nat>)
    ensures var f1 := Item("F1", Str("11111"), Str(""), Obj, map[]);
      var f2 := Item("F2", Str("AA2234"), Str(""), Obj, map[]);
      var s := Snapshot([f1, f2], [f1, f2], [], -1, false, []);
      ValueAssigned(s, onChange, Some([Str("F1"), Str("F2")])).selected == ["F1", "F2"]
  {
    var f1 := Item("F1", Str("11111"), Str(""), Obj, map[]);
    var f2 := Item("F2", Str("AA2234"), Str(""), Obj, map[]);
    var items, ids := [f1, f2], [Str("F1"), Str("F2")];
    assert HasId(items, "F1") by { assert items[0].id == "F1"; }
    assert HasId(items, "F2") by { assert items[1].id == "F2"; }
    var s1 := AddIfKnown([], ids[0], items);
    assert s1 == ["F1"];
    assert "F2" !in s1 by { assert "F2"[1] != "F1"[1]; }
    var s2 := AddIfKnown(s1, ids[1], items);
    assert s2 == ["F1", "F2"];
    assert ids[1..][1..] == [];
    assert SelectKnown([], ids, items) == SelectKnown(s1, ids[1..], items) == SelectKnown(s2, [], items);
  }

  // ---------------------------------------------------------------------------
  // Filtering and navigation

  /**
   * `applyFilter(term)` shows every item for a blank term, otherwise the items matching
   * the normalized query in item order; it always forgets the active entry, emits one
   * `search` carrying the query and no `change`, and leaves selection and visibility alone.
   */
  lemma ApplyFilterSpec(s: Snapshot, term: string)
    ensures var t, q := FilterApplied(s, term), NormalizeQuery(term);
      && (q == "" ==> t.filtered == s.items)
      && t.filtered == FilterItems(s.items, q)
      && (forall it :: it in t.filtered <==> it in s.items && Matches(it, q))
      && t.activeIndex == -1
      && t.log == s.log + [Search(q)]
      && Changes(t.log) == Changes(s.log)
      && t.selected == s.selected && t.isOpen == s.isOpen && t.items == s.items
  {
    var q := NormalizeQuery(term);
    FilterItemsEmptyQuery(s.items);
    FilterItemsSpec(s.items, q);
    NoNewChanges(s.log, [Search(q)]);
  }

  /**
   * `moveActive(step)` does nothing on an empty list and otherwise lands inside the
   * list; nothing but the active index changes.
   */
  lemma MoveActiveSpec(s: Snapshot, step: int)
    requires -1 <= s.activeIndex < |s.filtered|
    requires step == 1 || step == -1
    ensures |s.filtered| == 0 ==> Moved(s, step) == s
    ensures |s.filtered| > 0 ==> 0 <= Moved(s, step).activeIndex < |s.filtered|
    ensures Moved(s, step).(activeIndex := s.activeIndex) == s
  {
  }
}

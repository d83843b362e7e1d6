/**
 * The headless controller of `createSmartSelect`: the shared `state` object as a class
 * whose methods update it in place, the API object it returns, and the state-changing
 * branches of `bindEvents`. Each method is proved to make the transition its namesake
 * in module ControllerSpec describes.
 */
module Controller {
  import opened Wrappers
  import opened JsValues
  import opened JsStrings
  import opened Seqs
  import opened SmartConfig
  import opened Items
  import opened Search
  import opened Selection
  import opened Navigation
  import opened Events
  import opened ControllerSpec

  class SmartSelect {
    const config: Config
    var items: seq<Item>
    var filtered: seq<Item>
    var selected: seq<string>
    var activeIndex: int
    var isOpen: bool
    /** The notifications dispatched and the `onChange` calls made so far, oldest first. */
    var log: seq<Event>
    /** The normalized query `filtered` reflects: "" after construction and after `setItems`. */
    ghost var query: string

    ghost function Now(): Snapshot
      reads this
    {
      Snapshot(items, filtered, selected, activeIndex, isOpen, log)
    }

    ghost predicate Valid()
      reads this
    {
      Inv(Now(), query)
    }

    /** `config.multi` read as a condition. */
    predicate Multi() {
      Truthy(config.multi)
    }

    /** `createState(config, items)` */
    constructor (cfg: Config, initial: Option<seq<Raw>>)
      ensures Valid() && SelectionKnown(Now()) && query == ""
      ensures config == cfg
      ensures Now() == Initial(cfg, initial)
    {
      config := cfg;
      var all := Normalize(cfg, initial);
      items := all;
      filtered := all;
      selected := [];
      activeIndex := -1;
      isOpen := false;
      log := [];
      query := "";
      NormalizeSpec(cfg, initial);
      FilterItemsEmptyQuery(all);
    }

    /** `emitChange()` */
    method EmitChange()
      requires Valid()
      modifies this
      ensures Valid() && query == old(query)
      ensures Now() == Emitted(old(Now()), config.onChange)
    {
      var ids := selected;
      var raws := SelectedRaws(items, selected);
      if config.onChange.Some? {
        log := log + [OnChangeCall(config.onChange.value, raws)];
      }
      log := log + [Change(ids, raws)];
    }

    /** `openDropdown()` */
    method OpenDropdown()
      requires Valid()
      modifies this
      ensures Valid() && query == old(query)
      ensures Now() == Opened(old(Now()))
    {
      if isOpen {
        return;
      }
      isOpen := true;
      activeIndex := -1;
      log := log + [Open];
    }

    /** `closeDropdown()` */
    method CloseDropdown()
      requires Valid()
      modifies this
      ensures Valid() && query == old(query)
      ensures Now() == Closed(old(Now()))
    {
      if !isOpen {
        return;
      }
      isOpen := false;
      activeIndex := -1;
      log := log + [Close];
    }

    /** `toggleDropdown()` */
    method ToggleDropdown()
      requires Valid()
      modifies this
      ensures Valid() && query == old(query)
      ensures Now() == DropdownToggled(old(Now()))
    {
      if isOpen {
        CloseDropdown();
      } else {
        OpenDropdown();
      }
    }

    /** `toggleSelect(id)` */
    method ToggleSelect(id: string)
      requires Valid()
      modifies this
      ensures Valid() && query == old(query)
      ensures Now() == SelectToggled(old(Now()), Multi(), config.onChange, id)
      ensures old(SelectionKnown(Now())) && (id == "" || HasId(items, id)) ==> SelectionKnown(Now())
    {
      if id == "" {
        return;
      }
      ghost var before := Now();
      var already := id in selected;
      if Multi() {
        if already {
          selected := Delete(selected, id);
        } else {
          selected := Add(selected, id);
        }
        assert Now() == before.(selected := Toggled(before.selected, id, true));
      } else {
        selected := [];
        selected := Add(selected, id);
        assert Now() == before.(selected := Toggled(before.selected, id, false));
        CloseDropdown();
      }
      EmitChange();
    }

    /** `clearSelection()` */
    method ClearSelection()
      requires Valid()
      modifies this
      ensures Valid() && query == old(query)
      ensures Now() == SelectionCleared(old(Now()), config.onChange)
      ensures old(SelectionKnown(Now())) ==> SelectionKnown(Now())
    {
      if |selected| == 0 {
        return;
      }
      selected := [];
      EmitChange();
    }

    /** `applyFilter(term)` */
    method ApplyFilter(term: string)
      requires Valid()
      modifies this
      ensures Valid() && query == NormalizeQuery(term)
      ensures Now() == FilterApplied(old(Now()), term)
      ensures old(SelectionKnown(Now())) ==> SelectionKnown(Now())
    {
      ghost var before := Now();
      var q := ToLower(Trim(term));
      if q != "" {
        filtered := FilterItems(items, q);
      } else {
        filtered := items;
        FilterItemsEmptyQuery(items);
      }
      activeIndex := -1;
      query := q;
      log := log + [Search(q)];
      assert Now() == FilterApplied(before, term);
      assert Now().items == before.items && Now().selected == before.selected;
    }

    /** `moveActive(dom, state, step)`, whose index arithmetic is `NextIndex`; every caller passes 1 or -1. */
    method MoveActive(step: int)
      requires Valid()
      requires step == 1 || step == -1
      modifies this
      ensures Valid() && query == old(query)
      ensures Now() == Moved(old(Now()), step)
    {
      var count := |filtered|;
      if count == 0 {
        return;
      }
      activeIndex := NextIndex(activeIndex, step, count);
    }

    /** The returned `setItems(list)` */
    method SetItems(list: Option<seq<Raw>>)
      requires Valid()
      modifies this
      ensures Valid() && query == "" && SelectionKnown(Now())
      ensures Now() == ItemsReplaced(old(Now()), config, list)
    {
      var next := Normalize(config, list);
      items := next;
      filtered := next;
      selected := [];
      activeIndex := -1;
      query := "";
      NormalizeSpec(config, list);
      FilterItemsEmptyQuery(next);
      EmitChange();
    }

    /** The `value` getter: the selected ids in insertion order. */
    method Value() returns (ids: seq<string>)
      requires Valid()
      ensures ids == selected && NoDup(ids)
    {
      ids := selected;
    }

    /** The `value` setter; `ids` is `None` when it is not an array. */
    method SetValue(ids: Option<seq<JsValue>>)
      requires Valid()
      modifies this
      ensures Valid() && query == old(query) && SelectionKnown(Now())
      ensures Now() == ValueAssigned(old(Now()), config.onChange, ids)
    {
      selected := [];
      if ids.Some? {
        var list := ids.value;
        var k := 0;
        assert list[k..] == list;
        while k < |list|
          invariant 0 <= k <= |list|
          invariant SelectKnown(selected, list[k..], items) == SelectKnown([], list, items)
          invariant Now() == old(Now()).(selected := selected) && query == old(query)
        {
          var id := list[k];
          if id.Str? && HasId(items, id.s) {
            selected := Add(selected, id.s);
          }
          assert list[k..][1..] == list[k + 1..];
          k := k + 1;
        }
        SelectKnownSpec([], list, items);
      }
      EmitChange();
    }

    // -------------------------------------------------------------------------
    // The state-changing listeners that `bindEvents` installs

    /** A click on the control. */
    method ControlClick()
      requires Valid()
      modifies this
      ensures Valid() && query == old(query)
      ensures Now() == DropdownToggled(old(Now()))
    {
      ToggleDropdown();
    }

    /** A key pressed on the control. */
    method ControlKeyDown(key: string)
      requires Valid()
      modifies this
      ensures Valid() && query == old(query)
      ensures old(SelectionKnown(Now())) ==> SelectionKnown(Now())
      ensures key == "Enter" || key == " " ==> Now() == DropdownToggled(old(Now()))
      ensures key == "ArrowDown" && !old(isOpen) ==>
        Now() == Opened(old(Now())).(activeIndex := if |filtered| > 0 then 0 else -1)
      ensures key == "ArrowDown" && old(isOpen) ==> Now() == Moved(old(Now()), 1)
      ensures key == "ArrowUp" ==> Now() == if old(isOpen) then Moved(old(Now()), -1) else old(Now())
      ensures key == "Escape" ==> Now() == Closed(old(Now()))
      ensures key !in ["Enter", " ", "ArrowDown", "ArrowUp", "Escape"] ==> Now() == old(Now())
    {
      if key == "Enter" || key == " " {
        ToggleDropdown();
      } else if key == "ArrowDown" {
        if !isOpen {
          ToggleDropdown();
          if |filtered| > 0 {
            activeIndex := 0;
          }
        } else {
          MoveActive(1);
        }
      } else if key == "ArrowUp" {
        if isOpen {
          MoveActive(-1);
        }
      } else if key == "Escape" {
        CloseDropdown();
      }
    }

    /** Text typed into the search box. */
    method SearchInput(value: string)
      requires Valid()
      modifies this
      ensures Valid() && query == NormalizeQuery(value)
      ensures Now() == FilterApplied(old(Now()), value)
    {
      ApplyFilter(value);
    }

    /** A key pressed in the search box. */
    method SearchKeyDown(key: string)
      requires Valid()
      modifies this
      ensures Valid() && query == old(query)
      ensures old(SelectionKnown(Now())) ==> SelectionKnown(Now())
      ensures key == "ArrowDown" ==> Now() == Moved(old(Now()), 1)
      ensures key == "ArrowUp" ==> Now() == Moved(old(Now()), -1)
      ensures key == "Enter" && 0 <= old(activeIndex) < |old(filtered)| ==>
        Now() == SelectToggled(old(Now()), Multi(), config.onChange, old(filtered)[old(activeIndex)].id)
      ensures key == "Enter" && !(0 <= old(activeIndex) < |old(filtered)|) ==> Now() == old(Now())
      ensures key == "Escape" ==> Now() == Closed(old(Now()))
      ensures key !in ["ArrowDown", "ArrowUp", "Enter", "Escape"] ==> Now() == old(Now())
    {
      if key == "ArrowDown" {
        MoveActive(1);
      } else if key == "ArrowUp" {
        MoveActive(-1);
      } else if key == "Enter" {
        if activeIndex >= 0 && activeIndex < |filtered| {
          var item := filtered[activeIndex];
          assert item in items by {
            assert item in filtered;
          }
          ghost var at :| 0 <= at < |items| && items[at] == item;
          assert HasId(items, item.id);
          ToggleSelect(item.id);
        }
      } else if key == "Escape" {
        CloseDropdown();
      }
    }

    /** A click on the search box's clear button. */
    method SearchClearClick()
      requires Valid()
      modifies this
      ensures Valid() && query == ""
      ensures Now() == Closed(FilterApplied(old(Now()), ""))
    {
      ApplyFilter("");
      CloseDropdown();
    }

    /** A click on the control's clear button. */
    method ClearButtonClick()
      requires Valid()
      modifies this
      ensures Valid() && query == old(query)
      ensures Now() == Closed(SelectionCleared(old(Now()), config.onChange))
      ensures old(SelectionKnown(Now())) ==> SelectionKnown(Now())
    {
      ClearSelection();
      CloseDropdown();
    }

    /** A click on the row at `index` of the rendered list, which shows `filtered`. */
    method RowClick(index: nat)
      requires Valid()
      requires index < |filtered|
      modifies this
      ensures Valid() && query == old(query)
      ensures old(SelectionKnown(Now())) ==> SelectionKnown(Now())
      ensures var t := SelectToggled(old(Now()), Multi(), config.onChange, old(filtered)[index].id);
        Now() == if Multi() && t.isOpen then t.(activeIndex := index) else t
    {
      var item := filtered[index];
      ghost var t := SelectToggled(Now(), Multi(), config.onChange, item.id);
      assert item in items by {
        assert item in filtered;
      }
      ghost var at :| 0 <= at < |items| && items[at] == item;
      assert HasId(items, item.id);
      ToggleSelect(item.id);
      assert Now() == t && filtered == old(filtered);
      if Multi() && isOpen {
        activeIndex := index;
        assert Now() == t.(activeIndex := index);
      }
    }

    /** A click on the remove button of the `k`-th chip; the chips show the selected items. */
    method ChipRemoveClick(k: nat)
      requires Valid()
      requires k < |Filter(items, SelectedBy(selected))|
      modifies this
      ensures Valid() && query == old(query)
      ensures old(SelectionKnown(Now())) ==> SelectionKnown(Now())
      ensures Now() == SelectToggled(old(Now()), Multi(), config.onChange,
                                     Filter(old(items), SelectedBy(old(selected)))[k].id)
    {
      var chips := Filter(items, SelectedBy(selected));
      var item := chips[k];
      assert item in items;
      ToggleSelect(item.id);
    }

    /** A click anywhere in the document; `inside` when it hit the control or the dropdown. */
    method DocumentClick(inside: bool)
      requires Valid()
      modifies this
      ensures Valid() && query == old(query)
      ensures Now() == if old(isOpen) && !inside then Closed(old(Now())) else old(Now())
    {
      if isOpen && !inside {
        CloseDropdown();
      }
    }
  }

  /**
   * The `TypeError` `createDom` raises when `root` is a truthy primitive: assigning
   * `root.innerHTML` on a string, number or `true` throws in module (strict) code.
   * The message text depends on the engine.
   */
  const RootNotElement: string := "TypeError"

  /**
   * `createSmartSelect(options)`: fails with the configuration error when `root` is
   * missing, with a `TypeError` when it is a truthy primitive; otherwise a controller
   * over `normalize(options.items)`. An object root is taken to be a DOM element.
   */
  method CreateSmartSelect(options: Options) returns (r: Result<SmartSelect, string>)
    ensures r.Failure? <==> !options.root.Obj?
    ensures !Truthy(options.root) ==> r == Failure(RootRequired)
    ensures Truthy(options.root) && !options.root.Obj? ==> r == Failure(RootNotElement)
    ensures r.Success? ==>
      && fresh(r.value)
      && CreateConfig(options).Success?
      && r.value.config == CreateConfig(options).value
      && r.value.Valid()
      && r.value.Now() == Initial(r.value.config, options.items)
  {
    var cfg := CreateConfig(options);
    if cfg.Failure? {
      return Failure(cfg.error);
    }
    if !options.root.Obj? {
      return Failure(RootNotElement);
    }
    var select := new SmartSelect(cfg.value, options.items);
    return Success(select);
  }
}

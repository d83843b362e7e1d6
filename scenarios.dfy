/**
 * Client code driving the controller through the scenario of the repository's browser
 * test page: three records F1, F2 and F3, selecting in multi and single mode,
 * clearing and searching. Everything asserted here follows from the contracts alone.
 */
module Scenarios {
  import opened Wrappers
  import opened JsValues
  import opened JsStrings
  import opened Seqs
  import opened SmartConfig
  import opened Items
  import opened Search
  import opened Selection
  import opened Events
  import opened ControllerSpec
  import opened Controller

  const F1: Raw := map["id" := Str("F1"), "label" := Str("11111"), "type" := Str("TAG"), "currency" := Str("USD")]
  const F2: Raw := map["id" := Str("F2"), "label" := Str("AA2234"), "type" := Str("TAG"), "currency" := Str("USD")]
  const F3: Raw := map["id" := Str("F3"), "label" := Str("BBB1"), "type" := Str("TAG"), "currency" := Str("EUR")]

  /** The options of the test page: its accessors read `id`, `label` and `currency`. */
  function TestConfig(multi: bool): Config {
    Config(Obj, Str("Smart Select Test"), Str("Select"), Bool(multi),
           r => Get(r, "id"), r => Get(r, "label"), r => Get(r, "currency"), r => Obj, Some(1))
  }

  function ItemOf(id: string, raw: Raw): Item {
    Item(id, Get(raw, "label"), Get(raw, "currency"), Obj, raw)
  }

  /** All three records survive normalization, in order. */
  lemma TestItems(multi: bool)
    ensures Normalize(TestConfig(multi), Some([F1, F2, F3])) == [ItemOf("F1", F1), ItemOf("F2", F2), ItemOf("F3", F3)]
  {
    var cfg := TestConfig(multi);
    var m := Mapped(cfg, [F1, F2, F3]);
    assert m == [ItemOf("F1", F1), ItemOf("F2", F2), ItemOf("F3", F3)];
    FilterAll(m, Keep);
  }

  /** A text without `b` or `B` lower-cases to a text that does not contain "bbb1". */
  lemma NoMatchWithoutB(s: string)
    requires 'b' !in s && 'B' !in s
    ensures !Contains(ToLower(s), "bbb1")
  {
    assert 'b' !in ToLower(s) by {
      forall i | 0 <= i < |s| ensures ToLower(s)[i] != 'b' {
        assert s[i] in s;
      }
    }
    ContainsNeedsFirstChar(ToLower(s), "bbb1");
  }

  lemma TrimOfBBB1()
    ensures Trim("BBB1") == "BBB1"
  {
    assert TrimStart("BBB1") == "BBB1";
  }

  lemma LowerOfBBB1()
    ensures ToLower("BBB1") == "bbb1"
  {
  }

  /** The search input's "BBB1" becomes the query "bbb1". */
  lemma QueryOfBBB1()
    ensures NormalizeQuery("BBB1") == "bbb1"
  {
    TrimOfBBB1();
    LowerOfBBB1();
  }

  /** F1 matches "bbb1" in none of its id, label and subtitle. */
  lemma F1MissesBBB1()
    ensures !Matches(ItemOf("F1", F1), "bbb1")
  {
    var f1 := ItemOf("F1", F1);
    assert f1.labelValue == Str("11111") && f1.subtitle == Str("USD");
    NoMatchWithoutB("F1");
    NoMatchWithoutB("11111");
    NoMatchWithoutB("USD");
  }

  /** Neither does F2. */
  lemma F2MissesBBB1()
    ensures !Matches(ItemOf("F2", F2), "bbb1")
  {
    var f2 := ItemOf("F2", F2);
    assert f2.labelValue == Str("AA2234") && f2.subtitle == Str("USD");
    NoMatchWithoutB("F2");
    NoMatchWithoutB("AA2234");
    NoMatchWithoutB("USD");
  }

  /** F3 matches through its label. */
  lemma F3MatchesBBB1()
    ensures Matches(ItemOf("F3", F3), "bbb1")
  {
    assert ItemOf("F3", F3).labelValue == Str("BBB1");
    LowerOfBBB1();
  }

  /** Typing "BBB1" in the search input leaves only F3 in the list. */
  lemma SearchFindsF3()
    ensures NormalizeQuery("BBB1") == "bbb1"
    ensures FilterItems([ItemOf("F1", F1), ItemOf("F2", F2), ItemOf("F3", F3)], "bbb1") == [ItemOf("F3", F3)]
  {
    QueryOfBBB1();
    F1MissesBBB1();
    F2MissesBBB1();
    F3MatchesBBB1();
    var f1, f2, f3 := ItemOf("F1", F1), ItemOf("F2", F2), ItemOf("F3", F3);
    var p := MatchesQuery("bbb1");
    assert Filter([f3], p) == [f3];
    assert Filter([f2, f3], p) == [f3] by { assert [f2, f3][1..] == [f3]; }
    assert [f1, f2, f3][1..] == [f2, f3];
  }

  /** A control over the three test records, opened by a click on the control. */
  method OpenTestControl(multi: bool) returns (s: SmartSelect)
    ensures fresh(s)
    ensures s.Valid() && s.Multi() == multi && s.query == ""
    ensures s.isOpen && s.selected == [] && s.activeIndex == -1
    ensures s.filtered == s.items == TestItemList()
    ensures s.config == TestConfig(multi) && s.log == [Open]
  {
    s := new SmartSelect(TestConfig(multi), Some([F1, F2, F3]));
    TestItems(multi);
    s.ControlClick();
  }

  function TestItemList(): seq<Item> {
    [ItemOf("F1", F1), ItemOf("F2", F2), ItemOf("F3", F3)]
  }

  /** In multi mode, clicking the row of an unselected item appends its id and keeps the list open. */
  method ClickToAdd(s: SmartSelect, index: nat)
    requires s.Valid() && s.Multi() && s.isOpen
    requires index < |s.filtered| && s.filtered[index].id !in s.selected
    modifies s
    ensures s.Valid() && s.query == old(s.query) && s.isOpen
    ensures s.items == old(s.items) && s.filtered == old(s.filtered)
    ensures s.selected == old(s.selected) + [old(s.filtered)[index].id]
    ensures s.log == old(s.log) + ChangeNotice(s.config.onChange, s.items, s.selected)
  {
    s.RowClick(index);
  }

  /** Clicking the first row and then the second selects F1 and F2 and keeps the list open. */
  method SelectFirstTwo(s: SmartSelect)
    requires s.Valid() && s.Multi() && s.query == ""
    requires s.isOpen && s.selected == [] && s.filtered == s.items == TestItemList()
    modifies s
    ensures s.Valid() && s.query == ""
    ensures s.isOpen && s.selected == ["F1", "F2"] && s.filtered == s.items == TestItemList()
  {
    assert s.filtered[0].id == "F1" && s.filtered[1].id == "F2";
    ClickToAdd(s, 0);
    assert s.selected == ["F1"];
    assert "F2" !in ["F1"] by { assert "F2"[1] != "F1"[1]; }
    ClickToAdd(s, 1);
    assert s.selected == ["F1"] + ["F2"];
  }

  /** The remove button of the first chip, which shows F1, leaves F2 alone selected. */
  method RemoveFirstChip(s: SmartSelect)
    requires s.Valid() && s.Multi() && s.query == ""
    requires s.selected == ["F1", "F2"] && s.filtered == s.items == TestItemList()
    modifies s
    ensures s.Valid() && s.query == ""
    ensures s.selected == ["F2"] && s.filtered == s.items == TestItemList()
  {
    var p := SelectedBy(s.selected);
    var f1, f2, f3 := ItemOf("F1", F1), ItemOf("F2", F2), ItemOf("F3", F3);
    assert p(f1) && p(f2);
    assert Filter(s.items, p)[0] == f1 by {
      assert s.items[0] == f1;
    }
    s.ChipRemoveClick(0);
    assert "F1" in ["F1", "F2"];
    assert s.selected == Delete(["F1", "F2"], "F1");
    assert ["F1", "F2"][1..] == ["F2"];
    assert Filter(["F2"], Other("F1")) == ["F2"] by {
      assert "F2" != "F1" by { assert "F2"[1] != "F1"[1]; }
    }
  }

  /** Selecting F1 calls `onChange` with the record F1, then dispatches `change` with it. */
  lemma FirstSelectionNotice()
    ensures ChangeNotice(Some(1), TestItemList(), ["F1"]) == [OnChangeCall(1, [F1]), Change(["F1"], [F1])]
  {
    var f1, f2, f3 := ItemOf("F1", F1), ItemOf("F2", F2), ItemOf("F3", F3);
    var p := SelectedBy(["F1"]);
    assert !p(f2) by { assert "F2" != "F1" by { assert "F2"[1] != "F1"[1]; } }
    assert !p(f3) by { assert "F3" != "F1" by { assert "F3"[1] != "F1"[1]; } }
    assert Filter([f3], p) == [];
    assert Filter([f2, f3], p) == [] by { assert [f2, f3][1..] == [f3]; }
    assert Filter([f1, f2, f3], p) == [f1] by { assert [f1, f2, f3][1..] == [f2, f3]; }
    assert SelectedRaws(TestItemList(), ["F1"]) == [F1];
  }

  /** The first row click calls the test page's `onChange` with `[F1]` right after `open`. */
  method FirstClickCallsOnChange() {
    var s := OpenTestControl(true);
    ClickToAdd(s, 0);
    assert s.selected == ["F1"];
    FirstSelectionNotice();
    assert s.log == [Open, OnChangeCall(1, [F1]), Change(["F1"], [F1])];
  }

  method MultiSelectScenario() {
    var s := OpenTestControl(true);
    SelectFirstTwo(s);
    var v := s.Value();
    assert v == ["F1", "F2"];

    RemoveFirstChip(s);
    v := s.Value();
    assert v == ["F2"];

    s.ClearButtonClick();
    v := s.Value();
    assert v == [] && !s.isOpen;

    s.ControlClick();
    s.SearchInput("BBB1");
    SearchFindsF3();
    assert s.filtered == [ItemOf("F3", F3)] && s.activeIndex == -1;

    s.SearchClearClick();
    FilterItemsEmptyQuery(s.items);
    assert |s.filtered| == 3 && !s.isOpen;
  }

  method SingleSelectScenario() {
    var s := OpenTestControl(false);
    s.RowClick(0);
    assert !s.isOpen;
    s.ControlClick();
    s.RowClick(1);
    var v := s.Value();
    assert v == ["F2"] && !s.isOpen;
  }
}

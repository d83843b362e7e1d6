/**
 * The Change Notifier and the notification log. Every `smart-select:*` event the control
 * dispatches, and every call of the configured `onChange`, is appended to a log.
 */
module Events {
  import opened Wrappers
  import opened JsValues
  import opened Seqs
  import opened Items

  datatype Event =
    | Open
    | Close
    | Search(query: string)
    | Change(value: seq<string>, items: seq<Raw>)
    | OnChangeCall(callback: nat, items: seq<Raw>)

  predicate IsChange(e: Event) {
    e.Change?
  }

  /** The `change` events of a log. */
  function Changes(log: seq<Event>): seq<Event> {
    Filter(log, IsChange)
  }

  function SelectedBy(selected: seq<string>): Item -> bool {
    (item: Item) => item.id in selected
  }

  /** `items.filter(item => selected.has(item.id)).map(item => item.raw)` */
  function SelectedRaws(items: seq<Item>, selected: seq<string>): (r: seq<Raw>)
    ensures |r| <= |items|
  {
    var kept := Filter(items, SelectedBy(selected));
    seq(|kept|, k requires 0 <= k < |kept| => kept[k].raw)
  }

  /**
   * The payload's records are the raw records of the selected items, in `items` order
   * (not in selection order): position `k` holds the record of the `k`-th selected item.
   */
  lemma SelectedRawsSpec(items: seq<Item>, selected: seq<string>)
    ensures var r, ix := SelectedRaws(items, selected), KeptIndices(items, SelectedBy(selected), 0);
      && |r| == |ix|
      && (forall k :: 0 <= k < |ix| ==> ix[k] < |items| && r[k] == items[ix[k]].raw)
      && (forall k, l :: 0 <= k < l < |ix| ==> ix[k] < ix[l])
      && (forall j :: 0 <= j < |items| ==> (j in ix <==> items[j].id in selected))
  {
    FilterByIndices(items, SelectedBy(selected), 0);
    assert items[0..] == items;
  }

  /** An empty selection has an empty payload. */
  lemma SelectedRawsEmpty(items: seq<Item>)
    ensures SelectedRaws(items, []) == []
  {
    FilterNone(items, SelectedBy([]));
  }

  /**
   * What `emitChange()` appends: the `onChange` call when a callback is configured, then
   * the `change` event carrying the ids in selection order and the records in item order.
   */
  function ChangeNotice(onChange: Option<nat>, items: seq<Item>, selected: seq<string>): (r: seq<Event>)
    ensures |Changes(r)| == 1
    ensures Changes(r) == [Change(selected, SelectedRaws(items, selected))]
    ensures r[|r| - 1] == Change(selected, SelectedRaws(items, selected))
    ensures forall e :: e in r ==> e.Change? || e.OnChangeCall?
    ensures onChange.Some? ==> |r| == 2 && r[0] == OnChangeCall(onChange.value, SelectedRaws(items, selected))
    ensures onChange.None? ==> |r| == 1
  {
    var raws := SelectedRaws(items, selected);
    var call := if onChange.Some? then [OnChangeCall(onChange.value, raws)] else [];
    FilterConcat(call, [Change(selected, raws)], IsChange);
    call + [Change(selected, raws)]
  }

  /** Appending events that are not `change` events adds no `change` event. */
  lemma NoNewChanges(log: seq<Event>, more: seq<Event>)
    requires forall e :: e in more ==> !e.Change?
    ensures Changes(log + more) == Changes(log)
  {
    FilterConcat(log, more, IsChange);
    FilterNone(more, IsChange);
  }

  /** Appending a change notice adds exactly one `change` event. */
  lemma OneNewChange(log: seq<Event>, onChange: Option<nat>, items: seq<Item>, selected: seq<string>)
    ensures |Changes(log + ChangeNotice(onChange, items, selected))| == |Changes(log)| + 1
  {
    FilterConcat(log, ChangeNotice(onChange, items, selected), IsChange);
  }
}

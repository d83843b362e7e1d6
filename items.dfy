/**
 * The Item Store's normalization: `normalize` maps every raw record through the
 * configured accessors and then drops the entries without an id or a label.
 */
module Items {
  import opened Wrappers
  import opened JsValues
  import opened Seqs
  import opened SmartConfig

  /**
   * A normalized item. Only the id is coerced to a string; the label, subtitle and
   * meta are whatever the accessors returned.
   */
  datatype Item = Item(id: string, labelValue: JsValue, subtitle: JsValue, meta: JsValue, raw: Raw)

  /** `baseId != null && baseId !== ""` fails: the accessor gave null, undefined or "". */
  predicate IdMissing(baseId: JsValue) {
    baseId.Undefined? || baseId.Null? || baseId == Str("")
  }

  /** The positional fallback id of the entry at `index`. */
  function FallbackId(index: nat): string {
    "ss-" + NatToString(index)
  }

  /** The id of the entry at `index` whose accessor returned `baseId`. */
  function ItemId(baseId: JsValue, index: nat): (id: string)
    ensures id != ""
    ensures IdMissing(baseId) ==> id == FallbackId(index)
    ensures !IdMissing(baseId) ==> id == ToJsString(baseId)
  {
    if !IdMissing(baseId) then ToJsString(baseId) else FallbackId(index)
  }

  /** Fallback ids of different positions differ. */
  lemma FallbackIdsDistinct(i: nat, j: nat)
    requires i != j
    ensures FallbackId(i) != FallbackId(j)
  {
    if FallbackId(i) == FallbackId(j) {
      assert FallbackId(i)[3..] == NatToString(i);
      assert FallbackId(j)[3..] == NatToString(j);
      NatToStringInjective(i, j);
    }
  }

  /** The mapping step for the record at `index`. */
  function MakeItem(cfg: Config, raw: Raw, index: nat): Item {
    Item(ItemId(cfg.getId(raw), index), cfg.getLabel(raw), cfg.getSubtitle(raw), cfg.getMeta(raw), raw)
  }

  /** The filtering step `i => i.id && i.label`. */
  predicate Keep(item: Item) {
    item.id != "" && Truthy(item.labelValue)
  }

  /** Every item has a non-empty id and a truthy label. */
  ghost predicate WellFormed(items: seq<Item>) {
    forall k :: 0 <= k < |items| ==> Keep(items[k])
  }

  /** `Array.isArray(data) ? data : []` */
  function AsArray(data: Option<seq<Raw>>): seq<Raw> {
    if data.Some? then data.value else []
  }

  /** `.map((item, index) => ...)` */
  function Mapped(cfg: Config, raws: seq<Raw>): seq<Item> {
    seq(|raws|, i requires 0 <= i < |raws| => MakeItem(cfg, raws[i], i))
  }

  /** `normalize(data)`: map, then keep the entries with an id and a label. */
  function Normalize(cfg: Config, data: Option<seq<Raw>>): seq<Item> {
    Filter(Mapped(cfg, AsArray(data)), Keep)
  }

  /**
   * What `Normalize` returns: never more entries than it was given, every entry well
   * formed, and exactly the records whose label is truthy, in their original order, each
   * built from its original position (which is where a fallback id's number comes from).
   */
  lemma NormalizeSpec(cfg: Config, data: Option<seq<Raw>>)
    ensures var raws, r := AsArray(data), Normalize(cfg, data);
      var ix := KeptIndices(Mapped(cfg, raws), Keep, 0);
      && |r| <= |raws|
      && WellFormed(r)
      && |r| == |ix|
      && (forall k :: 0 <= k < |ix| ==> ix[k] < |raws| && r[k] == MakeItem(cfg, raws[ix[k]], ix[k]))
      && (forall k, l :: 0 <= k < l < |ix| ==> ix[k] < ix[l])
      && (forall j :: 0 <= j < |raws| ==> (j in ix <==> Truthy(cfg.getLabel(raws[j]))))
  {
    var raws := AsArray(data);
    var m := Mapped(cfg, raws);
    var r := Normalize(cfg, data);
    FilterByIndices(m, Keep, 0);
    assert m[0..] == m;
    forall j | 0 <= j < |raws| ensures Keep(m[j]) <==> Truthy(cfg.getLabel(raws[j])) {
      assert m[j] == MakeItem(cfg, raws[j], j);
    }
    forall k | 0 <= k < |r| ensures Keep(r[k]) {
    }
  }

  /** An item whose accessor gave no usable id carries the fallback id of its original position. */
  lemma NormalizeFallbackId(cfg: Config, data: Option<seq<Raw>>, k: nat)
    requires k < |Normalize(cfg, data)|
    ensures var raws, ix := AsArray(data), KeptIndices(Mapped(cfg, AsArray(data)), Keep, 0);
      && k < |ix| && ix[k] < |raws|
      && (IdMissing(cfg.getId(raws[ix[k]])) ==> Normalize(cfg, data)[k].id == FallbackId(ix[k]))
  {
    NormalizeSpec(cfg, data);
  }

  /** `items.some(i => i.id === id)` */
  predicate HasId(items: seq<Item>, id: string) {
    exists k :: 0 <= k < |items| && items[k].id == id
  }
}

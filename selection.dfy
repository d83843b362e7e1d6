/**
 * Selection State: the selected ids as a JavaScript `Set`, i.e. a duplicate-free
 * sequence in insertion order, and the selection policies of `toggleSelect` and of the
 * `value` setter.
 */
module Selection {
  import opened JsValues
  import opened Seqs
  import opened Items

  /** `set.add(x)`: appends `x` unless it is already there. */
  function Add(s: seq<string>, x: string): (r: seq<string>)
    ensures NoDup(s) ==> NoDup(r)
    ensures s <= r && |r| <= |s| + 1
    ensures forall y :: y in r <==> y in s || y == x
  {
    if x in s then s else s + [x]
  }

  function Other(x: string): string -> bool {
    (y: string) => y != x
  }

  /** `set.delete(x)`: removes `x`, keeping the others in their order. */
  function Delete(s: seq<string>, x: string): (r: seq<string>)
    ensures NoDup(s) ==> NoDup(r)
    ensures forall y :: y in r <==> y in s && y != x
    ensures x !in s ==> r == s
    ensures NoDup(s) && x in s ==> exists k :: 0 <= k < |s| && s[k] == x && r == s[..k] + s[k + 1..]
  {
    FilterNoDup(s, Other(x));
    FilterOther(s, x);
    Filter(s, Other(x))
  }

  /**
   * Filtering out an absent `x` changes nothing; in a duplicate-free sequence, filtering
   * out a present `x` cuts out exactly its one occurrence.
   */
  lemma FilterOther(s: seq<string>, x: string)
    ensures x !in s ==> Filter(s, Other(x)) == s
    ensures NoDup(s) && x in s ==> exists k :: 0 <= k < |s| && s[k] == x && Filter(s, Other(x)) == s[..k] + s[k + 1..]
  {
    if x !in s {
      forall k | 0 <= k < |s| ensures Other(x)(s[k]) {
        assert s[k] in s;
      }
      FilterAll(s, Other(x));
    } else if NoDup(s) {
      var k :| 0 <= k < |s| && s[k] == x;
      FilterCutsAt(s, x, k);
    }
  }

  /** Filtering out the id at position `k` of a duplicate-free sequence removes that position only. */
  lemma FilterCutsAt(s: seq<string>, x: string, k: nat)
    requires NoDup(s) && k < |s| && s[k] == x
    ensures Filter(s, Other(x)) == s[..k] + s[k + 1..]
  {
    var a, b := s[..k], s[k + 1..];
    assert s == a + ([x] + b);
    FilterConcat(a, [x] + b, Other(x));
    assert ([x] + b)[1..] == b;
    assert Filter([x] + b, Other(x)) == Filter(b, Other(x));
    forall i | 0 <= i < |a| ensures Other(x)(a[i]) {
      assert a[i] == s[i];
    }
    forall i | 0 <= i < |b| ensures Other(x)(b[i]) {
      assert b[i] == s[k + 1 + i];
    }
    FilterAll(a, Other(x));
    FilterAll(b, Other(x));
  }

  /** Adding an id that was absent and deleting it again gives back the same set, in the same order. */
  lemma DeleteUndoesAdd(s: seq<string>, x: string)
    requires x !in s
    ensures Delete(Add(s, x), x) == s
  {
    FilterConcat(s, [x], Other(x));
    FilterOther(s, x);
  }

  /**
   * The selection `toggleSelect(id)` leaves: unchanged for a falsy id; in multi mode
   * `id`'s membership flips; in single mode the selection becomes exactly `id`.
   */
  function Toggled(s: seq<string>, id: string, multi: bool): seq<string> {
    if id == "" then s
    else if multi then (if id in s then Delete(s, id) else Add(s, id))
    else [id]
  }

  /** In multi mode a toggle flips `id` and leaves every other member as it was. */
  lemma ToggledMulti(s: seq<string>, id: string)
    requires id != ""
    ensures id in Toggled(s, id, true) <==> id !in s
    ensures forall y :: y != id ==> (y in Toggled(s, id, true) <==> y in s)
  {
  }

  /** Every toggle keeps the selection duplicate-free. */
  lemma ToggledNoDup(s: seq<string>, id: string, multi: bool)
    requires NoDup(s)
    ensures NoDup(Toggled(s, id, multi))
  {
  }

  /** Toggling an absent id twice in multi mode restores the selection exactly. */
  lemma ToggledTwiceRestores(s: seq<string>, id: string)
    requires id !in s
    ensures Toggled(Toggled(s, id, true), id, true) == s
  {
    if id != "" {
      assert id in Add(s, id);
      DeleteUndoesAdd(s, id);
    }
  }

  /** The selection after toggling each of `ids` in turn. */
  function ToggledAll(s: seq<string>, ids: seq<string>, multi: bool): seq<string>
    decreases |ids|
  {
    if ids == [] then s else ToggledAll(Toggled(s, ids[0], multi), ids[1..], multi)
  }

  /** In single mode no sequence of toggles selects more than one id. */
  lemma {:induction false} SingleModeAtMostOne(s: seq<string>, ids: seq<string>)
    requires |s| <= 1
    ensures |ToggledAll(s, ids, false)| <= 1
    decreases |ids|
  {
    if ids != [] {
      SingleModeAtMostOne(Toggled(s, ids[0], false), ids[1..]);
    }
  }

  /** One step of the `value` setter's loop: add `v` if it is the id of some item. */
  function AddIfKnown(s: seq<string>, v: JsValue, items: seq<Item>): seq<string> {
    if v.Str? && HasId(items, v.s) then Add(s, v.s) else s
  }

  /** What the `value` setter's loop leaves in the selection, starting from `s`. */
  function SelectKnown(s: seq<string>, ids: seq<JsValue>, items: seq<Item>): seq<string>
    decreases |ids|
  {
    if ids == [] then s else SelectKnown(AddIfKnown(s, ids[0], items), ids[1..], items)
  }

  /**
   * The `value` setter keeps exactly the given ids that are ids of items, without
   * duplicates, after what was already there.
   */
  lemma {:induction false} SelectKnownSpec(s: seq<string>, ids: seq<JsValue>, items: seq<Item>)
    requires NoDup(s)
    ensures var r := SelectKnown(s, ids, items);
      && NoDup(r)
      && s <= r
      && (forall x :: x in r <==> x in s || (Str(x) in ids && HasId(items, x)))
    decreases |ids|
  {
    if ids != [] {
      var s' := AddIfKnown(s, ids[0], items);
      SelectKnownSpec(s', ids[1..], items);
      var r := SelectKnown(s, ids, items);
      forall x ensures x in r <==> x in s || (Str(x) in ids && HasId(items, x)) {
        assert Str(x) in ids <==> Str(x) == ids[0] || Str(x) in ids[1..];
      }
    }
  }

  /** `x` occurs in `r` before `y`. */
  predicate InOrder(r: seq<string>, x: string, y: string) {
    exists i, j :: 0 <= i < j < |r| && r[i] == x && r[j] == y
  }

  /** Known ids are kept in the order of their first appearance in the input. */
  lemma {:induction false} SelectKnownOrder(s: seq<string>, ids: seq<JsValue>, items: seq<Item>, a: nat, b: nat)
    requires NoDup(s)
    requires a < b < |ids| && ids[a].Str? && ids[b].Str?
    requires HasId(items, ids[a].s) && HasId(items, ids[b].s)
    requires ids[a].s !in s && ids[b].s !in s
    requires ids[a] !in ids[..a] && ids[b] !in ids[..b]
    ensures InOrder(SelectKnown(s, ids, items), ids[a].s, ids[b].s)
    decreases |ids|
  {
    if a == 0 {
      SelectKnownOrderFirst(s, ids, items, b);
    } else {
      var s' := AddIfKnown(s, ids[0], items);
      assert SelectKnown(s, ids, items) == SelectKnown(s', ids[1..], items);
      OrderPremisesShift(s, ids, items, a, b);
      SelectKnownOrder(s', ids[1..], items, a - 1, b - 1);
    }
  }

  /** The premises of `SelectKnownOrder` carry over to the rest of the input after its first id. */
  lemma OrderPremisesShift(s: seq<string>, ids: seq<JsValue>, items: seq<Item>, a: nat, b: nat)
    requires NoDup(s)
    requires 0 < a < b < |ids| && ids[a].Str? && ids[b].Str?
    requires ids[a].s !in s && ids[b].s !in s
    requires ids[a] !in ids[..a] && ids[b] !in ids[..b]
    ensures var s', rest := AddIfKnown(s, ids[0], items), ids[1..];
      && NoDup(s')
      && rest[a - 1] == ids[a] && rest[b - 1] == ids[b]
      && ids[a].s !in s' && ids[b].s !in s'
      && rest[a - 1] !in rest[..a - 1] && rest[b - 1] !in rest[..b - 1]
  {
    var rest := ids[1..];
    assert rest[..a - 1] == ids[..a][1..];
    assert rest[..b - 1] == ids[..b][1..];
    assert ids[0] in ids[..a] && ids[0] in ids[..b];
  }

  /** The case of `SelectKnownOrder` where the earlier id is the first of the input. */
  lemma SelectKnownOrderFirst(s: seq<string>, ids: seq<JsValue>, items: seq<Item>, b: nat)
    requires NoDup(s)
    requires 0 < b < |ids| && ids[0].Str? && ids[b].Str?
    requires HasId(items, ids[0].s) && HasId(items, ids[b].s)
    requires ids[0].s !in s && ids[b].s !in s
    requires ids[b] !in ids[..b]
    ensures InOrder(SelectKnown(s, ids, items), ids[0].s, ids[b].s)
  {
    var s' := AddIfKnown(s, ids[0], items);
    assert s' == s + [ids[0].s];
    SelectKnownSpec(s', ids[1..], items);
    var r := SelectKnown(s, ids, items);
    assert r == SelectKnown(s', ids[1..], items);
    assert ids[b] != ids[0] by { assert ids[0] in ids[..b]; }
    assert ids[b].s !in s';
    assert Str(ids[b].s) in ids[1..] by { assert ids[1..][b - 1] == ids[b]; }
    var j :| 0 <= j < |r| && r[j] == ids[b].s;
    var i := |s|;
    assert r[i] == s'[i] == ids[0].s;
    assert i < j by {
      forall k | 0 <= k < |s'| ensures r[k] != ids[b].s {
        assert r[k] == s'[k];
      }
    }
    assert 0 <= i < j < |r| && r[i] == ids[0].s && r[j] == ids[b].s;
  }
}

/** The Filter Engine: the query `applyFilter` derives from a term, and the items it keeps. */
module Search {
  import opened JsValues
  import opened JsStrings
  import opened Seqs
  import opened Items

  /** `term.trim().toLowerCase()` */
  function NormalizeQuery(term: string): string {
    ToLower(Trim(term))
  }

  /** Normalizing a query that is already normalized changes nothing. */
  lemma NormalizeQueryIdempotent(term: string)
    ensures NormalizeQuery(NormalizeQuery(term)) == NormalizeQuery(term)
  {
    var t := Trim(term);
    var q := ToLower(t);
    TrimIsInnerSlice(term);
    assert IsTrimmed(t);
    if q != [] {
      LowerCharKeepsWhiteSpace(t[0]);
      LowerCharKeepsWhiteSpace(t[|t| - 1]);
    }
    TrimmedIsFixed(q);
    ToLowerIdempotent(t);
  }

  /** The lower-cased text one of an item's fields is searched in. */
  function SearchText(v: JsValue): string {
    ToLower(ToJsString(v))
  }

  /** Whether the lower-cased id, label or subtitle (empty when falsy) contains `q`. */
  predicate Matches(item: Item, q: string) {
    || Contains(SearchText(Str(item.id)), q)
    || Contains(SearchText(item.labelValue), q)
    || Contains(SearchText(if Truthy(item.subtitle) then item.subtitle else Str("")), q)
  }

  function MatchesQuery(q: string): Item -> bool {
    (item: Item) => Matches(item, q)
  }

  /** The items matching `q`, in `items` order. */
  function FilterItems(items: seq<Item>, q: string): seq<Item> {
    Filter(items, MatchesQuery(q))
  }

  /**
   * `FilterItems` keeps exactly the matching items, in order: its result is the
   * subsequence of `items` at the ascending positions whose item matches.
   */
  lemma FilterItemsSpec(items: seq<Item>, q: string)
    ensures var r, ix := FilterItems(items, q), KeptIndices(items, MatchesQuery(q), 0);
      && |r| <= |items|
      && (forall it :: it in r <==> it in items && Matches(it, q))
      && |r| == |ix|
      && (forall k :: 0 <= k < |ix| ==> ix[k] < |items| && r[k] == items[ix[k]])
      && (forall k, l :: 0 <= k < l < |ix| ==> ix[k] < ix[l])
      && (forall j :: 0 <= j < |items| ==> (j in ix <==> Matches(items[j], q)))
  {
    FilterByIndices(items, MatchesQuery(q), 0);
    assert items[0..] == items;
  }

  /** Every item matches the empty query, so filtering by it keeps `items` as they are. */
  lemma FilterItemsEmptyQuery(items: seq<Item>)
    ensures FilterItems(items, "") == items
  {
    forall k | 0 <= k < |items| ensures MatchesQuery("")(items[k]) {
      assert "" <= SearchText(Str(items[k].id));
    }
    FilterAll(items, MatchesQuery(""));
  }

  /** The items matching `q` also match every part of `q` that starts it. */
  lemma FilterItemsNarrows(items: seq<Item>, q: string, q': string)
    requires q' <= q
    ensures forall it :: it in FilterItems(items, q) ==> it in FilterItems(items, q')
  {
    forall it | it in FilterItems(items, q) ensures it in FilterItems(items, q') {
      assert Matches(it, q);
      ContainsPrefix(SearchText(Str(it.id)), q, q');
      ContainsPrefix(SearchText(it.labelValue), q, q');
      ContainsPrefix(SearchText(if Truthy(it.subtitle) then it.subtitle else Str("")), q, q');
    }
  }

  lemma {:induction false} ContainsPrefix(text: string, q: string, q': string)
    requires q' <= q
    ensures Contains(text, q) ==> Contains(text, q')
  {
    if text != [] && !(q <= text) {
      ContainsPrefix(text[1..], q, q');
    }
  }
}

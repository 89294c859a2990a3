/**
 Two list algorithms of an agent run: resolving context items by placeholder and index
 list, and merging the items that tools retrieved into the run's retrieved context.
 */
module RetrievedContext {
  import opened Options

  /** A context item of the request; an empty item_id counts as absent. */
  datatype Requested = Requested(itemId: string, text: Option<string>)

  datatype Resolved = ByValue(text: string) | ByReference(id: string, body: string)

  /** What one requested item resolves to, if anything. */
  function ResolveOne(item: Requested, table: map<string, string>): Option<Resolved> {
    if item.itemId != "" then
      if item.itemId in table then Some(ByReference(item.itemId, table[item.itemId])) else None
    else if item.text.Some? then Some(ByValue(item.text.value))
    else None
  }

  function ResolveAll(items: seq<Requested>, table: map<string, string>): seq<Resolved> {
    if items == [] then [] else
      var last := ResolveOne(items[|items| - 1], table);
      ResolveAll(items[..|items| - 1], table) + (if last.Some? then [last.value] else [])
  }

  /**
   A request item with an id is looked up by it and dropped if it is unknown, whatever text it
   has; one without an id gives its text, if it has any.
   */
  lemma ResolveOneSays(item: Requested, table: map<string, string>)
    ensures item.itemId != "" && item.itemId in table ==>
      ResolveOne(item, table) == Some(ByReference(item.itemId, table[item.itemId]))
    ensures item.itemId != "" && item.itemId !in table ==> ResolveOne(item, table) == None
    ensures item.itemId == "" ==>
      ResolveOne(item, table) == if item.text.Some? then Some(ByValue(item.text.value)) else None
  {
  }

  /** Items resolve one by one, in order. */
  lemma {:induction false} ResolvedConcat(a: seq<Requested>, b: seq<Requested>, table: map<string, string>)
    ensures ResolveAll(a + b, table) == ResolveAll(a, table) + ResolveAll(b, table)
    ensures |a| == 1 ==>
      ResolveAll(a, table) == if ResolveOne(a[0], table).Some? then [ResolveOne(a[0], table).value] else []
  {
    if |a| == 1 { assert a[..0] == []; }
    if b == [] {
      assert a + b == a;
    } else {
      assert (a + b)[..|a + b| - 1] == a + b[..|b| - 1];
      ResolvedConcat(a, b[..|b| - 1], table);
    }
  }

  /** The values of the filled slots, in order. */
  function Filled(slots: seq<Option<Resolved>>): seq<Resolved> {
    if slots == [] then [] else
      var last := slots[|slots| - 1];
      Filled(slots[..|slots| - 1]) + (if last.Some? then [last.value] else [])
  }

  lemma {:induction false} FilledIsResolved(slots: seq<Option<Resolved>>, items: seq<Requested>,
                                            table: map<string, string>)
    requires |slots| == |items|
    requires forall k :: 0 <= k < |items| ==> slots[k] == ResolveOne(items[k], table)
    ensures Filled(slots) == ResolveAll(items, table)
  {
    if slots != [] {
      FilledIsResolved(slots[..|slots| - 1], items[..|items| - 1], table);
    }
  }

  /** The places of the by-reference items: in order, and all of them. */
  ghost predicate Indexes(items: seq<Requested>, n: nat, byRefIndices: seq<nat>, itemIds: seq<string>)
    requires n <= |items|
  {
    && |byRefIndices| == |itemIds|
    && (forall j :: 0 <= j < |byRefIndices| ==>
          byRefIndices[j] < n && items[byRefIndices[j]].itemId == itemIds[j] != "")
    && (forall j, k :: 0 <= j < k < |byRefIndices| ==> byRefIndices[j] < byRefIndices[k])
    && (forall k :: 0 <= k < n && items[k].itemId != "" ==> k in byRefIndices)
  }

  /** The first loop: texts are resolved at once, references leave a placeholder. */
  method Place(items: seq<Requested>, resolved: array<Option<Resolved>>, table: map<string, string>)
    returns (byRefIndices: seq<nat>, itemIds: seq<string>)
    requires resolved.Length == |items|
    modifies resolved
    ensures Indexes(items, |items|, byRefIndices, itemIds)
    ensures forall k :: 0 <= k < |items| ==>
      resolved[k] == if items[k].itemId != "" then None else ResolveOne(items[k], table)
  {
    byRefIndices, itemIds := [], [];
    for i := 0 to |items|
      invariant Indexes(items, i, byRefIndices, itemIds)
      invariant forall k :: 0 <= k < i ==>
        resolved[k] == if items[k].itemId != "" then None else ResolveOne(items[k], table)
    {
      if items[i].itemId != "" {
        byRefIndices, itemIds := byRefIndices + [i], itemIds + [items[i].itemId];
        resolved[i] := None;
      } else if items[i].text.Some? {
        resolved[i] := Some(ByValue(items[i].text.value));
      } else {
        resolved[i] := None;
      }
    }
  }

  /** The second loop: the zip of indices and ids fills the placeholders. */
  method Fill(items: seq<Requested>, resolved: array<Option<Resolved>>, table: map<string, string>,
              byRefIndices: seq<nat>, itemIds: seq<string>)
    requires resolved.Length == |items| && Indexes(items, |items|, byRefIndices, itemIds)
    requires forall k :: 0 <= k < |items| ==>
      resolved[k] == if items[k].itemId != "" then None else ResolveOne(items[k], table)
    modifies resolved
    ensures forall k :: 0 <= k < |items| ==> resolved[k] == ResolveOne(items[k], table)
  {
    for j := 0 to |byRefIndices|
      invariant forall k :: 0 <= k < |items| ==>
        resolved[k] ==
          if items[k].itemId != "" && k !in byRefIndices[..j] then None else ResolveOne(items[k], table)
    {
      var idx, itemId := byRefIndices[j], itemIds[j];
      assert idx !in byRefIndices[..j];
      if itemId in table {
        resolved[idx] := Some(ByReference(itemId, table[itemId]));
      }
      assert byRefIndices[..j + 1] == byRefIndices[..j] + [idx];
    }
    assert byRefIndices[..|byRefIndices|] == byRefIndices;
  }

  /**
   `_resolve_context_items`: a placeholder per by-reference item, one lookup for all ids,
   then the placeholders are filled by the zip of indices and ids. The empty slots are
   dropped by a closing filter.
   */
  method ResolveContextItems(items: seq<Requested>, table: map<string, string>) returns (result: seq<Resolved>)
    ensures result == ResolveAll(items, table)
  {
    var resolved := new Option<Resolved>[|items|](_ => None);
    var byRefIndices, itemIds := Place(items, resolved, table);
    Fill(items, resolved, table, byRefIndices, itemIds);
    FilledIsResolved(resolved[..], items, table);
    result := DropEmpty(resolved[..]);
  }

  method DropEmpty(slots: seq<Option<Resolved>>) returns (result: seq<Resolved>)
    ensures result == Filled(slots)
  {
    result := [];
    for k := 0 to |slots|
      invariant result == Filled(slots[..k])
    {
      assert slots[..k + 1][..k] == slots[..k];
      if slots[k].Some? {
        result := result + [slots[k].value];
      }
    }
    assert slots[..|slots|] == slots;
  }

  // ---- merging what the tools retrieved -----------------------------------------------

  datatype Image = Image(content: Option<string>, url: Option<string>, rest: string)

  /** `metaPath` is the storage path in the item's metadata, `path` the one beside its text. */
  datatype Entry =
    | Diagnostics(source: Option<string>, totalItems: Option<nat>)
    | Item(id: Option<string>, fullDocument: bool, text: string,
           metaPath: Option<string>, path: Option<string>, images: seq<Image>)

  function Items(entries: seq<Entry>): seq<Entry> {
    if entries == [] then [] else
      var last := entries[|entries| - 1];
      Items(entries[..|entries| - 1]) + (if last.Item? then [last] else [])
  }

  /** Kept by the de-duplication: an item without id, or the first item of its id. */
  ghost predicate Kept(items: seq<Entry>, k: nat)
    requires k < |items|
  {
    items[k].Item? && (items[k].id.Some? ==> forall j :: 0 <= j < k ==> !(items[j].Item? && items[j].id == items[k].id))
  }

  ghost function Firsts(items: seq<Entry>): seq<Entry> {
    if items == [] then [] else
      Firsts(items[..|items| - 1]) + (if Kept(items, |items| - 1) then [items[|items| - 1]] else [])
  }

  lemma SnocFirsts(items: seq<Entry>, k: nat)
    requires k < |items|
    ensures Firsts(items[..k + 1]) == if Kept(items, k) then Firsts(items[..k]) + [items[k]] else Firsts(items[..k])
  {
    var s := items[..k + 1];
    assert s[..k] == items[..k];
    assert Kept(s, k) == Kept(items, k);
  }

  /** The loop over `_seen_ids`. */
  method Dedup(items: seq<Entry>) returns (deduped: seq<Entry>)
    requires forall k :: 0 <= k < |items| ==> items[k].Item?
    ensures deduped == Firsts(items)
  {
    var seenIds: set<string> := {};
    deduped := [];
    for k := 0 to |items|
      invariant deduped == Firsts(items[..k])
      invariant forall id :: id in seenIds <==> exists j :: 0 <= j < k && items[j].id == Some(id)
    {
      SnocFirsts(items, k);
      var id := items[k].id;
      if id.None? {
        deduped := deduped + [items[k]];
      } else if id.value !in seenIds {
        seenIds := seenIds + {id.value};
        deduped := deduped + [items[k]];
      }
    }
    assert items[..|items|] == items;
  }

  lemma {:induction false} FirstsSound(items: seq<Entry>)
    ensures forall e :: e in Firsts(items) ==> e in items && e.Item?
  {
    if items != [] { FirstsSound(items[..|items| - 1]); }
  }

  /** An item without id, or the first of its id, stands behind what was kept of the entries before it. */
  lemma {:induction false} FirstKept(items: seq<Entry>, k: nat)
    requires k < |items|
    ensures |Firsts(items[..k])| <= |Firsts(items)|
    ensures
      items[k].Item? &&
      (items[k].id.None? || forall j :: 0 <= j < k && items[j].Item? ==> items[j].id != items[k].id) ==>
      && |Firsts(items[..k])| < |Firsts(items)|
      && Firsts(items)[|Firsts(items[..k])|] == items[k]
  {
    if k < |items| - 1 {
      assert items[..|items| - 1][..k] == items[..k];
      FirstKept(items[..|items| - 1], k);
    }
  }

  predicate Differ(e: Entry, f: Entry) {
    e.Item? && f.Item? && e.id.Some? ==> e.id != f.id
  }

  /** No id stands twice in the result. */
  lemma {:induction false} FirstsDistinct(items: seq<Entry>)
    ensures forall j, k :: 0 <= j < k < |Firsts(items)| ==> Differ(Firsts(items)[j], Firsts(items)[k])
  {
    if items != [] {
      var front, last := items[..|items| - 1], items[|items| - 1];
      FirstsDistinct(front);
      FirstsSound(front);
      if Kept(items, |items| - 1) {
        forall j | 0 <= j < |Firsts(front)|
          ensures Differ(Firsts(front)[j], last)
        {
          assert Firsts(front)[j] in front;
          var k :| 0 <= k < |front| && front[k] == Firsts(front)[j];
          assert items[k] == front[k];
        }
      }
    }
  }

  /** No id of the input is missing. */
  lemma {:induction false} IdsComplete(items: seq<Entry>, e: Entry)
    requires e in items && e.Item? && e.id.Some?
    ensures exists f :: f in Firsts(items) && f.Item? && f.id == e.id
  {
    var front, last := items[..|items| - 1], items[|items| - 1];
    if e in front {
      IdsComplete(front, e);
    } else if Kept(items, |items| - 1) {
      assert last in Firsts(items);
    } else {
      var j :| 0 <= j < |items| - 1 && items[j].Item? && items[j].id == last.id;
      assert items[j] in front;
      IdsComplete(front, items[j]);
    }
  }

  /** Items without id all stay, as often as they came. */
  lemma {:induction false} FirstsComplete(items: seq<Entry>, e: Entry)
    requires e.Item? && e.id.None?
    ensures multiset(Firsts(items))[e] == multiset(items)[e]
  {
    if items != [] {
      var front, last := items[..|items| - 1], items[|items| - 1];
      assert items == front + [last];
      FirstsComplete(front, e);
      assert e == last ==> Kept(items, |items| - 1);
    }
  }

  // ---- the light form that is stored --------------------------------------------------

  const ELISION := "\n\n[... full text in storage]"

  function Shortened(text: string, limit: nat): string {
    if |text| > limit then text[..limit] + ELISION else text
  }

  function LightImage(image: Image): Image {
    image.(content := None, url := None)
  }

  function LightImages(images: seq<Image>): seq<Image> {
    if images == [] then [] else LightImages(images[..|images| - 1]) + [LightImage(images[|images| - 1])]
  }

  /** One entry of `make_lightweight_retrieved_context`: long documents shortened, images without bytes and links. */
  function Light(e: Entry, limit: nat): Entry {
    if e.Diagnostics? then e
    else
      var stored := e.fullDocument && e.metaPath.Some? && e.metaPath.value != "";
      e.(text := if stored then Shortened(e.text, limit) else e.text,
         path := if stored then e.metaPath else e.path,
         images := LightImages(e.images))
  }

  /**
   A full document whose text is in storage and longer than the limit is cut to it, with a notice
   behind, and points to the storage; every other text stays whole. Images lose bytes and links.
   */
  lemma LightSays(e: Entry, limit: nat, k: nat)
    requires e.Item?
    ensures
      var light := Light(e, limit);
      var stored := e.fullDocument && e.metaPath.Some? && e.metaPath.value != "";
      && light.Item? && light.id == e.id && light.fullDocument == e.fullDocument && light.metaPath == e.metaPath
      && light.text ==
           (if stored && |e.text| > limit then e.text[..limit] + "\n\n[... full text in storage]" else e.text)
      && light.path == (if stored then e.metaPath else e.path)
      && |light.images| == |e.images|
      && (k < |e.images| ==> light.images[k] == Image(None, None, e.images[k].rest))
  {
    LightImageAt(e.images, k);
  }

  lemma {:induction false} LightImageAt(images: seq<Image>, k: nat)
    ensures |LightImages(images)| == |images|
    ensures k < |images| ==> LightImages(images)[k] == Image(None, None, images[k].rest)
  {
    if images != [] { LightImageAt(images[..|images| - 1], k); }
  }

  function AllLight(entries: seq<Entry>, limit: nat): seq<Entry> {
    if entries == [] then [] else AllLight(entries[..|entries| - 1], limit) + [Light(entries[|entries| - 1], limit)]
  }

  method Lighten(entries: seq<Entry>, limit: nat) returns (light: seq<Entry>)
    ensures light == AllLight(entries, limit)
  {
    light := [];
    for k := 0 to |entries|
      invariant light == AllLight(entries[..k], limit)
    {
      assert entries[..k + 1][..k] == entries[..k];
      light := light + [Light(entries[k], limit)];
    }
    assert entries[..|entries|] == entries;
  }

  /** The light form has the same entries in the same places: headers as they were, items under their ids. */
  lemma {:induction false} LightInPlace(entries: seq<Entry>, limit: nat, k: nat)
    requires k < |entries|
    ensures |AllLight(entries, limit)| == |entries|
    ensures AllLight(entries, limit)[k] == Light(entries[k], limit)
    ensures entries[k].Item? ==> Light(entries[k], limit).Item? && Light(entries[k], limit).id == entries[k].id
  {
    if k < |entries| - 1 {
      LightInPlace(entries[..|entries| - 1], limit, k);
    } else if k > 0 {
      LightInPlace(entries[..|entries| - 1], limit, k - 1);
    }
  }

  lemma ItemsSnoc(entries: seq<Entry>, e: Entry)
    ensures Items(entries + [e]) == Items(entries) + if e.Item? then [e] else []
  {
    assert (entries + [e])[..|entries|] == entries;
  }

  lemma LightSnoc(entries: seq<Entry>, e: Entry, limit: nat)
    ensures AllLight(entries + [e], limit) == AllLight(entries, limit) + [Light(e, limit)]
  {
    assert (entries + [e])[..|entries|] == entries;
  }

  /** Picking the items keeps their order. */
  lemma {:induction false} ItemsConcat(a: seq<Entry>, b: seq<Entry>)
    ensures Items(a + b) == Items(a) + Items(b)
    ensures |a| == 1 ==> Items(a) == if a[0].Item? then a else []
  {
    if |a| == 1 { assert a[..0] == []; }
    if b == [] {
      assert a + b == a;
    } else {
      assert (a + b)[..|a + b| - 1] == a + b[..|b| - 1];
      ItemsConcat(a, b[..|b| - 1]);
    }
  }

  /** Making light and picking the items are independent. */
  lemma {:induction false} LightItems(entries: seq<Entry>, limit: nat)
    ensures Items(AllLight(entries, limit)) == AllLight(Items(entries), limit)
  {
    if entries != [] {
      var front, last := entries[..|entries| - 1], entries[|entries| - 1];
      LightItems(front, limit);
      ItemsSnoc(AllLight(front, limit), Light(last, limit));
      if last.Item? {
        LightSnoc(Items(front), last, limit);
      } else {
        assert Items(entries) == Items(front);
      }
    }
  }

  lemma {:induction false} LightLength(entries: seq<Entry>, limit: nat)
    ensures |AllLight(entries, limit)| == |entries|
  {
    if entries != [] { LightLength(entries[..|entries| - 1], limit); }
  }

  lemma {:induction false} LightImagesTwice(images: seq<Image>)
    ensures LightImages(LightImages(images)) == LightImages(images)
  {
    if images != [] {
      var front := LightImages(images[..|images| - 1]);
      LightImagesTwice(images[..|images| - 1]);
      assert (front + [LightImage(images[|images| - 1])])[..|front|] == front;
    }
  }

  /** Storing what was stored changes nothing: the cut comes at the same place again. */
  lemma LightTwice(e: Entry, limit: nat)
    ensures Light(Light(e, limit), limit) == Light(e, limit)
  {
    if e.Item? {
      LightImagesTwice(e.images);
      if |e.text| > limit {
        assert (e.text[..limit] + ELISION)[..limit] == e.text[..limit];
      }
    }
  }

  /**
   The merge after a ReAct run. `existing` is the run's retrieved context, None or empty
   when there is none; `retrieved` lists the entries of every tool handler in order; texts
   longer than `limit` are cut.
   */
  method MergeRetrieved(existing: Option<seq<Entry>>, retrieved: seq<Entry>, limit: nat)
    returns (merged: Option<seq<Entry>>)
    ensures
      var kept := Firsts(Items(retrieved));
      if kept == [] then merged == existing
      else if existing.None? || existing.value == [] then
        merged == Some(AllLight([Diagnostics(Some("tool_calls"), Some(|kept|))] + kept, limit))
      else
        merged == Some(AllLight(
          [Diagnostics(None, Some(|Items(existing.value)| + |kept|))] + Items(existing.value) + kept, limit))
  {
    var allToolItems := OnlyItems(retrieved);
    ItemsAreItems(retrieved);
    var deduped := Dedup(allToolItems);
    if deduped == [] {
      return existing;
    }
    var toolContext := [Diagnostics(Some("tool_calls"), Some(|deduped|))] + deduped;
    var final := toolContext;
    if existing.Some? && existing.value != [] {
      var existingItems := OnlyItems(existing.value);
      var newItems := OnlyItems(toolContext);
      assert newItems == deduped by {
        FirstsSound(allToolItems);
        ItemsBehindHeader(toolContext[0], deduped);
      }
      final := [Diagnostics(None, Some(|existingItems| + |newItems|))] + existingItems + newItems;
    }
    var light := Lighten(final, limit);
    merged := Some(light);
  }

  method OnlyItems(entries: seq<Entry>) returns (items: seq<Entry>)
    ensures items == Items(entries)
  {
    items := [];
    for k := 0 to |entries|
      invariant items == Items(entries[..k])
    {
      assert entries[..k + 1][..k] == entries[..k];
      if entries[k].Item? {
        items := items + [entries[k]];
      }
    }
    assert entries[..|entries|] == entries;
  }

  lemma {:induction false} ItemsAreItems(entries: seq<Entry>)
    ensures forall k :: 0 <= k < |Items(entries)| ==> Items(entries)[k].Item?
    ensures (forall k :: 0 <= k < |entries| ==> entries[k].Item?) ==> Items(entries) == entries
  {
    if entries != [] { ItemsAreItems(entries[..|entries| - 1]); }
  }

  lemma {:induction false} ItemsBehindHeader(header: Entry, entries: seq<Entry>)
    requires header.Diagnostics? && forall e :: e in entries ==> e.Item?
    ensures Items([header] + entries) == entries
  {
    if entries == [] {
      assert ([header] + entries)[..0] == [];
    } else {
      assert ([header] + entries)[..|entries|] == [header] + entries[..|entries| - 1];
      ItemsBehindHeader(header, entries[..|entries| - 1]);
    }
  }

  lemma LightTotal(header: Entry, items: seq<Entry>, limit: nat)
    requires header.Diagnostics? && forall e :: e in items ==> e.Item?
    ensures |Items(AllLight([header] + items, limit))| == |items|
  {
    ItemsBehindHeader(header, items);
    LightItems([header] + items, limit);
    LightLength(items, limit);
  }

  /** The announced total is the number of items stored behind the header, in every merge. */
  lemma TotalIsHonest(existing: seq<Entry>, kept: seq<Entry>, limit: nat)
    requires forall e :: e in kept ==> e.Item?
    ensures
      var total := |Items(existing)| + |kept|;
      |Items(AllLight([Diagnostics(None, Some(total))] + Items(existing) + kept, limit))| == total
  {
    ItemsAreItems(existing);
    var header, items := Diagnostics(None, Some(|Items(existing)| + |kept|)), Items(existing) + kept;
    assert [header] + Items(existing) + kept == [header] + items;
    LightTotal(header, items, limit);
  }
}

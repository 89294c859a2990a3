/**
 Migration 0015b: the reserved keys of a source's user metadata move to auto_metadata,
 and the downgrade moves them back. When does the round trip give the metadata back?
 */
module SystemKeys {
  import opened Options

  /** A JSON value; anything but null and strings is kept as its text. */
  datatype Json = Null | Str(s: string) | Other(text: string)

  type Doc = map<string, Json>

  /** The two columns; either may be NULL. */
  datatype Source = Source(metadata: Option<Doc>, autoMetadata: Option<Doc>)

  const EXTRACTION_MODEL := "extraction_model"
  const SOURCE_TYPE := "source_type"
  const SOURCE_URL := "source_url"
  const ORIGIN_URL := "origin_url"

  function Coalesce(doc: Option<Doc>): Doc {
    if doc.Some? then doc.value else map[]
  }

  /** `doc ->> key` */
  function Text(doc: Doc, key: string): Option<string> {
    if key !in doc then None
    else match doc[key]
      case Null => None
      case Str(s) => Some(s)
      case Other(text) => Some(text)
  }

  /** One field of `jsonb_strip_nulls(jsonb_build_object(key, text))`. */
  function Field(key: string, text: Option<string>): Doc {
    if text.Some? then map[key := Str(text.value)] else map[]
  }

  /** UPDATE 1 of the upgrade: the origin URL is copied where it is missing. */
  function Backfill(s: Source): Source {
    if s.metadata.Some? && SOURCE_URL in s.metadata.value && ORIGIN_URL !in Coalesce(s.autoMetadata) then
      var url := Text(s.metadata.value, SOURCE_URL);
      s.(autoMetadata := Some(Coalesce(s.autoMetadata)[ORIGIN_URL := if url.Some? then Str(url.value) else Null]))
    else s
  }

  /** UPDATE 2 of the upgrade: two keys move, three are dropped from metadata. */
  function MoveKeys(s: Source): Source {
    if s.metadata.Some? &&
       (EXTRACTION_MODEL in s.metadata.value || SOURCE_TYPE in s.metadata.value || SOURCE_URL in s.metadata.value) then
      var m := s.metadata.value;
      Source(Some(m - {EXTRACTION_MODEL, SOURCE_TYPE, SOURCE_URL}),
             Some(Coalesce(s.autoMetadata) +
                  (Field(EXTRACTION_MODEL, Text(m, EXTRACTION_MODEL)) + Field(SOURCE_TYPE, Text(m, SOURCE_TYPE)))))
    else s
  }

  function Upgraded(s: Source): Source {
    MoveKeys(Backfill(s))
  }

  function Downgraded(s: Source): Source {
    var a := Coalesce(s.autoMetadata);
    if EXTRACTION_MODEL in a || SOURCE_TYPE in a || ORIGIN_URL in a then
      Source(Some(Coalesce(s.metadata) +
                  (Field(EXTRACTION_MODEL, Text(a, EXTRACTION_MODEL)) + Field(SOURCE_TYPE, Text(a, SOURCE_TYPE)) +
                   Field(SOURCE_URL, Text(a, ORIGIN_URL)))),
             Some(a - {EXTRACTION_MODEL, SOURCE_TYPE}))
    else s
  }

  // ---- what the statements mean -------------------------------------------------------

  /** Looking the key up finds the same in both documents. */
  predicate SameAt(a: Doc, b: Doc, key: string) {
    (key in a <==> key in b) && (key in a ==> a[key] == b[key])
  }

  /** The key holds this text, or is as it was when there is none. */
  predicate Received(before: Doc, after: Doc, key: string, text: Option<string>) {
    if text.Some? then key in after && after[key] == Str(text.value) else SameAt(before, after, key)
  }

  /**
   The upgraded row: metadata without the three reserved keys; auto_metadata with the two
   moved ones, an origin URL where it was missing, and everything else it had.
   */
  ghost predicate UpgradeOf(s: Source, u: Source) {
    if s.metadata.None? then u == s
    else
      var m, a, b := s.metadata.value, Coalesce(s.autoMetadata), Coalesce(u.autoMetadata);
      && u.metadata == Some(m - {EXTRACTION_MODEL, SOURCE_TYPE, SOURCE_URL})
      && Received(a, b, EXTRACTION_MODEL, Text(m, EXTRACTION_MODEL))
      && Received(a, b, SOURCE_TYPE, Text(m, SOURCE_TYPE))
      && (if SOURCE_URL in m && ORIGIN_URL !in a then
            ORIGIN_URL in b && Text(b, ORIGIN_URL) == Text(m, SOURCE_URL) && !b[ORIGIN_URL].Other?
          else SameAt(a, b, ORIGIN_URL))
      && (forall key :: key !in {EXTRACTION_MODEL, SOURCE_TYPE, ORIGIN_URL} ==> SameAt(a, b, key))
      && (u.autoMetadata.None? <==> s.autoMetadata.None? && m.Keys !! {EXTRACTION_MODEL, SOURCE_TYPE, SOURCE_URL})
  }

  /** The downgraded row: the three keys are back in metadata, the two moved ones gone from auto_metadata. */
  ghost predicate DowngradeOf(s: Source, d: Source) {
    var a := Coalesce(s.autoMetadata);
    if Untouched(a) then d == s
    else
      && d.metadata.Some? && d.autoMetadata == Some(a - {EXTRACTION_MODEL, SOURCE_TYPE})
      && var m, n := Coalesce(s.metadata), d.metadata.value;
         && Received(m, n, EXTRACTION_MODEL, Text(a, EXTRACTION_MODEL))
         && Received(m, n, SOURCE_TYPE, Text(a, SOURCE_TYPE))
         && Received(m, n, SOURCE_URL, Text(a, ORIGIN_URL))
         && forall key :: key !in {EXTRACTION_MODEL, SOURCE_TYPE, SOURCE_URL} ==> SameAt(m, n, key)
  }

  lemma UpgradeMeans(s: Source)
    ensures UpgradeOf(s, Upgraded(s))
  {
    if s.metadata.Some? { UpgradedTexts(s); }
  }

  lemma DowngradeMeans(s: Source)
    ensures DowngradeOf(s, Downgraded(s))
  {
  }

  /** What the statements mean leaves no freedom in metadata, nor in auto_metadata but for NULL and {}. */
  lemma UpgradeUnique(s: Source, u: Source)
    requires UpgradeOf(s, u)
    ensures u.metadata == Upgraded(s).metadata && Coalesce(u.autoMetadata) == Coalesce(Upgraded(s).autoMetadata)
  {
    UpgradeMeans(s);
    var b, c := Coalesce(u.autoMetadata), Coalesce(Upgraded(s).autoMetadata);
    forall key ensures (key in b <==> key in c) && (key in b ==> b[key] == c[key]) {
      if s.metadata.Some? && key !in {EXTRACTION_MODEL, SOURCE_TYPE, ORIGIN_URL} {
        assert SameAt(Coalesce(s.autoMetadata), b, key) && SameAt(Coalesce(s.autoMetadata), c, key);
      }
    }
    assert b == c;
  }

  /** What `->>` reads of a value, written back as a string; null and a missing key write nothing. */
  predicate WrittenAs(from: Doc, source: string, before: Doc, after: Doc, target: string) {
    if source in from && from[source].Str? then target in after && after[target] == Str(from[source].s)
    else if source in from && from[source].Other? then target in after && after[target] == Str(from[source].text)
    else SameAt(before, after, target)
  }

  /**
   Value by value: strings move as they are, numbers and other values as their text, null not at
   all; a missing origin URL is filled from source_url, with null for a null.
   */
  lemma UpgradeSays(s: Source)
    requires s.metadata.Some?
    ensures
      var m, a, b := s.metadata.value, Coalesce(s.autoMetadata), Coalesce(Upgraded(s).autoMetadata);
      && WrittenAs(m, "extraction_model", a, b, "extraction_model")
      && WrittenAs(m, "source_type", a, b, "source_type")
      && ("origin_url" in a ==> SameAt(a, b, "origin_url"))
      && ("origin_url" !in a && "source_url" in m ==>
            && "origin_url" in b
            && b["origin_url"] == match m["source_url"] case Str(v) => Str(v) case Other(t) => Str(t) case Null => Null)
      && ("origin_url" !in a && "source_url" !in m ==> "origin_url" !in b)
  {
  }

  /** The way back, value by value, where auto_metadata has one of the keys. */
  lemma DowngradeSays(s: Source)
    requires
      var a := Coalesce(s.autoMetadata);
      "extraction_model" in a || "source_type" in a || "origin_url" in a
    ensures
      var m, a, n := Coalesce(s.metadata), Coalesce(s.autoMetadata), Coalesce(Downgraded(s).metadata);
      && WrittenAs(a, "extraction_model", m, n, "extraction_model")
      && WrittenAs(a, "source_type", m, n, "source_type")
      && WrittenAs(a, "origin_url", m, n, "source_url")
      && Downgraded(s).autoMetadata == Some(a - {"extraction_model", "source_type"})
  {
  }

  /** The table, updated statement by statement. */
  class SourcesTable {
    var rows: map<nat, Source>

    method Upgrade()
      modifies this
      ensures rows.Keys == old(rows).Keys
      ensures forall id :: id in rows ==> UpgradeOf(old(rows)[id], rows[id]) && rows[id] == Upgraded(old(rows)[id])
    {
      ghost var start := rows;
      rows := map id | id in rows :: Backfill(rows[id]);
      rows := map id | id in rows :: MoveKeys(rows[id]);
      forall id | id in rows ensures UpgradeOf(start[id], rows[id]) {
        UpgradeMeans(start[id]);
      }
    }

    method Downgrade()
      modifies this
      ensures rows.Keys == old(rows).Keys
      ensures forall id :: id in rows ==> DowngradeOf(old(rows)[id], rows[id]) && rows[id] == Downgraded(old(rows)[id])
    {
      ghost var start := rows;
      rows := map id | id in rows :: Downgraded(rows[id]);
      forall id | id in rows ensures DowngradeOf(start[id], rows[id]) {
        DowngradeMeans(start[id]);
      }
    }
  }

  /** A moved key comes back: it is a string, or it is absent on both sides. */
  predicate Recoverable(m: Doc, a: Doc, key: string) {
    if key in m then m[key].Str? else Text(a, key).None?
  }

  /** source_url and origin_url agree. */
  predicate UrlsAgree(m: Doc, a: Doc) {
    if SOURCE_URL in m then m[SOURCE_URL].Str? && (ORIGIN_URL in a ==> Text(a, ORIGIN_URL) == Some(m[SOURCE_URL].s))
    else Text(a, ORIGIN_URL).None?
  }

  predicate Untouched(a: Doc) {
    EXTRACTION_MODEL !in a && SOURCE_TYPE !in a && ORIGIN_URL !in a
  }

  lemma UpgradedTexts(s: Source)
    requires s.metadata.Some?
    ensures
      var m, a := s.metadata.value, Coalesce(s.autoMetadata);
      var u := Upgraded(s);
      && u.metadata == Some(m - {EXTRACTION_MODEL, SOURCE_TYPE, SOURCE_URL})
      && Text(Coalesce(u.autoMetadata), EXTRACTION_MODEL) ==
           (if Text(m, EXTRACTION_MODEL).Some? then Text(m, EXTRACTION_MODEL) else Text(a, EXTRACTION_MODEL))
      && Text(Coalesce(u.autoMetadata), SOURCE_TYPE) ==
           (if Text(m, SOURCE_TYPE).Some? then Text(m, SOURCE_TYPE) else Text(a, SOURCE_TYPE))
      && Text(Coalesce(u.autoMetadata), ORIGIN_URL) ==
           (if SOURCE_URL in m && ORIGIN_URL !in a then Text(m, SOURCE_URL) else Text(a, ORIGIN_URL))
  {
    var m := s.metadata.value;
    if !(EXTRACTION_MODEL in m || SOURCE_TYPE in m || SOURCE_URL in m) {
      assert m == m - {EXTRACTION_MODEL, SOURCE_TYPE, SOURCE_URL};
    }
  }

  lemma DowngradedTexts(s: Source)
    requires s.metadata.Some?
    ensures
      var a := Coalesce(s.autoMetadata);
      Downgraded(s).metadata == Some(s.metadata.value +
        (Field(EXTRACTION_MODEL, Text(a, EXTRACTION_MODEL)) + Field(SOURCE_TYPE, Text(a, SOURCE_TYPE)) +
         Field(SOURCE_URL, Text(a, ORIGIN_URL))))
  {
    var a := Coalesce(s.autoMetadata);
    if Untouched(a) {
      assert s.metadata.value + (map[] + map[] + map[]) == s.metadata.value;
    }
  }

  /** The text that a reserved key comes back with. */
  function TextBack(m: Doc, a: Doc, key: string): Option<string> {
    if key == EXTRACTION_MODEL || key == SOURCE_TYPE then
      if Text(m, key).Some? then Text(m, key) else Text(a, key)
    else if key == SOURCE_URL then
      if SOURCE_URL in m && ORIGIN_URL !in a then Text(m, SOURCE_URL) else Text(a, ORIGIN_URL)
    else None
  }

  lemma MovedBack(s: Source, key: string)
    requires s.metadata.Some? && key in {EXTRACTION_MODEL, SOURCE_TYPE}
    ensures
      var m, a := s.metadata.value, Coalesce(s.autoMetadata);
      var back := Downgraded(Upgraded(s)).metadata;
      && back.Some?
      && (key in back.value <==> TextBack(m, a, key).Some?)
      && (TextBack(m, a, key).Some? ==> back.value[key] == Str(TextBack(m, a, key).value))
  {
    UpgradedTexts(s);
    DowngradedTexts(Upgraded(s));
  }

  lemma UrlBack(s: Source)
    requires s.metadata.Some?
    ensures
      var m, a := s.metadata.value, Coalesce(s.autoMetadata);
      var back := Downgraded(Upgraded(s)).metadata;
      && back.Some?
      && (SOURCE_URL in back.value <==> TextBack(m, a, SOURCE_URL).Some?)
      && (TextBack(m, a, SOURCE_URL).Some? ==> back.value[SOURCE_URL] == Str(TextBack(m, a, SOURCE_URL).value))
  {
    UpgradedTexts(s);
    DowngradedTexts(Upgraded(s));
  }

  lemma OtherBack(s: Source, key: string)
    requires s.metadata.Some? && key !in {EXTRACTION_MODEL, SOURCE_TYPE, SOURCE_URL}
    ensures
      var back := Downgraded(Upgraded(s)).metadata;
      back.Some? && SameAt(s.metadata.value, back.value, key)
  {
    UpgradedTexts(s);
    DowngradedTexts(Upgraded(s));
  }

  /** Looking a key up after the round trip. */
  lemma RoundTripLookup(s: Source, key: string)
    requires s.metadata.Some?
    ensures
      var m, a := s.metadata.value, Coalesce(s.autoMetadata);
      var back := Downgraded(Upgraded(s)).metadata;
      && back.Some?
      && if key in {EXTRACTION_MODEL, SOURCE_TYPE, SOURCE_URL} then
           var text := TextBack(m, a, key);
           (key in back.value <==> text.Some?) && (text.Some? ==> back.value[key] == Str(text.value))
         else SameAt(m, back.value, key)
  {
    if key in {EXTRACTION_MODEL, SOURCE_TYPE} {
      MovedBack(s, key);
    } else if key == SOURCE_URL {
      UrlBack(s);
    } else {
      OtherBack(s, key);
    }
  }

  /**
   Downgrade after upgrade restores the user metadata if and only if the two moved keys are
   recoverable and the two URLs agree; a NULL metadata, if and only if auto_metadata has
   none of the keys the downgrade looks for.
   */
  lemma RoundTripExactly(s: Source)
    ensures
      Downgraded(Upgraded(s)).metadata == s.metadata <==>
        var a := Coalesce(s.autoMetadata);
        if s.metadata.None? then Untouched(a)
        else
          var m := s.metadata.value;
          Recoverable(m, a, EXTRACTION_MODEL) && Recoverable(m, a, SOURCE_TYPE) && UrlsAgree(m, a)
  {
    if s.metadata.Some? {
      var m, a := s.metadata.value, Coalesce(s.autoMetadata);
      var back := Downgraded(Upgraded(s)).metadata;
      RoundTripLookup(s, EXTRACTION_MODEL);
      RoundTripLookup(s, SOURCE_TYPE);
      RoundTripLookup(s, SOURCE_URL);
      assert EXTRACTION_MODEL != SOURCE_TYPE && SOURCE_TYPE != SOURCE_URL && EXTRACTION_MODEL != SOURCE_URL;
      if Recoverable(m, a, EXTRACTION_MODEL) && Recoverable(m, a, SOURCE_TYPE) && UrlsAgree(m, a) {
        forall key
          ensures key in back.value <==> key in m
          ensures key in m ==> back.value[key] == m[key]
        {
          RoundTripLookup(s, key);
        }
        assert back.value == m;
      }
    }
  }

  /** What the round trip leaves in auto_metadata: the backfilled document without the two moved keys. */
  lemma RoundTripAuto(s: Source)
    ensures Coalesce(Downgraded(Upgraded(s)).autoMetadata) ==
            Coalesce(Backfill(s).autoMetadata) - {EXTRACTION_MODEL, SOURCE_TYPE}
  {
    var b := Coalesce(Backfill(s).autoMetadata);
    var u := Coalesce(Upgraded(s).autoMetadata);
    assert u - {EXTRACTION_MODEL, SOURCE_TYPE} == b - {EXTRACTION_MODEL, SOURCE_TYPE};
    if Untouched(u) {
      assert u - {EXTRACTION_MODEL, SOURCE_TYPE} == u;
    }
  }

  /** With the two upgrade statements swapped, the source URL of an unbackfilled row is gone for good. */
  lemma SwappedUpgradeLosesUrl(s: Source)
    requires s.metadata.Some? && SOURCE_URL in s.metadata.value && ORIGIN_URL !in Coalesce(s.autoMetadata)
    ensures
      var swapped := Backfill(MoveKeys(s));
      && ORIGIN_URL !in Coalesce(swapped.autoMetadata)
      && Downgraded(swapped).metadata.Some?
      && SOURCE_URL !in Downgraded(swapped).metadata.value
  {
    var moved := MoveKeys(s);
    assert SOURCE_URL !in moved.metadata.value;
    DowngradedTexts(moved);
  }

  /** Upgrading twice is upgrading once. */
  lemma UpgradeIdempotent(s: Source)
    ensures Upgraded(Upgraded(s)) == Upgraded(s)
  {
    if s.metadata.Some? {
      UpgradedTexts(s);
    }
  }

  /** Upgrading a downgraded row: the origin URL stays, the moved keys return as strings. */
  lemma ReupgradeLookup(u: Source, key: string)
    requires u.metadata.Some? && !Untouched(Coalesce(u.autoMetadata))
    requires u.metadata.value.Keys !! {EXTRACTION_MODEL, SOURCE_TYPE, SOURCE_URL}
    ensures
      var a := Coalesce(u.autoMetadata);
      var again := Upgraded(Downgraded(u));
      && again.metadata == u.metadata
      && var doc := Coalesce(again.autoMetadata);
         if key == EXTRACTION_MODEL || key == SOURCE_TYPE then
           (key in doc <==> Text(a, key).Some?) && (key in doc ==> doc[key] == Str(Text(a, key).value))
         else
           (key in doc <==> key in a) && (key in a ==> doc[key] == a[key])
  {
    var a := Coalesce(u.autoMetadata);
    var d := Downgraded(u);
    assert SOURCE_URL in d.metadata.value ==> ORIGIN_URL in a;
    assert Backfill(d) == d;
    assert d.metadata.value - {EXTRACTION_MODEL, SOURCE_TYPE, SOURCE_URL} == u.metadata.value;
    if !(EXTRACTION_MODEL in d.metadata.value || SOURCE_TYPE in d.metadata.value || SOURCE_URL in d.metadata.value) {
      assert d.metadata.value == u.metadata.value;
    }
  }

  predicate StringIfPresent(a: Doc, key: string) {
    key in a ==> a[key].Str?
  }

  /**
   Downgrading a row whose metadata is free of the reserved keys, as every upgraded row's is,
   and upgrading it again changes nothing exactly when the moved values are strings.
   */
  lemma ReupgradeExactly(u: Source)
    requires u.metadata.Some? && !Untouched(Coalesce(u.autoMetadata))
    requires u.metadata.value.Keys !! {EXTRACTION_MODEL, SOURCE_TYPE, SOURCE_URL}
    ensures
      var a := Coalesce(u.autoMetadata);
      var again := Upgraded(Downgraded(u));
      && again.metadata == u.metadata
      && (Coalesce(again.autoMetadata) == a <==>
            StringIfPresent(a, EXTRACTION_MODEL) && StringIfPresent(a, SOURCE_TYPE))
  {
    var a := Coalesce(u.autoMetadata);
    var doc := Coalesce(Upgraded(Downgraded(u)).autoMetadata);
    ReupgradeLookup(u, EXTRACTION_MODEL);
    ReupgradeLookup(u, SOURCE_TYPE);
    if StringIfPresent(a, EXTRACTION_MODEL) && StringIfPresent(a, SOURCE_TYPE) {
      forall key
        ensures (key in doc <==> key in a) && (key in a ==> doc[key] == a[key])
      {
        ReupgradeLookup(u, key);
      }
      assert doc == a;
    }
  }
}

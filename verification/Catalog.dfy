/** The catalog of private agent profiles: documents, entries, variants, and the
    round trips between them. */
module Catalog {
  import opened Json
  import opened Options

  datatype State = Active | Disabled
  datatype Entry = Entry(
    profileId: string, state: State, revision: string, history: seq<string>, variants: map<string, string>)

  const MAX_PRIVATE_PROFILES := 32
  const MAX_REVISIONS_PER_PROFILE := 32

  const SCHEMA := "schema"
  const SCHEMA_VERSION := "schema_version"
  const PROFILES := "profiles"
  const STATE := "state"
  const REVISION := "revision"
  const HISTORY := "history"
  const VARIANTS := "variants"

  const CATALOG_SCHEMA := "foxhound.agent-profile-catalog"
  const BUILT_IN := "general"

  predicate IsLower(c: char) { 'a' <= c <= 'z' }
  predicate IsDigit(c: char) { '0' <= c <= '9' }

  /** A profile id, and equally a variant name: `[a-z][a-z0-9-]{0,31}`. */
  predicate IsName(s: string) {
    1 <= |s| <= 32 && IsLower(s[0]) && forall c | c in s :: IsLower(c) || IsDigit(c) || c == '-'
  }

  /** `[0-9a-f]{64}`. */
  predicate IsRevision(s: string) {
    |s| == 64 && forall c | c in s :: IsDigit(c) || 'a' <= c <= 'f'
  }

  predicate Distinct(s: seq<string>) {
    forall i, j | 0 <= i < j < |s| :: s[i] != s[j]
  }

  // ----- documents from entries -----

  function Strings(s: seq<string>): Json {
    Arr(seq(|s|, i requires 0 <= i < |s| => Str(s[i])))
  }

  function StringFields(m: map<string, string>): Json {
    Obj(map k | k in m :: Str(m[k]))
  }

  function StateName(s: State): Json {
    Str(if s.Active? then "active" else "disabled")
  }

  function EntryDocument(e: Entry): Json {
    var plain := map[STATE := StateName(e.state), REVISION := Str(e.revision), HISTORY := Strings(e.history)];
    Obj(if e.variants == map[] then plain else plain[VARIANTS := StringFields(e.variants)])
  }

  function CatalogDocument(entries: map<string, Entry>): Json {
    Obj(map[SCHEMA := Str(CATALOG_SCHEMA), SCHEMA_VERSION := Num(1.0),
            PROFILES := Obj(map id | id in entries :: EntryDocument(entries[id]))])
  }

  // ----- entries from documents -----

  function ParseState(j: Json): Option<State> {
    if j == Str("active") then Some(Active) else if j == Str("disabled") then Some(Disabled) else None
  }

  predicate RevisionStrings(items: seq<Json>) {
    forall i | 0 <= i < |items| :: items[i].Str? && IsRevision(items[i].s)
  }

  function ParseHistory(j: Json): Option<seq<string>> {
    if !j.Arr? || !(1 <= |j.items| <= MAX_REVISIONS_PER_PROFILE) || !RevisionStrings(j.items) then None
    else
      var history := seq(|j.items|, i requires 0 <= i < |j.items| => j.items[i].s);
      if Distinct(history) then Some(history) else None
  }

  predicate IsVariant(name: string, revision: Json, history: seq<string>) {
    IsName(name) && revision.Str? && IsRevision(revision.s) && revision.s in history
  }

  /** `_parse_catalog_variants`; an absent member reads as null. */
  function ParseVariants(j: Json, history: seq<string>): Option<map<string, string>> {
    if j.Null? then Some(map[])
    else if !j.Obj? || j.fields == map[] then None
    else if forall n | n in j.fields :: IsVariant(n, j.fields[n], history) then
      Some(map n | n in j.fields :: j.fields[n].s)
    else None
  }

  predicate HasEntryShape(j: Json) {
    j.Obj? && (j.fields.Keys == {STATE, REVISION, HISTORY} || j.fields.Keys == {STATE, REVISION, HISTORY, VARIANTS})
  }

  function VariantsMember(j: Json): Json
    requires j.Obj?
  {
    if VARIANTS in j.fields then j.fields[VARIANTS] else Null
  }

  /** `_parse_catalog_entry`. */
  function ParseEntry(id: string, j: Json): Option<Entry> {
    if !HasEntryShape(j) then None
    else
      var state, history := ParseState(j.fields[STATE]), ParseHistory(j.fields[HISTORY]);
      var revision := j.fields[REVISION];
      if state.None? || history.None? || history.value == [] then None
      else if revision != Str(history.value[|history.value| - 1]) then None
      else
        var variants := ParseVariants(VariantsMember(j), history.value);
        if variants.None? then None
        else Some(Entry(id, state.value, revision.s, history.value, variants.value))
  }

  predicate IsCatalogId(id: string) {
    IsName(id) && id != BUILT_IN
  }

  predicate HasCatalogShape(j: Json) {
    && j.Obj? && j.fields.Keys == {SCHEMA, SCHEMA_VERSION, PROFILES}
    && j.fields[SCHEMA] == Str(CATALOG_SCHEMA) && j.fields[SCHEMA_VERSION] == Num(1.0)
    && j.fields[PROFILES].Obj? && |j.fields[PROFILES].fields| <= MAX_PRIVATE_PROFILES
  }

  /** `parse_catalog`. */
  function ParseCatalog(j: Json): Option<map<string, Entry>> {
    if !HasCatalogShape(j) then None
    else
      var profiles := j.fields[PROFILES].fields;
      if forall id | id in profiles :: IsCatalogId(id) && ParseEntry(id, profiles[id]).Some? then
        Some(map id | id in profiles :: ParseEntry(id, profiles[id]).value)
      else None
  }

  // ----- what an accepted entry is -----

  predicate IsEntry(e: Entry) {
    && 1 <= |e.history| <= MAX_REVISIONS_PER_PROFILE
    && (forall r | r in e.history :: IsRevision(r)) && Distinct(e.history)
    && e.revision == e.history[|e.history| - 1]
    && forall n | n in e.variants :: IsName(n) && e.variants[n] in e.history
  }

  predicate IsCatalog(entries: map<string, Entry>) {
    && |entries| <= MAX_PRIVATE_PROFILES
    && forall id | id in entries :: IsCatalogId(id) && entries[id].profileId == id && IsEntry(entries[id])
  }

  lemma KeysDiffer()
    ensures STATE != REVISION && STATE != HISTORY && STATE != VARIANTS
    ensures REVISION != HISTORY && REVISION != VARIANTS && HISTORY != VARIANTS
    ensures SCHEMA != SCHEMA_VERSION && SCHEMA != PROFILES && SCHEMA_VERSION != PROFILES
    ensures ParseState(StateName(Active)) == Some(Active) && ParseState(StateName(Disabled)) == Some(Disabled)
  {
    assert REVISION[0] == 'r' && VARIANTS[0] == 'v';
    assert |"active"| == 6 && |"disabled"| == 8;
  }

  lemma HistoryRoundTrip(history: seq<string>)
    ensures ParseHistory(Strings(history)) ==
      if 1 <= |history| <= MAX_REVISIONS_PER_PROFILE && (forall r | r in history :: IsRevision(r)) && Distinct(history)
      then Some(history) else None
  {
    hide IsRevision;
    var items := Strings(history).items;
    assert forall i | 0 <= i < |history| :: items[i].s == history[i] && history[i] in history;
    if RevisionStrings(items) {
      assert forall r | r in history :: IsRevision(r) by {
        forall r | r in history ensures IsRevision(r) {
          var i :| 0 <= i < |history| && history[i] == r;
          assert items[i].s == r;
        }
      }
      assert seq(|items|, i requires 0 <= i < |items| => items[i].s) == history;
    }
  }

  lemma VariantsRoundTrip(variants: map<string, string>, history: seq<string>)
    requires forall r | r in history :: IsRevision(r)
    requires variants != map[]
    ensures ParseVariants(StringFields(variants), history) ==
      if forall n | n in variants :: IsName(n) && variants[n] in history then Some(variants) else None
  {
    hide IsRevision, IsName;
    var fields := StringFields(variants).fields;
    assert fields.Keys == variants.Keys;
    assert fields != map[] by {
      var n :| n in variants;
      assert n in fields;
    }
    assert forall n | n in variants :: fields[n] == Str(variants[n]);
    if forall n | n in fields :: IsVariant(n, fields[n], history) {
      assert (map n | n in fields :: fields[n].s) == variants;
      forall n | n in variants ensures IsName(n) && variants[n] in history {
        assert IsVariant(n, fields[n], history);
      }
    }
  }

  /** An entry's document parses back to it exactly when the entry is a valid one. */
  lemma EntryRoundTrip(id: string, e: Entry)
    ensures ParseEntry(id, EntryDocument(e)) == Some(e) <==> e.profileId == id && IsEntry(e)
  {
    hide IsRevision, IsName, ParseState, ParseHistory, ParseVariants, Strings, StringFields, StateName;
    KeysDiffer();
    HistoryRoundTrip(e.history);
    var j := EntryDocument(e);
    assert HasEntryShape(j);
    assert ParseState(StateName(e.state)) == Some(e.state) by {
      assert e.state == Active || e.state == Disabled;
    }
    assert j.fields[STATE] == StateName(e.state) && j.fields[HISTORY] == Strings(e.history) && j.fields[REVISION] == Str(e.revision);
    if ParseHistory(Strings(e.history)).Some? {
      NoVariants(e.history);
      if e.variants != map[] {
        VariantsRoundTrip(e.variants, e.history);
        assert VariantsMember(j) == StringFields(e.variants);
      } else {
        assert VariantsMember(j) == Null;
        assert ParseVariants(VariantsMember(j), e.history) == Some(e.variants);
      }
    }
  }

  lemma NoVariants(history: seq<string>)
    ensures ParseVariants(Null, history) == Some(map[])
  {
  }

  lemma CatalogDocumentShape(entries: map<string, Entry>)
    ensures var j := CatalogDocument(entries);
      && (HasCatalogShape(j) <==> |entries| <= MAX_PRIVATE_PROFILES)
      && j.Obj? && PROFILES in j.fields && j.fields[PROFILES].Obj?
      && j.fields[PROFILES].fields.Keys == entries.Keys
      && forall id | id in entries :: j.fields[PROFILES].fields[id] == EntryDocument(entries[id])
  {
    hide EntryDocument;
    KeysDiffer();
    var m := map id | id in entries :: EntryDocument(entries[id]);
    assert m.Keys == entries.Keys;
    assert |m| == |m.Keys| && |entries| == |entries.Keys|;
  }

  /** A catalog's document parses back to it exactly when it is a valid catalog. */
  lemma CatalogRoundTrip(entries: map<string, Entry>)
    ensures ParseCatalog(CatalogDocument(entries)) == Some(entries) <==> IsCatalog(entries)
  {
    hide ParseEntry, EntryDocument, IsEntry, IsCatalogId, HasCatalogShape, CatalogDocument;
    CatalogDocumentShape(entries);
    forall id | id in entries
      ensures ParseEntry(id, EntryDocument(entries[id])) == Some(entries[id])
              <==> entries[id].profileId == id && IsEntry(entries[id])
    {
      EntryRoundTrip(id, entries[id]);
    }
    var parsed := ParseCatalog(CatalogDocument(entries));
    if IsCatalog(entries) {
      assert parsed.value == entries;
    }
  }

  // ----- the other way round -----

  predicate NullVariants(j: Json) {
    j.Obj? && VARIANTS in j.fields && j.fields[VARIANTS].Null?
  }

  lemma StateBack(j: Json)
    ensures ParseState(j).Some? ==> StateName(ParseState(j).value) == j
  {
  }

  lemma HistoryBack(j: Json)
    ensures ParseHistory(j).Some? ==>
      && Strings(ParseHistory(j).value) == j && |ParseHistory(j).value| >= 1
      && |ParseHistory(j).value| <= MAX_REVISIONS_PER_PROFILE && Distinct(ParseHistory(j).value)
      && forall r | r in ParseHistory(j).value :: IsRevision(r)
  {
    hide IsRevision;
    if ParseHistory(j).Some? {
      var history := ParseHistory(j).value;
      assert Strings(history).items == j.items;
      forall r | r in history ensures IsRevision(r) {
        var i :| 0 <= i < |history| && history[i] == r;
        assert j.items[i].s == r;
      }
    }
  }

  lemma VariantsBack(j: Json, history: seq<string>)
    ensures ParseVariants(j, history).Some? ==>
      && (j.Null? <==> ParseVariants(j, history).value == map[])
      && (!j.Null? ==> StringFields(ParseVariants(j, history).value) == j)
      && forall n | n in ParseVariants(j, history).value :: IsName(n) && ParseVariants(j, history).value[n] in history
  {
    hide IsRevision, IsName;
    if ParseVariants(j, history).Some? && !j.Null? {
      var variants := ParseVariants(j, history).value;
      assert variants.Keys == j.fields.Keys;
      forall n | n in variants ensures IsName(n) && variants[n] in history && StringFields(variants).fields[n] == j.fields[n] {
        assert IsVariant(n, j.fields[n], history);
      }
      var n :| n in j.fields;
      assert n in variants;
      assert StringFields(variants).fields == j.fields;
    }
  }

  /** What is accepted is a valid entry, and it is written back as it was read
      unless its variants were spelled out as null. */
  lemma ParsedEntryBack(id: string, j: Json)
    requires ParseEntry(id, j).Some?
    ensures ParseEntry(id, j).value.profileId == id && IsEntry(ParseEntry(id, j).value)
    ensures EntryDocument(ParseEntry(id, j).value) == j <==> !NullVariants(j)
  {
    hide IsRevision, IsName, ParseState, ParseHistory, ParseVariants, Strings, StringFields, StateName, Distinct;
    KeysDiffer();
    StateBack(j.fields[STATE]);
    HistoryBack(j.fields[HISTORY]);
    var e := ParseEntry(id, j).value;
    VariantsBack(VariantsMember(j), e.history);
    var k := EntryDocument(e);
    assert k.fields[STATE] == j.fields[STATE] && k.fields[HISTORY] == j.fields[HISTORY] && k.fields[REVISION] == j.fields[REVISION];
    if !NullVariants(j) {
      assert k.fields.Keys == j.fields.Keys;
      assert k.fields == j.fields;
    } else {
      assert VARIANTS !in k.fields && VARIANTS in j.fields;
    }
  }

  /** What is accepted is a valid catalog, and it is written back as it was read
      exactly when no profile spells out null variants. */
  lemma ParsedCatalogBack(j: Json)
    requires ParseCatalog(j).Some?
    ensures IsCatalog(ParseCatalog(j).value)
    ensures CatalogDocument(ParseCatalog(j).value) == j <==>
      forall id | id in j.fields[PROFILES].fields :: !NullVariants(j.fields[PROFILES].fields[id])
  {
    hide ParseEntry, EntryDocument, IsEntry, IsCatalogId, NullVariants;
    KeysDiffer();
    var profiles, entries := j.fields[PROFILES].fields, ParseCatalog(j).value;
    assert entries.Keys == profiles.Keys;
    assert |entries| == |entries.Keys| && |profiles| == |profiles.Keys|;
    forall id | id in profiles
      ensures entries[id].profileId == id && IsEntry(entries[id])
      ensures EntryDocument(entries[id]) == profiles[id] <==> !NullVariants(profiles[id])
    {
      ParsedEntryBack(id, profiles[id]);
    }
    var written := map id | id in entries :: EntryDocument(entries[id]);
    assert CatalogDocument(entries) == j <==> written == profiles by {
      CatalogDocumentShape(entries);
      assert CatalogDocument(entries).fields[PROFILES] == Obj(written);
      if written == profiles {
        assert CatalogDocument(entries).fields == j.fields;
      }
    }
    if forall id | id in profiles :: !NullVariants(profiles[id]) {
      assert written == profiles;
    }
  }

  // ----- what exactly is accepted -----

  /** The document of `e` is `j`, or would be if `j` did not spell out that
      there are no variants. */
  ghost predicate Writes(e: Entry, j: Json) {
    || EntryDocument(e) == j
    || (e.variants == map[] && j == Obj(EntryDocument(e).fields[VARIANTS := Null]))
  }

  /** A document is accepted under an id exactly when it is that of a valid
      entry of this id, which is then the result. */
  lemma AcceptedIff(id: string, j: Json, e: Entry)
    ensures ParseEntry(id, j) == Some(e) <==> e.profileId == id && IsEntry(e) && Writes(e, j)
  {
    hide IsEntry, ParseEntry;
    if ParseEntry(id, j) == Some(e) {
      AcceptedIsWritten(id, j);
    } else if EntryDocument(e) == j {
      EntryRoundTrip(id, e);
    } else if e.variants == map[] && j == Obj(EntryDocument(e).fields[VARIANTS := Null]) {
      EntryRoundTrip(id, e);
      NullChangesNothing(id, e);
    }
  }

  lemma AcceptedIsWritten(id: string, j: Json)
    requires ParseEntry(id, j).Some?
    ensures var e := ParseEntry(id, j).value; e.profileId == id && IsEntry(e) && Writes(e, j)
  {
    hide IsRevision, IsName, ParseState, ParseHistory, ParseVariants, Strings, StringFields, StateName, Distinct, IsEntry;
    KeysDiffer();
    ParsedEntryBack(id, j);
    var e := ParseEntry(id, j).value;
    if NullVariants(j) {
      NoVariants(e.history);
      StateBack(j.fields[STATE]);
      HistoryBack(j.fields[HISTORY]);
      assert EntryDocument(e).fields[VARIANTS := Null] == j.fields;
    }
  }

  lemma NullChangesNothing(id: string, e: Entry)
    requires e.variants == map[]
    ensures ParseEntry(id, Obj(EntryDocument(e).fields[VARIANTS := Null])) == ParseEntry(id, EntryDocument(e))
  {
    hide ParseState, ParseHistory, ParseVariants, Strings, StateName;
    KeysDiffer();
    var j, k := EntryDocument(e), Obj(EntryDocument(e).fields[VARIANTS := Null]);
    assert HasEntryShape(j) && HasEntryShape(k);
    assert VariantsMember(j) == Null == VariantsMember(k);
  }

  // ----- entries and documents in plain values -----

  predicate AllIn(s: string, alphabet: string) {
    forall k | 0 <= k < |s| :: s[k] in alphabet
  }

  const HEX_DIGITS := "0123456789abcdef"

  lemma RevisionsAre(s: string)
    ensures IsRevision(s) <==> |s| == 64 && AllIn(s, HEX_DIGITS)
  {
    forall c: char
      ensures (IsDigit(c) || 'a' <= c <= 'f') <==> c in HEX_DIGITS
    {
      assert HEX_DIGITS == ['0', '1', '2', '3', '4', '5', '6', '7', '8', '9', 'a', 'b', 'c', 'd', 'e', 'f'];
    }
  }

  predicate SpelledAsName(s: string) {
    && 1 <= |s| <= 32 && 'a' <= s[0] <= 'z'
    && forall k | 0 <= k < |s| :: 'a' <= s[k] <= 'z' || '0' <= s[k] <= '9' || s[k] == '-'
  }

  lemma NamesAre(s: string)
    ensures IsName(s) <==> SpelledAsName(s)
  {
    assert forall k | 0 <= k < |s| :: s[k] in s;
  }

  /** What makes an entry valid, in plain values. */
  lemma EntriesMean(e: Entry)
    ensures IsEntry(e) <==>
      && 1 <= |e.history| <= 32 && e.history[|e.history| - 1] == e.revision
      && (forall i | 0 <= i < |e.history| :: |e.history[i]| == 64 && AllIn(e.history[i], HEX_DIGITS))
      && (forall i, k | 0 <= i < |e.history| && 0 <= k < |e.history| && i != k :: e.history[i] != e.history[k])
      && (forall n | n in e.variants :: e.variants[n] in e.history && SpelledAsName(n))
  {
    hide IsName, IsRevision, AllIn, SpelledAsName, HEX_DIGITS;
    forall r | r in e.history ensures IsRevision(r) <==> |r| == 64 && AllIn(r, HEX_DIGITS) {
      RevisionsAre(r);
    }
    forall n | n in e.variants ensures IsName(n) <==> SpelledAsName(n) {
      NamesAre(n);
    }
  }

  /** What the members of an entry's document are called and hold. */
  lemma DocumentsMean(e: Entry)
    ensures var fields := EntryDocument(e).fields;
      && fields.Keys == {"state", "revision", "history"} + (if |e.variants| == 0 then {} else {"variants"})
      && fields["state"] == Str(match e.state case Active => "active" case Disabled => "disabled")
      && fields["revision"] == Str(e.revision) && IsListOf(fields["history"], e.history)
      && (|e.variants| > 0 ==> IsObjectOf(fields["variants"], e.variants))
  {
    hide IsListOf, IsObjectOf, Strings, StringFields;
    KeysDiffer();
    assert IsListOf(Strings(e.history), e.history) && IsObjectOf(StringFields(e.variants), e.variants) by {
      WrittenValues(e);
    }
  }

  predicate IsListOf(j: Json, s: seq<string>) {
    j.Arr? && |j.items| == |s| && forall i | 0 <= i < |s| :: j.items[i] == Str(s[i])
  }

  predicate IsObjectOf(j: Json, m: map<string, string>) {
    j.Obj? && j.fields.Keys == m.Keys && forall n | n in m :: j.fields[n] == Str(m[n])
  }

  lemma WrittenValues(e: Entry)
    ensures IsListOf(Strings(e.history), e.history) && IsObjectOf(StringFields(e.variants), e.variants)
  {
  }

  // ----- variants -----

  function Without(s: seq<string>, x: string): seq<string> {
    if s == [] then [] else Without(s[..|s| - 1], x) + (if s[|s| - 1] == x then [] else [s[|s| - 1]])
  }

  /** The entry as the named variant offers it. */
  function Materialize(e: Entry, variant: Option<string>): Entry {
    if variant.None? || variant.value !in e.variants then e
    else
      var revision := e.variants[variant.value];
      Entry(e.profileId, e.state, revision, Without(e.history, revision) + [revision], map[])
  }

  lemma {:induction false} WithoutKeepsTheRest(s: seq<string>, x: string)
    requires Distinct(s)
    ensures forall y :: y in Without(s, x) <==> y in s && y != x
    ensures Distinct(Without(s, x))
    ensures |Without(s, x)| == if x in s then |s| - 1 else |s|
  {
    if s != [] {
      var n := |s| - 1;
      WithoutKeepsTheRest(s[..n], x);
      assert s == s[..n] + [s[n]];
      assert s[n] !in s[..n];
    }
  }

  lemma {:induction false} WithoutLeavesOut(s: seq<string>, k: nat)
    requires Distinct(s) && k < |s|
    ensures Without(s, s[k]) == s[..k] + s[k + 1..]
  {
    var n := |s| - 1;
    if k == n {
      WithoutKeepsTheRest(s[..n], s[n]);
      AbsentLeavesAll(s[..n], s[n]);
    } else {
      WithoutLeavesOut(s[..n], k);
      assert s[..n][..k] == s[..k] && s[..n][k + 1..] + [s[n]] == s[k + 1..];
    }
  }

  lemma {:induction false} AbsentLeavesAll(s: seq<string>, x: string)
    requires x !in s
    ensures Without(s, x) == s
  {
    if s != [] {
      AbsentLeavesAll(s[..|s| - 1], x);
    }
  }

  /** A variant's revision is taken from its place in the history and put last;
      the others stay in their order. */
  lemma MaterializedHistory(e: Entry, variant: string, k: nat)
    requires IsEntry(e) && variant in e.variants && k < |e.history| && e.history[k] == e.variants[variant]
    ensures Materialize(e, Some(variant)).history == e.history[..k] + e.history[k + 1..] + [e.history[k]]
    ensures Materialize(e, Some(variant)).variants == map[]
  {
    hide IsRevision, IsName;
    WithoutLeavesOut(e.history, k);
  }

  /** A materialized entry is still valid, has the same revisions, offers the
      variant's one, and that one is last. */
  lemma MaterializedIsEntry(e: Entry, variant: Option<string>)
    requires IsEntry(e)
    ensures var m := Materialize(e, variant);
      && IsEntry(m) && m.profileId == e.profileId && m.state == e.state
      && (forall r :: r in m.history <==> r in e.history) && |m.history| == |e.history|
      && m.revision == (if variant.Some? && variant.value in e.variants then e.variants[variant.value] else e.revision)
  {
    hide IsRevision, IsName;
    if variant.Some? && variant.value in e.variants {
      WithoutKeepsTheRest(e.history, e.variants[variant.value]);
    }
  }
}

/** The catalog parser's loops: entries and variants are added to a dictionary
    one at a time, and the first that is invalid refuses the whole document. */
module CatalogParser {
  import opened Json
  import opened Catalog
  import opened Options

  method ParseVariantDict(value: Json, history: seq<string>) returns (variants: Option<map<string, string>>)
    ensures variants == ParseVariants(value, history)
  {
    hide IsVariant;
    if value.Null? {
      return Some(map[]);
    }
    if !value.Obj? || value.fields == map[] {
      return None;
    }
    var found: map<string, string> := map[];
    var left := value.fields.Keys;
    while left != {}
      invariant left <= value.fields.Keys
      invariant forall n | n in value.fields && n !in left :: IsVariant(n, value.fields[n], history) && value.fields[n].Str?
      invariant found == map n | n in value.fields && n !in left && value.fields[n].Str? :: value.fields[n].s
    {
      var name :| name in left;
      VariantIsText(name, value.fields[name], history);
      if !IsVariant(name, value.fields[name], history) {
        return None;
      }
      found := found[name := value.fields[name].s];
      left := left - {name};
    }
    assert ParseVariants(value, history).Some? && found == ParseVariants(value, history).value;
    variants := Some(found);
  }

  lemma VariantIsText(name: string, revision: Json, history: seq<string>)
    ensures IsVariant(name, revision, history) ==> revision.Str?
  {
  }

  method ParseCatalogDocument(document: Json) returns (entries: Option<map<string, Entry>>)
    ensures entries == ParseCatalog(document)
  {
    hide ParseEntry, IsCatalogId, HasCatalogShape;
    if !HasCatalogShape(document) {
      return None;
    }
    ShapeHasProfiles(document);
    var profiles := document.fields[PROFILES].fields;
    var found: map<string, Entry> := map[];
    var left := profiles.Keys;
    while left != {}
      invariant left <= profiles.Keys
      invariant forall id | id in profiles && id !in left :: IsCatalogId(id) && ParseEntry(id, profiles[id]).Some?
      invariant found == map id | id in profiles && id !in left && ParseEntry(id, profiles[id]).Some? ::
                  ParseEntry(id, profiles[id]).value
    {
      var id :| id in left;
      if !IsCatalogId(id) {
        return None;
      }
      var entry := ParseEntry(id, profiles[id]);
      if entry.None? {
        return None;
      }
      found := found[id := entry.value];
      left := left - {id};
    }
    assert found == ParseCatalog(document).value;
    entries := Some(found);
  }

  lemma ShapeHasProfiles(document: Json)
    requires HasCatalogShape(document)
    ensures document.Obj? && PROFILES in document.fields && document.fields[PROFILES].Obj?
  {
  }
}

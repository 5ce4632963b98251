/** The profile registry built from a catalog and the revision files it names.
    `read` gives the profile in a revision file, if there is a valid one. */
module Registry {
  import opened Catalog
  import opened Options

  /** A profile; its revision is the digest of the rest. */
  datatype Profile = Profile(profileId: string, revision: string, content: string)

  type Reader = (string, string) -> Option<Profile>

  /** `AgentProfileRegistry`: what is selectable, and what resolves. */
  datatype Registry = Registry(profiles: map<string, Profile>, revisions: map<(string, string), Profile>)

  function Key(p: Profile): (string, string) {
    (p.profileId, p.revision)
  }

  predicate DistinctIds(s: seq<Profile>) {
    forall i, j | 0 <= i < j < |s| :: s[i].profileId != s[j].profileId
  }

  predicate DistinctKeys(s: seq<Profile>) {
    forall i, j | 0 <= i < j < |s| :: Key(s[i]) != Key(s[j])
  }

  /** `m` holds exactly the profiles of `s`, by id. */
  ghost predicate ById(m: map<string, Profile>, s: seq<Profile>) {
    && (forall p | p in s :: p.profileId in m && m[p.profileId] == p)
    && (forall id | id in m :: m[id].profileId == id && m[id] in s)
    && DistinctIds(s)
  }

  /** `m` holds exactly the profiles of `s`, by id and revision. */
  ghost predicate ByKey(m: map<(string, string), Profile>, s: seq<Profile>) {
    && (forall p | p in s :: Key(p) in m && m[Key(p)] == p)
    && (forall k | k in m :: Key(m[k]) == k && m[k] in s)
    && DistinctKeys(s)
  }

  lemma OneMoreById(m: map<string, Profile>, s: seq<Profile>, n: nat)
    requires n < |s| && ById(m, s[..n])
    ensures s[n].profileId !in m ==> ById(m[s[n].profileId := s[n]], s[..n + 1])
    ensures s[n].profileId in m ==> !DistinctIds(s)
  {
    assert s[..n + 1] == s[..n] + [s[n]];
    if s[n].profileId in m {
      var j :| 0 <= j < n && s[..n][j] == m[s[n].profileId];
      assert s[j].profileId == s[n].profileId;
    } else {
      forall i | 0 <= i < n ensures s[i].profileId != s[n].profileId {
        assert s[..n][i] in s[..n];
      }
      assert DistinctIds(s[..n + 1]);
    }
  }

  lemma OneMoreByKey(m: map<(string, string), Profile>, s: seq<Profile>, n: nat)
    requires n < |s| && ByKey(m, s[..n])
    ensures Key(s[n]) !in m ==> ByKey(m[Key(s[n]) := s[n]], s[..n + 1])
    ensures Key(s[n]) in m ==> !DistinctKeys(s)
  {
    assert s[..n + 1] == s[..n] + [s[n]];
    if Key(s[n]) in m {
      var j :| 0 <= j < n && s[..n][j] == m[Key(s[n])];
      assert Key(s[j]) == Key(s[n]);
    } else {
      forall i | 0 <= i < n ensures Key(s[i]) != Key(s[n]) {
        assert s[..n][i] in s[..n];
      }
      assert DistinctKeys(s[..n + 1]);
    }
  }

  /** The constructor's loops. It refuses a repeated id, an empty registry, and a
      repeated revision. */
  method BuildRegistry(profiles: seq<Profile>, historical: seq<Profile>) returns (r: Option<Registry>)
    ensures r.Some? <==> DistinctIds(profiles) && profiles != [] && DistinctKeys(profiles + historical)
    ensures r.Some? ==> ById(r.value.profiles, profiles) && ByKey(r.value.revisions, profiles + historical)
  {
    hide ById, ByKey, DistinctIds, DistinctKeys;
    var indexed: map<string, Profile> := map[];
    var revisions: map<(string, string), Profile> := map[];
    NothingIndexed();
    assert profiles[..0] == [];
    for i := 0 to |profiles|
      invariant ById(indexed, profiles[..i]) && ByKey(revisions, profiles[..i])
      invariant |indexed| == 0 ==> i == 0
    {
      OneMoreById(indexed, profiles, i);
      if profiles[i].profileId in indexed {
        return None;
      }
      OneMoreByKey(revisions, profiles, i);
      NewIdIsNewKey(indexed, revisions, profiles[..i], profiles[i]);
      indexed := indexed[profiles[i].profileId := profiles[i]];
      revisions := revisions[Key(profiles[i]) := profiles[i]];
    }
    assert profiles[..|profiles|] == profiles;
    IndexedAreDistinct(indexed, profiles);
    if |indexed| == 0 {
      return None;
    }
    var all := profiles + historical;
    assert all[..|profiles|] == profiles;
    for i := |profiles| to |all|
      invariant ByKey(revisions, all[..i])
    {
      OneMoreByKey(revisions, all, i);
      assert historical[i - |profiles|] == all[i];
      if Key(historical[i - |profiles|]) in revisions {
        return None;
      }
      revisions := revisions[Key(historical[i - |profiles|]) := historical[i - |profiles|]];
    }
    assert all[..|all|] == all;
    KeyedAreDistinct(revisions, all);
    r := Some(Registry(indexed, revisions));
  }

  lemma NothingIndexed()
    ensures ById(map[], []) && ByKey(map[], [])
  {
  }

  lemma IndexedAreDistinct(m: map<string, Profile>, s: seq<Profile>)
    requires ById(m, s)
    ensures DistinctIds(s) && (|m| == 0 <==> s == [])
  {
    if s != [] {
      assert s[0].profileId in m;
    } else {
      assert forall id :: id !in m;
      assert m == map[];
    }
  }

  lemma KeyedAreDistinct(m: map<(string, string), Profile>, s: seq<Profile>)
    requires ByKey(m, s)
    ensures DistinctKeys(s)
  {
  }

  lemma NewIdIsNewKey(m: map<string, Profile>, n: map<(string, string), Profile>, s: seq<Profile>, p: Profile)
    requires ById(m, s) && ByKey(n, s) && p.profileId !in m
    ensures Key(p) !in n
  {
  }

  predicate Offered(e: Entry, revision: string) {
    e.state.Active? && revision == e.revision
  }

  /** The revision's file is there and is what its name says. */
  predicate Readable(read: Reader, id: string, revision: string) {
    read(id, revision).Some? && Key(read(id, revision).value) == (id, revision)
  }

  predicate AllReadable(entries: map<string, Entry>, read: Reader) {
    forall id | id in entries :: forall r | r in entries[id].history :: Readable(read, id, r)
  }

  /** Exactly the profiles on offer, one for each active entry in `ids`. */
  ghost predicate IsSelectable(s: seq<Profile>, entries: map<string, Entry>, ids: set<string>, read: Reader)
    requires ids <= entries.Keys
  {
    && (forall p | p in s :: p.profileId in ids && Offered(entries[p.profileId], p.revision) && read(p.profileId, p.revision) == Some(p))
    && (forall id | id in ids && entries[id].state.Active? ::
          read(id, entries[id].revision).Some? && read(id, entries[id].revision).value in s)
    && DistinctIds(s)
  }

  /** Exactly the other revisions of the entries in `ids`. */
  ghost predicate IsResolvable(s: seq<Profile>, entries: map<string, Entry>, ids: set<string>, read: Reader)
    requires ids <= entries.Keys
  {
    && (forall p | p in s :: p.profileId in ids && p.revision in entries[p.profileId].history
          && !Offered(entries[p.profileId], p.revision) && read(p.profileId, p.revision) == Some(p))
    && (forall id | id in ids :: forall r | r in entries[id].history && !Offered(entries[id], r) ::
          read(id, r).Some? && read(id, r).value in s)
    && DistinctKeys(s)
  }

  datatype Loaded = Unreadable | Loaded(selectable: seq<Profile>, resolvable: seq<Profile>)

  function OfferedProfile(e: Entry, read: Reader): seq<Profile> {
    if e.state.Active? && read(e.profileId, e.revision).Some? then [read(e.profileId, e.revision).value] else []
  }

  /** The inner loop of `_load_catalog_store`. */
  method LoadEntry(e: Entry, read: Reader) returns (l: Loaded)
    requires IsEntry(e)
    ensures l.Loaded? <==> forall r | r in e.history :: Readable(read, e.profileId, r)
    ensures l.Loaded? ==>
      && l.selectable == OfferedProfile(e, read)
      && IsResolvable(l.resolvable, map[e.profileId := e], {e.profileId}, read)
  {
    var selectable: seq<Profile>, resolvable: seq<Profile> := [], [];
    hide IsRevision, IsName;
    for i := 0 to |e.history|
      invariant forall r | r in e.history[..i] :: Readable(read, e.profileId, r)
      invariant selectable == if i == |e.history| then OfferedProfile(e, read) else []
      invariant forall p | p in resolvable :: p.profileId == e.profileId && p.revision in e.history[..i]
                  && !Offered(e, p.revision) && read(p.profileId, p.revision) == Some(p)
      invariant forall r | r in e.history[..i] && !Offered(e, r) ::
                  read(e.profileId, r).Some? && read(e.profileId, r).value in resolvable
      invariant DistinctKeys(resolvable)
    {
      var revision := e.history[i];
      assert e.history[..i + 1] == e.history[..i] + [revision];
      assert revision !in e.history[..i] && revision in e.history;
      var file := read(e.profileId, revision);
      if file.None? || file.value.profileId != e.profileId || file.value.revision != revision {
        return Unreadable;
      }
      if e.state.Active? && revision == e.revision {
        selectable := selectable + [file.value];
      } else {
        resolvable := resolvable + [file.value];
      }
    }
    assert e.history[..|e.history|] == e.history;
    l := Loaded(selectable, resolvable);
  }

  /** `_load_catalog_store`, from a parsed catalog. */
  method LoadStore(entries: map<string, Entry>, read: Reader) returns (l: Loaded)
    requires IsCatalog(entries)
    ensures l.Loaded? <==> AllReadable(entries, read)
    ensures l.Loaded? ==> IsSelectable(l.selectable, entries, entries.Keys, read)
    ensures l.Loaded? ==> IsResolvable(l.resolvable, entries, entries.Keys, read)
  {
    hide IsCatalog, IsEntry, IsSelectable, IsResolvable;
    NothingLoaded(entries, read);
    var selectable: seq<Profile>, resolvable: seq<Profile> := [], [];
    var left := entries.Keys;
    ghost var ids := {};
    while left != {}
      invariant ids <= entries.Keys && left == entries.Keys - ids
      invariant forall id | id in ids :: forall r | r in entries[id].history :: Readable(read, id, r)
      invariant IsSelectable(selectable, entries, ids, read)
      invariant IsResolvable(resolvable, entries, ids, read)
      decreases left
    {
      var id :| id in left;
      ParsedId(entries, id);
      var one := LoadEntry(entries[id], read);
      if one.Unreadable? {
        assert !AllReadable(entries, read);
        return Unreadable;
      }
      OfferedIsInHistory(entries[id]);
      MoreLoaded(entries, ids, id, read, selectable, resolvable, one);
      selectable := selectable + one.selectable;
      resolvable := resolvable + one.resolvable;
      ids := ids + {id};
      left := left - {id};
    }
    assert ids == entries.Keys;
    l := Loaded(selectable, resolvable);
  }

  lemma NothingLoaded(entries: map<string, Entry>, read: Reader)
    ensures IsSelectable([], entries, {}, read) && IsResolvable([], entries, {}, read)
  {
  }

  lemma ParsedId(entries: map<string, Entry>, id: string)
    requires IsCatalog(entries) && id in entries
    ensures entries[id].profileId == id && IsEntry(entries[id])
  {
  }

  lemma OfferedIsInHistory(e: Entry)
    requires IsEntry(e)
    ensures e.revision in e.history
  {
  }

  lemma MoreLoaded(entries: map<string, Entry>, ids: set<string>, id: string, read: Reader,
                   selectable: seq<Profile>, resolvable: seq<Profile>, one: Loaded)
    requires ids <= entries.Keys && id in entries && id !in ids && entries[id].profileId == id && one.Loaded?
    requires entries[id].revision in entries[id].history
    requires forall r | r in entries[id].history :: Readable(read, id, r)
    requires IsSelectable(selectable, entries, ids, read) && IsResolvable(resolvable, entries, ids, read)
    requires one.selectable == OfferedProfile(entries[id], read)
    requires IsResolvable(one.resolvable, map[id := entries[id]], {id}, read)
    ensures IsSelectable(selectable + one.selectable, entries, ids + {id}, read)
    ensures IsResolvable(resolvable + one.resolvable, entries, ids + {id}, read)
  {
    assert entries[id].state.Active? ==> Readable(read, id, entries[id].revision);
  }

  /** Resolving: the built-in profiles and every revision in a history, each from
      its file. */
  ghost predicate Resolves(revisions: map<(string, string), Profile>, builtIn: Profile, older: seq<Profile>,
                           entries: map<string, Entry>, read: Reader)
  {
    && (forall k :: k in revisions <==>
          k == Key(builtIn) || (exists p | p in older :: Key(p) == k)
          || (k.0 in entries && k.1 in entries[k.0].history))
    && Key(builtIn) in revisions && revisions[Key(builtIn)] == builtIn
    && (forall p | p in older :: Key(p) in revisions && revisions[Key(p)] == p)
    && (forall id | id in entries :: forall r | r in entries[id].history ::
          (id, r) in revisions && Some(revisions[(id, r)]) == read(id, r))
  }

  /** Listing: the built-in profile and each active entry's offered revision. */
  ghost predicate Lists(profiles: map<string, Profile>, builtIn: Profile, entries: map<string, Entry>, read: Reader) {
    && (forall id :: id in profiles <==> id == builtIn.profileId || (id in entries && entries[id].state.Active?))
    && builtIn.profileId in profiles && profiles[builtIn.profileId] == builtIn
    && (forall id | id in entries && entries[id].state.Active? ::
          id in profiles && Some(profiles[id]) == read(id, entries[id].revision))
  }

  /** The registry that the program runs with: built-in profiles and the store. */
  ghost predicate IsRegistryOf(g: Registry, builtIn: Profile, older: seq<Profile>, entries: map<string, Entry>, read: Reader) {
    Resolves(g.revisions, builtIn, older, entries, read) && Lists(g.profiles, builtIn, entries, read)
  }

  /** The built-in profiles are all named `general` and have different revisions. */
  predicate BuiltIns(builtIn: Profile, older: seq<Profile>) {
    builtIn.profileId == BUILT_IN && (forall p | p in older :: p.profileId == BUILT_IN) && DistinctKeys([builtIn] + older)
  }

  /** `load_registry`: a valid catalog whose files are all readable always makes a
      registry; none of the refusals of a repeated id or revision can come. */
  method LoadRegistry(builtIn: Profile, older: seq<Profile>, entries: map<string, Entry>, read: Reader)
    returns (g: Option<Registry>)
    requires IsCatalog(entries) && BuiltIns(builtIn, older)
    ensures g.Some? <==> AllReadable(entries, read)
    ensures g.Some? ==> IsRegistryOf(g.value, builtIn, older, entries, read)
  {
    hide IsCatalog, IsSelectable, IsResolvable, IsRegistryOf, Resolves, Lists, ById, ByKey, BuiltIns;
    var loaded := LoadStore(entries, read);
    if loaded.Unreadable? {
      return None;
    }
    StoreIsDistinct(builtIn, older, entries, read, loaded.selectable, loaded.resolvable);
    g := BuildRegistry([builtIn] + loaded.selectable, older + loaded.resolvable);
    ResolvesAll(builtIn, older, entries, read, loaded.selectable, loaded.resolvable, g.value.revisions);
    ListsAll(builtIn, entries, read, loaded.selectable, g.value.profiles);
    RegistryHolds(g.value, builtIn, older, entries, read);
  }

  lemma OtherIds(entries: map<string, Entry>)
    requires IsCatalog(entries)
    ensures BUILT_IN !in entries
    ensures forall id | id in entries :: entries[id].profileId == id && entries[id].revision in entries[id].history
  {
    hide IsRevision, IsName;
  }

  lemma StoreIsDistinct(builtIn: Profile, older: seq<Profile>, entries: map<string, Entry>, read: Reader,
                        selectable: seq<Profile>, resolvable: seq<Profile>)
    requires IsCatalog(entries) && BuiltIns(builtIn, older)
    requires IsSelectable(selectable, entries, entries.Keys, read) && IsResolvable(resolvable, entries, entries.Keys, read)
    ensures DistinctIds([builtIn] + selectable)
    ensures DistinctKeys([builtIn] + selectable + (older + resolvable))
  {
    hide IsCatalog;
    OtherIds(entries);
    var all := [builtIn] + selectable + (older + resolvable);
    forall i, j | 0 <= i < j < |all| ensures Key(all[i]) != Key(all[j]) {
      DistinctPair(builtIn, older, entries, read, selectable, resolvable, i, j);
    }
  }

  lemma DistinctPair(builtIn: Profile, older: seq<Profile>, entries: map<string, Entry>, read: Reader,
                     selectable: seq<Profile>, resolvable: seq<Profile>, i: nat, j: nat)
    requires BuiltIns(builtIn, older) && BUILT_IN !in entries
    requires IsSelectable(selectable, entries, entries.Keys, read) && IsResolvable(resolvable, entries, entries.Keys, read)
    requires i < j < 1 + |selectable| + |older| + |resolvable|
    ensures var all := [builtIn] + selectable + (older + resolvable); Key(all[i]) != Key(all[j])
  {
    var all := [builtIn] + selectable + (older + resolvable);
    var a, b := 1 + |selectable|, 1 + |selectable| + |older|;
    if 1 <= i < a {
      assert all[i] == selectable[i - 1];
    } else if a <= i < b {
      assert all[i] == older[i - a] == ([builtIn] + older)[i - a + 1];
    } else if b <= i {
      assert all[i] == resolvable[i - b];
    } else {
      assert all[i] == ([builtIn] + older)[0];
    }
    if j < a {
      assert all[j] == selectable[j - 1];
    } else if j < b {
      assert all[j] == older[j - a] == ([builtIn] + older)[j - a + 1];
    } else {
      assert all[j] == resolvable[j - b];
    }
  }

  lemma RegistryHolds(g: Registry, builtIn: Profile, older: seq<Profile>, entries: map<string, Entry>, read: Reader)
    requires Resolves(g.revisions, builtIn, older, entries, read) && Lists(g.profiles, builtIn, entries, read)
    ensures IsRegistryOf(g, builtIn, older, entries, read)
  {
  }

  lemma ResolvesAll(builtIn: Profile, older: seq<Profile>, entries: map<string, Entry>, read: Reader,
                    selectable: seq<Profile>, resolvable: seq<Profile>, revisions: map<(string, string), Profile>)
    requires IsCatalog(entries) && BuiltIns(builtIn, older) && AllReadable(entries, read)
    requires IsSelectable(selectable, entries, entries.Keys, read) && IsResolvable(resolvable, entries, entries.Keys, read)
    requires ByKey(revisions, [builtIn] + selectable + (older + resolvable))
    ensures Resolves(revisions, builtIn, older, entries, read)
  {
    hide IsCatalog, DistinctIds, DistinctKeys;
    OtherIds(entries);
    var all := [builtIn] + selectable + (older + resolvable);
    forall id, r | id in entries && r in entries[id].history
      ensures (id, r) in revisions && Some(revisions[(id, r)]) == read(id, r)
    {
      assert Readable(read, id, r);
      var p := read(id, r).value;
      assert p in all;
      assert Key(p) == (id, r);
    }
    assert builtIn in all;
    forall p | p in older ensures p in all {
    }
  }

  lemma ListsAll(builtIn: Profile, entries: map<string, Entry>, read: Reader, selectable: seq<Profile>,
                 profiles: map<string, Profile>)
    requires IsCatalog(entries) && AllReadable(entries, read)
    requires IsSelectable(selectable, entries, entries.Keys, read) && ById(profiles, [builtIn] + selectable)
    ensures Lists(profiles, builtIn, entries, read)
  {
    hide IsCatalog, DistinctIds;
    OtherIds(entries);
    forall id | id in entries && entries[id].state.Active?
      ensures id in profiles && Some(profiles[id]) == read(id, entries[id].revision)
    {
      assert Readable(read, id, entries[id].revision);
      assert read(id, entries[id].revision).value in [builtIn] + selectable;
    }
    assert builtIn in [builtIn] + selectable;
  }

  // ----- variants keep every pinned revision -----

  function MaterializeAll(entries: map<string, Entry>, variant: Option<string>): map<string, Entry> {
    map id | id in entries :: Materialize(entries[id], variant)
  }

  lemma MaterializedCatalog(entries: map<string, Entry>, variant: Option<string>)
    requires IsCatalog(entries)
    ensures IsCatalog(MaterializeAll(entries, variant))
    ensures MaterializeAll(entries, variant).Keys == entries.Keys
    ensures forall id | id in entries ::
      && (forall r :: r in MaterializeAll(entries, variant)[id].history <==> r in entries[id].history)
      && MaterializeAll(entries, variant)[id].state == entries[id].state
  {
    hide IsEntry, Materialize, IsCatalogId;
    var m := MaterializeAll(entries, variant);
    assert m.Keys == entries.Keys;
    assert |m| == |m.Keys| && |entries| == |entries.Keys|;
    forall id | id in entries
      ensures IsEntry(m[id]) && m[id].profileId == id && m[id].state == entries[id].state
      ensures forall r :: r in m[id].history <==> r in entries[id].history
    {
      MaterializedIsEntry(entries[id], variant);
    }
  }

  /** Selecting a variant changes which revision is offered and nothing else: the
      same revisions load, the same ids are listed, and every pinned revision
      resolves to the same profile. */
  lemma VariantsKeepPinnedRevisions(builtIn: Profile, older: seq<Profile>, entries: map<string, Entry>, read: Reader,
                                    variant: Option<string>, g: Registry, h: Registry)
    requires IsCatalog(entries)
    requires IsRegistryOf(g, builtIn, older, entries, read)
    requires IsRegistryOf(h, builtIn, older, MaterializeAll(entries, variant), read)
    ensures g.revisions == h.revisions && g.profiles.Keys == h.profiles.Keys
    ensures forall id | id in entries && entries[id].state.Active? && id != builtIn.profileId ::
      id in h.profiles && Some(h.profiles[id]) == read(id, Materialize(entries[id], variant).revision)
  {
    hide IsCatalog, Materialize;
    MaterializedCatalog(entries, variant);
    var m := MaterializeAll(entries, variant);
    forall k ensures k in g.revisions <==> k in h.revisions {
    }
    forall k | k in g.revisions ensures g.revisions[k] == h.revisions[k] {
      if k.0 in entries && k.1 in entries[k.0].history {
        assert k == (k.0, k.1);
        assert k.1 in m[k.0].history;
      }
    }
  }

  lemma VariantsLoadAlike(entries: map<string, Entry>, read: Reader, variant: Option<string>)
    requires IsCatalog(entries)
    ensures AllReadable(MaterializeAll(entries, variant), read) <==> AllReadable(entries, read)
  {
    hide IsCatalog, Materialize, Readable;
    MaterializedCatalog(entries, variant);
    var m := MaterializeAll(entries, variant);
    assert forall id | id in entries :: id in m;
  }
}

/**
 What a sync leaves in the template cache, read off the words and fields of Meta's list.
 */
module TemplateWords {
  import opened Wrappers
  import opened Rows
  import opened Delivery
  import opened TemplateMerge
  import CommittedRows

  // ------------------------------------------------------------ entries

  /** The entry has this name, and this language or none, which stands for "en_US". */
  predicate EntryFor(raw: RawTemplate, name: string, language: string) {
    && name != "" && raw.name == Some(name)
    && (if raw.language.Given? then raw.language.text == language else raw.language.Missing? && language == "en_US")
  }

  ghost predicate LastEntry(raws: seq<RawTemplate>, i: nat, name: string, language: string) {
    && i < |raws| && EntryFor(raws[i], name, language)
    && forall j :: i < j < |raws| ==> !EntryFor(raws[j], name, language)
  }

  predicate GivesId(raw: RawTemplate) {
    raw.id.Some? && raw.id.value != ""
  }

  /** The entry is the last of the first n for a template that has an id. */
  ghost predicate LastGiving(raws: seq<RawTemplate>, n: nat, i: nat, name: string, language: string) {
    && i < n <= |raws| && EntryFor(raws[i], name, language) && GivesId(raws[i])
    && forall j :: i < j < n && EntryFor(raws[j], name, language) ==> !GivesId(raws[j])
  }

  /** The last id that the first n entries give for a template, or else the one it starts with. */
  ghost predicate LastGiven(raws: seq<RawTemplate>, n: nat, name: string, language: string, start: Option<string>,
                            id: Option<string>) {
    if exists j: nat :: LastGiving(raws, n, j, name, language) then
      exists j: nat :: LastGiving(raws, n, j, name, language) && id == raws[j].id
    else id == start
  }

  // ------------------------------------------------------------ one row

  predicate StatusRead(word: Option<string>, status: TemplateStatus) {
    && (status.Approved? <==> word == Some("APPROVED")) && (status.Rejected? <==> word == Some("REJECTED"))
    && (status.Paused? <==> word == Some("PAUSED")) && (status.Disabled? <==> word == Some("DISABLED"))
  }

  predicate CategoryRead(word: Option<string>, category: TemplateCategory) {
    && (category.Marketing? <==> word == Some("MARKETING"))
    && (category.Authentication? <==> word == Some("AUTHENTICATION"))
  }

  /** A cached template takes the last id that its entries give and else keeps its own; a new one has its entry's. */
  ghost predicate IdRead(sync: SyncEnv, rows: TemplateCache, raws: seq<RawTemplate>, i: nat, name: string,
                         language: string, id: Option<string>) {
    var key := TemplateKey(sync.tenant, name, language);
    if key !in rows then i < |raws| && id == raws[i].id
    else LastGiven(raws, |raws|, name, language, rows[key].metaTemplateId, id)
  }

  /** The row holds what the entry says, and the time of the sync. */
  ghost predicate RowRead(sync: SyncEnv, rows: TemplateCache, raws: seq<RawTemplate>, i: nat, name: string,
                          language: string, row: CachedTemplate) {
    && i < |raws| && StatusRead(raws[i].status, row.status) && CategoryRead(raws[i].category, row.category)
    && (if raws[i].components.Some? then row.components == raws[i].components.value else row.components == [])
    && row.lastSyncedAt == Some(sync.now)
    && IdRead(sync, rows, raws, i, name, language, row.metaTemplateId)
  }

  /** The cache after a sync: each template that the list has as in its last entry, and the others as before. */
  ghost predicate CacheRead(sync: SyncEnv, rows: TemplateCache, raws: seq<RawTemplate>, rows': TemplateCache) {
    && (forall name, language, i: nat :: LastEntry(raws, i, name, language) ==>
          var key := TemplateKey(sync.tenant, name, language);
          key in rows' && RowRead(sync, rows, raws, i, name, language, rows'[key]))
    && (forall key: TemplateKey ::
          key.tenantId != sync.tenant || (forall i: nat :: !LastEntry(raws, i, key.name, key.language)) ==>
          if key in rows then key in rows' && rows'[key] == rows[key] else key !in rows')
  }

  // ------------------------------------------------------------ what can be committed

  /** No named entry has a null language. */
  predicate NoNullLanguage(raws: seq<RawTemplate>) {
    forall i :: 0 <= i < |raws| && raws[i].name.Some? && raws[i].name.value != "" ==> !raws[i].language.Null?
  }

  /** A template that the list has twice is in the cache. */
  ghost predicate RepeatsAreCached(sync: SyncEnv, rows: TemplateCache, raws: seq<RawTemplate>) {
    forall i, j, name, language ::
      0 <= i < j < |raws| && EntryFor(raws[i], name, language) && EntryFor(raws[j], name, language) ==>
        TemplateKey(sync.tenant, name, language) in rows
  }

  /** The columns are wide enough: 150 characters for a name, 20 for a language, 64 for an id. */
  ghost predicate WideEnough(sync: SyncEnv, rows: TemplateCache, raws: seq<RawTemplate>) {
    forall i: nat, name, language :: LastEntry(raws, i, name, language) ==>
      && |name| <= 150 && |language| <= 20
      && forall id :: IdRead(sync, rows, raws, i, name, language, Some(id)) ==> |id| <= 64
  }

  // ------------------------------------------------------------ proofs

  lemma EntryWrites(tenant: Id, raw: RawTemplate, key: TemplateKey)
    ensures key.tenantId == tenant ==> (Writes(tenant, raw, key) <==> EntryFor(raw, key.name, key.language))
    ensures key.tenantId != tenant ==> !Writes(tenant, raw, key)
  {
  }

  lemma LastIsEntry(tenant: Id, raws: seq<RawTemplate>, i: nat, key: TemplateKey)
    requires key.tenantId == tenant && LastEntry(raws, i, key.name, key.language)
    ensures Listed(tenant, raws, |raws|, key) && Last(tenant, raws, |raws|, key) == i
  {
    forall j: nat | j < |raws|
      ensures Writes(tenant, raws[j], key) <==> EntryFor(raws[j], key.name, key.language)
    {
      EntryWrites(tenant, raws[j], key);
    }
    assert Writes(tenant, raws[i], key);
  }

  lemma ListedHasLast(tenant: Id, raws: seq<RawTemplate>, key: TemplateKey)
    requires Listed(tenant, raws, |raws|, key)
    ensures key.tenantId == tenant && LastEntry(raws, Last(tenant, raws, |raws|, key), key.name, key.language)
  {
    forall j: nat | j < |raws|
      ensures Writes(tenant, raws[j], key) <==> key.tenantId == tenant && EntryFor(raws[j], key.name, key.language)
    {
      EntryWrites(tenant, raws[j], key);
    }
    assert Writes(tenant, raws[Last(tenant, raws, |raws|, key)], key);
  }

  lemma {:induction false} LastIdIsRead(raws: seq<RawTemplate>, n: nat, key: TemplateKey, start: Option<string>)
    requires n <= |raws|
    ensures LastGiven(raws, n, key.name, key.language, start, LastId(key.tenantId, raws, n, key, start))
  {
    if n > 0 {
      LastIdIsRead(raws, n - 1, key, start);
      EntryWrites(key.tenantId, raws[n - 1], key);
      if EntryFor(raws[n - 1], key.name, key.language) && GivesId(raws[n - 1]) {
        assert LastGiving(raws, n, n - 1, key.name, key.language);
      } else {
        SameLastGiven(raws, n - 1, key.name, key.language, start, LastId(key.tenantId, raws, n - 1, key, start));
      }
    }
  }

  /** An entry without an id does not change which was the last to give one. */
  lemma SameLastGiven(raws: seq<RawTemplate>, n: nat, name: string, language: string, start: Option<string>,
                      id: Option<string>)
    requires n < |raws| && !(EntryFor(raws[n], name, language) && GivesId(raws[n]))
    requires LastGiven(raws, n, name, language, start, id)
    ensures LastGiven(raws, n + 1, name, language, start, id)
  {
    var m := n + 1;
    assert forall j: nat :: LastGiving(raws, n, j, name, language) <==> LastGiving(raws, m, j, name, language);
    if j: nat :| LastGiving(raws, n, j, name, language) && id == raws[j].id {
      assert LastGiving(raws, m, j, name, language);
    }
  }

  /** There is one id that is read. */
  lemma OneLastGiving(raws: seq<RawTemplate>, n: nat, name: string, language: string, i: nat, j: nat)
    requires LastGiving(raws, n, i, name, language) && LastGiving(raws, n, j, name, language)
    ensures i == j
  {
  }

  lemma EntryMeans(sync: SyncEnv, raw: RawTemplate, id: Option<string>)
    ensures var row := Mapped(sync, raw, id);
            && StatusRead(raw.status, row.status) && CategoryRead(raw.category, row.category)
            && (if raw.components.Some? then row.components == raw.components.value else row.components == [])
            && row.lastSyncedAt == Some(sync.now) && row.metaTemplateId == id
  {
  }

  lemma RowIsRead(sync: SyncEnv, rows: TemplateCache, raws: seq<RawTemplate>, i: nat, name: string, language: string)
    requires NewKeysOnce(sync.tenant, rows, raws, |raws|) && LastEntry(raws, i, name, language)
    ensures var key, merged := TemplateKey(sync.tenant, name, language), Merge(sync, rows, raws, |raws|);
            key in merged && RowRead(sync, rows, raws, i, name, language, merged[key])
  {
    var key := TemplateKey(sync.tenant, name, language);
    LastIsEntry(sync.tenant, raws, i, key);
    MergeRows(sync, rows, raws, |raws|, key);
    if key in rows {
      var start := rows[key].metaTemplateId;
      LastIdIsRead(raws, |raws|, key, start);
      EntryMeans(sync, raws[i], LastId(sync.tenant, raws, |raws|, key, start));
    } else {
      EntryMeans(sync, raws[i], raws[i].id);
    }
  }

  lemma OtherRowIsKept(sync: SyncEnv, rows: TemplateCache, raws: seq<RawTemplate>, key: TemplateKey)
    requires key.tenantId != sync.tenant || forall i: nat :: !LastEntry(raws, i, key.name, key.language)
    ensures var merged := Merge(sync, rows, raws, |raws|);
            if key in rows then key in merged && merged[key] == rows[key] else key !in merged
  {
    MergeRows(sync, rows, raws, |raws|, key);
    if Listed(sync.tenant, raws, |raws|, key) { ListedHasLast(sync.tenant, raws, key); }
  }

  lemma CacheIsRead(sync: SyncEnv, rows: TemplateCache, raws: seq<RawTemplate>)
    requires NewKeysOnce(sync.tenant, rows, raws, |raws|)
    ensures CacheRead(sync, rows, raws, Merge(sync, rows, raws, |raws|))
  {
    forall name, language, i: nat | LastEntry(raws, i, name, language)
      ensures var key, merged := TemplateKey(sync.tenant, name, language), Merge(sync, rows, raws, |raws|);
              key in merged && RowRead(sync, rows, raws, i, name, language, merged[key])
    {
      RowIsRead(sync, rows, raws, i, name, language);
    }
    forall key: TemplateKey |
      key.tenantId != sync.tenant || (forall i: nat :: !LastEntry(raws, i, key.name, key.language))
      ensures var merged := Merge(sync, rows, raws, |raws|);
              if key in rows then key in merged && merged[key] == rows[key] else key !in merged
    {
      OtherRowIsKept(sync, rows, raws, key);
    }
  }

  lemma RepeatsMean(sync: SyncEnv, rows: TemplateCache, raws: seq<RawTemplate>)
    ensures NewKeysOnce(sync.tenant, rows, raws, |raws|) <==> RepeatsAreCached(sync, rows, raws)
  {
    var tenant := sync.tenant;
    if NewKeysOnce(tenant, rows, raws, |raws|) {
      forall i: nat, j: nat, name, language |
        i < j < |raws| && EntryFor(raws[i], name, language) && EntryFor(raws[j], name, language)
        ensures TemplateKey(tenant, name, language) in rows
      {
        assert KeyOf(tenant, raws[i]) == TemplateKey(tenant, name, language) == KeyOf(tenant, raws[j]);
      }
    }
    if RepeatsAreCached(sync, rows, raws) {
      forall i: nat, j: nat |
        i < j < |raws| && Keyed(raws[i]) && Keyed(raws[j]) && KeyOf(tenant, raws[i]) == KeyOf(tenant, raws[j])
        ensures KeyOf(tenant, raws[i]) in rows
      {
        var key := KeyOf(tenant, raws[i]);
        assert EntryFor(raws[i], key.name, key.language) && EntryFor(raws[j], key.name, key.language);
      }
    }
  }

  lemma IdIsRead(sync: SyncEnv, rows: TemplateCache, raws: seq<RawTemplate>, i: nat, name: string, language: string,
                 a: Option<string>, b: Option<string>)
    requires IdRead(sync, rows, raws, i, name, language, a) && IdRead(sync, rows, raws, i, name, language, b)
    ensures a == b
  {
    if j: nat :| LastGiving(raws, |raws|, j, name, language) {
      forall k: nat | LastGiving(raws, |raws|, k, name, language) ensures k == j {
        OneLastGiving(raws, |raws|, name, language, j, k);
      }
    }
  }

  lemma WidthsMean(sync: SyncEnv, rows: TemplateCache, raws: seq<RawTemplate>)
    requires NewKeysOnce(sync.tenant, rows, raws, |raws|)
    ensures WrittenFit(sync, rows, raws) <==> WideEnough(sync, rows, raws)
  {
    var tenant, merged := sync.tenant, Merge(sync, rows, raws, |raws|);
    if WrittenFit(sync, rows, raws) {
      forall i: nat, name, language | LastEntry(raws, i, name, language)
        ensures |name| <= 150 && |language| <= 20
        ensures forall id :: IdRead(sync, rows, raws, i, name, language, Some(id)) ==> |id| <= 64
      {
        var key := TemplateKey(tenant, name, language);
        LastIsEntry(tenant, raws, i, key);
        RowIsRead(sync, rows, raws, i, name, language);
        assert Fits(key, merged[key]);
        forall id | IdRead(sync, rows, raws, i, name, language, Some(id)) ensures |id| <= 64 {
          IdIsRead(sync, rows, raws, i, name, language, Some(id), merged[key].metaTemplateId);
        }
      }
    }
    if WideEnough(sync, rows, raws) {
      forall key | key in merged && Listed(tenant, raws, |raws|, key) ensures Fits(key, merged[key]) {
        ListedHasLast(tenant, raws, key);
        RowIsRead(sync, rows, raws, Last(tenant, raws, |raws|, key), key.name, key.language);
      }
    }
  }

  /** A list can be committed exactly when its languages are given, its new templates come once and its columns fit. */
  lemma AcceptsMeans(sync: SyncEnv, rows: TemplateCache, raws: seq<RawTemplate>)
    ensures Accepts(sync, rows, raws) <==>
              NoNullLanguage(raws) && RepeatsAreCached(sync, rows, raws) && WideEnough(sync, rows, raws)
  {
    RepeatsMean(sync, rows, raws);
    if NewKeysOnce(sync.tenant, rows, raws, |raws|) { WidthsMean(sync, rows, raws); }
  }

  /** A sync commits exactly such a list, and the cache then holds the list's own words; no other table changes. */
  lemma SyncMeans(t: Tables, sync: SyncEnv, raws: seq<RawTemplate>)
    ensures var t' := SyncTemplates(t, sync, raws);
            if CommittedRows.Live(t, sync.tenant) && NoNullLanguage(raws)
               && RepeatsAreCached(sync, t.templates, raws) && WideEnough(sync, t.templates, raws) then
              t' == t.(templates := t'.templates) && CacheRead(sync, t.templates, raws, t'.templates)
            else t' == t
  {
    AcceptsMeans(sync, t.templates, raws);
    if NewKeysOnce(sync.tenant, t.templates, raws, |raws|) { CacheIsRead(sync, t.templates, raws); }
  }

  /** After a sync, a campaign with a listed template is created exactly if its last entry says "APPROVED". */
  lemma CreatableAfterSync(t: Tables, sync: SyncEnv, raws: seq<RawTemplate>, i: nat, name: string, language: string,
                           scheduled: bool)
    requires CommittedRows.Live(t, sync.tenant) && Accepts(sync, t.templates, raws)
    requires LastEntry(raws, i, name, language)
    ensures var synced := SyncTemplates(t, sync, raws);
            var t' := CreateCampaign(synced, sync.tenant, name, language, scheduled);
            if raws[i].status == Some("APPROVED") then
              CommittedRows.CampaignAdded(synced, t', sync.tenant, name, language, scheduled)
            else t' == synced
  {
    RowIsRead(sync, t.templates, raws, i, name, language);
  }

  // ------------------------------------------------------------ the report

  function NamedEntries(raws: seq<RawTemplate>, n: nat): set<nat>
    requires n <= |raws|
  {
    set i: nat | i < n && raws[i].name.Some? && raws[i].name.value != ""
  }

  lemma {:induction false} NamedAreCounted(raws: seq<RawTemplate>, n: nat)
    requires n <= |raws|
    ensures NamedCount(raws, n) == |NamedEntries(raws, n)|
  {
    if n == 0 {
      assert NamedEntries(raws, n) == {};
    } else {
      NamedAreCounted(raws, n - 1);
      if Named(raws[n - 1]) {
        assert NamedEntries(raws, n) == NamedEntries(raws, n - 1) + {n - 1};
      } else {
        assert NamedEntries(raws, n) == NamedEntries(raws, n - 1);
      }
    }
  }
}

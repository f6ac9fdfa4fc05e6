/**
 The merge of the list of templates that Meta returns into the cache.
 */
module TemplateMerge {
  import opened Wrappers
  import opened Rows

  /** A language field: missing, null, or given. */
  datatype Language = Missing | Null | Given(text: string)

  /**
   One entry of Meta's list; None where another field is absent or null. Category and status are given as
   upper() leaves them.
   */
  datatype RawTemplate = RawTemplate(
    name: Option<string>,
    language: Language,
    category: Option<string>,
    status: Option<string>,
    components: Option<seq<string>>,
    id: Option<string>)

  /** What one sync works with besides the table. */
  datatype SyncEnv = SyncEnv(tenant: Id, now: Time)

  // ------------------------------------------------------------ one entry

  predicate Truthy(s: Option<string>) {
    s.Some? && s.value != ""
  }

  predicate Named(raw: RawTemplate) {
    Truthy(raw.name)
  }

  /** An entry with a name and a language; a missing language is "en_US", and null stays null. */
  predicate Keyed(raw: RawTemplate) {
    Named(raw) && !raw.language.Null?
  }

  function KeyOf(tenant: Id, raw: RawTemplate): TemplateKey
    requires Keyed(raw)
  {
    TemplateKey(tenant, raw.name.value, if raw.language.Given? then raw.language.text else "en_US")
  }

  function TextOr(s: Option<string>): string { s.OrElse(Some("")).value }

  function CategoryOf(text: string): TemplateCategory {
    if text == "MARKETING" then Marketing else if text == "AUTHENTICATION" then Authentication else Utility
  }

  function StatusOf(text: string): TemplateStatus {
    match text
    case "APPROVED" => TemplateStatus.Approved
    case "REJECTED" => TemplateStatus.Rejected
    case "PAUSED" => TemplateStatus.Paused
    case "DISABLED" => TemplateStatus.Disabled
    case _ => TemplateStatus.Pending
  }

  /** The row an entry writes: over the old row it keeps the old id unless the entry has one. */
  function Mapped(sync: SyncEnv, raw: RawTemplate, id: Option<string>): CachedTemplate {
    CachedTemplate(CategoryOf(TextOr(raw.category)), StatusOf(TextOr(raw.status)),
             raw.components.OrElse(Some([])).value, id, Some(sync.now))
  }

  function NewId(raw: RawTemplate, kept: Option<string>): Option<string> {
    if Truthy(raw.id) then raw.id else kept
  }

  // ------------------------------------------------------------ the keyed merge

  function Upsert(sync: SyncEnv, rows: TemplateCache, raw: RawTemplate): TemplateCache {
    if !Keyed(raw) then rows
    else
      var key := KeyOf(sync.tenant, raw);
      rows[key := Mapped(sync, raw, if key in rows then NewId(raw, rows[key].metaTemplateId) else raw.id)]
  }

  /** The first n entries written one after the other, each into the row of its key. */
  function Merge(sync: SyncEnv, rows: TemplateCache, raws: seq<RawTemplate>, n: nat): TemplateCache
    requires n <= |raws|
  {
    if n == 0 then rows else Upsert(sync, Merge(sync, rows, raws, n - 1), raws[n - 1])
  }

  predicate Writes(tenant: Id, raw: RawTemplate, key: TemplateKey) {
    Keyed(raw) && KeyOf(tenant, raw) == key
  }

  predicate Listed(tenant: Id, raws: seq<RawTemplate>, n: nat, key: TemplateKey)
    requires n <= |raws|
  {
    exists i: nat :: i < n && Writes(tenant, raws[i], key)
  }

  /** The last of the first n entries for a key. */
  function Last(tenant: Id, raws: seq<RawTemplate>, n: nat, key: TemplateKey): (i: nat)
    requires n <= |raws| && Listed(tenant, raws, n, key)
    ensures i < n && Writes(tenant, raws[i], key)
    ensures forall j: nat :: i < j < n ==> !Writes(tenant, raws[j], key)
  {
    if Writes(tenant, raws[n - 1], key) then n - 1 else Last(tenant, raws, n - 1, key)
  }

  /** The last id among the first n entries for a key, or else the one it starts with. */
  function LastId(tenant: Id, raws: seq<RawTemplate>, n: nat, key: TemplateKey, start: Option<string>): Option<string>
    requires n <= |raws|
  {
    if n == 0 then start
    else
      var before := LastId(tenant, raws, n - 1, key, start);
      if Writes(tenant, raws[n - 1], key) then NewId(raws[n - 1], before) else before
  }

  /** No key that the table lacks is named by two of the first n entries. */
  predicate NewKeysOnce(tenant: Id, rows: TemplateCache, raws: seq<RawTemplate>, n: nat)
    requires n <= |raws|
  {
    forall i: nat, j: nat ::
      i < j < n && Keyed(raws[i]) && Keyed(raws[j]) && KeyOf(tenant, raws[i]) == KeyOf(tenant, raws[j]) ==>
        KeyOf(tenant, raws[i]) in rows
  }

  function NamedCount(raws: seq<RawTemplate>, n: nat): (c: nat)
    requires n <= |raws|
    ensures c <= n
  {
    if n == 0 then 0 else NamedCount(raws, n - 1) + if Named(raws[n - 1]) then 1 else 0
  }

  /** No named entry has a null language, which the table's column refuses. */
  predicate LanguagesGiven(raws: seq<RawTemplate>, n: nat)
    requires n <= |raws|
  {
    forall i: nat :: i < n && Named(raws[i]) ==> Keyed(raws[i])
  }

  /** The row is within the widths of its columns. */
  predicate Fits(key: TemplateKey, row: CachedTemplate) {
    && |key.name| <= 150 && |key.language| <= 20
    && (row.metaTemplateId.Some? ==> |row.metaTemplateId.value| <= 64)
  }

  ghost predicate WrittenFit(sync: SyncEnv, rows: TemplateCache, raws: seq<RawTemplate>) {
    var merged := Merge(sync, rows, raws, |raws|);
    forall key :: key in merged && Listed(sync.tenant, raws, |raws|, key) ==> Fits(key, merged[key])
  }

  /** What a sync can commit. */
  ghost predicate Accepts(sync: SyncEnv, rows: TemplateCache, raws: seq<RawTemplate>) {
    && NewKeysOnce(sync.tenant, rows, raws, |raws|)
    && LanguagesGiven(raws, |raws|)
    && WrittenFit(sync, rows, raws)
  }

  lemma {:induction false} UnlistedId(tenant: Id, raws: seq<RawTemplate>, n: nat, key: TemplateKey,
                                      start: Option<string>)
    requires n <= |raws| && !Listed(tenant, raws, n, key)
    ensures LastId(tenant, raws, n, key, start) == start
  {
    if n > 0 {
      ListedStep(tenant, raws, n, key);
      UnlistedId(tenant, raws, n - 1, key, start);
    }
  }

  lemma ListedStep(tenant: Id, raws: seq<RawTemplate>, n: nat, key: TemplateKey)
    requires 0 < n <= |raws|
    ensures Listed(tenant, raws, n, key) <==> Listed(tenant, raws, n - 1, key) || Writes(tenant, raws[n - 1], key)
  {
    if Listed(tenant, raws, n - 1, key) {
      var i: nat :| i < n - 1 && Writes(tenant, raws[i], key);
    }
  }

  lemma NewKeysOnceStep(tenant: Id, rows: TemplateCache, raws: seq<RawTemplate>, n: nat)
    requires 0 < n <= |raws|
    ensures NewKeysOnce(tenant, rows, raws, n) <==>
              NewKeysOnce(tenant, rows, raws, n - 1)
              && (Keyed(raws[n - 1]) && Listed(tenant, raws, n - 1, KeyOf(tenant, raws[n - 1])) ==>
                  KeyOf(tenant, raws[n - 1]) in rows)
  {
    if Keyed(raws[n - 1]) && Listed(tenant, raws, n - 1, KeyOf(tenant, raws[n - 1])) {
      var i: nat :| i < n - 1 && Writes(tenant, raws[i], KeyOf(tenant, raws[n - 1]));
    }
  }

  /** The merge, row by row: a listed row holds its last entry, any other row is as it was. */
  lemma {:induction false} MergeRows(sync: SyncEnv, rows: TemplateCache, raws: seq<RawTemplate>, n: nat,
                                     key: TemplateKey)
    requires n <= |raws|
    ensures var merged := Merge(sync, rows, raws, n);
            && (key in merged <==> key in rows || Listed(sync.tenant, raws, n, key))
            && (!Listed(sync.tenant, raws, n, key) && key in rows ==> merged[key] == rows[key])
            && (Listed(sync.tenant, raws, n, key) && key in rows ==>
                  merged[key] == Mapped(sync, raws[Last(sync.tenant, raws, n, key)],
                                        LastId(sync.tenant, raws, n, key, rows[key].metaTemplateId)))
    ensures Listed(sync.tenant, raws, n, key) && key !in rows && NewKeysOnce(sync.tenant, rows, raws, n) ==>
              var raw := raws[Last(sync.tenant, raws, n, key)];
              Merge(sync, rows, raws, n)[key] == Mapped(sync, raw, raw.id)
  {
    if n > 0 {
      MergeRows(sync, rows, raws, n - 1, key);
      ListedStep(sync.tenant, raws, n, key);
      NewKeysOnceStep(sync.tenant, rows, raws, n);
      if key in rows && !Listed(sync.tenant, raws, n - 1, key) {
        UnlistedId(sync.tenant, raws, n - 1, key, rows[key].metaTemplateId);
      }
    }
  }

  // ------------------------------------------------------------ what the loop and the flush do

  /** A row added to the session, not yet inserted; one without a language is refused. */
  datatype NewRow = NewRow(key: TemplateKey, row: CachedTemplate) | NoLanguage(name: string, row: CachedTemplate)

  function OwnRows(tenant: Id, rows: TemplateCache): TemplateCache {
    map key | key in rows && key.tenantId == tenant :: rows[key]
  }

  /** The cached rows after n entries: entries for other keys do not touch them. */
  function Updated(sync: SyncEnv, existing: TemplateCache, raws: seq<RawTemplate>, n: nat)
    : (r: TemplateCache)
    requires n <= |raws|
    ensures r.Keys == existing.Keys
  {
    if n == 0 then existing
    else
      var raw, before := raws[n - 1], Updated(sync, existing, raws, n - 1);
      if Keyed(raw) && KeyOf(sync.tenant, raw) in before then Upsert(sync, before, raw) else before
  }

  /** The rows added by n entries, one for each entry whose key was not cached when the sync began. */
  function Added(sync: SyncEnv, existing: TemplateCache, raws: seq<RawTemplate>, n: nat): seq<NewRow>
    requires n <= |raws|
  {
    if n == 0 then [] else Added(sync, existing, raws, n - 1) + AddedBy(sync, existing, raws[n - 1])
  }

  function AddedBy(sync: SyncEnv, existing: TemplateCache, raw: RawTemplate): seq<NewRow> {
    if !Named(raw) then []
    else if !Keyed(raw) then [NoLanguage(raw.name.value, Mapped(sync, raw, raw.id))]
    else if KeyOf(sync.tenant, raw) in existing then []
    else [NewRow(KeyOf(sync.tenant, raw), Mapped(sync, raw, raw.id))]
  }

  /** The INSERTs of a flush; None when the unique or the not-null constraint refuses one. */
  function InsertAll(rows: TemplateCache, added: seq<NewRow>)
    : (r: Option<TemplateCache>)
    ensures r.Some? ==> |r.value| == |rows| + |added|
  {
    if added == [] then Some(rows)
    else
      match InsertAll(rows, added[..|added| - 1])
      case None => None
      case Some(before) => Insert(before, added[|added| - 1])
  }

  function Insert(rows: TemplateCache, added: NewRow): (r: Option<TemplateCache>)
    ensures r.Some? ==> |r.value| == |rows| + 1
  {
    if added.NoLanguage? || added.key in rows then None else Some(rows[added.key := added.row])
  }

  lemma {:induction false} UpdatedIsMerge(sync: SyncEnv, rows: TemplateCache, raws: seq<RawTemplate>, n: nat)
    requires n <= |raws|
    ensures var merged := Merge(sync, rows, raws, n);
            && (forall key :: key in rows ==> key in merged)
            && (forall key :: key in OwnRows(sync.tenant, rows) ==>
                merged[key] == Updated(sync, OwnRows(sync.tenant, rows), raws, n)[key])
            && (forall key :: key in rows && key.tenantId != sync.tenant ==> merged[key] == rows[key])
  {
    if n > 0 { UpdatedIsMerge(sync, rows, raws, n - 1); }
  }

  lemma AddedStep(sync: SyncEnv, existing: TemplateCache, base: TemplateCache,
                  raws: seq<RawTemplate>, n: nat)
    requires 0 < n <= |raws|
    ensures var before := InsertAll(base, Added(sync, existing, raws, n - 1));
            var more := AddedBy(sync, existing, raws[n - 1]);
            InsertAll(base, Added(sync, existing, raws, n)) ==
              if more == [] || before.None? then before else Insert(before.value, more[0])
  {
    var before, more := Added(sync, existing, raws, n - 1), AddedBy(sync, existing, raws[n - 1]);
    if more == [] {
      assert before + more == before;
    } else {
      assert |more| == 1 && (before + more)[..|before + more| - 1] == before;
    }
  }

  /** A table after the INSERTs: old rows as the UPDATEs left them, new rows as merged. */
  predicate Inserted(rows: TemplateCache, base: TemplateCache,
                     table: TemplateCache, merged: TemplateCache) {
    && table.Keys == merged.Keys
    && (forall key :: key in rows ==> key in base && key in table && table[key] == base[key])
    && (forall key :: key in merged && key !in rows ==> table[key] == merged[key])
  }

  lemma InsertedStep(rows: TemplateCache, base: TemplateCache, table: TemplateCache,
                     merged: TemplateCache, key: TemplateKey, row: CachedTemplate)
    requires Inserted(rows, base, table, merged)
    ensures key in rows ==> Inserted(rows, base, table, merged[key := row])
    ensures key !in rows ==> Inserted(rows, base, table[key := row], merged[key := row])
  {
  }

  /** Inserting what n entries add: refused, or as the merge of the n entries. */
  predicate InsertedAs(sync: SyncEnv, rows: TemplateCache, base: TemplateCache,
                       raws: seq<RawTemplate>, n: nat, inserted: Option<TemplateCache>)
    requires n <= |raws|
  {
    && (inserted.Some? <==> NewKeysOnce(sync.tenant, rows, raws, n) && LanguagesGiven(raws, n))
    && (inserted.Some? ==> Inserted(rows, base, inserted.value, Merge(sync, rows, raws, n)))
  }

  /** What the first n entries insert is what the merge adds, as long as no new key comes twice. */
  lemma {:induction false} InsertedIsMerge(sync: SyncEnv, rows: TemplateCache,
                                           base: TemplateCache, raws: seq<RawTemplate>, n: nat)
    requires n <= |raws| && base.Keys == rows.Keys
    ensures InsertedAs(sync, rows, base, raws, n, InsertAll(base, Added(sync, OwnRows(sync.tenant, rows), raws, n)))
  {
    if n > 0 {
      InsertedIsMerge(sync, rows, base, raws, n - 1);
      InsertedIsMergeStep(sync, rows, base, raws, n);
    }
  }

  lemma InsertedIsMergeStep(sync: SyncEnv, rows: TemplateCache, base: TemplateCache, raws: seq<RawTemplate>, n: nat)
    requires 0 < n <= |raws|
    requires var own := OwnRows(sync.tenant, rows);
             InsertedAs(sync, rows, base, raws, n - 1, InsertAll(base, Added(sync, own, raws, n - 1)))
    ensures InsertedAs(sync, rows, base, raws, n, InsertAll(base, Added(sync, OwnRows(sync.tenant, rows), raws, n)))
  {
    var own := OwnRows(sync.tenant, rows);
    AddedStep(sync, own, base, raws, n);
    InsertedAsNext(sync, rows, base, raws, n, InsertAll(base, Added(sync, own, raws, n - 1)));
  }

  lemma InsertedAsNext(sync: SyncEnv, rows: TemplateCache, base: TemplateCache,
                       raws: seq<RawTemplate>, n: nat, before: Option<TemplateCache>)
    requires 0 < n <= |raws| && InsertedAs(sync, rows, base, raws, n - 1, before)
    ensures var more := AddedBy(sync, OwnRows(sync.tenant, rows), raws[n - 1]);
            InsertedAs(sync, rows, base, raws, n,
                       if more == [] || before.None? then before else Insert(before.value, more[0]))
  {
    NewKeysOnceStep(sync.tenant, rows, raws, n);
    LanguagesGivenStep(raws, n);
    if Keyed(raws[n - 1]) { InsertedNext(sync, rows, base, raws, n, before); }
  }

  lemma LanguagesGivenStep(raws: seq<RawTemplate>, n: nat)
    requires 0 < n <= |raws|
    ensures LanguagesGiven(raws, n) <==> LanguagesGiven(raws, n - 1) && (Named(raws[n - 1]) ==> Keyed(raws[n - 1]))
  {
  }

  lemma InsertedNext(sync: SyncEnv, rows: TemplateCache, base: TemplateCache,
                     raws: seq<RawTemplate>, n: nat, before: Option<TemplateCache>)
    requires 0 < n <= |raws| && Keyed(raws[n - 1])
    requires before.Some? ==> Inserted(rows, base, before.value, Merge(sync, rows, raws, n - 1))
    ensures var key := KeyOf(sync.tenant, raws[n - 1]);
            var merged := Merge(sync, rows, raws, n);
            && (key in OwnRows(sync.tenant, rows) <==> key in rows)
            && (before.Some? && key !in rows ==> (key in before.value <==> Listed(sync.tenant, raws, n - 1, key)))
            && (before.Some? && key in rows ==> Inserted(rows, base, before.value, merged))
            && (before.Some? && key !in rows && key !in before.value ==>
                  Inserted(rows, base, before.value[key := Mapped(sync, raws[n - 1], raws[n - 1].id)], merged))
  {
    var key := KeyOf(sync.tenant, raws[n - 1]);
    MergeRows(sync, rows, raws, n - 1, key);
    var merged := Merge(sync, rows, raws, n - 1);
    if before.Some? {
      InsertedStep(rows, base, before.value, merged, key, Upsert(sync, merged, raws[n - 1])[key]);
    }
  }

  lemma InsertedIsAll(rows: TemplateCache, base: TemplateCache,
                      table: TemplateCache, merged: TemplateCache)
    requires Inserted(rows, base, table, merged)
    requires forall key :: key in rows ==> key in merged && base[key] == merged[key]
    ensures table == merged
  {
  }

  /** The UPDATEs of the flush: every cached row as merged. */
  lemma BaseIsMerge(sync: SyncEnv, rows: TemplateCache, raws: seq<RawTemplate>)
    ensures var base := rows + Updated(sync, OwnRows(sync.tenant, rows), raws, |raws|);
            var merged := Merge(sync, rows, raws, |raws|);
            && base.Keys == rows.Keys && |base| == |rows|
            && (forall key :: key in rows ==> key in merged && base[key] == merged[key])
  {
    var base := rows + Updated(sync, OwnRows(sync.tenant, rows), raws, |raws|);
    assert base.Keys == rows.Keys;
    assert |base.Keys| == |base| && |rows.Keys| == |rows|;
    UpdatedIsMerge(sync, rows, raws, |raws|);
  }

  /** Updating the cached rows and inserting the new ones is the merge, or is refused. */
  lemma FlushIsMerge(sync: SyncEnv, rows: TemplateCache, raws: seq<RawTemplate>)
    ensures var own := OwnRows(sync.tenant, rows);
            var base := rows + Updated(sync, own, raws, |raws|);
            var added := Added(sync, own, raws, |raws|);
            var inserted := InsertAll(base, added);
            && (inserted.Some? <==> NewKeysOnce(sync.tenant, rows, raws, |raws|) && LanguagesGiven(raws, |raws|))
            && (inserted.Some? ==>
                  inserted.value == Merge(sync, rows, raws, |raws|) && |inserted.value| == |rows| + |added|)
  {
    var own := OwnRows(sync.tenant, rows);
    var base := rows + Updated(sync, own, raws, |raws|);
    BaseIsMerge(sync, rows, raws);
    InsertedIsMerge(sync, rows, base, raws, |raws|);
    var inserted := InsertAll(base, Added(sync, own, raws, |raws|));
    if inserted.Some? { InsertedIsAll(rows, base, inserted.value, Merge(sync, rows, raws, |raws|)); }
  }

  lemma {:induction false} InsertStaysRefused(rows: TemplateCache, added: seq<NewRow>, m: nat)
    requires m <= |added| && InsertAll(rows, added[..m]).None?
    ensures InsertAll(rows, added).None?
    decreases |added|
  {
    if m < |added| {
      assert added[..|added| - 1][..m] == added[..m];
      InsertStaysRefused(rows, added[..|added| - 1], m);
    } else {
      assert added[..m] == added;
    }
  }

  /**
   One key named by two entries, and no other key by two: no trouble once the template is cached, and a
   constraint violation that undoes the whole sync when it is new.
   */
  lemma RepeatedEntry(tenant: Id, rows: TemplateCache, raws: seq<RawTemplate>, i: nat, j: nat)
    requires i < j < |raws| && Keyed(raws[i]) && Keyed(raws[j]) && KeyOf(tenant, raws[i]) == KeyOf(tenant, raws[j])
    requires forall a: nat, b: nat :: a < b < |raws| && Keyed(raws[a]) && Keyed(raws[b])
                                      && KeyOf(tenant, raws[a]) == KeyOf(tenant, raws[b])
                                      ==> KeyOf(tenant, raws[a]) == KeyOf(tenant, raws[i])
    ensures NewKeysOnce(tenant, rows, raws, |raws|) <==> KeyOf(tenant, raws[i]) in rows
  {
  }

  // ------------------------------------------------------------ syncing again

  /** Two tables with the same rows except for when the listed ones were last synced. */
  predicate SameButSyncTime(sync: SyncEnv, raws: seq<RawTemplate>,
                            a: TemplateCache, b: TemplateCache) {
    && a.Keys == b.Keys
    && forall key :: key in a ==>
         b[key] == if Listed(sync.tenant, raws, |raws|, key) then a[key].(lastSyncedAt := Some(sync.now)) else a[key]
  }

  /** Either no entry has an id for the key, or the id the row starts with does not matter. */
  lemma {:induction false} LastIdForgets(tenant: Id, raws: seq<RawTemplate>, n: nat, key: TemplateKey,
                                         a: Option<string>, b: Option<string>)
    requires n <= |raws|
    ensures var x, y := LastId(tenant, raws, n, key, a), LastId(tenant, raws, n, key, b);
            x == y || (x == a && y == b)
  {
    if n > 0 { LastIdForgets(tenant, raws, n - 1, key, a, b); }
  }

  lemma {:induction false} OnlyEntryKeepsId(tenant: Id, rows: TemplateCache, raws: seq<RawTemplate>,
                                            n: nat, key: TemplateKey)
    requires n <= |raws| && NewKeysOnce(tenant, rows, raws, n) && key !in rows && Listed(tenant, raws, n, key)
    ensures var id := raws[Last(tenant, raws, n, key)].id;
            LastId(tenant, raws, n, key, id) == id
  {
    NewKeysOnceStep(tenant, rows, raws, n);
    ListedStep(tenant, raws, n, key);
    if Writes(tenant, raws[n - 1], key) {
      UnlistedId(tenant, raws, n - 1, key, raws[n - 1].id);
    } else {
      OnlyEntryKeepsId(tenant, rows, raws, n - 1, key);
    }
  }

  lemma RowAgain(sync: SyncEnv, again: SyncEnv, rows: TemplateCache, raws: seq<RawTemplate>, key: TemplateKey)
    requires again == sync.(now := again.now) && NewKeysOnce(sync.tenant, rows, raws, |raws|)
    ensures var first := Merge(sync, rows, raws, |raws|);
            var second := Merge(again, first, raws, |raws|);
            && (key in first <==> key in second)
            && (key in first ==>
                  second[key] == if Listed(sync.tenant, raws, |raws|, key)
                      then first[key].(lastSyncedAt := Some(again.now)) else first[key])
  {
    var n, tenant := |raws|, sync.tenant;
    var first := Merge(sync, rows, raws, n);
    MergeRows(sync, rows, raws, n, key);
    MergeRows(again, first, raws, n, key);
    if key in rows {
      var id := rows[key].metaTemplateId;
      LastIdForgets(tenant, raws, n, key, id, LastId(tenant, raws, n, key, id));
    } else if Listed(tenant, raws, n, key) {
      OnlyEntryKeepsId(tenant, rows, raws, n, key);
    }
  }

  /** A second sync of the same list, by whatever clock, is accepted, adds no row and changes only the sync time. */
  lemma SecondSync(sync: SyncEnv, again: SyncEnv, rows: TemplateCache, raws: seq<RawTemplate>)
    requires again == sync.(now := again.now) && Accepts(sync, rows, raws)
    ensures var first := Merge(sync, rows, raws, |raws|);
            && Accepts(again, first, raws)
            && SameButSyncTime(again, raws, first, Merge(again, first, raws, |raws|))
  {
    var first := Merge(sync, rows, raws, |raws|);
    forall i: nat, j: nat | i < j < |raws| && Keyed(raws[i]) && Keyed(raws[j])
                            && KeyOf(sync.tenant, raws[i]) == KeyOf(sync.tenant, raws[j])
      ensures KeyOf(sync.tenant, raws[i]) in first
    {
      var key := KeyOf(sync.tenant, raws[i]);
      assert Writes(sync.tenant, raws[i], key);
      MergeRows(sync, rows, raws, |raws|, key);
    }
    forall key {
      RowAgain(sync, again, rows, raws, key);
    }
  }
}

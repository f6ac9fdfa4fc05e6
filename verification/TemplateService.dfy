/**
 The sync of the template cache with the list Meta returns.
 */
module TemplateService {
  import opened Wrappers
  import opened Rows
  import opened Delivery
  import opened Sessions
  import opened TemplateMerge
  import TemplateWords

  datatype Report = Report(synced: nat, created: nat, updated: nat)

  /** Writes the changed rows and inserts the new ones, unless a constraint or a column's width refuses one. */
  method Flush(s: Session, existing: TemplateCache, added: seq<NewRow>, touched: set<TemplateKey>)
    returns (ok: bool)
    modifies s`templates
    ensures var inserted := InsertAll(old(s.templates) + existing, added);
            && (ok <==> inserted.Some?
                        && forall key :: key in touched && key in inserted.value ==> Fits(key, inserted.value[key]))
            && s.templates == if ok then inserted.value else old(s.templates)
  {
    var written := s.templates + existing;
    var m := 0;
    while m < |added|
      invariant m <= |added| && s.templates == old(s.templates)
      invariant InsertAll(s.templates + existing, added[..m]) == Some(written)
    {
      assert added[..m + 1][..m] == added[..m];
      if added[m].NoLanguage? || added[m].key in written {
        InsertStaysRefused(s.templates + existing, added, m + 1);
        return false;
      }
      written := written[added[m].key := added[m].row];
      m := m + 1;
    }
    assert added[..m] == added;
    ok := forall key :: key in touched ==> key in written ==> Fits(key, written[key]);
    if ok { s.templates := written; }
  }

  /** The loop over Meta's list: the cached rows it changes, the rows it adds, and the keys it names. */
  method ReadList(sync: SyncEnv, own: TemplateCache, raws: seq<RawTemplate>)
    returns (existing: TemplateCache, added: seq<NewRow>, touched: set<TemplateKey>, report: Report)
    ensures existing == Updated(sync, own, raws, |raws|) && added == Added(sync, own, raws, |raws|)
    ensures forall key :: key in touched <==> Listed(sync.tenant, raws, |raws|, key)
    ensures report.synced == |raws| && report.created == |added|
    ensures report.created + report.updated == NamedCount(raws, |raws|)
  {
    existing, added, touched := own, [], {};
    var created, updated := 0, 0;
    for n := 0 to |raws|
      invariant existing == Updated(sync, own, raws, n) && added == Added(sync, own, raws, n)
      invariant forall key :: key in touched <==> Listed(sync.tenant, raws, n, key)
      invariant created == |added| && created + updated == NamedCount(raws, n)
    {
      var raw := raws[n];
      TouchedStep(sync.tenant, raws, n + 1);
      if !Named(raw) { continue; }
      if Keyed(raw) { touched := touched + {KeyOf(sync.tenant, raw)}; }
      if Keyed(raw) && KeyOf(sync.tenant, raw) in existing {
        var key := KeyOf(sync.tenant, raw);
        existing := existing[key := Mapped(sync, raw, NewId(raw, existing[key].metaTemplateId))];
        updated := updated + 1;
      } else {
        var row := Mapped(sync, raw, raw.id);
        added := added + [if Keyed(raw) then NewRow(KeyOf(sync.tenant, raw), row) else NoLanguage(raw.name.value, row)];
        created := created + 1;
      }
    }
    report := Report(|raws|, created, updated);
  }

  lemma TouchedStep(tenant: Id, raws: seq<RawTemplate>, n: nat)
    requires 0 < n <= |raws|
    ensures forall key ::
              Listed(tenant, raws, n, key) <==> Listed(tenant, raws, n - 1, key) || Writes(tenant, raws[n - 1], key)
  {
    forall key
      ensures Listed(tenant, raws, n, key) <==> Listed(tenant, raws, n - 1, key) || Writes(tenant, raws[n - 1], key)
    {
      ListedStep(tenant, raws, n, key);
    }
  }

  /** The sync: the keyed merge of the list into the table, or nothing at all. */
  method SyncFromMeta(database: Database, sync: SyncEnv, raws: seq<RawTemplate>) returns (outcome: Outcome<Report>)
    modifies database
    ensures database.View() == SyncTemplates(old(database.View()), sync, raws)
    ensures var rows := old(database.templates);
            outcome.Returned? <==>
              LiveTenant(old(database.tenants), sync.tenant) && TemplateWords.NoNullLanguage(raws)
              && TemplateWords.RepeatsAreCached(sync, rows, raws) && TemplateWords.WideEnough(sync, rows, raws)
    ensures outcome.Returned? ==>
              && outcome.result.synced == |raws|
              && outcome.result.created + outcome.result.updated == NamedCount(raws, |raws|)
              && outcome.result.created == |database.templates| - |old(database.templates)|
              && outcome.result.created + outcome.result.updated == |TemplateWords.NamedEntries(raws, |raws|)|
    ensures outcome.Returned? ==>
              && database.View() == old(database.View()).(templates := database.templates)
              && TemplateWords.CacheRead(sync, old(database.templates), raws, database.templates)
    ensures outcome.Raised? ==>
              database.View() == old(database.View())
              && outcome.error ==
                 if LiveTenant(database.tenants, sync.tenant) then ConstraintViolated else TenantNotFound
  {
    var s := new Session(database);
    if !LiveTenant(s.tenants, sync.tenant) { s.Rollback(); return Raised(TenantNotFound); }
    ghost var rows := s.templates;
    var existing, added, touched, report := ReadList(sync, OwnRows(sync.tenant, s.templates), raws);
    FlushIsMerge(sync, rows, raws);
    TemplateWords.NamedAreCounted(raws, |raws|);
    TemplateWords.SyncMeans(old(database.View()), sync, raws);
    TemplateWords.AcceptsMeans(sync, rows, raws);
    MergeHasListed(sync, rows, raws);
    var ok := Flush(s, existing, added, touched);
    if !ok { s.Rollback(); return Raised(ConstraintViolated); }
    s.Commit();
    return Returned(report);
  }

  lemma MergeHasListed(sync: SyncEnv, rows: TemplateCache, raws: seq<RawTemplate>)
    ensures forall key :: Listed(sync.tenant, raws, |raws|, key) ==> key in Merge(sync, rows, raws, |raws|)
  {
    forall key | Listed(sync.tenant, raws, |raws|, key) ensures key in Merge(sync, rows, raws, |raws|) {
      MergeRows(sync, rows, raws, |raws|, key);
    }
  }
}

/**
 Campaign creation, recipient upload and lifecycle requests.
 */
module CampaignService {
  import opened Wrappers
  import opened Rows
  import opened Delivery
  import opened Sessions
  import opened CsvUpload
  import opened UploadedRows
  import opened CommittedRows

  method Create(database: Database, tenantId: Id, name: string, language: string, scheduled: bool)
    returns (outcome: Outcome<Id>)
    modifies database
    ensures database.View() == CreateCampaign(old(database.View()), tenantId, name, language, scheduled)
    ensures outcome.Returned? <==>
        LiveTenant(old(database.tenants), tenantId) && ApprovedTemplate(old(database.View()), tenantId, name, language)
    ensures outcome.Returned? ==>
              outcome.result == old(database.nextId)
              && CampaignAdded(old(database.View()), database.View(), tenantId, name, language, scheduled)
    ensures outcome.Raised? ==>
              database.View() == old(database.View())
              && outcome.error == if !Live(database.View(), tenantId) then TenantNotFound
                                  else if TemplateKey(tenantId, name, language) in database.templates then InvalidInput
                                  else TemplateNotFound
  {
    var s := new Session(database);
    if !LiveTenant(s.tenants, tenantId) { s.Rollback(); return Raised(TenantNotFound); }
    var key := TemplateKey(tenantId, name, language);
    if key !in s.templates { s.Rollback(); return Raised(TemplateNotFound); }
    if s.templates[key].status != TemplateStatus.Approved { s.Rollback(); return Raised(InvalidInput); }
    var campaign := Campaign(tenantId, name, language,
                             if scheduled then CampaignStatus.Scheduled else CampaignStatus.Draft, 0, 0, 0, 0, 0, None);
    s.campaigns := s.campaigns[s.nextId := campaign];
    outcome := Returned(s.nextId);
    s.nextId := s.nextId + 1;
    s.Commit();
  }

  datatype Verdict = Keep(addressee: Addressee) | Drop(reason: Skip)

  /** How many of the first n rows are first with their phone. */
  function Firsts(cs: seq<Candidate>, n: nat): nat
    requires n <= |cs|
  {
    if n == 0 then 0 else Firsts(cs, n - 1) + if IsFirst(cs, n - 1) then 1 else 0
  }

  lemma {:induction false} AddresseesCounted(cs: seq<Candidate>, n: nat)
    requires n <= |cs|
    ensures |Addressees(cs, n)| == Firsts(cs, n)
  {
    if n > 0 { AddresseesCounted(cs, n - 1); }
  }

  lemma {:induction false} SkipsCounted(rows: seq<Row>, phoneColumn: string, normalise: Normaliser, n: nat)
    requires n <= |rows|
    ensures |Skips(rows, phoneColumn, normalise, n)| == n - Firsts(ReadRows(rows, phoneColumn, normalise), n)
    decreases n
  {
    if n > 0 { SkipsCounted(rows, phoneColumn, normalise, n - 1); }
  }

  /** Every row is inserted or accounted for. */
  lemma InsertedOrSkipped(rows: seq<Row>, phoneColumn: string, normalise: Normaliser, n: nat)
    requires n <= |rows|
    ensures |Addressees(ReadRows(rows, phoneColumn, normalise), n)| + |Skips(rows, phoneColumn, normalise, n)| == n
  {
    AddresseesCounted(ReadRows(rows, phoneColumn, normalise), n);
    SkipsCounted(rows, phoneColumn, normalise, n);
  }

  /** The checks of one row, in order; a phone is kept when it is valid and not seen before. */
  method ExamineRow(row: Row, number: nat, phoneColumn: string, normalise: Normaliser, seen: set<string>)
      returns (v: Verdict)
    ensures var c := ReadRow(row, phoneColumn, normalise);
            v == if c.phone.Some? && c.phone.value !in seen then Keep(Addressee(c.phone.value, c.variables))
                 else Drop(SkipReason(row, number, phoneColumn, normalise))
  {
    var raw := Strip(Cell(row, phoneColumn));
    if raw == "" { return Drop(EmptyPhone(number)); }
    var phone := normalise(raw);
    if phone.None? { return Drop(InvalidPhone(number)); }
    if phone.value in seen { return Drop(DuplicatePhone(number, phone.value)); }
    return Keep(Addressee(phone.value, Variables(row, phoneColumn)));
  }

  /** What the loop has after n rows. */
  ghost predicate ReadSoFar(rows: seq<Row>, phoneColumn: string, normalise: Normaliser, n: nat,
                            added: seq<Addressee>, seen: set<string>, reasons: seq<Skip>) {
    var cs := ReadRows(rows, phoneColumn, normalise);
    && n <= |rows|
    && added == Addressees(cs, n) && seen == Yielded(cs, n) && reasons == Skips(rows, phoneColumn, normalise, n)
  }

  /**
   The upload loop over the parsed rows, with its `seen` set and skip reasons: the rows it
   adds to the session are exactly the first row of each phone, the others it accounts for.
   */
  method ReadUpload(rows: seq<Row>, phoneColumn: string, normalise: Normaliser)
    returns (parsed: nat, added: seq<Addressee>, reasons: seq<Skip>)
    ensures added == Addressees(ReadRows(rows, phoneColumn, normalise), |rows|)
    ensures reasons == Skips(rows, phoneColumn, normalise, |rows|)
    ensures parsed == |rows| == |added| + |reasons|
  {
    parsed, added, reasons := 0, [], [];
    var seen: set<string> := {};
    while parsed < |rows|
      invariant ReadSoFar(rows, phoneColumn, normalise, parsed, added, seen, reasons)
    {
      UploadStep(rows, phoneColumn, normalise, parsed, added, seen, reasons);
      var verdict := ExamineRow(rows[parsed], parsed + 1, phoneColumn, normalise, seen);
      parsed := parsed + 1;
      match verdict
      case Drop(reason) =>
        reasons := reasons + [reason];
        assert ReadSoFar(rows, phoneColumn, normalise, parsed, added, seen, reasons);
      case Keep(addressee) =>
        seen := seen + {addressee.phone};
        added := added + [addressee];
        assert ReadSoFar(rows, phoneColumn, normalise, parsed, added, seen, reasons);
    }
    AllRead(rows, phoneColumn, normalise, parsed, added, seen, reasons);
  }

  lemma AllRead(rows: seq<Row>, phoneColumn: string, normalise: Normaliser, n: nat,
                added: seq<Addressee>, seen: set<string>, reasons: seq<Skip>)
    requires n == |rows| && ReadSoFar(rows, phoneColumn, normalise, n, added, seen, reasons)
    ensures added == Addressees(ReadRows(rows, phoneColumn, normalise), |rows|)
    ensures reasons == Skips(rows, phoneColumn, normalise, |rows|)
    ensures |rows| == |added| + |reasons|
  {
    InsertedOrSkipped(rows, phoneColumn, normalise, n);
  }

  /** One more row: it is inserted when its phone is new, which then counts as seen. */
  lemma UploadStep(rows: seq<Row>, phoneColumn: string, normalise: Normaliser, n: nat,
                   added: seq<Addressee>, seen: set<string>, reasons: seq<Skip>)
    requires n < |rows| && ReadSoFar(rows, phoneColumn, normalise, n, added, seen, reasons)
    ensures var c := ReadRow(rows[n], phoneColumn, normalise);
            if c.phone.Some? && c.phone.value !in seen then
              ReadSoFar(rows, phoneColumn, normalise, n + 1,
                        added + [Addressee(c.phone.value, c.variables)], seen + {c.phone.value}, reasons)
            else
              ReadSoFar(rows, phoneColumn, normalise, n + 1, added, seen,
                        reasons + [SkipReason(rows[n], n + 1, phoneColumn, normalise)])
  {
    var cs := ReadRows(rows, phoneColumn, normalise);
    assert IsFirst(cs, n) <==> cs[n].phone.Some? && cs[n].phone.value !in seen;
    assert cs[n].phone.Some? && cs[n].phone.value in seen ==> seen + {cs[n].phone.value} == seen;
  }

  method UploadRecipients(database: Database, cid: Id, header: seq<string>, rows: seq<Row>, normalise: Normaliser)
    returns (outcome: Outcome<Report>)
    modifies database
    ensures outcome.Returned? <==>
        cid in old(database.campaigns)
        && old(database.campaigns)[cid].status in {CampaignStatus.Draft, CampaignStatus.Scheduled}
        && exists i :: 0 <= i < |header| && CalledPhone(header[i])
    ensures outcome.Returned? && IdsHandedOut(old(database.View())) && AllUniqueColumns(rows) ==>
              Uploaded(old(database.View()), database.View(), cid, header, rows, normalise, outcome.result)
    ensures outcome.Raised? ==>
              database.View() == old(database.View())
              && outcome.error == if cid !in database.campaigns then CampaignNotFound
                                  else if exists i :: 0 <= i < |header| && CalledPhone(header[i]) then Conflict
                                  else if AcceptsUploads(database.campaigns[cid]) then InvalidInput else Conflict
    ensures outcome.Returned? ==> PhoneColumn(header).Some?
    ensures outcome.Returned? ==>
              var added := Addressees(ReadRows(rows, PhoneColumn(header).value, normalise), |rows|);
              database.View() == Upload(old(database.View()), cid, added)
              && outcome.result == ReportOf(rows, PhoneColumn(header).value, normalise)
  {
    var s := new Session(database);
    if cid !in s.campaigns { s.Rollback(); return Raised(CampaignNotFound); }
    if !AcceptsUploads(s.campaigns[cid]) { s.Rollback(); return Raised(Conflict); }
    var phoneColumn := PhoneColumn(header);
    PhoneColumnIsFirst(header);
    if phoneColumn.None? { s.Rollback(); return Raised(InvalidInput); }
    var report := CommitUpload(database, s, cid, rows, phoneColumn.value, normalise);
    ghost var t := old(database.View());
    if IdsHandedOut(t) && AllUniqueColumns(rows) { UploadIsRead(t, cid, header, rows, normalise); }
    outcome := Returned(report);
  }

  /** The checks are passed: the rows are read, stored and committed. */
  method CommitUpload(database: Database, s: Session, cid: Id, rows: seq<Row>, phoneColumn: string,
                      normalise: Normaliser)
    returns (report: Report)
    requires s.database == database && s.pending == [] && cid in s.campaigns && AcceptsUploads(s.campaigns[cid])
    modifies s, database
    ensures database.View() == Upload(old(s.View()), cid, Addressees(ReadRows(rows, phoneColumn, normalise), |rows|))
    ensures report == ReportOf(rows, phoneColumn, normalise)
  {
    var parsed, added, reasons := ReadUpload(rows, phoneColumn, normalise);
    StoreUpload(s, cid, added);
    s.Commit();
    report := Report(parsed, |added|, |reasons|, Capped(reasons));
  }

  /** The added rows reach the tables, and the campaign's total grows by their number. */
  method StoreUpload(s: Session, cid: Id, added: seq<Addressee>)
    requires cid in s.campaigns && AcceptsUploads(s.campaigns[cid])
    modifies s`recipients, s`nextId, s`campaigns
    ensures s.View() == Upload(old(s.View()), cid, added)
  {
    var campaign := s.campaigns[cid];
    s.campaigns := s.campaigns[cid := campaign.(total := campaign.total + |added|)];
    s.recipients := s.recipients + NewRecipients(s.nextId, cid, added);
    s.nextId := s.nextId + |added|;
  }

  /** `start`, as committed: checks its guards and then raises in every case. */
  method StartRequest(database: Database, cid: Id) returns (error: Error)
    ensures database.View() == old(database.View())
    ensures error == if cid in database.campaigns then Conflict else CampaignNotFound
  {
    var s := new Session(database);
    if cid !in s.campaigns { s.Rollback(); return CampaignNotFound; }
    if s.campaigns[cid].status !in {CampaignStatus.Draft, CampaignStatus.Scheduled, CampaignStatus.Paused} {
      s.Rollback();
      return Conflict;
    }
    if s.campaigns[cid].total == 0 { s.Rollback(); return Conflict; }
    s.Rollback();
    return Conflict;
  }

  method Pause(database: Database, cid: Id) returns (outcome: Outcome<CampaignStatus>)
    modifies database
    ensures database.View() == PauseCampaign(old(database.View()), cid)
    ensures outcome.Returned? <==>
        cid in old(database.campaigns) && old(database.campaigns)[cid].status == CampaignStatus.Running
    ensures outcome.Returned? ==>
              CampaignMovedTo(old(database.View()), database.View(), cid, CampaignStatus.Paused,
                              old(database.campaigns)[cid].completedAt)
    ensures outcome.Raised? ==>
              database.View() == old(database.View())
              && outcome.error == if cid in database.campaigns then Conflict else CampaignNotFound
  {
    var s := new Session(database);
    if cid !in s.campaigns { s.Rollback(); return Raised(CampaignNotFound); }
    var campaign := s.campaigns[cid];
    if campaign.status != CampaignStatus.Running { s.Rollback(); return Raised(Conflict); }
    s.campaigns := s.campaigns[cid := campaign.(status := CampaignStatus.Paused)];
    s.Commit();
    return Returned(CampaignStatus.Paused);
  }

  method Resume(database: Database, cid: Id) returns (error: Error)
    ensures database.View() == old(database.View())
    ensures error == if cid in database.campaigns then Conflict else CampaignNotFound
  {
    var s := new Session(database);
    if cid !in s.campaigns { s.Rollback(); return CampaignNotFound; }
    if s.campaigns[cid].status != CampaignStatus.Paused { s.Rollback(); return Conflict; }
    s.Rollback();
    error := StartRequest(database, cid);
  }

  method Cancel(database: Database, cid: Id, now: Time) returns (outcome: Outcome<CampaignStatus>)
    modifies database
    ensures database.View() == CancelCampaign(old(database.View()), cid, now)
    ensures outcome.Returned? <==> cid in old(database.campaigns)
    ensures outcome.Returned? ==> cid in database.campaigns && outcome.result == database.campaigns[cid].status
                                  && outcome.result in {CampaignStatus.Completed, CampaignStatus.Cancelled}
    ensures cid in old(database.campaigns)
            && old(database.campaigns)[cid].status !in {CampaignStatus.Completed, CampaignStatus.Cancelled} ==>
              CampaignMovedTo(old(database.View()), database.View(), cid, CampaignStatus.Cancelled, Some(now))
    ensures outcome.Raised? ==> database.View() == old(database.View()) && outcome.error == CampaignNotFound
    ensures cid in old(database.campaigns)
            && old(database.campaigns)[cid].status in {CampaignStatus.Completed, CampaignStatus.Cancelled} ==>
              database.View() == old(database.View())
  {
    var s := new Session(database);
    if cid !in s.campaigns { s.Rollback(); return Raised(CampaignNotFound); }
    var campaign := s.campaigns[cid];
    if campaign.status in {CampaignStatus.Completed, CampaignStatus.Cancelled} {
      s.Commit();
      return Returned(campaign.status);
    }
    campaign := campaign.(status := CampaignStatus.Cancelled);
    campaign := campaign.(completedAt := Some(now));
    s.campaigns := s.campaigns[cid := campaign];
    s.Commit();
    return Returned(CampaignStatus.Cancelled);
  }

  /** The campaign task's session: a snapshot of the queued recipients of a running campaign, or nothing. */
  method QueuedSnapshot(database: Database, cid: Id) returns (ids: Option<seq<Id>>)
    ensures database.View() == old(database.View())
    ensures ids.Some? <==> cid in database.campaigns && database.campaigns[cid].status == CampaignStatus.Running
    ensures ids.Some? ==> forall rid :: rid in ids.value <==>
              rid in database.recipients && database.recipients[rid].campaignId == cid
              && database.recipients[rid].status == RecipientStatus.Queued
    ensures ids.Some? ==> forall i, j :: 0 <= i < j < |ids.value| ==> ids.value[i] != ids.value[j]
  {
    if cid !in database.campaigns || database.campaigns[cid].status != CampaignStatus.Running { return None; }
    var rows := set rid | rid in database.recipients && database.recipients[rid].campaignId == cid
                          && database.recipients[rid].status == RecipientStatus.Queued;
    var left := rows;
    var r: seq<Id> := [];
    while left != {}
      invariant left <= rows
      invariant forall rid :: rid in r <==> rid in rows && rid !in left
      invariant forall i, j :: 0 <= i < j < |r| ==> r[i] != r[j]
      decreases |left|
    {
      var rid :| rid in left;
      r := r + [rid];
      left := left - {rid};
    }
    return Some(r);
  }
}

/**
 Text and template sends requested over the API.
 */
module MessageService {
  import opened Wrappers
  import opened Rows
  import opened Delivery
  import opened Sessions
  import CommittedRows
  import TenantService

  method SendInSession(s: Session, request: DirectRequest, env: DirectEnv) returns (outcome: Outcome<string>)
    requires s.pending == []
    modifies s
    ensures outcome == DirectOutcome(old(s.View()), request, env)
    ensures outcome.Returned? ==> s.View() == CommittedDirect(old(s.View()), request, env)
    ensures s.pending == []
  {
    if !LiveTenant(s.tenants, request.tenantId) { return Raised(TenantNotFound); }
    var tenant := s.tenants[request.tenantId];
    var ok := TenantService.AssertQuota(s, request.tenantId);
    if !ok { return Raised(QuotaExceeded); }
    if !env.limiterGrants { return Raised(LimiterDenied); }
    if request.content.Template? && !env.validUrls { return Raised(InvalidInput); }

    var mid := s.nextId;
    var record := Message(request.tenantId, true, None, request.to, tenant.phoneNumberId, request.content,
                          MessageStatus.Queued, None, None, None, None, None, None, None, None);
    s.messages := s.messages[mid := record];
    s.nextId := s.nextId + 1;

    match env.reply
    case Refused(error) =>
      // Recorded, flushed, and then undone with the rest when the exception leaves the session.
      s.messages := s.messages[mid := record.(status := MessageStatus.Failed, failedAt := Some(Clock(env.now)))];
      return Raised(error);
    case Accepted(waId) =>
      record := record.(waId := Some(waId));
      record := record.(status := MessageStatus.Sent);
      record := record.(sentAt := Some(Clock(env.now)));
      s.messages := s.messages[mid := record];
      TenantService.IncrementUsage(s, request.tenantId);
      return Returned(waId);
  }

  /** A request that raises leaves every table as it was, its own failure record included. */
  method Send(database: Database, request: DirectRequest, env: DirectEnv) returns (outcome: Outcome<string>)
    modifies database
    ensures outcome == DirectOutcome(old(database.View()), request, env)
    ensures database.View() == CommittedDirect(old(database.View()), request, env)
    ensures outcome.Raised? ==> database.View() == old(database.View())
    ensures CommittedRows.DirectEnds(old(database.View()), request, env, outcome)
    ensures outcome.Returned? ==>
              request.tenantId in old(database.tenants)
              && CommittedRows.DirectSent(old(database.View()), database.View(), request, outcome.result, env.now)
  {
    CommittedRows.DirectCommits(database.View(), request, env);
    var session := new Session(database);
    outcome := SendInSession(session, request, env);
    if outcome.Returned? { session.Commit(); } else { session.Rollback(); }
  }
}

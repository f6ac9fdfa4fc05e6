/**
 The worker task that sends one campaign recipient's message.
 */
module SendTask {
  import opened Wrappers
  import opened Rows
  import opened Delivery
  import opened Sessions
  import CommittedRows
  import TenantService
  import BodyParameters

  /** The body of the task, statement by statement, inside an open session. */
  method SendInSession(s: Session, rid: Id, env: SendEnv) returns (outcome: Outcome<SendResult>)
    requires s.pending == []
    modifies s
    ensures outcome == SendOutcome(old(s.View()), rid, env)
    ensures outcome.Returned? ==> s.View() == CommittedSend(old(s.View()), rid, env)
    ensures s.pending == []
  {
    if rid !in s.recipients { return Returned(Missing); }
    var cid := s.recipients[rid].campaignId;
    if cid !in s.campaigns { return Returned(MissingCampaign); }
    if s.recipients[rid].status !in {RecipientStatus.Queued, RecipientStatus.Sending} {
      return Returned(NotQueued(s.recipients[rid].status));
    }

    var recipient := s.recipients[rid];
    recipient := recipient.(status := RecipientStatus.Sending);
    recipient := recipient.(attempts := recipient.attempts + 1);
    recipient := recipient.(attemptedAt := Some(env.now));
    s.recipients := s.recipients[rid := recipient];

    var campaign := s.campaigns[cid];
    if !LiveTenant(s.tenants, campaign.tenantId) { return Raised(TenantNotFound); }
    var tenant := s.tenants[campaign.tenantId];
    if !env.limiterGrants { return Raised(LimiterDenied); }

    var parameters := BodyParameters.Render(recipient.variables);
    if parameters.None? { return Raised(InvalidInput); }

    var record := Message(campaign.tenantId, true, None, recipient.phone, tenant.phoneNumberId,
                          Template(campaign.templateName, campaign.templateLanguage, parameters.value),
                          MessageStatus.Queued, None, None, None, None, None, None, None, Some(rid));
    var mid := s.nextId;
    s.messages := s.messages[mid := record];
    s.nextId := s.nextId + 1;
    outcome := CallMeta(s, rid, mid, env, old(s.View()));
  }

  /** The checks are passed; the recipient is marked as sending and the message recorded as queued. */
  ghost predicate Prepared(t: Tables, t': Tables, rid: Id, env: SendEnv) {
    && rid in t.recipients && t.recipients[rid].campaignId in t.campaigns
    && var r, c := t.recipients[rid], t.campaigns[t.recipients[rid].campaignId];
    && (r.status == RecipientStatus.Queued || r.status == RecipientStatus.Sending)
    && LiveTenant(t.tenants, c.tenantId) && env.limiterGrants && BodyParameters.Render(r.variables).Some?
    && t' == t.(nextId := t.nextId + 1,
                recipients := t.recipients[rid := r.(status := RecipientStatus.Sending, attempts := r.attempts + 1,
                                                     attemptedAt := Some(env.now))],
                messages := t.messages[t.nextId :=
                  Message(c.tenantId, true, None, r.phone, t.tenants[c.tenantId].phoneNumberId,
                          Template(c.templateName, c.templateLanguage, BodyParameters.Render(r.variables).value),
                          MessageStatus.Queued, None, None, None, None, None, None, None, Some(rid))])
  }

  /** The call of Meta's API and what follows on each answer. */
  method CallMeta(s: Session, rid: Id, mid: Id, env: SendEnv, ghost t: Tables) returns (outcome: Outcome<SendResult>)
    requires Prepared(t, s.View(), rid, env) && mid == t.nextId
    modifies s
    ensures outcome == SendOutcome(t, rid, env)
    ensures outcome.Returned? ==> s.View() == CommittedSend(t, rid, env)
    ensures s.pending == old(s.pending)
  {
    match env.reply
    case Refused(error) =>
      if !error.MetaInvalidRequest? { return Raised(error); }
      RecordRefusal(s, mid, rid, error.message, env.now);
      return Returned(FailedForGood);
    case Accepted(waId) =>
      RecordSuccess(s, mid, rid, waId, env.now);
      return Returned(SentOk);
  }

  /** The branch for a permanent refusal: message, recipient and campaign in turn. */
  method RecordRefusal(s: Session, mid: Id, rid: Id, message: string, now: Time)
    requires mid in s.messages && rid in s.recipients && s.recipients[rid].campaignId in s.campaigns
    modifies s
    ensures var t := old(s.View());
            s.View() == t.(
              messages := t.messages[mid := t.messages[mid].(status := MessageStatus.Failed,
                  failedAt := Some(Clock(now)),
                                                             errorMessage := Some(message))],
              recipients := t.recipients[rid :=
                  t.recipients[rid].(status := RecipientStatus.Failed, error := Some(message),
                                                                   completedAt := Some(now))],
              campaigns := t.campaigns[t.recipients[rid].campaignId :=
                t.campaigns[t.recipients[rid].campaignId].(failed :=
                    t.campaigns[t.recipients[rid].campaignId].failed + 1)])
    ensures s.pending == old(s.pending)
  {
    var record := s.messages[mid];
    record := record.(status := MessageStatus.Failed);
    record := record.(failedAt := Some(Clock(now)));
    record := record.(errorMessage := Some(message));
    s.messages := s.messages[mid := record];
    var recipient := s.recipients[rid];
    recipient := recipient.(status := RecipientStatus.Failed);
    recipient := recipient.(error := Some(message));
    recipient := recipient.(completedAt := Some(now));
    s.recipients := s.recipients[rid := recipient];
    var campaign := s.campaigns[recipient.campaignId];
    s.campaigns := s.campaigns[recipient.campaignId := campaign.(failed := campaign.failed + 1)];
  }

  /** The branch for an accepted message: message, recipient, campaign and tenant usage in turn. */
  method RecordSuccess(s: Session, mid: Id, rid: Id, waId: string, now: Time)
    requires mid in s.messages && rid in s.recipients && s.recipients[rid].campaignId in s.campaigns
    requires s.campaigns[s.recipients[rid].campaignId].tenantId in s.tenants
    modifies s
    ensures var t := old(s.View());
            var c := t.campaigns[t.recipients[rid].campaignId];
            s.View() == t.(
              messages := t.messages[mid := t.messages[mid].(waId := Some(waId), status := MessageStatus.Sent,
                                                             sentAt := Some(Clock(now)))],
              recipients := t.recipients[rid := t.recipients[rid].(status := RecipientStatus.Sent, waId := Some(waId))],
              campaigns := t.campaigns[t.recipients[rid].campaignId := c.(sent := c.sent + 1)],
              tenants := t.tenants[c.tenantId :=
                  t.tenants[c.tenantId].(sentThisMonth := t.tenants[c.tenantId].sentThisMonth + 1)])
    ensures s.pending == old(s.pending)
  {
    var record := s.messages[mid];
    record := record.(waId := Some(waId));
    record := record.(status := MessageStatus.Sent);
    record := record.(sentAt := Some(Clock(now)));
    s.messages := s.messages[mid := record];
    var recipient := s.recipients[rid];
    recipient := recipient.(status := RecipientStatus.Sent);
    recipient := recipient.(waId := Some(waId));
    s.recipients := s.recipients[rid := recipient];
    var campaign := s.campaigns[recipient.campaignId];
    s.campaigns := s.campaigns[recipient.campaignId := campaign.(sent := campaign.sent + 1)];
    TenantService.IncrementUsage(s, campaign.tenantId);
  }

  /**
   The whole task: committed when the body returns, rolled back when it raises. The
   `sending` state of the body is never seen outside.
   */
  method SendRecipient(database: Database, rid: Id, env: SendEnv) returns (outcome: Outcome<SendResult>)
    modifies database
    ensures outcome == SendOutcome(old(database.View()), rid, env)
    ensures database.View() == CommittedSend(old(database.View()), rid, env)
    ensures outcome.Raised? ==> database.View() == old(database.View())
    ensures CommittedRows.SendEnds(old(database.View()), rid, env, outcome)
    ensures CommittedRows.SendLeaves(old(database.View()), database.View(), rid, env, outcome)
  {
    CommittedRows.SendCommits(database.View(), rid, env);
    var session := new Session(database);
    outcome := SendInSession(session, rid, env);
    if outcome.Returned? { session.Commit(); } else { session.Rollback(); }
  }
}

/**
 The rows that requests, tasks and events commit, column by column, and when they commit them.
 */
module CommittedRows {
  import opened Wrappers
  import opened Rows
  import opened Delivery
  import BodyParameters

  predicate Live(t: Tables, tenantId: Id) {
    tenantId in t.tenants && t.tenants[tenantId].deletedAt.None?
  }

  // ------------------------------------------------------------ new messages

  /** One message is added, under the next id, and every other message is as it was. */
  ghost predicate OneMoreMessage(t: Tables, t': Tables) {
    && t'.nextId == t.nextId + 1 && t'.messages.Keys == t.messages.Keys + {t.nextId}
    && forall id :: id in t.messages && id != t.nextId ==> t'.messages[id] == t.messages[id]
  }

  /** What any outbound message holds besides its status. */
  predicate Outgoing(m: Message, tenantId: Id, to: string, phoneNumberId: string, content: Content) {
    && m.outbound && m.tenantId == tenantId
    && m.recipientPhone == to && m.senderPhone == phoneNumberId && m.content == content
    && m.deliveredAt.None? && m.readAt.None? && m.errorCode.None? && m.pricing.None?
  }

  predicate SentAs(m: Message, waId: string, now: Time) {
    && m.status == MessageStatus.Sent && m.waId == Some(waId) && m.sentAt == Some(Clock(now))
    && m.failedAt.None? && m.errorMessage.None?
  }

  predicate RefusedAs(m: Message, text: string, now: Time) {
    && m.status == MessageStatus.Failed && m.waId.None? && m.sentAt.None?
    && m.failedAt == Some(Clock(now)) && m.errorMessage == Some(text)
  }

  /** A tenant's usage is one more, and nothing else about the tenants changed. */
  ghost predicate UsedOneMore(t: Tables, t': Tables, tenantId: Id)
    requires tenantId in t.tenants
  {
    var tenant := t.tenants[tenantId];
    t'.tenants == t.tenants[tenantId := tenant.(sentThisMonth := tenant.sentThisMonth + 1)]
  }

  // ------------------------------------------------------------ direct sends

  /** A direct send: its message, one more message on the tenant's account, and nothing else. */
  ghost predicate DirectSent(t: Tables, t': Tables, request: DirectRequest, waId: string, now: Time)
    requires request.tenantId in t.tenants
  {
    && OneMoreMessage(t, t')
    && Outgoing(t'.messages[t.nextId], request.tenantId, request.to, t.tenants[request.tenantId].phoneNumberId,
                request.content)
    && SentAs(t'.messages[t.nextId], waId, now) && t'.messages[t.nextId].recipient.None?
    && UsedOneMore(t, t', request.tenantId)
    && t'.templates == t.templates && t'.campaigns == t.campaigns && t'.recipients == t.recipients
    && t'.events == t.events
  }

  predicate RoomLeft(t: Tables, tenantId: Id)
    requires tenantId in t.tenants
  {
    t.tenants[tenantId].sentThisMonth < t.tenants[tenantId].monthlyLimit
  }

  /** The checks of a direct send in order: the first that fails names the error, and then Meta's answer decides. */
  ghost predicate DirectEnds(t: Tables, request: DirectRequest, env: DirectEnv, outcome: Outcome<string>) {
    if !Live(t, request.tenantId) then outcome == Raised(TenantNotFound)
    else if !RoomLeft(t, request.tenantId) then outcome == Raised(QuotaExceeded)
    else if !env.limiterGrants then outcome == Raised(LimiterDenied)
    else if request.content.Template? && !env.validUrls then outcome == Raised(InvalidInput)
    else if env.reply.Refused? then outcome == Raised(env.reply.error)
    else outcome == Returned(env.reply.waId)
  }

  /** A direct send commits its row and is counted when it returns, and leaves no trace when it raises. */
  lemma DirectCommits(t: Tables, request: DirectRequest, env: DirectEnv)
    ensures var outcome, t' := DirectOutcome(t, request, env), CommittedDirect(t, request, env);
            && DirectEnds(t, request, env, outcome)
            && (outcome.Raised? ==> t' == t)
            && (outcome.Returned? ==>
                  request.tenantId in t.tenants && DirectSent(t, t', request, outcome.result, env.now))
  {
  }

  // ------------------------------------------------------------ campaign sends

  /** The campaign and the tenant behind a recipient that a send gets as far as writing about. */
  ghost predicate Reaches(t: Tables, rid: Id, cid: Id, tid: Id) {
    && rid in t.recipients && cid == t.recipients[rid].campaignId
    && cid in t.campaigns && tid == t.campaigns[cid].tenantId && Live(t, tid)
  }

  /** The message of a campaign send: the campaign's template with the recipient's parameters. */
  ghost predicate CampaignMessageAdded(t: Tables, t': Tables, rid: Id, cid: Id, tid: Id, parameters: seq<string>)
    requires Reaches(t, rid, cid, tid)
  {
    var c := t.campaigns[cid];
    && OneMoreMessage(t, t')
    && Outgoing(t'.messages[t.nextId], tid, t.recipients[rid].phone, t.tenants[tid].phoneNumberId,
                Template(c.templateName, c.templateLanguage, parameters))
    && t'.messages[t.nextId].recipient == Some(rid)
  }

  /** The recipient after a send: one more attempt, at this time, and its other columns as they were. */
  predicate Attempted(r: Recipient, r': Recipient, now: Time) {
    && r'.attempts == r.attempts + 1 && r'.attemptedAt == Some(now)
    && r'.campaignId == r.campaignId && r'.phone == r.phone && r'.variables == r.variables
  }

  /** The recipient's row and the campaign's row, and no others of their tables. */
  ghost predicate OnlyRows(t: Tables, t': Tables, rid: Id, cid: Id) {
    && t'.recipients.Keys == t.recipients.Keys && t'.campaigns.Keys == t.campaigns.Keys
    && (forall id :: id in t.recipients && id != rid ==> t'.recipients[id] == t.recipients[id])
    && (forall id :: id in t.campaigns && id != cid ==> t'.campaigns[id] == t.campaigns[id])
    && t'.templates == t.templates && t'.events == t.events
  }

  /** An accepted campaign send. */
  ghost predicate CampaignSent(t: Tables, t': Tables, rid: Id, cid: Id, tid: Id, waId: string, now: Time)
    requires Reaches(t, rid, cid, tid)
  {
    && (exists parameters ::
          BodyParameters.Render(t.recipients[rid].variables) == Some(parameters)
          && CampaignMessageAdded(t, t', rid, cid, tid, parameters))
    && t.nextId in t'.messages && SentAs(t'.messages[t.nextId], waId, now)
    && OnlyRows(t, t', rid, cid)
    && var r, r', c := t.recipients[rid], t'.recipients[rid], t.campaigns[cid];
    && Attempted(r, r', now) && r'.status == RecipientStatus.Sent && r'.waId == Some(waId)
    && r'.error == r.error && r'.completedAt == r.completedAt
    && t'.campaigns[cid] == c.(sent := c.sent + 1)
    && UsedOneMore(t, t', tid)
  }

  /** A campaign send that Meta refuses for good. */
  ghost predicate CampaignRefused(t: Tables, t': Tables, rid: Id, cid: Id, tid: Id, text: string, now: Time)
    requires Reaches(t, rid, cid, tid)
  {
    && (exists parameters ::
          BodyParameters.Render(t.recipients[rid].variables) == Some(parameters)
          && CampaignMessageAdded(t, t', rid, cid, tid, parameters))
    && t.nextId in t'.messages && RefusedAs(t'.messages[t.nextId], text, now)
    && OnlyRows(t, t', rid, cid)
    && var r, r', c := t.recipients[rid], t'.recipients[rid], t.campaigns[cid];
    && Attempted(r, r', now) && r'.status == RecipientStatus.Failed && r'.waId == r.waId
    && r'.error == Some(text) && r'.completedAt == Some(now)
    && t'.campaigns[cid] == c.(failed := c.failed + 1)
    && t'.tenants == t.tenants
  }

  /** The checks of a campaign send in order, and what follows on Meta's answer. */
  ghost predicate SendEnds(t: Tables, rid: Id, env: SendEnv, outcome: Outcome<SendResult>) {
    if rid !in t.recipients then outcome == Returned(Missing)
    else
      var r := t.recipients[rid];
      if r.campaignId !in t.campaigns then outcome == Returned(MissingCampaign)
      else if !r.status.Queued? && !r.status.Sending? then outcome == Returned(NotQueued(r.status))
      else if !Live(t, t.campaigns[r.campaignId].tenantId) then outcome == Raised(TenantNotFound)
      else if !env.limiterGrants then outcome == Raised(LimiterDenied)
      else if BodyParameters.Render(r.variables).None? then outcome == Raised(InvalidInput)
      else if env.reply.Accepted? then outcome == Returned(SentOk)
      else if env.reply.error.MetaInvalidRequest? then outcome == Returned(FailedForGood)
      else outcome == Raised(env.reply.error)
  }

  /** What each end of a campaign send leaves in the tables. */
  ghost predicate SendLeaves(t: Tables, t': Tables, rid: Id, env: SendEnv, outcome: Outcome<SendResult>) {
    if outcome == Returned(SentOk) then
      exists cid, tid ::
        Reaches(t, rid, cid, tid) && env.reply.Accepted? && CampaignSent(t, t', rid, cid, tid, env.reply.waId, env.now)
    else if outcome == Returned(FailedForGood) then
      exists cid, tid ::
        Reaches(t, rid, cid, tid) && env.reply.Refused? && env.reply.error.MetaInvalidRequest?
        && CampaignRefused(t, t', rid, cid, tid, env.reply.error.message, env.now)
    else t' == t
  }

  lemma SendEndsSo(t: Tables, rid: Id, env: SendEnv)
    ensures SendEnds(t, rid, env, SendOutcome(t, rid, env))
  {
  }

  lemma AcceptedLeaves(t: Tables, rid: Id, env: SendEnv)
    requires SendOutcome(t, rid, env) == Returned(SentOk)
    ensures var cid := t.recipients[rid].campaignId;
            var tid := t.campaigns[cid].tenantId;
            && Reaches(t, rid, cid, tid) && env.reply.Accepted?
            && CampaignSent(t, CommittedSend(t, rid, env), rid, cid, tid, env.reply.waId, env.now)
  {
    var cid := t.recipients[rid].campaignId;
    var parameters := BodyParameters.Render(t.recipients[rid].variables).value;
    assert CampaignMessageAdded(t, CommittedSend(t, rid, env), rid, cid, t.campaigns[cid].tenantId, parameters);
  }

  lemma RefusalLeaves(t: Tables, rid: Id, env: SendEnv)
    requires SendOutcome(t, rid, env) == Returned(FailedForGood)
    ensures var cid := t.recipients[rid].campaignId;
            var tid := t.campaigns[cid].tenantId;
            && Reaches(t, rid, cid, tid) && env.reply.Refused? && env.reply.error.MetaInvalidRequest?
            && CampaignRefused(t, CommittedSend(t, rid, env), rid, cid, tid, env.reply.error.message, env.now)
  {
    var cid := t.recipients[rid].campaignId;
    var parameters := BodyParameters.Render(t.recipients[rid].variables).value;
    assert CampaignMessageAdded(t, CommittedSend(t, rid, env), rid, cid, t.campaigns[cid].tenantId, parameters);
  }

  /** How a campaign send ends, and the rows it commits. */
  lemma SendCommits(t: Tables, rid: Id, env: SendEnv)
    ensures var outcome := SendOutcome(t, rid, env);
            SendEnds(t, rid, env, outcome) && SendLeaves(t, CommittedSend(t, rid, env), rid, env, outcome)
  {
    SendEndsSo(t, rid, env);
    if SendOutcome(t, rid, env) == Returned(SentOk) {
      AcceptedLeaves(t, rid, env);
    } else if SendOutcome(t, rid, env) == Returned(FailedForGood) {
      RefusalLeaves(t, rid, env);
    }
  }

  // ------------------------------------------------------------ inbound messages

  /** An inbound message: from its sender, to the display phone or else the tenant's number, delivered. */
  ghost predicate InboundSaved(t: Tables, t': Tables, tenantId: Id, displayPhone: string, inbound: InboundMessage)
    requires tenantId in t.tenants
  {
    && OneMoreMessage(t, t')
    && var m := t'.messages[t.nextId];
    && !m.outbound && m.tenantId == tenantId && m.waId == inbound.waId && m.senderPhone == inbound.sender
    && m.recipientPhone == (if displayPhone == "" then t.tenants[tenantId].phoneNumberId else displayPhone)
    && m.content == Received(inbound.payload) && m.status == MessageStatus.Delivered
    && m.sentAt.None? && m.deliveredAt.None? && m.readAt.None? && m.failedAt.None?
    && m.errorCode.None? && m.errorMessage.None? && m.pricing.None? && m.recipient.None?
    && t' == t.(nextId := t.nextId + 1, messages := t'.messages)
  }

  /** A live tenant with the phone number id. */
  ghost predicate Owns(t: Tables, phoneNumberId: string, tenantId: Id) {
    Live(t, tenantId) && t.tenants[tenantId].phoneNumberId == phoneNumberId
  }

  /**
   An inbound message goes to the one live tenant with the phone number id the change names; with none, to the
   tenant of the event, a deleted one too; and to nobody if that is missing.
   */
  lemma InboundGoesTo(t: Tables, phone: Option<string>, display: string, inbound: InboundMessage, fallback: Option<Id>)
    requires !ActionRaises(t, Resolve(phone))
    ensures var t' := AfterSave(t, Save(phone, display, inbound), fallback);
            if phone.Some? && phone.value != "" && exists x :: Owns(t, phone.value, x) then
              exists x :: Owns(t, phone.value, x) && (forall y :: Owns(t, phone.value, y) ==> y == x)
                          && InboundSaved(t, t', x, display, inbound)
            else if fallback.Some? && fallback.value in t.tenants then
              InboundSaved(t, t', fallback.value, display, inbound)
            else t' == t
  {
    if phone.Some? && phone.value != "" && exists x :: Owns(t, phone.value, x) {
      var x: Id :| Owns(t, phone.value, x);
      assert HasPhone(t.tenants, phone.value, x);
      forall y | Owns(t, phone.value, y) ensures y == x { assert HasPhone(t.tenants, phone.value, y); }
      var to := ResolveTenant(t.tenants, phone, fallback);
      assert to.Some? && HasPhone(t.tenants, phone.value, to.value) && Owns(t, phone.value, to.value);
      SavedRow(t, x, display, inbound);
    } else {
      if phone.Some? { assert forall x :: HasPhone(t.tenants, phone.value, x) ==> Owns(t, phone.value, x); }
      if fallback.Some? && fallback.value in t.tenants { SavedRow(t, fallback.value, display, inbound); }
    }
  }

  lemma SavedRow(t: Tables, tenantId: Id, display: string, inbound: InboundMessage)
    requires tenantId in t.tenants
    ensures InboundSaved(t, SaveInbound(t, Some(tenantId), display, inbound), tenantId, display, inbound)
  {
  }

  /** The look-up of a change's tenant raises exactly when it names a phone number id that two live tenants have. */
  lemma ResolveRaisesWhen(t: Tables, phone: Option<string>)
    ensures ActionRaises(t, Resolve(phone)) <==>
              phone.Some? && phone.value != ""
              && exists a, b :: Owns(t, phone.value, a) && Owns(t, phone.value, b) && a != b
  {
    if phone.Some? {
      assert forall x :: HasPhone(t.tenants, phone.value, x) <==> Owns(t, phone.value, x);
    }
  }

  // ------------------------------------------------------------ template events

  predicate TemplateWord(word: string) {
    word in {"pending", "approved", "rejected", "paused", "disabled"}
  }

  /** A status and the word for it. */
  predicate Names(word: string, status: TemplateStatus) {
    && (status.Pending? ==> word == "pending") && (status.Approved? ==> word == "approved")
    && (status.Rejected? ==> word == "rejected") && (status.Paused? ==> word == "paused")
    && (status.Disabled? ==> word == "disabled")
  }

  /**
   A template event gives the status it names to the template it names, if the event has a tenant and that
   tenant has the template; the first of each pair of fields counts, and the language is else "en_US".
   */
  lemma TemplateEventMeans(templates: TemplateCache, u: TemplateUpdate, tenant: Option<Id>)
    ensures var name := if u.templateName != "" then u.templateName else u.name;
            var language := if u.templateLanguage != "" then u.templateLanguage
                            else if u.language != "" then u.language else "en_US";
            var word := if u.event != "" then u.event else u.status;
            var templates' := Retemplated(templates, u, tenant);
            if tenant.Some? && name != "" && TemplateWord(word)
               && TemplateKey(tenant.value, name, language) in templates then
              var key := TemplateKey(tenant.value, name, language);
              && templates'.Keys == templates.Keys && Names(word, templates'[key].status)
              && templates'[key] == templates[key].(status := templates'[key].status)
              && forall other :: other in templates && other != key ==> templates'[other] == templates[other]
            else templates' == templates
  {
  }

  // ------------------------------------------------------------ events

  /** The columns that the end of a processing writes on the event's row. */
  lemma ClosedColumns(t: Tables, eid: Id, complete: bool, now: Time)
    requires eid in t.events
    ensures var t', e := CloseEvent(t, eid, complete, now), t.events[eid];
            && t'.events.Keys == t.events.Keys && t' == t.(events := t'.events)
            && (forall id :: id in t.events && id != eid ==> t'.events[id] == t.events[id])
            && var e' := t'.events[eid];
            && e'.tenantId == e.tenantId && e'.entries == e.entries
            && (if complete then e'.processed && e'.processedAt == Some(now) && !e'.error
                else e'.processed == e.processed && e'.processedAt == e.processedAt && e'.error)
  {
  }

  /** A delivery is stored as a new row, unprocessed. */
  lemma StoredColumns(t: Tables, tenantId: Option<Id>, entries: seq<seq<Change>>)
    ensures var t' := StoreEvent(t, tenantId, entries);
            && t'.events.Keys == t.events.Keys + {t.nextId} && t' == t.(nextId := t.nextId + 1, events := t'.events)
            && (forall id :: id in t.events && id != t.nextId ==> t'.events[id] == t.events[id])
            && var e := t'.events[t.nextId];
            && e.tenantId == tenantId && e.entries == entries
            && !e.processed && e.processedAt.None? && !e.error
  {
  }

  /**
   The actions of an event, in order: entry after entry, change after change, and in a change of field "messages"
   the look-up of the tenant, then the inbound messages, then the statuses.
   */
  lemma {:induction false} ActionsInOrder(entries: seq<seq<Change>>, more: seq<seq<Change>>)
    ensures EventActions([]) == [] && EventActions(entries + more) == EventActions(entries) + EventActions(more)
  {
    if entries == [] {
      assert entries + more == more;
    } else {
      assert (entries + more)[1..] == entries[1..] + more;
      ActionsInOrder(entries[1..], more);
    }
  }

  lemma {:induction false} EntryConcat(changes: seq<Change>, more: seq<Change>)
    ensures EntryActions(changes + more) == EntryActions(changes) + EntryActions(more)
  {
    if changes == [] {
      assert changes + more == more;
    } else {
      assert (changes + more)[1..] == changes[1..] + more;
      EntryConcat(changes[1..], more);
    }
  }

  lemma ChangesInOrder(changes: seq<Change>, more: seq<Change>)
    ensures EventActions([[]]) == []
    ensures EventActions([changes + more]) == EventActions([changes]) + EventActions([more])
  {
    OneEntry([]);
    OneEntry(changes);
    OneEntry(more);
    OneEntry(changes + more);
    EntryConcat(changes, more);
  }

  lemma OneEntry(changes: seq<Change>)
    ensures EventActions([changes]) == EntryActions(changes)
  {
    assert [changes][1..] == [];
  }

  /** What one change asks for. */
  lemma ChangeAsksFor(change: Change)
    ensures var actions := EventActions([[change]]);
            match change
            case OtherField => actions == []
            case TemplateChange(u) => actions == [Retemplate(u)]
            case Messages(phone, display, inbound, statuses) =>
              && |actions| == 1 + |inbound| + |statuses| && actions[0] == Resolve(phone)
              && (forall i :: 0 <= i < |inbound| ==> actions[1 + i] == Save(phone, display, inbound[i]))
              && forall j :: 0 <= j < |statuses| ==> actions[1 + |inbound| + j] == Update(statuses[j])
  {
    OneEntry([change]);
    assert [change][1..] == [];
  }

  // ------------------------------------------------------------ campaigns and tenants

  /** A new campaign: scheduled if it has a time and else a draft, with the counters at zero. */
  ghost predicate CampaignAdded(t: Tables, t': Tables, tenantId: Id, name: string, language: string, scheduled: bool) {
    && t'.campaigns.Keys == t.campaigns.Keys + {t.nextId}
    && (forall id :: id in t.campaigns && id != t.nextId ==> t'.campaigns[id] == t.campaigns[id])
    && t' == t.(nextId := t.nextId + 1, campaigns := t'.campaigns)
    && var c := t'.campaigns[t.nextId];
    && c.tenantId == tenantId && c.templateName == name && c.templateLanguage == language
    && c.total == 0 && c.sent == 0 && c.delivered == 0 && c.read == 0 && c.failed == 0 && c.completedAt.None?
    && (if scheduled then c.status == CampaignStatus.Scheduled else c.status == CampaignStatus.Draft)
  }

  /** One campaign takes a status, and with it perhaps the time it was done; nothing else changes. */
  ghost predicate CampaignMovedTo(t: Tables, t': Tables, cid: Id, status: CampaignStatus, completedAt: Option<Time>)
    requires cid in t.campaigns
  {
    && t'.campaigns.Keys == t.campaigns.Keys && t' == t.(campaigns := t'.campaigns)
    && (forall id :: id in t.campaigns && id != cid ==> t'.campaigns[id] == t.campaigns[id])
    && var c, c' := t.campaigns[cid], t'.campaigns[cid];
    && c'.status == status && c'.completedAt == completedAt
    && c'.tenantId == c.tenantId && c'.templateName == c.templateName && c'.templateLanguage == c.templateLanguage
    && c'.total == c.total && c'.sent == c.sent && c'.delivered == c.delivered && c'.read == c.read
    && c'.failed == c.failed
  }

  /** The environment's start passes the guards of the source and sets the status, nothing else. */
  lemma StartMoves(t: Tables, cid: Id)
    ensures var t' := StartCampaign(t, cid);
            if cid in t.campaigns && t.campaigns[cid].total != 0
               && (t.campaigns[cid].status.Draft? || t.campaigns[cid].status.Scheduled?
                   || t.campaigns[cid].status.Paused?) then
              CampaignMovedTo(t, t', cid, CampaignStatus.Running, t.campaigns[cid].completedAt)
            else t' == t
  {
  }

  /** One tenant's row is added or rewritten, and nothing else. */
  ghost predicate OneTenant(t: Tables, t': Tables, tenantId: Id, nextId: Id) {
    && t'.tenants.Keys == t.tenants.Keys + {tenantId}
    && (forall id :: id in t.tenants && id != tenantId ==> t'.tenants[id] == t.tenants[id])
    && t' == t.(nextId := nextId, tenants := t'.tenants)
  }

  /** A new tenant holds what the request says, the token encrypted; it is active and has sent nothing. */
  ghost predicate TenantAdded(t: Tables, t': Tables, r: TenantRequest, encrypt: string -> string) {
    && OneTenant(t, t', t.nextId, t.nextId + 1)
    && var row := t'.tenants[t.nextId];
    && row.name == r.name && row.slug == r.slug && row.wabaId == r.wabaId && row.phoneNumberId == r.phoneNumberId
    && row.accessToken == encrypt(r.accessToken) && row.plan == r.plan && row.monthlyLimit == r.monthlyLimit
    && row.sentThisMonth == 0 && row.isActive && row.deletedAt.None?
  }

  lemma AddedColumns(t: Tables, r: TenantRequest, encrypt: string -> string)
    requires !SlugTaken(t.tenants, r.slug)
    ensures TenantAdded(t, AddTenant(t, r.(accessToken := encrypt(r.accessToken))), r, encrypt)
  {
  }

  /** A column takes the value of its field if the field is present. */
  predicate Takes<T(==)>(before: T, after: T, field: Option<T>) {
    if field.Some? then after == field.value else after == before
  }

  /** The five columns that a patch can set, the token encrypted; and no others. */
  ghost predicate TenantPatched(t: Tables, t': Tables, tenantId: Id, fields: TenantPatch, encrypt: string -> string)
    requires tenantId in t.tenants
  {
    && OneTenant(t, t', tenantId, t.nextId)
    && var row, row' := t.tenants[tenantId], t'.tenants[tenantId];
    && Takes(row.name, row'.name, fields.name) && Takes(row.isActive, row'.isActive, fields.isActive)
    && Takes(row.plan, row'.plan, fields.plan) && Takes(row.monthlyLimit, row'.monthlyLimit, fields.monthlyLimit)
    && (if fields.accessToken.Some? then row'.accessToken == encrypt(fields.accessToken.value)
        else row'.accessToken == row.accessToken)
    && row'.slug == row.slug && row'.wabaId == row.wabaId && row'.phoneNumberId == row.phoneNumberId
    && row'.sentThisMonth == row.sentThisMonth && row'.deletedAt == row.deletedAt
  }

  /** A deleted tenant is inactive and has its time of deletion. */
  ghost predicate TenantDeleted(t: Tables, t': Tables, tenantId: Id, now: Time)
    requires tenantId in t.tenants
  {
    && OneTenant(t, t', tenantId, t.nextId)
    && var row, row' := t.tenants[tenantId], t'.tenants[tenantId];
    && row'.deletedAt == Some(now) && !row'.isActive
    && row' == row.(deletedAt := row'.deletedAt, isActive := row'.isActive)
  }
}

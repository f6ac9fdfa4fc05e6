/**
 The invariant that ties campaign recipients to their messages, kept by every step
 and so true in every committed state of every run.
 */
module Agreement {
  import opened Wrappers
  import opened Rows
  import opened StatusFold
  import opened Delivery

  ghost predicate Owns(messages: map<Id, Message>, mid: Id, rid: Id) {
    mid in messages && messages[mid].recipient == Some(rid)
  }

  ghost predicate Unmessaged(messages: map<Id, Message>, rid: Id) {
    forall mid :: !Owns(messages, mid, rid)
  }

  ghost predicate SoleMessage(messages: map<Id, Message>, rid: Id, mid: Id) {
    Owns(messages, mid, rid) && forall other :: Owns(messages, other, rid) ==> other == mid
  }

  /** A message and its recipient tell the same story; one without an id was refused by Meta. */
  ghost predicate Mirrors(r: Recipient, m: Message) {
    && m.outbound
    && m.recipientPhone == r.phone
    && m.waId == r.waId
    && m.status != MessageStatus.Queued
    && r.status == Image(m.status)
    && (m.waId.None? ==> m.status == MessageStatus.Failed)
  }

  /** No message while queued, with no attempt; exactly one afterwards, with one attempt. */
  ghost predicate Agrees(messages: map<Id, Message>, rid: Id, r: Recipient) {
    if r.status == RecipientStatus.Queued then
      r.attempts == 0 && r.waId.None? && Unmessaged(messages, rid)
    else
      r.attempts == 1 && exists mid :: SoleMessage(messages, rid, mid) && Mirrors(r, messages[mid])
  }

  ghost predicate IdsBelowNext(t: Tables) {
    && (forall id :: id in t.tenants ==> id < t.nextId)
    && (forall id :: id in t.campaigns ==> id < t.nextId)
    && (forall id :: id in t.recipients ==> id < t.nextId)
    && (forall id :: id in t.messages ==> id < t.nextId)
    && (forall id :: id in t.events ==> id < t.nextId)
  }

  ghost predicate Linked(t: Tables) {
    && (forall id :: id in t.campaigns ==> t.campaigns[id].tenantId in t.tenants)
    && (forall id :: id in t.recipients ==> t.recipients[id].campaignId in t.campaigns)
    && (forall id :: id in t.messages ==> t.messages[id].tenantId in t.tenants)
    && (forall id :: id in t.messages && t.messages[id].recipient.Some? ==>
        t.messages[id].recipient.value in t.recipients)
  }

  ghost predicate AllAgree(t: Tables) {
    forall rid :: rid in t.recipients ==> Agrees(t.messages, rid, t.recipients[rid])
  }

  ghost predicate Inv(t: Tables) {
    Structured(t) && AllAgree(t)
  }

  /** Before the first campaign and the first message; the tenants are arbitrary. */
  ghost predicate Initial(t: Tables) {
    t.campaigns == map[] && t.recipients == map[] && t.messages == map[] && t.events == map[]
    && forall id :: id in t.tenants ==> id < t.nextId
  }

  /** Any message of a recipient is its only one, and mirrors it. */
  lemma OwnerIsSole(messages: map<Id, Message>, rid: Id, r: Recipient, mid: Id)
    requires Agrees(messages, rid, r) && Owns(messages, mid, rid)
    ensures SoleMessage(messages, rid, mid) && Mirrors(r, messages[mid])
    ensures r.status != RecipientStatus.Queued && r.attempts == 1
  {
  }

  // ------------------------------------------------------------ preservation

  /** What a send that commits anything changes, as far as the invariants look. */
  ghost predicate SentOnce(t: Tables, t': Tables, rid: Id, accepted: bool) {
    && rid in t.recipients && t.recipients[rid].campaignId in t.campaigns && rid in t'.recipients
    && var r, r', cid := t.recipients[rid], t'.recipients[rid], t.recipients[rid].campaignId;
       var c := t.campaigns[cid];
    && (r.status == RecipientStatus.Queued || r.status == RecipientStatus.Sending)
    && c.tenantId in t.tenants && t.nextId in t'.messages
    && var m, tenant := t'.messages[t.nextId], t.tenants[c.tenantId];
    && t'.nextId == t.nextId + 1 && t'.events == t.events
    && t'.recipients == t.recipients[rid := r']
    && r'.campaignId == cid && r'.phone == r.phone && r'.attempts == r.attempts + 1
    && t'.messages == t.messages[t.nextId := m]
    && m.outbound && m.tenantId == c.tenantId && m.recipientPhone == r.phone && m.recipient == Some(rid)
    && t'.campaigns == t.campaigns[cid := if accepted then c.(sent := c.sent + 1) else c.(failed := c.failed + 1)]
    && (if accepted then
          && r'.status == RecipientStatus.Sent && m.status == MessageStatus.Sent && m.waId.Some? && r'.waId == m.waId
          && t'.tenants == t.tenants[c.tenantId := tenant.(sentThisMonth := tenant.sentThisMonth + 1)]
        else
          && r'.status == RecipientStatus.Failed && m.status == MessageStatus.Failed
          && m.waId.None? && r'.waId == r.waId
          && t'.tenants == t.tenants)
  }

  lemma SendEffect(t: Tables, rid: Id, env: SendEnv)
    ensures var t' := CommittedSend(t, rid, env);
            t' == t || SentOnce(t, t', rid, env.reply.Accepted?)
  {
  }

  /** Adding a message that belongs to no recipient disturbs nobody. */
  lemma UnownedMessageAdded(messages: map<Id, Message>, mid: Id, m: Message, rid: Id, r: Recipient)
    requires mid !in messages && m.recipient != Some(rid)
    requires Agrees(messages, rid, r)
    ensures Agrees(messages[mid := m], rid, r)
  {
    var messages' := messages[mid := m];
    assert forall other :: Owns(messages', other, rid) <==> Owns(messages, other, rid);
    if r.status != RecipientStatus.Queued {
      var own: Id :| SoleMessage(messages, rid, own) && Mirrors(r, messages[own]);
      assert SoleMessage(messages', rid, own) && Mirrors(r, messages'[own]);
    }
  }

  /** Rewriting a message without changing its owner disturbs no other recipient. */
  lemma OtherMessageChanged(messages: map<Id, Message>, mid: Id, m: Message, rid: Id, r: Recipient)
    requires mid in messages && m.recipient == messages[mid].recipient && m.recipient != Some(rid)
    requires Agrees(messages, rid, r)
    ensures Agrees(messages[mid := m], rid, r)
  {
    var messages' := messages[mid := m];
    assert forall other :: Owns(messages', other, rid) <==> Owns(messages, other, rid);
    if r.status != RecipientStatus.Queued {
      var own: Id :| SoleMessage(messages, rid, own) && Mirrors(r, messages[own]);
      assert SoleMessage(messages', rid, own) && Mirrors(r, messages'[own]);
    }
  }

  /** What an update that reaches a message changes. */
  ghost predicate UpdatedOnce(t: Tables, t': Tables, mid: Id, e: Effect, now: Time) {
    && mid in t.messages
    && t'.messages == t.messages[mid := UpdateMessage(t.messages[mid], e)]
    && t'.nextId == t.nextId && t'.tenants == t.tenants && t'.templates == t.templates && t'.events == t.events
    && var owner := t.messages[mid].recipient;
       if owner.None? || owner.value !in t.recipients then
         t'.recipients == t.recipients && t'.campaigns == t.campaigns
       else
         var r := t.recipients[owner.value];
         && t'.recipients == t.recipients[owner.value := Moved(r, e.to, now)]
         && t'.campaigns == RolledUp(t.campaigns, r.campaignId, r.status, Image(e.to), now)
  }

  /** The update is recognised and readable, and one message has its id. */
  ghost predicate Found(t: Tables, u: StatusUpdate) {
    Parse(u, 0).Some? && !u.timestamp.Malformed? && Target(t, u.waId).Some?
  }

  lemma ReceiveEffect(t: Tables, u: StatusUpdate, now: Time)
    ensures var t' := ApplyUpdate(t, u, now);
            if Found(t, u) then
              Parse(u, now).Some? && Parse(u, now).value.to == Parse(u, 0).value.to
              && UpdatedOnce(t, t', Target(t, u.waId).value, Parse(u, now).value, now)
            else t' == t
  {
  }

  lemma SendKeepsAgreement(t: Tables, rid: Id, env: SendEnv)
    requires Inv(t)
    ensures AllAgree(CommittedSend(t, rid, env))
  {
    SendEffect(t, rid, env);
    var t' := CommittedSend(t, rid, env);
    if t' != t { SentOnceKeepsAgreement(t, t', rid, env.reply.Accepted?); }
  }

  lemma SentOnceKeepsAgreement(t: Tables, t': Tables, rid: Id, accepted: bool)
    requires Inv(t) && SentOnce(t, t', rid, accepted)
    ensures AllAgree(t')
  {
    var m := t'.messages[t.nextId];
    assert t.nextId !in t.messages;
    assert Agrees(t.messages, rid, t.recipients[rid]);
    forall id | id in t'.recipients ensures Agrees(t'.messages, id, t'.recipients[id]) {
      assert Agrees(t.messages, id, t.recipients[id]);
      if id == rid {
        assert SoleMessage(t'.messages, rid, t.nextId) by {
          assert forall other :: Owns(t'.messages, other, rid) ==> other == t.nextId || Owns(t.messages, other, rid);
        }
        assert Mirrors(t'.recipients[rid], m);
      } else {
        UnownedMessageAdded(t.messages, t.nextId, m, id, t.recipients[id]);
      }
    }
  }

  lemma UpdateKeepsAgreement(t: Tables, mid: Id, e: Effect, now: Time)
    requires Inv(t) && mid in t.messages && t.messages[mid].waId.Some? && e.to != MessageStatus.Queued
    ensures AllAgree(UpdateAt(t, mid, e, now))
  {
    var t' := UpdateAt(t, mid, e, now);
    var m' := UpdateMessage(t.messages[mid], e);
    assert t'.messages == t.messages[mid := m'];
    forall id | id in t'.recipients ensures Agrees(t'.messages, id, t'.recipients[id]) {
      var r := t.recipients[id];
      assert Agrees(t.messages, id, r);
      if m'.recipient == Some(id) {
        assert Owns(t.messages, mid, id);
        var own: Id :| SoleMessage(t.messages, id, own) && Mirrors(r, t.messages[own]);
        assert own == mid;
        assert forall other :: Owns(t'.messages, other, id) <==> Owns(t.messages, other, id);
        assert SoleMessage(t'.messages, id, mid) && Mirrors(t'.recipients[id], t'.messages[mid]);
      } else {
        OtherMessageChanged(t.messages, mid, m', id, r);
      }
    }
  }

  lemma UploadKeepsAgreement(t: Tables, cid: Id, addressees: seq<Addressee>)
    requires Inv(t)
    ensures AllAgree(Upload(t, cid, addressees))
  {
    var t' := Upload(t, cid, addressees);
    forall id | id in t'.recipients ensures Agrees(t'.messages, id, t'.recipients[id]) {
      if id in t.recipients {
        assert t'.recipients[id] == t.recipients[id];
        assert Agrees(t.messages, id, t.recipients[id]);
      } else {
        forall mid ensures !Owns(t.messages, mid, id) {
          if mid in t.messages {
            assert t.messages[mid].recipient.Some? ==> t.messages[mid].recipient.value in t.recipients;
          }
        }
      }
    }
  }

  lemma FreshMessageKeepsAgreement(t: Tables, t': Tables, m: Message)
    requires Inv(t) && m.recipient.None?
    requires t'.recipients == t.recipients && t'.messages == t.messages[t.nextId := m]
    ensures AllAgree(t')
  {
    assert t.nextId !in t.messages;
    forall id | id in t'.recipients ensures Agrees(t'.messages, id, t'.recipients[id]) {
      UnownedMessageAdded(t.messages, t.nextId, m, id, t.recipients[id]);
    }
  }

  lemma ReceiveKeepsAgreement(t: Tables, u: StatusUpdate, now: Time)
    requires Inv(t)
    ensures AllAgree(ApplyUpdate(t, u, now))
  {
    var e, mid := Parse(u, now), Target(t, u.waId);
    if e.Some? && mid.Some? { UpdateKeepsAgreement(t, mid.value, e.value, now); }
  }

  lemma DirectKeepsAgreement(t: Tables, request: DirectRequest, env: DirectEnv)
    requires Inv(t)
    ensures AllAgree(CommittedDirect(t, request, env))
  {
    var t' := CommittedDirect(t, request, env);
    if t' != t { FreshMessageKeepsAgreement(t, t', t'.messages[t.nextId]); }
  }

  lemma InboundKeepsAgreement(t: Tables, tenant: Option<Id>, display: string, m: InboundMessage)
    requires Inv(t)
    ensures AllAgree(SaveInbound(t, tenant, display, m))
  {
    var t' := SaveInbound(t, tenant, display, m);
    if t' != t { FreshMessageKeepsAgreement(t, t', t'.messages[t.nextId]); }
  }

  /** The steps that touch neither recipients nor messages. */
  predicate Administrative(s: Step) {
    s.Enroll? || s.Create? || s.Relabel? || s.Sync? || s.Start? || s.Pause? || s.Cancel? || s.Store? || s.Close?
    || s.Patch? || s.Delete?
  }

  /** The steps behind the campaign endpoints. */
  predicate CampaignStep(s: Step) {
    s.Create? || s.AddRecipients? || s.Start? || s.Pause? || s.Cancel?
  }

  lemma OthersKeepCampaigns(t: Tables, s: Step)
    requires !s.Send? && !s.Receive? && !CampaignStep(s)
    ensures Apply(t, s).campaigns == t.campaigns
  {
  }

  lemma OthersKeepTenants(t: Tables, s: Step)
    requires Administrative(s) && !s.Enroll? && !s.Patch? && !s.Delete?
    ensures Apply(t, s).tenants == t.tenants
  {
  }

  lemma AdministrativeFrame(t: Tables, s: Step)
    requires Administrative(s)
    ensures Apply(t, s).recipients == t.recipients && Apply(t, s).messages == t.messages
  {
    match s
    case Enroll(_) =>
    case Create(_, _, _, _) =>
    case Start(_) =>
    case Pause(_) =>
    case Cancel(_, _) =>
    case Store(_, _) =>
    case Close(_, _, _) =>
    case Relabel(_, _) =>
    case Sync(_, _) =>
    case Patch(_, _) =>
    case Delete(_, _) =>
  }

  /** Only sends and status updates change recipients; an upload adds some. */
  lemma QuietStepKeepsRecipients(t: Tables, s: Step)
    requires Structured(t) && !s.Send? && !s.Receive?
    ensures forall rid :: rid in t.recipients ==>
              rid in Apply(t, s).recipients && Apply(t, s).recipients[rid] == t.recipients[rid]
    ensures !s.AddRecipients? ==> Apply(t, s).recipients == t.recipients
  {
    if s.AddRecipients? {
      UploadKeepsRecipients(t, s.cid, s.addressees);
    } else if !s.Direct? && !s.Inbound? {
      AdministrativeFrame(t, s);
    }
  }

  lemma UploadKeepsRecipients(t: Tables, cid: Id, addressees: seq<Addressee>)
    requires Structured(t)
    ensures forall rid :: rid in t.recipients ==>
              rid in Upload(t, cid, addressees).recipients
              && Upload(t, cid, addressees).recipients[rid] == t.recipients[rid]
  {
  }

  lemma StepKeepsAgreement(t: Tables, s: Step)
    requires Inv(t)
    ensures AllAgree(Apply(t, s))
  {
    match s
    case Send(rid, env) => SendKeepsAgreement(t, rid, env);
    case AddRecipients(cid, addressees) => UploadKeepsAgreement(t, cid, addressees);
    case Receive(u, now) => ReceiveKeepsAgreement(t, u, now);
    case Direct(request, env) => DirectKeepsAgreement(t, request, env);
    case Inbound(tenant, display, m) => InboundKeepsAgreement(t, tenant, display, m);
    case _ => AdministrativeFrame(t, s);
  }

  ghost predicate Structured(t: Tables) {
    IdsBelowNext(t) && Linked(t)
  }

  lemma SendKeepsStructure(t: Tables, rid: Id, env: SendEnv)
    requires Structured(t)
    ensures Structured(CommittedSend(t, rid, env))
  {
    SendEffect(t, rid, env);
    var t' := CommittedSend(t, rid, env);
    if t' != t { SentOnceKeepsStructure(t, t', rid, env.reply.Accepted?); }
  }

  lemma SentOnceKeepsStructure(t: Tables, t': Tables, rid: Id, accepted: bool)
    requires Structured(t) && SentOnce(t, t', rid, accepted)
    ensures Structured(t')
  {
  }

  lemma UpdateKeepsStructure(t: Tables, u: StatusUpdate, now: Time)
    requires Structured(t)
    ensures Structured(ApplyUpdate(t, u, now))
  {
  }

  lemma UploadKeepsStructure(t: Tables, cid: Id, addressees: seq<Addressee>)
    requires Structured(t)
    ensures Structured(Upload(t, cid, addressees))
  {
  }

  lemma DirectKeepsStructure(t: Tables, request: DirectRequest, env: DirectEnv)
    requires Structured(t)
    ensures Structured(CommittedDirect(t, request, env))
  {
  }

  lemma InboundKeepsStructure(t: Tables, tenant: Option<Id>, display: string, m: InboundMessage)
    requires Structured(t)
    ensures Structured(SaveInbound(t, tenant, display, m))
  {
  }

  lemma AdministrativeKeepsStructure(t: Tables, s: Step)
    requires Structured(t) && Administrative(s)
    ensures Structured(Apply(t, s))
  {
    match s
    case Enroll(r) => EnrollKeepsStructure(t, r);
    case Create(tenantId, name, language, scheduled) =>
      CreateKeepsStructure(t, tenantId, name, language, scheduled);
    case Relabel(_, _) => assert Apply(t, s) == t.(templates := Apply(t, s).templates);
    case Sync(_, _) => assert Apply(t, s) == t.(templates := Apply(t, s).templates);
    case Start(_) => CampaignStepKeepsStructure(t, s);
    case Pause(_) => CampaignStepKeepsStructure(t, s);
    case Cancel(_, _) => CampaignStepKeepsStructure(t, s);
    case Store(_, _) => EventStepKeepsStructure(t, s);
    case Close(_, _, _) => EventStepKeepsStructure(t, s);
    case Patch(tenantId, patch) => PatchKeepsStructure(t, tenantId, patch);
    case Delete(tenantId, now) => DeleteKeepsStructure(t, tenantId, now);
  }

  lemma CreateKeepsStructure(t: Tables, tenantId: Id, name: string, language: string, scheduled: bool)
    requires Structured(t)
    ensures Structured(CreateCampaign(t, tenantId, name, language, scheduled))
  {
  }

  lemma CampaignStepKeepsStructure(t: Tables, s: Step)
    requires Structured(t) && (s.Start? || s.Pause? || s.Cancel?)
    ensures Structured(Apply(t, s))
  {
    RestatusedKeepsStructure(t, Apply(t, s), s.cid);
  }

  /** One campaign's row changes, but not its tenant. */
  lemma RestatusedKeepsStructure(t: Tables, t': Tables, cid: Id)
    requires Structured(t)
    requires t' == t || (cid in t.campaigns && cid in t'.campaigns
                         && t' == t.(campaigns := t.campaigns[cid := t'.campaigns[cid]])
                         && t'.campaigns[cid].tenantId == t.campaigns[cid].tenantId)
    ensures Structured(t')
  {
  }

  lemma EventStepKeepsStructure(t: Tables, s: Step)
    requires Structured(t) && (s.Store? || s.Close?)
    ensures Structured(Apply(t, s))
  {
    var t' := Apply(t, s);
    assert t' == t.(events := t'.events, nextId := t'.nextId);
  }

  lemma EnrollKeepsStructure(t: Tables, r: TenantRequest)
    requires Structured(t)
    ensures Structured(AddTenant(t, r))
  {
    TenantsGrowKeepsStructure(t, AddTenant(t, r));
  }

  lemma PatchKeepsStructure(t: Tables, tenantId: Id, patch: TenantPatch)
    requires Structured(t)
    ensures Structured(PatchTenant(t, tenantId, patch))
  {
    TenantsGrowKeepsStructure(t, PatchTenant(t, tenantId, patch));
  }

  lemma DeleteKeepsStructure(t: Tables, tenantId: Id, now: Time)
    requires Structured(t)
    ensures Structured(DeleteTenant(t, tenantId, now))
  {
    TenantsGrowKeepsStructure(t, DeleteTenant(t, tenantId, now));
  }

  lemma TenantsGrowKeepsStructure(t: Tables, t': Tables)
    requires Structured(t) && t.nextId <= t'.nextId && t.tenants.Keys <= t'.tenants.Keys
    requires t' == t.(tenants := t'.tenants, nextId := t'.nextId)
    requires forall id :: id in t'.tenants ==> id < t'.nextId
    ensures Structured(t')
  {
  }

  lemma StepKeepsStructure(t: Tables, s: Step)
    requires Structured(t)
    ensures Structured(Apply(t, s))
  {
    match s
    case Send(rid, env) => SendKeepsStructure(t, rid, env);
    case AddRecipients(cid, addressees) => UploadKeepsStructure(t, cid, addressees);
    case Receive(u, now) => UpdateKeepsStructure(t, u, now);
    case Direct(request, env) => DirectKeepsStructure(t, request, env);
    case Inbound(tenant, display, m) => InboundKeepsStructure(t, tenant, display, m);
    case _ => AdministrativeKeepsStructure(t, s);
  }

  /** Every step keeps the invariant. */
  lemma StepKeepsInv(t: Tables, s: Step)
    requires Inv(t)
    ensures Inv(Apply(t, s))
  {
    StepKeepsAgreement(t, s);
    StepKeepsStructure(t, s);
  }

  /** Two-table agreement in every committed state of every run. */
  lemma {:induction false} RunKeepsInv(t: Tables, steps: seq<Step>)
    requires Inv(t)
    ensures Inv(Run(t, steps))
    decreases |steps|
  {
    if steps != [] {
      StepKeepsInv(t, steps[0]);
      RunKeepsInv(Apply(t, steps[0]), steps[1..]);
    }
  }

  lemma InitialInv(t: Tables)
    requires Initial(t)
    ensures Inv(t)
  {
  }

  // ------------------------------------------------------------ main statements

  ghost function MessagesOf(t: Tables, rid: Id): set<Id> {
    set mid | mid in t.messages && t.messages[mid].recipient == Some(rid)
  }

  /** What agreement says of one recipient, by counting its messages. */
  ghost predicate TellsOneStory(t: Tables, rid: Id)
    requires rid in t.recipients
  {
    var r := t.recipients[rid];
    && r.status != RecipientStatus.Sending && r.status != RecipientStatus.Skipped
    && r.attempts == |MessagesOf(t, rid)| == (if r.status == RecipientStatus.Queued then 0 else 1)
    && forall mid :: mid in MessagesOf(t, rid) ==>
                       t.messages[mid].waId == r.waId && Image(t.messages[mid].status) == r.status
                       && t.messages[mid].recipientPhone == r.phone
  }

  lemma AgreementCounted(t: Tables, rid: Id)
    requires rid in t.recipients && Agrees(t.messages, rid, t.recipients[rid])
    ensures TellsOneStory(t, rid)
  {
    var r := t.recipients[rid];
    if r.status == RecipientStatus.Queued {
      forall mid: Id ensures mid !in MessagesOf(t, rid) { assert !Owns(t.messages, mid, rid); }
      assert MessagesOf(t, rid) == {};
    } else {
      var own: Id :| SoleMessage(t.messages, rid, own) && Mirrors(r, t.messages[own]);
      forall mid: Id | mid in MessagesOf(t, rid) ensures mid == own { assert Owns(t.messages, mid, rid); }
      assert MessagesOf(t, rid) == {own};
    }
  }

  /**
   In every committed state of every run a recipient has as many messages as attempts:
   none while queued and one afterwards, whose id and status are the recipient's own.
   The states `sending` and `skipped` are never committed.
   */
  lemma TwoTableAgreement(t0: Tables, steps: seq<Step>)
    requires Initial(t0)
    ensures forall rid :: rid in Run(t0, steps).recipients ==> TellsOneStory(Run(t0, steps), rid)
  {
    RunKeepsInv(t0, steps);
    var t := Run(t0, steps);
    forall rid | rid in t.recipients ensures TellsOneStory(t, rid) {
      AgreementCounted(t, rid);
    }
  }

  /** A recipient whose send Meta refused: its message has no id. */
  predicate RefusedForGood(r: Recipient) {
    r.status == RecipientStatus.Failed && r.waId.None?
  }

  /** What a step may do to a recipient that has left the queue. */
  ghost predicate StaysOut(r: Recipient, t': Tables, rid: Id) {
    && rid in t'.recipients
    && (r.status != RecipientStatus.Queued ==> t'.recipients[rid].status != RecipientStatus.Queued)
    && (RefusedForGood(r) ==> t'.recipients[rid] == r)
  }

  lemma SendNeverResurrects(t: Tables, other: Id, env: SendEnv, rid: Id)
    requires Inv(t) && rid in t.recipients
    ensures StaysOut(t.recipients[rid], CommittedSend(t, other, env), rid)
  {
    SendEffect(t, other, env);
    assert Agrees(t.messages, rid, t.recipients[rid]);
  }

  lemma ReceiveNeverResurrects(t: Tables, u: StatusUpdate, now: Time, rid: Id)
    requires Inv(t) && rid in t.recipients
    ensures StaysOut(t.recipients[rid], ApplyUpdate(t, u, now), rid)
  {
    var mid := Target(t, u.waId);
    if mid.Some? && Owns(t.messages, mid.value, rid) {
      OwnerIsSole(t.messages, rid, t.recipients[rid], mid.value);
    }
  }

  lemma StepNeverResurrects(t: Tables, s: Step, rid: Id)
    requires Inv(t) && rid in t.recipients
    ensures StaysOut(t.recipients[rid], Apply(t, s), rid)
  {
    match s
    case Send(other, env) => SendNeverResurrects(t, other, env, rid);
    case Receive(u, now) => ReceiveNeverResurrects(t, u, now, rid);
    case _ => QuietNeverResurrects(t, s, rid);
  }

  lemma QuietNeverResurrects(t: Tables, s: Step, rid: Id)
    requires Inv(t) && rid in t.recipients && !s.Send? && !s.Receive?
    ensures StaysOut(t.recipients[rid], Apply(t, s), rid)
  {
    QuietStepKeepsRecipients(t, s);
  }

  /** No run returns a recipient to the queue, and one refused by Meta is never touched again. */
  lemma {:induction false} NoResurrection(t: Tables, steps: seq<Step>, rid: Id)
    requires Inv(t) && rid in t.recipients && t.recipients[rid].status != RecipientStatus.Queued
    ensures rid in Run(t, steps).recipients
    ensures Run(t, steps).recipients[rid].status != RecipientStatus.Queued
    ensures RefusedForGood(t.recipients[rid]) ==> Run(t, steps).recipients[rid] == t.recipients[rid]
    decreases |steps|
  {
    if steps != [] {
      StepKeepsInv(t, steps[0]);
      StepNeverResurrects(t, steps[0], rid);
      NoResurrection(Apply(t, steps[0]), steps[1..], rid);
    }
  }

  /** However often and whenever a send task is delivered again, only its first commit counts. */
  lemma SendAtMostOnce(t: Tables, first: SendEnv, steps: seq<Step>, rid: Id, again: SendEnv)
    requires Inv(t) && rid in t.recipients && CommittedSend(t, rid, first) != t
    ensures var later := Run(CommittedSend(t, rid, first), steps); CommittedSend(later, rid, again) == later
  {
    var t' := CommittedSend(t, rid, first);
    assert t' == Apply(t, Send(rid, first));
    StepKeepsInv(t, Send(rid, first));
    CommittedSendLeavesQueue(t, rid, first);
    NoResurrection(t', steps, rid);
    RunKeepsInv(t', steps);
    OutOfQueueIgnoresTask(Run(t', steps), rid, again);
  }

  lemma CommittedSendLeavesQueue(t: Tables, rid: Id, env: SendEnv)
    requires rid in t.recipients && CommittedSend(t, rid, env) != t
    ensures var t' := CommittedSend(t, rid, env);
            rid in t'.recipients && t'.recipients[rid].status != RecipientStatus.Queued
  {
  }

  lemma OutOfQueueIgnoresTask(t: Tables, rid: Id, env: SendEnv)
    requires Inv(t) && rid in t.recipients && t.recipients[rid].status != RecipientStatus.Queued
    ensures CommittedSend(t, rid, env) == t
  {
    assert Agrees(t.messages, rid, t.recipients[rid]);
  }
}

/**
 Recipient conservation, usage conservation and the quota bound.
 */
module Conservation {
  import opened Wrappers
  import opened Rows
  import opened StatusFold
  import opened Delivery
  import opened Agreement

  // ------------------------------------------------------------ recipients of a campaign

  ghost function RecipientsOf(recipients: map<Id, Recipient>, cid: Id): set<Id> {
    set rid | rid in recipients && recipients[rid].campaignId == cid
  }

  ghost function QueuedOf(recipients: map<Id, Recipient>, cid: Id): set<Id> {
    set rid | rid in recipients && recipients[rid].campaignId == cid && recipients[rid].status == RecipientStatus.Queued
  }

  /** Ever accepted by Meta. */
  ghost function AcceptedOf(recipients: map<Id, Recipient>, cid: Id): set<Id> {
    set rid | rid in recipients && recipients[rid].campaignId == cid && recipients[rid].waId.Some?
  }

  ghost function RefusedOf(recipients: map<Id, Recipient>, cid: Id): set<Id> {
    set rid | rid in recipients && recipients[rid].campaignId == cid && RefusedForGood(recipients[rid])
  }

  /** The campaign's own counters say how many recipients it has and how many were accepted. */
  ghost predicate Counted(t: Tables, cid: Id)
    requires cid in t.campaigns
  {
    && t.campaigns[cid].total == |RecipientsOf(t.recipients, cid)|
    && t.campaigns[cid].sent == |AcceptedOf(t.recipients, cid)|
  }

  ghost predicate AllCounted(t: Tables) {
    forall cid :: cid in t.campaigns ==> Counted(t, cid)
  }

  /** Rewriting a recipient in place moves it at most from unaccepted to accepted. */
  lemma RecipientRewritten(recipients: map<Id, Recipient>, rid: Id, r: Recipient, cid: Id)
    requires rid in recipients && r.campaignId == recipients[rid].campaignId
    requires recipients[rid].waId.Some? ==> r.waId.Some?
    ensures |RecipientsOf(recipients[rid := r], cid)| == |RecipientsOf(recipients, cid)|
    ensures |AcceptedOf(recipients[rid := r], cid)| == |AcceptedOf(recipients, cid)|
              + One(r.campaignId == cid && r.waId.Some? && recipients[rid].waId.None?)
  {
    assert RecipientsOf(recipients[rid := r], cid) == RecipientsOf(recipients, cid);
    if r.campaignId == cid && r.waId.Some? && recipients[rid].waId.None? {
      assert AcceptedOf(recipients[rid := r], cid) == AcceptedOf(recipients, cid) + {rid};
    } else {
      assert AcceptedOf(recipients[rid := r], cid) == AcceptedOf(recipients, cid);
    }
  }

  lemma SendKeepsCounts(t: Tables, rid: Id, env: SendEnv)
    requires Inv(t) && AllCounted(t)
    ensures AllCounted(CommittedSend(t, rid, env))
  {
    SendEffect(t, rid, env);
    var t' := CommittedSend(t, rid, env);
    if t' != t { SentOnceKeepsCounts(t, t', rid, env.reply.Accepted?); }
  }

  lemma SentOnceKeepsCounts(t: Tables, t': Tables, rid: Id, accepted: bool)
    requires Inv(t) && AllCounted(t) && SentOnce(t, t', rid, accepted)
    ensures AllCounted(t')
  {
    assert Agrees(t.messages, rid, t.recipients[rid]);
    forall cid | cid in t'.campaigns ensures Counted(t', cid) {
      assert Counted(t, cid);
      RecipientRewritten(t.recipients, rid, t'.recipients[rid], cid);
    }
  }

  lemma ReceiveKeepsCounts(t: Tables, u: StatusUpdate, now: Time)
    requires AllCounted(t)
    ensures AllCounted(ApplyUpdate(t, u, now))
  {
    var t' := ApplyUpdate(t, u, now);
    forall cid | cid in t'.campaigns ensures Counted(t', cid) {
      assert Counted(t, cid);
      if t'.recipients != t.recipients {
        var rid := t.messages[Target(t, u.waId).value].recipient.value;
        RecipientRewritten(t.recipients, rid, t'.recipients[rid], cid);
      }
    }
  }

  lemma RecipientsAdded(recipients: map<Id, Recipient>, first: Id, cid: Id, addressees: seq<Addressee>, other: Id)
    requires forall id :: id in recipients ==> id < first
    ensures var more := recipients + NewRecipients(first, cid, addressees);
            && |RecipientsOf(more, other)| ==
                |RecipientsOf(recipients, other)| + (if other == cid then |addressees| else 0)
            && AcceptedOf(more, other) == AcceptedOf(recipients, other)
  {
    var more := recipients + NewRecipients(first, cid, addressees);
    if other == cid {
      var ids := NewIds(first, |addressees|);
      assert RecipientsOf(more, other) == RecipientsOf(recipients, other) + ids;
      assert RecipientsOf(recipients, other) !! ids;
    } else {
      assert RecipientsOf(more, other) == RecipientsOf(recipients, other);
    }
  }

  lemma UploadKeepsCounts(t: Tables, cid: Id, addressees: seq<Addressee>)
    requires Inv(t) && AllCounted(t)
    ensures AllCounted(Upload(t, cid, addressees))
  {
    var t' := Upload(t, cid, addressees);
    if t' != t {
      forall id | id in t'.campaigns ensures Counted(t', id) {
        assert Counted(t, id);
        RecipientsAdded(t.recipients, t.nextId, cid, addressees, id);
      }
    }
  }

  lemma CreateKeepsCounts(t: Tables, s: Step)
    requires Inv(t) && AllCounted(t) && s.Create?
    ensures AllCounted(Apply(t, s))
  {
    var t' := Apply(t, s);
    forall id | id in t'.campaigns ensures Counted(t', id) {
      if id in t.campaigns {
        assert Counted(t, id);
      } else {
        assert RecipientsOf(t.recipients, id) == {} && AcceptedOf(t.recipients, id) == {};
      }
    }
  }

  /** The administrative steps after creation leave the counters of a campaign alone. */
  lemma AdministrativeKeepsCounts(t: Tables, s: Step)
    requires Administrative(s) && !s.Create?
    ensures SameCounters(t, Apply(t, s))
  {
    match s
    case Start(cid) => StartKeepsCounters(t, cid);
    case Pause(cid) => PauseKeepsCounters(t, cid);
    case Cancel(cid, now) => CancelKeepsCounters(t, cid, now);
    case _ => OthersKeepCampaigns(t, s);
  }

  ghost predicate SameCounters(t: Tables, t': Tables) {
    && t'.campaigns.Keys == t.campaigns.Keys
    && forall cid :: cid in t.campaigns ==>
         var c, c' := t.campaigns[cid], t'.campaigns[cid];
         && c'.total == c.total && c'.sent == c.sent
         && c'.delivered == c.delivered && c'.read == c.read && c'.failed == c.failed
  }

  lemma StartKeepsCounters(t: Tables, cid: Id)
    ensures SameCounters(t, StartCampaign(t, cid))
  {
  }

  lemma PauseKeepsCounters(t: Tables, cid: Id)
    ensures SameCounters(t, PauseCampaign(t, cid))
  {
  }

  lemma CancelKeepsCounters(t: Tables, cid: Id, now: Time)
    ensures SameCounters(t, CancelCampaign(t, cid, now))
  {
  }

  lemma StepKeepsCounts(t: Tables, s: Step)
    requires Inv(t) && AllCounted(t)
    ensures AllCounted(Apply(t, s))
  {
    match s
    case Send(rid, env) => SendKeepsCounts(t, rid, env);
    case AddRecipients(cid, addressees) => UploadKeepsCounts(t, cid, addressees);
    case Receive(u, now) => ReceiveKeepsCounts(t, u, now);
    case Create(_, _, _, _) => CreateKeepsCounts(t, s);
    case _ => QuietStepKeepsCounts(t, s);
  }

  lemma QuietStepKeepsCounts(t: Tables, s: Step)
    requires Inv(t) && AllCounted(t)
    requires !s.Send? && !s.AddRecipients? && !s.Receive? && !s.Create?
    ensures AllCounted(Apply(t, s))
  {
    QuietStepKeepsRecipients(t, s);
    if s.Direct? || s.Inbound? { OthersKeepCampaigns(t, s); } else { AdministrativeKeepsCounts(t, s); }
    forall cid | cid in t.campaigns ensures Counted(Apply(t, s), cid) { assert Counted(t, cid); }
  }

  lemma {:induction false} RunKeepsCounts(t: Tables, steps: seq<Step>)
    requires Inv(t) && AllCounted(t)
    ensures AllCounted(Run(t, steps))
    decreases |steps|
  {
    if steps != [] {
      StepKeepsInv(t, steps[0]);
      StepKeepsCounts(t, steps[0]);
      RunKeepsCounts(Apply(t, steps[0]), steps[1..]);
    }
  }

  ghost predicate Partitioned(t: Tables, cid: Id) {
    |RecipientsOf(t.recipients, cid)|
    == |QueuedOf(t.recipients, cid)| + |AcceptedOf(t.recipients, cid)| + |RefusedOf(t.recipients, cid)|
  }

  lemma RecipientsPartition(t: Tables, cid: Id)
    requires AllAgree(t)
    ensures Partitioned(t, cid)
  {
    var q, a, f := QueuedOf(t.recipients, cid), AcceptedOf(t.recipients, cid), RefusedOf(t.recipients, cid);
    forall rid: Id
      ensures rid in RecipientsOf(t.recipients, cid) <==> rid in q || rid in a || rid in f
      ensures !(rid in q && rid in a) && !(rid in q && rid in f) && !(rid in a && rid in f)
    {
      PartitionMember(t, cid, rid);
    }
    assert RecipientsOf(t.recipients, cid) == q + a + f;
    assert q !! a && (q + a) !! f;
  }

  lemma PartitionMember(t: Tables, cid: Id, rid: Id)
    requires AllAgree(t)
    ensures var q, a, f := QueuedOf(t.recipients, cid), AcceptedOf(t.recipients, cid), RefusedOf(t.recipients, cid);
            && (rid in RecipientsOf(t.recipients, cid) <==> rid in q || rid in a || rid in f)
            && !(rid in q && rid in a) && !(rid in q && rid in f) && !(rid in a && rid in f)
  {
    if rid in t.recipients { assert Agrees(t.messages, rid, t.recipients[rid]); }
  }

  /**
   In every committed state of every run, a campaign's total is the number of its
   recipients, split into the queued, the ever accepted and those refused for good,
   and its sent count is the accepted part.
   */
  lemma RecipientConservation(t0: Tables, steps: seq<Step>)
    requires Initial(t0)
    ensures var t := Run(t0, steps);
            forall cid :: cid in t.campaigns ==>
              Counted(t, cid) && Partitioned(t, cid) && t.campaigns[cid].sent <= t.campaigns[cid].total
  {
    var t := Run(t0, steps);
    RunKeepsInv(t0, steps);
    RunKeepsCounts(t0, steps);
    forall cid | cid in t.campaigns
      ensures Counted(t, cid) && Partitioned(t, cid) && t.campaigns[cid].sent <= t.campaigns[cid].total
    {
      assert Counted(t, cid);
      RecipientsPartition(t, cid);
    }
  }

  // ------------------------------------------------------------ usage of a tenant

  /** The committed outbound messages of a tenant that Meta accepted. */
  ghost function BilledMessages(messages: map<Id, Message>, tenantId: Id): set<Id> {
    set mid | mid in messages && messages[mid].tenantId == tenantId
              && messages[mid].outbound && messages[mid].waId.Some?
  }

  /** Those of them sent for campaigns. */
  ghost function BilledCampaignMessages(messages: map<Id, Message>, tenantId: Id): set<Id> {
    set mid | mid in BilledMessages(messages, tenantId) && messages[mid].recipient.Some?
  }

  lemma MessageAdded(messages: map<Id, Message>, mid: Id, m: Message, tenantId: Id)
    requires mid !in messages
    ensures |BilledMessages(messages[mid := m], tenantId)| ==
            |BilledMessages(messages, tenantId)| + One(m.tenantId == tenantId && m.outbound && m.waId.Some?)
    ensures |BilledCampaignMessages(messages[mid := m], tenantId)| ==
            |BilledCampaignMessages(messages, tenantId)|
            + One(m.tenantId == tenantId && m.outbound && m.waId.Some? && m.recipient.Some?)
  {
    var more := messages[mid := m];
    if m.tenantId == tenantId && m.outbound && m.waId.Some? {
      assert BilledMessages(more, tenantId) == BilledMessages(messages, tenantId) + {mid};
    } else {
      assert BilledMessages(more, tenantId) == BilledMessages(messages, tenantId);
    }
    if m.tenantId == tenantId && m.outbound && m.waId.Some? && m.recipient.Some? {
      assert BilledCampaignMessages(more, tenantId) == BilledCampaignMessages(messages, tenantId) + {mid};
    } else {
      assert BilledCampaignMessages(more, tenantId) == BilledCampaignMessages(messages, tenantId);
    }
  }

  lemma MessageUpdated(messages: map<Id, Message>, mid: Id, e: Effect, tenantId: Id)
    requires mid in messages
    ensures BilledMessages(messages[mid := UpdateMessage(messages[mid], e)], tenantId) ==
        BilledMessages(messages, tenantId)
    ensures BilledCampaignMessages(messages[mid := UpdateMessage(messages[mid], e)], tenantId)
         == BilledCampaignMessages(messages, tenantId)
  {
  }

  predicate SetsLimit(s: Step, x: Id) {
    s.Patch? && s.patch.monthlyLimit.Some? && s.tenantId == x
  }

  /** How the usage of a tenant moved, next to the messages behind it. */
  ghost predicate UsageMoved(t: Tables, t': Tables, x: Id, campaign: int, direct: int) {
    && x in t.tenants && x in t'.tenants
    && t'.tenants[x].sentThisMonth == t.tenants[x].sentThisMonth + campaign + direct
    && |BilledMessages(t'.messages, x)| == |BilledMessages(t.messages, x)| + campaign + direct
    && |BilledCampaignMessages(t'.messages, x)| == |BilledCampaignMessages(t.messages, x)| + campaign
  }

  lemma SendUsage(t: Tables, rid: Id, env: SendEnv, x: Id) returns (moved: int)
    requires Structured(t) && x in t.tenants
    ensures UsageMoved(t, CommittedSend(t, rid, env), x, moved, 0) && moved >= 0
    ensures CommittedSend(t, rid, env).tenants[x].monthlyLimit == t.tenants[x].monthlyLimit
  {
    SendEffect(t, rid, env);
    var t' := CommittedSend(t, rid, env);
    moved := 0;
    if t' != t { moved := SentOnceUsage(t, t', rid, env.reply.Accepted?, x); }
  }

  lemma SentOnceUsage(t: Tables, t': Tables, rid: Id, accepted: bool, x: Id) returns (moved: int)
    requires Structured(t) && x in t.tenants && SentOnce(t, t', rid, accepted)
    ensures UsageMoved(t, t', x, moved, 0) && moved >= 0
    ensures t'.tenants[x].monthlyLimit == t.tenants[x].monthlyLimit
  {
    moved := t'.tenants[x].sentThisMonth - t.tenants[x].sentThisMonth;
    MessageAdded(t.messages, t.nextId, t'.messages[t.nextId], x);
  }

  lemma DirectUsage(t: Tables, request: DirectRequest, env: DirectEnv, x: Id) returns (moved: int)
    requires Structured(t) && x in t.tenants
    ensures UsageMoved(t, CommittedDirect(t, request, env), x, 0, moved)
    ensures moved == 0 || (moved == 1 && t.tenants[x].sentThisMonth < t.tenants[x].monthlyLimit)
    ensures CommittedDirect(t, request, env).tenants[x].monthlyLimit == t.tenants[x].monthlyLimit
  {
    var t' := CommittedDirect(t, request, env);
    moved := t'.tenants[x].sentThisMonth - t.tenants[x].sentThisMonth;
    if t' != t {
      MessageAdded(t.messages, t.nextId, t'.messages[t.nextId], x);
    }
  }

  lemma InboundUsage(t: Tables, tenant: Option<Id>, display: string, m: InboundMessage, x: Id)
    requires Structured(t) && x in t.tenants
    ensures UsageMoved(t, SaveInbound(t, tenant, display, m), x, 0, 0)
  {
    var t' := SaveInbound(t, tenant, display, m);
    if t' != t {
      MessageAdded(t.messages, t.nextId, t'.messages[t.nextId], x);
    }
  }

  lemma ReceiveUsage(t: Tables, u: StatusUpdate, now: Time, x: Id)
    requires x in t.tenants
    ensures UsageMoved(t, ApplyUpdate(t, u, now), x, 0, 0)
  {
    var t' := ApplyUpdate(t, u, now);
    if t' != t {
      MessageUpdated(t.messages, Target(t, u.waId).value, Parse(u, now).value, x);
    }
  }

  /** What one step does to a tenant's usage and to the messages behind it. */
  lemma StepUsage(t: Tables, s: Step, x: Id) returns (campaign: int, direct: int)
    requires Structured(t) && x in t.tenants
    ensures UsageMoved(t, Apply(t, s), x, campaign, direct)
    ensures campaign >= 0 && (!s.Send? ==> campaign == 0)
    ensures direct == 0 || (direct == 1 && t.tenants[x].sentThisMonth < t.tenants[x].monthlyLimit)
    ensures !SetsLimit(s, x) ==> Apply(t, s).tenants[x].monthlyLimit == t.tenants[x].monthlyLimit
  {
    campaign, direct := 0, 0;
    match s
    case Send(rid, env) => campaign := SendUsage(t, rid, env, x);
    case Direct(request, env) => direct := DirectUsage(t, request, env, x);
    case Inbound(tenant, display, m) => InboundUsage(t, tenant, display, m, x);
    case Receive(u, now) => ReceiveUsage(t, u, now, x);
    case AddRecipients(_, _) =>
    case _ => AdministrativeFrame(t, s); AdministrativeUsage(t, s, x);
  }

  lemma AdministrativeUsage(t: Tables, s: Step, x: Id)
    requires Structured(t) && Administrative(s) && x in t.tenants
    ensures x in Apply(t, s).tenants && Apply(t, s).tenants[x].sentThisMonth == t.tenants[x].sentThisMonth
    ensures !SetsLimit(s, x) ==> Apply(t, s).tenants[x].monthlyLimit == t.tenants[x].monthlyLimit
  {
    match s
    case Enroll(_) =>
    case Patch(_, _) =>
    case Delete(_, _) =>
    case _ => OthersKeepTenants(t, s);
  }

  /**
   A tenant's monthly usage grows by exactly the number of its committed outbound
   messages that carry an id, whichever way they were sent.
   */
  lemma {:induction false} UsageConservation(t: Tables, steps: seq<Step>, x: Id)
    requires Structured(t) && x in t.tenants
    ensures x in Run(t, steps).tenants
    ensures Run(t, steps).tenants[x].sentThisMonth - t.tenants[x].sentThisMonth
         == |BilledMessages(Run(t, steps).messages, x)| - |BilledMessages(t.messages, x)|
    decreases |steps|
  {
    if steps != [] {
      var campaign, direct := StepUsage(t, steps[0], x);
      StepKeepsStructure(t, steps[0]);
      UsageConservation(Apply(t, steps[0]), steps[1..], x);
    }
  }

  function Max(a: int, b: int): int { if a < b then b else a }

  /** A ceiling above the limit is passed only by the campaign messages sent on the way. */
  lemma {:induction false} QuotaCeiling(t: Tables, steps: seq<Step>, x: Id, ceiling: int, passed: nat)
    requires Structured(t) && x in t.tenants
    requires forall i :: 0 <= i < |steps| ==> !SetsLimit(steps[i], x)
    requires t.tenants[x].monthlyLimit <= ceiling && t.tenants[x].sentThisMonth <= ceiling + passed
    ensures var t' := Run(t, steps);
            && x in t'.tenants
            && |BilledCampaignMessages(t'.messages, x)| >= |BilledCampaignMessages(t.messages, x)|
            && t'.tenants[x].sentThisMonth <=
               ceiling + passed + |BilledCampaignMessages(t'.messages, x)| - |BilledCampaignMessages(t.messages, x)|
    ensures (forall i :: 0 <= i < |steps| ==> !steps[i].Send?) ==>
              |BilledCampaignMessages(Run(t, steps).messages, x)| == |BilledCampaignMessages(t.messages, x)|
    decreases |steps|
  {
    if steps != [] {
      var campaign, direct := StepUsage(t, steps[0], x);
      StepKeepsStructure(t, steps[0]);
      assert forall i :: 0 <= i < |steps[1..]| ==> steps[1..][i] == steps[i + 1];
      QuotaCeiling(Apply(t, steps[0]), steps[1..], x, ceiling, passed + campaign);
    }
  }

  /**
   With a fixed limit, usage passes the limit, or where it started if that was already past it, by no more than
   the number of campaign messages the run sends: direct sends respect the quota and campaign sends never look at it.
   */
  lemma QuotaBound(t: Tables, steps: seq<Step>, x: Id)
    requires Structured(t) && x in t.tenants
    requires forall i :: 0 <= i < |steps| ==> !SetsLimit(steps[i], x)
    ensures var tenant, t' := t.tenants[x], Run(t, steps);
            x in t'.tenants
            && t'.tenants[x].sentThisMonth <=
               Max(tenant.monthlyLimit, tenant.sentThisMonth)
               + |BilledCampaignMessages(t'.messages, x)| - |BilledCampaignMessages(t.messages, x)|
  {
    QuotaCeiling(t, steps, x, Max(t.tenants[x].monthlyLimit, t.tenants[x].sentThisMonth), 0);
  }

  /** From any state, a run without campaign sends leaves usage within the limit, or where it was if past it. */
  lemma QuotaHardWithoutCampaigns(t: Tables, steps: seq<Step>, x: Id)
    requires Structured(t) && x in t.tenants
    requires forall i :: 0 <= i < |steps| ==> !steps[i].Send? && !SetsLimit(steps[i], x)
    ensures x in Run(t, steps).tenants
    ensures Run(t, steps).tenants[x].sentThisMonth <= Max(t.tenants[x].monthlyLimit, t.tenants[x].sentThisMonth)
  {
    QuotaCeiling(t, steps, x, Max(t.tenants[x].monthlyLimit, t.tenants[x].sentThisMonth), 0);
  }
}

/**
 What each transaction commits, as a function from one committed state to the next.

 Transactions are serial and atomic. A transaction that raises, or whose worker is
 lost before commit, is rolled back and so leaves the tables as they were. The
 methods of the service modules carry the transactions out statement by statement
 inside a session and are proved to commit exactly what is defined here.
 */
module Delivery {
  import opened Wrappers
  import opened Rows
  import opened StatusFold
  import BodyParameters
  import TemplateMerge

  datatype Error =
    | TenantNotFound
    | CampaignNotFound
    | TemplateNotFound
    | QuotaExceeded
    | LimiterDenied
    | InvalidInput
    | Conflict
    | ConstraintViolated
    | MetaInvalidRequest(message: string)
    | MetaAuth
    | MetaRateLimit
    | MetaServer
    | Transport
    | UnusableReply
    | WorkerLost

  /** How Meta answers a send, after the HTTP client's own retries. */
  datatype Reply = Accepted(waId: string) | Refused(error: Error)

  // ------------------------------------------------------------ campaign sends

  datatype SendEnv = SendEnv(limiterGrants: bool, reply: Reply, now: Time)

  datatype SendResult = Missing | MissingCampaign | NotQueued(status: RecipientStatus) | FailedForGood | SentOk

  datatype Outcome<T> = Returned(result: T) | Raised(error: Error)

  predicate LiveTenant(tenants: map<Id, Tenant>, tenantId: Id) {
    tenantId in tenants && tenants[tenantId].deletedAt.None?
  }

  /** How the task for one recipient ends. */
  function SendOutcome(t: Tables, rid: Id, env: SendEnv): Outcome<SendResult> {
    if rid !in t.recipients then Returned(Missing)
    else
      var r := t.recipients[rid];
      if r.campaignId !in t.campaigns then Returned(MissingCampaign)
      else if r.status != RecipientStatus.Queued && r.status != RecipientStatus.Sending then
        Returned(NotQueued(r.status))
      else if !LiveTenant(t.tenants, t.campaigns[r.campaignId].tenantId) then Raised(TenantNotFound)
      else if !env.limiterGrants then Raised(LimiterDenied)
      else if BodyParameters.Render(r.variables).None? then Raised(InvalidInput)
      else match env.reply
           case Accepted(_) => Returned(SentOk)
           case Refused(e) => if e.MetaInvalidRequest? then Returned(FailedForGood) else Raised(e)
  }

  /** The message row a send creates. */
  function CampaignMessage(t: Tables, rid: Id, env: SendEnv): Message
    requires rid in t.recipients && t.recipients[rid].campaignId in t.campaigns
    requires t.campaigns[t.recipients[rid].campaignId].tenantId in t.tenants
    requires BodyParameters.Render(t.recipients[rid].variables).Some?
  {
    var r := t.recipients[rid];
    var c := t.campaigns[r.campaignId];
    var content := Template(c.templateName, c.templateLanguage, BodyParameters.Render(r.variables).value);
    var blank := Message(c.tenantId, true, None, r.phone, t.tenants[c.tenantId].phoneNumberId, content,
                         MessageStatus.Queued, None, None, None, None, None, None, None, Some(rid));
    match env.reply
    case Accepted(waId) => blank.(status := MessageStatus.Sent, waId := Some(waId), sentAt := Some(Clock(env.now)))
    case Refused(e) => blank.(status := MessageStatus.Failed, failedAt := Some(Clock(env.now)),
                              errorMessage := if e.MetaInvalidRequest? then Some(e.message) else None)
  }

  function CommittedSend(t: Tables, rid: Id, env: SendEnv): Tables {
    match SendOutcome(t, rid, env)
    case Raised(_) => t
    case Returned(result) =>
      match result
      case SentOk =>
        var r := t.recipients[rid];
        var c := t.campaigns[r.campaignId];
        var tenant := t.tenants[c.tenantId];
        t.(nextId := t.nextId + 1,
           tenants := t.tenants[c.tenantId := tenant.(sentThisMonth := tenant.sentThisMonth + 1)],
           campaigns := t.campaigns[r.campaignId := c.(sent := c.sent + 1)],
           recipients := t.recipients[rid := r.(status := RecipientStatus.Sent, waId := Some(env.reply.waId),
                                                attempts := r.attempts + 1, attemptedAt := Some(env.now))],
           messages := t.messages[t.nextId := CampaignMessage(t, rid, env)])
      case FailedForGood =>
        var r := t.recipients[rid];
        var c := t.campaigns[r.campaignId];
        t.(nextId := t.nextId + 1,
           campaigns := t.campaigns[r.campaignId := c.(failed := c.failed + 1)],
           recipients := t.recipients[rid :=
               r.(status := RecipientStatus.Failed, error := Some(env.reply.error.message),
                                                attempts := r.attempts + 1, attemptedAt := Some(env.now),
                                                completedAt := Some(env.now))],
           messages := t.messages[t.nextId := CampaignMessage(t, rid, env)])
      case _ => t
  }

  // ------------------------------------------------------------ direct sends

  datatype DirectRequest = DirectRequest(tenantId: Id, to: string, content: Content)

  datatype DirectEnv = DirectEnv(limiterGrants: bool, validUrls: bool, reply: Reply, now: Time)

  /** How a text or template send requested over the API ends; success carries Meta's id. */
  function DirectOutcome(t: Tables, request: DirectRequest, env: DirectEnv): Outcome<string> {
    if !LiveTenant(t.tenants, request.tenantId) then Raised(TenantNotFound)
    else if t.tenants[request.tenantId].sentThisMonth >= t.tenants[request.tenantId].monthlyLimit then
      Raised(QuotaExceeded)
    else if !env.limiterGrants then Raised(LimiterDenied)
    else if request.content.Template? && !env.validUrls then Raised(InvalidInput)
    else match env.reply
         case Accepted(waId) => Returned(waId)
         case Refused(e) => Raised(e)
  }

  function CommittedDirect(t: Tables, request: DirectRequest, env: DirectEnv): Tables {
    match DirectOutcome(t, request, env)
    case Raised(_) => t
    case Returned(waId) =>
      var tenant := t.tenants[request.tenantId];
      t.(nextId := t.nextId + 1,
         tenants := t.tenants[request.tenantId := tenant.(sentThisMonth := tenant.sentThisMonth + 1)],
         messages := t.messages[t.nextId :=
           Message(request.tenantId, true, Some(waId), request.to, tenant.phoneNumberId, request.content,
                   MessageStatus.Sent, Some(Clock(env.now)), None, None, None, None, None, None, None)])
  }

  // ------------------------------------------------------------ status updates

  ghost predicate CarriesId(t: Tables, waId: string, mid: Id) {
    mid in t.messages && t.messages[mid].waId == Some(waId)
  }

  /** Exactly one message carries the id. */
  ghost predicate OnlyMatch(t: Tables, waId: string, mid: Id) {
    CarriesId(t, waId, mid) && forall other :: CarriesId(t, waId, other) ==> other == mid
  }

  /** The query for a single row raises when two rows carry the id: the column has no unique constraint. */
  ghost predicate Ambiguous(t: Tables, waId: string) {
    exists a, b :: CarriesId(t, waId, a) && CarriesId(t, waId, b) && a != b
  }

  ghost function Target(t: Tables, waId: string): (r: Option<Id>)
    ensures r.Some? ==> OnlyMatch(t, waId, r.value)
    ensures r.None? ==> forall mid :: !OnlyMatch(t, waId, mid)
  {
    if mid :| OnlyMatch(t, waId, mid) then Some(mid) else None
  }

  ghost predicate UpdateRaises(t: Tables, u: StatusUpdate) {
    Parse(u, 0).Some? && (Ambiguous(t, u.waId) || (u.timestamp.Malformed? && Target(t, u.waId).Some?))
  }

  /** The recipient status that goes with a message status. */
  function Image(s: MessageStatus): RecipientStatus {
    match s
    case Queued => RecipientStatus.Queued
    case Sent => RecipientStatus.Sent
    case Delivered => RecipientStatus.Delivered
    case Read => RecipientStatus.Read
    case Failed => RecipientStatus.Failed
  }

  function One(b: bool): int { if b then 1 else 0 }

  function Outstanding(c: Campaign): int { c.total - (c.delivered + c.read + c.failed) }

  function Count(c: Campaign, from: RecipientStatus, to: RecipientStatus): Campaign {
    c.(delivered := c.delivered + One(from != to && to == RecipientStatus.Delivered),
       read := c.read + One(from != to && to == RecipientStatus.Read),
       failed := c.failed + One(from != to && to == RecipientStatus.Failed))
  }

  function CompleteIfDone(c: Campaign, now: Time): Campaign {
    if Outstanding(c) <= 0 && c.status == CampaignStatus.Running
    then c.(status := CampaignStatus.Completed, completedAt := Some(now))
    else c
  }

  function Moved(r: Recipient, to: MessageStatus, now: Time): Recipient {
    r.(status := Image(to), completedAt := if to == MessageStatus.Failed then Some(now) else r.completedAt)
  }

  /** The campaigns after one of their recipients moved. */
  function RolledUp(campaigns: map<Id, Campaign>, cid: Id, from: RecipientStatus, to: RecipientStatus, now: Time)
    : map<Id, Campaign>
  {
    if cid !in campaigns then campaigns
    else campaigns[cid := CompleteIfDone(Count(campaigns[cid], from, to), now)]
  }

  /** A message status carried over to its recipient and rolled up into the campaign. */
  function Propagate(t: Tables, rid: Id, to: MessageStatus, now: Time): Tables {
    if rid !in t.recipients then t
    else
      var r := t.recipients[rid];
      t.(recipients := t.recipients[rid := Moved(r, to, now)],
         campaigns := RolledUp(t.campaigns, r.campaignId, r.status, Image(to), now))
  }

  /** The tables after an effect on one message. */
  function UpdateAt(t: Tables, mid: Id, e: Effect, now: Time): Tables
    requires mid in t.messages
  {
    var t' := t.(messages := t.messages[mid := UpdateMessage(t.messages[mid], e)]);
    if t.messages[mid].recipient.None? then t' else Propagate(t', t.messages[mid].recipient.value, e.to, now)
  }

  /** The tables after one status update; an update that is skipped or raises changes nothing. */
  ghost function ApplyUpdate(t: Tables, u: StatusUpdate, now: Time): Tables {
    var e := Parse(u, now);
    var mid := Target(t, u.waId);
    if e.None? || mid.None? || u.timestamp.Malformed? then t else UpdateAt(t, mid.value, e.value, now)
  }

  /** A status update and the reading of the server's clock when it is processed. */
  datatype Arrival = Arrival(update: StatusUpdate, now: Time)

  ghost function ApplyAll(t: Tables, arrivals: seq<Arrival>): Tables
    decreases |arrivals|
  {
    if arrivals == [] then t
    else ApplyAll(ApplyUpdate(t, arrivals[0].update, arrivals[0].now), arrivals[1..])
  }

  // ------------------------------------------------------------ inbound messages and events

  ghost predicate HasPhone(tenants: map<Id, Tenant>, phoneNumberId: string, tenantId: Id) {
    LiveTenant(tenants, tenantId) && tenants[tenantId].phoneNumberId == phoneNumberId
  }

  /** The query for a single tenant raises when two live tenants share a phone number id. */
  ghost predicate AmbiguousPhone(tenants: map<Id, Tenant>, phoneNumberId: string) {
    exists a, b :: HasPhone(tenants, phoneNumberId, a) && HasPhone(tenants, phoneNumberId, b) && a != b
  }

  /** The tenant a change belongs to: by phone number id, else the tenant of the event. */
  ghost function ResolveTenant(tenants: map<Id, Tenant>, phoneNumberId: Option<string>,
                               fallback: Option<Id>): Option<Id> {
    if phoneNumberId.Some? && phoneNumberId.value != "" && exists x :: HasPhone(tenants, phoneNumberId.value, x)
    then var x: Id :| HasPhone(tenants, phoneNumberId.value, x); Some(x)
    else if fallback.Some? && fallback.value in tenants then fallback else None
  }

  function InboundRow(tenantId: Id, phoneNumberId: string, displayPhone: string, m: InboundMessage): Message {
    Message(tenantId, false, m.waId, if displayPhone != "" then displayPhone else phoneNumberId, m.sender,
            Received(m.payload), MessageStatus.Delivered, None, None, None, None, None, None, None, None)
  }

  function AddMessage(t: Tables, m: Message): Tables {
    t.(nextId := t.nextId + 1, messages := t.messages[t.nextId := m])
  }

  function SaveInbound(t: Tables, tenantId: Option<Id>, displayPhone: string, m: InboundMessage): Tables {
    if tenantId.None? || tenantId.value !in t.tenants then t
    else AddMessage(t, InboundRow(tenantId.value, t.tenants[tenantId.value].phoneNumberId, displayPhone, m))
  }

  /** The single actions an event's payload asks for, in the order the nested loops reach them. */
  datatype Action =
    | Resolve(phoneNumberId: Option<string>)
    | Save(phoneNumberId: Option<string>, displayPhone: string, inbound: InboundMessage)
    | Update(update: StatusUpdate)
    | Retemplate(change: TemplateUpdate)

  function SaveActions(phoneNumberId: Option<string>, displayPhone: string, inbound: seq<InboundMessage>): seq<Action> {
    seq(|inbound|, i requires 0 <= i < |inbound| => Save(phoneNumberId, displayPhone, inbound[i]))
  }

  function UpdateActions(statuses: seq<StatusUpdate>): seq<Action> {
    seq(|statuses|, i requires 0 <= i < |statuses| => Update(statuses[i]))
  }

  function ChangeActions(change: Change): seq<Action> {
    match change
    case OtherField => []
    case TemplateChange(u) => [Retemplate(u)]
    case Messages(phone, display, inbound, statuses) =>
      [Resolve(phone)] + SaveActions(phone, display, inbound) + UpdateActions(statuses)
  }

  function EntryActions(changes: seq<Change>): seq<Action> {
    if changes == [] then [] else ChangeActions(changes[0]) + EntryActions(changes[1..])
  }

  function EventActions(entries: seq<seq<Change>>): seq<Action> {
    if entries == [] then [] else EntryActions(entries[0]) + EventActions(entries[1..])
  }

  ghost predicate ActionRaises(t: Tables, a: Action) {
    match a
    case Resolve(phone) => phone.Some? && phone.value != "" && AmbiguousPhone(t.tenants, phone.value)
    case Save(_, _, _) => false
    case Update(u) => UpdateRaises(t, u)
    case Retemplate(_) => false
  }

  /** The actions before the first one that raises. */
  ghost function BeforeRaise(t: Tables, actions: seq<Action>): seq<Action> {
    if actions == [] || ActionRaises(t, actions[0]) then [] else [actions[0]] + BeforeRaise(t, actions[1..])
  }

  /** The status updates among the actions, all processed at one clock reading. */
  function Arrivals(actions: seq<Action>, now: Time): seq<Arrival> {
    if actions == [] then []
    else (if actions[0].Update? then [Arrival(actions[0].update, now)] else []) + Arrivals(actions[1..], now)
  }

  ghost function AfterSave(t: Tables, a: Action, fallback: Option<Id>): Tables {
    if a.Save? then SaveInbound(t, ResolveTenant(t.tenants, a.phoneNumberId, fallback), a.displayPhone, a.inbound)
    else t
  }

  ghost function SaveAll(t: Tables, actions: seq<Action>, fallback: Option<Id>): Tables
    decreases |actions|
  {
    if actions == [] then t else SaveAll(AfterSave(t, actions[0], fallback), actions[1..], fallback)
  }

  /** Python's `or` on texts. */
  function Or(a: string, b: string): string {
    if a != "" then a else b
  }

  function ParseTemplateStatus(word: string): Option<TemplateStatus> {
    match word
    case "pending" => Some(TemplateStatus.Pending)
    case "approved" => Some(TemplateStatus.Approved)
    case "rejected" => Some(TemplateStatus.Rejected)
    case "paused" => Some(TemplateStatus.Paused)
    case "disabled" => Some(TemplateStatus.Disabled)
    case _ => None
  }

  /** The cache after a template status change: only a cached template of the event's tenant takes a status. */
  function Retemplated(templates: TemplateCache, u: TemplateUpdate, tenant: Option<Id>)
    : TemplateCache
  {
    var name, word := Or(u.templateName, u.name), Or(u.event, u.status);
    if tenant.None? || name == "" || word == "" then templates
    else
      var key := TemplateKey(tenant.value, name, Or(Or(u.templateLanguage, u.language), "en_US"));
      if key !in templates || ParseTemplateStatus(word).None? then templates
      else templates[key := templates[key].(status := ParseTemplateStatus(word).value)]
  }

  function RetemplateAll(templates: TemplateCache, actions: seq<Action>, tenant: Option<Id>)
    : TemplateCache
    decreases |actions|
  {
    if actions == [] then templates
    else RetemplateAll(if actions[0].Retemplate? then Retemplated(templates, actions[0].change, tenant) else templates,
                       actions[1..], tenant)
  }

  function CloseEvent(t: Tables, eid: Id, complete: bool, now: Time): Tables {
    if eid !in t.events then t
    else
      var e := t.events[eid];
      t.(events := t.events[eid := if complete then e.(processed := true, processedAt := Some(now), error := false)
                                   else e.(error := true)])
  }

  /**
   Processing a stored event. Inbound rows only reach the database at the final
   flush, so they come after every update of the same event; when an action raises,
   the work done before it is committed all the same and the event stays unprocessed.
   */
  ghost function ProcessEvent(t: Tables, eid: Id, now: Time): Tables {
    if eid !in t.events || t.events[eid].processed then t
    else
      var e := t.events[eid];
      var actions := EventActions(e.entries);
      var done := BeforeRaise(t, actions);
      var t' := SaveAll(ApplyAll(t, Arrivals(done, now)), done, e.tenantId);
      CloseEvent(t'.(templates := RetemplateAll(t.templates, done, e.tenantId)), eid, |done| == |actions|, now)
  }

  function StoreEvent(t: Tables, tenantId: Option<Id>, entries: seq<seq<Change>>): Tables {
    t.(nextId := t.nextId + 1,
       events := t.events[t.nextId := WebhookEvent(tenantId, entries, false, None, false)])
  }

  // ------------------------------------------------------------ campaigns and tenants

  /** A CSV row that passed every check. */
  datatype Addressee = Addressee(phone: string, variables: seq<(string, string)>)

  predicate ApprovedTemplate(t: Tables, tenantId: Id, name: string, language: string) {
    var key := TemplateKey(tenantId, name, language);
    key in t.templates && t.templates[key].status == TemplateStatus.Approved
  }

  function CreateCampaign(t: Tables, tenantId: Id, name: string, language: string, scheduled: bool): Tables {
    if !LiveTenant(t.tenants, tenantId) || !ApprovedTemplate(t, tenantId, name, language) then t
    else t.(nextId := t.nextId + 1,
            campaigns := t.campaigns[t.nextId :=
              Campaign(tenantId, name, language,
                       if scheduled then CampaignStatus.Scheduled else CampaignStatus.Draft,
                       0, 0, 0, 0, 0, None)])
  }

  predicate AcceptsUploads(c: Campaign) {
    c.status == CampaignStatus.Draft || c.status == CampaignStatus.Scheduled
  }

  function QueuedRecipient(cid: Id, d: Addressee): Recipient {
    Recipient(cid, d.phone, d.variables, RecipientStatus.Queued, None, None, None, None, 0)
  }

  /** The n identifiers handed out from `first` on. */
  function NewIds(first: Id, n: nat): (ids: set<Id>)
    ensures |ids| == n && forall id :: id in ids <==> first <= id < first + n
  {
    if n == 0 then {} else NewIds(first, n - 1) + {first + n - 1}
  }

  function NewRecipients(first: Id, cid: Id, addressees: seq<Addressee>): map<Id, Recipient> {
    map id | id in NewIds(first, |addressees|) :: QueuedRecipient(cid, addressees[id - first])
  }

  function Upload(t: Tables, cid: Id, addressees: seq<Addressee>): Tables {
    if cid !in t.campaigns || !AcceptsUploads(t.campaigns[cid]) then t
    else
      var c := t.campaigns[cid];
      t.(nextId := t.nextId + |addressees|,
         recipients := t.recipients + NewRecipients(t.nextId, cid, addressees),
         campaigns := t.campaigns[cid := c.(total := c.total + |addressees|)])
  }

  predicate CanStart(t: Tables, cid: Id) {
    cid in t.campaigns
    && t.campaigns[cid].status in {CampaignStatus.Draft, CampaignStatus.Scheduled, CampaignStatus.Paused}
    && t.campaigns[cid].total != 0
  }

  /**
   ENVIRONMENT STEP, not in the source: `start` checks these guards and then always
   raises in this build, while the workers expect running campaigns.
   */
  function StartCampaign(t: Tables, cid: Id): Tables {
    if !CanStart(t, cid) then t
    else t.(campaigns := t.campaigns[cid := t.campaigns[cid].(status := CampaignStatus.Running)])
  }

  function PauseCampaign(t: Tables, cid: Id): Tables {
    if cid !in t.campaigns || t.campaigns[cid].status != CampaignStatus.Running then t
    else t.(campaigns := t.campaigns[cid := t.campaigns[cid].(status := CampaignStatus.Paused)])
  }

  function CancelCampaign(t: Tables, cid: Id, now: Time): Tables {
    if cid !in t.campaigns || t.campaigns[cid].status in {CampaignStatus.Completed, CampaignStatus.Cancelled} then t
    else t.(campaigns := t.campaigns[cid :=
              t.campaigns[cid].(status := CampaignStatus.Cancelled, completedAt := Some(now))])
  }

  datatype TenantRequest = TenantRequest(
    name: string,
    slug: string,
    wabaId: string,
    phoneNumberId: string,
    accessToken: string,
    plan: TenantPlan,
    monthlyLimit: int)

  /** The unique column also counts deleted tenants, which the check before it does not see. */
  predicate SlugTaken(tenants: map<Id, Tenant>, slug: string) {
    exists id :: id in tenants && tenants[id].slug == slug
  }

  function AddTenant(t: Tables, r: TenantRequest): Tables {
    if SlugTaken(t.tenants, r.slug) then t
    else t.(nextId := t.nextId + 1,
            tenants := t.tenants[t.nextId :=
              Tenant(r.name, r.slug, r.wabaId, r.phoneNumberId, r.accessToken, r.plan, r.monthlyLimit, 0, true, None)])
  }

  /** The fields of a PATCH; absent ones are left alone. */
  datatype TenantPatch = TenantPatch(
    name: Option<string>,
    isActive: Option<bool>,
    plan: Option<TenantPlan>,
    monthlyLimit: Option<int>,
    accessToken: Option<string>)

  function Patched(tenant: Tenant, patch: TenantPatch): Tenant {
    tenant.(name := patch.name.OrElse(Some(tenant.name)).value,
            isActive := patch.isActive.OrElse(Some(tenant.isActive)).value,
            plan := patch.plan.OrElse(Some(tenant.plan)).value,
            monthlyLimit := patch.monthlyLimit.OrElse(Some(tenant.monthlyLimit)).value,
            accessToken := patch.accessToken.OrElse(Some(tenant.accessToken)).value)
  }

  function PatchTenant(t: Tables, tenantId: Id, patch: TenantPatch): Tables {
    if !LiveTenant(t.tenants, tenantId) then t
    else t.(tenants := t.tenants[tenantId := Patched(t.tenants[tenantId], patch)])
  }

  /** A template sync commits the keyed merge of Meta's list, or nothing. */
  ghost function SyncTemplates(t: Tables, sync: TemplateMerge.SyncEnv, raws: seq<TemplateMerge.RawTemplate>): Tables {
    if !LiveTenant(t.tenants, sync.tenant) || !TemplateMerge.Accepts(sync, t.templates, raws) then t
    else t.(templates := TemplateMerge.Merge(sync, t.templates, raws, |raws|))
  }

  function DeleteTenant(t: Tables, tenantId: Id, now: Time): Tables {
    if !LiveTenant(t.tenants, tenantId) then t
    else t.(tenants := t.tenants[tenantId := t.tenants[tenantId].(deletedAt := Some(now), isActive := false)])
  }

  // ------------------------------------------------------------ runs

  /** The atomic steps of a run; an event is a run of Receive, Inbound and Relabel steps closed by a Close step. */
  datatype Step =
    | Enroll(tenantRequest: TenantRequest)
    | Create(tenantId: Id, name: string, language: string, scheduled: bool)
    | AddRecipients(cid: Id, addressees: seq<Addressee>)
    | Start(cid: Id)
    | Pause(cid: Id)
    | Cancel(cid: Id, now: Time)
    | Send(rid: Id, sendEnv: SendEnv)
    | Direct(request: DirectRequest, directEnv: DirectEnv)
    | Receive(update: StatusUpdate, now: Time)
    | Inbound(tenant: Option<Id>, displayPhone: string, inbound: InboundMessage)
    | Store(tenant: Option<Id>, entries: seq<seq<Change>>)
    | Close(eid: Id, complete: bool, now: Time)
    | Relabel(change: TemplateUpdate, owner: Option<Id>)
    | Sync(sync: TemplateMerge.SyncEnv, raws: seq<TemplateMerge.RawTemplate>)
    | Patch(tenantId: Id, patch: TenantPatch)
    | Delete(tenantId: Id, now: Time)

  ghost function Apply(t: Tables, s: Step): Tables {
    match s
    case Enroll(request) => AddTenant(t, request)
    case Create(tenantId, name, language, scheduled) => CreateCampaign(t, tenantId, name, language, scheduled)
    case AddRecipients(cid, addressees) => Upload(t, cid, addressees)
    case Start(cid) => StartCampaign(t, cid)
    case Pause(cid) => PauseCampaign(t, cid)
    case Cancel(cid, now) => CancelCampaign(t, cid, now)
    case Send(rid, env) => CommittedSend(t, rid, env)
    case Direct(request, env) => CommittedDirect(t, request, env)
    case Receive(u, now) => ApplyUpdate(t, u, now)
    case Inbound(tenant, display, m) => SaveInbound(t, tenant, display, m)
    case Store(tenant, entries) => StoreEvent(t, tenant, entries)
    case Close(eid, complete, now) => CloseEvent(t, eid, complete, now)
    case Relabel(u, owner) => t.(templates := Retemplated(t.templates, u, owner))
    case Sync(sync, raws) => SyncTemplates(t, sync, raws)
    case Patch(tenantId, patch) => PatchTenant(t, tenantId, patch)
    case Delete(tenantId, now) => DeleteTenant(t, tenantId, now)
  }

  ghost function Run(t: Tables, steps: seq<Step>): Tables
    decreases |steps|
  {
    if steps == [] then t else Run(Apply(t, steps[0]), steps[1..])
  }
}

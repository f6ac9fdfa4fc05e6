/**
 The rows of the platform's tables, and a snapshot of all of them.

 Row identifiers are natural numbers handed out in increasing order by
 `nextId`, which stands for the fresh uuid4 keys of the source.
 */
module Rows {
  import opened Wrappers

  type Id = nat
  type Time = int

  datatype CampaignStatus = Draft | Scheduled | Running | Paused | Completed | Failed | Cancelled

  datatype RecipientStatus = Queued | Sending | Sent | Delivered | Read | Failed | Skipped

  datatype MessageStatus = Queued | Sent | Delivered | Read | Failed

  datatype TemplateStatus = Pending | Approved | Rejected | Paused | Disabled

  /** A message timestamp: reported by Meta, or read from the server's own clock. */
  datatype Stamp = Reported(at: Time) | Clock(at: Time)

  datatype TenantPlan = Starter | Growth | Pro | Enterprise

  /** A tenant; the access token is the ciphertext. */
  datatype Tenant = Tenant(
    name: string,
    slug: string,
    wabaId: string,
    phoneNumberId: string,
    accessToken: string,
    plan: TenantPlan,
    monthlyLimit: int,
    sentThisMonth: int,
    isActive: bool,
    deletedAt: Option<Time>)

  datatype TemplateCategory = Utility | Marketing | Authentication

  datatype TemplateKey = TemplateKey(tenantId: Id, name: string, language: string)

  /** A cached template, without its unique key. */
  datatype CachedTemplate = CachedTemplate(
    category: TemplateCategory,
    status: TemplateStatus,
    components: seq<string>,
    metaTemplateId: Option<string>,
    lastSyncedAt: Option<Time>)

  type TemplateCache = map<TemplateKey, CachedTemplate>

  datatype Campaign = Campaign(
    tenantId: Id,
    templateName: string,
    templateLanguage: string,
    status: CampaignStatus,
    total: int,
    sent: int,
    delivered: int,
    read: int,
    failed: int,
    completedAt: Option<Time>)

  datatype Recipient = Recipient(
    campaignId: Id,
    phone: string,
    variables: seq<(string, string)>,
    status: RecipientStatus,
    waId: Option<string>,
    error: Option<string>,
    attemptedAt: Option<Time>,
    completedAt: Option<Time>,
    attempts: int)

  datatype Content =
    | Text(body: string)
    | Template(name: string, language: string, parameters: seq<string>)
    | Received(payload: string)

  datatype Message = Message(
    tenantId: Id,
    outbound: bool,
    waId: Option<string>,
    recipientPhone: string,
    senderPhone: string,
    content: Content,
    status: MessageStatus,
    sentAt: Option<Stamp>,
    deliveredAt: Option<Stamp>,
    readAt: Option<Stamp>,
    failedAt: Option<Stamp>,
    errorCode: Option<int>,
    errorMessage: Option<string>,
    pricing: Option<string>,
    recipient: Option<Id>)

  // Webhook payloads, as nested by Meta: entries of changes of updates.

  /** The timestamp field of a status update; a malformed one makes the update raise. */
  datatype Timestamp = Absent | At(at: Time) | Malformed

  datatype ErrorInfo = ErrorInfo(code: Option<int>, title: string, message: Option<string>)

  /** A status update. Empty strings stand for missing fields: the source treats both alike. */
  datatype StatusUpdate = StatusUpdate(
    waId: string,
    status: string,
    timestamp: Timestamp,
    errors: seq<ErrorInfo>,
    pricing: Option<string>)

  datatype InboundMessage = InboundMessage(waId: Option<string>, sender: string, payload: string)

  /**
   A template status change. As in a status update, "" stands for a missing field; the two status words are
   given as upper() and lower() leave them.
   */
  datatype TemplateUpdate = TemplateUpdate(
    templateName: string,
    name: string,
    templateLanguage: string,
    language: string,
    event: string,
    status: string)

  datatype Change =
    | Messages(phoneNumberId: Option<string>, displayPhone: string, inbound: seq<InboundMessage>,
               statuses: seq<StatusUpdate>)
    | TemplateChange(update: TemplateUpdate)
    | OtherField

  datatype WebhookEvent = WebhookEvent(
    tenantId: Option<Id>,
    entries: seq<seq<Change>>,
    processed: bool,
    processedAt: Option<Time>,
    error: bool)

  /** One committed state of the database. */
  datatype Tables = Tables(
    nextId: Id,
    tenants: map<Id, Tenant>,
    templates: TemplateCache,
    campaigns: map<Id, Campaign>,
    recipients: map<Id, Recipient>,
    messages: map<Id, Message>,
    events: map<Id, WebhookEvent>)
}

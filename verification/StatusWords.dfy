/**
 What a status update does to the tables, read off the words and fields of the update itself.
 */
module StatusWords {
  import opened Wrappers
  import opened Rows
  import opened Delivery
  import StatusFold

  /** The reported time if there is one, else the server's clock. */
  ghost predicate At(u: StatusUpdate, now: Time, stamp: Stamp) {
    (u.timestamp.At? && stamp == Reported(u.timestamp.at)) || (u.timestamp.Absent? && stamp == Clock(now))
  }

  /** The column takes a stamp if it is empty, and is left alone otherwise. */
  ghost predicate StampedOnce(before: Option<Stamp>, after: Option<Stamp>, u: StatusUpdate, now: Time) {
    if before.Some? then after == before else after.Some? && At(u, now, after.value)
  }

  /** The message row: its status, the one column that the status stamps, the error of a first failure, the pricing. */
  ghost predicate MessageReported(m: Message, m': Message, u: StatusUpdate, now: Time, to: MessageStatus) {
    && m'.status == to
    && (if to == MessageStatus.Sent then StampedOnce(m.sentAt, m'.sentAt, u, now) else m'.sentAt == m.sentAt)
    && (if to == MessageStatus.Delivered then StampedOnce(m.deliveredAt, m'.deliveredAt, u, now)
        else m'.deliveredAt == m.deliveredAt)
    && (if to == MessageStatus.Read then StampedOnce(m.readAt, m'.readAt, u, now) else m'.readAt == m.readAt)
    && (if to == MessageStatus.Failed then StampedOnce(m.failedAt, m'.failedAt, u, now) else m'.failedAt == m.failedAt)
    && (if to == MessageStatus.Failed && m.failedAt.None? && u.errors != [] then
          && m'.errorCode == u.errors[0].code
          && (if u.errors[0].title != "" then m'.errorMessage == Some(u.errors[0].title)
              else m'.errorMessage == u.errors[0].message)
        else m'.errorCode == m.errorCode && m'.errorMessage == m.errorMessage)
    && (if u.pricing.Some? then m'.pricing == u.pricing else m'.pricing == m.pricing)
    && m'.tenantId == m.tenantId && m'.outbound == m.outbound && m'.waId == m.waId && m'.content == m.content
    && m'.recipientPhone == m.recipientPhone && m'.senderPhone == m.senderPhone && m'.recipient == m.recipient
  }

  /** The recipient row: its status, and the time it was done if it failed. */
  ghost predicate RecipientReported(r: Recipient, r': Recipient, now: Time, to: RecipientStatus) {
    && r'.status == to
    && r'.completedAt == (if to == RecipientStatus.Failed then Some(now) else r.completedAt)
    && r'.campaignId == r.campaignId && r'.phone == r.phone && r'.variables == r.variables && r'.waId == r.waId
    && r'.error == r.error && r'.attemptedAt == r.attemptedAt && r'.attempts == r.attempts
  }

  /** The campaign row: one counter grows if the recipient's status changed, and a running campaign may complete. */
  ghost predicate CampaignReported(c: Campaign, c': Campaign, now: Time, from: RecipientStatus, to: RecipientStatus) {
    && c'.delivered == (if to == RecipientStatus.Delivered && from != to then c.delivered + 1 else c.delivered)
    && c'.read == (if to == RecipientStatus.Read && from != to then c.read + 1 else c.read)
    && c'.failed == (if to == RecipientStatus.Failed && from != to then c.failed + 1 else c.failed)
    && c'.tenantId == c.tenantId && c'.templateName == c.templateName && c'.templateLanguage == c.templateLanguage
    && c'.total == c.total && c'.sent == c.sent
    && (if c.status == CampaignStatus.Running && c'.delivered + c'.read + c'.failed >= c.total then
          c'.status == CampaignStatus.Completed && c'.completedAt == Some(now)
        else c'.status == c.status && c'.completedAt == c.completedAt)
  }

  /** The message's recipient and that recipient's campaign, if they exist, and no others. */
  ghost predicate OwnerReported(t: Tables, t': Tables, owner: Option<Id>, now: Time, status: RecipientStatus) {
    && t'.recipients.Keys == t.recipients.Keys && t'.campaigns.Keys == t.campaigns.Keys
    && if owner.None? || owner.value !in t.recipients then t'.recipients == t.recipients && t'.campaigns == t.campaigns
       else
         var rid := owner.value;
         var r, cid := t.recipients[rid], t.recipients[rid].campaignId;
         && RecipientReported(r, t'.recipients[rid], now, status)
         && (forall id :: id in t.recipients && id != rid ==> t'.recipients[id] == t.recipients[id])
         && (cid in t.campaigns ==> CampaignReported(t.campaigns[cid], t'.campaigns[cid], now, r.status, status))
         && (forall id :: id in t.campaigns && id != cid ==> t'.campaigns[id] == t.campaigns[id])
  }

  /** The message, its recipient and that recipient's campaign; and nothing else. */
  ghost predicate StatusReported(t: Tables, t': Tables, u: StatusUpdate, now: Time, mid: Id,
                                 to: MessageStatus, status: RecipientStatus)
    requires mid in t.messages
  {
    && t'.nextId == t.nextId && t'.tenants == t.tenants && t'.templates == t.templates && t'.events == t.events
    && t'.messages.Keys == t.messages.Keys && MessageReported(t.messages[mid], t'.messages[mid], u, now, to)
    && (forall id :: id in t.messages && id != mid ==> t'.messages[id] == t.messages[id])
    && OwnerReported(t, t', t.messages[mid].recipient, now, status)
  }

  lemma MessageMeans(m: Message, u: StatusUpdate, now: Time, e: StatusFold.Effect)
    requires StatusFold.Parse(u, now) == Some(e) && !u.timestamp.Malformed?
    ensures MessageReported(m, StatusFold.UpdateMessage(m, e), u, now, e.to)
  {
  }

  lemma RecipientMeans(r: Recipient, to: MessageStatus, now: Time)
    requires to != MessageStatus.Queued
    ensures RecipientReported(r, Moved(r, to, now), now, Image(to))
  {
  }

  lemma CampaignMeans(c: Campaign, now: Time, from: RecipientStatus, to: RecipientStatus)
    ensures CampaignReported(c, CompleteIfDone(Count(c, from, to), now), now, from, to)
  {
  }

  lemma PropagateReported(t: Tables, rid: Id, to: MessageStatus, now: Time)
    requires to != MessageStatus.Queued
    ensures OwnerReported(t, Propagate(t, rid, to, now), Some(rid), now, Image(to))
  {
    if rid in t.recipients {
      var r := t.recipients[rid];
      RecipientMeans(r, to, now);
      if r.campaignId in t.campaigns { CampaignMeans(t.campaigns[r.campaignId], now, r.status, Image(to)); }
    }
  }

  lemma UpdateReported(t: Tables, u: StatusUpdate, now: Time, mid: Id, e: StatusFold.Effect)
    requires mid in t.messages && StatusFold.Parse(u, now) == Some(e) && !u.timestamp.Malformed?
    ensures StatusReported(t, UpdateAt(t, mid, e, now), u, now, mid, e.to, Image(e.to))
  {
    var m := t.messages[mid];
    MessageMeans(m, u, now, e);
    if m.recipient.Some? {
      var t1 := t.(messages := t.messages[mid := StatusFold.UpdateMessage(m, e)]);
      PropagateReported(t1, m.recipient.value, e.to, now);
    }
  }

  lemma FoundUpdate(t: Tables, u: StatusUpdate, now: Time, mid: Id)
    requires OnlyMatch(t, u.waId, mid) && !u.timestamp.Malformed?
    ensures var e := StatusFold.Parse(u, now);
            ApplyUpdate(t, u, now) == if e.None? then t else UpdateAt(t, mid, e.value, now)
  {
  }

  /**
   Each of Meta's five words, for the one message with the update's id: "deleted" is a failure, and any other
   word, or an empty id, changes nothing.
   */
  lemma WordsMean(t: Tables, u: StatusUpdate, now: Time, mid: Id)
    requires OnlyMatch(t, u.waId, mid) && !u.timestamp.Malformed?
    ensures var t' := ApplyUpdate(t, u, now);
            if u.waId == "" then t' == t
            else if u.status == "sent" then
              StatusReported(t, t', u, now, mid, MessageStatus.Sent, RecipientStatus.Sent)
            else if u.status == "delivered" then
              StatusReported(t, t', u, now, mid, MessageStatus.Delivered, RecipientStatus.Delivered)
            else if u.status == "read" then
              StatusReported(t, t', u, now, mid, MessageStatus.Read, RecipientStatus.Read)
            else if u.status == "failed" || u.status == "deleted" then
              StatusReported(t, t', u, now, mid, MessageStatus.Failed, RecipientStatus.Failed)
            else t' == t
  {
    FoundUpdate(t, u, now, mid);
    var e := StatusFold.Parse(u, now);
    if e.Some? { UpdateReported(t, u, now, mid, e.value); }
  }

  predicate Word(status: string) {
    status == "sent" || status == "delivered" || status == "read" || status == "failed" || status == "deleted"
  }

  ghost predicate Carried(t: Tables, waId: string) {
    exists mid :: mid in t.messages && t.messages[mid].waId == Some(waId)
  }

  ghost predicate CarriedTwice(t: Tables, waId: string) {
    exists a, b :: a in t.messages && b in t.messages && a != b
                   && t.messages[a].waId == Some(waId) && t.messages[b].waId == Some(waId)
  }

  /**
   An update raises exactly when it has an id and one of the five words, and either two messages have the id or
   one has and the timestamp does not parse. It changes nothing when it raises, or when no message has the id.
   */
  lemma RaisesWhen(t: Tables, u: StatusUpdate, now: Time)
    ensures UpdateRaises(t, u) <==>
              u.waId != "" && Word(u.status)
              && (CarriedTwice(t, u.waId) || (Carried(t, u.waId) && u.timestamp.Malformed?))
    ensures UpdateRaises(t, u) || !Carried(t, u.waId) ==> ApplyUpdate(t, u, now) == t
  {
    CarriedTwiceIsAmbiguous(t, u.waId);
    if Carried(t, u.waId) && !CarriedTwice(t, u.waId) {
      var mid: Id :| mid in t.messages && t.messages[mid].waId == Some(u.waId);
      assert CarriesId(t, u.waId, mid) && OnlyMatch(t, u.waId, mid);
    }
    if CarriedTwice(t, u.waId) {
      assert forall mid :: !OnlyMatch(t, u.waId, mid);
    }
    if !Carried(t, u.waId) {
      assert forall mid :: !CarriesId(t, u.waId, mid);
    }
  }

  lemma CarriedTwiceIsAmbiguous(t: Tables, waId: string)
    ensures CarriedTwice(t, waId) <==> Ambiguous(t, waId)
  {
    if Ambiguous(t, waId) {
      var a: Id, b: Id :| CarriesId(t, waId, a) && CarriesId(t, waId, b) && a != b;
    }
    if CarriedTwice(t, waId) {
      var a: Id, b: Id :| a in t.messages && b in t.messages && a != b
                          && t.messages[a].waId == Some(waId) && t.messages[b].waId == Some(waId);
      assert CarriesId(t, waId, a) && CarriesId(t, waId, b);
    }
  }
}

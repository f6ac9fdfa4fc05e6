/**
 Order independence: only the order of updates to the same message matters.
 */
module Interleaving {
  import opened Wrappers
  import opened Rows
  import opened StatusFold
  import opened Delivery
  import opened Agreement

  /** The updates for one message id, in order. */
  function Stream(arrivals: seq<Arrival>, waId: string): seq<StatusUpdate> {
    if arrivals == [] then []
    else (if arrivals[0].update.waId == waId then [arrivals[0].update] else []) + Stream(arrivals[1..], waId)
  }

  /** No recipient has two messages; true of every reachable state. */
  ghost predicate OneMessageEach(t: Tables) {
    forall a, b :: a in t.messages && b in t.messages && a != b && t.messages[a].recipient.Some?
                   ==> t.messages[a].recipient != t.messages[b].recipient
  }

  lemma AgreementGivesOneMessageEach(t: Tables)
    requires Inv(t)
    ensures OneMessageEach(t)
  {
    forall a, b | a in t.messages && b in t.messages && a != b && t.messages[a].recipient.Some?
      ensures t.messages[a].recipient != t.messages[b].recipient
    {
      var rid := t.messages[a].recipient.value;
      OwnerIsSole(t.messages, rid, t.recipients[rid], a);
      assert !Owns(t.messages, b, rid);
    }
  }

  // ------------------------------------------------------------ equality up to the clock

  predicate SameStamp(a: Option<Stamp>, b: Option<Stamp>) {
    a == b || (a.Some? && b.Some? && a.value.Clock? && b.value.Clock?)
  }

  predicate SameMessage(m: Message, n: Message) {
    && m.tenantId == n.tenantId && m.outbound == n.outbound && m.waId == n.waId
    && m.recipientPhone == n.recipientPhone && m.senderPhone == n.senderPhone && m.content == n.content
    && m.status == n.status && m.recipient == n.recipient
    && m.errorCode == n.errorCode && m.errorMessage == n.errorMessage && m.pricing == n.pricing
    && SameStamp(m.sentAt, n.sentAt) && SameStamp(m.deliveredAt, n.deliveredAt)
    && SameStamp(m.readAt, n.readAt) && SameStamp(m.failedAt, n.failedAt)
  }

  predicate SameRecipient(r: Recipient, s: Recipient) {
    && r.campaignId == s.campaignId && r.phone == s.phone && r.variables == s.variables
    && r.status == s.status && r.waId == s.waId && r.error == s.error
    && r.attemptedAt == s.attemptedAt && r.attempts == s.attempts
    && (r.completedAt.Some? <==> s.completedAt.Some?)
  }

  predicate SameCampaign(c: Campaign, d: Campaign) {
    && c.tenantId == d.tenantId && c.templateName == d.templateName && c.templateLanguage == d.templateLanguage
    && c.status == d.status && c.total == d.total && c.sent == d.sent
    && c.delivered == d.delivered && c.read == d.read && c.failed == d.failed
    && (c.completedAt.Some? <==> d.completedAt.Some?)
  }

  /** Equal tables, except for values read from the server's clock; times reported by Meta count. */
  ghost predicate Same(t: Tables, t': Tables) {
    && t.nextId == t'.nextId && t.tenants == t'.tenants && t.templates == t'.templates && t.events == t'.events
    && t.messages.Keys == t'.messages.Keys
    && t.recipients.Keys == t'.recipients.Keys
    && t.campaigns.Keys == t'.campaigns.Keys
    && (forall id :: id in t.messages ==> SameMessage(t.messages[id], t'.messages[id]))
    && (forall id :: id in t.recipients ==> SameRecipient(t.recipients[id], t'.recipients[id]))
    && (forall id :: id in t.campaigns ==> SameCampaign(t.campaigns[id], t'.campaigns[id]))
  }

  lemma SameTransitive(a: Tables, b: Tables, c: Tables)
    requires Same(a, b) && Same(b, c)
    ensures Same(a, c)
  {
    forall id | id in a.messages ensures SameMessage(a.messages[id], c.messages[id]) {
      assert SameMessage(a.messages[id], b.messages[id]) && SameMessage(b.messages[id], c.messages[id]);
    }
    forall id | id in a.recipients ensures SameRecipient(a.recipients[id], c.recipients[id]) {
      assert SameRecipient(a.recipients[id], b.recipients[id]) && SameRecipient(b.recipients[id], c.recipients[id]);
    }
    forall id | id in a.campaigns ensures SameCampaign(a.campaigns[id], c.campaigns[id]) {
      assert SameCampaign(a.campaigns[id], b.campaigns[id]) && SameCampaign(b.campaigns[id], c.campaigns[id]);
    }
  }

  lemma SameSymmetric(a: Tables, b: Tables)
    requires Same(a, b)
    ensures Same(b, a)
  {
    forall id | id in b.messages ensures SameMessage(b.messages[id], a.messages[id]) {
      assert SameMessage(a.messages[id], b.messages[id]);
    }
    forall id | id in b.recipients ensures SameRecipient(b.recipients[id], a.recipients[id]) {
      assert SameRecipient(a.recipients[id], b.recipients[id]);
    }
    forall id | id in b.campaigns ensures SameCampaign(b.campaigns[id], a.campaigns[id]) {
      assert SameCampaign(a.campaigns[id], b.campaigns[id]);
    }
  }

  /** Which message an update reaches depends only on the ids the messages carry. */
  lemma SameIdsSameTarget(t: Tables, t': Tables, waId: string)
    requires t.messages.Keys == t'.messages.Keys
    requires forall id :: id in t.messages ==> t'.messages[id].waId == t.messages[id].waId
    ensures Target(t, waId) == Target(t', waId)
  {
    assert forall mid :: CarriesId(t, waId, mid) <==> CarriesId(t', waId, mid);
    assert forall mid :: OnlyMatch(t, waId, mid) <==> OnlyMatch(t', waId, mid);
  }

  lemma SameMessageUpdated(m: Message, n: Message, e: Effect, f: Effect)
    requires SameMessage(m, n) && e.(when := f.when) == f && SameStamp(Some(e.when), Some(f.when))
    ensures SameMessage(UpdateMessage(m, e), UpdateMessage(n, f))
  {
  }

  lemma SameCampaignCounted(c: Campaign, d: Campaign, from: RecipientStatus, to: RecipientStatus, now: Time, now': Time)
    requires SameCampaign(c, d)
    ensures SameCampaign(CompleteIfDone(Count(c, from, to), now), CompleteIfDone(Count(d, from, to), now'))
  {
  }

  lemma SameRolledUp(t: Tables, t': Tables, cid: Id, from: RecipientStatus, to: RecipientStatus, now: Time, now': Time)
    requires Same(t, t')
    ensures Same(t.(campaigns := RolledUp(t.campaigns, cid, from, to, now)),
                 t'.(campaigns := RolledUp(t'.campaigns, cid, from, to, now')))
  {
    if cid in t.campaigns {
      SameCampaignCounted(t.campaigns[cid], t'.campaigns[cid], from, to, now, now');
    }
  }

  lemma SamePropagated(t: Tables, t': Tables, rid: Id, to: MessageStatus, now: Time, now': Time)
    requires Same(t, t')
    ensures Same(Propagate(t, rid, to, now), Propagate(t', rid, to, now'))
  {
    if rid in t.recipients {
      var r, s := t.recipients[rid], t'.recipients[rid];
      assert SameRecipient(r, s);
      assert SameRecipient(Moved(r, to, now), Moved(s, to, now'));
      var u := t.(recipients := t.recipients[rid := Moved(r, to, now)]);
      var u' := t'.(recipients := t'.recipients[rid := Moved(s, to, now')]);
      assert Same(u, u') by {
        forall id | id in u.recipients ensures SameRecipient(u.recipients[id], u'.recipients[id]) {
          assert SameRecipient(t.recipients[id], t'.recipients[id]);
        }
      }
      SameRolledUp(u, u', r.campaignId, r.status, Image(to), now, now');
    }
  }

  lemma SameTarget(t: Tables, t': Tables, waId: string)
    requires Same(t, t')
    ensures Target(t, waId) == Target(t', waId)
  {
    forall id | id in t.messages ensures t'.messages[id].waId == t.messages[id].waId {
      assert SameMessage(t.messages[id], t'.messages[id]);
    }
    SameIdsSameTarget(t, t', waId);
  }

  lemma SameUpdatedAt(t: Tables, t': Tables, mid: Id, e: Effect, f: Effect, now: Time, now': Time)
    requires Same(t, t') && mid in t.messages
    requires e.(when := f.when) == f && SameStamp(Some(e.when), Some(f.when))
    ensures Same(UpdateAt(t, mid, e, now), UpdateAt(t', mid, f, now'))
  {
    var m, n := t.messages[mid], t'.messages[mid];
    assert SameMessage(m, n);
    SameMessageUpdated(m, n, e, f);
    var v := t.(messages := t.messages[mid := UpdateMessage(m, e)]);
    var v' := t'.(messages := t'.messages[mid := UpdateMessage(n, f)]);
    assert Same(v, v') by {
      forall id | id in v.messages ensures SameMessage(v.messages[id], v'.messages[id]) {
        assert SameMessage(t.messages[id], t'.messages[id]);
      }
    }
    if m.recipient.Some? {
      SamePropagated(v, v', m.recipient.value, e.to, now, now');
    }
  }

  /** Tables that agree up to the clock still do after the same update, at any two clock readings. */
  lemma SameUpdated(t: Tables, t': Tables, u: StatusUpdate, now: Time, now': Time)
    requires Same(t, t')
    ensures Same(ApplyUpdate(t, u, now), ApplyUpdate(t', u, now'))
  {
    SameTarget(t, t', u.waId);
    var e, f, mid := Parse(u, now), Parse(u, now'), Target(t, u.waId);
    if e.Some? && mid.Some? && !u.timestamp.Malformed? {
      SameUpdatedAt(t, t', mid.value, e.value, f.value, now, now');
    }
  }

  lemma PropagateIgnoresMessages(t: Tables, messages: map<Id, Message>, rid: Id, to: MessageStatus, now: Time)
    ensures Propagate(t.(messages := messages), rid, to, now) == Propagate(t, rid, to, now).(messages := messages)
  {
  }

  // ------------------------------------------------------------ commutation

  /** Two roll-ups into one campaign commute, completion included. */
  lemma CountsCommute(c: Campaign, from: RecipientStatus, to: RecipientStatus,
                      from': RecipientStatus, to': RecipientStatus, now: Time)
    ensures CompleteIfDone(Count(CompleteIfDone(Count(c, from, to), now), from', to'), now)
         == CompleteIfDone(Count(CompleteIfDone(Count(c, from', to'), now), from, to), now)
  {
  }

  lemma RollUpsCommute(campaigns: map<Id, Campaign>, cid: Id, from: RecipientStatus, to: RecipientStatus,
                       cid': Id, from': RecipientStatus, to': RecipientStatus, now: Time)
    ensures RolledUp(RolledUp(campaigns, cid, from, to, now), cid', from', to', now)
         == RolledUp(RolledUp(campaigns, cid', from', to', now), cid, from, to, now)
  {
    if cid == cid' && cid in campaigns {
      CountsCommute(campaigns[cid], from, to, from', to', now);
    }
  }

  lemma PropagationsCommute(t: Tables, rid: Id, to: MessageStatus, rid': Id, to': MessageStatus, now: Time)
    requires rid != rid'
    ensures Propagate(Propagate(t, rid, to, now), rid', to', now) ==
        Propagate(Propagate(t, rid', to', now), rid, to, now)
  {
    if rid in t.recipients && rid' in t.recipients {
      var r, r' := t.recipients[rid], t.recipients[rid'];
      RollUpsCommute(t.campaigns, r.campaignId, r.status, Image(to), r'.campaignId, r'.status, Image(to'), now);
      assert t.recipients[rid := Moved(r, to, now)][rid' := Moved(r', to', now)]
          == t.recipients[rid' := Moved(r', to', now)][rid := Moved(r, to, now)];
    }
  }

  lemma UpdatesCommuteAt(t: Tables, mid: Id, e: Effect, mid': Id, e': Effect, now: Time)
    requires mid in t.messages && mid' in t.messages && mid != mid' && OneMessageEach(t)
    ensures UpdateAt(UpdateAt(t, mid, e, now), mid', e', now) == UpdateAt(UpdateAt(t, mid', e', now), mid, e, now)
  {
    var m, m' := t.messages[mid], t.messages[mid'];
    var both := t.messages[mid := UpdateMessage(m, e)][mid' := UpdateMessage(m', e')];
    assert both == t.messages[mid' := UpdateMessage(m', e')][mid := UpdateMessage(m, e)];
    UpdateThenPropagate(t, mid, e, mid', e', now);
    UpdateThenPropagate(t, mid', e', mid, e, now);
    if m.recipient.Some? && m'.recipient.Some? {
      PropagationsCommute(t, m.recipient.value, e.to, m'.recipient.value, e'.to, now);
    }
  }

  ghost function Onward(t: Tables, m: Message, to: MessageStatus, now: Time): Tables {
    if m.recipient.None? then t else Propagate(t, m.recipient.value, to, now)
  }

  lemma UpdateThenPropagate(t: Tables, mid: Id, e: Effect, mid': Id, e': Effect, now: Time)
    requires mid in t.messages && mid' in t.messages && mid != mid'
    ensures UpdateAt(UpdateAt(t, mid, e, now), mid', e', now)
         == Onward(Onward(t, t.messages[mid], e.to, now), t.messages[mid'], e'.to, now)
              .(messages := t.messages[mid := UpdateMessage(t.messages[mid], e)][mid' :=
                  UpdateMessage(t.messages[mid'], e')])
  {
    var m, m' := t.messages[mid], t.messages[mid'];
    var first := t.messages[mid := UpdateMessage(m, e)];
    var second := first[mid' := UpdateMessage(m', e')];
    UpdateIsOnward(t, mid, e, now);
    var v := UpdateAt(t, mid, e, now);
    UpdateIsOnward(v, mid', e', now);
    OnwardIgnoresMessages(Onward(t, m, e.to, now), first, m', e'.to, now);
  }

  lemma OnwardIgnoresMessages(t: Tables, messages: map<Id, Message>, m: Message, to: MessageStatus, now: Time)
    ensures Onward(t.(messages := messages), m, to, now) == Onward(t, m, to, now).(messages := messages)
  {
  }

  lemma UpdateIsOnward(t: Tables, mid: Id, e: Effect, now: Time)
    requires mid in t.messages
    ensures UpdateAt(t, mid, e, now)
         == Onward(t, t.messages[mid], e.to, now).(messages := t.messages[mid := UpdateMessage(t.messages[mid], e)])
  {
    PropagateIgnoresMessages(t, t.messages[mid := UpdateMessage(t.messages[mid], e)], 0, e.to, now);
  }

  /** The only message table effect of an update is to rewrite its target in place. */
  lemma UpdateFrame(t: Tables, u: StatusUpdate, now: Time)
    ensures ApplyUpdate(t, u, now).messages.Keys == t.messages.Keys
    ensures forall id :: id in t.messages ==>
                           ApplyUpdate(t, u, now).messages[id].waId == t.messages[id].waId
                           && ApplyUpdate(t, u, now).messages[id].recipient == t.messages[id].recipient
    ensures forall id :: id in t.messages && Target(t, u.waId) != Some(id) ==>
                           ApplyUpdate(t, u, now).messages[id] == t.messages[id]
  {
    var e, mid := Parse(u, now), Target(t, u.waId);
    if e.Some? && mid.Some? {
      UpdateIsOnward(t, mid.value, e.value, now);
    }
  }

  lemma UpdateKeepsOneMessageEach(t: Tables, u: StatusUpdate, now: Time)
    requires OneMessageEach(t)
    ensures OneMessageEach(ApplyUpdate(t, u, now))
  {
    UpdateFrame(t, u, now);
  }

  /** Updates of different messages commute. */
  lemma UpdatesCommute(t: Tables, u: StatusUpdate, v: StatusUpdate, now: Time)
    requires OneMessageEach(t) && u.waId != v.waId
    ensures ApplyUpdate(ApplyUpdate(t, u, now), v, now) == ApplyUpdate(ApplyUpdate(t, v, now), u, now)
  {
    UpdateFrame(t, u, now);
    UpdateFrame(t, v, now);
    SameIdsSameTarget(t, ApplyUpdate(t, u, now), v.waId);
    SameIdsSameTarget(t, ApplyUpdate(t, v, now), u.waId);
    var mid, mid' := Target(t, u.waId), Target(t, v.waId);
    var e, e' := Parse(u, now), Parse(v, now);
    if e.Some? && mid.Some? && !u.timestamp.Malformed? && e'.Some? && mid'.Some? && !v.timestamp.Malformed? {
      UpdatesCommuteAt(t, mid.value, e.value, mid'.value, e'.value, now);
    }
  }

  // ------------------------------------------------------------ interleavings

  /** The same updates, all processed at time 0. */
  function AtZero(arrivals: seq<Arrival>): (r: seq<Arrival>)
    ensures |r| == |arrivals|
    ensures forall i :: 0 <= i < |r| ==> r[i] == Arrival(arrivals[i].update, 0)
  {
    if arrivals == [] then [] else [Arrival(arrivals[0].update, 0)] + AtZero(arrivals[1..])
  }

  lemma {:induction false} ClockAside(t: Tables, t': Tables, arrivals: seq<Arrival>)
    requires Same(t, t')
    ensures Same(ApplyAll(t, arrivals), ApplyAll(t', AtZero(arrivals)))
    decreases |arrivals|
  {
    if arrivals != [] {
      var a := arrivals[0];
      SameUpdated(t, t', a.update, a.now, 0);
      assert AtZero(arrivals)[1..] == AtZero(arrivals[1..]);
      ClockAside(ApplyUpdate(t, a.update, a.now), ApplyUpdate(t', a.update, 0), arrivals[1..]);
    }
  }

  lemma {:induction false} ZeroStream(arrivals: seq<Arrival>, waId: string)
    ensures Stream(AtZero(arrivals), waId) == Stream(arrivals, waId)
  {
    if arrivals != [] { ZeroStream(arrivals[1..], waId); }
  }

  /** An update can be moved to the front past updates of other messages. */
  lemma {:induction false} MoveToFront(t: Tables, before: seq<Arrival>, a: Arrival, after: seq<Arrival>)
    requires OneMessageEach(t)
    requires a.now == 0 && forall i :: 0 <= i < |before| ==>
        before[i].now == 0 && before[i].update.waId != a.update.waId
    ensures ApplyAll(t, before + [a] + after) == ApplyAll(t, [a] + before + after)
    decreases |before|
  {
    if before == [] {
      assert before + [a] + after == [a] + before + after;
    } else {
      var b, rest := before[0], before[1..];
      var t' := ApplyUpdate(t, b.update, 0);
      assert (before + [a] + after)[0] == b && (before + [a] + after)[1..] == rest + [a] + after;
      UpdateKeepsOneMessageEach(t, b.update, 0);
      MoveToFront(t', rest, a, after);
      assert ([a] + rest + after)[0] == a && ([a] + rest + after)[1..] == rest + after;
      UpdatesCommute(t, b.update, a.update, 0);
      assert ([a] + before + after)[0] == a && ([a] + before + after)[1..] == before + after;
      assert (before + after)[0] == b && (before + after)[1..] == rest + after;
    }
  }

  lemma {:induction false} StreamConcat(a: seq<Arrival>, b: seq<Arrival>, waId: string)
    ensures Stream(a + b, waId) == Stream(a, waId) + Stream(b, waId)
  {
    if a == [] {
      assert a + b == b;
    } else {
      StreamConcat(a[1..], b, waId);
      assert (a + b)[1..] == a[1..] + b && (a + b)[0] == a[0];
      var head := if a[0].update.waId == waId then [a[0].update] else [];
      assert head + (Stream(a[1..], waId) + Stream(b, waId)) == (head + Stream(a[1..], waId)) + Stream(b, waId);
    }
  }

  /** Where the first update of a message sits. */
  lemma {:induction false} FindFirst(arrivals: seq<Arrival>, waId: string) returns (k: nat)
    requires Stream(arrivals, waId) != []
    ensures k < |arrivals| && arrivals[k].update.waId == waId
    ensures arrivals[k].update == Stream(arrivals, waId)[0]
    ensures forall i :: 0 <= i < k ==> arrivals[i].update.waId != waId
  {
    if arrivals[0].update.waId == waId {
      k := 0;
    } else {
      var j := FindFirst(arrivals[1..], waId);
      k := j + 1;
    }
  }

  lemma {:induction false} FrontStream(front: Arrival, rest: seq<Arrival>, waId: string)
    ensures Stream([front] + rest, waId) ==
        (if front.update.waId == waId then [front.update] else []) + Stream(rest, waId)
  {
    assert ([front] + rest)[1..] == rest;
  }

  lemma {:induction false} MovedStream(before: seq<Arrival>, a: Arrival, after: seq<Arrival>, waId: string)
    requires forall i :: 0 <= i < |before| ==> before[i].update.waId != a.update.waId
    ensures Stream(before + [a] + after, waId) == Stream([a] + (before + after), waId)
  {
    StreamConcat(before, [a] + after, waId);
    assert before + [a] + after == before + ([a] + after);
    FrontStream(a, after, waId);
    FrontStream(a, before + after, waId);
    StreamConcat(before, after, waId);
    if waId == a.update.waId { NoStream(before, waId); }
  }

  lemma {:induction false} NoStream(arrivals: seq<Arrival>, waId: string)
    requires forall i :: 0 <= i < |arrivals| ==> arrivals[i].update.waId != waId
    ensures Stream(arrivals, waId) == []
  {
    if arrivals != [] { NoStream(arrivals[1..], waId); }
  }

  lemma {:induction false} SameStreamsSameTables(t: Tables, a: seq<Arrival>, b: seq<Arrival>)
    requires OneMessageEach(t)
    requires forall i :: 0 <= i < |a| ==> a[i].now == 0
    requires forall i :: 0 <= i < |b| ==> b[i].now == 0
    requires forall waId :: Stream(a, waId) == Stream(b, waId)
    ensures ApplyAll(t, a) == ApplyAll(t, b)
    decreases |a|
  {
    if a == [] {
      var waId := if b == [] then "" else b[0].update.waId;
      assert Stream(a, waId) == Stream(b, waId);
      assert b == [];
    } else {
      var head, rest := a[0], a[1..];
      var waId := head.update.waId;
      assert a == [head] + rest;
      assert Stream(a, waId) == Stream(b, waId);
      var k := FindFirst(b, waId);
      assert b[k] == head;
      var before, after := b[..k], b[k+1..];
      assert b == before + [head] + after;
      MoveToFront(t, before, head, after);
      var t' := ApplyUpdate(t, head.update, 0);
      UpdateKeepsOneMessageEach(t, head.update, 0);
      forall id ensures Stream(rest, id) == Stream(before + after, id) {
        assert Stream([head] + rest, id) == Stream(before + [head] + after, id);
        FrontStream(head, rest, id);
        FrontStream(head, before + after, id);
        MovedStream(before, head, after, id);
        var own := if waId == id then [head.update] else [];
        assert Stream(rest, id) == (own + Stream(rest, id))[|own|..];
        assert Stream(before + after, id) == (own + Stream(before + after, id))[|own|..];
      }
      SameStreamsSameTables(t', rest, before + after);
      assert ([head] + before + after)[1..] == before + after;
    }
  }

  /**
   Any two interleavings of the same per-message streams, processed at any clock
   readings, leave the same tables up to clock-valued columns: the same messages,
   recipients, campaign counters and campaign status, completion included.
   */
  lemma OrderIndependence(t: Tables, a: seq<Arrival>, b: seq<Arrival>)
    requires Inv(t) && forall waId :: Stream(a, waId) == Stream(b, waId)
    ensures Same(ApplyAll(t, a), ApplyAll(t, b))
  {
    AgreementGivesOneMessageEach(t);
    forall waId ensures Stream(AtZero(a), waId) == Stream(AtZero(b), waId) {
      ZeroStream(a, waId);
      ZeroStream(b, waId);
      assert Stream(a, waId) == Stream(b, waId);
    }
    SameStreamsSameTables(t, AtZero(a), AtZero(b));
    ClockAside(t, t, a);
    ClockAside(t, t, b);
    SameSymmetric(ApplyAll(t, b), ApplyAll(t, AtZero(b)));
    SameTransitive(ApplyAll(t, a), ApplyAll(t, AtZero(a)), ApplyAll(t, b));
  }
}

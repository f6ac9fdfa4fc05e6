/**
 Processing of stored webhook events, with the nested loops over the payload.
 */
module WebhookService {
  import opened Wrappers
  import opened Rows
  import opened StatusFold
  import opened Delivery
  import opened Sessions
  import opened Events
  import StatusWords

  // ------------------------------------------------------------ one status update

  datatype Lookup = NoRow | OneRow(id: Id) | ManyRows

  /** The query for the single message with an id. */
  method FindMessage(s: Session, waId: string) returns (r: Lookup)
    ensures r.ManyRows? <==> Ambiguous(s.View(), waId)
    ensures !r.ManyRows? ==> Target(s.View(), waId) == (if r.OneRow? then Some(r.id) else None)
  {
    ghost var t := s.View();
    var rows := set mid | mid in s.messages && s.messages[mid].waId == Some(waId);
    if rows == {} {
      assert forall mid :: !CarriesId(t, waId, mid) by {
        forall mid ensures !CarriesId(t, waId, mid) { assert mid !in rows; }
      }
      return NoRow;
    }
    var mid :| mid in rows;
    if rows != {mid} {
      ghost var other :| other in rows && other != mid;
      assert CarriesId(t, waId, mid) && CarriesId(t, waId, other);
      return ManyRows;
    }
    forall other | CarriesId(t, waId, other) ensures other == mid { assert other in rows; }
    assert OnlyMatch(t, waId, mid);
    return OneRow(mid);
  }

  /** The column assignments of one recognised update, in source order. */
  method AssignColumns(m: Message, u: StatusUpdate, to: MessageStatus, when: Stamp) returns (message: Message)
    ensures message == UpdateMessage(m, Effect(to, when, if u.errors == [] then None else Some(u.errors[0]), u.pricing))
  {
    message := m.(status := to);
    if to == MessageStatus.Sent && message.sentAt.None? {
      message := message.(sentAt := Some(when));
    } else if to == MessageStatus.Delivered && message.deliveredAt.None? {
      message := message.(deliveredAt := Some(when));
    } else if to == MessageStatus.Read && message.readAt.None? {
      message := message.(readAt := Some(when));
    } else if to == MessageStatus.Failed && message.failedAt.None? {
      message := message.(failedAt := Some(when));
      if u.errors != [] {
        message := message.(errorCode := u.errors[0].code);
        message := message.(errorMessage := ErrorText(u.errors[0]));
      }
    }
    if u.pricing.Some? {
      message := message.(pricing := u.pricing);
    }
  }

  method PropagateStatus(s: Session, rid: Id, to: MessageStatus, now: Time)
    requires to != MessageStatus.Queued
    modifies s`recipients, s`campaigns
    ensures s.View() == Propagate(old(s.View()), rid, to, now)
  {
    if rid !in s.recipients { return; }
    var recipient := s.recipients[rid];
    var oldStatus := recipient.status;
    recipient := recipient.(status := Image(to));
    if to == MessageStatus.Failed {
      recipient := recipient.(completedAt := Some(now));
    }
    s.recipients := s.recipients[rid := recipient];
    if recipient.campaignId !in s.campaigns { return; }
    var campaign := RollUpCampaign(s.campaigns[recipient.campaignId], oldStatus, recipient.status, now);
    s.campaigns := s.campaigns[recipient.campaignId := campaign];
  }

  method RollUpCampaign(c: Campaign, oldStatus: RecipientStatus, status: RecipientStatus, now: Time)
      returns (campaign: Campaign)
    ensures campaign == CompleteIfDone(Count(c, oldStatus, status), now)
  {
    campaign := c;
    if oldStatus != status {
      if status == RecipientStatus.Delivered {
        campaign := campaign.(delivered := campaign.delivered + 1);
      } else if status == RecipientStatus.Read {
        campaign := campaign.(read := campaign.read + 1);
      } else if status == RecipientStatus.Failed {
        campaign := campaign.(failed := campaign.failed + 1);
      }
    }
    var outstanding := campaign.total - (campaign.delivered + campaign.read + campaign.failed);
    if outstanding <= 0 && campaign.status == CampaignStatus.Running {
      campaign := campaign.(status := CampaignStatus.Completed);
      campaign := campaign.(completedAt := Some(now));
    }
  }

  /** One status update; an update that raises leaves the session as it was. */
  method ApplyStatusUpdate(s: Session, u: StatusUpdate, now: Time) returns (raised: bool)
    modifies s`messages, s`recipients, s`campaigns
    ensures raised <==> UpdateRaises(old(s.View()), u)
    ensures s.View() == if raised then old(s.View()) else ApplyUpdate(old(s.View()), u, now)
    ensures raised <==>
              u.waId != "" && StatusWords.Word(u.status)
              && (StatusWords.CarriedTwice(old(s.View()), u.waId)
                  || (StatusWords.Carried(old(s.View()), u.waId) && u.timestamp.Malformed?))
  {
    StatusWords.RaisesWhen(s.View(), u, now);
    if u.waId == "" || u.status == "" { return false; }
    var to := ParseStatus(u.status);
    if to.None? { return false; }
    var row := FindMessage(s, u.waId);
    if row.ManyRows? { return true; }
    if row.NoRow? { return false; }
    if u.timestamp.Malformed? { return true; }
    var when := When(u, now);
    var message := AssignColumns(s.messages[row.id], u, to.value, when);
    s.messages := s.messages[row.id := message];
    if message.recipient.Some? {
      PropagateStatus(s, message.recipient.value, to.value, now);
    }
    return false;
  }

  // ------------------------------------------------------------ inbound messages

  /** The tenant for a change; None when the query for a single tenant raises. */
  method TenantForValue(s: Session, phoneNumberId: Option<string>, fallback: Option<Id>) returns (r: Option<Option<Id>>)
    ensures r.None? <==> ActionRaises(s.View(), Resolve(phoneNumberId))
    ensures r.Some? ==> r.value == ResolveTenant(s.tenants, phoneNumberId, fallback)
  {
    if phoneNumberId.Some? && phoneNumberId.value != "" {
      var phone := phoneNumberId.value;
      var rows := set x | x in s.tenants && LiveTenant(s.tenants, x) && s.tenants[x].phoneNumberId == phone;
      if rows != {} {
        var x :| x in rows;
        assert HasPhone(s.tenants, phone, x);
        if rows != {x} {
          ghost var other :| other in rows && other != x;
          assert HasPhone(s.tenants, phone, other);
          return None;
        }
        forall other | HasPhone(s.tenants, phone, other) ensures other == x { assert other in rows; }
        return Some(Some(x));
      }
      forall x ensures !HasPhone(s.tenants, phone, x) { assert x !in rows; }
    }
    if fallback.Some? && fallback.value in s.tenants { return Some(fallback); }
    return Some(None);
  }

  /** An inbound message joins the session; it reaches the table at the next flush. */
  method SaveInboundMessage(s: Session, tenantId: Option<Id>, displayPhone: string, m: InboundMessage)
    requires tenantId.Some? ==> tenantId.value in s.tenants
    modifies s`pending
    ensures s.pending == old(s.pending) + PendingRow(s.tenants, tenantId, displayPhone, m)
  {
    if tenantId.None? { return; }
    s.pending := s.pending + [InboundRow(tenantId.value, s.tenants[tenantId.value].phoneNumberId, displayPhone, m)];
  }

  function PendingRow(tenants: map<Id, Tenant>, tenantId: Option<Id>, displayPhone: string,
                      m: InboundMessage): seq<Message> {
    if tenantId.None? || tenantId.value !in tenants then []
    else [InboundRow(tenantId.value, tenants[tenantId.value].phoneNumberId, displayPhone, m)]
  }

  /** A template status change, for the tenant of the event. */
  method ChangeTemplate(s: Session, tenantId: Option<Id>, u: TemplateUpdate)
    modifies s`templates
    ensures s.templates == Retemplated(old(s.templates), u, tenantId)
  {
    var name := Or(u.templateName, u.name);
    var language := Or(Or(u.templateLanguage, u.language), "en_US");
    var word := Or(u.event, u.status);
    if tenantId.None? || name == "" || word == "" { return; }
    var key := TemplateKey(tenantId.value, name, language);
    if key !in s.templates { return; }
    var status := ParseTemplateStatus(word);
    if status.None? { return; }
    s.templates := s.templates[key := s.templates[key].(status := status.value)];
  }

  // ------------------------------------------------------------ the nested loops

  /** The rows that one action, and a list of actions, leave pending. */
  ghost function ActionRows(tenants: map<Id, Tenant>, a: Action, fallback: Option<Id>): seq<Message> {
    if a.Save? then PendingRow(tenants, ResolveTenant(tenants, a.phoneNumberId, fallback), a.displayPhone, a.inbound)
        else []
  }

  ghost function PendingRows(tenants: map<Id, Tenant>, actions: seq<Action>, fallback: Option<Id>): seq<Message> {
    if actions == [] then []
    else ActionRows(tenants, actions[0], fallback) + PendingRows(tenants, actions[1..], fallback)
  }

  /** The tables that the session shows after the given actions on the tables t; inbound rows are still pending. */
  ghost function Worked(t: Tables, done: seq<Action>, tenant: Option<Id>, now: Time): Tables {
    ApplyAll(t, Arrivals(done, now)).(templates := RetemplateAll(t.templates, done, tenant))
  }

  /** The session after the given actions, none of which raised, on the tables t. */
  ghost predicate Progress(s: Session, t: Tables, done: seq<Action>, fallback: Option<Id>, now: Time)
    reads s
  {
    && NoneRaises(t, done)
    && s.View() == Worked(t, done, fallback, now)
    && s.pending == PendingRows(t.tenants, done, fallback)
  }

  lemma {:induction false} ApplyAllConcat(t: Tables, a: seq<Arrival>, b: seq<Arrival>)
    ensures ApplyAll(t, a + b) == ApplyAll(ApplyAll(t, a), b)
    decreases |a|
  {
    if a == [] {
      assert a + b == b;
    } else {
      assert (a + b)[1..] == a[1..] + b;
      ApplyAllConcat(ApplyUpdate(t, a[0].update, a[0].now), a[1..], b);
    }
  }

  lemma {:induction false} ArrivalsConcat(a: seq<Action>, b: seq<Action>, now: Time)
    ensures Arrivals(a + b, now) == Arrivals(a, now) + Arrivals(b, now)
  {
    if a == [] {
      assert a + b == b;
    } else {
      assert (a + b)[1..] == a[1..] + b && (a + b)[0] == a[0];
      ArrivalsConcat(a[1..], b, now);
      var head := if a[0].Update? then [Arrival(a[0].update, now)] else [];
      assert head + (Arrivals(a[1..], now) + Arrivals(b, now)) == (head + Arrivals(a[1..], now)) + Arrivals(b, now);
    }
  }

  lemma {:induction false} PendingRowsConcat(tenants: map<Id, Tenant>, a: seq<Action>, b: seq<Action>,
                                             fallback: Option<Id>)
    ensures PendingRows(tenants, a + b, fallback) ==
        PendingRows(tenants, a, fallback) + PendingRows(tenants, b, fallback)
  {
    if a == [] {
      assert a + b == b;
    } else {
      assert (a + b)[1..] == a[1..] + b;
      PendingRowsConcat(tenants, a[1..], b, fallback);
    }
  }

  lemma {:induction false} RetemplateConcat(templates: TemplateCache, a: seq<Action>, b: seq<Action>,
                                            tenant: Option<Id>)
    ensures RetemplateAll(templates, a + b, tenant) == RetemplateAll(RetemplateAll(templates, a, tenant), b, tenant)
    decreases |a|
  {
    if a == [] {
      assert a + b == b;
    } else {
      assert (a + b)[1..] == a[1..] + b && (a + b)[0] == a[0];
      var next := if a[0].Retemplate? then Retemplated(templates, a[0].change, tenant) else templates;
      RetemplateConcat(next, a[1..], b, tenant);
    }
  }

  /** Status updates and the template cache do not touch each other. */
  lemma TemplatesAside(t: Tables, templates: TemplateCache, u: StatusUpdate, now: Time)
    ensures ApplyUpdate(t.(templates := templates), u, now) == ApplyUpdate(t, u, now).(templates := templates)
  {
    SameTargets(t, t.(templates := templates), u.waId);
  }

  lemma SaveTemplatesAside(t: Tables, templates: TemplateCache, a: Action, fallback: Option<Id>)
    ensures AfterSave(t.(templates := templates), a, fallback) == AfterSave(t, a, fallback).(templates := templates)
  {
  }

  lemma {:induction false} SavesTemplatesAside(t: Tables, templates: TemplateCache,
                                               actions: seq<Action>, fallback: Option<Id>)
    ensures SaveAll(t.(templates := templates), actions, fallback)
         == SaveAll(t, actions, fallback).(templates := templates)
    decreases |actions|
  {
    if actions != [] {
      SaveTemplatesAside(t, templates, actions[0], fallback);
      SavesTemplatesAside(AfterSave(t, actions[0], fallback), templates, actions[1..], fallback);
    }
  }

  lemma OneMoreArrival(t: Tables, done: seq<Action>, a: Action, now: Time)
    ensures ApplyAll(t, Arrivals(done + [a], now))
         == if a.Update? then ApplyUpdate(ApplyAll(t, Arrivals(done, now)), a.update, now)
            else ApplyAll(t, Arrivals(done, now))
  {
    ArrivalsConcat(done, [a], now);
    assert [a][1..] == [];
    assert Arrivals([a], now) == if a.Update? then [Arrival(a.update, now)] else [];
    ApplyAllConcat(t, Arrivals(done, now), Arrivals([a], now));
    if a.Update? {
      assert [Arrival(a.update, now)][1..] == [];
    } else {
      assert Arrivals(done, now) + [] == Arrivals(done, now);
    }
  }

  lemma OneMoreRelabel(t: Tables, done: seq<Action>, a: Action, tenant: Option<Id>)
    ensures var templates := RetemplateAll(t.templates, done, tenant);
            RetemplateAll(t.templates, done + [a], tenant)
            == if a.Retemplate? then Retemplated(templates, a.change, tenant) else templates
  {
    RetemplateConcat(t.templates, done, [a], tenant);
    assert [a][1..] == [];
  }

  lemma OneMoreRow(t: Tables, done: seq<Action>, a: Action, fallback: Option<Id>)
    ensures PendingRows(t.tenants, done + [a], fallback)
         == PendingRows(t.tenants, done, fallback) + ActionRows(t.tenants, a, fallback)
  {
    PendingRowsConcat(t.tenants, done, [a], fallback);
    assert [a][1..] == [];
    assert PendingRows(t.tenants, [a], fallback) == ActionRows(t.tenants, a, fallback);
  }

  /** What one more action adds to the tables and to the pending rows. */
  lemma OneMoreAction(t: Tables, done: seq<Action>, a: Action, fallback: Option<Id>, now: Time)
    ensures var worked := Worked(t, done, fallback, now);
            Worked(t, done + [a], fallback, now) ==
              if a.Update? then ApplyUpdate(worked, a.update, now)
              else if a.Retemplate? then worked.(templates := Retemplated(worked.templates, a.change, fallback))
              else worked
    ensures PendingRows(t.tenants, done + [a], fallback)
         == PendingRows(t.tenants, done, fallback) + ActionRows(t.tenants, a, fallback)
  {
    OneMoreArrival(t, done, a, now);
    OneMoreRelabel(t, done, a, fallback);
    OneMoreRow(t, done, a, fallback);
    if a.Update? {
      TemplatesAside(ApplyAll(t, Arrivals(done, now)), RetemplateAll(t.templates, done, fallback), a.update, now);
    }
  }

  /** Whether an action raises does not depend on how far the event has got. */
  lemma SameRaise(t: Tables, done: seq<Action>, tenant: Option<Id>, now: Time, a: Action)
    ensures ActionRaises(Worked(t, done, tenant, now), a) <==> ActionRaises(t, a)
    ensures Worked(t, done, tenant, now).tenants == t.tenants && Worked(t, done, tenant, now).events == t.events
  {
    UpdatesKeepIds(t, Arrivals(done, now));
    UpdatesAreSteps(t, Arrivals(done, now));
    if a.Update? { SameTargets(t, Worked(t, done, tenant, now), a.update.waId); }
  }

  /** A loop did all of its actions, or stopped at the first that raises. */
  ghost predicate Handled(t: Tables, all: seq<Action>, did: seq<Action>, raised: bool) {
    && did <= all
    && (if raised then |did| < |all| && ActionRaises(t, all[|did|]) else did == all)
  }

  /** One inbound message of a change. */
  method SaveOne(s: Session, ghost t: Tables, ghost done: seq<Action>, fallback: Option<Id>,
                 phone: Option<string>, tenant: Option<Id>, display: string, m: InboundMessage, ghost now: Time)
    requires Progress(s, t, done, fallback, now) && tenant == ResolveTenant(t.tenants, phone, fallback)
    modifies s`pending
    ensures Progress(s, t, done + [Save(phone, display, m)], fallback, now)
  {
    SameRaise(t, done, fallback, now, Save(phone, display, m));
    SaveInboundMessage(s, tenant, display, m);
    OneMoreAction(t, done, Save(phone, display, m), fallback, now);
  }

  /** One status update of a change. */
  method UpdateOne(s: Session, ghost t: Tables, ghost done: seq<Action>, ghost fallback: Option<Id>, u: StatusUpdate,
                   now: Time)
    returns (raised: bool)
    requires Progress(s, t, done, fallback, now)
    modifies s`messages, s`recipients, s`campaigns
    ensures raised <==> ActionRaises(t, Update(u))
    ensures Progress(s, t, if raised then done else done + [Update(u)], fallback, now)
  {
    SameRaise(t, done, fallback, now, Update(u));
    raised := ApplyStatusUpdate(s, u, now);
    OneMoreAction(t, done, Update(u), fallback, now);
  }

  method ResolveChange(s: Session, ghost t: Tables, ghost done: seq<Action>, fallback: Option<Id>,
                       phone: Option<string>, ghost now: Time)
    returns (tenant: Option<Option<Id>>)
    requires Progress(s, t, done, fallback, now)
    ensures tenant.None? <==> ActionRaises(t, Resolve(phone))
    ensures tenant.Some? ==> tenant.value == ResolveTenant(t.tenants, phone, fallback)
                             && Progress(s, t, done + [Resolve(phone)], fallback, now)
  {
    SameRaise(t, done, fallback, now, Resolve(phone));
    tenant := TenantForValue(s, phone, fallback);
    OneMoreAction(t, done, Resolve(phone), fallback, now);
  }

  method SaveMessages(s: Session, ghost t: Tables, ghost done: seq<Action>, fallback: Option<Id>,
                      phone: Option<string>, tenant: Option<Id>, display: string, inbound: seq<InboundMessage>,
                          ghost now: Time)
    requires Progress(s, t, done, fallback, now) && tenant == ResolveTenant(t.tenants, phone, fallback)
    modifies s`pending
    ensures Progress(s, t, done + SaveActions(phone, display, inbound), fallback, now)
  {
    ghost var all := SaveActions(phone, display, inbound);
    ghost var sofar := done;
    var i := 0;
    while i < |inbound|
      invariant i <= |inbound| && sofar == done + all[..i]
      invariant Progress(s, t, sofar, fallback, now)
    {
      SaveOne(s, t, sofar, fallback, phone, tenant, display, inbound[i], now);
      sofar := sofar + [Save(phone, display, inbound[i])];
      assert all[..i + 1] == all[..i] + [all[i]];
      i := i + 1;
    }
    assert all[..i] == all;
  }

  method ApplyStatuses(s: Session, ghost t: Tables, ghost done: seq<Action>, ghost fallback: Option<Id>,
                       statuses: seq<StatusUpdate>, now: Time)
    returns (raised: bool, ghost did: seq<Action>)
    requires Progress(s, t, done, fallback, now)
    modifies s`messages, s`recipients, s`campaigns
    ensures Handled(t, done + UpdateActions(statuses), did, raised) && Progress(s, t, did, fallback, now)
  {
    ghost var all := UpdateActions(statuses);
    did := done;
    var j := 0;
    while j < |statuses|
      invariant j <= |statuses| && did == done + all[..j]
      invariant Progress(s, t, did, fallback, now)
    {
      raised := UpdateOne(s, t, did, fallback, statuses[j], now);
      NextAction(done, all, j);
      if raised { return true, did; }
      did := did + [Update(statuses[j])];
      j := j + 1;
    }
    assert all[..j] == all;
    raised := false;
  }

  lemma NextAction(done: seq<Action>, all: seq<Action>, j: nat)
    requires j < |all|
    ensures done + all[..j + 1] == (done + all[..j]) + [all[j]]
    ensures done + all[..j] <= done + all && (done + all)[|done + all[..j]|] == all[j]
  {
  }

  method HandleChange(s: Session, ghost t: Tables, ghost done: seq<Action>, fallback: Option<Id>, change: Change,
                      now: Time)
    returns (raised: bool, ghost did: seq<Action>)
    requires Progress(s, t, done, fallback, now)
    modifies s`messages, s`recipients, s`campaigns, s`templates, s`pending
    ensures Handled(t, done + ChangeActions(change), did, raised) && Progress(s, t, did, fallback, now)
  {
    match change
    case OtherField =>
      assert done + [] == done;
      return false, done;
    case TemplateChange(u) =>
      did := HandleTemplateChange(s, t, done, fallback, u, now);
      return false, did;
    case Messages(phone, display, inbound, statuses) =>
      raised, did := HandleMessages(s, t, done, fallback, phone, display, inbound, statuses, now);
  }

  method HandleTemplateChange(s: Session, ghost t: Tables, ghost done: seq<Action>, fallback: Option<Id>,
                              u: TemplateUpdate, ghost now: Time)
    returns (ghost did: seq<Action>)
    requires Progress(s, t, done, fallback, now)
    modifies s`templates
    ensures did == done + [Retemplate(u)] && Progress(s, t, did, fallback, now)
  {
    OneMoreAction(t, done, Retemplate(u), fallback, now);
    ChangeTemplate(s, fallback, u);
    did := done + [Retemplate(u)];
    assert NoneRaises(t, did);
  }

  method HandleMessages(s: Session, ghost t: Tables, ghost done: seq<Action>, fallback: Option<Id>,
                        phone: Option<string>, display: string, inbound: seq<InboundMessage>,
                        statuses: seq<StatusUpdate>, now: Time)
    returns (raised: bool, ghost did: seq<Action>)
    requires Progress(s, t, done, fallback, now)
    modifies s`messages, s`recipients, s`campaigns, s`pending
    ensures Handled(t, done + ChangeActions(Messages(phone, display, inbound, statuses)), did, raised)
    ensures Progress(s, t, did, fallback, now)
  {
    ghost var resolve := [Resolve(phone)];
    ghost var saves, updates := SaveActions(phone, display, inbound), UpdateActions(statuses);
    ghost var all := done + ChangeActions(Messages(phone, display, inbound, statuses));
    assert all == done + (resolve + saves + updates) && all == done + resolve + saves + updates;
    var tenant := ResolveChange(s, t, done, fallback, phone, now);
    if tenant.None? {
      assert all[|done|] == resolve[0];
      return true, done;
    }
    SaveMessages(s, t, done + resolve, fallback, phone, tenant.value, display, inbound, now);
    raised, did := ApplyStatuses(s, t, done + resolve + saves, fallback, statuses, now);
  }

  method HandleEntry(s: Session, ghost t: Tables, ghost done: seq<Action>, fallback: Option<Id>, changes: seq<Change>,
                     now: Time)
    returns (raised: bool, ghost did: seq<Action>)
    requires Progress(s, t, done, fallback, now)
    modifies s`messages, s`recipients, s`campaigns, s`templates, s`pending
    ensures Handled(t, done + EntryActions(changes), did, raised) && Progress(s, t, did, fallback, now)
  {
    did := done;
    ghost var all := done + EntryActions(changes);
    assert changes[0..] == changes;
    var i := 0;
    while i < |changes|
      invariant i <= |changes| && did + EntryActions(changes[i..]) == all
      invariant Progress(s, t, did, fallback, now)
    {
      ghost var before, rest := did, EntryActions(changes[i+1..]);
      NextChange(changes, i);
      raised, did := HandleChange(s, t, did, fallback, changes[i], now);
      HandledPart(t, all, before, ChangeActions(changes[i]), rest, did, raised);
      if raised { return true, did; }
      i := i + 1;
    }
    raised := false;
  }

  lemma NextChange(changes: seq<Change>, i: nat)
    requires i < |changes|
    ensures EntryActions(changes[i..]) == ChangeActions(changes[i]) + EntryActions(changes[i+1..])
  {
    assert changes[i..][1..] == changes[i+1..];
  }

  /** Being stopped within a part is being stopped within the whole. */
  lemma HandledPart(t: Tables, all: seq<Action>, before: seq<Action>, mine: seq<Action>, rest: seq<Action>,
                    did: seq<Action>, raised: bool)
    requires all == before + (mine + rest) && Handled(t, before + mine, did, raised)
    ensures if raised then Handled(t, all, did, true) else did + rest == all
  {
    assert all == (before + mine) + rest;
    if raised { assert all[|did|] == (before + mine)[|did|]; }
  }

  method HandleEntries(s: Session, ghost t: Tables, fallback: Option<Id>, entries: seq<seq<Change>>, now: Time)
    returns (raised: bool, ghost did: seq<Action>)
    requires s.View() == t && s.pending == []
    modifies s`messages, s`recipients, s`campaigns, s`templates, s`pending
    ensures Handled(t, EventActions(entries), did, raised) && Progress(s, t, did, fallback, now)
  {
    did := [];
    assert entries[0..] == entries;
    var i := 0;
    while i < |entries|
      invariant i <= |entries| && did + EventActions(entries[i..]) == EventActions(entries)
      invariant Progress(s, t, did, fallback, now)
    {
      ghost var before, rest := did, EventActions(entries[i+1..]);
      raised, did := HandleEntry(s, t, did, fallback, entries[i], now);
      assert entries[i..][1..] == entries[i+1..];
      HandledPart(t, EventActions(entries), before, EntryActions(entries[i]), rest, did, raised);
      if raised { return true, did; }
      i := i + 1;
    }
    raised := false;
  }

  lemma {:induction false} StopsAtFirstRaise(t: Tables, all: seq<Action>, did: seq<Action>, raised: bool)
    requires Handled(t, all, did, raised) && NoneRaises(t, did)
    ensures BeforeRaise(t, all) == did
    decreases |all|
  {
    if did == [] {
    } else {
      assert did[0] == all[0] && !ActionRaises(t, did[0]);
      assert NoneRaises(t, did[1..]) by {
        forall i | 0 <= i < |did[1..]| ensures !ActionRaises(t, did[1..][i]) { assert did[1..][i] == did[i + 1]; }
      }
      StopsAtFirstRaise(t, all[1..], did[1..], raised);
    }
  }

  lemma {:induction false} FlushSaves(t: Tables, actions: seq<Action>, fallback: Option<Id>)
    ensures Flushed(t, PendingRows(t.tenants, actions, fallback)) == SaveAll(t, actions, fallback)
    decreases |actions|
  {
    if actions != [] {
      var a, rest := actions[0], actions[1..];
      var rows := ActionRows(t.tenants, a, fallback);
      var t' := AfterSave(t, a, fallback);
      FlushSaves(t', rest, fallback);
      var more := PendingRows(t.tenants, rest, fallback);
      if rows == [] {
        assert rows + more == more;
      } else {
        assert (rows + more)[1..] == more;
      }
    }
  }

  lemma {:induction false} FlushKeepsEvents(t: Tables, rows: seq<Message>, eid: Id, complete: bool, now: Time)
    ensures Flushed(CloseEvent(t, eid, complete, now), rows) == CloseEvent(Flushed(t, rows), eid, complete, now)
    decreases |rows|
  {
    if rows != [] {
      assert AddMessage(CloseEvent(t, eid, complete, now), rows[0]) ==
          CloseEvent(AddMessage(t, rows[0]), eid, complete, now);
      FlushKeepsEvents(AddMessage(t, rows[0]), rows[1..], eid, complete, now);
    }
  }

  /**
   One delivery of a stored event. An exception stops the loops but not the commit: the work
   before it is kept, and the event is marked with the error instead of as processed.
   */
  method Process(database: Database, eid: Id, now: Time)
    modifies database
    ensures database.View() == ProcessEvent(old(database.View()), eid, now)
  {
    var s := new Session(database);
    ghost var t := s.View();
    if eid !in s.events { return; }
    var event := s.events[eid];
    if event.processed { return; }

    var raised, did := HandleEntries(s, t, event.tenantId, event.entries, now);
    StopsAtFirstRaise(t, EventActions(event.entries), did, raised);
    ghost var updated := Worked(t, did, event.tenantId, now);
    SavesTemplatesAside(ApplyAll(t, Arrivals(did, now)), updated.templates, did, event.tenantId);
    SameRaise(t, did, event.tenantId, now, Resolve(None));
    if raised {
      event := event.(error := true);
    } else {
      event := event.(processed := true);
      event := event.(processedAt := Some(now));
      event := event.(error := false);
    }
    s.events := s.events[eid := event];
    assert s.View() == CloseEvent(updated, eid, !raised, now);
    FlushSaves(updated, did, event.tenantId);
    FlushKeepsEvents(updated, s.pending, eid, !raised, now);
    s.Commit();
  }
}

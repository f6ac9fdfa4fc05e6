/**
 Concrete runs from an initial state that show where the platform falls short of its promises.
 */
module Scenarios {
  import opened Wrappers
  import opened Rows
  import opened StatusFold
  import opened Delivery
  import opened Agreement
  import opened Conservation
  import opened Counters
  import opened Events
  import opened Replay
  import opened Dispatch
  import BodyParameters

  function ShopTenant(sent: int): Tenant {
    Tenant("Shop", "shop", "waba", "100", "token", Starter, 10, sent, true, None)
  }

  function Shop(): Tables {
    Tables(1, map[0 := ShopTenant(0)],
           map[TemplateKey(0, "offer", "en_US") := CachedTemplate(Marketing, TemplateStatus.Approved, [], None, None)],
           map[], map[], map[], map[])
  }

  function Status(word: string): StatusUpdate {
    StatusUpdate("wamid", word, At(7), [], None)
  }

  const ACCEPTED := SendEnv(true, Accepted("wamid"), 5)

  /** A campaign of two, started. */
  function Launched(): seq<Step> {
    [Create(0, "offer", "en_US", false)]
    + ([AddRecipients(1, [Addressee("+911", []), Addressee("+912", [])])] + [Start(1)])
  }

  lemma {:induction false} RunCons(t: Tables, s: Step, rest: seq<Step>)
    ensures Run(t, [s] + rest) == Run(Apply(t, s), rest)
  {
    assert ([s] + rest)[1..] == rest;
  }

  lemma LaunchedState(rest: seq<Step>)
    ensures Run(Shop(), Launched() + rest) == Run(LaunchedShop(), rest)
  {
    var create := Create(0, "offer", "en_US", false);
    var add := AddRecipients(1, [Addressee("+911", []), Addressee("+912", [])]);
    var t1 := Apply(Shop(), create);
    var t2 := Apply(t1, add);
    LaunchStages();
    assert Launched() + rest == [create] + ([add] + ([Start(1)] + rest));
    RunCons(Shop(), create, [add] + ([Start(1)] + rest));
    RunCons(t1, add, [Start(1)] + rest);
    RunCons(t2, Start(1), rest);
  }

  lemma LaunchStages()
    ensures var t1 := Apply(Shop(), Create(0, "offer", "en_US", false));
            var t2 := Apply(t1, AddRecipients(1, [Addressee("+911", []), Addressee("+912", [])]));
            Apply(t2, Start(1)) == LaunchedShop()
  {
    var t1 := CreateCampaign(Shop(), 0, "offer", "en_US", false);
    assert t1 == Shop().(nextId := 2, campaigns := map[1 := Draft(0)]);
    UploadStage(t1);
    assert StartCampaign(t1.(nextId := 4, recipients := LaunchedShop().recipients, campaigns := map[1 := Draft(2)]), 1)
        == LaunchedShop();
  }

  function Draft(total: int): Campaign {
    Campaign(0, "offer", "en_US", CampaignStatus.Draft, total, 0, 0, 0, 0, None)
  }

  lemma UploadStage(t: Tables)
    requires t.nextId == 2 && t.campaigns == map[1 := Draft(0)] && t.recipients == map[]
    ensures Upload(t, 1, [Addressee("+911", []), Addressee("+912", [])])
         == t.(nextId := 4, recipients := LaunchedShop().recipients, campaigns := map[1 := Draft(2)])
  {
    var two := [Addressee("+911", []), Addressee("+912", [])];
    assert NewRecipients(2, 1, two) == LaunchedShop().recipients;
  }

  function LaunchedShop(): Tables {
    Shop().(nextId := 4,
            campaigns := map[1 := Campaign(0, "offer", "en_US", CampaignStatus.Running, 2, 0, 0, 0, 0, None)],
            recipients := map[2 := QueuedRecipient(1, Addressee("+911", [])),
                3 := QueuedRecipient(1, Addressee("+912", []))])
  }

  /** The first recipient's message, and the shop after the send to it and after each of its updates. */
  function TheMessage(status: MessageStatus, deliveredAt: Option<Stamp>, readAt: Option<Stamp>): Message {
    Message(0, true, Some("wamid"), "+911", "100", Template("offer", "en_US", []), status,
            Some(Clock(5)), deliveredAt, readAt, None, None, None, None, Some(2))
  }

  function ShopWith(message: Message, status: RecipientStatus, campaign: Campaign): Tables {
    LaunchedShop().(nextId := 5,
                    tenants := map[0 := ShopTenant(1)],
                    campaigns := map[1 := campaign],
                    recipients := LaunchedShop().recipients[2 :=
                      Recipient(1, "+911", [], status, Some("wamid"), None, Some(5), None, 1)],
                    messages := map[4 := message])
  }

  function Sent(): Tables {
    ShopWith(TheMessage(MessageStatus.Sent, None, None), RecipientStatus.Sent,
             Campaign(0, "offer", "en_US", CampaignStatus.Running, 2, 1, 0, 0, 0, None))
  }

  function Delivered(): Tables {
    ShopWith(TheMessage(MessageStatus.Delivered, Some(Reported(7)), None), RecipientStatus.Delivered,
             Campaign(0, "offer", "en_US", CampaignStatus.Running, 2, 1, 1, 0, 0, None))
  }

  lemma SendStage()
    ensures Apply(LaunchedShop(), Send(2, ACCEPTED)) == Sent()
  {
    assert BodyParameters.Render([]) == Some([]);
    var t' := Apply(LaunchedShop(), Send(2, ACCEPTED));
    assert t'.messages == Sent().messages && t'.recipients == Sent().recipients;
    assert t'.campaigns == Sent().campaigns && t'.tenants == Sent().tenants;
  }

  /** Everything after the send to the first recipient. */
  lemma SentState(rest: seq<Step>)
    ensures Run(Shop(), Launched() + ([Send(2, ACCEPTED)] + rest)) == Run(Sent(), rest)
  {
    LaunchedState([Send(2, ACCEPTED)] + rest);
    RunCons(LaunchedShop(), Send(2, ACCEPTED), rest);
    SendStage();
  }

  function Reading(to: MessageStatus): Effect {
    Effect(to, Reported(7), None, None)
  }

  lemma ParsedDelivered(now: Time)
    ensures Parse(Status("delivered"), now) == Some(Reading(MessageStatus.Delivered))
  {
  }

  lemma ParsedRead(now: Time)
    ensures Parse(Status("read"), now) == Some(Reading(MessageStatus.Read))
  {
  }

  lemma FoundByWamid(t: Tables)
    requires t.messages.Keys == {4} && t.messages[4].waId == Some("wamid")
    ensures OnlyMatch(t, "wamid", 4)
  {
  }

  lemma DeliveredStage()
    ensures Apply(Sent(), Receive(Status("delivered"), 8)) == Delivered()
  {
    ParsedDelivered(8);
    FoundByWamid(Sent());
    ReceiveIs(Sent(), Status("delivered"), 8, 4, Reading(MessageStatus.Delivered));
    DeliveredColumns(Sent(), Reading(MessageStatus.Delivered), 8);
  }

  lemma DeliveredColumns(t: Tables, e: Effect, now: Time)
    requires t == Sent() && e == Reading(MessageStatus.Delivered)
    ensures UpdateAt(t, 4, e, now) == Delivered()
  {
    UpdateStage(t, e, now);
    assert Moved(t.recipients[2], e.to, now) == Delivered().recipients[2];
    assert CompleteIfDone(Count(t.campaigns[1], t.recipients[2].status, Image(e.to)), now) == Delivered().campaigns[1];
  }

  lemma ReadStage()
    ensures var t := Apply(Delivered(), Receive(Status("read"), 9));
            1 in t.campaigns && t.campaigns[1].status == CampaignStatus.Completed && 3 in QueuedOf(t.recipients, 1)
  {
    ParsedRead(9);
    FoundByWamid(Delivered());
    ReceiveIs(Delivered(), Status("read"), 9, 4, Reading(MessageStatus.Read));
    ReadCompletes(Delivered(), Reading(MessageStatus.Read), 9);
  }

  lemma ReceiveIs(t: Tables, u: StatusUpdate, now: Time, mid: Id, e: Effect)
    requires Parse(u, now) == Some(e) && OnlyMatch(t, u.waId, mid) && !u.timestamp.Malformed?
    ensures Apply(t, Receive(u, now)) == UpdateAt(t, mid, e, now)
  {
  }

  lemma ReadCompletes(t: Tables, e: Effect, now: Time)
    requires t == Delivered() && e.to == MessageStatus.Read
    ensures var t' := UpdateAt(t, 4, e, now);
            1 in t'.campaigns && t'.campaigns[1].status == CampaignStatus.Completed && 3 in QueuedOf(t'.recipients, 1)
  {
    UpdateStage(t, e, now);
    assert t.recipients[3] == QueuedRecipient(1, Addressee("+912", []));
  }

  lemma UpdateStage(t: Tables, e: Effect, now: Time)
    requires t.messages.Keys == {4} && t.messages[4].recipient == Some(2)
    requires 2 in t.recipients && t.recipients[2].campaignId == 1 && t.campaigns.Keys == {1}
    ensures var t' := UpdateAt(t, 4, e, now);
            && t'.messages == map[4 := UpdateMessage(t.messages[4], e)]
            && t'.recipients == t.recipients[2 := Moved(t.recipients[2], e.to, now)]
            && t'.campaigns == map[1 := CompleteIfDone(Count(t.campaigns[1], t.recipients[2].status, Image(e.to)), now)]
            && t'.nextId == t.nextId && t'.tenants == t.tenants && t'.events == t.events
  {
  }

  /**
   One recipient that is delivered to and then reads counts twice: a campaign of two is
   completed while its other recipient is still queued.
   */
  lemma CompletedWithOneStillQueued()
    ensures Initial(Shop())
    ensures var t := Run(Shop(), Launched() +
        ([Send(2, ACCEPTED)] + ([Receive(Status("delivered"), 8)] + [Receive(Status("read"), 9)])));
            1 in t.campaigns && t.campaigns[1].status == CampaignStatus.Completed
            && 3 in QueuedOf(t.recipients, 1)
  {
    var delivered, read := Receive(Status("delivered"), 8), Receive(Status("read"), 9);
    SentState([delivered] + [read]);
    RunCons(Sent(), delivered, [read]);
    DeliveredStage();
    RunCons(Delivered(), read, []);
    assert [read] + [] == [read];
    ReadStage();
  }

  /** A task queued before the campaign is cancelled sends all the same. */
  lemma SentAfterCancellation()
    ensures var w := World(LaunchedShop(), multiset{}, multiset{2}, []);
            var moves := [Transact(Cancel(1, 6))] + [RunSend(2, ACCEPTED, true)];
            && Legal(w, moves)
            && 1 in Play(w, moves).tables.campaigns && 2 in Play(w, moves).tables.recipients
            && Play(w, moves).tables.campaigns[1].status == CampaignStatus.Cancelled
            && Play(w, moves).tables.recipients[2].status == RecipientStatus.Sent
  {
    var w := World(LaunchedShop(), multiset{}, multiset{2}, []);
    var cancel, send := Transact(Cancel(1, 6)), RunSend(2, ACCEPTED, true);
    var w' := Take(w, cancel);
    assert w'.tables == CancelCampaign(LaunchedShop(), 1, 6);
    SentFromCancelled(w'.tables);
    assert [cancel] + [send] == [cancel, send] && [cancel, send][1..] == [send] && [send][1..] == [];
    assert Legal(w', [send]);
    assert Play(w, [cancel, send]) == Play(w', [send]) == Take(w', send);
  }

  lemma SentFromCancelled(t: Tables)
    requires t == CancelCampaign(LaunchedShop(), 1, 6)
    ensures var t' := CommittedSend(t, 2, ACCEPTED);
            && 1 in t'.campaigns && t'.campaigns[1].status == CampaignStatus.Cancelled
            && 2 in t'.recipients && t'.recipients[2].status == RecipientStatus.Sent
  {
    assert BodyParameters.Render([]) == Some([]);
  }

  // ------------------------------------------------------------ a campaign that nothing completes

  const REFUSED := SendEnv(true, Refused(MetaInvalidRequest("bad number")), 9)

  /** A refused send: the recipient and the campaign's count. */
  lemma RefusalStage(t: Tables, rid: Id)
    requires rid in t.recipients && t.recipients[rid] == QueuedRecipient(1, Addressee(t.recipients[rid].phone, []))
    requires 1 in t.campaigns && t.campaigns[1].tenantId == 0 && LiveTenant(t.tenants, 0)
    ensures var t' := Apply(t, Send(rid, REFUSED));
            && t'.campaigns == t.campaigns[1 := t.campaigns[1].(failed := t.campaigns[1].failed + 1)]
            && t'.recipients.Keys == t.recipients.Keys && RefusedForGood(t'.recipients[rid])
            && t'.recipients[rid].campaignId == 1 && t'.tenants == t.tenants
            && (forall other :: other in t.recipients && other != rid ==> t'.recipients[other] == t.recipients[other])
  {
    assert BodyParameters.Render([]) == Some([]);
  }

  /**
   One recipient delivered to, the other then refused: the counters cover the campaign, but the refusal does not
   look at that, and the campaign stays running.
   */
  lemma CoveredButStillRunning()
    ensures var t := Run(Shop(), Launched() +
        ([Send(2, ACCEPTED)] + ([Receive(Status("delivered"), 8)] + [Send(3, REFUSED)])));
            Covered(t, 1) && t.campaigns[1].status == CampaignStatus.Running && AcceptedOf(t.recipients, 1) == {2}
  {
    var delivered, refused := Receive(Status("delivered"), 8), Send(3, REFUSED);
    SentState([delivered] + [refused]);
    RunCons(Sent(), delivered, [refused]);
    DeliveredStage();
    RunCons(Delivered(), refused, []);
    assert [refused] + [] == [refused];
    RefusalStage(Delivered(), 3);
  }

  /** Both recipients refused: such a campaign never completes. */
  lemma AllRefusedIsReached()
    ensures var t := Run(Shop(), Launched() + ([Send(2, REFUSED)] + [Send(3, REFUSED)]));
            && AllRefused(t, 1) && Covered(t, 1) && t.campaigns[1].status == CampaignStatus.Running
            && RecipientsOf(t.recipients, 1) == {2, 3}
  {
    LaunchedState([Send(2, REFUSED)] + [Send(3, REFUSED)]);
    RunCons(LaunchedShop(), Send(2, REFUSED), [Send(3, REFUSED)]);
    RefusalStage(LaunchedShop(), 2);
    var t := Apply(LaunchedShop(), Send(2, REFUSED));
    RunCons(t, Send(3, REFUSED), []);
    assert [Send(3, REFUSED)] + [] == [Send(3, REFUSED)];
    SecondRefusal(t);
  }

  lemma SecondRefusal(t: Tables)
    requires t.recipients.Keys == {2, 3} && t.recipients[3] == QueuedRecipient(1, Addressee("+912", []))
    requires RefusedForGood(t.recipients[2]) && t.recipients[2].campaignId == 1 && t.tenants == LaunchedShop().tenants
    requires t.campaigns == map[1 := LaunchedShop().campaigns[1].(failed := 1)]
    ensures var t' := Apply(t, Send(3, REFUSED));
            && AllRefused(t', 1) && Covered(t', 1) && t'.campaigns[1].status == CampaignStatus.Running
            && RecipientsOf(t'.recipients, 1) == {2, 3}
  {
    RefusalStage(t, 3);
  }

  // ------------------------------------------------------------ an event that counts twice

  /** One message reported delivered, then read, then with a timestamp that does not parse. */
  function BrokenEvent(): seq<seq<Change>> {
    [[Messages(None, "", [], [Status("delivered")] + ([Status("read")] + [Status("read").(timestamp := Malformed)]))]]
  }

  function Stored(): Tables {
    StoreEvent(Sent(), None, BrokenEvent())
  }

  lemma SentInv()
    ensures Inv(Sent())
  {
    assert Initial(Shop());
    InitialInv(Shop());
    RunKeepsInv(Shop(), Launched() + ([Send(2, ACCEPTED)] + []));
    SentState([]);
  }

  lemma RunStore(t: Tables, entries: seq<seq<Change>>)
    ensures Run(t, [Store(None, entries)]) == StoreEvent(t, None, entries)
  {
    RunCons(t, Store(None, entries), []);
    assert [Store(None, entries)] + [] == [Store(None, entries)];
  }

  /** An event stored after the send. */
  lemma StoredState(entries: seq<seq<Change>>)
    ensures Run(Shop(), Launched() + ([Send(2, ACCEPTED)] + [Store(None, entries)]))
         == StoreEvent(Sent(), None, entries)
  {
    SentState([Store(None, entries)]);
    RunStore(Sent(), entries);
  }

  lemma StoredInv()
    ensures Inv(Stored())
  {
    SentInv();
    StoredCopy(Sent(), None, BrokenEvent());
  }

  lemma BrokenActions()
    ensures EventActions(BrokenEvent()) ==
            [Resolve(None)] + ([Update(Status("delivered"))] + ([Update(Status("read"))]
            + [Update(Status("read").(timestamp := Malformed))]))
  {
    var statuses := [Status("delivered")] + ([Status("read")] + [Status("read").(timestamp := Malformed)]);
    var change := Messages(None, "", [], statuses);
    assert UpdateActions(statuses) == [Update(Status("delivered"))] + ([Update(Status("read"))]
           + [Update(Status("read").(timestamp := Malformed))]);
    assert SaveActions(None, "", []) == [];
    assert ChangeActions(change) == [Resolve(None)] + UpdateActions(statuses);
    assert EntryActions([change]) == ChangeActions(change) + EntryActions([]);
    assert [[change]][1..] == [] && [change][1..] == [];
  }

  /** The two readable updates are done, and the third raises. */
  lemma BrokenPrefix()
    ensures var actions := EventActions(BrokenEvent());
            && BeforeRaise(Stored(), actions) ==
                [Resolve(None)] + ([Update(Status("delivered"))] + [Update(Status("read"))])
            && !NoneRaises(Stored(), actions)
  {
    BrokenActions();
    var t, delivered, read := Stored(), Update(Status("delivered")), Update(Status("read"));
    var broken := Update(Status("read").(timestamp := Malformed));
    assert OnlyMatch(t, "wamid", 4);
    assert ActionRaises(t, broken) && !ActionRaises(t, delivered) && !ActionRaises(t, read);
    assert BeforeRaise(t, [broken]) == [];
    BeforeRaiseCons(t, read, [broken]);
    BeforeRaiseCons(t, delivered, [read] + [broken]);
    BeforeRaiseCons(t, Resolve(None), [delivered] + ([read] + [broken]));
    var actions := EventActions(BrokenEvent());
    assert actions[3] == broken;
  }

  lemma BeforeRaiseCons(t: Tables, a: Action, rest: seq<Action>)
    requires !ActionRaises(t, a)
    ensures BeforeRaise(t, [a] + rest) == [a] + BeforeRaise(t, rest)
  {
    assert ([a] + rest)[1..] == rest;
  }

  lemma ArrivalsCons(a: Action, rest: seq<Action>, now: Time)
    ensures Arrivals([a] + rest, now) == (if a.Update? then [Arrival(a.update, now)] else []) + Arrivals(rest, now)
  {
    assert ([a] + rest)[1..] == rest;
  }

  /** The updates the first delivery applies, and finds their message with. */
  lemma BrokenArrivals()
    ensures Arrivals(BeforeRaise(Stored(), EventActions(BrokenEvent())), 8)
         == [Arrival(Status("delivered"), 8)] + [Arrival(Status("read"), 8)]
    ensures IdsApart(BeforeRaise(Stored(), EventActions(BrokenEvent())))
  {
    BrokenPrefix();
    var delivered, read := Status("delivered"), Status("read");
    ArrivalsCons(Update(read), [], 8);
    ArrivalsCons(Update(delivered), [Update(read)], 8);
    ArrivalsCons(Resolve(None), [Update(delivered)] + [Update(read)], 8);
    assert [Update(read)] + [] == [Update(read)] && [Arrival(read, 8)] + [] == [Arrival(read, 8)];
  }

  lemma BrokenStatuses(t: Tables)
    requires OnlyMatch(t, "wamid", 4)
    ensures StatusesOn(t, [Arrival(Status("delivered"), 8)] + [Arrival(Status("read"), 8)], 4)
         == [MessageStatus.Delivered] + [MessageStatus.Read]
  {
    var delivered, read := Status("delivered"), Status("read");
    assert Reaches(t, delivered, 4) && Reaches(t, read, 4);
    StatusesCons(t, Arrival(read, 8), [], 4);
    StatusesCons(t, Arrival(delivered, 8), [Arrival(read, 8)], 4);
    assert [Arrival(read, 8)] + [] == [Arrival(read, 8)];
    assert StatusesOn(t, [], 4) == [];
  }

  lemma BrokenIsNotSteady()
    ensures CountsIn(Stored(), 4, 1)
    ensures !Steady(Stored(), [Arrival(Status("delivered"), 8)] + [Arrival(Status("read"), 8)], 4)
  {
    assert OnlyMatch(Stored(), "wamid", 4);
    BrokenStatuses(Stored());
    var tos := [MessageStatus.Delivered] + [MessageStatus.Read];
    assert tos[0] != tos[1];
  }

  /** The event aborts, and delivering it again counts the same recipient again. */
  lemma AbortedEventCountsTwice()
    ensures var t := Run(Shop(), Launched() + ([Send(2, ACCEPTED)] + [Store(None, BrokenEvent())]));
            var t' := ProcessEvent(t, 5, 8);
            && 5 in t'.events && !t'.events[5].processed
            && CountedSum(ProcessEvent(t', 5, 9), 1) > CountedSum(t', 1)
  {
    StoredState(BrokenEvent());
    StoredInv();
    BrokenPrefix();
    BrokenArrivals();
    BrokenIsNotSteady();
    InflatesWhenNotSteady(Stored(), 5, 8, 9, 4, 1);
  }

  lemma InflatesWhenNotSteady(t: Tables, eid: Id, now: Time, later: Time, mid: Id, cid: Id)
    requires Inv(t) && eid in t.events && !t.events[eid].processed
    requires var actions := EventActions(t.events[eid].entries);
             !NoneRaises(t, actions) && IdsApart(BeforeRaise(t, actions))
             && !Steady(t, Arrivals(BeforeRaise(t, actions), now), mid)
    requires CountsIn(t, mid, cid)
    ensures var t' := ProcessEvent(t, eid, now);
            && eid in t'.events && !t'.events[eid].processed
            && CountedSum(ProcessEvent(t', eid, later), cid) > CountedSum(t', cid)
  {
    ProcessedOnce(t, eid, now, later);
    AbortedEventInflates(t, eid, now, later, cid);
  }

  // ------------------------------------------------------------ a second copy of an event

  /** One message reported delivered, then read. */
  function WholeEvent(): seq<seq<Change>> {
    [[Messages(None, "", [], [Status("delivered")] + [Status("read")])]]
  }

  function WholeActions(): seq<Action> {
    [Resolve(None)] + ([Update(Status("delivered"))] + [Update(Status("read"))])
  }

  lemma WholeEventActions()
    ensures EventActions(WholeEvent()) == WholeActions()
  {
    var statuses := [Status("delivered")] + [Status("read")];
    var change := Messages(None, "", [], statuses);
    assert UpdateActions(statuses) == [Update(Status("delivered"))] + [Update(Status("read"))];
    assert SaveActions(None, "", []) == [];
    assert ChangeActions(change) == [Resolve(None)] + UpdateActions(statuses);
    assert EntryActions([change]) == ChangeActions(change) + EntryActions([]);
    assert [[change]][1..] == [] && [change][1..] == [];
  }

  lemma NothingRaises(t: Tables)
    requires OnlyMatch(t, "wamid", 4)
    ensures BeforeRaise(t, WholeActions()) == WholeActions() && NoneRaises(t, WholeActions())
  {
    var delivered, read := Update(Status("delivered")), Update(Status("read"));
    assert !ActionRaises(t, delivered) && !ActionRaises(t, read) && !ActionRaises(t, Resolve(None));
    BeforeRaiseCons(t, read, []);
    BeforeRaiseCons(t, delivered, [read]);
    BeforeRaiseCons(t, Resolve(None), [delivered] + [read]);
    assert [read] + [] == [read];
  }

  lemma WholeArrivals()
    ensures Arrivals(WholeActions(), 8) == [Arrival(Status("delivered"), 8)] + [Arrival(Status("read"), 8)]
    ensures IdsApart(WholeActions())
  {
    var delivered, read := Status("delivered"), Status("read");
    ArrivalsCons(Update(read), [], 8);
    ArrivalsCons(Update(delivered), [Update(read)], 8);
    ArrivalsCons(Resolve(None), [Update(delivered)] + [Update(read)], 8);
    assert [Update(read)] + [] == [Update(read)] && [Arrival(read, 8)] + [] == [Arrival(read, 8)];
  }

  function StoredWhole(): Tables {
    StoreEvent(Sent(), None, WholeEvent())
  }

  /** The event is processed and marked; the copy that Meta delivers again counts the same recipient again. */
  lemma SecondCopyCountsTwice()
    ensures var t := Run(Shop(), Launched() + ([Send(2, ACCEPTED)] + [Store(None, WholeEvent())]));
            var t' := ProcessEvent(t, 5, 8);
            var t2 := StoreEvent(t', None, WholeEvent());
            && 5 in t'.events && t'.events[5].processed
            && CountedSum(ProcessEvent(t2, t'.nextId, 9), 1) > CountedSum(t2, 1)
  {
    StoredState(WholeEvent());
    WholeCopyInflates();
  }

  lemma WholeCopyInflates()
    ensures var t' := ProcessEvent(StoredWhole(), 5, 8);
            var t2 := StoreEvent(t', None, WholeEvent());
            && 5 in t'.events && t'.events[5].processed
            && CountedSum(ProcessEvent(t2, t'.nextId, 9), 1) > CountedSum(t2, 1)
  {
    SentInv();
    StoredCopy(Sent(), None, WholeEvent());
    WholeIsNotSteady();
    WholeDelivery();
    CopyInflates(StoredWhole(), 5, 8, 9, 4, 1);
  }

  lemma WholeDelivery()
    ensures var t, actions := StoredWhole(), EventActions(WholeEvent());
            && NoneRaises(t, actions) && BeforeRaise(t, actions) == actions && IdsApart(actions)
            && Arrivals(actions, 8) == [Arrival(Status("delivered"), 8)] + [Arrival(Status("read"), 8)]
  {
    FoundByWamid(StoredWhole());
    WholeEventActions();
    NothingRaises(StoredWhole());
    WholeArrivals();
  }

  lemma WholeIsNotSteady()
    ensures CountsIn(StoredWhole(), 4, 1)
    ensures !Steady(StoredWhole(), [Arrival(Status("delivered"), 8)] + [Arrival(Status("read"), 8)], 4)
  {
    FoundByWamid(StoredWhole());
    BrokenStatuses(StoredWhole());
    var tos := [MessageStatus.Delivered] + [MessageStatus.Read];
    assert tos[0] != tos[1];
  }

  lemma CopyInflates(t: Tables, eid: Id, now: Time, later: Time, mid: Id, cid: Id)
    requires Inv(t) && eid in t.events && !t.events[eid].processed && CountsIn(t, mid, cid)
    requires var actions := EventActions(t.events[eid].entries);
             && NoneRaises(t, actions) && BeforeRaise(t, actions) == actions
             && IdsApart(actions) && !Steady(t, Arrivals(actions, now), mid)
    ensures var t' := ProcessEvent(t, eid, now);
            var t2 := StoreEvent(t', t.events[eid].tenantId, t.events[eid].entries);
            && eid in t'.events && t'.events[eid].processed
            && CountedSum(ProcessEvent(t2, t'.nextId, later), cid) > CountedSum(t2, cid)
  {
    ProcessedOnce(t, eid, now, later);
    SecondCopyInflates(t, eid, now, later, cid);
  }
}

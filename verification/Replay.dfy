/**
 What a list of updates does to the rows it reaches and to the counters of every campaign,
 and what the same updates do when they come a second time.
 */
module Replay {
  import opened Wrappers
  import opened Rows
  import opened StatusFold
  import opened Delivery
  import opened Agreement
  import opened Counters
  import opened Events
  import Interleaving

  // ------------------------------------------------------------ one row

  /** The update is recognised, readable, and finds this message. */
  ghost predicate Reaches(t: Tables, u: StatusUpdate, mid: Id) {
    Parse(u, 0).Some? && !u.timestamp.Malformed? && Target(t, u.waId) == Some(mid)
  }

  /** What one arrival asks of a message: one effect, or none when it is skipped or for another. */
  ghost function EffectOn(t: Tables, a: Arrival, mid: Id): seq<Effect> {
    if Reaches(t, a.update, mid) then [Parse(a.update, a.now).value] else []
  }

  /** The effects of a list of updates on a message, in order. */
  ghost function EffectsOn(t: Tables, arrivals: seq<Arrival>, mid: Id): seq<Effect> {
    if arrivals == [] then [] else EffectOn(t, arrivals[0], mid) + EffectsOn(t, arrivals[1..], mid)
  }

  /** An update leaves every later one the message it would have found. */
  lemma UpdateKeepsReach(t: Tables, first: Arrival, u: StatusUpdate, mid: Id)
    ensures Reaches(ApplyUpdate(t, first.update, first.now), u, mid) <==> Reaches(t, u, mid)
  {
    Interleaving.UpdateFrame(t, first.update, first.now);
    SameTargets(t, ApplyUpdate(t, first.update, first.now), u.waId);
  }

  lemma {:induction false} UpdateKeepsEffects(t: Tables, first: Arrival, arrivals: seq<Arrival>, mid: Id)
    ensures EffectsOn(ApplyUpdate(t, first.update, first.now), arrivals, mid) == EffectsOn(t, arrivals, mid)
  {
    if arrivals != [] {
      UpdateKeepsReach(t, first, arrivals[0].update, mid);
      UpdateKeepsEffects(t, first, arrivals[1..], mid);
    }
  }

  lemma UpdateRewritesRow(t: Tables, a: Arrival, mid: Id)
    requires mid in t.messages
    ensures var t' := ApplyUpdate(t, a.update, a.now);
            mid in t'.messages && t'.messages[mid] == Fold(t.messages[mid], EffectOn(t, a, mid))
  {
    Interleaving.UpdateFrame(t, a.update, a.now);
    if Reaches(t, a.update, mid) {
      var e := Parse(a.update, a.now).value;
      assert [e][1..] == [];
      assert Fold(t.messages[mid], [e]) == UpdateMessage(t.messages[mid], e);
    }
  }

  lemma {:induction false} FoldConcat(m: Message, a: seq<Effect>, b: seq<Effect>)
    ensures Fold(m, a + b) == Fold(Fold(m, a), b)
    decreases |a|
  {
    if a == [] {
      assert a + b == b;
    } else {
      assert (a + b)[1..] == a[1..] + b;
      FoldConcat(UpdateMessage(m, a[0]), a[1..], b);
    }
  }

  /** The row that a list of updates leaves in the table is the fold of the effects on it. */
  lemma {:induction false} RowIsFold(t: Tables, arrivals: seq<Arrival>, mid: Id)
    requires mid in t.messages
    ensures mid in ApplyAll(t, arrivals).messages
    ensures ApplyAll(t, arrivals).messages[mid] == Fold(t.messages[mid], EffectsOn(t, arrivals, mid))
    decreases |arrivals|
  {
    if arrivals != [] {
      var a, rest := arrivals[0], arrivals[1..];
      UpdateRewritesRow(t, a, mid);
      UpdateKeepsEffects(t, a, rest, mid);
      RowIsFold(ApplyUpdate(t, a.update, a.now), rest, mid);
      FoldConcat(t.messages[mid], EffectOn(t, a, mid), EffectsOn(t, rest, mid));
    }
  }

  /**
   Every column of the row that a list of updates leaves in the table, in closed form. Updates
   that are not recognised, do not parse or are for another message play no part.
   */
  lemma RowClosedForm(t: Tables, arrivals: seq<Arrival>, mid: Id)
    requires mid in t.messages
    ensures mid in ApplyAll(t, arrivals).messages
    ensures IsFoldOf(ApplyAll(t, arrivals).messages[mid], t.messages[mid], EffectsOn(t, arrivals, mid))
  {
    RowIsFold(t, arrivals, mid);
    FoldClosedForm(t.messages[mid], EffectsOn(t, arrivals, mid));
  }

  /** The same updates, at whatever clock readings. */
  ghost predicate SameUpdates(a: seq<Arrival>, b: seq<Arrival>) {
    |a| == |b| && forall i :: 0 <= i < |a| ==> a[i].update == b[i].update
  }

  lemma {:induction false} SameUpdatesSameEffects(t: Tables, a: seq<Arrival>, b: seq<Arrival>, mid: Id)
    requires SameUpdates(a, b)
    ensures SameButClock(EffectsOn(t, a, mid), EffectsOn(t, b, mid))
    decreases |a|
  {
    if a != [] {
      assert a[0].update == b[0].update;
      SameUpdatesSameEffects(t, a[1..], b[1..], mid);
    }
  }

  lemma {:induction false} UpdatesKeepEffects(t: Tables, first: seq<Arrival>, arrivals: seq<Arrival>, mid: Id)
    ensures EffectsOn(ApplyAll(t, first), arrivals, mid) == EffectsOn(t, arrivals, mid)
    decreases |first|
  {
    if first != [] {
      UpdateKeepsEffects(t, first[0], arrivals, mid);
      UpdatesKeepEffects(ApplyUpdate(t, first[0].update, first[0].now), first[1..], arrivals, mid);
    }
  }

  /** A whole list of updates that comes again, at other clock readings, leaves every message row as it was. */
  lemma ReplayLeavesRows(t: Tables, first: seq<Arrival>, replay: seq<Arrival>)
    requires SameUpdates(first, replay)
    ensures ApplyAll(ApplyAll(t, first), replay).messages == ApplyAll(t, first).messages
  {
    var once := ApplyAll(t, first);
    UpdatesKeepIds(t, first);
    UpdatesKeepIds(once, replay);
    forall mid | mid in once.messages ensures ApplyAll(once, replay).messages[mid] == once.messages[mid] {
      RowIsFold(t, first, mid);
      RowIsFold(once, replay, mid);
      UpdatesKeepEffects(t, first, replay, mid);
      SameUpdatesSameEffects(t, first, replay, mid);
      ReplayLeavesMessage(t.messages[mid], EffectsOn(t, first, mid), EffectsOn(t, replay, mid));
    }
  }

  // ------------------------------------------------------------ one recipient

  function Tos(effects: seq<Effect>): (r: seq<MessageStatus>)
    ensures |r| == |effects| && forall i :: 0 <= i < |r| ==> r[i] == effects[i].to
  {
    if effects == [] then [] else [effects[0].to] + Tos(effects[1..])
  }

  /** The statuses that a list of updates reports for a message. */
  ghost function StatusesOn(t: Tables, arrivals: seq<Arrival>, mid: Id): seq<MessageStatus> {
    Tos(EffectsOn(t, arrivals, mid))
  }

  /** Counted moves of a recipient that starts in `from` and receives these statuses. */
  function CountedMoves(from: RecipientStatus, tos: seq<MessageStatus>): nat
    decreases |tos|
  {
    if tos == [] then 0
    else One(from != Image(tos[0]) && IsCounted(Image(tos[0]))) + CountedMoves(Image(tos[0]), tos[1..])
  }

  predicate AllEqual(tos: seq<MessageStatus>) {
    forall i :: 0 <= i < |tos| ==> tos[i] == tos[0]
  }

  function LastOf(from: RecipientStatus, tos: seq<MessageStatus>): RecipientStatus {
    if tos == [] then from else Image(tos[|tos| - 1])
  }

  predicate Recognised(tos: seq<MessageStatus>) {
    forall i :: 0 <= i < |tos| ==> tos[i] != MessageStatus.Queued
  }

  /** A pass without a counted move repeats its starting status until it meets `sent`, and stays there. */
  lemma {:induction false} QuietPass(from: RecipientStatus, tos: seq<MessageStatus>)
    requires Recognised(tos) && CountedMoves(from, tos) == 0 && tos != []
    ensures Image(tos[|tos| - 1]) == from || tos[|tos| - 1] == MessageStatus.Sent
    ensures Image(tos[|tos| - 1]) == from ==> forall i :: 0 <= i < |tos| ==> Image(tos[i]) == from
    decreases |tos|
  {
    if |tos| > 1 {
      QuietPass(Image(tos[0]), tos[1..]);
      assert forall i :: 0 < i < |tos| ==> tos[i] == tos[1..][i - 1];
    }
  }

  lemma {:induction false} ConstantPass(from: RecipientStatus, tos: seq<MessageStatus>)
    requires forall i :: 0 <= i < |tos| ==> Image(tos[i]) == from
    ensures CountedMoves(from, tos) == 0
    decreases |tos|
  {
    if tos != [] { ConstantPass(from, tos[1..]); }
  }

  /** A second pass over the same statuses makes no counted move exactly when they are all the same status. */
  lemma SecondPass(from: RecipientStatus, tos: seq<MessageStatus>)
    requires Recognised(tos)
    ensures CountedMoves(LastOf(from, tos), tos) == 0 <==> AllEqual(tos)
  {
    if tos != [] {
      var last := Image(tos[|tos| - 1]);
      if CountedMoves(last, tos) == 0 {
        QuietPass(last, tos);
        assert forall i :: 0 <= i < |tos| ==> Image(tos[i]) == last;
      }
      if AllEqual(tos) { ConstantPass(last, tos); }
    }
  }

  // ------------------------------------------------------------ every campaign

  /** A message whose recipient counts for a campaign. */
  ghost predicate CountsIn(t: Tables, mid: Id, cid: Id) {
    && mid in t.messages && t.messages[mid].recipient.Some? && cid in t.campaigns
    && var rid := t.messages[mid].recipient.value;
       rid in t.recipients && t.recipients[rid].campaignId == cid
  }

  ghost function RecipientOf(t: Tables, mid: Id, cid: Id): Recipient
    requires CountsIn(t, mid, cid)
  {
    t.recipients[t.messages[mid].recipient.value]
  }

  /** The counted moves that a list of updates makes for a campaign through one message. */
  ghost function MovesOf(t: Tables, arrivals: seq<Arrival>, cid: Id, mid: Id): nat {
    if CountsIn(t, mid, cid) then CountedMoves(RecipientOf(t, mid, cid).status, StatusesOn(t, arrivals, mid)) else 0
  }

  /** Summed over the messages with ids below n. */
  ghost function MovesBelow(t: Tables, arrivals: seq<Arrival>, cid: Id, n: nat): nat {
    if n == 0 then 0 else MovesBelow(t, arrivals, cid, n - 1) + MovesOf(t, arrivals, cid, n - 1)
  }

  /** The message an arrival moves the counters of a campaign through, if any, and by how much. */
  ghost function MovesNow(t: Tables, a: Arrival, cid: Id, mid: Id): nat {
    if CountsIn(t, mid, cid) && Reaches(t, a.update, mid) then
      var to := Image(Parse(a.update, 0).value.to);
      One(RecipientOf(t, mid, cid).status != to && IsCounted(to))
    else 0
  }

  lemma StatusesStep(t: Tables, arrivals: seq<Arrival>, mid: Id)
    requires arrivals != []
    ensures var t', rest := ApplyUpdate(t, arrivals[0].update, arrivals[0].now), arrivals[1..];
            StatusesOn(t, arrivals, mid) ==
              if Reaches(t, arrivals[0].update, mid)
                  then [Parse(arrivals[0].update, 0).value.to] + StatusesOn(t', rest, mid)
              else StatusesOn(t', rest, mid)
  {
    UpdateKeepsEffects(t, arrivals[0], arrivals[1..], mid);
    var effects := EffectsOn(t, arrivals, mid);
    if Reaches(t, arrivals[0].update, mid) {
      assert effects[1..] == EffectsOn(t, arrivals[1..], mid);
    } else {
      assert effects == EffectsOn(t, arrivals[1..], mid);
    }
  }

  /** What one update does to the recipients behind the messages of a campaign. */
  lemma UpdateMovesRecipient(t: Tables, a: Arrival, cid: Id, mid: Id)
    requires Interleaving.OneMessageEach(t)
    ensures var t' := ApplyUpdate(t, a.update, a.now);
            && (CountsIn(t', mid, cid) <==> CountsIn(t, mid, cid))
            && (CountsIn(t, mid, cid) ==>
                  RecipientOf(t', mid, cid).status ==
                    if Reaches(t, a.update, mid) then Image(Parse(a.update, 0).value.to)
                        else RecipientOf(t, mid, cid).status)
  {
    ReceiveEffect(t, a.update, a.now);
    if Found(t, a.update) {
      ReceivedMovesRecipient(t, ApplyUpdate(t, a.update, a.now), Target(t, a.update.waId).value,
                             Parse(a.update, a.now).value, a.now, cid, mid);
    }
  }

  lemma ReceivedMovesRecipient(t: Tables, t': Tables, target: Id, e: Effect, now: Time, cid: Id, mid: Id)
    requires Interleaving.OneMessageEach(t) && UpdatedOnce(t, t', target, e, now)
    ensures CountsIn(t', mid, cid) <==> CountsIn(t, mid, cid)
    ensures CountsIn(t, mid, cid) ==>
              RecipientOf(t', mid, cid).status == if mid == target then Image(e.to) else RecipientOf(t, mid, cid).status
  {
    if target != mid && mid in t.messages {
      assert t.messages[mid].recipient.Some? ==> t.messages[mid].recipient != t.messages[target].recipient;
    }
  }

  lemma MovesStep(t: Tables, arrivals: seq<Arrival>, cid: Id, mid: Id)
    requires Interleaving.OneMessageEach(t) && arrivals != []
    ensures MovesOf(t, arrivals, cid, mid) ==
            MovesNow(t, arrivals[0], cid, mid)
            + MovesOf(ApplyUpdate(t, arrivals[0].update, arrivals[0].now), arrivals[1..], cid, mid)
  {
    StatusesStep(t, arrivals, mid);
    UpdateMovesRecipient(t, arrivals[0], cid, mid);
    if Reaches(t, arrivals[0].update, mid) {
      var to := Parse(arrivals[0].update, 0).value.to;
      assert StatusesOn(t, arrivals, mid)[1..] ==
          StatusesOn(ApplyUpdate(t, arrivals[0].update, arrivals[0].now), arrivals[1..], mid);
    }
  }

  /** The moves an arrival makes, over all messages below n: at most one of them moves. */
  lemma {:induction false} MovesBelowStep(t: Tables, arrivals: seq<Arrival>, cid: Id, n: nat)
    requires Interleaving.OneMessageEach(t) && arrivals != []
    ensures var target := Target(t, arrivals[0].update.waId);
            MovesBelow(t, arrivals, cid, n) ==
            MovesBelow(ApplyUpdate(t, arrivals[0].update, arrivals[0].now), arrivals[1..], cid, n)
            + if target.Some? && target.value < n then MovesNow(t, arrivals[0], cid, target.value) else 0
  {
    if n > 0 {
      MovesBelowStep(t, arrivals, cid, n - 1);
      MovesStep(t, arrivals, cid, n - 1);
    }
  }

  lemma UpdateCounts(t: Tables, a: Arrival, cid: Id)
    ensures var target := Target(t, a.update.waId);
            CountedSum(ApplyUpdate(t, a.update, a.now), cid) ==
            CountedSum(t, cid) + if target.Some? then MovesNow(t, a, cid, target.value) else 0
  {
    ReceiveEffect(t, a.update, a.now);
    if Found(t, a.update) {
      ReceivedCounts(t, ApplyUpdate(t, a.update, a.now), Target(t, a.update.waId).value, Parse(a.update, a.now).value,
                     a.now, cid);
    }
  }

  lemma ReceivedCounts(t: Tables, t': Tables, mid: Id, e: Effect, now: Time, cid: Id)
    requires UpdatedOnce(t, t', mid, e, now)
    ensures CountedSum(t', cid) == CountedSum(t, cid)
            + if CountsIn(t, mid, cid)
              then One(RecipientOf(t, mid, cid).status != Image(e.to) && IsCounted(Image(e.to))) else 0
  {
  }

  lemma UpdateKeepsNext(t: Tables, a: Arrival)
    requires MessagesBelowNext(t)
    ensures ApplyUpdate(t, a.update, a.now).nextId == t.nextId && MessagesBelowNext(ApplyUpdate(t, a.update, a.now))
  {
    Interleaving.UpdateFrame(t, a.update, a.now);
  }

  ghost predicate MessagesBelowNext(t: Tables) {
    forall id :: id in t.messages ==> id < t.nextId
  }

  /** A list of updates moves a campaign's counters by the counted moves of each of its messages' own streams. */
  lemma {:induction false} PassCounts(t: Tables, arrivals: seq<Arrival>, cid: Id)
    requires Interleaving.OneMessageEach(t) && MessagesBelowNext(t)
    ensures CountedSum(ApplyAll(t, arrivals), cid) == CountedSum(t, cid) + MovesBelow(t, arrivals, cid, t.nextId)
    decreases |arrivals|
  {
    if arrivals == [] {
      NoMoves(t, cid, t.nextId);
    } else {
      var t' := ApplyUpdate(t, arrivals[0].update, arrivals[0].now);
      UpdateCounts(t, arrivals[0], cid);
      UpdateKeepsNext(t, arrivals[0]);
      Interleaving.UpdateKeepsOneMessageEach(t, arrivals[0].update, arrivals[0].now);
      MovesBelowStep(t, arrivals, cid, t.nextId);
      PassCounts(t', arrivals[1..], cid);
    }
  }

  lemma {:induction false} NoMoves(t: Tables, cid: Id, n: nat)
    ensures MovesBelow(t, [], cid, n) == 0
  {
    if n > 0 { NoMoves(t, cid, n - 1); }
  }

  lemma {:induction false} NoMovesIff(t: Tables, arrivals: seq<Arrival>, cid: Id, n: nat)
    ensures MovesBelow(t, arrivals, cid, n) == 0 <==> forall mid: Id :: mid < n ==> MovesOf(t, arrivals, cid, mid) == 0
  {
    if n > 0 { NoMovesIff(t, arrivals, cid, n - 1); }
  }

  /** Where a list of updates leaves the recipient behind a message: at the last status reported for it. */
  lemma {:induction false} PassMovesRecipient(t: Tables, arrivals: seq<Arrival>, cid: Id, mid: Id)
    requires Interleaving.OneMessageEach(t)
    ensures var t' := ApplyAll(t, arrivals);
            && (CountsIn(t', mid, cid) <==> CountsIn(t, mid, cid))
            && (CountsIn(t, mid, cid) ==>
                  RecipientOf(t', mid, cid).status ==
                      LastOf(RecipientOf(t, mid, cid).status, StatusesOn(t, arrivals, mid)))
    decreases |arrivals|
  {
    if arrivals != [] {
      Interleaving.UpdateKeepsOneMessageEach(t, arrivals[0].update, arrivals[0].now);
      UpdateMovesRecipient(t, arrivals[0], cid, mid);
      StatusesStep(t, arrivals, mid);
      PassMovesRecipient(ApplyUpdate(t, arrivals[0].update, arrivals[0].now), arrivals[1..], cid, mid);
    }
  }

  // ------------------------------------------------------------ a second pass

  /** Nothing has changed but for new messages, which belong to no recipient. */
  ghost predicate OnlyNewMessages(t: Tables, t': Tables) {
    && t'.tenants == t.tenants && t'.campaigns == t.campaigns && t'.recipients == t.recipients
    && (forall id :: id in t.messages ==> id in t'.messages && t'.messages[id] == t.messages[id])
    && (forall id :: id in t'.messages && id !in t.messages ==> t'.messages[id].recipient.None?)
  }

  /** The counted moves of a message's recipient when a second list of updates follows a first. */
  ghost function MovesAgain(t: Tables, first: seq<Arrival>, t1: Tables, second: seq<Arrival>, cid: Id, mid: Id): nat
    requires CountsIn(t, mid, cid)
  {
    CountedMoves(LastOf(RecipientOf(t, mid, cid).status, StatusesOn(t, first, mid)), StatusesOn(t1, second, mid))
  }

  lemma AgainIsMoves(t: Tables, first: seq<Arrival>, t1: Tables, second: seq<Arrival>, cid: Id, mid: Id)
    requires Interleaving.OneMessageEach(t) && OnlyNewMessages(ApplyAll(t, first), t1)
    ensures MovesOf(t1, second, cid, mid) == if CountsIn(t, mid, cid) then MovesAgain(t, first, t1, second, cid, mid)
        else 0
  {
    PassMovesRecipient(t, first, cid, mid);
  }

  /** A second list of updates leaves a campaign's counters alone exactly when none of its messages moves again. */
  lemma SecondListCounts(t: Tables, first: seq<Arrival>, t1: Tables, second: seq<Arrival>, cid: Id)
    requires Inv(t) && Inv(t1) && OnlyNewMessages(ApplyAll(t, first), t1)
    ensures CountedSum(ApplyAll(t1, second), cid) >= CountedSum(t1, cid)
    ensures CountedSum(ApplyAll(t1, second), cid) == CountedSum(t1, cid) <==>
            forall mid: Id :: CountsIn(t, mid, cid) ==> MovesAgain(t, first, t1, second, cid, mid) == 0
  {
    Interleaving.AgreementGivesOneMessageEach(t);
    Interleaving.AgreementGivesOneMessageEach(t1);
    PassCounts(t1, second, cid);
    NoMovesIff(t1, second, cid, t1.nextId);
    UpdatesKeepIds(t, first);
    forall mid: Id
      ensures MovesOf(t1, second, cid, mid) == if CountsIn(t, mid, cid)
          then MovesAgain(t, first, t1, second, cid, mid) else 0
      ensures CountsIn(t, mid, cid) ==> mid < t1.nextId
    {
      AgainIsMoves(t, first, t1, second, cid, mid);
    }
  }

  lemma RecognisedStatuses(t: Tables, arrivals: seq<Arrival>, mid: Id)
    ensures Recognised(StatusesOn(t, arrivals, mid))
  {
    EffectsAreRecognised(t, arrivals, mid);
  }

  lemma {:induction false} EffectsAreRecognised(t: Tables, arrivals: seq<Arrival>, mid: Id)
    ensures forall i :: 0 <= i < |EffectsOn(t, arrivals, mid)| ==>
        EffectsOn(t, arrivals, mid)[i].to != MessageStatus.Queued
  {
    if arrivals != [] { EffectsAreRecognised(t, arrivals[1..], mid); }
  }

  /** A message whose stream carries one status throughout, or nothing. */
  ghost predicate Steady(t: Tables, arrivals: seq<Arrival>, mid: Id) {
    AllEqual(StatusesOn(t, arrivals, mid))
  }

  lemma SameAgainIffSteady(t: Tables, first: seq<Arrival>, t1: Tables, second: seq<Arrival>, cid: Id, mid: Id)
    requires CountsIn(t, mid, cid) && StatusesOn(t1, second, mid) == StatusesOn(t, first, mid)
    ensures MovesAgain(t, first, t1, second, cid, mid) == 0 <==> Steady(t, first, mid)
  {
    RecognisedStatuses(t, first, mid);
    SecondPass(RecipientOf(t, mid, cid).status, StatusesOn(t, first, mid));
  }

  lemma SameUpdatesSameStatuses(t: Tables, a: seq<Arrival>, b: seq<Arrival>, mid: Id)
    requires SameUpdates(a, b)
    ensures StatusesOn(t, a, mid) == StatusesOn(t, b, mid)
  {
    SameUpdatesSameEffects(t, a, b, mid);
    var ea, eb := EffectsOn(t, a, mid), EffectsOn(t, b, mid);
    forall i | 0 <= i < |ea| ensures ea[i].to == eb[i].to {
      assert ea[i].(when := Clock(0)) == eb[i].(when := Clock(0));
    }
  }

  /**
   Any list of updates that comes a second time, at later clock readings, leaves the counters of
   each campaign alone exactly when every message of the campaign has one status throughout its
   own part of the list; otherwise it inflates them.
   */
  lemma ReplayInflatesUnlessSteady(t: Tables, first: seq<Arrival>, replay: seq<Arrival>, cid: Id)
    requires Inv(t) && SameUpdates(first, replay)
    ensures var once := ApplyAll(t, first);
            && CountedSum(ApplyAll(once, replay), cid) >= CountedSum(once, cid)
            && (CountedSum(ApplyAll(once, replay), cid) == CountedSum(once, cid) <==>
                forall mid: Id :: CountsIn(t, mid, cid) ==> Steady(t, first, mid))
  {
    var once := ApplyAll(t, first);
    UpdatesAreSteps(t, first);
    RunKeepsInv(t, UpdateSteps(first));
    SecondListCounts(t, first, once, replay, cid);
    forall mid: Id | CountsIn(t, mid, cid)
      ensures MovesAgain(t, first, once, replay, cid, mid) == 0 <==> Steady(t, first, mid)
    {
      UpdatesKeepEffects(t, first, replay, mid);
      SameUpdatesSameStatuses(t, first, replay, mid);
      SameAgainIffSteady(t, first, once, replay, cid, mid);
    }
  }

  // ------------------------------------------------------------ an event that comes again

  /** What one delivery carries out, up to the event's own row. */
  ghost function CarriedOut(t: Tables, done: seq<Action>, fallback: Option<Id>, now: Time): Tables {
    SaveAll(ApplyAll(t, Arrivals(done, now)), done, fallback)
  }

  lemma SaveFrame(t: Tables, tenantId: Option<Id>, displayPhone: string, m: InboundMessage)
    requires MessagesBelowNext(t)
    ensures var t' := SaveInbound(t, tenantId, displayPhone, m); MessagesBelowNext(t') && OnlyNewMessages(t, t')
  {
  }

  lemma {:induction false} SavesFrame(t: Tables, actions: seq<Action>, fallback: Option<Id>)
    requires MessagesBelowNext(t)
    ensures OnlyNewMessages(t, SaveAll(t, actions, fallback))
    decreases |actions|
  {
    if actions != [] {
      var a := actions[0];
      if a.Save? {
        var tenantId := ResolveTenant(t.tenants, a.phoneNumberId, fallback);
        SaveFrame(t, tenantId, a.displayPhone, a.inbound);
        SavesFrame(SaveInbound(t, tenantId, a.displayPhone, a.inbound), actions[1..], fallback);
      } else {
        SavesFrame(t, actions[1..], fallback);
      }
    }
  }

  lemma {:induction false} SavesKeepCampaigns(t: Tables, actions: seq<Action>, fallback: Option<Id>)
    ensures SaveAll(t, actions, fallback).campaigns == t.campaigns
    decreases |actions|
  {
    if actions != [] {
      var a := actions[0];
      SavesKeepCampaigns(AfterSave(t, a, fallback), actions[1..], fallback);
    }
  }

  /** The messages a state had before are all there, with their ids, and the new ones belong to no recipient. */
  ghost predicate KeepsIds(t: Tables, t': Tables) {
    forall id :: id in t.messages ==> id in t'.messages && t'.messages[id].waId == t.messages[id].waId
  }

  /** An update that raised before raises again, and one that does not raise again finds the same old message. */
  lemma RaisesAgain(t: Tables, t': Tables, u: StatusUpdate)
    requires KeepsIds(t, t') && UpdateRaises(t, u)
    ensures UpdateRaises(t', u)
  {
    if Ambiguous(t, u.waId) {
      var a: Id, b: Id :| CarriesId(t, u.waId, a) && CarriesId(t, u.waId, b) && a != b;
      assert CarriesId(t', u.waId, a) && CarriesId(t', u.waId, b);
    } else {
      var mid := Target(t, u.waId).value;
      assert CarriesId(t', u.waId, mid);
      if !Ambiguous(t', u.waId) { assert OnlyMatch(t', u.waId, mid); }
    }
  }

  lemma ReachesAgain(t: Tables, t': Tables, u: StatusUpdate, mid: Id)
    requires KeepsIds(t, t') && mid in t.messages && !UpdateRaises(t', u)
    ensures Reaches(t', u, mid) <==> Reaches(t, u, mid)
  {
    assert CarriesId(t', u.waId, mid) <==> CarriesId(t, u.waId, mid);
    if Reaches(t, u, mid) {
      assert CarriesId(t', u.waId, mid);
      assert OnlyMatch(t', u.waId, mid);
    }
    if Reaches(t', u, mid) {
      forall other | CarriesId(t, u.waId, other) ensures other == mid { assert CarriesId(t', u.waId, other); }
      assert OnlyMatch(t, u.waId, mid);
    }
  }

  /** The actions that a later delivery carries out are a first part of those the first one did. */
  lemma {:induction false} BeforeRaiseAgain(t: Tables, t': Tables, actions: seq<Action>)
    requires KeepsIds(t, t') && t'.tenants == t.tenants
    ensures BeforeRaise(t', actions) <= BeforeRaise(t, actions)
  {
    if actions != [] {
      if actions[0].Update? && UpdateRaises(t, actions[0].update) { RaisesAgain(t, t', actions[0].update); }
      BeforeRaiseAgain(t, t', actions[1..]);
    }
  }

  lemma {:induction false} NothingDoneRaises(t: Tables, actions: seq<Action>)
    ensures NoneRaises(t, BeforeRaise(t, actions))
  {
    if actions != [] && !ActionRaises(t, actions[0]) {
      NothingDoneRaises(t, actions[1..]);
      var rest := BeforeRaise(t, actions[1..]);
      assert forall i :: 0 < i < |[actions[0]] + rest| ==> ([actions[0]] + rest)[i] == rest[i - 1];
    }
  }

  /** Updates that do not raise at the later delivery report to an old message what they reported before. */
  lemma {:induction false} StatusesAgain(t: Tables, t': Tables, again: seq<Action>, now: Time, later: Time, mid: Id)
    requires KeepsIds(t, t') && mid in t.messages && NoneRaises(t', again)
    ensures StatusesOn(t', Arrivals(again, later), mid) == StatusesOn(t, Arrivals(again, now), mid)
    decreases |again|
  {
    if again != [] {
      var a, rest := again[0], again[1..];
      assert !ActionRaises(t', a);
      assert forall i :: 0 <= i < |rest| ==> rest[i] == again[i + 1];
      StatusesAgain(t, t', rest, now, later, mid);
      if a.Update? {
        ReachesAgain(t, t', a.update, mid);
        assert Arrivals(again, now) == [Arrival(a.update, now)] + Arrivals(rest, now);
        assert Arrivals(again, later) == [Arrival(a.update, later)] + Arrivals(rest, later);
        StatusesCons(t, Arrival(a.update, now), Arrivals(rest, now), mid);
        StatusesCons(t', Arrival(a.update, later), Arrivals(rest, later), mid);
      } else {
        assert Arrivals(again, now) == Arrivals(rest, now) && Arrivals(again, later) == Arrivals(rest, later);
      }
    }
  }

  lemma StatusesCons(t: Tables, a: Arrival, arrivals: seq<Arrival>, mid: Id)
    ensures StatusesOn(t, [a] + arrivals, mid) ==
            (if Reaches(t, a.update, mid) then [Parse(a.update, 0).value.to] else []) + StatusesOn(t, arrivals, mid)
  {
    assert ([a] + arrivals)[1..] == arrivals;
    var effects := EffectsOn(t, [a] + arrivals, mid);
    if Reaches(t, a.update, mid) {
      assert effects[1..] == EffectsOn(t, arrivals, mid);
    } else {
      assert effects == EffectsOn(t, arrivals, mid);
    }
  }

  /** None of the actions saves an inbound message under the id of one of the status updates. */
  predicate IdsApart(actions: seq<Action>) {
    forall i :: 0 <= i < |actions| && actions[i].Update? ==> NeverSaved(actions, actions[i].update.waId)
  }

  predicate NeverSaved(actions: seq<Action>, waId: string) {
    forall i :: 0 <= i < |actions| && actions[i].Save? ==> actions[i].inbound.waId != Some(waId)
  }

  lemma {:induction false} SavesKeepCarriers(t: Tables, actions: seq<Action>, fallback: Option<Id>, waId: string)
    requires MessagesBelowNext(t) && NeverSaved(actions, waId)
    ensures SameCarriers(t, SaveAll(t, actions, fallback), waId)
    decreases |actions|
  {
    if actions != [] {
      var a, rest := actions[0], actions[1..];
      assert forall i :: 0 <= i < |rest| ==> rest[i] == actions[i + 1];
      if a.Save? {
        var tenantId := ResolveTenant(t.tenants, a.phoneNumberId, fallback);
        SaveFrame(t, tenantId, a.displayPhone, a.inbound);
        SavesKeepCarriers(SaveInbound(t, tenantId, a.displayPhone, a.inbound), rest, fallback, waId);
      } else {
        SavesKeepCarriers(t, rest, fallback, waId);
      }
    }
  }

  lemma {:induction false} BeforeRaiseSame(t: Tables, t': Tables, actions: seq<Action>)
    requires KeepsIds(t, t') && t'.tenants == t.tenants && NoneRaises(t', BeforeRaise(t, actions))
    ensures BeforeRaise(t', actions) == BeforeRaise(t, actions)
  {
    if actions != [] {
      if ActionRaises(t, actions[0]) {
        if actions[0].Update? { RaisesAgain(t, t', actions[0].update); }
      } else {
        var done := BeforeRaise(t, actions);
        assert done[0] == actions[0] && done[1..] == BeforeRaise(t, actions[1..]);
        assert forall i :: 0 <= i < |done[1..]| ==> done[1..][i] == done[i + 1];
        BeforeRaiseSame(t, t', actions[1..]);
      }
    }
  }

  /** The same rows in every table but the events: what the endpoint leaves when it stores another copy of an event. */
  predicate SameRows(t: Tables, t': Tables) {
    t'.tenants == t.tenants && t'.campaigns == t.campaigns && t'.recipients == t.recipients && t'.messages == t.messages
  }

  lemma CarriedOutFrame(t: Tables, done: seq<Action>, fallback: Option<Id>, now: Time)
    requires MessagesBelowNext(t)
    ensures var t' := CarriedOut(t, done, fallback, now);
            && OnlyNewMessages(ApplyAll(t, Arrivals(done, now)), t') && KeepsIds(t, t') && t'.tenants == t.tenants
  {
    UpdatesKeepIds(t, Arrivals(done, now));
    UpdatesAreSteps(t, Arrivals(done, now));
    SavesFrame(ApplyAll(t, Arrivals(done, now)), done, fallback);
  }

  lemma NothingRaisesAgain(t: Tables, actions: seq<Action>, fallback: Option<Id>, now: Time, t2: Tables)
    requires MessagesBelowNext(t)
    requires IdsApart(BeforeRaise(t, actions)) && SameRows(CarriedOut(t, BeforeRaise(t, actions), fallback, now), t2)
    ensures BeforeRaise(t2, actions) == BeforeRaise(t, actions)
  {
    var done := BeforeRaise(t, actions);
    var t1 := ApplyAll(t, Arrivals(done, now));
    CarriedOutFrame(t, done, fallback, now);
    NothingDoneRaises(t, actions);
    UpdatesKeepIds(t, Arrivals(done, now));
    forall i | 0 <= i < |done| ensures !ActionRaises(t2, done[i]) {
      assert !ActionRaises(t, done[i]);
      if done[i].Update? {
        var waId := done[i].update.waId;
        SavesKeepCarriers(t1, done, fallback, waId);
        assert SameCarriers(t, t2, waId) by {
          assert SameCarriers(t, t1, waId);
          assert SameCarriers(t1, CarriedOut(t, done, fallback, now), waId);
          assert SameCarriers(CarriedOut(t, done, fallback, now), t2, waId);
        }
        SameCarriersSameTarget(t, t2, waId);
      }
    }
    BeforeRaiseSame(t, t2, actions);
  }

  /** The counters once some actions are carried out that a first delivery carried out before. */
  lemma CarriedOutAgainCounts(t: Tables, actions: seq<Action>, fallback: Option<Id>, now: Time, t2: Tables,
                              other: Option<Id>, later: Time, cid: Id)
    requires Inv(t) && Inv(t2) && SameRows(CarriedOut(t, BeforeRaise(t, actions), fallback, now), t2)
    ensures var first, again := Arrivals(BeforeRaise(t, actions), now), BeforeRaise(t2, actions);
            var t3 := CarriedOut(t2, again, other, later);
            && again <= BeforeRaise(t, actions)
            && CountedSum(t3, cid) >= CountedSum(t2, cid)
            && (CountedSum(t3, cid) == CountedSum(t2, cid) <==>
                forall mid: Id :: CountsIn(t, mid, cid) ==>
                    MovesAgain(t, first, t, Arrivals(again, now), cid, mid) == 0)
  {
    var done, again := BeforeRaise(t, actions), BeforeRaise(t2, actions);
    var first, second := Arrivals(done, now), Arrivals(again, later);
    AfterFirstDelivery(t, actions, fallback, now, t2);
    SecondListCounts(t, first, t2, second, cid);
    SavesKeepCampaigns(ApplyAll(t2, second), again, other);
    NothingDoneRaises(t2, actions);
    SameMovesAgain(t, first, t2, again, now, later, cid);
  }

  lemma AfterFirstDelivery(t: Tables, actions: seq<Action>, fallback: Option<Id>, now: Time, t2: Tables)
    requires MessagesBelowNext(t) && SameRows(CarriedOut(t, BeforeRaise(t, actions), fallback, now), t2)
    ensures KeepsIds(t, t2) && OnlyNewMessages(ApplyAll(t, Arrivals(BeforeRaise(t, actions), now)), t2)
    ensures BeforeRaise(t2, actions) <= BeforeRaise(t, actions)
  {
    CarriedOutFrame(t, BeforeRaise(t, actions), fallback, now);
    BeforeRaiseAgain(t, t2, actions);
  }

  lemma SameMovesAgain(t: Tables, first: seq<Arrival>, t2: Tables, again: seq<Action>, now: Time, later: Time, cid: Id)
    requires KeepsIds(t, t2) && NoneRaises(t2, again)
    ensures forall mid: Id :: CountsIn(t, mid, cid) ==>
              MovesAgain(t, first, t2, Arrivals(again, later), cid, mid) ==
                  MovesAgain(t, first, t, Arrivals(again, now), cid, mid)
  {
    forall mid: Id | CountsIn(t, mid, cid)
      ensures MovesAgain(t, first, t2, Arrivals(again, later), cid, mid) ==
          MovesAgain(t, first, t, Arrivals(again, now), cid, mid)
    {
      StatusesAgain(t, t2, again, now, later, mid);
    }
  }

  /** What every delivery of an event has in common, whichever stored row carries it. */
  lemma DeliveryIsCarriedOut(t: Tables, eid: Id, now: Time)
    requires eid in t.events && !t.events[eid].processed
    ensures SameRows(CarriedOut(t, BeforeRaise(t, EventActions(t.events[eid].entries)), t.events[eid].tenantId, now),
                     ProcessEvent(t, eid, now))
  {
  }

  /**
   Any delivery, at any time: it never lowers a campaign's counters, and leaves them alone exactly when, for each
   message of the campaign, the statuses it reports start no counted move from where the message's recipient stands.
   */
  lemma DeliveryCountsIff(t: Tables, eid: Id, now: Time, cid: Id)
    requires Inv(t) && eid in t.events && !t.events[eid].processed
    ensures var arrivals := Arrivals(BeforeRaise(t, EventActions(t.events[eid].entries)), now);
            var t' := ProcessEvent(t, eid, now);
            && CountedSum(t', cid) >= CountedSum(t, cid)
            && (CountedSum(t', cid) == CountedSum(t, cid) <==>
                forall mid: Id :: CountsIn(t, mid, cid) ==>
                  CountedMoves(RecipientOf(t, mid, cid).status, StatusesOn(t, arrivals, mid)) == 0)
  {
    var done := BeforeRaise(t, EventActions(t.events[eid].entries));
    var arrivals := Arrivals(done, now);
    Interleaving.AgreementGivesOneMessageEach(t);
    PassCounts(t, arrivals, cid);
    NoMovesIff(t, arrivals, cid, t.nextId);
    SavesKeepCampaigns(ApplyAll(t, arrivals), done, t.events[eid].tenantId);
    MovesBelowNext(t, arrivals, cid);
  }

  lemma MovesBelowNext(t: Tables, arrivals: seq<Arrival>, cid: Id)
    requires MessagesBelowNext(t)
    ensures (forall mid: Id :: mid < t.nextId ==> MovesOf(t, arrivals, cid, mid) == 0) <==>
            forall mid: Id :: CountsIn(t, mid, cid) ==>
              CountedMoves(RecipientOf(t, mid, cid).status, StatusesOn(t, arrivals, mid)) == 0
  {
    forall mid: Id | CountsIn(t, mid, cid)
      ensures mid < t.nextId
              && MovesOf(t, arrivals, cid, mid)
                 == CountedMoves(RecipientOf(t, mid, cid).status, StatusesOn(t, arrivals, mid))
    {
    }
  }

  /**
   What the second of two deliveries of a payload does, when nothing but the storing of events comes in between.
   It carries out a first part of what the first one did, all of it when no inbound message has the id of a status
   update. It leaves a campaign's counters alone exactly when, for each message of the campaign, the statuses that
   come again start no new counted move; when everything comes again, exactly when each message was reported one
   status throughout.
   */
  ghost predicate CountsAgain(t: Tables, actions: seq<Action>, now: Time, t2: Tables, t3: Tables, cid: Id) {
    var done, again := BeforeRaise(t, actions), BeforeRaise(t2, actions);
    && again <= done && (IdsApart(done) ==> again == done)
    && CountedSum(t3, cid) >= CountedSum(t2, cid)
    && (CountedSum(t3, cid) == CountedSum(t2, cid) <==>
        forall mid: Id :: CountsIn(t, mid, cid) ==>
          MovesAgain(t, Arrivals(done, now), t, Arrivals(again, now), cid, mid) == 0)
    && (IdsApart(done) ==>
        (CountedSum(t3, cid) == CountedSum(t2, cid) <==>
         forall mid: Id :: CountsIn(t, mid, cid) ==> Steady(t, Arrivals(done, now), mid)))
  }

  /** The same payload delivered twice, whatever became of the first delivery. */
  lemma SecondDelivery(t: Tables, eid: Id, now: Time, t2: Tables, copy: Id, later: Time, cid: Id)
    requires Inv(t) && Inv(t2) && eid in t.events && !t.events[eid].processed
    requires SameRows(ProcessEvent(t, eid, now), t2)
    requires copy in t2.events && !t2.events[copy].processed && t2.events[copy].entries == t.events[eid].entries
    ensures CountsAgain(t, EventActions(t.events[eid].entries), now, t2, ProcessEvent(t2, copy, later), cid)
    ensures var again := BeforeRaise(t2, EventActions(t.events[eid].entries));
            SameRows(CarriedOut(t2, again, t2.events[copy].tenantId, later), ProcessEvent(t2, copy, later))
  {
    var actions := EventActions(t.events[eid].entries);
    var done, again := BeforeRaise(t, actions), BeforeRaise(t2, actions);
    var fallback, other := t.events[eid].tenantId, t2.events[copy].tenantId;
    DeliveryIsCarriedOut(t, eid, now);
    DeliveryIsCarriedOut(t2, copy, later);
    CarriedOutAgainCounts(t, actions, fallback, now, t2, other, later, cid);
    if IdsApart(done) {
      NothingRaisesAgain(t, actions, fallback, now, t2);
      SteadyIffNothingAgain(t, Arrivals(done, now), cid);
    }
  }

  lemma SteadyIffNothingAgain(t: Tables, arrivals: seq<Arrival>, cid: Id)
    ensures forall mid: Id :: CountsIn(t, mid, cid) ==>
              (MovesAgain(t, arrivals, t, arrivals, cid, mid) == 0 <==> Steady(t, arrivals, mid))
  {
    forall mid: Id | CountsIn(t, mid, cid)
      ensures MovesAgain(t, arrivals, t, arrivals, cid, mid) == 0 <==> Steady(t, arrivals, mid)
    {
      SameAgainIffSteady(t, arrivals, t, arrivals, cid, mid);
    }
  }

  /** An event that aborted, delivered again. */
  lemma AbortedEventInflates(t: Tables, eid: Id, now: Time, later: Time, cid: Id)
    requires Inv(t) && eid in t.events && !t.events[eid].processed
    requires !NoneRaises(t, EventActions(t.events[eid].entries))
    ensures var t' := ProcessEvent(t, eid, now);
            CountsAgain(t, EventActions(t.events[eid].entries), now, t', ProcessEvent(t', eid, later), cid)
  {
    ProcessedOnce(t, eid, now, later);
    EventKeepsInv(t, eid, now);
    SecondDelivery(t, eid, now, ProcessEvent(t, eid, now), eid, later, cid);
  }

  lemma StoredCopy(t: Tables, tenant: Option<Id>, entries: seq<seq<Change>>)
    requires Inv(t)
    ensures var t2 := StoreEvent(t, tenant, entries);
            && Inv(t2) && SameRows(t, t2) && t.nextId in t2.events && t2.events[t.nextId].entries == entries
            && !t2.events[t.nextId].processed
  {
    StepKeepsInv(t, Store(tenant, entries));
    assert StoreEvent(t, tenant, entries) == Apply(t, Store(tenant, entries));
  }

  /**
   An event of which Meta delivers a second copy: the endpoint stores it as a new row, so that the
   first row's mark does not keep it from being processed.
   */
  lemma SecondCopyInflates(t: Tables, eid: Id, now: Time, later: Time, cid: Id)
    requires Inv(t) && eid in t.events && !t.events[eid].processed
    ensures var t' := ProcessEvent(t, eid, now);
            var t2 := StoreEvent(t', t.events[eid].tenantId, t.events[eid].entries);
            CountsAgain(t, EventActions(t.events[eid].entries), now, t2, ProcessEvent(t2, t'.nextId, later), cid)
  {
    var e, t' := t.events[eid], ProcessEvent(t, eid, now);
    EventKeepsInv(t, eid, now);
    StoredCopy(t', e.tenantId, e.entries);
    SecondDelivery(t, eid, now, StoreEvent(t', e.tenantId, e.entries), t'.nextId, later, cid);
  }
}

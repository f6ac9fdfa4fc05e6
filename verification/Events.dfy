/**
 Webhook events: one transaction each, delivered at least once.
 */
module Events {
  import opened Wrappers
  import opened Rows
  import opened Delivery
  import opened Agreement
  import Interleaving

  // ------------------------------------------------------------ an event is a run

  function UpdateSteps(arrivals: seq<Arrival>): seq<Step> {
    if arrivals == [] then [] else [Receive(arrivals[0].update, arrivals[0].now)] + UpdateSteps(arrivals[1..])
  }

  ghost function SaveSteps(tenants: map<Id, Tenant>, actions: seq<Action>, fallback: Option<Id>): seq<Step> {
    if actions == [] then []
    else
      var a := actions[0];
      (if a.Save? then [Inbound(ResolveTenant(tenants, a.phoneNumberId, fallback), a.displayPhone, a.inbound)] else [])
      + SaveSteps(tenants, actions[1..], fallback)
  }

  function RelabelSteps(actions: seq<Action>, tenant: Option<Id>): seq<Step> {
    if actions == [] then []
    else (if actions[0].Retemplate? then [Relabel(actions[0].change, tenant)] else [])
         + RelabelSteps(actions[1..], tenant)
  }

  ghost function EventSteps(t: Tables, eid: Id, now: Time): seq<Step> {
    if eid !in t.events || t.events[eid].processed then []
    else
      var e := t.events[eid];
      var actions := EventActions(e.entries);
      var done := BeforeRaise(t, actions);
      UpdateSteps(Arrivals(done, now)) + SaveSteps(t.tenants, done, e.tenantId) + RelabelSteps(done, e.tenantId)
      + [Close(eid, |done| == |actions|, now)]
  }

  lemma {:induction false} RunConcat(t: Tables, a: seq<Step>, b: seq<Step>)
    ensures Run(t, a + b) == Run(Run(t, a), b)
    decreases |a|
  {
    if a == [] {
      assert a + b == b;
    } else {
      assert (a + b)[1..] == a[1..] + b;
      RunConcat(Apply(t, a[0]), a[1..], b);
    }
  }

  lemma {:induction false} UpdatesAreSteps(t: Tables, arrivals: seq<Arrival>)
    ensures ApplyAll(t, arrivals) == Run(t, UpdateSteps(arrivals))
    ensures ApplyAll(t, arrivals).tenants == t.tenants && ApplyAll(t, arrivals).events == t.events
    ensures ApplyAll(t, arrivals).templates == t.templates
    decreases |arrivals|
  {
    if arrivals != [] {
      assert UpdateSteps(arrivals)[1..] == UpdateSteps(arrivals[1..]);
      UpdatesAreSteps(ApplyUpdate(t, arrivals[0].update, arrivals[0].now), arrivals[1..]);
    }
  }

  lemma {:induction false} SavesAreSteps(t: Tables, actions: seq<Action>, fallback: Option<Id>)
    ensures SaveAll(t, actions, fallback) == Run(t, SaveSteps(t.tenants, actions, fallback))
    decreases |actions|
  {
    if actions != [] {
      var a, rest := actions[0], actions[1..];
      if a.Save? {
        var tenant := ResolveTenant(t.tenants, a.phoneNumberId, fallback);
        var t' := SaveInbound(t, tenant, a.displayPhone, a.inbound);
        assert t'.tenants == t.tenants;
        SavesAreSteps(t', rest, fallback);
        var steps := SaveSteps(t.tenants, actions, fallback);
        assert steps[0] == Inbound(tenant, a.displayPhone, a.inbound)
               && steps[1..] == SaveSteps(t.tenants, rest, fallback);
      } else {
        SavesAreSteps(t, rest, fallback);
        assert SaveSteps(t.tenants, actions, fallback) == SaveSteps(t.tenants, rest, fallback);
      }
    }
  }

  lemma {:induction false} RelabelsAreSteps(t: Tables, actions: seq<Action>, tenant: Option<Id>)
    ensures Run(t, RelabelSteps(actions, tenant)) == t.(templates := RetemplateAll(t.templates, actions, tenant))
    decreases |actions|
  {
    if actions != [] {
      var a, rest, steps := actions[0], actions[1..], RelabelSteps(actions, tenant);
      if a.Retemplate? {
        assert steps[0] == Relabel(a.change, tenant) && steps[1..] == RelabelSteps(rest, tenant);
        RelabelsAreSteps(t.(templates := Retemplated(t.templates, a.change, tenant)), rest, tenant);
      } else {
        assert steps == RelabelSteps(rest, tenant);
        RelabelsAreSteps(t, rest, tenant);
      }
    }
  }

  /** Processing an event, complete or aborted, is a run of single steps; everything proved of runs holds of it. */
  lemma EventIsRun(t: Tables, eid: Id, now: Time)
    ensures ProcessEvent(t, eid, now) == Run(t, EventSteps(t, eid, now))
  {
    if eid in t.events && !t.events[eid].processed {
      var e := t.events[eid];
      var actions := EventActions(e.entries);
      var done := BeforeRaise(t, actions);
      var updates := UpdateSteps(Arrivals(done, now));
      var saves := SaveSteps(t.tenants, done, e.tenantId);
      var relabels := RelabelSteps(done, e.tenantId);
      var close := Close(eid, |done| == |actions|, now);
      var t1 := ApplyAll(t, Arrivals(done, now));
      var t2 := SaveAll(t1, done, e.tenantId);
      UpdatesAreSteps(t, Arrivals(done, now));
      SavesAreSteps(t1, done, e.tenantId);
      SavesKeepEvents(t1, done, e.tenantId);
      RelabelsAreSteps(t2, done, e.tenantId);
      RunConcat(t, updates, saves);
      RunConcat(t, updates + saves, relabels);
      RunConcat(t, updates + saves + relabels, [close]);
      assert [close][1..] == [];
    }
  }

  lemma EventKeepsInv(t: Tables, eid: Id, now: Time)
    requires Inv(t)
    ensures Inv(ProcessEvent(t, eid, now))
  {
    EventIsRun(t, eid, now);
    RunKeepsInv(t, EventSteps(t, eid, now));
  }

  lemma {:induction false} SavesKeepEvents(t: Tables, actions: seq<Action>, fallback: Option<Id>)
    ensures SaveAll(t, actions, fallback).events == t.events && SaveAll(t, actions, fallback).templates == t.templates
    ensures (forall i :: 0 <= i < |actions| ==> !actions[i].Save?) ==> SaveAll(t, actions, fallback) == t
    decreases |actions|
  {
    if actions != [] {
      var a := actions[0];
      SavesKeepEvents(AfterSave(t, a, fallback), actions[1..], fallback);
    }
  }

  ghost predicate NoneRaises(t: Tables, actions: seq<Action>) {
    forall i :: 0 <= i < |actions| ==> !ActionRaises(t, actions[i])
  }

  lemma {:induction false} AllDoneIffNoneRaises(t: Tables, actions: seq<Action>)
    ensures |BeforeRaise(t, actions)| == |actions| <==> NoneRaises(t, actions)
    ensures |BeforeRaise(t, actions)| <= |actions|
  {
    if actions != [] {
      AllDoneIffNoneRaises(t, actions[1..]);
      assert forall i :: 0 < i < |actions| ==> actions[i] == actions[1..][i - 1];
    }
  }

  /**
   An event is marked processed exactly when none of its actions raises; and once it is,
   processing that row again changes nothing.
   */
  lemma ProcessedOnce(t: Tables, eid: Id, now: Time, later: Time)
    requires eid in t.events && !t.events[eid].processed
    ensures var t' := ProcessEvent(t, eid, now);
            var actions := EventActions(t.events[eid].entries);
            && eid in t'.events && t'.events[eid].entries == t.events[eid].entries
            && (t'.events[eid].processed <==> NoneRaises(t, actions))
            && (t'.events[eid].processed ==> ProcessEvent(t', eid, later) == t')
  {
    var e := t.events[eid];
    var actions := EventActions(e.entries);
    var done := BeforeRaise(t, actions);
    UpdatesAreSteps(t, Arrivals(done, now));
    SavesKeepEvents(ApplyAll(t, Arrivals(done, now)), done, e.tenantId);
    AllDoneIffNoneRaises(t, actions);
    assert ProcessEvent(t, eid, now).events[eid].processed <==> |done| == |actions|;
  }

  // ------------------------------------------------------------ what updates leave alone

  lemma SameTargets(t: Tables, t': Tables, waId: string)
    requires t.messages.Keys == t'.messages.Keys
    requires forall id :: id in t.messages ==> t'.messages[id].waId == t.messages[id].waId
    ensures Target(t, waId) == Target(t', waId)
    ensures Ambiguous(t, waId) <==> Ambiguous(t', waId)
  {
    assert SameCarriers(t, t', waId);
    SameCarriersSameTarget(t, t', waId);
  }

  /** The same messages carry the id. */
  ghost predicate SameCarriers(t: Tables, t': Tables, waId: string) {
    forall mid :: CarriesId(t, waId, mid) <==> CarriesId(t', waId, mid)
  }

  lemma SameCarriersSameTarget(t: Tables, t': Tables, waId: string)
    requires SameCarriers(t, t', waId)
    ensures Target(t, waId) == Target(t', waId)
    ensures Ambiguous(t, waId) <==> Ambiguous(t', waId)
  {
    assert forall mid :: OnlyMatch(t, waId, mid) <==> OnlyMatch(t', waId, mid);
  }

  lemma {:induction false} UpdatesKeepIds(t: Tables, arrivals: seq<Arrival>)
    ensures ApplyAll(t, arrivals).nextId == t.nextId && ApplyAll(t, arrivals).messages.Keys == t.messages.Keys
    ensures forall id :: id in t.messages ==> ApplyAll(t, arrivals).messages[id].waId == t.messages[id].waId
    decreases |arrivals|
  {
    if arrivals != [] {
      var t' := ApplyUpdate(t, arrivals[0].update, arrivals[0].now);
      Interleaving.UpdateFrame(t, arrivals[0].update, arrivals[0].now);
      UpdatesKeepIds(t', arrivals[1..]);
    }
  }
}

/**
 The life of a campaign: which steps move its status, and what never changes again.
 */
module Lifecycle {
  import opened Wrappers
  import opened Rows
  import opened Delivery
  import opened Agreement

  predicate Terminal(s: CampaignStatus) {
    s == CampaignStatus.Completed || s == CampaignStatus.Cancelled
  }

  /** The only ways a step may change a campaign's status, total and completion time. */
  ghost predicate Evolves(c: Campaign, c': Campaign, s: Step, cid: Id) {
    && c'.tenantId == c.tenantId
    && (c'.total != c.total ==> s.AddRecipients? && AcceptsUploads(c) && c'.status == c.status)
    && (if c'.status == c.status then c'.completedAt == c.completedAt
        else match s
             case Start(id) => id == cid && (AcceptsUploads(c) || c.status == CampaignStatus.Paused) && c.total != 0
                               && c'.status == CampaignStatus.Running && c'.completedAt == c.completedAt
             case Pause(id) => id == cid && c.status == CampaignStatus.Running
                               && c'.status == CampaignStatus.Paused && c'.completedAt == c.completedAt
             case Cancel(id, now) => id == cid && !Terminal(c.status)
                                     && c'.status == CampaignStatus.Cancelled && c'.completedAt == Some(now)
             case Receive(_, now) => c.status == CampaignStatus.Running && Outstanding(c') <= 0
                                     && c'.status == CampaignStatus.Completed && c'.completedAt == Some(now)
             case _ => false)
  }

  lemma SendEvolves(t: Tables, rid: Id, env: SendEnv, cid: Id)
    requires cid in t.campaigns
    ensures cid in CommittedSend(t, rid, env).campaigns
    ensures Evolves(t.campaigns[cid], CommittedSend(t, rid, env).campaigns[cid], Send(rid, env), cid)
  {
  }

  lemma ReceiveEvolves(t: Tables, u: StatusUpdate, now: Time, cid: Id)
    requires cid in t.campaigns
    ensures cid in ApplyUpdate(t, u, now).campaigns
    ensures Evolves(t.campaigns[cid], ApplyUpdate(t, u, now).campaigns[cid], Receive(u, now), cid)
  {
    var t' := ApplyUpdate(t, u, now);
    assert t'.campaigns == t.campaigns ||
           exists id, from, to :: id in t.campaigns && t'.campaigns == RolledUp(t.campaigns, id, from, to, now);
  }

  /** Steps that move no recipient. */
  lemma OtherStepEvolves(t: Tables, s: Step, cid: Id)
    requires cid in t.campaigns && t.nextId !in t.campaigns && !s.Send? && !s.Receive?
    ensures cid in Apply(t, s).campaigns && Evolves(t.campaigns[cid], Apply(t, s).campaigns[cid], s, cid)
  {
    if CampaignStep(s) { CampaignStepEvolves(t, s, cid); } else { OthersKeepCampaigns(t, s); }
  }

  lemma CampaignStepEvolves(t: Tables, s: Step, cid: Id)
    requires cid in t.campaigns && t.nextId !in t.campaigns && CampaignStep(s)
    ensures cid in Apply(t, s).campaigns && Evolves(t.campaigns[cid], Apply(t, s).campaigns[cid], s, cid)
  {
    match s
    case Create(_, _, _, _) => assert Apply(t, s).campaigns[cid] == t.campaigns[cid];
    case AddRecipients(id, addressees) => UploadEvolves(t, id, addressees, cid);
    case _ => RestatusEvolves(t, s, cid);
  }

  lemma UploadEvolves(t: Tables, id: Id, addressees: seq<Addressee>, cid: Id)
    requires cid in t.campaigns
    ensures cid in Upload(t, id, addressees).campaigns
    ensures Evolves(t.campaigns[cid], Upload(t, id, addressees).campaigns[cid], AddRecipients(id, addressees), cid)
  {
  }

  lemma RestatusEvolves(t: Tables, s: Step, cid: Id)
    requires cid in t.campaigns && (s.Start? || s.Pause? || s.Cancel?)
    ensures cid in Apply(t, s).campaigns && Evolves(t.campaigns[cid], Apply(t, s).campaigns[cid], s, cid)
  {
    match s
    case Start(_) =>
    case Pause(_) =>
    case Cancel(_, _) =>
  }

  lemma StepEvolves(t: Tables, s: Step, cid: Id)
    requires cid in t.campaigns && t.nextId !in t.campaigns
    ensures cid in Apply(t, s).campaigns && Evolves(t.campaigns[cid], Apply(t, s).campaigns[cid], s, cid)
  {
    match s
    case Send(rid, env) => SendEvolves(t, rid, env, cid);
    case Receive(u, now) => ReceiveEvolves(t, u, now, cid);
    case _ => OtherStepEvolves(t, s, cid);
  }

  /** A campaign that a step brings into being is fresh. */
  lemma StepCreates(t: Tables, s: Step, cid: Id)
    requires cid !in t.campaigns && cid in Apply(t, s).campaigns
    ensures s.Create? && cid == t.nextId
    ensures var c := Apply(t, s).campaigns[cid];
            AcceptsUploads(c) && c.total == 0 && c.sent == 0 && c.delivered == 0 && c.read == 0 && c.failed == 0
            && c.completedAt.None?
  {
    match s
    case Create(_, _, _, _) =>
    case AddRecipients(_, _) =>
    case Start(_) =>
    case Pause(_) =>
    case Cancel(_, _) =>
    case Send(_, _) =>
    case Receive(_, _) =>
    case _ => OthersKeepCampaigns(t, s);
  }

  /** `completed` and `cancelled` are absorbing, and the completion time is written once. */
  lemma {:induction false} TerminalIsForever(t: Tables, steps: seq<Step>, cid: Id)
    requires Inv(t) && cid in t.campaigns && Terminal(t.campaigns[cid].status)
    ensures cid in Run(t, steps).campaigns
    ensures Run(t, steps).campaigns[cid].status == t.campaigns[cid].status
    ensures Run(t, steps).campaigns[cid].completedAt == t.campaigns[cid].completedAt
    ensures Run(t, steps).campaigns[cid].total == t.campaigns[cid].total
    decreases |steps|
  {
    if steps != [] {
      StepEvolves(t, steps[0], cid);
      StepKeepsInv(t, steps[0]);
      TerminalIsForever(Apply(t, steps[0]), steps[1..], cid);
    }
  }

  /** A completion time is set in the two terminal states and in no other; `failed` is never reached. */
  ghost predicate TimedWhenDone(t: Tables) {
    forall cid :: cid in t.campaigns ==>
                    (t.campaigns[cid].completedAt.Some? <==> Terminal(t.campaigns[cid].status))
                    && t.campaigns[cid].status != CampaignStatus.Failed
  }

  lemma {:induction false} CompletionTimeIffDone(t: Tables, steps: seq<Step>)
    requires Inv(t) && TimedWhenDone(t)
    ensures TimedWhenDone(Run(t, steps))
    decreases |steps|
  {
    if steps != [] {
      var t' := Apply(t, steps[0]);
      forall cid | cid in t'.campaigns
        ensures (t'.campaigns[cid].completedAt.Some? <==> Terminal(t'.campaigns[cid].status))
                && t'.campaigns[cid].status != CampaignStatus.Failed
      {
        if cid in t.campaigns { StepEvolves(t, steps[0], cid); } else { StepCreates(t, steps[0], cid); }
      }
      StepKeepsInv(t, steps[0]);
      CompletionTimeIffDone(t', steps[1..]);
    }
  }

  /** In this build, where `start` always raises, no campaign ever leaves draft, scheduled and cancelled. */
  lemma {:induction false} NothingStarts(t: Tables, steps: seq<Step>)
    requires Inv(t) && forall i :: 0 <= i < |steps| ==> !steps[i].Start?
    requires forall cid :: cid in t.campaigns ==>
        AcceptsUploads(t.campaigns[cid]) || t.campaigns[cid].status == CampaignStatus.Cancelled
    ensures forall cid :: cid in Run(t, steps).campaigns ==>
              AcceptsUploads(Run(t, steps).campaigns[cid]) ||
                  Run(t, steps).campaigns[cid].status == CampaignStatus.Cancelled
    decreases |steps|
  {
    if steps != [] {
      var t' := Apply(t, steps[0]);
      forall cid | cid in t'.campaigns
        ensures AcceptsUploads(t'.campaigns[cid]) || t'.campaigns[cid].status == CampaignStatus.Cancelled
      {
        if cid in t.campaigns { StepEvolves(t, steps[0], cid); } else { StepCreates(t, steps[0], cid); }
      }
      StepKeepsInv(t, steps[0]);
      assert forall i :: 0 <= i < |steps[1..]| ==> steps[1..][i] == steps[i + 1];
      NothingStarts(t', steps[1..]);
    }
  }
}

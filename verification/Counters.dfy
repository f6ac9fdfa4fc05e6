/**
 What the roll-up counters of a campaign count, and what completion means.
 */
module Counters {
  import opened Rows
  import opened StatusFold
  import opened Delivery
  import opened Agreement
  import opened Conservation
  import opened Lifecycle

  // ------------------------------------------------------------ counter exactness

  predicate IsCounted(s: RecipientStatus) {
    s == RecipientStatus.Delivered || s == RecipientStatus.Read || s == RecipientStatus.Failed
  }

  /** A campaign's counter for a status; 0 before the campaign exists. */
  ghost function Counter(t: Tables, cid: Id, to: RecipientStatus): int {
    if cid !in t.campaigns then 0
    else if to == RecipientStatus.Delivered then t.campaigns[cid].delivered
    else if to == RecipientStatus.Read then t.campaigns[cid].read
    else if to == RecipientStatus.Failed then t.campaigns[cid].failed
    else 0
  }

  /** The recipients of a campaign that reach a status from a different one between two states. */
  ghost function Movers(t: Tables, t': Tables, cid: Id, to: RecipientStatus): set<Id> {
    set rid | rid in t'.recipients && t'.recipients[rid].campaignId == cid && t'.recipients[rid].status == to
              && rid in t.recipients && t.recipients[rid].status != to
  }

  ghost predicate StepCounts(t: Tables, t': Tables, cid: Id) {
    forall to :: IsCounted(to) ==> Counter(t', cid, to) == Counter(t, cid, to) + |Movers(t, t', cid, to)|
  }

  lemma OneMover(t: Tables, t': Tables, rid: Id, cid: Id, to: RecipientStatus)
    requires rid in t.recipients && rid in t'.recipients
    requires t'.recipients == t.recipients[rid := t'.recipients[rid]]
    ensures Movers(t, t', cid, to) ==
            (if t'.recipients[rid].campaignId == cid && t'.recipients[rid].status == to
             && t.recipients[rid].status != to
             then {rid} else {})
  {
  }

  lemma SendCounts(t: Tables, rid: Id, env: SendEnv, cid: Id)
    requires Inv(t)
    ensures StepCounts(t, CommittedSend(t, rid, env), cid)
  {
    SendEffect(t, rid, env);
    var t' := CommittedSend(t, rid, env);
    if t' == t {
      assert forall to :: Movers(t, t', cid, to) == {};
    } else {
      SentOnceCounts(t, t', rid, env.reply.Accepted?, cid);
    }
  }

  lemma SentOnceCounts(t: Tables, t': Tables, rid: Id, accepted: bool, cid: Id)
    requires Inv(t) && SentOnce(t, t', rid, accepted)
    ensures StepCounts(t, t', cid)
  {
    SentWasQueued(t, t', rid, accepted);
    forall to | IsCounted(to) ensures Counter(t', cid, to) == Counter(t, cid, to) + |Movers(t, t', cid, to)| {
      SentOnceCountsOne(t, t', rid, accepted, cid, to);
    }
  }

  lemma SentWasQueued(t: Tables, t': Tables, rid: Id, accepted: bool)
    requires Inv(t) && SentOnce(t, t', rid, accepted)
    ensures t.recipients[rid].status == RecipientStatus.Queued
  {
    assert Agrees(t.messages, rid, t.recipients[rid]);
  }

  lemma SentOnceCountsOne(t: Tables, t': Tables, rid: Id, accepted: bool, cid: Id, to: RecipientStatus)
    requires SentOnce(t, t', rid, accepted) && t.recipients[rid].status == RecipientStatus.Queued && IsCounted(to)
    ensures Counter(t', cid, to) == Counter(t, cid, to) + |Movers(t, t', cid, to)|
  {
    OneMover(t, t', rid, cid, to);
  }

  lemma ReceiveCounts(t: Tables, u: StatusUpdate, now: Time, cid: Id)
    requires Inv(t)
    ensures StepCounts(t, ApplyUpdate(t, u, now), cid)
  {
    var t' := ApplyUpdate(t, u, now);
    forall to | IsCounted(to) ensures Counter(t', cid, to) == Counter(t, cid, to) + |Movers(t, t', cid, to)| {
      if t'.recipients == t.recipients && t'.campaigns == t.campaigns {
        assert Movers(t, t', cid, to) == {};
      } else {
        ReceiveCountsOne(t, u, now, cid, to);
      }
    }
  }

  lemma ReceiveCountsOne(t: Tables, u: StatusUpdate, now: Time, cid: Id, to: RecipientStatus)
    requires Inv(t) && IsCounted(to)
    requires ApplyUpdate(t, u, now).recipients != t.recipients || ApplyUpdate(t, u, now).campaigns != t.campaigns
    ensures var t' := ApplyUpdate(t, u, now);
            Counter(t', cid, to) == Counter(t, cid, to) + |Movers(t, t', cid, to)|
  {
    var t', mid, e := ApplyUpdate(t, u, now), Target(t, u.waId).value, Parse(u, now).value;
    var rid := t.messages[mid].recipient.value;
    RolledUpCounts(t, t', rid, e.to, now, cid, to);
  }

  lemma RolledUpCounts(t: Tables, t': Tables, rid: Id, status: MessageStatus, now: Time, cid: Id, to: RecipientStatus)
    requires rid in t.recipients && t.recipients[rid].campaignId in t.campaigns && IsCounted(to)
    requires t'.recipients == t.recipients[rid := Moved(t.recipients[rid], status, now)]
    requires t'.campaigns == RolledUp(t.campaigns, t.recipients[rid].campaignId, t.recipients[rid].status,
        Image(status), now)
    ensures Counter(t', cid, to) == Counter(t, cid, to) + |Movers(t, t', cid, to)|
  {
    OneMover(t, t', rid, cid, to);
  }

  lemma StepIsCounted(t: Tables, s: Step, cid: Id)
    requires Inv(t)
    ensures StepCounts(t, Apply(t, s), cid)
  {
    match s
    case Send(rid, env) => SendCounts(t, rid, env, cid);
    case Receive(u, now) => ReceiveCounts(t, u, now, cid);
    case _ => OtherStepCounts(t, s, cid);
  }

  /** The steps that move no recipient leave existing recipients and all counters alone. */
  lemma OtherStepFrame(t: Tables, s: Step, cid: Id)
    requires Inv(t) && !s.Send? && !s.Receive?
    ensures forall rid :: rid in t.recipients ==>
                            rid in Apply(t, s).recipients && Apply(t, s).recipients[rid] == t.recipients[rid]
    ensures forall to :: IsCounted(to) ==> Counter(Apply(t, s), cid, to) == Counter(t, cid, to)
  {
    QuietStepKeepsRecipients(t, s);
    QuietStepKeepsCounters(t, s, cid);
  }

  lemma QuietStepKeepsCounters(t: Tables, s: Step, cid: Id)
    requires Inv(t) && !s.Send? && !s.Receive?
    ensures forall to :: IsCounted(to) ==> Counter(Apply(t, s), cid, to) == Counter(t, cid, to)
  {
    match s
    case Create(_, _, _, _) =>
    case AddRecipients(_, _) =>
    case Start(_) => AdministrativeKeepsCounts(t, s);
    case Pause(_) => AdministrativeKeepsCounts(t, s);
    case Cancel(_, _) => AdministrativeKeepsCounts(t, s);
    case _ => OthersKeepCampaigns(t, s);
  }

  lemma OtherStepCounts(t: Tables, s: Step, cid: Id)
    requires Inv(t) && !s.Send? && !s.Receive?
    ensures StepCounts(t, Apply(t, s), cid)
    ensures forall to :: Movers(t, Apply(t, s), cid, to) == {}
  {
    OtherStepFrame(t, s, cid);
    assert forall to :: Movers(t, Apply(t, s), cid, to) == {};
  }

  /** The number of moves of a campaign's recipients into a status over a run. */
  ghost function Moves(t: Tables, steps: seq<Step>, cid: Id, to: RecipientStatus): nat
    decreases |steps|
  {
    if steps == [] then 0
    else |Movers(t, Apply(t, steps[0]), cid, to)| + Moves(Apply(t, steps[0]), steps[1..], cid, to)
  }

  /**
   Over every run the delivered, read and failed counters grow by exactly the number of
   moves of the campaign's recipients into that status from a different one: refusals
   at send time count, repeats of the current status do not.
   */
  lemma {:induction false} CounterExactness(t: Tables, steps: seq<Step>, cid: Id, to: RecipientStatus)
    requires Inv(t) && IsCounted(to)
    ensures Counter(Run(t, steps), cid, to) == Counter(t, cid, to) + Moves(t, steps, cid, to)
    decreases |steps|
  {
    if steps != [] {
      StepIsCounted(t, steps[0], cid);
      StepKeepsInv(t, steps[0]);
      CounterExactness(Apply(t, steps[0]), steps[1..], cid, to);
    }
  }

  // ------------------------------------------------------------ completion

  ghost function CountedSum(t: Tables, cid: Id): int {
    Counter(t, cid, RecipientStatus.Delivered) + Counter(t, cid, RecipientStatus.Read) +
        Counter(t, cid, RecipientStatus.Failed)
  }

  /**
   An update that reaches a recipient of a running campaign completes it exactly when the counters
   cover all recipients.
   */
  lemma CompletionLaw(t: Tables, u: StatusUpdate, now: Time, cid: Id)
    requires Inv(t) && AllCounted(t) && cid in t.campaigns && t.campaigns[cid].status == CampaignStatus.Running
    requires Parse(u, now).Some? && !u.timestamp.Malformed? && Target(t, u.waId).Some?
    requires var m := t.messages[Target(t, u.waId).value];
             m.recipient.Some? && t.recipients[m.recipient.value].campaignId == cid
    ensures var t' := ApplyUpdate(t, u, now);
            t'.campaigns[cid].status ==
            if CountedSum(t', cid) >= |RecipientsOf(t'.recipients, cid)| then CampaignStatus.Completed
            else CampaignStatus.Running
  {
    ReceiveKeepsCounts(t, u, now);
    var t', e := ApplyUpdate(t, u, now), Parse(u, now).value;
    var rid := t.messages[Target(t, u.waId).value].recipient.value;
    assert t'.campaigns == RolledUp(t.campaigns, cid, t.recipients[rid].status, Image(e.to), now);
    CompletionAt(t, t', cid, t.recipients[rid].status, Image(e.to), now);
  }

  lemma CompletionAt(t: Tables, t': Tables, cid: Id, from: RecipientStatus, to: RecipientStatus, now: Time)
    requires cid in t.campaigns && t.campaigns[cid].status == CampaignStatus.Running && AllCounted(t')
    requires t'.campaigns == RolledUp(t.campaigns, cid, from, to, now)
    ensures t'.campaigns[cid].status ==
            if CountedSum(t', cid) >= |RecipientsOf(t'.recipients, cid)| then CampaignStatus.Completed
            else CampaignStatus.Running
  {
    CompletesIfDone(Count(t.campaigns[cid], from, to), now);
    assert Counted(t', cid);
  }

  lemma CompletesIfDone(c: Campaign, now: Time)
    requires c.status == CampaignStatus.Running
    ensures CompleteIfDone(c, now).status
         == if c.delivered + c.read + c.failed >= c.total then CampaignStatus.Completed else CampaignStatus.Running
  {
  }

  /** The counters of a completed campaign cover its total. */
  ghost predicate DoneWhenCompleted(t: Tables) {
    forall cid :: cid in t.campaigns && t.campaigns[cid].status == CampaignStatus.Completed
                  ==> CountedSum(t, cid) >= t.campaigns[cid].total
  }

  /** A recipient that makes a counted move in this step. */
  ghost predicate CountedMover(t: Tables, t': Tables, cid: Id, rid: Id) {
    rid in t'.recipients && IsCounted(t'.recipients[rid].status) && rid in Movers(t, t', cid, t'.recipients[rid].status)
  }

  /** The recipients of a campaign in the order of their counted moves, one entry a move. */
  ghost function CountedLog(t: Tables, steps: seq<Step>, cid: Id): seq<Id>
    decreases |steps|
  {
    if steps == [] then [] else LogEntry(t, Apply(t, steps[0]), cid) + CountedLog(Apply(t, steps[0]), steps[1..], cid)
  }

  ghost function LogEntry(t: Tables, t': Tables, cid: Id): (r: seq<Id>)
    ensures r == [] ==> forall rid :: !CountedMover(t, t', cid, rid)
    ensures r != [] ==> |r| == 1 && CountedMover(t, t', cid, r[0])
  {
    if rid: Id :| CountedMover(t, t', cid, rid) then [rid] else []
  }

  ghost predicate Logged(t: Tables, t': Tables, cid: Id) {
    CountedSum(t', cid) == CountedSum(t, cid) + |LogEntry(t, t', cid)|
  }

  lemma StillLogged(t: Tables, t': Tables, cid: Id)
    requires StepCounts(t, t', cid) && forall to :: IsCounted(to) ==> Movers(t, t', cid, to) == {}
    ensures Logged(t, t', cid)
  {
    assert forall to :: IsCounted(to) ==> Counter(t', cid, to) == Counter(t, cid, to);
  }

  lemma MoveLogged(t: Tables, t': Tables, rid: Id, cid: Id)
    requires rid in t.recipients && rid in t'.recipients
    requires t'.recipients == t.recipients[rid := t'.recipients[rid]] && StepCounts(t, t', cid)
    ensures Logged(t, t', cid)
  {
    var d, r, f := Movers(t, t', cid, RecipientStatus.Delivered), Movers(t, t', cid, RecipientStatus.Read),
                   Movers(t, t', cid, RecipientStatus.Failed);
    assert CountedSum(t', cid) == CountedSum(t, cid) + |d| + |r| + |f|;
    OneMover(t, t', rid, cid, RecipientStatus.Delivered);
    OneMover(t, t', rid, cid, RecipientStatus.Read);
    OneMover(t, t', rid, cid, RecipientStatus.Failed);
    assert CountedMover(t, t', cid, rid) <==> rid in d + r + f;
    forall other | CountedMover(t, t', cid, other) ensures other == rid {
      OneMover(t, t', rid, cid, t'.recipients[other].status);
    }
  }

  /** A step makes at most one counted move, and the log has an entry for it. */
  lemma StepLogged(t: Tables, s: Step, cid: Id)
    requires Inv(t)
    ensures Logged(t, Apply(t, s), cid)
  {
    StepIsCounted(t, s, cid);
    match s
    case Send(rid, env) => SendLogged(t, rid, env, cid);
    case Receive(u, now) => ReceiveLogged(t, u, now, cid);
    case _ => OtherStepCounts(t, s, cid); StillLogged(t, Apply(t, s), cid);
  }

  lemma SendLogged(t: Tables, rid: Id, env: SendEnv, cid: Id)
    requires StepCounts(t, CommittedSend(t, rid, env), cid)
    ensures Logged(t, CommittedSend(t, rid, env), cid)
  {
    var t' := CommittedSend(t, rid, env);
    if t'.recipients == t.recipients {
      assert forall to :: Movers(t, t', cid, to) == {};
      StillLogged(t, t', cid);
    } else {
      MoveLogged(t, t', rid, cid);
    }
  }

  lemma ReceiveLogged(t: Tables, u: StatusUpdate, now: Time, cid: Id)
    requires StepCounts(t, ApplyUpdate(t, u, now), cid)
    ensures Logged(t, ApplyUpdate(t, u, now), cid)
  {
    var t' := ApplyUpdate(t, u, now);
    if t'.recipients == t.recipients {
      assert forall to :: Movers(t, t', cid, to) == {};
      StillLogged(t, t', cid);
    } else {
      MoveLogged(t, t', t.messages[Target(t, u.waId).value].recipient.value, cid);
    }
  }

  lemma {:induction false} LogLength(t: Tables, steps: seq<Step>, cid: Id)
    requires Inv(t)
    ensures |CountedLog(t, steps, cid)| == CountedSum(Run(t, steps), cid) - CountedSum(t, cid)
    decreases |steps|
  {
    if steps != [] {
      StepLogged(t, steps[0], cid);
      StepKeepsInv(t, steps[0]);
      LogLength(Apply(t, steps[0]), steps[1..], cid);
    }
  }

  /** Campaigns keep their recipients. */
  lemma StepKeepsCampaign(t: Tables, s: Step, rid: Id)
    requires Inv(t) && rid in t.recipients
    ensures rid in Apply(t, s).recipients && Apply(t, s).recipients[rid].campaignId == t.recipients[rid].campaignId
  {
    match s
    case Send(other, env) => SendKeepsCampaigns(t, other, env);
    case Receive(u, now) => ReceiveKeepsCampaigns(t, u, now);
    case _ => QuietStepKeepsRecipients(t, s);
  }

  lemma SendKeepsCampaigns(t: Tables, other: Id, env: SendEnv)
    ensures CommittedSend(t, other, env).recipients.Keys == t.recipients.Keys
    ensures forall rid :: rid in t.recipients ==>
              CommittedSend(t, other, env).recipients[rid].campaignId == t.recipients[rid].campaignId
  {
    SendEffect(t, other, env);
  }

  lemma ReceiveKeepsCampaigns(t: Tables, u: StatusUpdate, now: Time)
    ensures ApplyUpdate(t, u, now).recipients.Keys == t.recipients.Keys
    ensures forall rid :: rid in t.recipients ==>
              ApplyUpdate(t, u, now).recipients[rid].campaignId == t.recipients[rid].campaignId
  {
    ReceiveEffect(t, u, now);
  }

  lemma {:induction false} RunKeepsCampaign(t: Tables, steps: seq<Step>, rid: Id)
    requires Inv(t) && rid in t.recipients
    ensures rid in Run(t, steps).recipients && Run(t, steps).recipients[rid].campaignId == t.recipients[rid].campaignId
    decreases |steps|
  {
    if steps != [] {
      StepKeepsCampaign(t, steps[0], rid);
      StepKeepsInv(t, steps[0]);
      RunKeepsCampaign(Apply(t, steps[0]), steps[1..], rid);
    }
  }

  /** Every entry of the log is a recipient of the campaign that has left the queue. */
  lemma {:induction false} LogMembers(t: Tables, steps: seq<Step>, cid: Id)
    requires Inv(t)
    ensures forall rid :: rid in CountedLog(t, steps, cid) ==>
              rid in RecipientsOf(Run(t, steps).recipients, cid)
              && Run(t, steps).recipients[rid].status != RecipientStatus.Queued
    decreases |steps|
  {
    if steps != [] {
      var t' := Apply(t, steps[0]);
      StepKeepsInv(t, steps[0]);
      LogMembers(t', steps[1..], cid);
      forall rid | rid in LogEntry(t, t', cid)
        ensures rid in RecipientsOf(Run(t, steps).recipients, cid)
                && Run(t, steps).recipients[rid].status != RecipientStatus.Queued
      {
        assert CountedMover(t, t', cid, rid);
        NoResurrection(t', steps[1..], rid);
        RunKeepsCampaign(t', steps[1..], rid);
      }
    }
  }

  lemma StepKeepsDone(t: Tables, s: Step)
    requires Inv(t) && DoneWhenCompleted(t)
    ensures DoneWhenCompleted(Apply(t, s))
  {
    var t' := Apply(t, s);
    forall cid | cid in t'.campaigns && t'.campaigns[cid].status == CampaignStatus.Completed
      ensures CountedSum(t', cid) >= t'.campaigns[cid].total
    {
      if cid in t.campaigns {
        StepKeepsDoneOne(t, s, cid);
      } else {
        StepCreates(t, s, cid);
      }
    }
  }

  lemma StepKeepsDoneOne(t: Tables, s: Step, cid: Id)
    requires Inv(t) && DoneWhenCompleted(t) && cid in t.campaigns && cid in Apply(t, s).campaigns
    requires Apply(t, s).campaigns[cid].status == CampaignStatus.Completed
    ensures CountedSum(Apply(t, s), cid) >= Apply(t, s).campaigns[cid].total
  {
    StepEvolves(t, s, cid);
    SumNeverFalls(t, s, cid);
  }

  lemma SumNeverFalls(t: Tables, s: Step, cid: Id)
    requires Inv(t)
    ensures CountedSum(Apply(t, s), cid) >= CountedSum(t, cid)
  {
    StepLogged(t, s, cid);
  }

  lemma {:induction false} RunKeepsDone(t: Tables, steps: seq<Step>)
    requires Inv(t) && DoneWhenCompleted(t)
    ensures DoneWhenCompleted(Run(t, steps))
    decreases |steps|
  {
    if steps != [] {
      StepKeepsDone(t, steps[0]);
      StepKeepsInv(t, steps[0]);
      RunKeepsDone(Apply(t, steps[0]), steps[1..]);
    }
  }

  predicate Distinct(xs: seq<Id>) {
    forall i, j :: 0 <= i < j < |xs| ==> xs[i] != xs[j]
  }

  ghost function Elements(xs: seq<Id>): set<Id> {
    set x | x in xs
  }

  lemma {:induction false} DistinctElements(xs: seq<Id>)
    requires Distinct(xs)
    ensures |Elements(xs)| == |xs|
  {
    if xs != [] {
      var rest := xs[1..];
      DistinctElements(rest);
      assert xs[0] !in rest;
      assert Elements(xs) == Elements(rest) + {xs[0]};
    }
  }

  lemma SubsetOfSameSize(a: set<Id>, b: set<Id>)
    requires a <= b && |a| >= |b|
    ensures a == b
  {
    assert b == a + (b - a);
    assert |b| == |a| + |b - a|;
  }

  /**
   If no recipient made two counted moves, a completed campaign has counted every one of
   its recipients exactly once, and none of them is still queued.
   */
  lemma CompletedCountsEveryone(t0: Tables, steps: seq<Step>, cid: Id)
    requires Initial(t0) && cid in Run(t0, steps).campaigns
    requires Run(t0, steps).campaigns[cid].status == CampaignStatus.Completed
    requires Distinct(CountedLog(t0, steps, cid))
    ensures Elements(CountedLog(t0, steps, cid)) == RecipientsOf(Run(t0, steps).recipients, cid)
    ensures QueuedOf(Run(t0, steps).recipients, cid) == {}
  {
    var t, log := Run(t0, steps), CountedLog(t0, steps, cid);
    RunKeepsDone(t0, steps);
    RunKeepsCounts(t0, steps);
    assert Counted(t, cid);
    LogLength(t0, steps, cid);
    LogMembers(t0, steps, cid);
    DistinctElements(log);
    SubsetOfSameSize(Elements(log), RecipientsOf(t.recipients, cid));
    forall rid: Id ensures rid !in QueuedOf(t.recipients, cid) {
      if rid in RecipientsOf(t.recipients, cid) { assert rid in Elements(log); }
    }
  }

  // ------------------------------------------------------------ when a campaign completes

  /** A status update that reaches a recipient of the campaign. */
  ghost predicate ReachesCampaign(t: Tables, s: Step, cid: Id) {
    && s.Receive? && Parse(s.update, 0).Some? && !s.update.timestamp.Malformed? && Target(t, s.update.waId).Some?
    && var m := t.messages[Target(t, s.update.waId).value];
       m.recipient.Some? && m.recipient.value in t.recipients && t.recipients[m.recipient.value].campaignId == cid
  }

  ghost predicate ReachesRunning(t: Tables, s: Step, cid: Id) {
    cid in t.campaigns && t.campaigns[cid].status == CampaignStatus.Running && ReachesCampaign(t, s, cid)
  }

  /** Some step of the run reaches the campaign while it is running and leaves its counters covering its total. */
  ghost predicate CompletingStep(t: Tables, steps: seq<Step>, cid: Id)
    decreases |steps|
  {
    steps != []
    && var t' := Apply(t, steps[0]);
       (ReachesRunning(t, steps[0], cid) && cid in t'.campaigns && CountedSum(t', cid) >= t'.campaigns[cid].total)
       || CompletingStep(t', steps[1..], cid)
  }

  /** Some step of the run reaches the campaign while it is running. */
  ghost predicate ReachedRunning(t: Tables, steps: seq<Step>, cid: Id)
    decreases |steps|
  {
    steps != [] && (ReachesRunning(t, steps[0], cid) || ReachedRunning(Apply(t, steps[0]), steps[1..], cid))
  }

  lemma StepCompletesIff(t: Tables, s: Step, cid: Id)
    requires Inv(t) && AllCounted(t) && cid in t.campaigns && t.campaigns[cid].status != CampaignStatus.Completed
    ensures var t' := Apply(t, s);
            cid in t'.campaigns
            && (t'.campaigns[cid].status == CampaignStatus.Completed <==>
                ReachesRunning(t, s, cid) && CountedSum(t', cid) >= t'.campaigns[cid].total)
  {
    StepEvolves(t, s, cid);
    if ReachesRunning(t, s, cid) {
      CompletionLaw(t, s.update, s.now, cid);
      StepKeepsCounts(t, s);
      assert Counted(Apply(t, s), cid);
    } else if s.Receive? {
      UnreachedStaysAsItIs(t, s, cid);
    }
  }

  lemma UnreachedStaysAsItIs(t: Tables, s: Step, cid: Id)
    requires Inv(t) && cid in t.campaigns && s.Receive? && !ReachesRunning(t, s, cid)
    ensures cid in Apply(t, s).campaigns && Apply(t, s).campaigns[cid].status == t.campaigns[cid].status
  {
    var t' := ApplyUpdate(t, s.update, s.now);
    if t.campaigns[cid].status == CampaignStatus.Running && t'.campaigns != t.campaigns {
      assert t'.campaigns[cid] == t.campaigns[cid];
    }
  }

  /** A campaign that is not completed is completed at the end of a run exactly when the run has a completing step. */
  lemma {:induction false} CompletedIff(t: Tables, steps: seq<Step>, cid: Id)
    requires Inv(t) && AllCounted(t) && cid in t.campaigns && t.campaigns[cid].status != CampaignStatus.Completed
    ensures cid in Run(t, steps).campaigns
    ensures Run(t, steps).campaigns[cid].status == CampaignStatus.Completed <==> CompletingStep(t, steps, cid)
    decreases |steps|
  {
    if steps != [] {
      var t' := Apply(t, steps[0]);
      StepCompletesIff(t, steps[0], cid);
      StepKeepsInv(t, steps[0]);
      StepKeepsCounts(t, steps[0]);
      if t'.campaigns[cid].status == CampaignStatus.Completed {
        TerminalIsForever(t', steps[1..], cid);
      } else {
        CompletedIff(t', steps[1..], cid);
      }
    }
  }

  /** A campaign past its uploads whose counters cover its total. */
  ghost predicate Covered(t: Tables, cid: Id) {
    cid in t.campaigns && !AcceptsUploads(t.campaigns[cid]) && CountedSum(t, cid) >= t.campaigns[cid].total
  }

  lemma StepKeepsCovered(t: Tables, s: Step, cid: Id)
    requires Inv(t) && Covered(t, cid)
    ensures Covered(Apply(t, s), cid)
  {
    StepEvolves(t, s, cid);
    StepLogged(t, s, cid);
  }

  lemma {:induction false} CoveredCompletingStep(t: Tables, steps: seq<Step>, cid: Id)
    requires Inv(t) && Covered(t, cid)
    ensures CompletingStep(t, steps, cid) <==> ReachedRunning(t, steps, cid)
    decreases |steps|
  {
    if steps != [] {
      StepKeepsCovered(t, steps[0], cid);
      StepKeepsInv(t, steps[0]);
      CoveredCompletingStep(Apply(t, steps[0]), steps[1..], cid);
    }
  }

  /**
   A campaign whose counters cover its total, but which no update has completed, completes in a run exactly when
   some status update reaches one of its recipients while it is running: a refusal at send time never completes it.
   */
  lemma CoveredCompletesIff(t: Tables, steps: seq<Step>, cid: Id)
    requires Inv(t) && AllCounted(t) && Covered(t, cid) && t.campaigns[cid].status != CampaignStatus.Completed
    ensures cid in Run(t, steps).campaigns
    ensures Run(t, steps).campaigns[cid].status == CampaignStatus.Completed <==> ReachedRunning(t, steps, cid)
  {
    CompletedIff(t, steps, cid);
    CoveredCompletingStep(t, steps, cid);
  }

  // ------------------------------------------------------------ campaigns that never complete

  /** A started campaign all of whose recipients Meta refused at send time. */
  ghost predicate AllRefused(t: Tables, cid: Id) {
    && cid in t.campaigns
    && !AcceptsUploads(t.campaigns[cid]) && t.campaigns[cid].status != CampaignStatus.Completed
    && forall rid :: rid in RecipientsOf(t.recipients, cid) ==> RefusedForGood(t.recipients[rid])
  }

  lemma StepKeepsAllRefused(t: Tables, s: Step, cid: Id)
    requires Inv(t) && AllRefused(t, cid)
    ensures AllRefused(Apply(t, s), cid)
  {
    var t' := Apply(t, s);
    StepEvolves(t, s, cid);
    forall rid | rid in RecipientsOf(t'.recipients, cid) ensures RefusedForGood(t'.recipients[rid]) {
      if rid in t.recipients {
        StepKeepsCampaign(t, s, rid);
        StepNeverResurrects(t, s, rid);
      } else {
        NewRecipientsAreUploads(t, s, rid);
      }
    }
    if t'.campaigns[cid].status == CampaignStatus.Completed {
      CompletingUpdateHasRecipient(t, s, cid);
    }
  }

  lemma NewRecipientsAreUploads(t: Tables, s: Step, rid: Id)
    requires Structured(t) && rid !in t.recipients && rid in Apply(t, s).recipients
    ensures s.AddRecipients? && Apply(t, s).recipients[rid].campaignId == s.cid
    ensures s.cid in t.campaigns && AcceptsUploads(t.campaigns[s.cid])
  {
    match s
    case AddRecipients(_, _) =>
    case Send(other, env) => SendEffect(t, other, env);
    case Receive(u, now) => ReceiveKeepsCampaigns(t, u, now);
    case _ => QuietStepKeepsRecipients(t, s);
  }

  /** The step that completes a campaign reaches one of its accepted recipients. */
  lemma CompletingUpdateHasRecipient(t: Tables, s: Step, cid: Id)
    requires Inv(t) && cid in t.campaigns && t.campaigns[cid].status != CampaignStatus.Completed
    requires Apply(t, s).campaigns[cid].status == CampaignStatus.Completed
    ensures AcceptedOf(t.recipients, cid) != {}
  {
    StepEvolves(t, s, cid);
    var mid := Target(t, s.update.waId).value;
    var rid := t.messages[mid].recipient.value;
    OwnerIsSole(t.messages, rid, t.recipients[rid], mid);
    assert rid in AcceptedOf(t.recipients, cid);
  }

  /** Such a campaign never completes, although its failures cover its total: only updates check for completion. */
  lemma {:induction false} AllRefusedNeverCompletes(t: Tables, steps: seq<Step>, cid: Id)
    requires Inv(t) && AllRefused(t, cid)
    ensures cid in Run(t, steps).campaigns && Run(t, steps).campaigns[cid].status != CampaignStatus.Completed
    decreases |steps|
  {
    if steps != [] {
      StepKeepsAllRefused(t, steps[0], cid);
      StepKeepsInv(t, steps[0]);
      AllRefusedNeverCompletes(Apply(t, steps[0]), steps[1..], cid);
    }
  }
}

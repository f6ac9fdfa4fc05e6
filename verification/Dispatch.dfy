/**
 The task queues around the database, and what pausing or cancelling a campaign stops.
 */
module Dispatch {
  import opened Rows
  import opened Delivery
  import opened Agreement
  import opened Conservation
  import opened Lifecycle
  import BodyParameters

  /** A campaign task past its database session: the ids it read and has not yet pushed. */
  datatype FanOut = FanOut(cid: Id, remaining: seq<Id>)

  datatype World = World(
    tables: Tables,
    campaignTasks: multiset<Id>,
    sendTasks: multiset<Id>,
    inFlight: seq<FanOut>)

  /**
   Steps of the whole system. `ack` says whether the broker drops the task afterwards: retries,
   lost workers and repeated deliveries all leave it in the queue.
   */
  datatype Move =
    | Transact(step: Step)
    | Launch(cid: Id)                                // environment: start a campaign and enqueue its task
    | BeginFanOut(cid: Id, ids: seq<Id>, ack: bool)
    | Push(index: nat)
    | LoseFanOut(index: nat)
    | RunSend(rid: Id, env: SendEnv, ack: bool)

  function Without(xs: seq<FanOut>, index: nat): seq<FanOut>
    requires index < |xs|
  {
    xs[..index] + xs[index+1..]
  }

  ghost predicate Enabled(w: World, m: Move) {
    match m
    case Transact(step) => !step.Send? && !step.Start?
    case Launch(_) => true
    case BeginFanOut(cid, ids, _) =>
      cid in w.campaignTasks && forall rid :: rid in ids <==> rid in QueuedOf(w.tables.recipients, cid)
    case Push(i) => i < |w.inFlight| && w.inFlight[i].remaining != []
    case LoseFanOut(i) => i < |w.inFlight|
    case RunSend(rid, _, _) => rid in w.sendTasks
  }

  ghost function Take(w: World, m: Move): World
    requires Enabled(w, m)
  {
    match m
    case Transact(step) => w.(tables := Apply(w.tables, step))
    case Launch(cid) =>
      if CanStart(w.tables, cid) then
        w.(tables := StartCampaign(w.tables, cid), campaignTasks := w.campaignTasks + multiset{cid})
      else w
    case BeginFanOut(cid, ids, ack) =>
      var tasks := if ack then w.campaignTasks - multiset{cid} else w.campaignTasks;
      if cid in w.tables.campaigns && w.tables.campaigns[cid].status == CampaignStatus.Running
      then w.(campaignTasks := tasks, inFlight := w.inFlight + [FanOut(cid, ids)])
      else w.(campaignTasks := tasks)
    case Push(i) =>
      var f := w.inFlight[i];
      w.(sendTasks := w.sendTasks + multiset{f.remaining[0]},
          inFlight := w.inFlight[i := f.(remaining := f.remaining[1..])])
    case LoseFanOut(i) => w.(inFlight := Without(w.inFlight, i))
    case RunSend(rid, env, ack) =>
      w.(tables := CommittedSend(w.tables, rid, env),
         sendTasks := if ack then w.sendTasks - multiset{rid} else w.sendTasks)
  }

  ghost predicate Legal(w: World, moves: seq<Move>)
    decreases |moves|
  {
    moves == [] || (Enabled(w, moves[0]) && Legal(Take(w, moves[0]), moves[1..]))
  }

  ghost function Play(w: World, moves: seq<Move>): World
    requires Legal(w, moves)
    decreases |moves|
  {
    if moves == [] then w else Play(Take(w, moves[0]), moves[1..])
  }

  /** The database side of a move is a single step, or nothing. */
  lemma MoveIsStep(w: World, m: Move)
    requires Enabled(w, m)
    ensures Take(w, m).tables == w.tables
            || (m.Transact? && Take(w, m).tables == Apply(w.tables, m.step))
            || (m.Launch? && Take(w, m).tables == Apply(w.tables, Start(m.cid)))
            || (m.RunSend? && Take(w, m).tables == Apply(w.tables, Send(m.rid, m.env)))
  {
  }

  lemma MoveKeepsInv(w: World, m: Move)
    requires Enabled(w, m) && Inv(w.tables)
    ensures Inv(Take(w, m).tables)
  {
    MoveIsStep(w, m);
    match m
    case Transact(step) => StepKeepsInv(w.tables, step);
    case Launch(cid) => StepKeepsInv(w.tables, Start(cid));
    case RunSend(rid, env, _) => StepKeepsInv(w.tables, Send(rid, env));
    case _ =>
  }

  // ------------------------------------------------------------ after a pause or a cancellation

  /** A send task for the recipient is queued, or is about to be pushed by a fan-out in flight. */
  ghost predicate Pending(w: World, rid: Id) {
    rid in w.sendTasks || exists i :: 0 <= i < |w.inFlight| && rid in w.inFlight[i].remaining
  }

  /** The campaign is not running, and the recipient waits in it with no task on the way. */
  ghost predicate Stranded(w: World, cid: Id, rid: Id) {
    && cid in w.tables.campaigns && w.tables.campaigns[cid].status != CampaignStatus.Running
    && rid in QueuedOf(w.tables.recipients, cid)
    && !Pending(w, rid)
  }

  lemma QueuedUntilSent(t: Tables, s: Step, rid: Id)
    requires Inv(t) && rid in t.recipients && t.recipients[rid].status == RecipientStatus.Queued
    requires !(s.Send? && s.rid == rid)
    ensures rid in Apply(t, s).recipients && Apply(t, s).recipients[rid] == t.recipients[rid]
  {
    match s
    case Send(other, env) => SendLeavesOthers(t, other, env, rid);
    case Receive(u, now) => ReceiveLeavesQueued(t, u, now, rid);
    case _ => QuietStepKeepsRecipients(t, s);
  }

  lemma SendLeavesOthers(t: Tables, other: Id, env: SendEnv, rid: Id)
    requires rid in t.recipients && other != rid
    ensures rid in CommittedSend(t, other, env).recipients
    ensures CommittedSend(t, other, env).recipients[rid] == t.recipients[rid]
  {
    SendEffect(t, other, env);
  }

  lemma ReceiveLeavesQueued(t: Tables, u: StatusUpdate, now: Time, rid: Id)
    requires Inv(t) && rid in t.recipients && t.recipients[rid].status == RecipientStatus.Queued
    ensures rid in ApplyUpdate(t, u, now).recipients && ApplyUpdate(t, u, now).recipients[rid] == t.recipients[rid]
  {
    var mid := Target(t, u.waId);
    if mid.Some? && Owns(t.messages, mid.value, rid) { OwnerIsSole(t.messages, rid, t.recipients[rid], mid.value); }
  }

  lemma PendingOnlyShrinks(w: World, m: Move, cid: Id, rid: Id)
    requires Enabled(w, m) && Stranded(w, cid, rid)
    ensures !Pending(Take(w, m), rid)
  {
    match m
    case LoseFanOut(i) => LosingShrinks(w, i, rid);
    case Push(i) => PushingShrinks(w, i, rid);
    case _ =>
      var w' := Take(w, m);
      forall i | 0 <= i < |w'.inFlight| ensures rid !in w'.inFlight[i].remaining {}
  }

  lemma LosingShrinks(w: World, i: nat, rid: Id)
    requires i < |w.inFlight| && !Pending(w, rid)
    ensures !Pending(Take(w, LoseFanOut(i)), rid)
  {
    var w' := Take(w, LoseFanOut(i));
    forall k | 0 <= k < |w'.inFlight| ensures rid !in w'.inFlight[k].remaining {
      assert w'.inFlight[k] == w.inFlight[if k < i then k else k + 1];
    }
  }

  lemma PushingShrinks(w: World, i: nat, rid: Id)
    requires i < |w.inFlight| && w.inFlight[i].remaining != [] && !Pending(w, rid)
    ensures !Pending(Take(w, Push(i)), rid)
  {
    var w' := Take(w, Push(i));
    assert rid !in w.inFlight[i].remaining;
    forall k | 0 <= k < |w'.inFlight| ensures rid !in w'.inFlight[k].remaining {
      assert k != i ==> w'.inFlight[k] == w.inFlight[k];
    }
  }

  /** The move starts the campaign; a start that is refused does not. */
  ghost predicate Starts(w: World, m: Move, cid: Id) {
    m.Launch? && m.cid == cid && CanStart(w.tables, cid)
  }

  ghost predicate NeverStarts(w: World, moves: seq<Move>, cid: Id)
    requires Legal(w, moves)
    decreases |moves|
  {
    moves == [] || (!Starts(w, moves[0], cid) && NeverStarts(Take(w, moves[0]), moves[1..], cid))
  }

  /** A campaign that is over is never started again, whatever is requested. */
  lemma {:induction false} OverNeverStarts(w: World, moves: seq<Move>, cid: Id)
    requires Inv(w.tables) && Legal(w, moves)
    requires cid in w.tables.campaigns && Terminal(w.tables.campaigns[cid].status)
    ensures NeverStarts(w, moves, cid)
    decreases |moves|
  {
    if moves != [] {
      MoveKeepsInv(w, moves[0]);
      OverStaysOver(w, moves[0], cid);
      OverNeverStarts(Take(w, moves[0]), moves[1..], cid);
    }
  }

  lemma OverStaysOver(w: World, m: Move, cid: Id)
    requires Inv(w.tables) && Enabled(w, m)
    requires cid in w.tables.campaigns && Terminal(w.tables.campaigns[cid].status)
    ensures cid in Take(w, m).tables.campaigns && Terminal(Take(w, m).tables.campaigns[cid].status)
  {
    MoveIsStep(w, m);
    match m
    case Transact(step) => StepEvolves(w.tables, step, cid);
    case RunSend(rid, env, _) => StepEvolves(w.tables, Send(rid, env), cid);
    case Launch(other) => StepEvolves(w.tables, Start(other), cid);
    case _ =>
  }

  lemma MoveKeepsStranded(w: World, m: Move, cid: Id, rid: Id)
    requires Enabled(w, m) && Inv(w.tables) && Stranded(w, cid, rid) && !Starts(w, m, cid)
    ensures Stranded(Take(w, m), cid, rid)
  {
    PendingOnlyShrinks(w, m, cid, rid);
    match m
    case Transact(step) => QueuedUntilSent(w.tables, step, rid); StepEvolves(w.tables, step, cid);
    case Launch(other) =>
    case RunSend(other, env, _) =>
      QueuedUntilSent(w.tables, Send(other, env), rid);
      StepEvolves(w.tables, Send(other, env), cid);
    case _ =>
  }

  /**
   From a pause or a cancellation on, until the campaign is started again, a queued recipient
   with no task queued or in flight at that moment is never sent to. Start requests that are
   refused may come in between; after a cancellation all of them are (`OverNeverStarts`).
   */
  lemma {:induction false} StrandedStaysQueued(w: World, moves: seq<Move>, cid: Id, rid: Id)
    requires Inv(w.tables) && Stranded(w, cid, rid) && Legal(w, moves)
    requires NeverStarts(w, moves, cid)
    ensures Stranded(Play(w, moves), cid, rid)
    decreases |moves|
  {
    if moves != [] {
      MoveKeepsInv(w, moves[0]);
      MoveKeepsStranded(w, moves[0], cid, rid);
      StrandedStaysQueued(Take(w, moves[0]), moves[1..], cid, rid);
    }
  }

  /** Nothing about the tenant or the variables stands in the way of a send. */
  ghost predicate Sendable(t: Tables, rid: Id) {
    && rid in t.recipients && t.recipients[rid].status == RecipientStatus.Queued
    && t.recipients[rid].campaignId in t.campaigns
    && LiveTenant(t.tenants, t.campaigns[t.recipients[rid].campaignId].tenantId)
    && BodyParameters.Render(t.recipients[rid].variables).Some?
  }

  /** Some continuation without a new start sends to the recipient. */
  ghost predicate CanBeSent(w: World, cid: Id, rid: Id) {
    exists moves ::
      Legal(w, moves) && NeverStarts(w, moves, cid)
      && rid in Play(w, moves).tables.recipients && Play(w, moves).tables.recipients[rid].status == RecipientStatus.Sent
  }

  lemma QueuedTaskCanSend(w: World, cid: Id, rid: Id)
    requires Sendable(w.tables, rid) && rid in w.sendTasks
    ensures CanBeSent(w, cid, rid)
  {
    var m := RunSend(rid, SendEnv(true, Accepted("wamid"), 0), true);
    var moves := [m];
    assert moves[1..] == [];
    assert Legal(w, moves);
    assert Play(Take(w, m), moves[1..]) == Take(w, m);
    assert Play(w, moves) == Take(w, m);
    assert NeverStarts(Take(w, m), moves[1..], cid);
  }

  lemma {:induction false} FanOutCanSend(w: World, cid: Id, rid: Id, i: nat)
    requires Sendable(w.tables, rid) && i < |w.inFlight| && rid in w.inFlight[i].remaining
    ensures CanBeSent(w, cid, rid)
    decreases |w.inFlight[i].remaining|
  {
    var w' := Take(w, Push(i));
    if w.inFlight[i].remaining[0] == rid {
      QueuedTaskCanSend(w', cid, rid);
    } else {
      assert rid in w'.inFlight[i].remaining;
      FanOutCanSend(w', cid, rid, i);
    }
    var moves :| Legal(w', moves) && NeverStarts(w', moves, cid)
                 && rid in Play(w', moves).tables.recipients
                 && Play(w', moves).tables.recipients[rid].status == RecipientStatus.Sent;
    var longer := [Push(i)] + moves;
    assert longer[1..] == moves;
    assert Legal(w, longer) && Play(w, longer) == Play(w', moves);
    assert NeverStarts(w, longer, cid);
  }

  /**
   Cancelling or pausing does not stop sends by itself. A queued recipient of a stopped campaign
   can still be sent to exactly when a task for it was queued or in flight at that moment.
   */
  lemma StoppedCampaignSendsPending(w: World, cid: Id, rid: Id)
    requires Inv(w.tables) && cid in w.tables.campaigns && w.tables.campaigns[cid].status != CampaignStatus.Running
    requires rid in QueuedOf(w.tables.recipients, cid) && Sendable(w.tables, rid)
    ensures CanBeSent(w, cid, rid) <==> Pending(w, rid)
  {
    if Pending(w, rid) {
      if rid in w.sendTasks {
        QueuedTaskCanSend(w, cid, rid);
      } else {
        var i :| 0 <= i < |w.inFlight| && rid in w.inFlight[i].remaining;
        FanOutCanSend(w, cid, rid, i);
      }
    } else if CanBeSent(w, cid, rid) {
      var moves :| Legal(w, moves) && NeverStarts(w, moves, cid)
                   && rid in Play(w, moves).tables.recipients
                   && Play(w, moves).tables.recipients[rid].status == RecipientStatus.Sent;
      StrandedStaysQueued(w, moves, cid, rid);
      assert false;
    }
  }

  // ------------------------------------------------------------ a build in which nothing starts

  ghost predicate Idle(w: World) {
    && w.campaignTasks == multiset{} && w.sendTasks == multiset{} && w.inFlight == []
    && forall cid :: cid in w.tables.campaigns ==>
         (AcceptsUploads(w.tables.campaigns[cid]) || w.tables.campaigns[cid].status == CampaignStatus.Cancelled)
         && w.tables.campaigns[cid].sent == 0
  }

  lemma UnsentStaysUnsent(t: Tables, s: Step, cid: Id)
    requires Inv(t) && !s.Send? && cid in t.campaigns
    ensures cid in Apply(t, s).campaigns && Apply(t, s).campaigns[cid].sent == t.campaigns[cid].sent
  {
    match s
    case Receive(u, now) => ReceiveKeepsSent(t, u, now, cid);
    case _ => if CampaignStep(s) { CampaignStepKeepsSent(t, s, cid); } else { OthersKeepCampaigns(t, s); }
  }

  lemma CampaignStepKeepsSent(t: Tables, s: Step, cid: Id)
    requires Inv(t) && CampaignStep(s) && cid in t.campaigns
    ensures cid in Apply(t, s).campaigns && Apply(t, s).campaigns[cid].sent == t.campaigns[cid].sent
  {
    match s
    case Create(_, _, _, _) =>
    case AddRecipients(_, _) =>
    case _ => AdministrativeKeepsCounts(t, s);
  }

  lemma ReceiveKeepsSent(t: Tables, u: StatusUpdate, now: Time, cid: Id)
    requires cid in t.campaigns
    ensures cid in ApplyUpdate(t, u, now).campaigns
    ensures ApplyUpdate(t, u, now).campaigns[cid].sent == t.campaigns[cid].sent
  {
  }

  /**
   As built, `start` always raises: then every campaign stays in draft, scheduled or cancelled,
   no task is ever queued and nothing is ever sent for a campaign.
   */
  lemma {:induction false} WithoutStartNothingIsSent(w: World, moves: seq<Move>)
    requires Inv(w.tables) && Idle(w) && Legal(w, moves)
    requires forall i :: 0 <= i < |moves| ==> !moves[i].Launch?
    ensures Idle(Play(w, moves))
    decreases |moves|
  {
    if moves != [] {
      MoveKeepsInv(w, moves[0]);
      IdleStaysIdle(w, moves[0]);
      assert forall i :: 0 <= i < |moves[1..]| ==> moves[1..][i] == moves[i + 1];
      WithoutStartNothingIsSent(Take(w, moves[0]), moves[1..]);
    }
  }

  lemma IdleStaysIdle(w: World, m: Move)
    requires Inv(w.tables) && Idle(w) && Enabled(w, m) && !m.Launch?
    ensures Idle(Take(w, m))
  {
    assert m.Transact?;
    var t, t' := w.tables, Apply(w.tables, m.step);
    forall cid | cid in t'.campaigns
      ensures AcceptsUploads(t'.campaigns[cid]) || t'.campaigns[cid].status == CampaignStatus.Cancelled
      ensures t'.campaigns[cid].sent == 0
    {
      if cid in t.campaigns {
        StepEvolves(t, m.step, cid);
        UnsentStaysUnsent(t, m.step, cid);
      } else {
        StepCreates(t, m.step, cid);
      }
    }
  }
}

/**
 When a completed campaign has counted everyone, read off the status updates that a run receives.
 */
module Completion {
  import opened Wrappers
  import opened Rows
  import opened StatusFold
  import opened Delivery
  import opened Agreement
  import opened Conservation
  import opened Counters
  import opened Replay
  import Interleaving

  /** The status a step reports for a message id, if it is a recognised and readable update for it. */
  function ReportedBy(s: Step, waId: string): seq<MessageStatus> {
    if s.Receive? && s.update.waId == waId && !s.update.timestamp.Malformed? && Parse(s.update, 0).Some?
    then [Parse(s.update, 0).value.to] else []
  }

  /** The statuses a run reports for a message id, in order. */
  function ReportedFor(steps: seq<Step>, waId: string): seq<MessageStatus> {
    if steps == [] then [] else ReportedBy(steps[0], waId) + ReportedFor(steps[1..], waId)
  }

  /** No message id is reported more than one change into a counted status. */
  ghost predicate OneCountedEach(steps: seq<Step>) {
    forall waId :: CountedMoves(RecipientStatus.Sent, ReportedFor(steps, waId)) <= 1
  }

  function Occurrences(xs: seq<Id>, x: Id): nat {
    if xs == [] then 0 else (if xs[0] == x then 1 else 0) + Occurrences(xs[1..], x)
  }

  lemma {:induction false} OccurrencesConcat(a: seq<Id>, b: seq<Id>, x: Id)
    ensures Occurrences(a + b, x) == Occurrences(a, x) + Occurrences(b, x)
  {
    if a == [] {
      assert a + b == b;
    } else {
      assert (a + b)[1..] == a[1..] + b;
      OccurrencesConcat(a[1..], b, x);
    }
  }

  lemma {:induction false} Occurs(xs: seq<Id>, i: nat)
    requires i < |xs|
    ensures Occurrences(xs, xs[i]) >= 1
  {
    if i > 0 { Occurs(xs[1..], i - 1); }
  }

  lemma {:induction false} TwiceOccurs(xs: seq<Id>, i: nat, j: nat)
    requires i < j < |xs| && xs[i] == xs[j]
    ensures Occurrences(xs, xs[i]) >= 2
  {
    if i == 0 {
      Occurs(xs[1..], j - 1);
    } else {
      TwiceOccurs(xs[1..], i - 1, j - 1);
    }
  }

  /** A status that did not arrive saves at most its own counted move. */
  lemma SkipOne(from: RecipientStatus, to: MessageStatus, rest: seq<MessageStatus>)
    requires to != MessageStatus.Queued
    ensures CountedMoves(from, rest) <= CountedMoves(from, [to] + rest)
  {
    assert ([to] + rest)[1..] == rest;
  }

  lemma SkipReported(from: RecipientStatus, steps: seq<Step>, waId: string)
    requires steps != []
    ensures CountedMoves(from, ReportedFor(steps[1..], waId)) <= CountedMoves(from, ReportedFor(steps, waId))
  {
    if ReportedBy(steps[0], waId) == [] {
      assert ReportedFor(steps, waId) == ReportedFor(steps[1..], waId);
    } else {
      SkipOne(from, ReportedBy(steps[0], waId)[0], ReportedFor(steps[1..], waId));
    }
  }

  lemma RestHasOneCountedEach(steps: seq<Step>)
    requires steps != [] && OneCountedEach(steps)
    ensures OneCountedEach(steps[1..])
  {
    forall waId ensures CountedMoves(RecipientStatus.Sent, ReportedFor(steps[1..], waId)) <= 1 {
      SkipReported(RecipientStatus.Sent, steps, waId);
    }
  }

  // ------------------------------------------------------------ one step and one recipient

  /** How often the log can still name a recipient: as often as its reported statuses allow. */
  ghost function Allowance(r: Recipient, steps: seq<Step>): nat {
    if r.status == RecipientStatus.Queued then 1
    else if r.waId.None? then 0
    else CountedMoves(r.status, ReportedFor(steps, r.waId.value))
  }

  ghost function NamedNow(t: Tables, s: Step, cid: Id, rid: Id): nat {
    One(CountedMover(t, Apply(t, s), cid, rid))
  }

  lemma SendAllowance(t: Tables, steps: seq<Step>, cid: Id, rid: Id)
    requires Inv(t) && steps != [] && OneCountedEach(steps) && rid in t.recipients && steps[0].Send?
    ensures var t' := Apply(t, steps[0]);
            rid in t'.recipients
            && NamedNow(t, steps[0], cid, rid) + Allowance(t'.recipients[rid], steps[1..])
               <= Allowance(t.recipients[rid], steps)
  {
    var t', s := Apply(t, steps[0]), steps[0];
    SendEffect(t, s.rid, s.sendEnv);
    if t' != t && s.rid == rid {
      SentAllowance(t, t', steps, s.sendEnv.reply.Accepted?, cid, rid);
    } else {
      UnmovedAllowance(t, t', steps, cid, rid);
    }
  }

  /** A step that is no update and leaves the recipient as it is uses nothing up. */
  lemma UnmovedAllowance(t: Tables, t': Tables, steps: seq<Step>, cid: Id, rid: Id)
    requires steps != [] && !steps[0].Receive?
    requires rid in t.recipients && rid in t'.recipients && t'.recipients[rid] == t.recipients[rid]
    ensures One(CountedMover(t, t', cid, rid)) + Allowance(t'.recipients[rid], steps[1..])
            == Allowance(t.recipients[rid], steps)
  {
    var r := t.recipients[rid];
    if r.waId.Some? { assert ReportedFor(steps, r.waId.value) == ReportedFor(steps[1..], r.waId.value); }
  }

  lemma SentAllowance(t: Tables, t': Tables, steps: seq<Step>, accepted: bool, cid: Id, rid: Id)
    requires Inv(t) && steps != [] && OneCountedEach(steps) && SentOnce(t, t', rid, accepted)
    ensures One(CountedMover(t, t', cid, rid)) + Allowance(t'.recipients[rid], steps[1..])
            <= Allowance(t.recipients[rid], steps)
  {
    assert Agrees(t.messages, rid, t.recipients[rid]);
    RestHasOneCountedEach(steps);
    if accepted {
      assert CountedMoves(RecipientStatus.Sent, ReportedFor(steps[1..], t'.recipients[rid].waId.value)) <= 1;
    }
  }

  /** An update either finds the recipient's message and moves the recipient, or leaves the recipient alone. */
  lemma ReceiveMoves(t: Tables, s: Step, rid: Id)
    requires Inv(t) && rid in t.recipients && s.Receive?
    ensures var r, t' := t.recipients[rid], Apply(t, s);
            && rid in t'.recipients && t'.recipients[rid].waId == r.waId
            && (t'.recipients[rid] == r
                || (r.status != RecipientStatus.Queued && r.waId == Some(s.update.waId)
                    && ReportedBy(s, s.update.waId) != []
                    && t'.recipients[rid].status == Image(ReportedBy(s, s.update.waId)[0])))
  {
    var mid := Target(t, s.update.waId);
    ReceiveEffect(t, s.update, s.now);
    if Found(t, s.update) && Owns(t.messages, mid.value, rid) {
      OwnerIsSole(t.messages, rid, t.recipients[rid], mid.value);
    }
  }

  lemma ReceiveAllowance(t: Tables, steps: seq<Step>, cid: Id, rid: Id)
    requires Inv(t) && steps != [] && rid in t.recipients && steps[0].Receive?
    ensures var t' := Apply(t, steps[0]);
            rid in t'.recipients
            && NamedNow(t, steps[0], cid, rid) + Allowance(t'.recipients[rid], steps[1..])
               <= Allowance(t.recipients[rid], steps)
  {
    var t', r := Apply(t, steps[0]), t.recipients[rid];
    ReceiveMoves(t, steps[0], rid);
    if t'.recipients[rid] == r {
      if r.waId.Some? { SkipReported(r.status, steps, r.waId.value); }
    } else {
      var waId, rest := steps[0].update.waId, ReportedFor(steps[1..], steps[0].update.waId);
      var to := ReportedBy(steps[0], waId)[0];
      assert ReportedFor(steps, waId) == [to] + rest && ([to] + rest)[1..] == rest;
      assert t'.recipients[rid].status != RecipientStatus.Queued;
    }
  }

  lemma OtherAllowance(t: Tables, steps: seq<Step>, cid: Id, rid: Id)
    requires Inv(t) && steps != [] && rid in t.recipients && !steps[0].Send? && !steps[0].Receive?
    ensures var t' := Apply(t, steps[0]);
            rid in t'.recipients
            && NamedNow(t, steps[0], cid, rid) + Allowance(t'.recipients[rid], steps[1..])
               <= Allowance(t.recipients[rid], steps)
  {
    QuietStepKeepsRecipients(t, steps[0]);
    UnmovedAllowance(t, Apply(t, steps[0]), steps, cid, rid);
  }

  lemma StepAllowance(t: Tables, steps: seq<Step>, cid: Id, rid: Id)
    requires Inv(t) && steps != [] && OneCountedEach(steps) && rid in t.recipients
    ensures var t' := Apply(t, steps[0]);
            rid in t'.recipients
            && NamedNow(t, steps[0], cid, rid) + Allowance(t'.recipients[rid], steps[1..])
               <= Allowance(t.recipients[rid], steps)
  {
    match steps[0]
    case Send(_, _) => SendAllowance(t, steps, cid, rid);
    case Receive(_, _) => ReceiveAllowance(t, steps, cid, rid);
    case _ => OtherAllowance(t, steps, cid, rid);
  }

  /** Recipients that a step creates are queued. */
  lemma NewAllowance(t: Tables, s: Step, rid: Id)
    requires Structured(t) && rid !in t.recipients && rid in Apply(t, s).recipients
    ensures Apply(t, s).recipients[rid].status == RecipientStatus.Queued
  {
    NewRecipientsAreUploads(t, s, rid);
  }

  // ------------------------------------------------------------ runs

  lemma EntryOccurs(t: Tables, t': Tables, cid: Id, rid: Id)
    ensures Occurrences(LogEntry(t, t', cid), rid) <= One(CountedMover(t, t', cid, rid))
  {
    var entry := LogEntry(t, t', cid);
    if entry != [] { assert entry == [entry[0]] && entry[1..] == []; }
  }

  lemma {:induction false} LogWithinAllowance(t: Tables, steps: seq<Step>, cid: Id, rid: Id)
    requires Inv(t) && OneCountedEach(steps)
    ensures Occurrences(CountedLog(t, steps, cid), rid)
            <= if rid in t.recipients then Allowance(t.recipients[rid], steps) else 1
    decreases |steps|
  {
    if steps != [] {
      var t' := Apply(t, steps[0]);
      StepKeepsInv(t, steps[0]);
      RestHasOneCountedEach(steps);
      LogWithinAllowance(t', steps[1..], cid, rid);
      OccurrencesConcat(LogEntry(t, t', cid), CountedLog(t', steps[1..], cid), rid);
      EntryOccurs(t, t', cid, rid);
      if rid in t.recipients {
        StepAllowance(t, steps, cid, rid);
      } else if rid in t'.recipients {
        NewAllowance(t, steps[0], rid);
      }
    }
  }

  /**
   In a run whose updates report at most one counted status for each message id, a completed campaign
   has counted every one of its recipients exactly once, and none of them is still queued.
   */
  lemma OneCountedEachCountsEveryone(t0: Tables, steps: seq<Step>, cid: Id)
    requires Initial(t0) && OneCountedEach(steps)
    requires cid in Run(t0, steps).campaigns && Run(t0, steps).campaigns[cid].status == CampaignStatus.Completed
    ensures Distinct(CountedLog(t0, steps, cid))
    ensures Elements(CountedLog(t0, steps, cid)) == RecipientsOf(Run(t0, steps).recipients, cid)
    ensures QueuedOf(Run(t0, steps).recipients, cid) == {}
  {
    var log := CountedLog(t0, steps, cid);
    InitialInv(t0);
    forall i, j | 0 <= i < j < |log| ensures log[i] != log[j] {
      if log[i] == log[j] {
        TwiceOccurs(log, i, j);
        LogWithinAllowance(t0, steps, cid, log[i]);
      }
    }
    CompletedCountsEveryone(t0, steps, cid);
  }

  // ------------------------------------------------------------ who was counted, read off the rows

  predicate TimeSet(m: Message) {
    m.deliveredAt.Some? || m.readAt.Some? || m.failedAt.Some?
  }

  /** The recipient's message has been delivered, read or failed at some time. */
  ghost predicate Marked(t: Tables, rid: Id) {
    exists mid :: Owns(t.messages, mid, rid) && TimeSet(t.messages[mid])
  }

  /** A message in a counted state has the time of that state. */
  predicate TimedAsItIs(m: Message) {
    && (m.status == MessageStatus.Delivered ==> m.deliveredAt.Some?)
    && (m.status == MessageStatus.Read ==> m.readAt.Some?)
    && (m.status == MessageStatus.Failed ==> m.failedAt.Some?)
  }

  ghost predicate AllTimed(t: Tables) {
    forall mid :: mid in t.messages && t.messages[mid].recipient.Some? ==> TimedAsItIs(t.messages[mid])
  }

  /** A row that takes an effect is timed, and has a time exactly if it had one or the effect is a counted one. */
  lemma EffectTimes(m: Message, e: Effect)
    requires TimedAsItIs(m) && e.to != MessageStatus.Queued
    ensures TimedAsItIs(UpdateMessage(m, e))
    ensures TimeSet(UpdateMessage(m, e)) <==> TimeSet(m) || IsCounted(Image(e.to))
  {
  }

  /** A recipient's mark is its only message's. */
  lemma MarkedByOwner(t: Tables, rid: Id, mid: Id)
    requires rid in t.recipients && Agrees(t.messages, rid, t.recipients[rid]) && Owns(t.messages, mid, rid)
    ensures Marked(t, rid) <==> TimeSet(t.messages[mid])
  {
    OwnerIsSole(t.messages, rid, t.recipients[rid], mid);
  }

  lemma QueuedIsUnmarked(t: Tables, rid: Id)
    requires rid in t.recipients && Agrees(t.messages, rid, t.recipients[rid])
    requires t.recipients[rid].status == RecipientStatus.Queued
    ensures !Marked(t, rid)
  {
  }

  /** What one step does to a recipient's mark. */
  ghost predicate MarkMoves(t: Tables, t': Tables, rid: Id) {
    Marked(t', rid) <==>
      Marked(t, rid) || (rid in t.recipients && CountedMover(t, t', t.recipients[rid].campaignId, rid))
  }

  lemma SameMessagesSameMark(t: Tables, t': Tables, rid: Id)
    requires forall mid :: Owns(t'.messages, mid, rid) <==> Owns(t.messages, mid, rid)
    requires forall mid :: Owns(t.messages, mid, rid) ==> mid in t'.messages && t'.messages[mid] == t.messages[mid]
    ensures Marked(t', rid) <==> Marked(t, rid)
  {
    if Marked(t, rid) {
      var mid :| Owns(t.messages, mid, rid) && TimeSet(t.messages[mid]);
      assert Owns(t'.messages, mid, rid);
    }
    if Marked(t', rid) {
      var mid :| Owns(t'.messages, mid, rid) && TimeSet(t'.messages[mid]);
      assert Owns(t.messages, mid, rid);
    }
  }

  lemma SentMarks(t: Tables, rid: Id, env: SendEnv, other: Id)
    requires Inv(t) && other in t.recipients
    ensures MarkMoves(t, CommittedSend(t, rid, env), other)
  {
    SendEffect(t, rid, env);
    var t' := CommittedSend(t, rid, env);
    if t' != t {
      SentOnceTimes(t, rid, env);
      SentOnceMarks(t, t', rid, env.reply.Accepted?, other);
    }
  }

  /** A refusal sets the time of failure; an accepted send sets none of the three. */
  lemma SentOnceTimes(t: Tables, rid: Id, env: SendEnv)
    requires CommittedSend(t, rid, env) != t
    ensures var t' := CommittedSend(t, rid, env);
            t.nextId in t'.messages && (TimeSet(t'.messages[t.nextId]) <==> !env.reply.Accepted?)
            && TimedAsItIs(t'.messages[t.nextId])
  {
  }

  lemma SentOnceMarks(t: Tables, t': Tables, rid: Id, accepted: bool, other: Id)
    requires Inv(t) && other in t.recipients && SentOnce(t, t', rid, accepted)
    requires TimeSet(t'.messages[t.nextId]) <==> !accepted
    ensures MarkMoves(t, t', other)
  {
    assert t.nextId !in t.messages;
    if other == rid {
      SentWasQueued(t, t', rid, accepted);
      QueuedIsUnmarked(t, rid);
      assert Agrees(t.messages, rid, t.recipients[rid]);
      assert Owns(t'.messages, t.nextId, rid);
      assert forall mid :: Owns(t'.messages, mid, rid) ==> mid == t.nextId || Owns(t.messages, mid, rid);
    } else {
      assert forall mid :: Owns(t'.messages, mid, other) <==> Owns(t.messages, mid, other);
      SameMessagesSameMark(t, t', other);
    }
  }

  lemma ReceiveMarks(t: Tables, u: StatusUpdate, now: Time, rid: Id)
    requires Inv(t) && AllTimed(t) && rid in t.recipients
    ensures MarkMoves(t, ApplyUpdate(t, u, now), rid)
  {
    var t', mid := ApplyUpdate(t, u, now), Target(t, u.waId);
    ReceiveEffect(t, u, now);
    if Found(t, u) {
      if Owns(t.messages, mid.value, rid) {
        ReceiveMarksOwner(t, u, now, rid, mid.value);
      } else {
        ReceivedMarksNoOther(t, t', Parse(u, now).value, now, rid, mid.value);
      }
    }
  }

  lemma ReceivedMarksNoOther(t: Tables, t': Tables, e: Effect, now: Time, rid: Id, mid: Id)
    requires rid in t.recipients && !Owns(t.messages, mid, rid) && UpdatedOnce(t, t', mid, e, now)
    ensures MarkMoves(t, t', rid)
  {
    assert forall other :: Owns(t'.messages, other, rid) <==> Owns(t.messages, other, rid);
    SameMessagesSameMark(t, t', rid);
    assert t'.recipients[rid] == t.recipients[rid];
  }

  lemma ReceiveMarksOwner(t: Tables, u: StatusUpdate, now: Time, rid: Id, mid: Id)
    requires Inv(t) && AllTimed(t) && rid in t.recipients && Owns(t.messages, mid, rid)
    requires Target(t, u.waId) == Some(mid) && Parse(u, now).Some? && !u.timestamp.Malformed?
    ensures MarkMoves(t, ApplyUpdate(t, u, now), rid)
  {
    var t', e := ApplyUpdate(t, u, now), Parse(u, now).value;
    ReceiveKeepsAgreement(t, u, now);
    ReceiveEffect(t, u, now);
    ReceivedMarksOwner(t, t', e, now, rid, mid);
  }

  lemma ReceivedMarksOwner(t: Tables, t': Tables, e: Effect, now: Time, rid: Id, mid: Id)
    requires Inv(t) && AllAgree(t') && AllTimed(t) && rid in t.recipients && Owns(t.messages, mid, rid)
    requires UpdatedOnce(t, t', mid, e, now) && e.to != MessageStatus.Queued
    ensures MarkMoves(t, t', rid)
  {
    OwnerIsSole(t.messages, rid, t.recipients[rid], mid);
    MarkedByOwner(t, rid, mid);
    assert Owns(t'.messages, mid, rid);
    MarkedByOwner(t', rid, mid);
    EffectTimes(t.messages[mid], e);
  }

  lemma QuietMarks(t: Tables, s: Step, rid: Id)
    requires Inv(t) && rid in t.recipients && !s.Send? && !s.Receive?
    ensures MarkMoves(t, Apply(t, s), rid)
  {
    QuietStepKeepsRecipients(t, s);
    QuietStepKeepsOwners(t, s, rid);
    SameMessagesSameMark(t, Apply(t, s), rid);
  }

  lemma QuietStepKeepsOwners(t: Tables, s: Step, rid: Id)
    requires Structured(t) && !s.Send? && !s.Receive?
    ensures var t' := Apply(t, s);
            && (forall mid :: Owns(t'.messages, mid, rid) <==> Owns(t.messages, mid, rid))
            && (forall mid :: Owns(t.messages, mid, rid) ==> mid in t'.messages && t'.messages[mid] == t.messages[mid])
  {
    if s.Direct? || s.Inbound? {
      OneMoreMessage(t, s);
      if Apply(t, s).messages != t.messages { UnownedAdded(t.messages, t.nextId, Apply(t, s).messages[t.nextId], rid); }
    } else if s.AddRecipients? {
      assert Apply(t, s).messages == t.messages;
    } else {
      AdministrativeFrame(t, s);
    }
  }

  /** Direct sends and inbound messages add a message that belongs to no recipient. */
  lemma OneMoreMessage(t: Tables, s: Step)
    requires Structured(t) && (s.Direct? || s.Inbound?)
    ensures var t' := Apply(t, s);
            t'.messages == t.messages
            || (t.nextId !in t.messages && t.nextId in t'.messages && t'.messages[t.nextId].recipient.None?
                && t'.messages == t.messages[t.nextId := t'.messages[t.nextId]])
  {
  }

  lemma UnownedAdded(messages: map<Id, Message>, mid: Id, m: Message, rid: Id)
    requires mid !in messages && m.recipient.None?
    ensures forall other :: Owns(messages[mid := m], other, rid) <==> Owns(messages, other, rid)
    ensures forall other :: Owns(messages, other, rid) ==> messages[mid := m][other] == messages[other]
  {
  }

  lemma StepMarks(t: Tables, s: Step, rid: Id)
    requires Inv(t) && AllTimed(t) && rid in t.recipients
    ensures MarkMoves(t, Apply(t, s), rid)
  {
    match s
    case Send(other, env) => SentMarks(t, other, env, rid);
    case Receive(u, now) => ReceiveMarks(t, u, now, rid);
    case _ => QuietMarks(t, s, rid);
  }

  lemma StepKeepsTimes(t: Tables, s: Step)
    requires Inv(t) && AllTimed(t)
    ensures AllTimed(Apply(t, s))
  {
    match s
    case Send(rid, env) => SendKeepsTimes(t, rid, env);
    case Receive(u, now) => ReceiveKeepsTimes(t, u, now);
    case AddRecipients(_, _) => assert Apply(t, s).messages == t.messages;
    case Direct(_, _) => OneMoreMessage(t, s);
    case Inbound(_, _, _) => OneMoreMessage(t, s);
    case _ => AdministrativeFrame(t, s);
  }

  lemma SendKeepsTimes(t: Tables, rid: Id, env: SendEnv)
    requires Inv(t) && AllTimed(t)
    ensures AllTimed(CommittedSend(t, rid, env))
  {
    SendEffect(t, rid, env);
    if CommittedSend(t, rid, env) != t { SentOnceTimes(t, rid, env); }
  }

  lemma ReceiveKeepsTimes(t: Tables, u: StatusUpdate, now: Time)
    requires AllTimed(t)
    ensures AllTimed(ApplyUpdate(t, u, now))
  {
    var t' := ApplyUpdate(t, u, now);
    Interleaving.UpdateFrame(t, u, now);
    if t' != t {
      var mid, e := Target(t, u.waId).value, Parse(u, now).value;
      assert t'.messages[mid] == UpdateMessage(t.messages[mid], e);
      if t.messages[mid].recipient.Some? { EffectTimes(t.messages[mid], e); }
    }
  }

  /** No step makes a counted move of two recipients. */
  lemma OneMoverAStep(t: Tables, s: Step, cid: Id, rid: Id)
    requires Inv(t)
    ensures rid in LogEntry(t, Apply(t, s), cid) <==> CountedMover(t, Apply(t, s), cid, rid)
  {
    var t' := Apply(t, s);
    var entry := LogEntry(t, t', cid);
    if CountedMover(t, t', cid, rid) {
      SoleMover(t, s, cid, rid, entry[0]);
    }
  }

  lemma SoleMover(t: Tables, s: Step, cid: Id, a: Id, b: Id)
    requires Inv(t) && CountedMover(t, Apply(t, s), cid, a) && CountedMover(t, Apply(t, s), cid, b)
    ensures a == b
  {
    assert Rewritten(t, Apply(t, s), a) && Rewritten(t, Apply(t, s), b);
    match s
    case Send(rid, env) => SendMovesOne(t, rid, env);
    case Receive(u, now) => ReceiveMovesOne(t, u, now);
    case _ => QuietStepKeepsRecipients(t, s);
  }

  /** At most one recipient's row differs. */
  ghost predicate OneRewritten(t: Tables, t': Tables) {
    forall a, b :: Rewritten(t, t', a) && Rewritten(t, t', b) ==> a == b
  }

  ghost predicate Rewritten(t: Tables, t': Tables, rid: Id) {
    rid in t.recipients && rid in t'.recipients && t'.recipients[rid] != t.recipients[rid]
  }

  lemma SendMovesOne(t: Tables, rid: Id, env: SendEnv)
    ensures OneRewritten(t, CommittedSend(t, rid, env))
  {
    SendEffect(t, rid, env);
  }

  lemma ReceiveMovesOne(t: Tables, u: StatusUpdate, now: Time)
    ensures OneRewritten(t, ApplyUpdate(t, u, now))
  {
    ReceiveEffect(t, u, now);
  }

  /** Over any run a recipient is marked exactly if it was before or the log names it. */
  lemma {:induction false} MarkedIffLogged(t: Tables, steps: seq<Step>, cid: Id, rid: Id)
    requires Inv(t) && AllTimed(t)
    requires rid in RecipientsOf(Run(t, steps).recipients, cid)
    ensures Marked(Run(t, steps), rid) <==> (rid in t.recipients && Marked(t, rid)) || rid in CountedLog(t, steps, cid)
    decreases |steps|
  {
    if steps != [] {
      var t' := Apply(t, steps[0]);
      StepKeepsInv(t, steps[0]);
      StepKeepsTimes(t, steps[0]);
      MarkedIffLogged(t', steps[1..], cid, rid);
      OneMoverAStep(t, steps[0], cid, rid);
      if rid in t.recipients {
        StepKeepsCampaign(t, steps[0], rid);
        RunKeepsCampaign(t', steps[1..], rid);
        StepMarks(t, steps[0], rid);
      } else if rid in t'.recipients {
        NewAllowance(t, steps[0], rid);
        assert Agrees(t'.messages, rid, t'.recipients[rid]);
        QueuedIsUnmarked(t', rid);
      }
    }
  }

  /**
   In every reachable state a campaign's counters have counted every one of its recipients exactly when each
   recipient's message has a time of delivery, reading or failure.
   */
  lemma EveryoneCountedIff(t0: Tables, steps: seq<Step>, cid: Id)
    requires Initial(t0)
    ensures var t := Run(t0, steps);
            Elements(CountedLog(t0, steps, cid)) == RecipientsOf(t.recipients, cid) <==>
            forall rid: Id :: rid in RecipientsOf(t.recipients, cid) ==> Marked(t, rid)
  {
    var t, log := Run(t0, steps), CountedLog(t0, steps, cid);
    InitialInv(t0);
    LogMembers(t0, steps, cid);
    forall rid: Id | rid in RecipientsOf(t.recipients, cid) ensures Marked(t, rid) <==> rid in Elements(log) {
      MarkedIffLogged(t0, steps, cid, rid);
    }
    assert Elements(log) <= RecipientsOf(t.recipients, cid);
  }
}

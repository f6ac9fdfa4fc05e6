/**
 What becomes of the rate limiter when a caller is lost between its INCR and its EXPIRE.
 */
module LimiterLoss {
  import opened RateLimiter

  /**
   If the call that created a counter is lost before its EXPIRE, the counter never expires and never
   shrinks, whatever the other calls do.
   */
  lemma {:induction false} OrphanedCounterNeverExpires(limits: Limits, s: State, commands: seq<Command>, key: Key,
                                                       creator: CallId)
    requires limits.Valid() && Inv(limits, s) && Legal(limits, s, commands) && Expiring(s.calls, creator, key)
    requires forall i :: 0 <= i < |commands| ==> !By(commands[i], creator)
    ensures key in s.entries
    ensures var t := Run(limits, s, commands);
            key in t.entries && t.entries[key].expiry.None? && t.entries[key].count >= s.entries[key].count
    decreases |commands|
  {
    assert KeyInv(limits, s, key) && ExpiringMatches(s, creator, key);
    if commands != [] {
      var c := commands[0];
      var s' := Step(limits, s, c);
      assert !By(c, creator);
      OthersCannotExpire(limits, s, c, key, creator);
      RunKeepsInv(limits, s, [c]);
      assert [c][1..] == [] && Run(limits, s, [c]) == s';
      assert forall i :: 0 <= i < |commands[1..]| ==> commands[1..][i] == commands[i + 1];
      OrphanedCounterNeverExpires(limits, s', commands[1..], key, creator);
    }
  }

  lemma OthersCannotExpire(limits: Limits, s: State, c: Command, key: Key, creator: CallId)
    requires Enabled(s, c) && KeyInv(limits, s, key) && Expiring(s.calls, creator, key) && !By(c, creator)
    ensures key in s.entries && key in Step(limits, s, c).entries
    ensures Step(limits, s, c).entries[key].count >= s.entries[key].count
    ensures Expiring(Step(limits, s, c).calls, creator, key)
  {
    assert ExpiringMatches(s, creator, key);
  }

  /** The calls for a phone number that came after these ones and have not been refused. */
  ghost function NotRefused(before: set<CallId>, s: State, phone: string): set<CallId> {
    set call | call in s.calls && call !in before && s.calls[call].phone == phone && s.calls[call].stage != Done(false)
  }

  /** A command of anyone but the creator lets a call in only by counting up to the limit. */
  lemma StepAdmits(limits: Limits, s: State, c: Command, before: set<CallId>, phone: string, creator: CallId)
    requires Enabled(s, c) && KeyInv(limits, s, PhoneKey(phone)) && Expiring(s.calls, creator, PhoneKey(phone))
    requires !By(c, creator)
    requires before <= s.calls.Keys
    ensures var s', key := Step(limits, s, c), PhoneKey(phone);
            && key in s.entries && key in s'.entries && before <= s'.calls.Keys
            && (NotRefused(before, s', phone) <= NotRefused(before, s, phone)
                || (s'.entries[key].count == s.entries[key].count + 1 <= limits.perSecond
                    && NotRefused(before, s', phone) == NotRefused(before, s, phone) + {c.call}))
  {
    var key := PhoneKey(phone);
    OthersCannotExpire(limits, s, c, key, creator);
    assert ExpiringMatches(s, creator, key);
    if c.IncrPhone? && c.phone == phone { CountsArePositive(s.History(key), limits.Window(key)); }
  }

  /** What the calls let in so far have used of a counter that began at `start`. */
  ghost predicate WithinOrphan(limits: Limits, s: State, before: set<CallId>, phone: string, start: int) {
    var key, n := PhoneKey(phone), |NotRefused(before, s, phone)|;
    && before <= s.calls.Keys && key in s.entries && start <= s.entries[key].count
    && (n == 0 || start + n <= Min(s.entries[key].count, limits.perSecond))
  }

  lemma StepKeepsWithin(limits: Limits, s: State, c: Command, before: set<CallId>, phone: string, start: int,
                        creator: CallId)
    requires Enabled(s, c) && KeyInv(limits, s, PhoneKey(phone)) && Expiring(s.calls, creator, PhoneKey(phone))
    requires !By(c, creator)
    requires WithinOrphan(limits, s, before, phone, start)
    ensures WithinOrphan(limits, Step(limits, s, c), before, phone, start)
  {
    var s' := Step(limits, s, c);
    OthersCannotExpire(limits, s, c, PhoneKey(phone), creator);
    StepAdmits(limits, s, c, before, phone, creator);
    if NotRefused(before, s', phone) <= NotRefused(before, s, phone) {
      SubsetSize(NotRefused(before, s', phone), NotRefused(before, s, phone));
    }
  }

  lemma {:induction false} RunKeepsWithin(limits: Limits, s: State, commands: seq<Command>, before: set<CallId>,
                                          phone: string, start: int, creator: CallId)
    requires limits.Valid() && Inv(limits, s) && Legal(limits, s, commands)
    requires Expiring(s.calls, creator, PhoneKey(phone))
    requires forall i :: 0 <= i < |commands| ==> !By(commands[i], creator)
    requires WithinOrphan(limits, s, before, phone, start)
    ensures WithinOrphan(limits, Run(limits, s, commands), before, phone, start)
    decreases |commands|
  {
    if commands != [] {
      var c, s' := commands[0], Step(limits, s, commands[0]);
      assert KeyInv(limits, s, PhoneKey(phone)) && !By(c, creator);
      StepKeepsWithin(limits, s, c, before, phone, start, creator);
      OthersCannotExpire(limits, s, c, PhoneKey(phone), creator);
      RunOne(limits, s, c);
      RunKeepsInv(limits, s, [c]);
      assert forall i :: 0 <= i < |commands[1..]| ==> commands[1..][i] == commands[i + 1];
      RunKeepsWithin(limits, s', commands[1..], before, phone, start, creator);
    }
  }

  /**
   Once the creator of a phone number's counter is lost, the calls still to come are let in only until the
   counter is full, in whatever time: at most what is left of one window's limit, ever.
   */
  lemma OrphanAdmitsTheRest(limits: Limits, s: State, commands: seq<Command>, phone: string, creator: CallId)
    requires limits.Valid() && Inv(limits, s) && Legal(limits, s, commands)
    requires Expiring(s.calls, creator, PhoneKey(phone))
    requires forall i :: 0 <= i < |commands| ==> !By(commands[i], creator)
    ensures PhoneKey(phone) in s.entries
    ensures var letIn := |NotRefused(s.calls.Keys, Run(limits, s, commands), phone)|;
            letIn == 0 || s.entries[PhoneKey(phone)].count + letIn <= limits.perSecond
  {
    assert KeyInv(limits, s, PhoneKey(phone)) && ExpiringMatches(s, creator, PhoneKey(phone));
    assert NotRefused(s.calls.Keys, s, phone) == {};
    RunKeepsWithin(limits, s, commands, s.calls.Keys, phone, s.entries[PhoneKey(phone)].count, creator);
  }

  /** So once that counter has reached the limit, every later call for the phone number is refused, in every run. */
  lemma FullOrphanRefuses(limits: Limits, s: State, commands: seq<Command>, phone: string, creator: CallId)
    requires limits.Valid() && Inv(limits, s) && Legal(limits, s, commands)
    requires Expiring(s.calls, creator, PhoneKey(phone))
    requires forall i :: 0 <= i < |commands| ==> !By(commands[i], creator)
    requires PhoneKey(phone) in s.entries && s.entries[PhoneKey(phone)].count >= limits.perSecond
    ensures var t := Run(limits, s, commands);
            forall call :: call in t.calls && call !in s.calls && t.calls[call].phone == phone ==>
                t.calls[call].stage == Done(false)
  {
    OrphanAdmitsTheRest(limits, s, commands, phone, creator);
    var t := Run(limits, s, commands);
    forall call | call in t.calls && call !in s.calls && t.calls[call].phone == phone
      ensures t.calls[call].stage == Done(false)
    {
      assert call !in NotRefused(s.calls.Keys, t, phone);
    }
  }
}

/**
 When grants return, as opposed to when they are counted.
 */
module LimiterReturns {
  import opened Wrappers
  import opened RateLimiter

  // ------------------------------------------------------------ a bound for calls that do not take long

  predicate HitBy(h: seq<Hit>, i: nat, time: Instant) {
    i < |h| && h[i].time <= time
  }

  /** A call's increments are not later than its latest command, and that is not later than now. */
  predicate Timed(s: State, k: Call) {
    && k.latest <= s.now
    && HitBy(s.History(k.KeyPhone()), k.phoneHit, k.latest)
    && (k.stage == ExpiringRecipient || k.stage == Done(true) ==>
        HitBy(s.History(k.KeyRecipient()), k.recipientHit, k.latest))
  }

  predicate AllTimed(s: State) {
    forall call :: call in s.calls ==> Timed(s, s.calls[call])
  }

  lemma StepKeepsTimed(limits: Limits, s: State, c: Command, call: CallId)
    requires Enabled(s, c) && AllTimed(s) && call in Step(limits, s, c).calls
    ensures Timed(Step(limits, s, c), Step(limits, s, c).calls[call])
  {
    var k := Step(limits, s, c).calls[call];
    HistoriesGrow(limits, s, c, k.KeyPhone());
    HistoriesGrow(limits, s, c, k.KeyRecipient());
    assert call in s.calls ==> Timed(s, s.calls[call]);
  }

  lemma {:induction false} RunKeepsTimed(limits: Limits, s: State, commands: seq<Command>)
    requires Legal(limits, s, commands) && AllTimed(s)
    ensures AllTimed(Run(limits, s, commands))
    decreases |commands|
  {
    if commands != [] {
      var s' := Step(limits, s, commands[0]);
      forall call | call in s'.calls ensures Timed(s', s'.calls[call]) { StepKeepsTimed(limits, s, commands[0], call); }
      RunKeepsTimed(limits, s', commands[1..]);
    }
  }

  /** The calls for a key that were granted and returned in [from, to). */
  ghost function Returned(s: State, key: Key, from: Instant, to: Instant): set<CallId> {
    set call | call in s.calls && s.calls[call].stage == Done(true)
               && (key == s.calls[call].KeyPhone() || key == s.calls[call].KeyRecipient())
               && from <= s.calls[call].latest < to
  }

  /** Every granted call for the key returned at most d milliseconds after it was counted. */
  predicate Prompt(s: State, key: Key, d: nat) {
    forall call :: call in s.calls && s.calls[call].stage == Done(true)
                   && (key == s.calls[call].KeyPhone() || key == s.calls[call].KeyRecipient())
                   ==> s.calls[call].latest <= TimeOf(s, s.calls[call], key) + d
  }

  /** The number of windows that d milliseconds reach into. */
  function WindowsIn(d: nat, window: nat): (n: nat)
    requires window > 0
    ensures d <= n * window < d + window
  {
    (d + window - 1) / window
  }

  lemma ReturnedWereGranted(s: State, key: Key, d: nat, from: Instant, to: Instant, earlier: Instant)
    requires AllTimed(s) && Prompt(s, key, d) && earlier <= from - d
    ensures Returned(s, key, from, to) <= Granted(s, key, earlier, to)
  {
    forall call | call in Returned(s, key, from, to) ensures call in Granted(s, key, earlier, to) {
      assert Timed(s, s.calls[call]);
    }
  }

  /**
   If no granted call takes longer than d milliseconds from its INCR of the key to its return, the
   grants that return in a span of k windows number less than k + 1 limits and one more for each
   window that d reaches into.
   */
  lemma ReturnBound(limits: Limits, s0: State, commands: seq<Command>, key: Key, from: Instant, k: nat, d: nat)
    requires limits.Valid() && Initial(s0) && Legal(limits, s0, commands)
    requires Prompt(Run(limits, s0, commands), key, d)
    ensures |Returned(Run(limits, s0, commands), key, from, from + k * limits.Window(key))|
            <= (k + WindowsIn(d, limits.Window(key)) + 1) * limits.Max(key) - 1
  {
    var s, window := Run(limits, s0, commands), limits.Window(key);
    var extra := WindowsIn(d, window);
    var earlier, to := from - extra * window, from + k * window;
    RunKeepsTimed(limits, s0, commands);
    ReturnedWereGranted(s, key, d, from, to, earlier);
    assert to == earlier + (k + extra) * window;
    RateBound(limits, s0, commands, key, earlier, k + extra);
    SubsetSize(Returned(s, key, from, to), Granted(s, key, earlier, to));
  }

  // ------------------------------------------------------------ no bound without that

  /** The n-th of a family of distinct recipients. */
  function Numbered(n: nat): (r: string)
    ensures |r| == n
  {
    if n == 0 then "" else Numbered(n - 1) + "1"
  }

  predicate WaitsAs(k: Call, phone: string, i: nat, m: nat) {
    k.phone == phone && k.recipient == Numbered(i) && k.stage == if i < m then Done(true) else CountingRecipient
  }

  predicate Unused(entries: map<Key, Entry>, phone: string, i: nat) {
    RecipientKey(phone, Numbered(i)) !in entries
  }

  /**
   Calls 0 to n-1 for one phone number: the first m granted, the others past the phone counter and
   not yet at their recipient's; the phone counter has expired.
   */
  ghost predicate Waiting(s: State, phone: string, m: nat, n: nat) {
    && (forall i: nat :: i in s.calls <==> i < n)
    && (forall i: nat :: i in s.calls ==> WaitsAs(s.calls[i], phone, i, m))
    && !Live(s.entries, PhoneKey(phone), s.now)
    && (forall i: nat :: m <= i ==> Unused(s.entries, phone, i))
  }

  /** A first increment of a dead key, and the EXPIRE that follows it. */
  lemma FreshWindow(limits: Limits, s: State, call: CallId, key: Key)
    requires !Live(s.entries, key, s.now)
    ensures var t := Increment(s, call, key);
            && t.entries == s.entries[key := Entry(1, None)]
            && CountAt(t, key, |s.History(key)|) == 1
            && Expire(t.entries, key, s.now, limits.Window(key))
               == s.entries[key := Entry(1, Some(s.now + limits.Window(key)))]
  {
  }

  ghost predicate CameIn(s: State, t: State, call: CallId, phone: string, recipient: string) {
    && t.now == s.now && t.entries == s.entries[PhoneKey(phone) := Entry(1, Some(s.now + 1000))]
    && t.calls == s.calls[call := Call(phone, recipient, CountingRecipient, |s.History(PhoneKey(phone))|, 0, s.now)]
  }

  lemma ComeIn(limits: Limits, s: State, call: CallId, phone: string, recipient: string)
    requires limits.Valid() && call !in s.calls && !Live(s.entries, PhoneKey(phone), s.now)
    ensures var a, b := IncrPhone(call, phone, recipient), ExpirePhone(call);
            Legal(limits, s, [a] + [b]) && CameIn(s, Run(limits, s, [a] + [b]), call, phone, recipient)
  {
    var a, b := IncrPhone(call, phone, recipient), ExpirePhone(call);
    FreshWindow(limits, s, call, PhoneKey(phone));
    RunOne(limits, s, a);
    var t := Step(limits, s, a);
    var hit := |s.History(PhoneKey(phone))|;
    assert t.calls == s.calls[call := Call(phone, recipient, ExpiringPhone, hit, 0, s.now)];
    RunSnoc(limits, s, [a], b);
    assert Step(limits, t, b).calls == s.calls[call := Call(phone, recipient, CountingRecipient, hit, 0, s.now)];
  }

  lemma ArriveOne(limits: Limits, s: State, phone: string, n: nat)
    requires limits.Valid() && Waiting(s, phone, 0, n)
    ensures var cs := [IncrPhone(n, phone, Numbered(n))] + [ExpirePhone(n)] + [Tick(1000)];
            Legal(limits, s, cs) && Waiting(Run(limits, s, cs), phone, 0, n + 1)
  {
    var cs := [IncrPhone(n, phone, Numbered(n))] + [ExpirePhone(n)];
    ComeIn(limits, s, n, phone, Numbered(n));
    RunSnoc(limits, s, cs, Tick(1000));
    WaitingGrows(s, Run(limits, s, cs), Step(limits, Run(limits, s, cs), Tick(1000)), phone, n);
  }

  lemma WaitingGrows(s: State, u: State, v: State, phone: string, n: nat)
    requires Waiting(s, phone, 0, n) && CameIn(s, u, n, phone, Numbered(n)) && v == u.(now := u.now + 1000)
    ensures Waiting(v, phone, 0, n + 1)
  {
    forall i: nat ensures Unused(v.entries, phone, i) { assert Unused(s.entries, phone, i); }
  }

  ghost predicate WentOut(limits: Limits, s: State, t: State, call: CallId)
    requires call in s.calls
  {
    var key := s.calls[call].KeyRecipient();
    && t.now == s.now
    && t.entries == s.entries[key := Entry(1, Some(s.now + limits.Window(key)))]
    && t.calls == s.calls[call := s.calls[call].(stage := Done(true), recipientHit := |s.History(key)|,
        latest := s.now)]
  }

  lemma GoOut(limits: Limits, s: State, call: CallId)
    requires limits.Valid() && call in s.calls && s.calls[call].stage == CountingRecipient
    requires !Live(s.entries, s.calls[call].KeyRecipient(), s.now)
    ensures var a, b := IncrRecipient(call), ExpireRecipient(call);
            Legal(limits, s, [a] + [b]) && WentOut(limits, s, Run(limits, s, [a] + [b]), call)
  {
    var a, b := IncrRecipient(call), ExpireRecipient(call);
    var key := s.calls[call].KeyRecipient();
    FreshWindow(limits, s, call, key);
    RunOne(limits, s, a);
    var t := Step(limits, s, a);
    var hit := |s.History(key)|;
    assert t.calls == s.calls[call := s.calls[call].(stage := ExpiringRecipient, recipientHit := hit, latest := s.now)];
    RunSnoc(limits, s, [a], b);
    assert Step(limits, t, b).calls ==
        s.calls[call := s.calls[call].(stage := Done(true), recipientHit := hit, latest := s.now)];
  }

  lemma ReleaseOne(limits: Limits, s: State, phone: string, m: nat, n: nat)
    requires limits.Valid() && m < n && Waiting(s, phone, m, n)
    ensures var cs := [IncrRecipient(m)] + [ExpireRecipient(m)];
            Legal(limits, s, cs) && Waiting(Run(limits, s, cs), phone, m + 1, n)
  {
    assert WaitsAs(s.calls[m], phone, m, m) && Unused(s.entries, phone, m);
    GoOut(limits, s, m);
    WaitingShrinks(limits, s, Run(limits, s, [IncrRecipient(m)] + [ExpireRecipient(m)]), phone, m, n);
  }

  lemma WaitingShrinks(limits: Limits, s: State, t: State, phone: string, m: nat, n: nat)
    requires m < n && Waiting(s, phone, m, n) && WentOut(limits, s, t, m)
    ensures Waiting(t, phone, m + 1, n)
  {
    forall i: nat | m + 1 <= i ensures Unused(t.entries, phone, i) {
      assert Unused(s.entries, phone, i) && |Numbered(i)| != |Numbered(m)|;
    }
  }

  lemma {:induction false} Arrive(limits: Limits, s: State, phone: string, n: nat) returns (cs: seq<Command>)
    requires limits.Valid() && Initial(s)
    ensures Legal(limits, s, cs) && Waiting(Run(limits, s, cs), phone, 0, n)
  {
    if n == 0 {
      cs := [];
    } else {
      var before := Arrive(limits, s, phone, n - 1);
      var more := [IncrPhone(n - 1, phone, Numbered(n - 1))] + [ExpirePhone(n - 1)] + [Tick(1000)];
      ArriveOne(limits, Run(limits, s, before), phone, n - 1);
      RunAppend(limits, s, before, more);
      cs := before + more;
    }
  }

  lemma {:induction false} Release(limits: Limits, s: State, phone: string, m: nat, n: nat) returns (cs: seq<Command>)
    requires limits.Valid() && m <= n && Waiting(s, phone, m, n)
    ensures Legal(limits, s, cs) && Waiting(Run(limits, s, cs), phone, n, n)
    ensures forall i :: 0 <= i < |cs| ==> !cs[i].Tick?
    decreases n - m
  {
    if m == n {
      cs := [];
    } else {
      var first := [IncrRecipient(m)] + [ExpireRecipient(m)];
      ReleaseOne(limits, s, phone, m, n);
      var rest := Release(limits, Run(limits, s, first), phone, m + 1, n);
      RunAppend(limits, s, first, rest);
      cs := first + rest;
    }
  }

  /**
   The bound is about when calls are counted, not when they return: whatever the limits, any number
   of calls for one phone number can be granted at a single instant, with no tick of the clock
   between the first and the last.
   */
  lemma GrantsCanReturnTogether(limits: Limits, s0: State, phone: string, n: nat)
    returns (before: seq<Command>, together: seq<Command>)
    requires limits.Valid() && Initial(s0)
    ensures Legal(limits, s0, before) && Legal(limits, Run(limits, s0, before), together)
    ensures forall i :: 0 <= i < |together| ==> !together[i].Tick?
    ensures forall call: nat :: call < n ==>
              var s, t := Run(limits, s0, before), Run(limits, Run(limits, s0, before), together);
              call in s.calls && s.calls[call].stage == CountingRecipient
              && call in t.calls && t.calls[call].stage == Done(true) && t.calls[call].phone == phone
  {
    before := Arrive(limits, s0, phone, n);
    together := Release(limits, Run(limits, s0, before), phone, 0, n);
    var s, t := Run(limits, s0, before), Run(limits, Run(limits, s0, before), together);
    forall call: nat | call < n
      ensures WaitsAs(s.calls[call], phone, call, 0) && WaitsAs(t.calls[call], phone, call, n)
    {
      assert call in s.calls && call in t.calls;
    }
  }
}

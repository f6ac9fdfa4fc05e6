/**
 Runs that reach the bound on grants as they return: calls that are counted early, held back, and return
 together with those of the span.
 */
module LimiterHolds {
  import opened Wrappers
  import opened RateLimiter
  import opened LimiterReturns
  import opened LimiterBursts

  /** The call is past the phone number's counter, since this instant at the earliest. */
  predicate HeldCall(s: State, phone: string, i: nat, earliest: Instant) {
    && i in s.calls && s.calls[i].phone == phone && s.calls[i].recipient == Numbered(i)
    && s.calls[i].stage == CountingRecipient
    && s.calls[i].phoneHit < |s.History(PhoneKey(phone))|
    && earliest <= s.History(PhoneKey(phone))[s.calls[i].phoneHit].time
  }

  /** Calls a to n-1 are held; those from n on are still to come, and m of them find room. */
  ghost predicate Held(limits: Limits, s: State, phone: string, a: nat, n: nat, m: nat, earliest: Instant) {
    && limits.Valid() && Inv(limits, s) && a <= n
    && (forall i: nat :: i in s.calls ==> i < n)
    && (forall i: nat :: a <= i < n ==> HeldCall(s, phone, i, earliest))
    && (forall i: nat :: a <= i ==> Unused(s.entries, phone, i))
    && RoomFor(limits, s, PhoneKey(phone), m)
  }

  /** No call for the phone number has returned in between, and the prompt ones still are. */
  ghost predicate NoneReturned(s: State, t: State, phone: string) {
    && (forall from, to :: Returned(t, PhoneKey(phone), from, to) == Returned(s, PhoneKey(phone), from, to))
    && (forall d :: Prompt(s, PhoneKey(phone), d) ==> Prompt(t, PhoneKey(phone), d))
  }

  // ------------------------------------------------------------ holding

  lemma HoldOne(limits: Limits, s: State, phone: string, a: nat, n: nat, m: nat, earliest: Instant)
    requires Held(limits, s, phone, a, n, m, earliest) && m > 0 && earliest <= s.now
    ensures var cs := ComingIn(s, n, phone, Numbered(n));
            && Legal(limits, s, cs)
            && var t := Run(limits, s, cs);
            && Held(limits, t, phone, a, n + 1, m - 1, earliest) && t.now == s.now && NoneReturned(s, t, phone)
            && PhoneKey(phone) in t.entries && t.entries[PhoneKey(phone)] == NextEntry(limits, s, PhoneKey(phone))
  {
    var cs := ComingIn(s, n, phone, Numbered(n));
    PassPhone(limits, s, n, phone, Numbered(n));
    var t := Run(limits, s, cs);
    RunKeepsInv(limits, s, cs);
    forall i: nat | a <= i ensures Unused(t.entries, phone, i) { assert Unused(s.entries, phone, i); }
    forall i: nat | a <= i < n + 1 ensures HeldCall(t, phone, i, earliest) {
      if i < n { assert HeldCall(s, phone, i, earliest); }
    }
    HoldingReturnsNone(limits, s, t, n, phone);
  }

  lemma HoldingReturnsNone(limits: Limits, s: State, t: State, n: nat, phone: string)
    requires Inv(limits, s) && n !in s.calls && PastPhone(limits, s, t, n, phone, Numbered(n))
    ensures NoneReturned(s, t, phone)
  {
    var key := PhoneKey(phone);
    forall from, to ensures Returned(t, key, from, to) == Returned(s, key, from, to) {
      forall call: CallId ensures call in Returned(t, key, from, to) <==> call in Returned(s, key, from, to) {
        assert call in s.calls ==> t.calls[call] == s.calls[call];
      }
    }
    forall d | Prompt(s, key, d) ensures Prompt(t, key, d) {
      forall call | call in s.calls && s.calls[call].stage == Done(true)
                    && (key == s.calls[call].KeyPhone() || key == s.calls[call].KeyRecipient())
        ensures TimeOf(t, s.calls[call], key) == TimeOf(s, s.calls[call], key)
      {
        assert CallMatches(limits, s, s.calls[call], call);
        SameTime(limits, s, t, call, key);
      }
    }
  }

  /** m calls counted at the present instant, and held. */
  lemma {:induction false} HoldMany(limits: Limits, s: State, phone: string, a: nat, n: nat, m: nat, earliest: Instant,
                                    end: Instant) returns (cs: seq<Command>)
    requires Held(limits, s, phone, a, n, m, earliest) && earliest <= s.now
    requires EndsBy(s, PhoneKey(phone), end) && (Live(s.entries, PhoneKey(phone), s.now) || s.now + 1000 <= end)
    ensures Legal(limits, s, cs)
    ensures var t := Run(limits, s, cs);
            && Held(limits, t, phone, a, n + m, 0, earliest) && t.now == s.now && NoneReturned(s, t, phone)
            && EndsBy(t, PhoneKey(phone), end)
    decreases m
  {
    if m == 0 {
      cs := [];
    } else {
      var one := ComingIn(s, n, phone, Numbered(n));
      HoldOne(limits, s, phone, a, n, m, earliest);
      var t := Run(limits, s, one);
      var rest := HoldMany(limits, t, phone, a, n + 1, m - 1, earliest, end);
      RunAppend(limits, s, one, rest);
      cs := one + rest;
    }
  }

  /** Waiting changes nothing but the time. */
  lemma WaitHeld(limits: Limits, s: State, phone: string, a: nat, n: nat, m: nat, earliest: Instant, ms: nat)
    requires Held(limits, s, phone, a, n, m, earliest)
    ensures var t := s.(now := s.now + ms);
            && Legal(limits, s, [Tick(ms)]) && Run(limits, s, [Tick(ms)]) == t
            && Held(limits, t, phone, a, n, m, earliest) && NoneReturned(s, t, phone)
  {
    var t := s.(now := s.now + ms);
    RunOne(limits, s, Tick(ms));
    RunKeepsInv(limits, s, [Tick(ms)]);
    forall i: nat | a <= i < n ensures HeldCall(t, phone, i, earliest) { assert HeldCall(s, phone, i, earliest); }
    forall d | Prompt(s, PhoneKey(phone), d) ensures Prompt(t, PhoneKey(phone), d) {
      assert forall call :: call in s.calls ==>
          TimeOf(t, s.calls[call], PhoneKey(phone)) == TimeOf(s, s.calls[call], PhoneKey(phone));
    }
  }

  /** The next window, opened the instant the last one ends and all its calls held. */
  lemma HoldWindow(limits: Limits, s: State, phone: string, a: nat, n: nat, earliest: Instant, end: Instant)
    returns (cs: seq<Command>)
    requires Held(limits, s, phone, a, n, 0, earliest) && earliest <= s.now <= end && EndsBy(s, PhoneKey(phone), end)
    ensures Legal(limits, s, cs)
    ensures var t := Run(limits, s, cs);
            && Held(limits, t, phone, a, n + limits.perSecond, 0, earliest) && t.now == end && NoneReturned(s, t, phone)
            && EndsBy(t, PhoneKey(phone), end + 1000)
  {
    var u := s.(now := end);
    WaitHeld(limits, s, phone, a, n, 0, earliest, end - s.now);
    assert Held(limits, u, phone, a, n, limits.perSecond, earliest);
    var rest := HoldMany(limits, u, phone, a, n, limits.perSecond, earliest, end + 1000);
    RunAppend(limits, s, [Tick(end - s.now)], rest);
    cs := [Tick(end - s.now)] + rest;
  }

  /** Where windows of held calls lead. */
  ghost predicate AfterHolds(limits: Limits, s: State, t: State, phone: string, a: nat, n: nat, earliest: Instant,
                             end: Instant) {
    && Held(limits, t, phone, a, n, 0, earliest) && NoneReturned(s, t, phone)
    && EndsBy(t, PhoneKey(phone), end) && earliest <= t.now <= end
  }

  /** e more windows; the last one is still open for a second when they are spent. */
  lemma {:induction false} HoldWindows(limits: Limits, s: State, phone: string, a: nat, n: nat, earliest: Instant,
                                       end: Instant, e: nat) returns (cs: seq<Command>)
    requires AfterHolds(limits, s, s, phone, a, n, earliest, end)
    ensures Legal(limits, s, cs)
    ensures var t := Run(limits, s, cs);
            && AfterHolds(limits, s, t, phone, a, n + Multiple(e, limits.perSecond), earliest, end + Multiple(e, 1000))
            && t.now <= (if e > 0 then end + Multiple(e - 1, 1000) else s.now)
    decreases e
  {
    if e == 0 {
      cs := [];
    } else {
      var one := HoldWindow(limits, s, phone, a, n, earliest, end);
      var t := Run(limits, s, one);
      var rest := HoldWindows(limits, t, phone, a, n + limits.perSecond, earliest, end + 1000, e - 1);
      RunAppend(limits, s, one, rest);
      cs := one + rest;
    }
  }

  // ------------------------------------------------------------ releasing

  /** One held call, granted. */
  lemma ReleaseHeld(limits: Limits, s: State, phone: string, a: nat, n: nat, earliest: Instant,
                    from: Instant, to: Instant, d: nat)
    requires Held(limits, s, phone, a, n, 0, earliest) && a < n && from <= s.now < to && s.now <= earliest + d
    requires Prompt(s, PhoneKey(phone), d)
    ensures var key := RecipientKey(phone, Numbered(a));
            var cs := GoingOut(s, a, key);
            && Legal(limits, s, cs)
            && var t := Run(limits, s, cs);
            && Held(limits, t, phone, a + 1, n, 0, earliest) && t.now == s.now && Prompt(t, PhoneKey(phone), d)
            && |Returned(t, PhoneKey(phone), from, to)| == |Returned(s, PhoneKey(phone), from, to)| + 1
            && t.entries == s.entries[key := NextEntry(limits, s, key)]
  {
    var key := RecipientKey(phone, Numbered(a));
    assert HeldCall(s, phone, a, earliest) && Unused(s.entries, phone, a);
    PassRecipient(limits, s, a, key);
    var cs := GoingOut(s, a, key);
    var t := Run(limits, s, cs);
    RunKeepsInv(limits, s, cs);
    ReleasedHeld(limits, s, t, phone, a, n, earliest);
    ReleasedReturned(limits, s, t, phone, a, earliest, from, to, d);
  }

  lemma ReleasedHeld(limits: Limits, s: State, t: State, phone: string, a: nat, n: nat, earliest: Instant)
    requires Held(limits, s, phone, a, n, 0, earliest) && a < n && Inv(limits, t) && a in s.calls
    requires PastRecipient(limits, s, t, a, RecipientKey(phone, Numbered(a)))
    ensures Held(limits, t, phone, a + 1, n, 0, earliest)
  {
    forall i: nat | a + 1 <= i ensures Unused(t.entries, phone, i) {
      assert Unused(s.entries, phone, i) && |Numbered(i)| != |Numbered(a)|;
    }
    forall i: nat | a + 1 <= i < n ensures HeldCall(t, phone, i, earliest) { assert HeldCall(s, phone, i, earliest); }
  }

  lemma ReleasedReturned(limits: Limits, s: State, t: State, phone: string, a: nat, earliest: Instant,
                         from: Instant, to: Instant, d: nat)
    requires Inv(limits, s) && HeldCall(s, phone, a, earliest) && from <= s.now < to && s.now <= earliest + d
    requires PastRecipient(limits, s, t, a, RecipientKey(phone, Numbered(a))) && Prompt(s, PhoneKey(phone), d)
    ensures Prompt(t, PhoneKey(phone), d)
    ensures |Returned(t, PhoneKey(phone), from, to)| == |Returned(s, PhoneKey(phone), from, to)| + 1
  {
    var key := PhoneKey(phone);
    var before, after := Returned(s, key, from, to), Returned(t, key, from, to);
    forall call: CallId ensures call in after <==> call in before || call == a {
      assert call in s.calls && call != a ==> t.calls[call] == s.calls[call];
    }
    OneMoreMember(before, after, a, true);
    assert t.History(key) == s.History(key);
  }

  /** All held calls, granted at the present instant. */
  lemma {:induction false} ReleaseAll(limits: Limits, s: State, phone: string, a: nat, n: nat, earliest: Instant,
                                      end: Instant, from: Instant, to: Instant, d: nat) returns (cs: seq<Command>)
    requires Held(limits, s, phone, a, n, 0, earliest) && from <= s.now < to && s.now <= earliest + d
    requires Prompt(s, PhoneKey(phone), d) && EndsBy(s, PhoneKey(phone), end)
    ensures Legal(limits, s, cs)
    ensures var t := Run(limits, s, cs);
            && Held(limits, t, phone, n, n, 0, earliest) && t.now == s.now && Prompt(t, PhoneKey(phone), d)
            && |Returned(t, PhoneKey(phone), from, to)| == |Returned(s, PhoneKey(phone), from, to)| + (n - a)
            && EndsBy(t, PhoneKey(phone), end)
    decreases n - a
  {
    if a == n {
      cs := [];
    } else {
      var one := GoingOut(s, a, RecipientKey(phone, Numbered(a)));
      ReleaseHeld(limits, s, phone, a, n, earliest, from, to, d);
      var rest := ReleaseAll(limits, Run(limits, s, one), phone, a + 1, n, earliest, end, from, to, d);
      RunAppend(limits, s, one, rest);
      cs := one + rest;
    }
  }

  // ------------------------------------------------------------ the bound

  /** One call granted at once, the rest of its window and e more windows held from a millisecond later on. */
  lemma HoldFromTheStart(limits: Limits, s0: State, phone: string, e: nat, to: Instant)
    returns (cs: seq<Command>, n: nat)
    requires limits.Valid() && Initial(s0)
    ensures n == Multiple(e + 1, limits.perSecond) && Legal(limits, s0, cs)
    ensures var t, key, earliest := Run(limits, s0, cs), PhoneKey(phone), s0.now + 1;
            var from, end := earliest + Multiple(e, 1000), s0.now + 1000 + Multiple(e, 1000);
            && Held(limits, t, phone, 1, n, 0, earliest) && t.now <= from && EndsBy(t, key, end)
            && Returned(t, key, from, to) == {} && Prompt(t, key, 0)
  {
    var key, earliest, m := PhoneKey(phone), s0.now + 1, limits.perSecond;
    var from := earliest + Multiple(e, 1000);
    var one := StartHolding(limits, s0, phone, from, to);
    var u := Run(limits, s0, one);
    var rest := HoldMany(limits, u, phone, 1, 1, m - 1, earliest, s0.now + 1000);
    var v := Run(limits, u, rest);
    var more := HoldWindows(limits, v, phone, 1, m, earliest, s0.now + 1000, e);
    RunAppend(limits, u, rest, more);
    RunAppend(limits, s0, one, rest + more);
    cs, n := one + (rest + more), m + Multiple(e, m);
  }

  lemma StartHolding(limits: Limits, s0: State, phone: string, from: Instant, to: Instant) returns (cs: seq<Command>)
    requires limits.Valid() && Initial(s0) && s0.now < from
    ensures Legal(limits, s0, cs)
    ensures var t, key := Run(limits, s0, cs), PhoneKey(phone);
            && Held(limits, t, phone, 1, 1, limits.perSecond - 1, s0.now + 1) && t.now == s0.now + 1
            && EndsBy(t, key, s0.now + 1000) && Live(t.entries, key, t.now)
            && Returned(t, key, from, to) == {} && Prompt(t, key, 0)
  {
    var key, one := PhoneKey(phone), GrantOne(s0, 0, phone, Numbered(0));
    InitialInv(limits, s0);
    GrantOneWorks(limits, s0, 0, phone, Numbered(0));
    var t := Run(limits, s0, one);
    RunKeepsInv(limits, s0, one);
    forall i: nat | 1 <= i ensures Unused(t.entries, phone, i) { assert |Numbered(i)| != |Numbered(0)|; }
    assert Held(limits, t, phone, 1, 1, limits.perSecond - 1, s0.now + 1);
    assert Returned(t, key, from, to) == {} && Prompt(t, key, 0);
    WaitHeld(limits, t, phone, 1, 1, limits.perSecond - 1, s0.now + 1, 1);
    RunAppend(limits, s0, one, [Tick(1)]);
    cs := one + [Tick(1)];
  }

  /**
   Whatever the limits, k and e, some run from the empty store whose granted calls take up to e seconds
   reaches the bound on the grants that return for a phone number within k seconds.
   */
  lemma ReturnBoundIsReached(limits: Limits, s0: State, phone: string, k: nat, e: nat)
    returns (commands: seq<Command>, from: Instant)
    requires limits.Valid() && Initial(s0)
    ensures Legal(limits, s0, commands)
    ensures var t, key := Run(limits, s0, commands), PhoneKey(phone);
            && Prompt(t, key, e * 1000)
            && (k > 0 ==> |Returned(t, key, from, from + k * 1000)|
                          == (k + WindowsIn(e * 1000, 1000) + 1) * limits.perSecond - 1)
  {
    var key, m := PhoneKey(phone), limits.perSecond;
    var earliest, d := s0.now + 1, Multiple(e, 1000);
    from := earliest + d;
    if k == 0 {
      commands := [];
    } else {
      var to := from + Multiple(k, 1000);
      var hold, n := HoldFromTheStart(limits, s0, phone, e, to);
      var s := Run(limits, s0, hold);
      var end := s0.now + 1000 + d;
      var rest := ReleaseAndGoOn(limits, s, phone, n, k, earliest, end, from, to, d);
      RunAppend(limits, s0, hold, rest);
      commands := hold + rest;
      Added(k, e, m);
    }
  }

  lemma Added(k: nat, e: nat, m: nat)
    ensures Multiple(e + 1, m) + Multiple(k, m) == (k + WindowsIn(e * 1000, 1000) + 1) * m
  {
    assert WindowsIn(e * 1000, 1000) == e;
    assert (k + e + 1) * m == (e + 1) * m + k * m;
  }

  lemma ReleaseAndGoOn(limits: Limits, s: State, phone: string, n: nat, k: nat, earliest: Instant, end: Instant,
                       from: Instant, to: Instant, d: nat) returns (cs: seq<Command>)
    requires Held(limits, s, phone, 1, n, 0, earliest) && n > 0 && s.now <= from && EndsBy(s, PhoneKey(phone), end)
    requires Returned(s, PhoneKey(phone), from, to) == {} && Prompt(s, PhoneKey(phone), 0)
    requires k > 0 && from == earliest + d && to == from + Multiple(k, 1000) && end == from + 999
    ensures Legal(limits, s, cs)
    ensures var t, key := Run(limits, s, cs), PhoneKey(phone);
            && Prompt(t, key, d) && |Returned(t, key, from, to)| == n - 1 + Multiple(k, limits.perSecond)
  {
    var key, wait := PhoneKey(phone), [Tick(from - s.now)];
    WaitHeld(limits, s, phone, 1, n, 0, earliest, from - s.now);
    var u := s.(now := from);
    assert Prompt(u, key, 0) && Prompt(u, key, d);
    var release := ReleaseAll(limits, u, phone, 1, n, earliest, end, from, to, d);
    var v := Run(limits, u, release);
    assert Between(limits, v, phone, OneEach, n, end);
    var more := Windows(limits, v, phone, OneEach, n, end, k, from, to);
    RunAppend(limits, u, release, more);
    RunAppend(limits, s, wait, release + more);
    cs := wait + (release + more);
  }
}

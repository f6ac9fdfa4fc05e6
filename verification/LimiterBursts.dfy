/**
 Runs that reach the bounds of the rate limiter: a window opened just before the span, and every window in it,
 spent in full.
 */
module LimiterBursts {
  import opened Wrappers
  import opened RateLimiter
  import opened LimiterLoss
  import opened LimiterReturns

  // ------------------------------------------------------------ one call, granted at once

  /** The key lets m more calls in. */
  predicate RoomFor(limits: Limits, s: State, key: Key, m: nat) {
    if Live(s.entries, key, s.now) then 1 <= s.entries[key].count && s.entries[key].count + m <= limits.Max(key)
    else m <= limits.Max(key)
  }

  /** The counter after one more call: one up, or a new window. */
  function NextEntry(limits: Limits, s: State, key: Key): Entry {
    if Live(s.entries, key, s.now) then s.entries[key].(count := s.entries[key].count + 1)
    else Entry(1, Some(s.now + limits.Window(key)))
  }

  /** The call's increment of the phone number's counter, and the EXPIRE if it opened the window. */
  function ComingIn(s: State, n: nat, phone: string, recipient: string): seq<Command> {
    var first := IncrPhone(n, phone, recipient);
    if Live(s.entries, PhoneKey(phone), s.now) then [first] else [first] + [ExpirePhone(n)]
  }

  /** The same for the recipient's counter. */
  function GoingOut(s: State, n: nat, key: Key): seq<Command> {
    if Live(s.entries, key, s.now) then [IncrRecipient(n)] else [IncrRecipient(n)] + [ExpireRecipient(n)]
  }

  /** The key's history goes on with an entry of now. */
  predicate HitNow(s: State, t: State, key: Key) {
    var h, g := s.History(key), t.History(key);
    h <= g && |h| < |g| && g[|h|].time == s.now
  }

  /** This key's history has one more entry, and no other has changed. */
  ghost predicate OneMoreHit(s: State, t: State, key: Key) {
    HitNow(s, t, key) && forall other :: other != key ==> t.History(other) == s.History(other)
  }

  /** The call is past the phone number's counter, and no other call has moved. */
  ghost predicate PastPhone(limits: Limits, s: State, t: State, n: nat, phone: string, recipient: string) {
    var key := PhoneKey(phone);
    && t.now == s.now && t.entries == s.entries[key := NextEntry(limits, s, key)]
    && t.calls == s.calls[n := Call(phone, recipient, CountingRecipient, |s.History(key)|, 0, s.now)]
    && OneMoreHit(s, t, key)
  }

  lemma PassPhone(limits: Limits, s: State, n: nat, phone: string, recipient: string)
    requires limits.Valid() && n !in s.calls && RoomFor(limits, s, PhoneKey(phone), 1)
    ensures Legal(limits, s, ComingIn(s, n, phone, recipient))
    ensures PastPhone(limits, s, Run(limits, s, ComingIn(s, n, phone, recipient)), n, phone, recipient)
  {
    var key, a, b := PhoneKey(phone), IncrPhone(n, phone, recipient), ExpirePhone(n);
    RunOne(limits, s, a);
    var t := Step(limits, s, a);
    assert t.History(key) == s.History(key) + [Hit(n, s.now, Incr(s.entries, key, s.now).count)];
    if !Live(s.entries, key, s.now) {
      FreshWindow(limits, s, n, key);
      assert t.calls == s.calls[n := Call(phone, recipient, ExpiringPhone, |s.History(key)|, 0, s.now)];
      RunSnoc(limits, s, [a], b);
      assert Step(limits, t, b).calls
          == s.calls[n := Call(phone, recipient, CountingRecipient, |s.History(key)|, 0, s.now)];
    }
  }

  /** The call has been granted, and no other call has moved. */
  ghost predicate PastRecipient(limits: Limits, s: State, t: State, n: nat, key: Key)
    requires n in s.calls
  {
    && t.now == s.now && t.entries == s.entries[key := NextEntry(limits, s, key)]
    && t.calls == s.calls[n := s.calls[n].(stage := Done(true), recipientHit := |s.History(key)|, latest := s.now)]
    && OneMoreHit(s, t, key)
  }

  lemma PassRecipient(limits: Limits, s: State, n: nat, key: Key)
    requires limits.Valid() && n in s.calls && s.calls[n].stage == CountingRecipient && key == s.calls[n].KeyRecipient()
    requires RoomFor(limits, s, key, 1)
    ensures Legal(limits, s, GoingOut(s, n, key))
    ensures PastRecipient(limits, s, Run(limits, s, GoingOut(s, n, key)), n, key)
  {
    var a, b, k, hit := IncrRecipient(n), ExpireRecipient(n), s.calls[n], |s.History(key)|;
    RunOne(limits, s, a);
    var t := Step(limits, s, a);
    assert t.History(key) == s.History(key) + [Hit(n, s.now, Incr(s.entries, key, s.now).count)];
    if !Live(s.entries, key, s.now) {
      FreshWindow(limits, s, n, key);
      assert t.calls == s.calls[n := k.(stage := ExpiringRecipient, recipientHit := hit, latest := s.now)];
      RunSnoc(limits, s, [a], b);
      assert Step(limits, t, b).calls
          == s.calls[n := k.(stage := Done(true), recipientHit := hit, latest := s.now)];
    }
  }

  /** One call, from its first command to its grant. */
  function GrantOne(s: State, n: nat, phone: string, recipient: string): seq<Command> {
    ComingIn(s, n, phone, recipient) + GoingOut(s, n, RecipientKey(phone, recipient))
  }

  /** What one granted call leaves. */
  ghost predicate GrantedOne(limits: Limits, s: State, t: State, n: nat, phone: string, recipient: string) {
    var p, r := PhoneKey(phone), RecipientKey(phone, recipient);
    && t.now == s.now && t.entries == s.entries[p := NextEntry(limits, s, p)][r := NextEntry(limits, s, r)]
    && n !in s.calls
    && t.calls == s.calls[n := Call(phone, recipient, Done(true), |s.History(p)|, |s.History(r)|, s.now)]
    && HitNow(s, t, p) && HitNow(s, t, r) && forall other :: s.History(other) <= t.History(other)
  }

  lemma GrantOneWorks(limits: Limits, s: State, n: nat, phone: string, recipient: string)
    requires limits.Valid() && n !in s.calls
    requires RoomFor(limits, s, PhoneKey(phone), 1) && RoomFor(limits, s, RecipientKey(phone, recipient), 1)
    ensures Legal(limits, s, GrantOne(s, n, phone, recipient))
    ensures GrantedOne(limits, s, Run(limits, s, GrantOne(s, n, phone, recipient)), n, phone, recipient)
  {
    var r, cs := RecipientKey(phone, recipient), ComingIn(s, n, phone, recipient);
    var u := Run(limits, s, cs);
    PassPhone(limits, s, n, phone, recipient);
    PassRecipient(limits, u, n, r);
    RunAppend(limits, s, cs, GoingOut(u, n, r));
    assert GoingOut(u, n, r) == GoingOut(s, n, r);
    GrantedInTwo(limits, s, u, Run(limits, u, GoingOut(u, n, r)), n, phone, recipient);
  }

  lemma GrantedInTwo(limits: Limits, s: State, u: State, t: State, n: nat, phone: string, recipient: string)
    requires n !in s.calls && PastPhone(limits, s, u, n, phone, recipient)
    requires PastRecipient(limits, u, t, n, RecipientKey(phone, recipient))
    ensures GrantedOne(limits, s, t, n, phone, recipient)
  {
  }

  // ------------------------------------------------------------ many calls at one instant

  /** The calls of a burst are for one recipient each, or all for the same. */
  datatype Who = OneEach | Only(recipient: string) {
    function Recipient(i: nat): string {
      if OneEach? then Numbered(i) else recipient
    }

    /** The key whose bound the burst is about. */
    function Key(phone: string): Key {
      if OneEach? then PhoneKey(phone) else RecipientKey(phone, recipient)
    }
  }

  /** Calls from n on are still to come, and m of them find room. */
  ghost predicate Ready(limits: Limits, s: State, phone: string, who: Who, n: nat, m: nat) {
    && (forall i: nat :: i in s.calls ==> i < n)
    && RoomFor(limits, s, PhoneKey(phone), m)
    && (if who.OneEach? then limits.burst > 0 && forall i: nat :: n <= i ==> Unused(s.entries, phone, i)
        else RoomFor(limits, s, who.Key(phone), m))
  }

  lemma ReadyForOne(limits: Limits, s: State, phone: string, who: Who, n: nat, m: nat)
    requires Ready(limits, s, phone, who, n, m) && m > 0
    ensures n !in s.calls
    ensures RoomFor(limits, s, PhoneKey(phone), 1) && RoomFor(limits, s, RecipientKey(phone, who.Recipient(n)), 1)
  {
    if who.OneEach? { assert Unused(s.entries, phone, n); }
  }

  lemma ReadyForRest(limits: Limits, s: State, t: State, phone: string, who: Who, n: nat, m: nat)
    requires Ready(limits, s, phone, who, n, m) && m > 0 && GrantedOne(limits, s, t, n, phone, who.Recipient(n))
    ensures Ready(limits, t, phone, who, n + 1, m - 1)
  {
    if who.OneEach? {
      forall i: nat | n + 1 <= i ensures Unused(t.entries, phone, i) {
        assert Unused(s.entries, phone, i) && |Numbered(i)| != |Numbered(n)|;
      }
    }
  }

  /** The calls granted for a key in a span, whether counted or returned in it, have grown by one. */
  lemma GrantedMember(limits: Limits, s: State, t: State, n: nat, phone: string, who: Who, from: Instant, to: Instant,
                      call: CallId)
    requires Inv(limits, s) && GrantedOne(limits, s, t, n, phone, who.Recipient(n))
    ensures call in Granted(t, who.Key(phone), from, to) <==>
            call in Granted(s, who.Key(phone), from, to) || (call == n && from <= s.now < to)
  {
    if call in s.calls {
      assert call != n && t.calls[call] == s.calls[call];
      assert CallMatches(limits, s, s.calls[call], call);
      SameTime(limits, s, t, call, who.Key(phone));
    }
  }

  /** What a granted call's history says of it does not change. */
  lemma SameTime(limits: Limits, s: State, t: State, call: CallId, key: Key)
    requires call in s.calls && CallMatches(limits, s, s.calls[call], call) && s.History(key) <= t.History(key)
    ensures s.calls[call].stage == Done(true)
            && (key == s.calls[call].KeyPhone() || key == s.calls[call].KeyRecipient()) ==>
              TimeOf(t, s.calls[call], key) == TimeOf(s, s.calls[call], key)
  {
  }

  lemma OneMoreMember(before: set<CallId>, after: set<CallId>, n: CallId, more: bool)
    requires n !in before && forall call: CallId :: call in after <==> call in before || (call == n && more)
    ensures |after| == |before| + if more then 1 else 0
  {
    assert after == before + if more then {n} else {};
  }

  lemma GrantedGrows(limits: Limits, s: State, t: State, n: nat, phone: string, who: Who, from: Instant, to: Instant)
    requires Inv(limits, s) && GrantedOne(limits, s, t, n, phone, who.Recipient(n))
    ensures var key := who.Key(phone);
            |Granted(t, key, from, to)| == |Granted(s, key, from, to)| + if from <= s.now < to then 1 else 0
  {
    var before, after := Granted(s, who.Key(phone), from, to), Granted(t, who.Key(phone), from, to);
    forall call: CallId ensures call in after <==> call in before || (call == n && from <= s.now < to) {
      GrantedMember(limits, s, t, n, phone, who, from, to, call);
    }
    OneMoreMember(before, after, n, from <= s.now < to);
  }

  lemma ReturnedGrows(limits: Limits, s: State, t: State, n: nat, phone: string, who: Who, from: Instant, to: Instant)
    requires GrantedOne(limits, s, t, n, phone, who.Recipient(n))
    ensures var key := who.Key(phone);
            |Returned(t, key, from, to)| == |Returned(s, key, from, to)| + if from <= s.now < to then 1 else 0
  {
    var before, after := Returned(s, who.Key(phone), from, to), Returned(t, who.Key(phone), from, to);
    forall call: CallId ensures call in after <==> call in before || (call == n && from <= s.now < to) {
      if call in s.calls { assert call != n && t.calls[call] == s.calls[call]; }
    }
    OneMoreMember(before, after, n, from <= s.now < to);
  }

  lemma StaysPrompt(limits: Limits, s: State, t: State, n: nat, phone: string, who: Who, d: nat)
    requires Inv(limits, s) && GrantedOne(limits, s, t, n, phone, who.Recipient(n)) && Prompt(s, who.Key(phone), d)
    ensures Prompt(t, who.Key(phone), d)
  {
    var key := who.Key(phone);
    forall call | call in s.calls && s.calls[call].stage == Done(true)
                  && (key == s.calls[call].KeyPhone() || key == s.calls[call].KeyRecipient())
      ensures TimeOf(t, s.calls[call], key) == TimeOf(s, s.calls[call], key)
    {
      assert CallMatches(limits, s, s.calls[call], call);
      SameTime(limits, s, t, call, key);
    }
  }

  /** The key's counter, if any, has an expiry, and that is not after this instant. */
  predicate EndsBy(s: State, key: Key, end: Instant) {
    key in s.entries ==> s.entries[key].expiry.Some? && s.entries[key].expiry.value <= end
  }

  /** How long the counters of a burst at this instant live. */
  predicate BurstEnds(limits: Limits, s: State, phone: string, who: Who, phoneEnd: Instant, end: Instant) {
    var p, key := PhoneKey(phone), who.Key(phone);
    && EndsBy(s, p, phoneEnd) && (Live(s.entries, p, s.now) || s.now + 1000 <= phoneEnd)
    && EndsBy(s, key, end) && (Live(s.entries, key, s.now) || s.now + limits.Window(key) <= end)
  }

  /** All the commands are of calls from n on. */
  predicate Later(cs: seq<Command>, n: nat) {
    forall i :: 0 <= i < |cs| ==> cs[i].Tick? || n <= cs[i].call
  }

  /** m more calls for the key were granted, and returned, at the instant of s. */
  ghost predicate Counted(s: State, t: State, key: Key, from: Instant, to: Instant, m: nat) {
    var more := if from <= s.now < to then m else 0;
    && |Granted(t, key, from, to)| == |Granted(s, key, from, to)| + more
    && |Returned(t, key, from, to)| == |Returned(s, key, from, to)| + more
  }

  /** Where a burst of m calls from s leads, with room for more. */
  ghost predicate AfterBurst(limits: Limits, s: State, t: State, phone: string, who: Who, n: nat, m: nat, more: nat,
                             from: Instant, to: Instant) {
    && Inv(limits, t) && Ready(limits, t, phone, who, n + m, more) && t.now == s.now
    && Counted(s, t, who.Key(phone), from, to, m)
    && (forall d :: Prompt(s, who.Key(phone), d) ==> Prompt(t, who.Key(phone), d))
    && (forall phoneEnd, end :: BurstEnds(limits, s, phone, who, phoneEnd, end) ==>
          BurstEnds(limits, t, phone, who, phoneEnd, end))
  }

  lemma GrantedOneEnds(limits: Limits, s: State, t: State, phone: string, who: Who, n: nat,
                       phoneEnd: Instant, end: Instant)
    requires GrantedOne(limits, s, t, n, phone, who.Recipient(n)) && BurstEnds(limits, s, phone, who, phoneEnd, end)
    ensures BurstEnds(limits, t, phone, who, phoneEnd, end)
  {
  }

  lemma BurstOfOne(limits: Limits, s: State, phone: string, who: Who, n: nat, more: nat, from: Instant, to: Instant)
    requires limits.Valid() && Inv(limits, s) && Ready(limits, s, phone, who, n, 1 + more)
    ensures var one := GrantOne(s, n, phone, who.Recipient(n));
            && Legal(limits, s, one) && Later(one, n)
            && AfterBurst(limits, s, Run(limits, s, one), phone, who, n, 1, more, from, to)
  {
    var one := GrantOne(s, n, phone, who.Recipient(n));
    ReadyForOne(limits, s, phone, who, n, 1 + more);
    GrantOneWorks(limits, s, n, phone, who.Recipient(n));
    var t := Run(limits, s, one);
    ReadyForRest(limits, s, t, phone, who, n, 1 + more);
    GrantedGrows(limits, s, t, n, phone, who, from, to);
    ReturnedGrows(limits, s, t, n, phone, who, from, to);
    RunKeepsInv(limits, s, one);
    forall d | Prompt(s, who.Key(phone), d) ensures Prompt(t, who.Key(phone), d) {
      StaysPrompt(limits, s, t, n, phone, who, d);
    }
    forall phoneEnd, end | BurstEnds(limits, s, phone, who, phoneEnd, end)
      ensures BurstEnds(limits, t, phone, who, phoneEnd, end)
    {
      GrantedOneEnds(limits, s, t, phone, who, n, phoneEnd, end);
    }
  }

  lemma AfterBursts(limits: Limits, s: State, t: State, u: State, phone: string, who: Who, n: nat, m: nat, more: nat,
                    from: Instant, to: Instant)
    requires AfterBurst(limits, s, t, phone, who, n, 1, m + more, from, to)
    requires AfterBurst(limits, t, u, phone, who, n + 1, m, more, from, to)
    ensures AfterBurst(limits, s, u, phone, who, n, m + 1, more, from, to)
  {
  }

  lemma LaterConcat(a: seq<Command>, b: seq<Command>, n: nat)
    requires Later(a, n) && Later(b, n + 1)
    ensures Later(a + b, n)
  {
  }

  /** m calls granted at the present instant, with room for more afterwards. */
  lemma {:induction false} Burst(limits: Limits, s: State, phone: string, who: Who, n: nat, m: nat, more: nat,
                                 from: Instant, to: Instant) returns (cs: seq<Command>)
    requires limits.Valid() && Inv(limits, s) && Ready(limits, s, phone, who, n, m + more)
    ensures Legal(limits, s, cs) && Later(cs, n)
    ensures AfterBurst(limits, s, Run(limits, s, cs), phone, who, n, m, more, from, to)
    decreases m
  {
    if m == 0 {
      cs := [];
    } else {
      var one := GrantOne(s, n, phone, who.Recipient(n));
      BurstOfOne(limits, s, phone, who, n, m - 1 + more, from, to);
      var t := Run(limits, s, one);
      var rest := Burst(limits, t, phone, who, n + 1, m - 1, more, from, to);
      LaterConcat(one, rest, n);
      RunAppend(limits, s, one, rest);
      cs := one + rest;
      AfterBursts(limits, s, t, Run(limits, t, rest), phone, who, n, m - 1, more, from, to);
    }
  }

  // ------------------------------------------------------------ one burst a window

  /** Waiting changes nothing but the time. */
  lemma Wait(limits: Limits, s: State, phone: string, who: Who, n: nat, m: nat, ms: nat)
    requires limits.Valid() && Inv(limits, s) && Ready(limits, s, phone, who, n, m)
    ensures var t := s.(now := s.now + ms);
            && Legal(limits, s, [Tick(ms)]) && Run(limits, s, [Tick(ms)]) == t
            && Inv(limits, t) && Ready(limits, t, phone, who, n, m)
            && (forall key, from, to :: Granted(t, key, from, to) == Granted(s, key, from, to))
            && (forall key, from, to :: Returned(t, key, from, to) == Returned(s, key, from, to))
            && (forall key, d :: Prompt(s, key, d) ==> Prompt(t, key, d))
  {
    var t := s.(now := s.now + ms);
    RunOne(limits, s, Tick(ms));
    RunKeepsInv(limits, s, [Tick(ms)]);
    forall key, from, to ensures Granted(t, key, from, to) == Granted(s, key, from, to) {
      assert forall call :: call in s.calls ==> TimeOf(t, s.calls[call], key) == TimeOf(s, s.calls[call], key);
    }
    forall key, d | Prompt(s, key, d) ensures Prompt(t, key, d) {
      assert forall call :: call in s.calls ==> TimeOf(t, s.calls[call], key) == TimeOf(s, s.calls[call], key);
    }
  }

  /** A burst the size of the key's limit fits into one window of the phone number. */
  predicate Fitting(limits: Limits, who: Who) {
    who.OneEach? || limits.burst <= limits.perSecond
  }

  /** Once the windows are over there is room for a whole limit. */
  lemma RoomAgain(limits: Limits, s: State, phone: string, who: Who, n: nat, end: Instant)
    requires limits.Valid() && Fitting(limits, who) && Ready(limits, s, phone, who, n, 0)
    requires EndsBy(s, PhoneKey(phone), end) && EndsBy(s, who.Key(phone), end) && end <= s.now
    ensures Ready(limits, s, phone, who, n, limits.Max(who.Key(phone)))
  {
  }

  /** Between two windows: all counters end by this instant. */
  ghost predicate Between(limits: Limits, s: State, phone: string, who: Who, n: nat, end: Instant) {
    && limits.Valid() && Fitting(limits, who) && Inv(limits, s) && Ready(limits, s, phone, who, n, 0)
    && EndsBy(s, PhoneKey(phone), end) && EndsBy(s, who.Key(phone), end) && s.now <= end
  }

  /** The next window, opened the instant the last one ends and spent in full. */
  lemma NextWindow(limits: Limits, s: State, phone: string, who: Who, n: nat, end: Instant, from: Instant, to: Instant)
    returns (cs: seq<Command>)
    requires Between(limits, s, phone, who, n, end)
    ensures Legal(limits, s, cs)
    ensures var t, key := Run(limits, s, cs), who.Key(phone);
            var m := limits.Max(key);
            && Between(limits, t, phone, who, n + m, end + limits.Window(key))
            && Counted(s.(now := end), t, key, from, to, m) && t.now == end
            && |Granted(s.(now := end), key, from, to)| == |Granted(s, key, from, to)|
            && |Returned(s.(now := end), key, from, to)| == |Returned(s, key, from, to)|
            && (forall d :: Prompt(s, key, d) ==> Prompt(t, key, d))
  {
    var key := who.Key(phone);
    var window, m := limits.Window(key), limits.Max(key);
    Wait(limits, s, phone, who, n, 0, end - s.now);
    var u := s.(now := end);
    RoomAgain(limits, u, phone, who, n, end);
    var burst := Burst(limits, u, phone, who, n, m, 0, from, to);
    RunAppend(limits, s, [Tick(end - s.now)], burst);
    cs := [Tick(end - s.now)] + burst;
    assert BurstEnds(limits, u, phone, who, end + window, end + window);
  }

  /** k times x, one x at a time. */
  function Multiple(k: nat, x: nat): (r: nat)
    ensures r == k * x
  {
    if k == 0 then 0 else x + Multiple(k - 1, x)
  }

  /** Where k windows lead: so many more granted, and so many returned. */
  ghost predicate AfterWindows(s: State, t: State, key: Key, from: Instant, to: Instant, m: nat) {
    && |Granted(t, key, from, to)| == |Granted(s, key, from, to)| + m
    && |Returned(t, key, from, to)| == |Returned(s, key, from, to)| + m
    && (forall d :: Prompt(s, key, d) ==> Prompt(t, key, d))
  }

  lemma NextWindowCounts(limits: Limits, s: State, phone: string, who: Who, n: nat, end: Instant,
                         from: Instant, to: Instant) returns (cs: seq<Command>)
    requires Between(limits, s, phone, who, n, end) && from <= end < to
    ensures Legal(limits, s, cs)
    ensures var t, key := Run(limits, s, cs), who.Key(phone);
            && Between(limits, t, phone, who, n + limits.Max(key), end + limits.Window(key))
            && AfterWindows(s, t, key, from, to, limits.Max(key))
  {
    cs := NextWindow(limits, s, phone, who, n, end, from, to);
  }

  /** k more windows. */
  lemma {:induction false} Windows(limits: Limits, s: State, phone: string, who: Who, n: nat, end: Instant, k: nat,
                                   from: Instant, to: Instant) returns (cs: seq<Command>)
    requires Between(limits, s, phone, who, n, end) && from <= end
    requires k > 0 ==> end + Multiple(k - 1, limits.Window(who.Key(phone))) < to
    ensures Legal(limits, s, cs)
    ensures AfterWindows(s, Run(limits, s, cs), who.Key(phone), from, to, Multiple(k, limits.Max(who.Key(phone))))
    decreases k
  {
    if k == 0 {
      cs := [];
    } else {
      var key := who.Key(phone);
      var next := NextWindowCounts(limits, s, phone, who, n, end, from, to);
      var t := Run(limits, s, next);
      var more := Windows(limits, t, phone, who, n + limits.Max(key), end + limits.Window(key), k - 1, from, to);
      RunAppend(limits, s, next, more);
      cs := next + more;
      WindowsAdd(s, t, Run(limits, t, more), key, from, to, limits.Max(key), Multiple(k - 1, limits.Max(key)));
    }
  }

  lemma WindowsAdd(s: State, t: State, u: State, key: Key, from: Instant, to: Instant, m: nat, more: nat)
    requires AfterWindows(s, t, key, from, to, m) && AfterWindows(t, u, key, from, to, more)
    ensures AfterWindows(s, u, key, from, to, m + more)
  {
  }

  /** The first call, which opens the windows. */
  lemma OpeningCall(limits: Limits, s0: State, phone: string, who: Who, from: Instant, to: Instant)
    returns (cs: seq<Command>)
    requires limits.Valid() && Fitting(limits, who) && Initial(s0) && from == s0.now + 1
    ensures Legal(limits, s0, cs)
    ensures var t, key := Run(limits, s0, cs), who.Key(phone);
            var end := s0.now + limits.Window(key);
            && Inv(limits, t) && Ready(limits, t, phone, who, 1, limits.Max(key) - 1) && t.now == s0.now
            && EndsBy(t, PhoneKey(phone), end) && EndsBy(t, key, end)
            && Live(t.entries, key, from) && Live(t.entries, PhoneKey(phone), from)
            && Granted(t, key, from, to) == {} == Returned(t, key, from, to) && Prompt(t, key, 0)
  {
    var key := who.Key(phone);
    var m, end := limits.Max(key), s0.now + limits.Window(key);
    InitialInv(limits, s0);
    assert Ready(limits, s0, phone, who, 0, 1 + (m - 1)) && Prompt(s0, key, 0);
    assert Granted(s0, key, from, to) == {} == Returned(s0, key, from, to);
    BurstOfOne(limits, s0, phone, who, 0, m - 1, from, to);
    cs := GrantOne(s0, 0, phone, who.Recipient(0));
    ReadyForOne(limits, s0, phone, who, 0, m);
    GrantOneWorks(limits, s0, 0, phone, who.Recipient(0));
    assert BurstEnds(limits, s0, phone, who, end, end);
  }

  /** From an empty store: a window opened by one call at once, and what is left of it spent a millisecond later. */
  lemma Opening(limits: Limits, s0: State, phone: string, who: Who, from: Instant, to: Instant)
    returns (cs: seq<Command>)
    requires limits.Valid() && Fitting(limits, who) && Initial(s0) && from == s0.now + 1 && from < to
    ensures Legal(limits, s0, cs)
    ensures var t, key := Run(limits, s0, cs), who.Key(phone);
            && Between(limits, t, phone, who, limits.Max(key), s0.now + limits.Window(key))
            && |Granted(t, key, from, to)| == |Returned(t, key, from, to)| == limits.Max(key) - 1
            && Prompt(t, key, 0)
  {
    var key := who.Key(phone);
    var m := limits.Max(key);
    var one := OpeningCall(limits, s0, phone, who, from, to);
    var t := Run(limits, s0, one);
    Wait(limits, t, phone, who, 1, m - 1, 1);
    var rest := OpeningRest(limits, t.(now := from), phone, who, s0.now + limits.Window(key), from, to);
    RunAppend(limits, t, [Tick(1)], rest);
    RunAppend(limits, s0, one, [Tick(1)] + rest);
    cs := one + ([Tick(1)] + rest);
  }

  lemma OpeningRest(limits: Limits, s: State, phone: string, who: Who, end: Instant, from: Instant, to: Instant)
    returns (cs: seq<Command>)
    requires limits.Valid() && Fitting(limits, who) && Inv(limits, s) && from == s.now < to
    requires var key := who.Key(phone);
             && Ready(limits, s, phone, who, 1, limits.Max(key) - 1) && end == s.now - 1 + limits.Window(key)
             && EndsBy(s, PhoneKey(phone), end) && EndsBy(s, key, end) && Live(s.entries, key, s.now)
             && Live(s.entries, PhoneKey(phone), s.now)
             && Granted(s, key, from, to) == {} == Returned(s, key, from, to) && Prompt(s, key, 0)
    ensures Legal(limits, s, cs)
    ensures var t, key := Run(limits, s, cs), who.Key(phone);
            && Between(limits, t, phone, who, limits.Max(key), end)
            && |Granted(t, key, from, to)| == |Returned(t, key, from, to)| == limits.Max(key) - 1 && Prompt(t, key, 0)
  {
    cs := Burst(limits, s, phone, who, 1, limits.Max(who.Key(phone)) - 1, 0, from, to);
    assert BurstEnds(limits, s, phone, who, end, end);
  }

  /**
   Whatever the limits and k, some run from the empty store reaches the rate bound for k windows: of a phone number,
   and of a recipient if a recipient's burst fits into a second of the phone number.
   */
  lemma RateBoundIsReached(limits: Limits, s0: State, phone: string, who: Who, k: nat)
    returns (commands: seq<Command>, from: Instant)
    requires limits.Valid() && Fitting(limits, who) && Initial(s0)
    ensures Legal(limits, s0, commands)
    ensures var key := who.Key(phone);
            k > 0 ==> |Granted(Run(limits, s0, commands), key, from, from + k * limits.Window(key))|
                      == (k + 1) * limits.Max(key) - 1
  {
    from := s0.now + 1;
    commands := [];
    if k > 0 {
      var key := who.Key(phone);
      var window, m := limits.Window(key), limits.Max(key);
      var to := from + Multiple(k, window);
      var opening := Opening(limits, s0, phone, who, from, to);
      var more := Windows(limits, Run(limits, s0, opening), phone, who, m, s0.now + window, k, from, to);
      RunAppend(limits, s0, opening, more);
      commands := opening + more;
      assert Multiple(k + 1, m) == m + Multiple(k, m);
    }
  }

  // ------------------------------------------------------------ after a loss

  /**
   A creator lost after its INCR, and after it as many calls let in as the bound allows: one less than the limit.
   */
  lemma OrphanBoundIsReached(limits: Limits, s0: State, phone: string)
    returns (lost: Command, commands: seq<Command>)
    requires limits.Valid() && Initial(s0)
    ensures Enabled(s0, lost) && By(lost, 0)
    ensures var s := Step(limits, s0, lost);
            && Inv(limits, s) && Expiring(s.calls, 0, PhoneKey(phone)) && s.entries[PhoneKey(phone)].count == 1
            && Legal(limits, s, commands) && (forall i :: 0 <= i < |commands| ==> !By(commands[i], 0))
            && |NotRefused(s.calls.Keys, Run(limits, s, commands), phone)| == limits.perSecond - 1
  {
    lost := IncrPhone(0, phone, "");
    InitialInv(limits, s0);
    RunOne(limits, s0, lost);
    RunKeepsInv(limits, s0, [lost]);
    var s, key := Step(limits, s0, lost), PhoneKey(phone);
    assert Ready(limits, s, phone, OneEach, 1, limits.perSecond - 1);
    commands := Burst(limits, s, phone, OneEach, 1, limits.perSecond - 1, 0, s.now, s.now + 1);
    var t := Run(limits, s, commands);
    assert Granted(s, key, s.now, s.now + 1) == {};
    LaterLeaves(limits, s, commands, 1, 0);
    GrantedAreNotRefused(s, t, phone, s.now, s.now + 1);
    SubsetSize(Granted(t, key, s.now, s.now + 1), NotRefused(s.calls.Keys, t, phone));
    OrphanAdmitsTheRest(limits, s, commands, phone, 0);
  }

  /** Later calls leave an earlier one where it is. */
  lemma {:induction false} LaterLeaves(limits: Limits, s: State, cs: seq<Command>, n: nat, call: CallId)
    requires Legal(limits, s, cs) && Later(cs, n) && call < n && call in s.calls
    ensures call in Run(limits, s, cs).calls && Run(limits, s, cs).calls[call] == s.calls[call]
    decreases |cs|
  {
    if cs != [] {
      assert forall i :: 0 <= i < |cs[1..]| ==> cs[1..][i] == cs[i + 1];
      assert cs[0].Tick? || cs[0].call != call;
      LaterLeaves(limits, Step(limits, s, cs[0]), cs[1..], n, call);
    }
  }

  lemma GrantedAreNotRefused(s: State, t: State, phone: string, from: Instant, to: Instant)
    requires s.calls.Keys == {0} && (0 in t.calls ==> t.calls[0].stage != Done(true))
    ensures Granted(t, PhoneKey(phone), from, to) <= NotRefused(s.calls.Keys, t, phone)
  {
  }
}

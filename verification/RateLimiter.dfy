/**
 The rate limiter, one Redis command at a time, with any number of concurrent callers.

 It keeps one counter per phone number and one per (phone number, recipient). A counter lives
 for a fixed window from its first increment; it is not the token bucket its docstring names.
 A call may stop after any command. That is also how one looks that meets a Redis error: it sends no
 further command and is let through without a count. `reset_recipient` is not part of this model.
 */
module RateLimiter {
  import opened Wrappers

  type CallId = nat
  type Instant = int   // milliseconds

  datatype Key = PhoneKey(phone: string) | RecipientKey(phone: string, recipient: string)

  datatype Entry = Entry(count: int, expiry: Option<Instant>)

  datatype Limits = Limits(perSecond: nat, burst: nat, recipientWindow: nat) {
    /** The window of a key in milliseconds. */
    function Window(key: Key): nat {
      if key.PhoneKey? then 1000 else 1000 * recipientWindow
    }

    function Max(key: Key): nat {
      if key.PhoneKey? then perSecond else burst
    }

    /** Zero limits fall back to the settings, so both are positive; so is the window. */
    predicate Valid() {
      perSecond > 0 && burst > 0 && recipientWindow > 0
    }
  }

  // ------------------------------------------------------------ Redis

  predicate Live(entries: map<Key, Entry>, key: Key, now: Instant) {
    key in entries && (entries[key].expiry.None? || now < entries[key].expiry.value)
  }

  /** INCR: an absent or expired key starts again at 1, without an expiry. */
  function Incr(entries: map<Key, Entry>, key: Key, now: Instant): Entry {
    if Live(entries, key, now) then entries[key].(count := entries[key].count + 1) else Entry(1, None)
  }

  /** EXPIRE: no effect on an absent key. */
  function Expire(entries: map<Key, Entry>, key: Key, now: Instant, ttl: nat): map<Key, Entry> {
    if Live(entries, key, now) then entries[key := entries[key].(expiry := Some(now + ttl))] else entries
  }

  // ------------------------------------------------------------ the callers

  /** Where a call of `acquire` is: which command it sends next, or how it ended. */
  datatype Stage = ExpiringPhone | CountingRecipient | ExpiringRecipient | Done(granted: bool)

  /**
   One call; the positions of its increments in the histories of its two keys; the time of its latest
   command, which is when it ended if it has.
   */
  datatype Call = Call(
    phone: string,
    recipient: string,
    stage: Stage,
    phoneHit: nat,
    recipientHit: nat,
    latest: Instant)
  {
    function KeyPhone(): Key { PhoneKey(phone) }
    function KeyRecipient(): Key { RecipientKey(phone, recipient) }
  }

  /** One INCR: who sent it, when, and the count it returned. */
  datatype Hit = Hit(call: CallId, time: Instant, count: int)

  datatype State = State(
    now: Instant,
    entries: map<Key, Entry>,
    history: map<Key, seq<Hit>>,
    calls: map<CallId, Call>)
  {
    function History(key: Key): seq<Hit> {
      if key in history then history[key] else []
    }
  }

  datatype Command =
    | Tick(ms: nat)
    | IncrPhone(call: CallId, phone: string, recipient: string)
    | ExpirePhone(call: CallId)
    | IncrRecipient(call: CallId)
    | ExpireRecipient(call: CallId)

  predicate By(c: Command, call: CallId) {
    !c.Tick? && c.call == call
  }

  predicate Enabled(s: State, c: Command) {
    match c
    case Tick(_) => true
    case IncrPhone(call, _, _) => call !in s.calls
    case ExpirePhone(call) => call in s.calls && s.calls[call].stage.ExpiringPhone?
    case IncrRecipient(call) => call in s.calls && s.calls[call].stage.CountingRecipient?
    case ExpireRecipient(call) => call in s.calls && s.calls[call].stage.ExpiringRecipient?
  }

  function Increment(s: State, call: CallId, key: Key): State {
    var e := Incr(s.entries, key, s.now);
    s.(entries := s.entries[key := e], history := s.history[key := s.History(key) + [Hit(call, s.now, e.count)]])
  }

  /** The stage after the first counter returned n, once its expiry is dealt with. */
  function AfterPhone(limits: Limits, n: int): Stage {
    if n > limits.perSecond then Done(false) else CountingRecipient
  }

  function AfterRecipient(limits: Limits, n: int): Stage {
    Done(n <= limits.burst)
  }

  function CountAt(s: State, key: Key, hit: nat): int {
    if hit < |s.History(key)| then s.History(key)[hit].count else 0
  }

  function Step(limits: Limits, s: State, c: Command): State
    requires Enabled(s, c)
  {
    match c
    case Tick(ms) => s.(now := s.now + ms)
    case IncrPhone(call, phone, recipient) =>
      var key := PhoneKey(phone);
      var n := Incr(s.entries, key, s.now).count;
      var stage := if n == 1 then ExpiringPhone else AfterPhone(limits, n);
      Increment(s, call, key).(calls := s.calls[call := Call(phone, recipient, stage, |s.History(key)|, 0, s.now)])
    case ExpirePhone(call) =>
      var k := s.calls[call];
      s.(entries := Expire(s.entries, k.KeyPhone(), s.now, limits.Window(k.KeyPhone())),
         calls := s.calls[call := k.(stage := AfterPhone(limits, CountAt(s, k.KeyPhone(), k.phoneHit)),
             latest := s.now)])
    case IncrRecipient(call) =>
      var k := s.calls[call];
      var key := k.KeyRecipient();
      var n := Incr(s.entries, key, s.now).count;
      var stage := if n == 1 then ExpiringRecipient else AfterRecipient(limits, n);
      Increment(s, call, key).(calls :=
          s.calls[call := k.(stage := stage, recipientHit := |s.History(key)|, latest := s.now)])
    case ExpireRecipient(call) =>
      var k := s.calls[call];
      s.(entries := Expire(s.entries, k.KeyRecipient(), s.now, limits.Window(k.KeyRecipient())),
         calls := s.calls[call := k.(stage := AfterRecipient(limits, CountAt(s, k.KeyRecipient(), k.recipientHit)),
             latest := s.now)])
  }

  predicate Legal(limits: Limits, s: State, commands: seq<Command>)
    decreases |commands|
  {
    commands == [] || (Enabled(s, commands[0]) && Legal(limits, Step(limits, s, commands[0]), commands[1..]))
  }

  function Run(limits: Limits, s: State, commands: seq<Command>): State
    requires Legal(limits, s, commands)
    decreases |commands|
  {
    if commands == [] then s else Run(limits, Step(limits, s, commands[0]), commands[1..])
  }

  predicate Initial(s: State) {
    s.entries == map[] && s.history == map[] && s.calls == map[]
  }

  // ------------------------------------------------------------ the invariant

  /** The latest increment that started a window. */
  function LatestStart(h: seq<Hit>): Hit
    requires h != []
  {
    if |h| == 1 || h[|h| - 1].count == 1 then h[|h| - 1] else LatestStart(h[..|h| - 1])
  }

  /** The next increment goes up by one, or starts again at 1 a full window after the latest start. */
  predicate Follows(h: seq<Hit>, next: Hit, window: nat) {
    if h == [] then next.count == 1
    else
      var last := h[|h| - 1];
      && last.time <= next.time
      && ((last.count >= 1 && next.count == last.count + 1)
          || (next.count == 1 && LatestStart(h).time + window <= next.time))
  }

  predicate WellFormed(h: seq<Hit>, window: nat) {
    h == [] || (WellFormed(h[..|h| - 1], window) && Follows(h[..|h| - 1], h[|h| - 1], window))
  }

  /** A call has incremented the key to 1 and not yet sent its EXPIRE. */
  predicate Expiring(calls: map<CallId, Call>, call: CallId, key: Key) {
    && call in calls
    && ((calls[call].stage.ExpiringPhone? && key == calls[call].KeyPhone())
        || (calls[call].stage.ExpiringRecipient? && key == calls[call].KeyRecipient()))
  }

  /** What the store holds for a key, next to the key's history. */
  ghost predicate EntryMatches(limits: Limits, s: State, key: Key) {
    var h := s.History(key);
    if key !in s.entries then h == []
    else
      var e := s.entries[key];
      && h != [] && e.count == h[|h| - 1].count && h[|h| - 1].time <= s.now
      && if e.expiry.Some? then LatestStart(h).time + limits.Window(key) <= e.expiry.value
         else Expiring(s.calls, LatestStart(h).call, key)
  }

  /** A call that still has to send an EXPIRE made its key's latest start, and the key has no expiry. */
  ghost predicate ExpiringMatches(s: State, call: CallId, key: Key) {
    Expiring(s.calls, call, key) ==>
      key in s.entries && s.entries[key].expiry.None?
      && s.History(key) != [] && LatestStart(s.History(key)).call == call
  }

  ghost predicate KeyInv(limits: Limits, s: State, key: Key) {
    && WellFormed(s.History(key), limits.Window(key))
    && EntryMatches(limits, s, key)
    && forall call :: ExpiringMatches(s, call, key)
  }

  predicate HitAt(h: seq<Hit>, i: nat, call: CallId, max: nat) {
    i < |h| && h[i].call == call && h[i].count <= max
  }

  /** A call's increments are where it remembers them, within the limits it has passed. */
  ghost predicate CallMatches(limits: Limits, s: State, k: Call, call: CallId) {
    var h, g := s.History(k.KeyPhone()), s.History(k.KeyRecipient());
    match k.stage
    case ExpiringPhone => HitAt(h, k.phoneHit, call, 1)
    case CountingRecipient => HitAt(h, k.phoneHit, call, limits.perSecond)
    case ExpiringRecipient => HitAt(h, k.phoneHit, call, limits.perSecond) && HitAt(g, k.recipientHit, call, 1)
    case Done(granted) => granted ==>
        HitAt(h, k.phoneHit, call, limits.perSecond) && HitAt(g, k.recipientHit, call, limits.burst)
  }

  ghost predicate Inv(limits: Limits, s: State) {
    && (forall key :: KeyInv(limits, s, key))
    && (forall call :: call in s.calls ==> CallMatches(limits, s, s.calls[call], call))
  }

  lemma Appended(h: seq<Hit>, hit: Hit, window: nat)
    requires WellFormed(h, window) && Follows(h, hit, window)
    ensures WellFormed(h + [hit], window)
    ensures LatestStart(h + [hit]) == if hit.count == 1 then hit else LatestStart(h)
  {
    assert (h + [hit])[..|h|] == h;
  }

  lemma {:induction false} LatestStartBeforeLast(h: seq<Hit>, window: nat)
    requires h != [] && WellFormed(h, window)
    ensures LatestStart(h).time <= h[|h| - 1].time
  {
    if |h| > 1 && h[|h| - 1].count != 1 {
      LatestStartBeforeLast(h[..|h| - 1], window);
    }
  }

  /** An increment's count follows the key's history. */
  lemma IncrementFollows(limits: Limits, s: State, call: CallId, key: Key)
    requires KeyInv(limits, s, key)
    ensures Follows(s.History(key), Hit(call, s.now, Incr(s.entries, key, s.now).count), limits.Window(key))
  {
    var h := s.History(key);
    if h != [] { LatestStartBeforeLast(h, limits.Window(key)); }
    assert h != [] ==> h[|h| - 1].count >= 1 by {
      if h != [] { CountsArePositive(h, limits.Window(key)); }
    }
  }

  lemma CountsArePositive(h: seq<Hit>, window: nat)
    requires h != [] && WellFormed(h, window)
    ensures h[|h| - 1].count >= 1
  {
  }

  /** An increment, with the caller's stage set to match what it returned, keeps every key's invariant. */
  lemma IncrementKeepsKeys(limits: Limits, s: State, call: CallId, key: Key, k: Call, other: Key)
    requires KeyInv(limits, s, other) && KeyInv(limits, s, key)
    requires !Expiring(s.calls, call, other)
    requires Expiring(s.calls[call := k], call, other) <==> other == key && Incr(s.entries, key, s.now).count == 1
    ensures KeyInv(limits, Increment(s, call, key).(calls := s.calls[call := k]), other)
  {
    var s' := Increment(s, call, key).(calls := s.calls[call := k]);
    var h := s.History(other);
    if other == key {
      var hit := Hit(call, s.now, Incr(s.entries, key, s.now).count);
      assert s'.History(key) == h + [hit];
      IncrementFollows(limits, s, call, key);
      Appended(h, hit, limits.Window(key));
    } else {
      assert s'.History(other) == h;
    }
    forall c ensures ExpiringMatches(s', c, other) {
      assert ExpiringMatches(s, c, other);
      assert c != call ==> (Expiring(s'.calls, c, other) <==> Expiring(s.calls, c, other));
    }
  }

  /** An EXPIRE by the call that owes it keeps every key's invariant. */
  lemma ExpireKeepsKeys(limits: Limits, s: State, call: CallId, key: Key, k: Call, other: Key)
    requires KeyInv(limits, s, other) && KeyInv(limits, s, key)
    requires Expiring(s.calls, call, key) && (Expiring(s.calls, call, other) ==> other == key)
    requires !Expiring(s.calls[call := k], call, other)
    ensures KeyInv(limits, s.(entries := Expire(s.entries, key, s.now, limits.Window(key)),
        calls := s.calls[call := k]), other)
  {
    var s' := s.(entries := Expire(s.entries, key, s.now, limits.Window(key)), calls := s.calls[call := k]);
    assert ExpiringMatches(s, call, key);
    LatestStartBeforeLast(s.History(key), limits.Window(key));
    forall c ensures ExpiringMatches(s', c, other) {
      assert ExpiringMatches(s, c, other);
      assert c != call ==> (Expiring(s'.calls, c, other) <==> Expiring(s.calls, c, other));
    }
  }

  lemma TickKeepsKeys(limits: Limits, s: State, ms: nat, key: Key)
    requires KeyInv(limits, s, key)
    ensures KeyInv(limits, s.(now := s.now + ms), key)
  {
    var s' := s.(now := s.now + ms);
    forall c ensures ExpiringMatches(s', c, key) { assert ExpiringMatches(s, c, key); }
  }

  lemma StepKeepsKeys(limits: Limits, s: State, c: Command, key: Key)
    requires Enabled(s, c) && Inv(limits, s)
    ensures KeyInv(limits, Step(limits, s, c), key)
  {
    assert KeyInv(limits, s, key);
    match c
    case Tick(ms) => TickKeepsKeys(limits, s, ms, key);
    case IncrPhone(_, _, _) => IncrPhoneKeepsKeys(limits, s, c, key);
    case ExpirePhone(call) => ExpireStepKeepsKeys(limits, s, c, s.calls[call].KeyPhone(), key);
    case IncrRecipient(_) => IncrRecipientKeepsKeys(limits, s, c, key);
    case ExpireRecipient(call) => ExpireStepKeepsKeys(limits, s, c, s.calls[call].KeyRecipient(), key);
  }

  lemma IncrPhoneKeepsKeys(limits: Limits, s: State, c: Command, key: Key)
    requires c.IncrPhone? && Enabled(s, c) && KeyInv(limits, s, key) && KeyInv(limits, s, PhoneKey(c.phone))
    ensures KeyInv(limits, Step(limits, s, c), key)
  {
    IncrementKeepsKeys(limits, s, c.call, PhoneKey(c.phone), Step(limits, s, c).calls[c.call], key);
  }

  lemma IncrRecipientKeepsKeys(limits: Limits, s: State, c: Command, key: Key)
    requires c.IncrRecipient? && Enabled(s, c) && KeyInv(limits, s, key)
    requires KeyInv(limits, s, s.calls[c.call].KeyRecipient())
    ensures KeyInv(limits, Step(limits, s, c), key)
  {
    IncrementKeepsKeys(limits, s, c.call, s.calls[c.call].KeyRecipient(), Step(limits, s, c).calls[c.call], key);
  }

  lemma ExpireStepKeepsKeys(limits: Limits, s: State, c: Command, owed: Key, key: Key)
    requires (c.ExpirePhone? || c.ExpireRecipient?) && Enabled(s, c)
    requires owed == if c.ExpirePhone? then s.calls[c.call].KeyPhone() else s.calls[c.call].KeyRecipient()
    requires KeyInv(limits, s, key) && KeyInv(limits, s, owed)
    ensures KeyInv(limits, Step(limits, s, c), key)
  {
    ExpireKeepsKeys(limits, s, c.call, owed, Step(limits, s, c).calls[c.call], key);
  }

  /** Histories only grow. */
  lemma HistoriesGrow(limits: Limits, s: State, c: Command, key: Key)
    requires Enabled(s, c)
    ensures s.History(key) <= Step(limits, s, c).History(key)
  {
  }

  lemma StepKeepsCalls(limits: Limits, s: State, c: Command, call: CallId)
    requires limits.Valid() && Enabled(s, c) && Inv(limits, s) && call in Step(limits, s, c).calls
    ensures CallMatches(limits, Step(limits, s, c), Step(limits, s, c).calls[call], call)
  {
    var s' := Step(limits, s, c);
    var k := s'.calls[call];
    HistoriesGrow(limits, s, c, k.KeyPhone());
    HistoriesGrow(limits, s, c, k.KeyRecipient());
    assert call in s.calls ==> CallMatches(limits, s, s.calls[call], call);
  }

  lemma {:induction false} RunKeepsInv(limits: Limits, s: State, commands: seq<Command>)
    requires limits.Valid() && Inv(limits, s) && Legal(limits, s, commands)
    ensures Inv(limits, Run(limits, s, commands))
    decreases |commands|
  {
    if commands != [] {
      var s' := Step(limits, s, commands[0]);
      forall key ensures KeyInv(limits, s', key) { StepKeepsKeys(limits, s, commands[0], key); }
      forall call | call in s'.calls ensures CallMatches(limits, s', s'.calls[call], call) {
        StepKeepsCalls(limits, s, commands[0], call);
      }
      RunKeepsInv(limits, s', commands[1..]);
    }
  }

  /** The call that made the latest start of a key, and no other, still has to send the key's EXPIRE. */
  ghost predicate OnlyCreatorExpiring(s: State, key: Key) {
    s.History(key) != []
    && forall call :: Expiring(s.calls, call, key) <==> call == LatestStart(s.History(key)).call
  }

  lemma NoExpiryMeansCreating(limits: Limits, s: State, key: Key)
    requires KeyInv(limits, s, key)
    ensures (key in s.entries && s.entries[key].expiry.None?) <==> OnlyCreatorExpiring(s, key)
  {
    if key in s.entries && s.entries[key].expiry.None? {
      forall call ensures Expiring(s.calls, call, key) <==> call == LatestStart(s.History(key)).call {
        assert ExpiringMatches(s, call, key);
      }
    }
    if OnlyCreatorExpiring(s, key) {
      var creator := LatestStart(s.History(key)).call;
      assert Expiring(s.calls, creator, key);
      assert ExpiringMatches(s, creator, key);
    }
  }

  /**
   A counter lacks an expiry exactly while one call, the one that created it, is between
   its INCR and its EXPIRE.
   */
  lemma NoExpiryOnlyWhileCreating(limits: Limits, s0: State, commands: seq<Command>, key: Key)
    requires limits.Valid() && Initial(s0) && Legal(limits, s0, commands)
    ensures var s := Run(limits, s0, commands);
            (key in s.entries && s.entries[key].expiry.None?) <==> OnlyCreatorExpiring(s, key)
  {
    InitialInv(limits, s0);
    RunKeepsInv(limits, s0, commands);
    assert KeyInv(limits, Run(limits, s0, commands), key);
    NoExpiryMeansCreating(limits, Run(limits, s0, commands), key);
  }

  lemma InitialInv(limits: Limits, s: State)
    requires Initial(s)
    ensures Inv(limits, s)
  {
    forall key ensures KeyInv(limits, s, key) { }
  }

  // ------------------------------------------------------------ the bound

  /** Increments in [from, to) that returned a count within the limit. */
  function Admitted(h: seq<Hit>, from: Instant, to: Instant, max: nat): nat {
    if h == [] then 0
    else
      var last := h[|h| - 1];
      Admitted(h[..|h| - 1], from, to, max) + if from <= last.time < to && last.count <= max then 1 else 0
  }

  /** Windows that started in [from, to). */
  function Starts(h: seq<Hit>, from: Instant, to: Instant): nat {
    if h == [] then 0
    else
      var last := h[|h| - 1];
      Starts(h[..|h| - 1], from, to) + if from <= last.time < to && last.count == 1 then 1 else 0
  }

  function Min(a: int, b: int): int { if a <= b then a else b }

  lemma {:induction false} NothingBefore(h: seq<Hit>, window: nat, from: Instant, to: Instant, max: nat)
    requires WellFormed(h, window) && (h != [] ==> h[|h| - 1].time < from)
    ensures Admitted(h, from, to, max) == 0 && Starts(h, from, to) == 0
  {
    if h != [] { NothingBefore(h[..|h| - 1], window, from, to, max); }
  }

  /** Each window admits at most the limit; the one already open at the beginning has spent one of its admissions. */
  lemma {:induction false} AdmittedByStarts(h: seq<Hit>, window: nat, from: Instant, to: Instant, max: nat)
    requires WellFormed(h, window) && max > 0
    ensures Admitted(h, from, to, max) <= Starts(h, from, to) * max + max - 1
    ensures h != [] && from <= h[|h| - 1].time < to ==>
              Admitted(h, from, to, max) <= Starts(h, from, to) * max + Min(h[|h| - 1].count, max) - 1
  {
    if h != [] {
      var before, last := h[..|h| - 1], h[|h| - 1];
      AdmittedByStarts(before, window, from, to, max);
      if from <= last.time < to {
        if before == [] || before[|before| - 1].time < from {
          NothingBefore(before, window, from, to, max);
        }
        if last.count == 1 {
          assert Starts(h, from, to) * max == Starts(before, from, to) * max + max;
        }
        CountsArePositive(h, window);
      }
    }
  }

  lemma {:induction false} NoStartsSince(h: seq<Hit>, window: nat, from: Instant, to: Instant)
    requires h != [] && WellFormed(h, window) && LatestStart(h).time < from
    ensures Starts(h, from, to) == 0
  {
    var before, last := h[..|h| - 1], h[|h| - 1];
    if before != [] {
      LatestStartBeforeLast(before, window);
      NoStartsSince(before, window, from, to);
    }
  }

  /** Two windows never start within one window's length. */
  lemma {:induction false} OneStartPerWindow(h: seq<Hit>, window: nat, from: Instant)
    requires WellFormed(h, window)
    ensures Starts(h, from, from + window) <= 1
  {
    if h != [] {
      var before, last := h[..|h| - 1], h[|h| - 1];
      OneStartPerWindow(before, window, from);
      if last.count == 1 && from <= last.time < from + window && before != [] {
        if LatestStart(before).time < from {
          NoStartsSince(before, window, from, from + window);
        } else {
          CountsArePositive(before, window);
        }
      }
    }
  }

  lemma {:induction false} StartsSplit(h: seq<Hit>, a: Instant, b: Instant, c: Instant)
    requires a <= b <= c
    ensures Starts(h, a, c) == Starts(h, a, b) + Starts(h, b, c)
  {
    if h != [] { StartsSplit(h[..|h| - 1], a, b, c); }
  }

  lemma {:induction false} StartsBound(h: seq<Hit>, window: nat, from: Instant, k: nat)
    requires WellFormed(h, window)
    ensures Starts(h, from, from + k * window) <= k
    decreases k
  {
    if k == 0 {
      StartsEmpty(h, from);
    } else {
      assert k * window == window + (k - 1) * window;
      StartsSplit(h, from, from + window, from + k * window);
      OneStartPerWindow(h, window, from);
      StartsBound(h, window, from + window, k - 1);
    }
  }

  lemma {:induction false} StartsEmpty(h: seq<Hit>, from: Instant)
    ensures Starts(h, from, from) == 0
  {
    if h != [] { StartsEmpty(h[..|h| - 1], from); }
  }

  /** The calls behind the admitted increments. */
  function AdmittedCalls(h: seq<Hit>, from: Instant, to: Instant, max: nat): (r: set<CallId>)
    ensures |r| <= Admitted(h, from, to, max)
    ensures forall i :: 0 <= i < |h| && from <= h[i].time < to && h[i].count <= max ==> h[i].call in r
  {
    if h == [] then {}
    else
      var last := h[|h| - 1];
      AdmittedCalls(h[..|h| - 1], from, to, max) + if from <= last.time < to && last.count <= max then {last.call}
          else {}
  }

  /** The position of a call's increment of a key, for a call that has passed it. */
  function HitOf(k: Call, key: Key): nat {
    if key.PhoneKey? then k.phoneHit else k.recipientHit
  }

  function TimeOf(s: State, k: Call, key: Key): Instant {
    if HitOf(k, key) < |s.History(key)| then s.History(key)[HitOf(k, key)].time else 0
  }

  /** The granted calls for a key whose increment of that key falls in [from, to). */
  ghost function Granted(s: State, key: Key, from: Instant, to: Instant): set<CallId> {
    set call | call in s.calls && s.calls[call].stage == Done(true)
               && (key == s.calls[call].KeyPhone() || key == s.calls[call].KeyRecipient())
               && from <= TimeOf(s, s.calls[call], key) < to
  }

  lemma GrantedWereAdmitted(limits: Limits, s: State, key: Key, from: Instant, to: Instant)
    requires Inv(limits, s)
    ensures Granted(s, key, from, to) <= AdmittedCalls(s.History(key), from, to, limits.Max(key))
  {
    var h := s.History(key);
    forall call | call in Granted(s, key, from, to) ensures call in AdmittedCalls(h, from, to, limits.Max(key)) {
      var k := s.calls[call];
      assert CallMatches(limits, s, k, call);
      assert HitAt(h, HitOf(k, key), call, limits.Max(key));
    }
  }

  lemma AdmittedBound(h: seq<Hit>, window: nat, from: Instant, k: nat, max: nat)
    requires WellFormed(h, window) && max > 0
    ensures Admitted(h, from, from + k * window, max) <= (k + 1) * max - 1
  {
    var starts := Starts(h, from, from + k * window);
    AdmittedByStarts(h, window, from, from + k * window, max);
    StartsBound(h, window, from, k);
    Scaled(starts, k, max);
  }

  lemma Scaled(a: nat, b: nat, max: nat)
    requires a <= b
    ensures a * max + max <= (b + 1) * max
  {
    assert (b + 1) * max == (a + 1) * max + (b - a) * max;
    assert (a + 1) * max == a * max + max;
  }

  /**
   However the commands of concurrent calls interleave, the calls granted for a phone number
   whose increments fall in any half-open span of k seconds number less than (k+1) times the
   per-second limit; likewise for a recipient, over k recipient windows and with the burst limit.
   */
  lemma RateBound(limits: Limits, s0: State, commands: seq<Command>, key: Key, from: Instant, k: nat)
    requires limits.Valid() && Initial(s0) && Legal(limits, s0, commands)
    ensures |Granted(Run(limits, s0, commands), key, from, from + k * limits.Window(key))| <=
        (k + 1) * limits.Max(key) - 1
  {
    InitialInv(limits, s0);
    RunKeepsInv(limits, s0, commands);
    GrantedBound(limits, Run(limits, s0, commands), key, from, k, from + k * limits.Window(key));
  }

  lemma GrantedBound(limits: Limits, s: State, key: Key, from: Instant, k: nat, to: Instant)
    requires limits.Valid() && Inv(limits, s) && to == from + k * limits.Window(key)
    ensures |Granted(s, key, from, to)| <= (k + 1) * limits.Max(key) - 1
  {
    assert KeyInv(limits, s, key);
    GrantedWereAdmitted(limits, s, key, from, to);
    SubsetSize(Granted(s, key, from, to), AdmittedCalls(s.History(key), from, to, limits.Max(key)));
    AdmittedBound(s.History(key), limits.Window(key), from, k, limits.Max(key));
  }

  lemma SubsetSize(a: set<CallId>, b: set<CallId>)
    requires a <= b
    ensures |a| <= |b|
  {
    assert b == a + (b - a);
  }

  // ------------------------------------------------------------ one call, undisturbed

  class Redis {
    var now: Instant
    var entries: map<Key, Entry>

    method SendIncr(key: Key) returns (n: int)
      modifies this`entries
      ensures entries == old(entries)[key := Incr(old(entries), key, now)] && n == entries[key].count
    {
      if key in entries && (entries[key].expiry.None? || now < entries[key].expiry.value) {
        entries := entries[key := entries[key].(count := entries[key].count + 1)];
      } else {
        entries := entries[key := Entry(1, None)];
      }
      n := entries[key].count;
    }

    method SendExpire(key: Key, ttl: nat)
      modifies this`entries
      ensures entries == Expire(old(entries), key, now, ttl)
    {
      if Live(entries, key, now) {
        entries := entries[key := entries[key].(expiry := Some(now + ttl))];
      }
    }
  }

  /**
   `acquire` as one caller executes it. With the ghost state s beside the store, it is a run
   of that call's commands, so everything proved of runs holds of it.
   */
  method Acquire(redis: Redis, limits: Limits, phone: string, recipient: string, ghost s: State, ghost call: CallId)
    returns (granted: bool, ghost commands: seq<Command>)
    requires s.entries == redis.entries && s.now == redis.now && call !in s.calls
    modifies redis`entries
    ensures forall i :: 0 <= i < |commands| ==> By(commands[i], call)
    ensures Legal(limits, s, commands)
    ensures var t := Run(limits, s, commands);
            t.entries == redis.entries && t.now == redis.now && call in t.calls && t.calls[call].stage == Done(granted)
  {
    var phoneKey := PhoneKey(phone);
    var n := redis.SendIncr(phoneKey);
    commands := [IncrPhone(call, phone, recipient)];
    CountsPhone(limits, s, call, phone, recipient);
    if n == 1 {
      redis.SendExpire(phoneKey, 1000);
      ExpiresPhone(limits, s, commands, call, n);
      commands := commands + [ExpirePhone(call)];
    }
    if n > limits.perSecond { return false, commands; }

    granted, commands := AcquireRecipient(redis, limits, RecipientKey(phone, recipient), s, commands, call);
  }

  /** The second half of `acquire`: the recipient's counter, after the commands so far. */
  method AcquireRecipient(redis: Redis, limits: Limits, key: Key, ghost s: State, ghost before: seq<Command>,
                          ghost call: CallId)
    returns (granted: bool, ghost commands: seq<Command>)
    requires Legal(limits, s, before) && forall i :: 0 <= i < |before| ==> By(before[i], call)
    requires var t := Run(limits, s, before);
             && t.entries == redis.entries && t.now == redis.now && call in t.calls
             && t.calls[call].stage == CountingRecipient && t.calls[call].KeyRecipient() == key
    modifies redis`entries
    ensures Legal(limits, s, commands) && forall i :: 0 <= i < |commands| ==> By(commands[i], call)
    ensures var t := Run(limits, s, commands);
            t.entries == redis.entries && t.now == redis.now && call in t.calls && t.calls[call].stage == Done(granted)
  {
    var n := redis.SendIncr(key);
    CountsRecipient(limits, s, before, call);
    commands := before + [IncrRecipient(call)];
    if n == 1 {
      redis.SendExpire(key, 1000 * limits.recipientWindow);
      ExpiresRecipient(limits, s, commands, call, n);
      commands := commands + [ExpireRecipient(call)];
    }
    granted := n <= limits.burst;
  }

  // What each command of a call leaves in the store and of the call.

  lemma CountsPhone(limits: Limits, s: State, call: CallId, phone: string, recipient: string)
    requires call !in s.calls
    ensures var cs, key := [IncrPhone(call, phone, recipient)], PhoneKey(phone);
            var n := Incr(s.entries, key, s.now).count;
            && Legal(limits, s, cs)
            && var t := Run(limits, s, cs);
            && t.entries == s.entries[key := Incr(s.entries, key, s.now)] && t.now == s.now && call in t.calls
            && t.calls[call].KeyPhone() == key && t.calls[call].KeyRecipient() == RecipientKey(phone, recipient)
            && CountAt(t, key, t.calls[call].phoneHit) == n
            && t.calls[call].stage == if n == 1 then ExpiringPhone else AfterPhone(limits, n)
  {
    RunOne(limits, s, IncrPhone(call, phone, recipient));
  }

  lemma ExpiresPhone(limits: Limits, s: State, cs: seq<Command>, call: CallId, n: int)
    requires Legal(limits, s, cs) && call in Run(limits, s, cs).calls
    requires Run(limits, s, cs).calls[call].stage == ExpiringPhone
    requires var t := Run(limits, s, cs); CountAt(t, t.calls[call].KeyPhone(), t.calls[call].phoneHit) == n
    ensures Legal(limits, s, cs + [ExpirePhone(call)])
    ensures var t, u := Run(limits, s, cs), Run(limits, s, cs + [ExpirePhone(call)]);
            && u.entries == Expire(t.entries, t.calls[call].KeyPhone(), t.now, 1000) && u.now == t.now
            && call in u.calls
            && u.calls[call].KeyRecipient() == t.calls[call].KeyRecipient()
            && u.calls[call].stage == AfterPhone(limits, n)
  {
    RunSnoc(limits, s, cs, ExpirePhone(call));
  }

  lemma CountsRecipient(limits: Limits, s: State, cs: seq<Command>, call: CallId)
    requires Legal(limits, s, cs) && call in Run(limits, s, cs).calls
    requires Run(limits, s, cs).calls[call].stage == CountingRecipient
    ensures Legal(limits, s, cs + [IncrRecipient(call)])
    ensures var t, u := Run(limits, s, cs), Run(limits, s, cs + [IncrRecipient(call)]);
            var key := t.calls[call].KeyRecipient();
            var n := Incr(t.entries, key, t.now).count;
            && u.entries == t.entries[key := Incr(t.entries, key, t.now)] && u.now == t.now && call in u.calls
            && u.calls[call].KeyRecipient() == key && CountAt(u, key, u.calls[call].recipientHit) == n
            && u.calls[call].stage == if n == 1 then ExpiringRecipient else AfterRecipient(limits, n)
  {
    RunSnoc(limits, s, cs, IncrRecipient(call));
  }

  lemma ExpiresRecipient(limits: Limits, s: State, cs: seq<Command>, call: CallId, n: int)
    requires Legal(limits, s, cs) && call in Run(limits, s, cs).calls
    requires Run(limits, s, cs).calls[call].stage == ExpiringRecipient
    requires var t := Run(limits, s, cs); CountAt(t, t.calls[call].KeyRecipient(), t.calls[call].recipientHit) == n
    ensures Legal(limits, s, cs + [ExpireRecipient(call)])
    ensures var t, u := Run(limits, s, cs), Run(limits, s, cs + [ExpireRecipient(call)]);
            && u.entries == Expire(t.entries, t.calls[call].KeyRecipient(), t.now, 1000 * limits.recipientWindow)
            && u.now == t.now && call in u.calls && u.calls[call].stage == AfterRecipient(limits, n)
  {
    RunSnoc(limits, s, cs, ExpireRecipient(call));
  }

  lemma RunOne(limits: Limits, s: State, c: Command)
    requires Enabled(s, c)
    ensures Legal(limits, s, [c]) && Run(limits, s, [c]) == Step(limits, s, c)
  {
    assert [c][1..] == [];
  }

  lemma {:induction false} RunSnoc(limits: Limits, s: State, commands: seq<Command>, c: Command)
    requires Legal(limits, s, commands) && Enabled(Run(limits, s, commands), c)
    ensures Legal(limits, s, commands + [c])
    ensures Run(limits, s, commands + [c]) == Step(limits, Run(limits, s, commands), c)
    decreases |commands|
  {
    if commands == [] {
      assert [] + [c] == [c];
      RunOne(limits, s, c);
    } else {
      assert (commands + [c])[1..] == commands[1..] + [c];
      RunSnoc(limits, Step(limits, s, commands[0]), commands[1..], c);
    }
  }

  lemma {:induction false} RunAppend(limits: Limits, s: State, a: seq<Command>, b: seq<Command>)
    requires Legal(limits, s, a) && Legal(limits, Run(limits, s, a), b)
    ensures Legal(limits, s, a + b) && Run(limits, s, a + b) == Run(limits, Run(limits, s, a), b)
    decreases |a|
  {
    if a == [] {
      assert a + b == b;
    } else {
      assert (a + b)[1..] == a[1..] + b;
      RunAppend(limits, Step(limits, s, a[0]), a[1..], b);
    }
  }
}

/**
 How a stream of status updates folds into one message row.
 */
module StatusFold {
  import opened Wrappers
  import opened Rows

  /** The status word table; "deleted" counts as a failure. */
  function ParseStatus(word: string): (r: Option<MessageStatus>)
    ensures r.Some? ==> r.value != MessageStatus.Queued && word != ""
  {
    match word
    case "sent" => Some(MessageStatus.Sent)
    case "delivered" => Some(MessageStatus.Delivered)
    case "read" => Some(MessageStatus.Read)
    case "failed" => Some(MessageStatus.Failed)
    case "deleted" => Some(MessageStatus.Failed)
    case _ => None
  }

  /** What a recognised update with a readable timestamp asks for. */
  datatype Effect = Effect(to: MessageStatus, when: Stamp, error: Option<ErrorInfo>, pricing: Option<string>)

  /** The time an update reports, or the server's clock when it reports none. */
  function When(u: StatusUpdate, now: Time): Stamp {
    if u.timestamp.At? then Reported(u.timestamp.at) else Clock(now)
  }

  /** None for an update the source skips: no id, no status, or an unknown status word. */
  function Parse(u: StatusUpdate, now: Time): (r: Option<Effect>)
    ensures r.Some? ==> r.value.to != MessageStatus.Queued
  {
    if u.waId == "" || u.status == "" then None
    else match ParseStatus(u.status)
         case None => None
         case Some(to) => Some(Effect(to, When(u, now), if u.errors == [] then None else Some(u.errors[0]), u.pricing))
  }

  /** Python's `title or message`: an empty title counts as missing. */
  function ErrorText(e: ErrorInfo): Option<string> {
    if e.title != "" then Some(e.title) else e.message
  }

  /** A column that only the first effect into its own status sets. */
  function Stamped(column: Option<Stamp>, kind: MessageStatus, e: Effect): Option<Stamp> {
    if e.to == kind then column.OrElse(Some(e.when)) else column
  }

  /** The error this effect writes to the row: only the one that sets `failedAt` writes any. */
  function WrittenError(m: Message, e: Effect): Option<ErrorInfo> {
    if e.to == MessageStatus.Failed && m.failedAt.None? then e.error else None
  }

  /** The row after one effect. */
  function UpdateMessage(m: Message, e: Effect): Message {
    var error := WrittenError(m, e);
    m.(status := e.to,
       sentAt := Stamped(m.sentAt, MessageStatus.Sent, e),
       deliveredAt := Stamped(m.deliveredAt, MessageStatus.Delivered, e),
       readAt := Stamped(m.readAt, MessageStatus.Read, e),
       failedAt := Stamped(m.failedAt, MessageStatus.Failed, e),
       errorCode := if error.Some? then error.value.code else m.errorCode,
       errorMessage := if error.Some? then ErrorText(error.value) else m.errorMessage,
       pricing := e.pricing.OrElse(m.pricing))
  }

  function Fold(m: Message, effects: seq<Effect>): Message
    decreases |effects|
  {
    if effects == [] then m else Fold(UpdateMessage(m, effects[0]), effects[1..])
  }

  // An independent description of the fold: one look-up per column.

  /** The first effect into `to`. */
  function FirstInto(effects: seq<Effect>, to: MessageStatus): Option<Effect> {
    if effects == [] then None
    else if effects[0].to == to then Some(effects[0])
    else FirstInto(effects[1..], to)
  }

  function FirstTime(effects: seq<Effect>, to: MessageStatus): Option<Stamp> {
    match FirstInto(effects, to)
    case None => None
    case Some(e) => Some(e.when)
  }

  /** The last pricing block reported. */
  function LastPricing(effects: seq<Effect>): Option<string> {
    if effects == [] then None else LastPricing(effects[1..]).OrElse(effects[0].pricing)
  }

  /** The error of the effect that sets `failedAt`, when one does and carries any. */
  function DecidingError(m: Message, effects: seq<Effect>): Option<ErrorInfo> {
    if m.failedAt.Some? then None
    else match FirstInto(effects, MessageStatus.Failed)
         case None => None
         case Some(e) => e.error
  }

  ghost predicate IsFoldOf(r: Message, m: Message, effects: seq<Effect>) {
    && r.status == (if effects == [] then m.status else effects[|effects| - 1].to)
    && r.sentAt == m.sentAt.OrElse(FirstTime(effects, MessageStatus.Sent))
    && r.deliveredAt == m.deliveredAt.OrElse(FirstTime(effects, MessageStatus.Delivered))
    && r.readAt == m.readAt.OrElse(FirstTime(effects, MessageStatus.Read))
    && r.failedAt == m.failedAt.OrElse(FirstTime(effects, MessageStatus.Failed))
    && r.errorCode == (match DecidingError(m, effects) case None => m.errorCode case Some(e) => e.code)
    && r.errorMessage == (match DecidingError(m, effects) case None => m.errorMessage case Some(e) => ErrorText(e))
    && r.pricing == LastPricing(effects).OrElse(m.pricing)
    && r.tenantId == m.tenantId && r.outbound == m.outbound && r.waId == m.waId
    && r.recipientPhone == m.recipientPhone && r.senderPhone == m.senderPhone
    && r.content == m.content && r.recipient == m.recipient
  }

  /**
   Every column of the folded row in closed form: the last status, the first
   time of each kind unless one was there before, the errors of the update that
   set the failure time, the last pricing.
   */
  lemma {:induction false} FoldClosedForm(m: Message, effects: seq<Effect>)
    ensures IsFoldOf(Fold(m, effects), m, effects)
    decreases |effects|
  {
    if effects != [] {
      FoldClosedForm(UpdateMessage(m, effects[0]), effects[1..]);
    }
  }

  /** The same effects at other clock readings. */
  ghost predicate SameButClock(a: seq<Effect>, b: seq<Effect>) {
    |a| == |b| && forall i :: 0 <= i < |a| ==> a[i].(when := Clock(0)) == b[i].(when := Clock(0))
  }

  lemma {:induction false} LookupsIgnoreClock(a: seq<Effect>, b: seq<Effect>)
    requires SameButClock(a, b)
    ensures LastPricing(a) == LastPricing(b)
    ensures forall to :: FirstInto(a, to).Some? <==> FirstInto(b, to).Some?
    decreases |a|
  {
    if a != [] {
      assert a[0].(when := Clock(0)) == b[0].(when := Clock(0));
      LookupsIgnoreClock(a[1..], b[1..]);
    }
  }

  /**
   Replaying a whole list of updates, at any clock readings, leaves the
   message row exactly as the first pass left it.
   */
  lemma ReplayLeavesMessage(m: Message, first: seq<Effect>, replay: seq<Effect>)
    requires SameButClock(first, replay)
    ensures Fold(Fold(m, first), replay) == Fold(m, first)
  {
    var once := Fold(m, first);
    FoldClosedForm(m, first);
    FoldClosedForm(once, replay);
    LookupsIgnoreClock(first, replay);
    if first != [] {
      var last := |first| - 1;
      assert first[last].(when := Clock(0)) == replay[last].(when := Clock(0));
    }
  }
}

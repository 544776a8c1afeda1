/**
 * The part both webhook handlers share: how a verified payment-processor event becomes a
 * write on the `subscriptions` table, and what that write does to the table.
 */
module Reconcile {
  import opened Wrappers
  import opened SubscriptionTable
  import Database

  /** The fields of a Checkout Session that the handlers read; `expiresAt` is in seconds. */
  datatype CheckoutSession = CheckoutSession(
    clientReferenceId: Option<string>,
    customer: Option<string>,
    subscription: Option<string>,
    expiresAt: Option<int>)

  /** The fields of a Subscription object that the handlers read; `currentPeriodEnd` is in seconds. */
  datatype Subscription = Subscription(id: string, status: string, currentPeriodEnd: int)

  /** A verified event, by its `type`; `Other` stands for every type the handlers do not switch on. */
  datatype Event =
    | CheckoutSessionCompleted(session: CheckoutSession)
    | SubscriptionUpdated(subscription: Subscription)
    | SubscriptionDeleted(subscription: Subscription)
    | Other(eventType: string)

  /** The fallback subscription length when the session carries no expiry: 30 days in milliseconds. */
  const ThirtyDaysMs: int := 30 * 24 * 60 * 60 * 1000

  /** The largest magnitude of a valid `Date` time value (ECMAScript's 8.64e15 ms). */
  const MaxTimeValue: int := 8_640_000_000_000_000

  /** The message of the RangeError `toISOString` throws for an invalid date. */
  const InvalidTimeValue: string := "Invalid time value"

  /** The single database call an event asks for, if any. */
  datatype Write =
    | NoWrite
    | UpsertRow(row: Row)
    | UpdateRows(subscriptionId: string, status: string, periodEnd: int)

  /** JavaScript truthiness of an optional string: present and non-empty. */
  predicate Truthy(s: Option<string>) {
    s.Some? && s.value != ""
  }

  /** The period end a completed checkout stores: `expires_at` in ms when truthy, else now + 30 days. */
  function CheckoutPeriodEnd(session: CheckoutSession, now: int): (ms: int)
    ensures session.expiresAt.Some? && session.expiresAt.value != 0 ==> ms == session.expiresAt.value * 1000
    ensures session.expiresAt.None? || session.expiresAt.value == 0 ==> ms == now + 2_592_000_000
  {
    if session.expiresAt.Some? && session.expiresAt.value != 0 then session.expiresAt.value * 1000
    else now + ThirtyDaysMs
  }

  /** `new Date(ms).toISOString()`: succeeds on a valid time value and throws a RangeError otherwise. */
  function IsoTimestamp(ms: int): (r: Result<int, string>)
    ensures r.Success? <==> -8_640_000_000_000_000 <= ms <= 8_640_000_000_000_000
    ensures r.Success? ==> r.value == ms
  {
    if -MaxTimeValue <= ms <= MaxTimeValue then Success(ms) else Failure(InvalidTimeValue)
  }

  /** The database write an event calls for; a failure is the message of the exception thrown on the way. */
  function PlanWrite(e: Event, now: int): (r: Result<Write, string>)
  {
    match e
    case CheckoutSessionCompleted(session) =>
      if Truthy(session.clientReferenceId) then
        match IsoTimestamp(CheckoutPeriodEnd(session, now))
        case Failure(msg) => Failure(msg)
        case Success(ms) =>
          Success(UpsertRow(Row(session.clientReferenceId.value, session.customer,
                                session.subscription, "active", Some(ms))))
      else Success(NoWrite)
    case SubscriptionUpdated(sub) => PlanUpdate(sub)
    case SubscriptionDeleted(sub) => PlanUpdate(sub)
    case Other(_) => Success(NoWrite)
  }

  function PlanUpdate(sub: Subscription): Result<Write, string> {
    match IsoTimestamp(sub.currentPeriodEnd * 1000)
    case Failure(msg) => Failure(msg)
    case Success(ms) => Success(UpdateRows(sub.id, sub.status, ms))
  }

  /** The table after a write the database accepted. */
  function ApplyWrite(t: Table, w: Write): Table {
    match w
    case NoWrite => t
    case UpsertRow(row) => Upsert(t, row)
    case UpdateRows(id, status, ms) => UpdateBySubscription(t, id, status, ms)
  }

  /** The result of processing a verified event: the new table, or the message of the exception thrown. */
  datatype Processed = Processed(table: Table, thrown: Option<string>)

  /** The events the handlers act on: a checkout naming a user, or any subscription change. */
  predicate Writes(e: Event) {
    || (e.CheckoutSessionCompleted? && Truthy(e.session.clientReferenceId))
    || e.SubscriptionUpdated? || e.SubscriptionDeleted?
  }

  /** The millisecond value such an event turns into an ISO timestamp. */
  function StoredMs(e: Event, now: int): int
    requires Writes(e)
  {
    if e.CheckoutSessionCompleted? then CheckoutPeriodEnd(e.session, now)
    else e.subscription.currentPeriodEnd * 1000
  }

  /** An event whose timestamp lies outside the range of a valid `Date`. */
  predicate DateOutOfRange(e: Event, now: int) {
    Writes(e) && (StoredMs(e, now) < -MaxTimeValue || MaxTimeValue < StoredMs(e, now))
  }

  /**
   * Processing a verified event against the table. `db` is the database's answer to the
   * write, consulted only when there is one: an error it returns leaves the table as it
   * was and is merely logged; an exception it throws is the `thrown` message.
   */
  function Process(t: Table, e: Event, now: int, db: Database.Call): (p: Processed)
    ensures p.thrown.None? && p.table != t ==> Writes(e) && db == Database.Returned(Database.Stored)
    ensures p.thrown.Some? ==> p.table == t
    ensures p.thrown.Some? <==> DateOutOfRange(e, now) || (Writes(e) && db.Threw?)
    ensures DateOutOfRange(e, now) ==> p.thrown == Some("Invalid time value")
    ensures Writes(e) && !DateOutOfRange(e, now) && db.Threw? ==> p.thrown == Some(db.message)
  {
    match PlanWrite(e, now)
    case Failure(msg) => Processed(t, Some(msg))
    case Success(NoWrite) => Processed(t, None)
    case Success(w) =>
      match db
      case Threw(msg) => Processed(t, Some(msg))
      case Returned(Stored) => Processed(ApplyWrite(t, w), None)
      case Returned(DbError(_)) => Processed(t, None)
  }

  /** A completed checkout with a user id upserts that user's row as 'active' with the session's ids. */
  lemma CheckoutUpsertsActiveRow(t: Table, session: CheckoutSession, now: int)
    requires Truthy(session.clientReferenceId)
    requires IsoTimestamp(CheckoutPeriodEnd(session, now)).Success?
    ensures var p := Process(t, CheckoutSessionCompleted(session), now, Database.Returned(Database.Stored));
      && p.thrown.None?
      && var row := Row(session.clientReferenceId.value, session.customer, session.subscription,
                        "active", Some(CheckoutPeriodEnd(session, now)));
      && row in p.table
      && (forall x :: x in t && x.userId != row.userId ==> x in p.table)
      && (forall x :: x in p.table ==> x == row || x in t)
  {
  }

  /** A completed checkout without a user id changes nothing, whatever the database would answer. */
  lemma CheckoutWithoutUserIsIgnored(t: Table, session: CheckoutSession, now: int, db: Database.Call)
    requires !Truthy(session.clientReferenceId)
    ensures Process(t, CheckoutSessionCompleted(session), now, db) == Processed(t, None)
  {
  }

  /**
   * An updated or deleted subscription changes only the rows carrying its id, and in
   * those only the status and the period end (`current_period_end * 1000`).
   */
  lemma SubscriptionChangeTouchesOnlyItsRows(t: Table, e: Event, now: int)
    requires e.SubscriptionUpdated? || e.SubscriptionDeleted?
    requires IsoTimestamp(e.subscription.currentPeriodEnd * 1000).Success?
    ensures var p := Process(t, e, now, Database.Returned(Database.Stored));
      && p.thrown.None? && |p.table| == |t|
      && (forall i :: 0 <= i < |t| && t[i].subscriptionId != Some(e.subscription.id) ==> p.table[i] == t[i])
      && (forall i :: 0 <= i < |t| && t[i].subscriptionId == Some(e.subscription.id) ==>
            && p.table[i].userId == t[i].userId
            && p.table[i].customerId == t[i].customerId
            && p.table[i].subscriptionId == t[i].subscriptionId
            && p.table[i].status == e.subscription.status
            && p.table[i].periodEnd == Some(e.subscription.currentPeriodEnd * 1000))
  {
  }

  /** Any other event type leaves the table alone and throws nothing. */
  lemma OtherEventsChangeNothing(t: Table, eventType: string, now: int, db: Database.Call)
    ensures Process(t, Other(eventType), now, db) == Processed(t, None)
  {
  }

  /** A database error is only logged: the table is unchanged and nothing is thrown. */
  lemma DatabaseErrorIsSwallowed(t: Table, e: Event, now: int, message: string)
    ensures Process(t, e, now, Database.Returned(Database.DbError(message))) == Processed(t, if PlanWrite(e, now).Failure? then Some(PlanWrite(e, now).error) else None)
  {
  }

  /** Every transition keeps one row per user. */
  lemma ProcessKeepsUniqueUsers(t: Table, e: Event, now: int, db: Database.Call)
    requires UniqueUsers(t)
    ensures UniqueUsers(Process(t, e, now, db).table)
  {
    match PlanWrite(e, now)
    case Failure(_) =>
    case Success(w) =>
      if w.UpdateRows? {
        UpdateKeepsUniqueUsers(t, w.subscriptionId, w.status, w.periodEnd);
      }
  }
}

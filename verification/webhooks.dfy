/** What arrives at a webhook endpoint and what it answers. */
module WebhookHttp {
  import opened Wrappers
  import Reconcile

  /** An incoming request: HTTP method (`verb`), raw body and the `Stripe-Signature` header, if sent. */
  datatype Request = Request(verb: string, body: string, signature: Option<string>)

  /** The reply: status code, body text and the `Allow` header, if set. */
  datatype Reply = Reply(status: int, body: string, allow: Option<string>)

  /** The signature check of the payment processor's SDK, taken as given. */
  datatype Verification = Verified(event: Reconcile.Event) | Rejected(message: string)

  /** `constructEvent(body, signature, secret)`: an oracle over body, signature header and secret. */
  type Verifier = (string, Option<string>, string) -> Verification

  /** The JSON body of every accepted event. */
  const ReceivedJson: string := "{\"received\":true}"
}

/** The serverless handler: method check, signature gate, event processing, reply. */
module ApiWebhook {
  import opened Wrappers
  import opened SubscriptionTable
  import Database
  import Reconcile
  import opened WebhookHttp

  /** The handler's reply and the table after it. */
  datatype Outcome = Outcome(reply: Reply, table: Table)

  /**
   * `handler(req, res)` with `secret` the configured webhook secret and `now` the clock.
   * Every rejection of the request leaves the table as it was.
   */
  function Handle(req: Request, secret: Option<string>, verify: Verifier, t: Table, now: int, db: Database.Call): (o: Outcome)
    ensures o.table != t ==> o.reply.status == 200
    ensures o.reply.status == 405 <==> req.verb != "POST"
    ensures o.reply.status == 405 ==> o.reply.allow == Some("POST")
  {
    if req.verb != "POST" then
      Outcome(Reply(405, "Method Not Allowed", Some("POST")), t)
    else if !Reconcile.Truthy(secret) then
      Outcome(Reply(400, "Webhook Error: Missing Stripe Webhook Secret", None), t)
    else match verify(req.body, req.signature, secret.value)
      case Rejected(msg) => Outcome(Reply(400, "Webhook Error: " + msg, None), t)
      case Verified(e) =>
        var p := Reconcile.Process(t, e, now, db);
        if p.thrown.Some? then Outcome(Reply(500, "{\"error\":\"Error processing event\"}", None), t)
        else Outcome(Reply(200, ReceivedJson, None), p.table)
  }

  /**
   * An event whose timestamp is not a valid `Date` makes `toISOString` throw: the reply is
   * 500 and the table is unchanged, whatever the database would have answered.
   */
  lemma InvalidDateIs500(req: Request, secret: Option<string>, verify: Verifier, t: Table, now: int, db: Database.Call)
    requires req.verb == "POST" && Reconcile.Truthy(secret)
    requires verify(req.body, req.signature, secret.value).Verified?
    requires Reconcile.DateOutOfRange(verify(req.body, req.signature, secret.value).event, now)
    ensures Handle(req, secret, verify, t, now, db)
      == Outcome(Reply(500, "{\"error\":\"Error processing event\"}", None), t)
  {
  }

  /** A request that is not a POST gets 405 with `Allow: POST` and changes nothing. */
  lemma NonPostRejected(req: Request, secret: Option<string>, verify: Verifier, t: Table, now: int, db: Database.Call)
    requires req.verb != "POST"
    ensures Handle(req, secret, verify, t, now, db) == Outcome(Reply(405, "Method Not Allowed", Some("POST")), t)
  {
  }

  /** A missing secret or a failed signature check gets 400 and changes nothing. */
  lemma BadSignatureRejected(req: Request, secret: Option<string>, verify: Verifier, t: Table, now: int, db: Database.Call)
    requires req.verb == "POST"
    requires !Reconcile.Truthy(secret) || verify(req.body, req.signature, secret.value).Rejected?
    ensures var o := Handle(req, secret, verify, t, now, db);
      o.reply.status == 400 && o.table == t
  {
  }

  /**
   * Once an event is verified the reply is `{received:true}` unless an exception was
   * thrown, which alone gives 500; a database error returned by the write does not.
   */
  lemma VerifiedEventReply(req: Request, secret: Option<string>, verify: Verifier, t: Table, now: int, db: Database.Call)
    requires req.verb == "POST" && Reconcile.Truthy(secret)
    requires verify(req.body, req.signature, secret.value).Verified?
    ensures var e := verify(req.body, req.signature, secret.value).event;
      var o := Handle(req, secret, verify, t, now, db);
      var p := Reconcile.Process(t, e, now, db);
      && (p.thrown.None? ==> o == Outcome(Reply(200, ReceivedJson, None), p.table))
      && (p.thrown.Some? ==> o.reply.status == 500 && o.table == t)
  {
  }
}

/** The edge-function handler: header and secret gate, signature check, event processing, reply. */
module EdgeWebhook {
  import opened Wrappers
  import opened SubscriptionTable
  import Database
  import Reconcile
  import opened WebhookHttp
  import ApiWebhook

  datatype Outcome = Outcome(reply: Reply, table: Table, bodyRead: bool)

  /**
   * The `serve` callback. The method is not inspected; a missing or empty signature
   * header or secret is refused before the body is read.
   */
  function Handle(req: Request, secret: Option<string>, verify: Verifier, t: Table, now: int, db: Database.Call): (o: Outcome)
    ensures o.table != t ==> o.reply.status == 200
    ensures !o.bodyRead <==> (!Reconcile.Truthy(req.signature) || !Reconcile.Truthy(secret))
    ensures !o.bodyRead ==> o.reply == Reply(400, "Missing signature or secret", None)
  {
    if !Reconcile.Truthy(req.signature) || !Reconcile.Truthy(secret) then
      Outcome(Reply(400, "Missing signature or secret", None), t, false)
    else match verify(req.body, req.signature, secret.value)
      case Rejected(msg) => Outcome(Reply(400, "Webhook Error: " + msg, None), t, true)
      case Verified(e) =>
        var p := Reconcile.Process(t, e, now, db);
        if p.thrown.Some? then Outcome(Reply(500, "Error processing event: " + p.thrown.value, None), t, true)
        else Outcome(Reply(200, ReceivedJson, None), p.table, true)
  }

  /** A failed signature check answers 400 "Webhook Error: ..." and changes nothing. */
  lemma BadSignatureRejected(req: Request, secret: Option<string>, verify: Verifier, t: Table, now: int, db: Database.Call)
    requires Reconcile.Truthy(req.signature) && Reconcile.Truthy(secret)
    requires verify(req.body, req.signature, secret.value).Rejected?
    ensures Handle(req, secret, verify, t, now, db)
      == Outcome(Reply(400, "Webhook Error: " + verify(req.body, req.signature, secret.value).message, None), t, true)
  {
  }

  /** An exception during processing answers 500 and leaves the table as it was. */
  lemma ProcessingFailureIs500(req: Request, secret: Option<string>, verify: Verifier, t: Table, now: int, db: Database.Call)
    requires Reconcile.Truthy(req.signature) && Reconcile.Truthy(secret)
    requires verify(req.body, req.signature, secret.value).Verified?
    requires Reconcile.Process(t, verify(req.body, req.signature, secret.value).event, now, db).thrown.Some?
    ensures var o := Handle(req, secret, verify, t, now, db);
      o.reply.status == 500 && o.table == t
  {
  }

  /**
   * The edge handler's 500 names the exception: an invalid `Date` gives "Invalid time
   * value", and a database call that throws gives that exception's message.
   */
  lemma ThrownMessageIsReported(req: Request, secret: Option<string>, verify: Verifier, t: Table, now: int, db: Database.Call)
    requires Reconcile.Truthy(req.signature) && Reconcile.Truthy(secret)
    requires verify(req.body, req.signature, secret.value).Verified?
    requires var e := verify(req.body, req.signature, secret.value).event;
      Reconcile.DateOutOfRange(e, now) || (Reconcile.Writes(e) && db.Threw?)
    ensures var e := verify(req.body, req.signature, secret.value).event;
      Handle(req, secret, verify, t, now, db)
      == Outcome(Reply(500, "Error processing event: "
                       + (if Reconcile.DateOutOfRange(e, now) then "Invalid time value" else db.message), None), t, true)
  {
  }

  /**
   * The two handlers agree on every verified event: a POST that both let through reaches
   * the same table and the same status code.
   */
  lemma AgreesWithApiHandler(req: Request, secret: Option<string>, verify: Verifier, t: Table, now: int, db: Database.Call)
    requires req.verb == "POST"
    requires Reconcile.Truthy(req.signature) && Reconcile.Truthy(secret)
    ensures var a := ApiWebhook.Handle(req, secret, verify, t, now, db);
      var o := Handle(req, secret, verify, t, now, db);
      && a.table == o.table
      && a.reply.status == o.reply.status
      && (a.reply.status != 500 ==> a.reply == o.reply)
  {
  }
}

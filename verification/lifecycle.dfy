/**
 * Properties that span several parts of the application: what the webhook's writes mean
 * for the entitlement check, and what the analysis page shows when the model call fails.
 * A checkout session is created with `client_reference_id` set to the signed-in user's id,
 * which is how the user id below reaches the webhook.
 */
module Lifecycle {
  import opened Wrappers
  import opened SubscriptionTable
  import opened Reconcile
  import Entitlement
  import Database
  import Gemini
  import Types
  import HomePage
  import History
  import ContractForm

  /**
   * After a completed checkout for `user` is stored, the user is entitled at every time up
   * to the stored period end.
   */
  lemma CheckoutGrantsEntitlement(t: Table, session: CheckoutSession, now: int, at: int)
    requires UniqueUsers(t)
    requires Truthy(session.clientReferenceId)
    requires IsoTimestamp(CheckoutPeriodEnd(session, now)).Success?
    requires at <= CheckoutPeriodEnd(session, now)
    ensures var p := Process(t, CheckoutSessionCompleted(session), now, Database.Returned(Database.Stored));
      Entitlement.CheckSubscriptionStatus(Database.Rows(p.table), session.clientReferenceId.value, at)
  {
    var user := session.clientReferenceId.value;
    var row := Row(user, session.customer, session.subscription, "active", Some(CheckoutPeriodEnd(session, now)));
    var t' := Upsert(t, row);
    assert Process(t, CheckoutSessionCompleted(session), now, Database.Returned(Database.Stored)).table == t';
    var i :| 0 <= i < |t'| && t'[i] == row;
    Entitlement.EntitledIffOwnRowIsCurrent(t', user, at);
  }

  /**
   * A checkout without an expiry (missing or zero `expires_at`) entitles its user for the
   * thirty days that follow `now`.
   */
  lemma MissingExpiryEntitlesThirtyDays(t: Table, session: CheckoutSession, now: int, at: int)
    requires UniqueUsers(t)
    requires Truthy(session.clientReferenceId)
    requires session.expiresAt.None? || session.expiresAt.value == 0
    requires -MaxTimeValue <= now + ThirtyDaysMs <= MaxTimeValue
    requires at <= now + 2_592_000_000
    ensures var p := Process(t, CheckoutSessionCompleted(session), now, Database.Returned(Database.Stored));
      p.thrown.None? && Entitlement.CheckSubscriptionStatus(Database.Rows(p.table), session.clientReferenceId.value, at)
  {
    CheckoutGrantsEntitlement(t, session, now, at);
  }

  /**
   * What the model receives after any non-empty sequence of form actions is fixed by the
   * last one: a binary file gives its inlined payload and the fixed instruction; otherwise
   * the text the action left goes out untrimmed, and only when it is long enough.
   */
  lemma FormContentReachesModel(f: ContractForm.Form, actions: seq<ContractForm.Action>)
    requires actions != []
    requires forall k :: 0 <= k < |actions| ==> ContractForm.WellFormed(actions[k])
    ensures var c := ContractForm.Submission(ContractForm.Run(f, actions));
      var last := actions[|actions| - 1];
      && (last.FileLoaded? && !ContractForm.IsTextFile(last.file) ==>
            c.Some? && Gemini.PromptParts(c.value)
              == [Gemini.InlineData(last.file.mimeType, ContractForm.DataUrlPayload(last.result)),
                  Gemini.TextPart(Gemini.FileInstruction)])
      && (!(last.FileLoaded? && !ContractForm.IsTextFile(last.file)) ==>
            && (c.Some? <==> ContractForm.TrimmedLength(ContractForm.TextAfter(last)) >= 50)
            && (c.Some? ==> Gemini.PromptParts(c.value) == [Gemini.TextPart(ContractForm.TextAfter(last))]))
  {
    ContractForm.RunIsDecidedByLastAction(f, actions);
  }

  /**
   * After a subscription moves to a status outside {active, trialing}, the user whose row
   * carries it is entitled at no time.
   */
  lemma LapsedSubscriptionRevokesEntitlement(t: Table, e: Event, now: int, at: int, i: nat)
    requires UniqueUsers(t)
    requires e.SubscriptionUpdated? || e.SubscriptionDeleted?
    requires !Entitlement.EntitledStatus(e.subscription.status)
    requires IsoTimestamp(e.subscription.currentPeriodEnd * 1000).Success?
    requires i < |t| && t[i].subscriptionId == Some(e.subscription.id)
    ensures var p := Process(t, e, now, Database.Returned(Database.Stored));
      !Entitlement.CheckSubscriptionStatus(Database.Rows(p.table), t[i].userId, at)
  {
    var sub := e.subscription;
    var t' := UpdateBySubscription(t, sub.id, sub.status, sub.currentPeriodEnd * 1000);
    assert Process(t, e, now, Database.Returned(Database.Stored)).table == t';
    UpdateKeepsUniqueUsers(t, sub.id, sub.status, sub.currentPeriodEnd * 1000);
    Entitlement.EntitledIffOwnRowIsCurrent(t', t[i].userId, at);
    assert forall j :: 0 <= j < |t'| && t'[j].userId == t[i].userId ==> j == i;
  }

  /**
   * A failed analysis always reaches the page with the model service's own message: that
   * message is never empty, so the page's generic fallback is never shown for it.
   */
  lemma AnalysisErrorReachesPage(s: HomePage.HomeState, content: Types.Content, user: Option<HomePage.User>,
                                 apiKey: Option<string>, model: Gemini.Model, subscribed: bool,
                                 history: History.Table, id: string, createdAt: int, ack: Database.Ack)
    requires Gemini.AnalyzeContract(apiKey, content, model).Failure?
    ensures var a := Gemini.AnalyzeContract(apiKey, content, model);
      var r := HomePage.HandleAnalyze(s, content, user, a, subscribed, history, id, createdAt, ack);
      r.state.status == Types.Errored && r.state.error == a.error
  {
  }
}

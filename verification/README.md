# Rental-contract analysis service: a Dafny model of its decision logic

The application lets a tenant paste or upload a rental contract, sends it to a generative
model for a risk report, and reveals that report only to a signed-in user with a paid
subscription. Payments are reconciled into a `subscriptions` table by a webhook, deployed
twice: as a serverless function and as an edge function.

This project models the parts of that system that make decisions, as immutable datatypes
and pure functions:

- **Subscription reconciliation** (`SubscriptionTable`, `Reconcile`, `ApiWebhook`,
  `EdgeWebhook`): a verified payment event becomes an upsert keyed on `user_id` or an
  update of every row carrying a subscription id. Each handler's gate (method, secret,
  signature header, signature check) and reply codes are modelled. Both handlers are
  proved to make the same table transition for every event they both accept.
- **Entitlement** (`Entitlement`): `checkSubscriptionStatus` over the table, a user id and
  `now` in milliseconds, with `.single()` semantics. It is proved antitone in time. It is
  also characterised exactly on tables with one row per user, which every webhook
  transition preserves.
- **Model call** (`Gemini`): API-key check, prompt parts, a bounded exponential-backoff
  retry over a sequence of call outcomes (delays are returned, not waited), the
  empty-answer check and the message finally thrown.
- **Contract input form** (`ContractForm`): text/attachment/file-name state with the
  mutual-exclusion invariant, the data-URL payload split, and the 50-character submit gate.
- **Copy-to-clipboard extraction** (`MessageExtract`): the case-insensitive lazy regular
  expression, the case-sensitive header removal, the "(Copy & Paste)" removal and `trim`.
- **History** (`History`): insert one analysis; list a user's analyses newest first.
- **Pages** (`HomePage`, `ResetPasswordPage`, `LoginPage`): the analysis status machine with
  subscription gating, the password-reset validation order, the sign-in/sign-up mode machine.
- **Cross-cutting properties** (`Lifecycle`): a stored checkout entitles its user up to the
  stored period end. A subscription moved out of {active, trialing} revokes entitlement.
  A model failure reaches the page with its own message.

JavaScript semantics the code depends on are written out in `Text`:
- `trim` uses ECMAScript's white-space and line-terminator set.
- `length` counts UTF-16 code units, so a code point outside the BMP counts twice.
- `includes`, `endsWith` and the first-occurrence `replace` are modelled as written.
- Case-insensitive matching folds ASCII letters.

`Date` values are integer milliseconds. `toISOString` throwing a RangeError outside
±8.64e15 ms is modelled, because it is one of the ways a handler reaches its 500 reply.

External services are oracles or values:
- The signature check is a function `(body, signature, secret) -> Verified(event) | Rejected(message)`.
- The generative model is a function `(prompt, call number) -> outcome`.
- Database reads and writes are passed-in answers (`Database.Read`, `Ack`, `Call`).
- Auth-service replies are passed-in values.
- The clock is a `now` parameter. Ids and `created_at` assigned by the database are parameters.

## Model

| member | source | states |
|---|---|---|
| SubscriptionTable.Upsert | api/webhook.js:61-67 | The upserted row is in the table. Every other user's rows survive, and no other row appears. The table grows exactly when the user had no row. One row per user is preserved. |
| SubscriptionTable.UpdateBySubscription | api/webhook.js:76-79 | Only rows whose subscription id equals the given id change, and only in status and period end. A row without a subscription id never matches. |
| Lifecycle.MissingExpiryEntitlesThirtyDays | api/webhook.js:60-67 | A checkout without an expiry (`expires_at` missing or 0) entitles its user at every time up to 30 days after `now`. |
| ApiWebhook.InvalidDateIs500 | api/webhook.js:66-89 | An event whose period end (`expires_at * 1000`, the 30-day fallback or `current_period_end * 1000`) lies outside ±8.64e15 ms makes `toISOString` throw. The reply is then 500 with the table unchanged, whatever the database would answer. |
| Reconcile.Process | api/webhook.js:52-89 | An exception is thrown exactly when the event writes and either its timestamp is not a valid `Date` or the database call throws. The message is "Invalid time value" in the first case and the database exception's message otherwise. A thrown exception leaves the table unchanged. Otherwise the table changes only when the event writes and the database stored the write. |
| Reconcile.CheckoutUpsertsActiveRow | api/webhook.js:54-67 | A completed checkout with a user id upserts that user's row: status 'active', the session's customer and subscription ids, the computed period end. Other users' rows are kept. |
| Reconcile.CheckoutWithoutUserIsIgnored | api/webhook.js:60 | A completed checkout whose `client_reference_id` is missing or empty changes nothing and throws nothing. |
| Reconcile.SubscriptionChangeTouchesOnlyItsRows | api/webhook.js:73-81 | Updated and deleted subscriptions change only matching rows, and only their status and period end (`current_period_end * 1000`). |
| Reconcile.OtherEventsChangeNothing | api/webhook.js:53-85 | Any other event type leaves the table unchanged and throws nothing. |
| Reconcile.DatabaseErrorIsSwallowed | api/webhook.js:68 | A database error returned by the write leaves the table unchanged and is not thrown. |
| Reconcile.ProcessKeepsUniqueUsers | api/webhook.js:61-79 | Every event transition keeps at most one row per user. |
| ApiWebhook.Handle | api/webhook.js:30-90 | The answer is 405 exactly for non-POST requests, always with `Allow: POST`. The table changes only on a 200 reply. |
| ApiWebhook.NonPostRejected | api/webhook.js:31-35 | A non-POST request gets 405 "Method Not Allowed" with `Allow: POST` and no table change. |
| ApiWebhook.BadSignatureRejected | api/webhook.js:43-50 | A missing secret or a rejected signature gets 400 and no table change. |
| ApiWebhook.VerifiedEventReply | api/webhook.js:85-89 | A verified event answers `{received:true}` with the processed table. Only a thrown exception gives 500, and then the table is unchanged. |
| EdgeWebhook.Handle | supabase/functions/stripe-webhook/index.ts:17-22 | The body is left unread exactly when the signature header or the secret is missing or empty, and the reply is then 400 "Missing signature or secret". The table changes only on a 200 reply. |
| EdgeWebhook.BadSignatureRejected | supabase/functions/stripe-webhook/index.ts:25-30 | A rejected signature gets 400 "Webhook Error: " followed by the message, and no table change. |
| EdgeWebhook.ProcessingFailureIs500 | supabase/functions/stripe-webhook/index.ts:67-69 | An exception while processing a verified event gives 500 and no table change. |
| EdgeWebhook.ThrownMessageIsReported | supabase/functions/stripe-webhook/index.ts:38-69 | An out-of-range timestamp or a throwing database call gives 500 "Error processing event: " followed by "Invalid time value" or the exception's message. The table is unchanged. |
| EdgeWebhook.AgreesWithApiHandler | supabase/functions/stripe-webhook/index.ts:38-66 | For a POST with a signature and a secret, both handlers reach the same table and status code. Their replies are identical except for the 500 body. |
| Entitlement.Candidates | services/subscriptionService.ts:6-10 | The selected rows are exactly the user's rows whose status is 'active' or 'trialing'. Each is selected as many times as it is stored, so `.single()` sees the true count. |
| Entitlement.CheckSubscriptionStatus | services/subscriptionService.ts:3-26 | True only when the read succeeded and exactly one row was selected. That row belongs to the user, has an admitted status, and has a period end that is absent or not before now. A single selected row without a period end gives true. |
| Entitlement.PeriodEndIsInclusive | services/subscriptionService.ts:19 | A period end equal to `now` still entitles. |
| Entitlement.EntitlementIsAntitone | services/subscriptionService.ts:16-19 | Once false at some time, the answer stays false at every later time. |
| Entitlement.CandidatesOfUniqueTable | services/subscriptionService.ts:6-11 | With one row per user, the query selects at most one row, and the user's admitted row when there is one. |
| Entitlement.EntitledIffOwnRowIsCurrent | services/subscriptionService.ts:6-21 | With one row per user, the user is entitled exactly when their row has an admitted status and a current period end. |
| Gemini.PromptDeterminesContent | services/geminiService.ts:58-71 | Distinct contents never give the same prompt: the prompt alone determines whether text or an attachment was sent, and which one. |
| Gemini.GenerateWithRetry | services/geminiService.ts:74-85 | The loop makes between 1 and retries+1 calls. The k-th wait is delay·2^k. Every call before the last failed transiently. The last call's answer or error is the result, and an error ends the loop only if it is not transient or the retries are used up. |
| Gemini.InitialRetrySchedule | services/geminiService.ts:74-81 | With the initial budget there are at most 4 calls, and the waits are a prefix of 1000, 2000, 4000 ms. |
| Gemini.LoopEndsAt | services/geminiService.ts:74-85 | If calls 0 to j-1 fail transiently and call j answers, fails permanently or is the last retry, the loop makes exactly j+1 calls and returns call j's answer or error. |
| Gemini.FirstAnswerWins | services/geminiService.ts:76 | If the first j calls fail transiently and call j answers, the loop stops after j+1 calls with that answer. |
| Gemini.Describe | services/geminiService.ts:96-99 | The rethrown message is never empty, and it is the original message whenever that is non-empty. |
| Gemini.AnalyzeContract | services/geminiService.ts:43-100 | A missing or empty key fails with the configuration message before any call. With a key, the result is a success exactly when the retry loop answered with a non-empty text, and then it is that text. An empty answer gives the empty-answer message. A loop failure is rethrown with its described, never-empty message. |
| Gemini.AnswerIsReturned | services/geminiService.ts:74-95 | When call j answers after j transient failures (j at most 3), its text is returned, or the empty-answer message when the text is empty. |
| Gemini.PermanentFailureIsRethrown | services/geminiService.ts:74-99 | A failure after j transient ones is rethrown with its own message when it is not transient or the retries are used up. |
| ContractForm.DataUrlPayload | components/ContractInput.tsx:41 | The payload is the comma-free segment between the first comma of the data URL and the next comma or the end. |
| ContractForm.Step | components/ContractInput.tsx:11-60 | After every transition, text and attachment are not both present, and an attachment always comes with its file name. |
| ContractForm.RunKeepsExclusive | components/ContractInput.tsx:14-58 | Any sequence of edits, file loads and clears from an exclusive form keeps text and attachment exclusive. |
| ContractForm.TextEditClearsAttachment | components/ContractInput.tsx:11-18 | A text edit sets the text and drops the attachment. It also drops the file name when there was an attachment, and keeps the file name otherwise. |
| ContractForm.FileLoadOutcome | components/ContractInput.tsx:26-49 | A text file (type 'text/plain', or a name ending in '.txt' or '.md') sets the text and file name and clears the attachment. Any other file sets the attachment {type, payload} and the file name, and clears the text. |
| ContractForm.ClearResetsForm | components/ContractInput.tsx:55-59 | Clearing the file resets the attachment, the file name and the text, whatever the form held. |
| ContractForm.RunIsDecidedByLastAction | components/ContractInput.tsx:11-59 | After a non-empty sequence of actions, the text and the attachment are those the last action leaves. Only a binary file load leaves an attachment. |
| Lifecycle.FormContentReachesModel | components/ContractInput.tsx:66-73 | After any non-empty sequence of form actions, a last binary file load sends the model its inlined payload and the fixed instruction. Otherwise the untrimmed text the last action left is sent as the only part, exactly when its trimmed length is at least 50. |
| ContractForm.BlankTextIsNotSubmitted | components/ContractInput.tsx:66-73 | Text made only of white space is never submitted without an attachment. |
| ContractForm.GateIgnoresSurroundingSpace | components/ContractInput.tsx:66-75 | Trimming the text first does not change whether it is submitted. |
| ContractForm.SubmitGateMatchesHandler | components/ContractInput.tsx:75 | The button is enabled exactly when not loading and the submit handler would send something. |
| MessageExtract.SectionEnd | components/AnalysisResult.tsx:34 | The lazy match ends at the first "##" at or after the start position, or at the end of the input. |
| MessageExtract.LazySectionIsUnique | components/AnalysisResult.tsx:34 | From a given start, only one section satisfies the lazy match: it ends at the first "##" after the header, or at the end of the report. |
| MessageExtract.MessageSection | components/AnalysisResult.tsx:34-35 | There is no match exactly when the header occurs nowhere, up to case. A match starts at the leftmost such occurrence. It ends at the first "##" that starts after the header, or at the end of the report. |
| MessageExtract.ExtractMessage | components/AnalysisResult.tsx:37-39 | The copied text has no leading or trailing white space. Without a header match it is the whole report minus the first "(Copy & Paste)", matched up to case. |
| MessageExtract.HeadingOccursOnlyAtStart | components/AnalysisResult.tsx:34-37 | A matched section contains the exact header nowhere except possibly at its start. |
| MessageExtract.HeaderRemovalIsCaseSensitive | components/AnalysisResult.tsx:37 | When the matched header differs in case, removing the header changes nothing, so it stays in the copied text. |
| MessageExtract.ExactHeaderIsRemoved | components/AnalysisResult.tsx:37 | When the header matches exactly, removal cuts precisely the header off the front of the section. |
| MessageExtract.ExactHeaderIsFound | components/AnalysisResult.tsx:34 | A report containing the header verbatim always has a matched section, starting no later than that occurrence. |
| MessageExtract.NoHeaderCopiesWholeReport | components/AnalysisResult.tsx:37-39 | With no header anywhere, the copied text is the trimmed report minus the first "(Copy & Paste)". |
| History.SaveAnalysis | services/historyService.ts:12-31 | On success, exactly one row is appended carrying the given user, title, content and report, and it is returned. On a database error, nothing changes and the error is returned. |
| History.SortNewestFirst | services/historyService.ts:38 | The result is ordered by non-increasing `created_at` and is a permutation of the input. |
| History.GetUserHistory | services/historyService.ts:33-41 | The reply holds only the user's rows, every one of them as often as stored, newest first. A failed read returns the error. |
| History.SaveKeepsExistingRows | services/historyService.ts:18-28 | Saving leaves every existing row in place and unchanged. |
| History.LatestSaveComesFirst | services/historyService.ts:18-38 | An analysis saved later than all of the user's earlier ones heads that user's history. |
| HomePage.HandleAnalyze | pages/Home.tsx:23-68 | SUCCESS requires a user, a positive subscription check and a successful analysis, and then shows that report. History changes only on SUCCESS with a stored save. A failed analysis ends in ERROR without navigating. |
| HomePage.ResetForgetsAnyOutcome | pages/Home.tsx:71-75 | Reset after any analysis outcome returns to IDLE with no report and no error. An analysis after a reset shows a report only on SUCCESS, and then it is the new one. |
| HomePage.UnsubscribedGoesToPricing | pages/Home.tsx:24-40 | An unsubscribed user goes to '/pricing'. The page stays ANALYZING with the error cleared and the previous report, and nothing is saved. |
| HomePage.GuestGoesToLogin | pages/Home.tsx:24-58 | After the analysis, a guest goes to '/login'. The page stays ANALYZING with the error cleared, and nothing is saved. |
| HomePage.SubscribedUserSucceeds | pages/Home.tsx:43-62 | A subscribed user reaches SUCCESS. The saved row has title "Contrato de Texto" and the text, or "Análise de Arquivo" and the placeholder. A failed save still ends in SUCCESS. |
| HomePage.FailureShowsMessage | pages/Home.tsx:64-66 | A failed analysis shows ERROR with its message, or "Ocorreu um erro desconhecido." when the message is empty. |
| ResetPasswordPage.Submit | pages/ResetPassword.tsx:24-52 | The update is requested exactly when the entries match and have length at least 6. A mismatch is reported first, with the message cleared and loading untouched. After a request, loading is off. The redirect to '/login' after 3000 ms is scheduled exactly on success. The page then shows the success message with the error cleared. |
| ResetPasswordPage.ShortPasswordRefused | pages/ResetPassword.tsx:33-35 | Matching entries shorter than 6 get the minimum-length error, and no update is requested. |
| ResetPasswordPage.FailedUpdateShowsError | pages/ResetPassword.tsx:46-48 | A failed update shows its message, or 'Falha ao redefinir a senha.' when the message is empty, with loading off. |
| ResetPasswordPage.NeverStuckLoading | pages/ResetPassword.tsx:37-51 | From a page that is not loading, no submission leaves it loading. |
| LoginPage.Submit | pages/Login.tsx:18-47 | Loading is off after every outcome. An error keeps the mode and shows the message, or the default for the mode at submit time. A successful sign-in goes to '/'. Any navigation is to '/'. The mode changes only when a sign-up succeeds, and then to sign-in. |
| LoginPage.ToggledModeChoosesFallback | pages/Login.tsx:43-53 | After a toggle, a failure without a message shows the fallback of the new mode, and the page stays in that mode. |
| LoginPage.SignUpAwaitingConfirmation | pages/Login.tsx:30-32 | A sign-up that returns a user without a session shows the confirmation message and switches to sign-in mode. |
| LoginPage.OtherSignUpNavigatesHome | pages/Login.tsx:33-35 | Any other error-free sign-up goes to '/'. |
| LoginPage.ToggleTwice | pages/Login.tsx:49-53 | Toggling twice restores the mode with both messages cleared. |
| Lifecycle.CheckoutGrantsEntitlement | api/webhook.js:60-67 | After a stored checkout for a user, on a table with one row per user, the entitlement check is true at every time up to the stored period end. |
| Lifecycle.LapsedSubscriptionRevokesEntitlement | api/webhook.js:73-81 | After a subscription moves to a status outside {active, trialing}, the user whose row carries it is entitled at no time. |
| Lifecycle.AnalysisErrorReachesPage | pages/Home.tsx:64-66 | A failed analysis reaches the page with the model service's own non-empty message, so the generic fallback never shows for it. |

## Left out

- Signature verification (`constructEvent`, `constructEventAsync`) is an oracle. Its cryptography is not modelled.
- SDK internals are not modelled: the generative model, the auth service and the query builders. They appear only as passed-in answers.
- `create-checkout` is not part of this model. Its session sets `client_reference_id` to the user's id, and that is the only link used.
- These parts are not part of this model: the pricing, forgot-password, profile and history pages, the header and footer, routing, build configuration, client construction and the auth context. They are UI plumbing around single SDK calls.
- Rendering, Markdown-to-HTML, clipboard writes, `FileReader` I/O, logging and `setTimeout` waits are left out. Delays are returned as numbers, and the reset page's redirect is a value.
- The system instruction text is a constant with no behaviour, so it is left out.
- `Date` parsing and formatting are left out. Timestamps are integer milliseconds, and only the validity range of `toISOString` is kept.
- Strings are sequences of Unicode code points, so a lone surrogate cannot be represented. UTF-16 length is computed explicitly where the code compares lengths.
- The raw body read and the `Content-Type` headers of the webhook replies are not modelled.
- Events are modelled by type with the fields each case reads. An event whose payload does not match its type is not modelled.
- `handleFileChange` with no file selected is a no-op and has no action in the form model.
- A binary file's reader result is assumed to be a data URL, which always contains a comma.
- SubscriptionTable.Upsert: the conflict key `user_id` is an assumption, since the table schema is not in the source. Columns other than the five written are not modelled.
- Reconcile.Process: a write whose call throws is modelled as not applied, although the database might have applied it before the exception.
- Text.IndexOfIgnoringCase: case folding covers ASCII letters only. This equals the regular expression's folding for the two ASCII and emoji patterns used, but not for arbitrary patterns.
- HomePage.HandleAnalyze: the model result and the subscription answer are passed in. `saveAnalysis` is taken never to throw, because it returns database errors as a value.
- ResetPasswordPage.Submit: the recovery-hash check on page load is left out, because it has no effect.

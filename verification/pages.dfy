/**
 * The analysis page: submit content, wait for the model, then reveal the report only to a
 * signed-in, subscribed user (saving it to the history first), or redirect.
 */
module HomePage {
  import opened Wrappers
  import opened Types
  import Database
  import History

  datatype HomeState = HomeState(status: AnalysisStatus, report: string, error: string)

  /** The signed-in user, if any. */
  datatype User = User(id: string)

  /** What the page ends with: its state, where it navigated, and the history table. */
  datatype Analyzed = Analyzed(state: HomeState, navigateTo: Option<string>, history: History.Table)

  const TextTitle: string := "Contrato de Texto"
  const FileTitle: string := "Análise de Arquivo"
  const FilePlaceholder: string := "Conteúdo de arquivo (não salvo em texto plano no momento)"
  const UnknownError: string := "Ocorreu um erro desconhecido."

  const Initial: HomeState := HomeState(Idle, "", "")

  /** The history title and stored content for a submission. */
  function SavedTitle(content: Content): string {
    if content.TextContent? then TextTitle else FileTitle
  }

  function SavedContent(content: Content): string {
    if content.TextContent? then content.text else FilePlaceholder
  }

  /** The state the page shows while the analysis runs. */
  function Started(s: HomeState): (r: HomeState)
    ensures r.status == Analyzing && r.error == "" && r.report == s.report
  {
    s.(status := Analyzing, error := "")
  }

  /**
   * `handleAnalyze(content)`. `analysis` is the settled result of the model call (the
   * report, or the thrown error's message), `subscribed` the answer of the subscription
   * check, and `id`, `createdAt`, `ack` the database's side of the history insert, whose
   * error is ignored. Redirects leave the page in its analysing state.
   */
  function HandleAnalyze(s: HomeState, content: Content, user: Option<User>, analysis: Result<string, string>,
                         subscribed: bool, history: History.Table, id: string, createdAt: int,
                         ack: Database.Ack): (r: Analyzed)
    ensures r.state.status == Succeeded ==> user.Some? && subscribed && analysis.Success?
    ensures r.state.status == Succeeded ==> r.state.report == analysis.value && r.state.error == ""
    ensures r.history != history ==> r.state.status == Succeeded && ack.Stored?
    ensures analysis.Failure? ==> r.state.status == Errored && r.navigateTo.None?
  {
    var running := Started(s);
    match analysis
    case Failure(msg) =>
      Analyzed(running.(status := Errored, error := if msg != "" then msg else UnknownError), None, history)
    case Success(report) =>
      if user.None? then Analyzed(running, Some("/login"), history)
      else if !subscribed then Analyzed(running, Some("/pricing"), history)
      else
        var saved := History.SaveAnalysis(history, user.value.id, SavedTitle(content), SavedContent(content),
                                          report, id, createdAt, ack);
        Analyzed(running.(status := Succeeded, report := report), None, saved.table)
  }

  /** `handleReset`: back to the idle page with no report and no error. */
  function HandleReset(s: HomeState): (r: HomeState)
    ensures r == Initial
  {
    HomeState(Idle, "", "")
  }

  /**
   * Reset forgets whatever an analysis ended in, and an analysis started after a reset
   * never shows a stale report: the page holds a report only on SUCCESS, and then it is
   * the new one.
   */
  lemma ResetForgetsAnyOutcome(s: HomeState, content: Content, user: Option<User>, analysis: Result<string, string>,
                               subscribed: bool, history: History.Table, id: string, createdAt: int, ack: Database.Ack)
    ensures HandleReset(HandleAnalyze(s, content, user, analysis, subscribed, history, id, createdAt, ack).state)
      == HomeState(Idle, "", "")
    ensures var r := HandleAnalyze(HandleReset(s), content, user, analysis, subscribed, history, id, createdAt, ack);
      && (r.state.status == Succeeded ==> r.state.report == analysis.value)
      && (r.state.status != Succeeded ==> r.state.report == "")
  {
  }

  /** An unsubscribed user is sent to the pricing page; nothing is saved and no report is shown. */
  lemma UnsubscribedGoesToPricing(s: HomeState, content: Content, u: User, report: string,
                                  history: History.Table, id: string, createdAt: int, ack: Database.Ack)
    ensures var r := HandleAnalyze(s, content, Some(u), Success(report), false, history, id, createdAt, ack);
      r == Analyzed(HomeState(Analyzing, s.report, ""), Some("/pricing"), history)
  {
  }

  /** A guest is sent to the login page once the analysis is done; nothing is saved. */
  lemma GuestGoesToLogin(s: HomeState, content: Content, report: string, subscribed: bool,
                         history: History.Table, id: string, createdAt: int, ack: Database.Ack)
    ensures var r := HandleAnalyze(s, content, None, Success(report), subscribed, history, id, createdAt, ack);
      r == Analyzed(HomeState(Analyzing, s.report, ""), Some("/login"), history)
  {
  }

  /**
   * A subscribed user sees the report, and the history gains one row with the fixed title
   * and the text (or the placeholder for a file); a failed save changes nothing else.
   */
  lemma SubscribedUserSucceeds(s: HomeState, content: Content, u: User, report: string,
                               history: History.Table, id: string, createdAt: int, ack: Database.Ack)
    ensures var r := HandleAnalyze(s, content, Some(u), Success(report), true, history, id, createdAt, ack);
      && r.state == HomeState(Succeeded, report, "")
      && r.navigateTo.None?
      && (ack.DbError? ==> r.history == history)
      && (ack.Stored? ==>
            && r.history[..|history|] == history && |r.history| == |history| + 1
            && r.history[|history|].userId == u.id
            && r.history[|history|].report == report
            && r.history[|history|].title == (if content.TextContent? then "Contrato de Texto" else "Análise de Arquivo")
            && r.history[|history|].content == (if content.TextContent? then content.text
                                                else "Conteúdo de arquivo (não salvo em texto plano no momento)"))
  {
  }

  /** A failed analysis shows its message, or the fixed fallback when the message is empty. */
  lemma FailureShowsMessage(s: HomeState, content: Content, user: Option<User>, msg: string, subscribed: bool,
                            history: History.Table, id: string, createdAt: int, ack: Database.Ack)
    ensures var r := HandleAnalyze(s, content, user, Failure(msg), subscribed, history, id, createdAt, ack);
      && r.state.status == Errored
      && r.state.error == (if msg == "" then "Ocorreu um erro desconhecido." else msg)
      && r.history == history
  {
  }
}

/** The password-reset page: validate the two entries, then ask the auth service to update. */
module ResetPasswordPage {
  import opened Wrappers
  import opened Text

  datatype ResetState = ResetState(error: string, message: string, isLoading: bool)

  /** The auth service's answer to `updatePassword`. */
  datatype UpdateResult = Updated | UpdateFailed(message: string)

  /** A navigation scheduled after a delay in ms. */
  datatype Redirect = Redirect(path: string, afterMs: nat)

  /** The page after a submission: state, whether the update was requested, and the redirect. */
  datatype Submitted = Submitted(state: ResetState, updateCalled: bool, redirect: Option<Redirect>)

  const Mismatch: string := "As senhas não coincidem"
  const TooShort: string := "A senha deve ter pelo menos 6 caracteres"
  const SuccessMessage: string := "Senha redefinida com sucesso! Redirecionando..."
  const Fallback: string := "Falha ao redefinir a senha."

  /** The minimum password length, in UTF-16 code units. */
  const MinPasswordLength: nat := 6

  /**
   * `handleSubmit` with the two entries and, when the update is requested, the service's
   * answer. Equality is checked before length; validation failures leave `isLoading` alone.
   */
  function Submit(s: ResetState, password: string, confirm: string, update: UpdateResult): (r: Submitted)
    ensures r.updateCalled <==> password == confirm && Utf16Length(password) >= 6
    ensures password != confirm ==> r.state == ResetState("As senhas não coincidem", "", s.isLoading)
    ensures r.updateCalled ==> !r.state.isLoading
    ensures r.redirect.Some? <==> r.updateCalled && update.Updated?
    ensures r.redirect.Some? ==> r.redirect.value == Redirect("/login", 3000)
    ensures r.redirect.Some? ==> r.state == ResetState("", "Senha redefinida com sucesso! Redirecionando...", false)
  {
    var cleared := s.(error := "", message := "");
    if password != confirm then Submitted(cleared.(error := Mismatch), false, None)
    else if Utf16Length(password) < MinPasswordLength then Submitted(cleared.(error := TooShort), false, None)
    else match update
      case Updated => Submitted(cleared.(message := SuccessMessage, isLoading := false), true, Some(Redirect("/login", 3000)))
      case UpdateFailed(msg) =>
        Submitted(cleared.(error := if msg != "" then msg else Fallback, isLoading := false), true, None)
  }

  /** A short but matching password is refused with the length message, without calling the service. */
  lemma ShortPasswordRefused(s: ResetState, password: string, update: UpdateResult)
    requires Utf16Length(password) < 6
    ensures Submit(s, password, password, update) == Submitted(ResetState("A senha deve ter pelo menos 6 caracteres", "", s.isLoading), false, None)
  {
  }

  /** A failed update shows its message or the fallback, and clears the success message. */
  lemma FailedUpdateShowsError(s: ResetState, password: string, msg: string)
    requires Utf16Length(password) >= 6
    ensures Submit(s, password, password, UpdateFailed(msg)).state
      == ResetState(if msg == "" then "Falha ao redefinir a senha." else msg, "", false)
  {
  }

  /** Starting from a page that is not loading, no submission leaves it loading. */
  lemma NeverStuckLoading(s: ResetState, password: string, confirm: string, update: UpdateResult)
    requires !s.isLoading
    ensures !Submit(s, password, confirm, update).state.isLoading
  {
  }
}

/** The sign-in / sign-up page. */
module LoginPage {
  import opened Wrappers

  datatype LoginState = LoginState(isSignUp: bool, error: string, successMessage: string, isLoading: bool)

  /**
   * The auth service's answer to the call the mode selects: an error, or success with
   * whether a user and a session came back (sign-in only looks at the error).
   */
  datatype AuthReply = AuthError(message: string) | AuthOk(hasUser: bool, hasSession: bool)

  /** The page after a submission, and where it navigated. */
  datatype Submitted = Submitted(state: LoginState, navigateTo: Option<string>)

  const Confirmation: string := "Conta criada com sucesso! Verifique seu email para confirmar o cadastro."

  /** The fallback error text, chosen by the mode at submission time. */
  function DefaultError(isSignUp: bool): string {
    if isSignUp then "Falha ao criar conta." else "Falha ao fazer login."
  }

  /** The page while the request is in flight: both messages cleared, loading. */
  function Pending(s: LoginState): (r: LoginState)
    ensures r.isLoading && r.error == "" && r.successMessage == "" && r.isSignUp == s.isSignUp
  {
    s.(error := "", successMessage := "", isLoading := true)
  }

  /** `handleSubmit`: the settled page, once the auth service has answered. */
  function Submit(s: LoginState, reply: AuthReply): (r: Submitted)
    ensures !r.state.isLoading
    ensures reply.AuthError? ==> r.navigateTo.None? && r.state.isSignUp == s.isSignUp && r.state.successMessage == ""
    ensures reply.AuthError? ==> r.state.error == if reply.message != "" then reply.message else DefaultError(s.isSignUp)
    ensures reply.AuthOk? ==> r.state.error == ""
    ensures r.navigateTo.Some? ==> r.navigateTo.value == "/" && reply.AuthOk? && r.state.successMessage == ""
    ensures reply.AuthOk? && !s.isSignUp ==> r.navigateTo == Some("/")
    ensures r.state.isSignUp == s.isSignUp || (reply.AuthOk? && s.isSignUp && !r.state.isSignUp)
  {
    var done := Pending(s).(isLoading := false);
    match reply
    case AuthError(msg) => Submitted(done.(error := if msg != "" then msg else DefaultError(s.isSignUp)), None)
    case AuthOk(hasUser, hasSession) =>
      if s.isSignUp && hasUser && !hasSession then
        Submitted(done.(successMessage := Confirmation, isSignUp := false), None)
      else Submitted(done, Some("/"))
  }

  /** `toggleMode`: flips the mode and clears both messages. */
  function ToggleMode(s: LoginState): (r: LoginState)
    ensures r.isSignUp != s.isSignUp && r.error == "" && r.successMessage == "" && r.isLoading == s.isLoading
  {
    s.(isSignUp := !s.isSignUp, error := "", successMessage := "")
  }

  /** A sign-up that yields a user but no session asks for e-mail confirmation and returns to sign-in mode. */
  lemma SignUpAwaitingConfirmation(s: LoginState)
    requires s.isSignUp
    ensures Submit(s, AuthOk(true, false)) == Submitted(LoginState(false, "", Confirmation, false), None)
  {
  }

  /** Any other successful sign-up goes to the home page. */
  lemma OtherSignUpNavigatesHome(s: LoginState, hasUser: bool, hasSession: bool)
    requires s.isSignUp && (!hasUser || hasSession)
    ensures Submit(s, AuthOk(hasUser, hasSession)).navigateTo == Some("/")
  {
  }

  /**
   * After a toggle, a failed request without a message shows the fallback of the new mode,
   * and the page stays in that mode.
   */
  lemma ToggledModeChoosesFallback(s: LoginState)
    ensures var r := Submit(ToggleMode(s), AuthError(""));
      && r.state.isSignUp == !s.isSignUp
      && r.state.error == (if s.isSignUp then "Falha ao fazer login." else "Falha ao criar conta.")
  {
  }

  /** Toggling twice restores the mode, with the messages cleared. */
  lemma ToggleTwice(s: LoginState)
    ensures ToggleMode(ToggleMode(s)) == s.(error := "", successMessage := "")
  {
  }
}

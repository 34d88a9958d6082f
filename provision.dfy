/** `serv00_login_and_create_email` (app.py:345-394): log in to the hosting panel with the
    shared account, open the mailbox form and create `prefix + domain`. At most four requests
    are sent; every exception, the two explicit ones included, ends the workflow with its text
    as the failure message. */
module Provision {

  import opened Wrappers
  import opened Text
  import opened Panel

  const MailAddPath := "/mail/add"

  /** The heading of the mailbox form, taken as proof of a logged-in session. */
  const AddMailboxMarker := "Dodaj nowy adres e-mail"

  const LoginFailedMessage := "登录失败"
  const CreationFailedMessage := "邮箱创建失败"

  datatype Outcome = Provisioned(email: string) | ProvisionFailed(message: string)

  /** The login check: the mailbox heading in the body, or the mailbox path in the final URL. */
  predicate LoggedIn(r: Response)
  {
    Contains(r.text, AddMailboxMarker) || Contains(r.url, MailAddPath)
  }

  /** The mailbox form, fields in the order the source builds them. */
  function CreationFields(token: string, email: string, password: string): seq<(string, string)>
  {
    [(CsrfField, token), ("email", email), ("password1", password), ("password2", password)]
  }

  /** A run of the workflow that sent `trace` and reported `outcome`: the requests, each one
      only after the previous answer allowed it, and why the run stopped where it did. */
  predicate ProvisionRun(account: Account, prefix: string, domain: string, password: string, panel: Server,
                         outcome: Outcome, trace: seq<Request>)
  {
    // The requests: the login page, the login form with that page's token, the mailbox form,
    // and the creation form with the mailbox form's token.
    && 1 <= |trace| <= 4 && trace[0] == Get(LoginUrl(account.host, MailAddPath))
    && (forall k :: 0 <= k < |trace| - 1 ==> Answer(panel, trace, k).Received?)
    && (|trace| >= 2 ==>
          CsrfToken(Page(panel, trace, 0).doc.inputs).Ok?
          && trace[1] == Post(LoginUrl(account.host, MailAddPath),
                              LoginFields(account, CsrfToken(Page(panel, trace, 0).doc.inputs).value, MailAddPath)))
    && (|trace| >= 3 ==>
          LoggedIn(Page(panel, trace, 1)) && trace[2] == Get(PanelUrl(account.host, MailAddPath)))
    && (|trace| == 4 ==>
          CsrfToken(Page(panel, trace, 2).doc.inputs).Ok?
          && trace[3] == Post(PanelUrl(account.host, MailAddPath),
                              CreationFields(CsrfToken(Page(panel, trace, 2).doc.inputs).value, prefix + domain, password)))
    // Success exactly when the creation form was posted and answered with status 200.
    && (outcome.Provisioned? <==>
          |trace| == 4 && Answer(panel, trace, 3).Received? && Page(panel, trace, 3).status == 200)
    && (outcome.Provisioned? ==> outcome.email == prefix + domain)
    // Why the workflow stopped, and what it reports.
    && (|trace| == 1 ==>
          if Answer(panel, trace, 0).Received?
          then CsrfToken(Page(panel, trace, 0).doc.inputs).Err?
               && outcome == ProvisionFailed(CsrfToken(Page(panel, trace, 0).doc.inputs).error)
          else outcome == ProvisionFailed(Answer(panel, trace, 0).message))
    && (|trace| == 2 ==>
          if Answer(panel, trace, 1).Received?
          then !LoggedIn(Page(panel, trace, 1)) && outcome == ProvisionFailed(LoginFailedMessage)
          else outcome == ProvisionFailed(Answer(panel, trace, 1).message))
    && (|trace| == 3 ==>
          if Answer(panel, trace, 2).Received?
          then CsrfToken(Page(panel, trace, 2).doc.inputs).Err?
               && outcome == ProvisionFailed(CsrfToken(Page(panel, trace, 2).doc.inputs).error)
          else outcome == ProvisionFailed(Answer(panel, trace, 2).message))
    && (|trace| == 4 && !outcome.Provisioned? ==>
          if Answer(panel, trace, 3).Received?
          then outcome == ProvisionFailed(CreationFailedMessage)
          else outcome == ProvisionFailed(Answer(panel, trace, 3).message))
  }

  method ProvisionMailbox(account: Account, prefix: string, domain: string, password: string, panel: Server)
    returns (outcome: Outcome, trace: seq<Request>)
    ensures ProvisionRun(account, prefix, domain, password, panel, outcome, trace)
  {
    var loginUrl := LoginUrl(account.host, MailAddPath);
    var addUrl := PanelUrl(account.host, MailAddPath);

    trace := [Get(loginUrl)];
    var loginPage := panel([], trace[0]);
    if loginPage.TransportError? {
      return ProvisionFailed(loginPage.message), trace;
    }
    var token := CsrfToken(loginPage.response.doc.inputs);
    if token.Err? {
      return ProvisionFailed(token.error), trace;
    }

    var login := Post(loginUrl, LoginFields(account, token.value, MailAddPath));
    var loginResponse := panel(trace, login);
    AnswersAfterSend(panel, trace, login);
    trace := trace + [login];
    if loginResponse.TransportError? {
      return ProvisionFailed(loginResponse.message), trace;
    }
    if !LoggedIn(loginResponse.response) {
      return ProvisionFailed(LoginFailedMessage), trace;
    }

    var open := Get(addUrl);
    var addPage := panel(trace, open);
    AnswersAfterSend(panel, trace, open);
    trace := trace + [open];
    if addPage.TransportError? {
      return ProvisionFailed(addPage.message), trace;
    }
    var newToken := CsrfToken(addPage.response.doc.inputs);
    if newToken.Err? {
      return ProvisionFailed(newToken.error), trace;
    }

    var create := Post(addUrl, CreationFields(newToken.value, prefix + domain, password));
    var created := panel(trace, create);
    AnswersAfterSend(panel, trace, create);
    trace := trace + [create];
    if created.TransportError? {
      return ProvisionFailed(created.message), trace;
    }
    if created.response.status == 200 {
      outcome := Provisioned(prefix + domain);
    } else {
      outcome := ProvisionFailed(CreationFailedMessage);
    }
  }

  /** The login check passes on any response whose final URL is the login page itself, since
      that URL carries the mailbox path in its `next` parameter: a rejected login that lands
      back on the login page is taken for a successful one. */
  lemma LoginPageLooksLoggedIn(host: string, r: Response)
    requires r.url == LoginUrl(host, MailAddPath)
    ensures LoggedIn(r)
  {
    assert r.url == "https://" + host + "/login/?next=" + MailAddPath;
    ContainsSuffix(r.url, MailAddPath);
  }

  /** The scenario panel's answer to its `step`-th request: the login page with token
      `abc123`, the mailbox page after the login, the mailbox form with token `def456`, and
      status 200 for the creation form. */
  function ScenarioFetch(step: nat, r: Request): Fetch
  {
    if step == 0 then
      Received(Response(200, r.url, "", Document([Input(CsrfField, Some("abc123"))], [], [])))
    else if step == 2 then
      Received(Response(200, r.url, "", Document([Input(CsrfField, Some("def456"))], [], [])))
    else
      Received(Response(200, PanelUrl("panel.example", MailAddPath), "", Document([], [], [])))
  }

  /** A panel that answers in sequence, whatever is asked. */
  const ScenarioPanel: Server := Sequential(ScenarioFetch)

  /** The scenario panel lets every step through: a trace stopped only where the workflow
      stops runs to the fourth request, which is answered with status 200. */
  lemma ScenarioRunsToEnd(trace: seq<Request>)
    requires 1 <= |trace| <= 4
    requires |trace| == 1 ==>
               Answer(ScenarioPanel, trace, 0).Received? ==> CsrfToken(Page(ScenarioPanel, trace, 0).doc.inputs).Err?
    requires |trace| == 2 ==>
               Answer(ScenarioPanel, trace, 1).Received? ==> !LoggedIn(Page(ScenarioPanel, trace, 1))
    requires |trace| == 3 ==>
               Answer(ScenarioPanel, trace, 2).Received? ==> CsrfToken(Page(ScenarioPanel, trace, 2).doc.inputs).Err?
    ensures |trace| == 4
    ensures Answer(ScenarioPanel, trace, 0).Received?
            && Page(ScenarioPanel, trace, 0).doc.inputs == [Input(CsrfField, Some("abc123"))]
    ensures Answer(ScenarioPanel, trace, 2).Received?
            && Page(ScenarioPanel, trace, 2).doc.inputs == [Input(CsrfField, Some("def456"))]
    ensures Answer(ScenarioPanel, trace, 3).Received? && Page(ScenarioPanel, trace, 3).status == 200
  {
    assert CsrfToken([Input(CsrfField, Some("abc123"))]) == Ok("abc123");
    assert CsrfToken([Input(CsrfField, Some("def456"))]) == Ok("def456");
    ContainsSuffix(PanelUrl("panel.example", MailAddPath), MailAddPath);
    SequentialAnswer(ScenarioFetch, trace, 0);
    assert |trace| >= 2;
    SequentialAnswer(ScenarioFetch, trace, 1);
    assert |trace| >= 3;
    SequentialAnswer(ScenarioFetch, trace, 2);
    assert |trace| == 4;
    SequentialAnswer(ScenarioFetch, trace, 3);
  }

  /** End to end: against that panel, `jdoe` on `@example.com` is provisioned in four
      requests, posting each page's own token. */
  method ProvisionScenario() returns (outcome: Outcome, trace: seq<Request>)
    ensures outcome == Provisioned("jdoe@example.com")
    ensures |trace| == 4
    ensures trace[1] == Post(LoginUrl("panel.example", MailAddPath),
                             LoginFields(Account("panel.example", "admin", "secret"), "abc123", MailAddPath))
    ensures trace[3] == Post(PanelUrl("panel.example", MailAddPath),
                             CreationFields("def456", "jdoe@example.com", "Passw0rd"))
  {
    outcome, trace := ProvisionMailbox(Account("panel.example", "admin", "secret"), "jdoe", "@example.com", "Passw0rd", ScenarioPanel);
    ScenarioRunsToEnd(trace);
    assert CsrfToken([Input(CsrfField, Some("abc123"))]) == Ok("abc123");
    assert CsrfToken([Input(CsrfField, Some("def456"))]) == Ok("def456");
  }

  /** A login page without a token: the lookup raises, so the workflow stops after its first
      request and reports the exception's text. */
  method MissingTokenScenario() returns (outcome: Outcome, trace: seq<Request>)
    ensures trace == [Get(LoginUrl("panel.example", MailAddPath))]
    ensures outcome == ProvisionFailed(NoneNotSubscriptable)
  {
    var panel: Server := (history: seq<Request>, r: Request) =>
      Received(Response(200, r.url, "", Document([Input("username", None)], [], [])));
    outcome, trace := ProvisionMailbox(Account("panel.example", "admin", "secret"), "jdoe", "@example.com", "Passw0rd", panel);
    assert CsrfToken([Input("username", None)]) == Err(NoneNotSubscriptable);
  }
}

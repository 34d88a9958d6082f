/** `serv00_reset_password` (app.py:397-513): log in to the hosting panel, find the domain on
    the mail list, open the domain's mailbox page, find the password form of the first modal and
    post the new password. Each missing element ends the workflow with its own message; every
    exception inside the workflow ends it with the generic failure. Splitting the address
    happens before any of this, and outside the exception handler. */
module Reset {

  import opened Wrappers
  import opened Text
  import opened Panel

  const MailListPath := "/mail"
  const PasswordModalId := "password_modal_1"
  const PassEmailField := "pass_email"

  const DomainNotFoundMessage := "未找到该域名"
  const DomainLinkNotFoundMessage := "未找到域名链接"
  const MailboxNotFoundMessage := "未找到该邮箱"
  const ModalNotFoundMessage := "未找到密码模态框"
  const FormNotFoundMessage := "未找到密码表单"
  const CsrfNotFoundMessage := "未找到 CSRF token"
  const EmailInputNotFoundMessage := "未找到邮箱输入框"
  const ResetFailedMessage := "密码重置失败"

  /** The two confirmations the panel shows after a password change. */
  const ChangedMarker := "Zmiana hasła zakończona sukcesem"
  const DoneMarker := "Operacja wykonana prawidłowo"

  /** The error texts looked for (case-insensitively) in an unconfirmed answer. */
  const ErrorMarkers: seq<string> := [
    "Hasło jest za krótkie",
    "Hasło musi zawierać co najmniej jedną cyfrę",
    "Hasło musi zawierać co najmniej jedną małą literę",
    "Hasło musi zawierać co najmniej jedną dużą literę",
    "Błąd",
    "error"
  ]

  /** `PasswordChanged` is `{"success": True}`; `MalformedAddress` is the `ValueError` that
      escapes when the address has no `@`. */
  datatype Outcome = PasswordChanged | ResetFailed(message: string) | MalformedAddress

  /** The part of the address before its first `@`, and the part after it. */
  function LocalPart(address: string): string
    requires '@' in address
  {
    SplitOnce(address, '@').value.0
  }

  function DomainPart(address: string): string
    requires '@' in address
  {
    SplitOnce(address, '@').value.1
  }

  /** On the mail list: the link of the first row naming the domain, or why there is none. */
  function DomainLink(rows: seq<Row>, domain: string): (r: Result<string, string>)
    ensures r == Err(DomainNotFoundMessage) <==> forall i :: 0 <= i < |rows| ==> !Contains(rows[i].markup, domain)
    ensures r == Err(DomainLinkNotFoundMessage) <==> exists i :: FirstMentioning(rows, [domain], i) && rows[i].link.None?
    ensures r.Ok? ==> exists i :: FirstMentioning(rows, [domain], i) && rows[i].link == Some(r.value)
    ensures r.Err? ==> r.error == DomainNotFoundMessage || r.error == DomainLinkNotFoundMessage
  {
    match FirstRowMentioning(rows, [domain])
    case None =>
      assert forall i :: 0 <= i < |rows| ==> !Contains(rows[i].markup, domain) by {
        forall i | 0 <= i < |rows| {
          MentionsOne(rows[i], domain);
        }
      }
      Err(DomainNotFoundMessage)
    case Some(i) =>
      MentionsOne(rows[i], domain);
      match rows[i].link
      case None => Err(DomainLinkNotFoundMessage)
      case Some(href) => Ok(href)
  }

  /** On the mailbox page: the form inside the first password modal, or why there is none. */
  function ModalForm(divs: seq<Div>): (r: Result<Form, string>)
    ensures r == Err(ModalNotFoundMessage) <==> forall k :: 0 <= k < |divs| ==> divs[k].id != Some(PasswordModalId)
    ensures r == Err(FormNotFoundMessage) <==> exists k :: FirstWithId(divs, PasswordModalId, k) && divs[k].form.None?
    ensures r.Ok? ==> exists k :: FirstWithId(divs, PasswordModalId, k) && divs[k].form == Some(r.value)
    ensures r.Err? ==> r.error == ModalNotFoundMessage || r.error == FormNotFoundMessage
  {
    match FindDiv(divs, PasswordModalId)
    case None => Err(ModalNotFoundMessage)
    case Some(k) =>
      match divs[k].form
      case None => Err(FormNotFoundMessage)
      case Some(form) => Ok(form)
  }

  /** In the password form: where to post (the action, empty when absent) and the CSRF token,
      or why the form cannot be submitted. A token input without a value raises, and the
      handler turns that into the generic failure. */
  function FormTarget(form: Form): (r: Result<(string, string), string>)
    ensures r == Err(CsrfNotFoundMessage) <==> forall i :: 0 <= i < |form.inputs| ==> form.inputs[i].name != CsrfField
    ensures r == Err(ResetFailedMessage) <==> CsrfToken(form.inputs) == Err(MissingValueKey)
    ensures r == Err(EmailInputNotFoundMessage) <==>
              CsrfToken(form.inputs).Ok? && forall i :: 0 <= i < |form.inputs| ==> form.inputs[i].name != PassEmailField
    ensures r.Ok? ==> CsrfToken(form.inputs).Ok? && r.value == (form.action.GetOr(""), CsrfToken(form.inputs).value)
                      && exists i :: 0 <= i < |form.inputs| && form.inputs[i].name == PassEmailField
    ensures r.Err? ==>
              r.error == CsrfNotFoundMessage || r.error == ResetFailedMessage || r.error == EmailInputNotFoundMessage
  {
    match CsrfToken(form.inputs)
    case Err(e) => if e == NoneNotSubscriptable then Err(CsrfNotFoundMessage) else Err(ResetFailedMessage)
    case Ok(token) =>
      if FindInput(form.inputs, PassEmailField).None? then Err(EmailInputNotFoundMessage)
      else Ok((form.action.GetOr(""), token))
  }

  /** Everything read from the mailbox page: a row naming the mailbox must exist (the row
      itself is not used), then the modal's form and its target. */
  function PasswordTarget(doc: Document, local: string, domain: string): (r: Result<(string, string), string>)
    ensures r == Err(MailboxNotFoundMessage) <==>
              forall i :: 0 <= i < |doc.rows| ==> !RowMentions(doc.rows[i], [local, local + "@" + domain])
    ensures r != Err(MailboxNotFoundMessage) ==>
              if ModalForm(doc.divs).Err? then r == Err(ModalForm(doc.divs).error)
              else r == FormTarget(ModalForm(doc.divs).value)
  {
    if FirstRowMentioning(doc.rows, [local, local + "@" + domain]).None? then Err(MailboxNotFoundMessage)
    else match ModalForm(doc.divs)
      case Err(e) => Err(e)
      case Ok(form) => FormTarget(form)
  }

  /** The password form, fields in the order the source builds them. */
  function PasswordFields(token: string, address: string, password: string): seq<(string, string)>
  {
    [(CsrfField, token), ("pass_email", address), ("password1", password), ("password2", password)]
  }

  /** The answer confirms the change. */
  predicate Confirmed(text: string)
  {
    Contains(text, ChangedMarker) || Contains(text, DoneMarker)
  }

  /** The markers whose lower-cased form occurs in `lowered`, in list order. */
  function MarkersIn(markers: seq<string>, lowered: string): (r: seq<string>)
    ensures |r| <= |markers|
  {
    if markers == [] then []
    else (if Contains(lowered, Lower(markers[0])) then [markers[0]] else []) + MarkersIn(markers[1..], lowered)
  }

  lemma {:induction false} MarkersInAppend(markers: seq<string>, m: string, lowered: string)
    ensures MarkersIn(markers + [m], lowered)
         == MarkersIn(markers, lowered) + (if Contains(lowered, Lower(m)) then [m] else [])
  {
    if markers != [] {
      assert (markers + [m])[1..] == markers[1..] + [m];
      MarkersInAppend(markers[1..], m, lowered);
    }
  }

  /** A marker is reported exactly when it is listed and occurs, ignoring case. */
  lemma {:induction false} MarkersInExactly(markers: seq<string>, lowered: string, m: string)
    ensures m in MarkersIn(markers, lowered) <==> m in markers && Contains(lowered, Lower(m))
  {
    if markers != [] {
      MarkersInExactly(markers[1..], lowered, m);
      assert markers == [markers[0]] + markers[1..];
    }
  }

  /** The `found_errors` loop: the error markers occurring in the text, ignoring case. */
  method CollectErrorMarkers(text: string) returns (found: seq<string>)
    ensures found == MarkersIn(ErrorMarkers, Lower(text))
  {
    var lowered := Lower(text);
    found := [];
    var i := 0;
    while i < |ErrorMarkers|
      invariant 0 <= i <= |ErrorMarkers|
      invariant found == MarkersIn(ErrorMarkers[..i], lowered)
    {
      var marker := ErrorMarkers[i];
      if Contains(lowered, Lower(marker)) {
        found := found + [marker];
      }
      assert ErrorMarkers[..i + 1] == ErrorMarkers[..i] + [marker];
      MarkersInAppend(ErrorMarkers[..i], marker, lowered);
      i := i + 1;
    }
    assert ErrorMarkers[..i] == ErrorMarkers;
  }

  /** The mail-list steps: scan for the domain's row, then take its link. */
  method FindDomainLink(rows: seq<Row>, domain: string) returns (link: Result<string, string>)
    ensures link == DomainLink(rows, domain)
  {
    var domainRow := ScanRows(rows, [domain]);
    if domainRow.None? {
      return Err(DomainNotFoundMessage);
    }
    match rows[domainRow.value].link
    case None => link := Err(DomainLinkNotFoundMessage);
    case Some(href) => link := Ok(href);
  }

  /** The mailbox-page steps: scan for the mailbox's row, then the modal, its form, the CSRF
      input and the address input, each missing one with its own message. */
  method FindPasswordForm(doc: Document, local: string, domain: string) returns (target: Result<(string, string), string>)
    ensures target == PasswordTarget(doc, local, domain)
  {
    var mailboxRow := ScanRows(doc.rows, [local, local + "@" + domain]);
    if mailboxRow.None? {
      return Err(MailboxNotFoundMessage);
    }
    var modal := FindDiv(doc.divs, PasswordModalId);
    if modal.None? {
      return Err(ModalNotFoundMessage);
    }
    var form := doc.divs[modal.value].form;
    if form.None? {
      return Err(FormNotFoundMessage);
    }
    var action := form.value.action.GetOr("");
    var csrfInput := FindInput(form.value.inputs, CsrfField);
    if csrfInput.None? {
      return Err(CsrfNotFoundMessage);
    }
    var csrfValue := form.value.inputs[csrfInput.value].value;
    if csrfValue.None? {
      return Err(ResetFailedMessage);
    }
    var emailInput := FindInput(form.value.inputs, PassEmailField);
    if emailInput.None? {
      return Err(EmailInputNotFoundMessage);
    }
    target := Ok((action, csrfValue.value));
  }

  /** The requests up to the mail list, as the workflow sends them: the login page; the login
      form, with the token of that page; the mail list. Every request but the last was
      answered. */
  predicate ListRequests(account: Account, panel: Server, trace: seq<Request>)
  {
    1 <= |trace| && trace[0] == Get(LoginUrl(account.host, MailListPath))
    && (forall k :: 0 <= k < |trace| - 1 ==> Answer(panel, trace, k).Received?)
    && (|trace| >= 2 ==>
          CsrfToken(Page(panel, trace, 0).doc.inputs).Ok?
          && trace[1] == Post(LoginUrl(account.host, MailListPath),
                              LoginFields(account, CsrfToken(Page(panel, trace, 0).doc.inputs).value, MailListPath)))
    && (|trace| >= 3 ==> trace[2] == Get(PanelUrl(account.host, MailListPath)))
  }

  /** The requests up to the domain's mailbox page: those of `ListRequests`, then the link the
      mail list gives for the domain. */
  predicate MailboxRequests(account: Account, domain: string, panel: Server, trace: seq<Request>)
  {
    ListRequests(account, panel, trace)
    && (|trace| >= 4 ==>
          DomainLink(Page(panel, trace, 2).doc.rows, domain).Ok?
          && trace[3] == Get(PanelUrl(account.host, DomainLink(Page(panel, trace, 2).doc.rows, domain).value)))
  }

  /** Once the mail list was requested and answered, sending another request keeps the
      requests before it as they were. */
  lemma ListRequestsExtend(account: Account, panel: Server, trace: seq<Request>, request: Request)
    requires ListRequests(account, panel, trace) && |trace| >= 3
    requires Answer(panel, trace, |trace| - 1).Received?
    ensures ListRequests(account, panel, trace + [request])
  {
    AnswersAfterSend(panel, trace, request);
    var next := trace + [request];
    assert Page(panel, next, 0) == Page(panel, trace, 0);
    assert next[..3] == trace[..3];
  }

  /** The same once the mailbox page was requested and answered. */
  lemma MailboxRequestsExtend(account: Account, domain: string, panel: Server, trace: seq<Request>, request: Request)
    requires MailboxRequests(account, domain, panel, trace) && |trace| >= 4
    requires Answer(panel, trace, |trace| - 1).Received?
    ensures MailboxRequests(account, domain, panel, trace + [request])
  {
    ListRequestsExtend(account, panel, trace, request);
    AnswersAfterSend(panel, trace, request);
    var next := trace + [request];
    assert Page(panel, next, 2) == Page(panel, trace, 2);
    assert next[3] == trace[3];
  }

  /** The first three requests: the login page, the login form, and the mail list. Only a
      transport error or a login page without a token stops this early; the answer to the
      login form is never inspected. */
  method OpenMailList(account: Account, panel: Server) returns (listPage: Option<Response>, trace: seq<Request>)
    ensures ListRequests(account, panel, trace) && |trace| <= 3
    ensures |trace| == 1 ==>
              Answer(panel, trace, 0).Received? ==> CsrfToken(Page(panel, trace, 0).doc.inputs).Err?
    ensures |trace| == 2 ==> Answer(panel, trace, 1).TransportError?
    ensures listPage.Some? <==> |trace| == 3 && Answer(panel, trace, 2).Received?
    ensures listPage.Some? ==> listPage.value == Page(panel, trace, 2)
  {
    var loginUrl := LoginUrl(account.host, MailListPath);
    trace := [Get(loginUrl)];
    var loginPage := panel([], trace[0]);
    if loginPage.TransportError? {
      return None, trace;
    }
    var token := CsrfToken(loginPage.response.doc.inputs);
    if token.Err? {
      return None, trace;
    }

    var login := Post(loginUrl, LoginFields(account, token.value, MailListPath));
    var loginResponse := panel(trace, login);
    AnswersAfterSend(panel, trace, login);
    trace := trace + [login];
    if loginResponse.TransportError? {
      return None, trace;
    }

    var openList := Get(PanelUrl(account.host, MailListPath));
    var answer := panel(trace, openList);
    AnswersAfterSend(panel, trace, openList);
    trace := trace + [openList];
    if answer.TransportError? {
      return None, trace;
    }
    listPage := Some(answer.response);
  }

  /** The first four requests: up to the mail list, then the page the domain's link leads to.
      When the workflow stops before that page is received, `failure` is its message. */
  method OpenMailboxPage(account: Account, domain: string, panel: Server)
    returns (mailPage: Option<Response>, failure: string, trace: seq<Request>)
    ensures MailboxRequests(account, domain, panel, trace) && |trace| <= 4
    ensures mailPage.Some? <==> |trace| == 4 && Answer(panel, trace, 3).Received?
    ensures mailPage.Some? ==> mailPage.value == Page(panel, trace, 3)
    ensures 1 <= |trace| <= 2 ==> failure == ResetFailedMessage
    ensures |trace| == 1 ==>
              Answer(panel, trace, 0).Received? ==> CsrfToken(Page(panel, trace, 0).doc.inputs).Err?
    ensures |trace| == 2 ==> Answer(panel, trace, 1).TransportError?
    ensures |trace| == 3 ==>
              if Answer(panel, trace, 2).Received?
              then DomainLink(Page(panel, trace, 2).doc.rows, domain).Err?
                   && failure == DomainLink(Page(panel, trace, 2).doc.rows, domain).error
              else failure == ResetFailedMessage
    ensures |trace| == 4 && mailPage.None? ==> failure == ResetFailedMessage
  {
    var listPage;
    listPage, trace := OpenMailList(account, panel);
    if listPage.None? {
      return None, ResetFailedMessage, trace;
    }
    var link := FindDomainLink(listPage.value.doc.rows, domain);
    if link.Err? {
      return None, link.error, trace;
    }

    var openDomain := Get(PanelUrl(account.host, link.value));
    var answer := panel(trace, openDomain);
    AnswersAfterSend(panel, trace, openDomain);
    ListRequestsExtend(account, panel, trace, openDomain);
    assert Page(panel, trace + [openDomain], 2) == listPage.value;
    trace := trace + [openDomain];
    if answer.TransportError? {
      return None, ResetFailedMessage, trace;
    }
    mailPage, failure := Some(answer.response), "";
  }

  /** How the answer to the password form is classified. Only the two confirmations count as
      success; whatever error markers the answer holds, any other answer is the generic
      failure. */
  method ClassifyAnswer(answer: Fetch) returns (outcome: Outcome)
    ensures outcome == PasswordChanged <==> answer.Received? && Confirmed(answer.response.text)
    ensures outcome != PasswordChanged ==> outcome == ResetFailed(ResetFailedMessage)
  {
    if answer.TransportError? {
      return ResetFailed(ResetFailedMessage);
    }
    if Confirmed(answer.response.text) {
      outcome := PasswordChanged;
    } else {
      var found := CollectErrorMarkers(answer.response.text);
      if found != [] {
        outcome := ResetFailed(ResetFailedMessage);
      } else {
        outcome := ResetFailed(ResetFailedMessage);
      }
    }
  }

  method ResetMailboxPassword(account: Account, address: string, newPassword: string, panel: Server)
    returns (outcome: Outcome, trace: seq<Request>)
    // An address without `@` fails before any request.
    ensures outcome == MalformedAddress <==> '@' !in address
    ensures outcome == MalformedAddress ==> trace == []
    // The requests, each one only after the previous answer allowed it.
    ensures '@' in address ==> MailboxRequests(account, DomainPart(address), panel, trace) && |trace| <= 5
    ensures |trace| == 5 ==>
              var target := PasswordTarget(Page(panel, trace, 3).doc, LocalPart(address), DomainPart(address));
              target.Ok?
              && trace[4] == Post(PanelUrl(account.host, target.value.0), PasswordFields(target.value.1, address, newPassword))
    // Success exactly when the password form was posted and the answer confirms it.
    ensures outcome == PasswordChanged <==>
              |trace| == 5 && Answer(panel, trace, 4).Received? && Confirmed(Page(panel, trace, 4).text)
    // Why the workflow stopped, and what it reports.
    ensures 1 <= |trace| <= 2 ==> outcome == ResetFailed(ResetFailedMessage)
    ensures |trace| == 1 ==>
              Answer(panel, trace, 0).Received? ==> CsrfToken(Page(panel, trace, 0).doc.inputs).Err?
    ensures |trace| == 2 ==> Answer(panel, trace, 1).TransportError?
    ensures |trace| == 3 ==>
              if Answer(panel, trace, 2).Received?
              then var link := DomainLink(Page(panel, trace, 2).doc.rows, DomainPart(address));
                   link.Err? && outcome == ResetFailed(link.error)
              else outcome == ResetFailed(ResetFailedMessage)
    ensures |trace| == 4 ==>
              if Answer(panel, trace, 3).Received?
              then var target := PasswordTarget(Page(panel, trace, 3).doc, LocalPart(address), DomainPart(address));
                   target.Err? && outcome == ResetFailed(target.error)
              else outcome == ResetFailed(ResetFailedMessage)
    ensures |trace| == 5 && outcome != PasswordChanged ==> outcome == ResetFailed(ResetFailedMessage)
  {
    var parts := SplitOnce(address, '@');
    if parts.None? {
      return MalformedAddress, [];
    }
    var local, domain := parts.value.0, parts.value.1;
    assert LocalPart(address) == local && DomainPart(address) == domain;
    var mailPage, failure;
    mailPage, failure, trace := OpenMailboxPage(account, domain, panel);
    if mailPage.None? {
      return ResetFailed(failure), trace;
    }
    var target := FindPasswordForm(mailPage.value.doc, local, domain);
    if target.Err? {
      return ResetFailed(target.error), trace;
    }

    var submit := Post(PanelUrl(account.host, target.value.0), PasswordFields(target.value.1, address, newPassword));
    var answer := panel(trace, submit);
    AnswersAfterSend(panel, trace, submit);
    MailboxRequestsExtend(account, domain, panel, trace, submit);
    assert Page(panel, trace + [submit], 3) == mailPage.value;
    trace := trace + [submit];
    outcome := ClassifyAnswer(answer);
  }

  /** The mailbox row test asks for the local part or the whole address; since the address
      starts with its local part, a row naming the address names the local part, and the test
      comes down to the local part alone. */
  lemma MailboxRowTest(row: Row, local: string, domain: string)
    ensures RowMentions(row, [local, local + "@" + domain]) <==> Contains(row.markup, local)
  {
    var address := local + "@" + domain;
    if Contains(row.markup, address) {
      assert StartsWith(address, local);
      ContainsPrefix(address, local);
      ContainsTransitive(row.markup, address, local);
    }
    if Contains(row.markup, local) {
      assert [local, address][0] == local;
    }
  }

  /** `未找到该邮箱` is reported exactly when no row of the mailbox page names the local part. */
  lemma MailboxNotFoundIffLocalPartAbsent(doc: Document, local: string, domain: string)
    ensures PasswordTarget(doc, local, domain) == Err(MailboxNotFoundMessage) <==>
              forall i :: 0 <= i < |doc.rows| ==> !Contains(doc.rows[i].markup, local)
  {
    forall i | 0 <= i < |doc.rows| {
      MailboxRowTest(doc.rows[i], local, domain);
    }
  }

  /** The scenario's mail list: one row, for `example.com`. */
  const ScenarioRows := [Row("example.com", Some("/mail/example.com"))]

  /** The scenario's mailbox page: a row for `jdoe` and the password modal. */
  const ScenarioForm := Form(Some("/mail/password"), [Input(CsrfField, Some("tok")), Input(PassEmailField, None)])
  const ScenarioMailPage := Document([], [Row("jdoe", None)], [Div(Some(PasswordModalId), Some(ScenarioForm))])

  /** The scenario panel's answer to its `step`-th request: the login page with a token, a
      refusal of the login (status 403, back on the login page), the mail list, the
      `example.com` mailbox page with its password modal, and a confirmation. */
  function ScenarioFetch(step: nat, r: Request): Fetch
  {
    if step == 0 then
      Received(Response(200, r.url, "", Document([Input(CsrfField, Some("abc123"))], [], [])))
    else if step == 1 then
      Received(Response(403, LoginUrl("panel.example", MailListPath), "", Document([], [], [])))
    else if step == 2 then
      Received(Response(200, r.url, "", Document([], ScenarioRows, [])))
    else if step == 3 then
      Received(Response(200, r.url, "", ScenarioMailPage))
    else
      Received(Response(200, r.url, DoneMarker, Document([], [], [])))
  }

  /** A panel that answers in sequence, whatever is asked. */
  const ScenarioPanel: Server := Sequential(ScenarioFetch)

  /** The scenario's address splits into `jdoe` and `example.com`. */
  lemma ScenarioAddress()
    ensures '@' in "jdoe@example.com"
    ensures LocalPart("jdoe@example.com") == "jdoe" && DomainPart("jdoe@example.com") == "example.com"
  {
    assert "jdoe@example.com" == "jdoe" + ['@'] + "example.com";
    SplitOnceJoined("jdoe", '@', "example.com");
  }

  /** What the scenario's pages yield at each step. */
  lemma ScenarioPages()
    ensures CsrfToken([Input(CsrfField, Some("abc123"))]) == Ok("abc123")
    ensures DomainLink(ScenarioRows, "example.com") == Ok("/mail/example.com")
    ensures PasswordTarget(ScenarioMailPage, "jdoe", "example.com") == Ok(("/mail/password", "tok"))
    ensures Confirmed(DoneMarker)
  {
    ContainsPrefix("example.com", "example.com");
    ContainsPrefix("jdoe", "jdoe");
    MailboxRowTest(ScenarioMailPage.rows[0], "jdoe", "example.com");
    assert CsrfToken(ScenarioForm.inputs) == Ok("tok");
    assert ScenarioForm.inputs[1].name == PassEmailField;
    assert FormTarget(ScenarioForm) == Ok(("/mail/password", "tok"));
    assert FindDiv(ScenarioMailPage.divs, PasswordModalId) == Some(0);
    assert ModalForm(ScenarioMailPage.divs) == Ok(ScenarioForm);
    ContainsPrefix(DoneMarker, DoneMarker);
  }

  /** The scenario panel lets every step through: a trace sent as the workflow sends its
      requests, and stopped only where the workflow stops, runs to the fifth request. */
  lemma ScenarioRunsToEnd(trace: seq<Request>)
    requires MailboxRequests(Account("panel.example", "admin", "secret"), "example.com", ScenarioPanel, trace)
    requires |trace| <= 5
    requires |trace| == 1 ==>
               Answer(ScenarioPanel, trace, 0).Received? ==> CsrfToken(Page(ScenarioPanel, trace, 0).doc.inputs).Err?
    requires |trace| == 2 ==> Answer(ScenarioPanel, trace, 1).TransportError?
    requires |trace| == 3 ==>
               Answer(ScenarioPanel, trace, 2).Received? ==> DomainLink(Page(ScenarioPanel, trace, 2).doc.rows, "example.com").Err?
    requires |trace| == 4 ==>
               Answer(ScenarioPanel, trace, 3).Received? ==> PasswordTarget(Page(ScenarioPanel, trace, 3).doc, "jdoe", "example.com").Err?
    ensures |trace| == 5
    ensures Page(ScenarioPanel, trace, 3).doc == ScenarioMailPage
    ensures Answer(ScenarioPanel, trace, 4).Received?
    ensures Page(ScenarioPanel, trace, 4).text == DoneMarker
  {
    ScenarioPages();
    SequentialAnswer(ScenarioFetch, trace, 0);
    assert |trace| >= 2;
    SequentialAnswer(ScenarioFetch, trace, 1);
    assert |trace| >= 3;
    SequentialAnswer(ScenarioFetch, trace, 2);
    assert |trace| >= 4;
    SequentialAnswer(ScenarioFetch, trace, 3);
    assert |trace| == 5;
    SequentialAnswer(ScenarioFetch, trace, 4);
  }

  /** End to end: the rejected login goes unnoticed, and the password of `jdoe@example.com` is
      changed with the fifth request. */
  method ResetScenario() returns (outcome: Outcome, trace: seq<Request>)
    ensures outcome == PasswordChanged
    ensures |trace| == 5
    ensures trace[4] == Post(PanelUrl("panel.example", "/mail/password"),
                             PasswordFields("tok", "jdoe@example.com", "Passw0rd"))
  {
    var panel := ScenarioPanel;
    ScenarioAddress();
    ScenarioPages();
    outcome, trace := ResetMailboxPassword(Account("panel.example", "admin", "secret"), "jdoe@example.com", "Passw0rd", panel);
    ScenarioRunsToEnd(trace);
  }
}

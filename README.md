# Serv00 mailbox registration: a verified model of its decision logic

The application lets registered users create mailboxes on a shared Serv00 hosting account
and reset their passwords. Behind its Flask routes sits a small amount of real logic, all
in `app.py`. This project models that logic in Dafny and proves what the code promises.

- **Entitlements.**
  - The password rules.
  - A user's mailbox quota: a sentinel for the owner; otherwise base plus permanent extra,
    plus a temporary bonus while it lasts.
  - Redemption codes: expiry, use caps, and the in-place update of the user and the code
    when one is redeemed.
- **Request policy.**
  - The minimum prefix length by role.
  - The prefix blacklist.
  - The allowed e-mail suffixes at registration, and their normalisation when an admin
    adds one.
  - The retention rules of the two cleanup jobs.
  - The order of the checks in `create_email`. A row is added to the mailbox table exactly
    when provisioning reports success, that is, when the creation form was answered with
    status 200 (app.py:387-388, 951).
- **The two panel workflows.**
  - `serv00_login_and_create_email` logs in, opens the mailbox form and creates
    `prefix + domain`.
  - `serv00_reset_password` logs in, finds the domain on the mail list, opens its mailbox
    page, finds the password modal's form and posts the new password.

HTTP and HTML are abstracted. A page is the list of its `<input>`s, its table rows and its
`<div>`s with their first form. A response is a status, a final URL, a body text and that
parsed page. The panel is an arbitrary function from the requests sent so far and the next
request to a response or a transport error. Each workflow returns its result together with
the trace of requests it sent. Its contract states, step by step:

- which request was sent, with the token read from which earlier page;
- that each request was sent only after the previous answer allowed it;
- why the workflow stopped where it did, and what it reported.

Times are integer seconds and `timedelta(days=d)` is `d * 86400`. Database tables are
sequences; the redeeming user and the codes are objects updated in place.

Modules:

- `Wrappers`: `Option` and `Result`.
- `Text`: Python's `strip`, `lower`, `upper`, `in`, `startswith`, `endswith` and
  `split('@', 1)`.
- `Password`: `validate_password`.
- `Quota`: users, redemption codes and `redeem_code`.
- `Policy`: the prefix, blacklist and suffix rules, and the cleanup filters.
- `Panel`: pages, requests, CSRF lookup and the first-match scans.
- `Provision`: the mailbox creation workflow.
- `Reset`: the password reset workflow.
- `Registry`: `create_email`.

### Behaviour of the code worth knowing

- **Provisioning checks for no success marker.** After the creation post, status 200 is
  success and any other status raises `邮箱创建失败` (app.py:387-394).
- **A missing token in provisioning is an exception.** A page without a CSRF input makes
  the lookup raise, and the handler reports the exception's text (app.py:354, 393-394):
  `'NoneType' object is not subscriptable`, or `'value'` when the input has no value. This
  holds for provisioning only.
- **Reset has its own messages only for the elements it checks.** A password form without a
  CSRF input gives `未找到 CSRF token` (app.py:467-469). A login page without a token, a
  token input without a value, a transport error and an unconfirmed answer all give
  `密码重置失败` (app.py:491-513). This holds whether or not an error marker occurs in the
  answer (app.py:508-511).
- **An address without `@` raises out of reset.** The address is split before the `try`
  (app.py:398), so the `ValueError` is not reported as a failure. The model gives it its own
  outcome, `MalformedAddress`.
- **The reset post carries no old password.** Its fields are the token, `pass_email`,
  `password1` and `password2` (app.py:478-483).
- **Reset never looks at the login answer.** The mail list is requested whatever the login
  post returned (app.py:416-422). `Reset.ResetScenario` shows this with a login rejected
  with status 403.
- **The provisioning login check is weaker than it looks.** It accepts any response whose
  final URL contains `/mail/add` (app.py:368). The login URL itself carries
  `?next=/mail/add` (app.py:348), so a rejected login that lands back on the login page
  passes the check. This is `Provision.LoginPageLooksLoggedIn`.

## Model

| member | source | states |
|---|---|---|
| `Text.Strip` | app.py:1791 | the result is a slice of the input with only whitespace cut from before and after it, and has no whitespace at either end |
| `Text.StripIdempotent` | app.py:1791 | stripping twice is stripping once |
| `Text.StripUnique` | app.py:1791 | any trimmed slice of the input with only whitespace around it is the stripped string, so the contract of `Text.Strip` fixes its result |
| `Text.StripSurrounded` | app.py:1831 | stripping whitespace placed around a trimmed string gives that string back |
| `Text.UpperOfCaseVariant` | app.py:1831 | a character equal, ignoring case, to an ASCII capital or a digit is no whitespace and upper-cases to that capital or digit |
| `Text.Lower` | app.py:1791 | lower-casing maps each character on its own and keeps the length |
| `Text.LowerIdempotent` | app.py:1791 | lower-casing twice is lower-casing once |
| `Text.SplitOnce` | app.py:398 | `split('@', 1)` fails exactly when there is no `@`; otherwise the parts rejoin around the separator to the input, and the first part holds no `@` |
| `Text.SplitOnceJoined` | app.py:398 | splitting `a + "@" + b` where `a` holds no `@` gives back exactly `a` and `b` |
| `Password.ValidatePassword` | app.py:83-98 | the four checks, one after another, return exactly the complaints of the four rules, in rule order |
| `Password.AcceptsExactlyStrong` | app.py:83-98 | no complaint if and only if the password has 6 or more characters, a digit, a lower-case and an upper-case letter |
| `Password.ComplaintsComplete` | app.py:83-98 | a rule's message is reported if and only if the password violates that rule |
| `Password.ComplaintsInOrder` | app.py:83-98 | complaints come out in the order the rules are checked |
| `Password.ValidationReport` | app.py:83-98 | at most four messages, in the order length, digit, lower, upper, each present exactly when its rule fails |
| `Quota.EmailCount` | app.py:143-144 | a user's count is zero exactly when no row belongs to them, and never exceeds the table |
| `Quota.EmailCountAppend` | app.py:143-144 | a new row raises its owner's count by one and leaves other users' counts alone |
| `Quota.User.GetMaxEmails` | app.py:132-141 | 999999 for the owner; otherwise base plus extra, plus the temporary bonus exactly while its expiry is in the future |
| `Quota.QuotaShrinksOverTime` | app.py:132-141 | with a non-negative bonus the quota never grows as time passes |
| `Quota.User.CanCreateEmail` | app.py:146-147 | a user may create a mailbox exactly when their own rows number fewer than their quota |
| `Quota.OnlyOwnRowsCount` | app.py:143-147 | a row added for another user leaves the answer unchanged; a row added for the user takes one place of the quota |
| `Quota.RedemptionCode.IsExpired` | app.py:307-310 | a code is expired exactly when it has an expiry and that expiry lies strictly in the past |
| `Quota.RedemptionCode.ExpiryIsFinal` | app.py:307-310 | a code expired at one time stays expired at every later time |
| `Quota.RedemptionCode.CanBeUsed` | app.py:307-317 | a usable code is unexpired and, under a positive cap, below it; a cap of zero or less means unlimited |
| `Quota.ApplyCode` | app.py:1847-1862 | a permanent code adds to the permanent extra; a timed code adds to a live bonus and moves its expiry to the later of the two, or replaces both; the use count rises by one and the code is used up when it reaches a positive cap; the quota grows by the code's amount and a live bonus is never cut short |
| `Quota.FindCode` | app.py:1833 | the first code row whose code equals the key, or none when no row does |
| `Quota.NormalizeCode` | app.py:1831 | the key is the stripped input upper-cased character by character: as long as the stripped input, no whitespace at either end, no lower-case letter |
| `Quota.NormalizeCodeMatches` | app.py:1831-1833 | a generated code of ASCII capitals and digits (app.py:303-305), typed in any letter case and surrounded by any whitespace, normalises to that code, so the lookup finds it |
| `Quota.RedeemCode` | app.py:1829-1867 | the code is normalised by strip and upper; unknown, expired and used-up codes are rejected in that order and change nothing; otherwise exactly that code and the user change as `ApplyCode` states, and the remaining uses are reported |
| `Policy.MinPrefixLength` | app.py:908-918 | users and pro users have a minimum (from the settings, else 7 and 3); other roles have none |
| `Policy.IsBlacklisted` | app.py:924-933 | a prefix is refused exactly when some entry equals its lower-case form or starts with it |
| `Policy.BlacklistIsRowPrefixTest` | app.py:924-933 | a prefix is refused exactly when some entry equals its lower-case form or starts with it |
| `Policy.ShorterPrefixStillBlocked` | app.py:924-933 | the start of a refused prefix is refused too |
| `Policy.LongPrefixNeverBlocked` | app.py:924-933 | a prefix longer than every entry is never refused |
| `Policy.EmptyPrefixBlocked` | app.py:924-933 | the empty prefix is refused exactly when the blacklist is non-empty |
| `Policy.CheckEmailSuffix` | app.py:561-572 | the loop accepts the address exactly when the list is empty or some suffix, lower-cased, ends the lower-cased address |
| `Policy.NormalizeSuffix` | app.py:1791-1797 | a blank input is refused; otherwise the result starts with `@` and ends with the stripped, lower-cased input, with at most one character put in front; an input already starting with `@` is kept as it is once stripped and lower-cased |
| `Policy.NormalizedSuffixIsNormal` | app.py:1791-1797 | a normalised suffix is already stripped and lower-case |
| `Policy.NormalizeSuffixIdempotent` | app.py:1791-1797 | normalising a normalised suffix changes nothing |
| `Policy.AddEmailSuffix` | app.py:1786-1808 | blank and duplicate suffixes are refused; otherwise the normalised suffix is appended |
| `Policy.AddSuffixTwiceRefused` | app.py:1799-1802 | adding the same suffix a second time is refused as a duplicate |
| `Policy.AddedSuffixAdmits` | app.py:561-572 | once a suffix is added, addresses ending in it pass the registration check |
| `Policy.TicketPurgeable` | app.py:1085-1090 | a ticket is removed exactly when it is closed, and closed more than seven days ago or, with no close time, created more than seven days ago; a missing time never matches |
| `Policy.CleanupClosedTickets` | app.py:1083-1095 | exactly the tickets `TicketPurgeable` selects are removed, every other row is kept as often as it occurs, and the count is the number removed; zero exactly when nothing is purgeable |
| `Policy.RecentTicketsSurvive` | app.py:1083-1095 | open tickets and recently closed ones are kept |
| `Policy.CodePurgeable` | app.py:1700-1711 | a code is removed when it is expired or was used up more than two days ago |
| `Policy.CleanupCodes` | app.py:1690-1721 | exactly the codes `CodePurgeable` selects are removed, every other row is kept as often as it occurs, and the count is the number removed, a code matching both filters once; zero exactly when nothing is purgeable |
| `Policy.UsableCodesSurvive` | app.py:1690-1721 | a code that can still be used and is not used up is kept |
| `Panel.FindInput` | app.py:354 | the first input with that name, or none when no input has it |
| `Panel.CsrfToken` | app.py:354 | the value of the first CSRF input; `'value'` when that input has no value; `'NoneType' object is not subscriptable` exactly when there is no CSRF input |
| `Panel.FirstRowMentioning` | app.py:425-432 | the first row whose markup contains one of the fragments, or none when no row does |
| `Panel.ScanRows` | app.py:425-432 | the `for ... break` scan stops at the first row containing one of the fragments, and finds none exactly when no row does |
| `Panel.FindDiv` | app.py:457 | the first div with that id, or none when no div has it |
| `Provision.ProvisionMailbox` | app.py:345-394 | the run satisfies `ProvisionRun`: at most four requests, each sent only after the previous answer allowed it and carrying the token of the page before; success exactly when the creation form was posted and answered with status 200, with the address `prefix + domain`; otherwise the exception text, `登录失败` or `邮箱创建失败` according to where it stopped |
| `Provision.LoggedIn` | app.py:368 | the login counts as successful exactly when the answer shows the mailbox heading or its final URL contains `/mail/add` |
| `Provision.LoginPageLooksLoggedIn` | app.py:368 | a response whose final URL is the login page passes the login check |
| `Provision.ProvisionScenario` | app.py:345-394 | with tokens `abc123` and `def456`, `jdoe` on `@example.com` is created in four requests that post those tokens |
| `Provision.MissingTokenScenario` | app.py:352-354 | a login page without a token stops the workflow after one request, with the exception's text |
| `Reset.DomainLink` | app.py:425-441 | the link of the first row naming the domain; `未找到该域名` exactly when no row names it; `未找到域名链接` exactly when that row has no link; no other failure, so a row with a link always gives its link |
| `Reset.FindDomainLink` | app.py:425-441 | the scan and link lookup give what `DomainLink` states |
| `Reset.ModalForm` | app.py:457-463 | the first form of the first `password_modal_1` div; `未找到密码模态框` and `未找到密码表单` exactly when the div or its form is missing; no other failure, so a modal with a form always gives that form |
| `Reset.FormTarget` | app.py:465-474 | the action (empty when absent) and the CSRF value; `未找到 CSRF token` exactly when no CSRF input; `密码重置失败` exactly when it has no value; `未找到邮箱输入框` exactly when the token is there and `pass_email` is not; no other failure, so a form with both inputs and a token value always gives its target |
| `Reset.PasswordTarget` | app.py:445-474 | `未找到该邮箱` exactly when no row names the local part or the address; otherwise the failure of `ModalForm`, or `FormTarget` of the form it finds |
| `Reset.FindPasswordForm` | app.py:445-474 | the scans and lookups give what `PasswordTarget` states |
| `Reset.MailboxRowTest` | app.py:450 | a row names the local part or the whole address exactly when it names the local part |
| `Reset.MailboxNotFoundIffLocalPartAbsent` | app.py:445-455 | `未找到该邮箱` is reported exactly when no row contains the local part |
| `Reset.MarkersInExactly` | app.py:494-506 | a marker is collected exactly when it is listed and occurs in the answer, ignoring case |
| `Reset.CollectErrorMarkers` | app.py:503-506 | the loop collects exactly the markers that occur in the lower-cased answer, in list order |
| `Reset.OpenMailList` | app.py:405-422 | the login page, the login form with its token, then the mail list, whatever the login answer; stops early only on a transport error or a missing token |
| `Reset.OpenMailboxPage` | app.py:405-442 | up to the mail list, then the page the domain's link leads to; the domain's own messages when its row or link is missing |
| `Reset.ClassifyAnswer` | app.py:491-513 | success exactly when the answer holds one of the two confirmations; every other answer, a transport error included, is `密码重置失败` |
| `Reset.Confirmed` | app.py:491 | the answer confirms the change exactly when its text contains one of the two success messages |
| `Reset.ResetMailboxPassword` | app.py:397-513 | no `@` fails before any request; otherwise at most five requests in order, each with the token or link read from the page before; the password form posts `pass_email`, `password1` and `password2` to the modal's action; success exactly when the answer to that post confirms; every stop has its message |
| `Reset.ResetScenario` | app.py:397-513 | a login rejected with status 403 goes unnoticed, and `jdoe@example.com` gets its new password with the fifth request |
| `Registry.FindDomain` | app.py:935 | the domain row with that key, or none |
| `Registry.FindAddress` | app.py:942 | the first mailbox row with that address, or none |
| `Registry.Precheck` | app.py:887-948 | each rejection is reported exactly when every earlier check passed and its own failed, in the order verified, password, captcha, prefix length, quota, blacklist, domain, address; a request passes exactly when all of them pass; a weak password reports its complaints, a short prefix its minimum |
| `Registry.CheckRequest` | app.py:887-948 | the checks, run one after another, reject with what `Precheck` states |
| `Registry.EarlyRejectionIgnoresTables` | app.py:887-933 | a request turned down before the blacklist lookup is turned down the same way whatever the blacklist and the domain table hold |
| `Registry.CreateEmail` | app.py:885-966 | nothing is sent to the panel unless every check passed; then the trace is a run of `ProvisionMailbox` for `prefix` and the name of the domain, and the decision is `Created` with its address when that run succeeded and `ProvisioningFailed` with its message otherwise; the row `prefix + domain` is appended exactly when the panel answered the creation form with status 200; otherwise the table is unchanged |
| `Registry.CreationWithinQuota` | app.py:948-964 | the row added for a user who had room raises their count by one and keeps it within quota |
| `Registry.AddressesStayUnique` | app.py:164-172 | appending only unused addresses keeps the table's addresses distinct |

## Left out

- Flask routing, templates, `flash` texts, sessions and authorisation redirects are web
  plumbing. Handlers are modelled by their decisions.
- SQLAlchemy queries and commits are out. Tables are sequences.
  - `filter_by(...).first()` is the first matching row.
  - The SQL `LIKE` wildcards `%` and `_` inside a user's prefix are not modelled. The
    blacklist test is the plain `startswith` it is meant to be.
- HTTP itself is out: the `requests` session, cookies, headers, the user agent and
  timeouts. BeautifulSoup parsing is out too. The panel is a function of the request
  history, and a page is its already-parsed inputs, rows and divs.
- The account credentials come from the environment and are a parameter (`Account`). The
  case where they are unset is not modelled.
- reCAPTCHA verification is network I/O; its verdict is a parameter of
  `Registry.CreateEmail`. `send_email` is left out for the same reason.
- `generate_uid`, `generate_token` and `RedemptionCode.generate_code` use randomness and
  are left out.
- `init_db`, `init_db.py`, `update_db.py` and `migrate_db.py` are schema and seeding
  scripts. The static JavaScript is UI effects. All are left out.
- `admin_change_role`'s writes of `pro_expires_at` and `is_permanent` go to attributes
  that are not mapped columns, so they have no defined effect. They are left out.
- Text functions:
  - Python's `lower`, `upper` and `isupper`/`islower` are modelled for ASCII and Polish
    letters only.
  - `isdigit` is modelled for ASCII digits only.
  - Other Unicode case mappings and digits are not covered.
- The cleanup jobs are modelled as the filters they apply and the count they report. The
  individual deletes and the commit are not modelled.
- `Reset.ResetMailboxPassword`: an address without `@` makes the source raise
  `ValueError` out of the handler. The model returns `MalformedAddress` instead, with no
  request sent.
- `Quota.RedeemCode`: the handler reads the clock at each `datetime.utcnow()` call
  (app.py:1839-1862), the model once per request. A code that expires between the expiry
  check and the use check is not modelled.
- `Policy.CleanupClosedTickets` and `Policy.CleanupCodes`: the contracts state which rows
  remain and how often, not their order. Table rows have no order the handlers rely on.
- `Provision.ProvisionMailbox` and `Reset.ResetMailboxPassword`: the panel is a
  deterministic function of the request history. Timing and concurrency between
  workflows are not modelled.
